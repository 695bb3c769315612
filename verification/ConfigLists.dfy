/** Lists and numbers of the configuration language as a reader of its documents expects them, and where the
  * parser of source/utils/clog_config.c reads something else: it does not look at the character behind a comma,
  * and it sums digits in 64 bits.
  */
module ConfigLists {
  import opened Common
  import opened Config
  import opened ConfigGrammar
  import opened ConfigRoundTrip

  // ----- Numbers -----

  /** A numeral, whatever its radix and however long, is read as the number it stands for if and only if that
    * fits 32 bits; it is refused if and only if its low 64 bits do not fit. */
  lemma NumeralExactly(s: string, i: nat, radix: nat, t: string)
    requires IsRadix(radix) && t != "" && AllDigits(radix, t)
    requires var w := Numeral(radix, t); HasAt(s, i, Shown(w)) && Ended(w, s, i + |Shown(w)|)
    ensures ParseValue(s, i) == Parsed(UInt(Worth(radix, t)), i + |Shown(Numeral(radix, t))|) <==>
            Worth(radix, t) < UINT32_LIMIT
    ensures ParseValue(s, i).Bad? <==> Low64(Worth(radix, t)) >= UINT32_LIMIT
  {
    hide *;
    NumeralCounts(s, i, radix, t);
    NumberFits(Worth(radix, t), i + |Shown(Numeral(radix, t))|);
  }

  lemma NumeralCounts(s: string, i: nat, radix: nat, t: string)
    requires IsRadix(radix) && t != "" && AllDigits(radix, t)
    requires var w := Numeral(radix, t); HasAt(s, i, Shown(w)) && Ended(w, s, i + |Shown(w)|)
    ensures i < |s| && ParseValue(s, i) == Counted(Worth(radix, t), i + |Shown(Numeral(radix, t))|)
  {
    hide *;
    NumeralIsRead(s, i, radix, t);
    NumeralKind(s, i, radix, t);
  }

  lemma NumberFits(n: nat, next: nat)
    ensures Counted(n, next) == Parsed(UInt(n), next) <==> n < UINT32_LIMIT
    ensures Counted(n, next).Bad? <==> Low64(n) >= UINT32_LIMIT
  {}

  lemma NumeralKind(s: string, i: nat, radix: nat, t: string)
    requires IsRadix(radix) && t != "" && AllDigits(radix, t) && HasAt(s, i, Shown(Numeral(radix, t)))
    ensures i < |s| && ParseValue(s, i) == ParseNumber(s, i)
  {
    HasChar(s, i, Shown(Numeral(radix, t)), 0);
    if radix == 10 { assert t[0] in t; }
    hide ParseNumber, ParseItems, StringBody, HasAt;
  }

  /** Every number below 2^32 is read back from its numeral behind 0x, with letters of either case, 0o, 0b or
    * nothing; no greater one is. */
  lemma NumbersExactly(s: string, i: nat, radix: nat, n: nat, digits: string)
    requires IsRadix(radix) && (digits == LOWER || digits == UPPER)
    requires var w := Numeral(radix, DigitsOf(radix, n, digits)); HasAt(s, i, Shown(w)) && Ended(w, s, i + |Shown(w)|)
    ensures var end := i + |Shown(Numeral(radix, DigitsOf(radix, n, digits)))|;
            ParseValue(s, i) == Parsed(UInt(n), end) <==> n < UINT32_LIMIT
  {
    assert |digits| == 16;
    hide *;
    WorthOfDigits(radix, n, digits);
    NumeralExactly(s, i, radix, DigitsOf(radix, n, digits));
  }

  /** 2^64 + 1, which is 0x10000000000000001, is not refused, but read as 1. */
  lemma WrapsToOne(s: string)
    requires s == Shown(Numeral(16, DigitsOf(16, UINT64_LIMIT + 1, LOWER)))
    ensures ParseValue(s, 0) == Parsed(UInt(1), |s|)
  {
    var t := DigitsOf(16, UINT64_LIMIT + 1, LOWER);
    assert |LOWER| == 16 && IsRadix(16);
    WorthOfDigits(16, UINT64_LIMIT + 1, LOWER);
    hide *;
    WholeNumeral(s, 16, t);
    CountedWraps(|s|);
  }

  lemma WholeNumeral(s: string, radix: nat, t: string)
    requires IsRadix(radix) && t != "" && AllDigits(radix, t) && s == Shown(Numeral(radix, t))
    ensures ParseValue(s, 0) == Counted(Worth(radix, t), |s|)
  {
    WholeAt(s);
    hide AllDigits, DigitValue, Worth, Counted, ParseValue, Shown, HasAt;
    NumeralCounts(s, 0, radix, t);
  }

  lemma CountedWraps(next: nat)
    ensures Counted(UINT64_LIMIT + 1, next) == Parsed(UInt(1), next)
  {}

  // ----- Lists -----

  /** Printed items, with the given blanks behind the commas. */
  function Separated(items: seq<Value>, gaps: seq<string>): string
    requires items != [] && |gaps| + 1 == |items|
  {
    if |items| == 1 then Dump(items[0]) + "]" else Dump(items[0]) + ("," + (gaps[0] + Separated(items[1..], gaps[1..])))
  }

  ghost predicate AllBlanks(gaps: seq<string>) {
    forall g :: g in gaps ==> Blanks(g)
  }

  /** A list comes back if and only if there is a blank behind every comma: the parser does not look at the
    * character there. */
  lemma ListsExactly(s: string, i: nat, items: seq<Value>, gaps: seq<string>)
    requires items != [] && |gaps| + 1 == |items| && Printable(Array(items)) && AllBlanks(gaps)
    requires HasAt(s, i, "[" + Separated(items, gaps))
    ensures ParseValue(s, i) == Parsed(Array(items), i + 1 + |Separated(items, gaps)|) <==> "" !in gaps
    ensures ParseValue(s, i).Parsed? && ParseValue(s, i).v == Array(items) <==> "" !in gaps
  {
    HasParts(s, i, "[", Separated(items, gaps));
    HasChar(s, i, "[", 0);
    PrintableItems(items);
    assert [] + items == items;
    hide Separated, HasAt, Printable, ParseItems, ParseNumber, StringBody;
    SeparatedStart(s, i + 1, items, gaps);
    StandingItem(s, i + 1, items[0]);
    if "" !in gaps { SpacedIsRead(s, i, [], items, gaps); } else { UnspacedIsNot(s, i, [], items, gaps); }
  }

  /** s goes on with a printed value and then a comma or a bracket. */
  ghost predicate ItemStands(s: string, a: nat, v: Value) {
    HasAt(s, a, Dump(v)) && a + |Dump(v)| < |s| && (s[a + |Dump(v)|] == ',' || s[a + |Dump(v)|] == ']')
  }

  lemma SeparatedStart(s: string, e: nat, items: seq<Value>, gaps: seq<string>)
    requires items != [] && |gaps| + 1 == |items| && HasAt(s, e, Separated(items, gaps))
    ensures ItemStands(s, e, items[0])
    ensures var j := e + |Dump(items[0])|;
            && j < |s| && s[j] == (if |items| == 1 then ']' else ',')
            && (|items| > 1 ==> HasAt(s, j + 1, gaps[0] + Separated(items[1..], gaps[1..])))
  {
    var d := Dump(items[0]);
    if |items| == 1 {
      assert Separated(items, gaps) == d + "]";
      hide *;
      HasParts(s, e, d, "]");
      HasChar(s, e + |d|, "]", 0);
      Stands(s, e, items[0]);
    } else {
      var rest := gaps[0] + Separated(items[1..], gaps[1..]);
      assert Separated(items, gaps) == d + ("," + rest);
      hide *;
      ThreeParts(s, e, d, ",", rest);
      HasChar(s, e + |d|, ",", 0);
      Stands(s, e, items[0]);
    }
  }

  lemma Stands(s: string, a: nat, v: Value)
    requires HasAt(s, a, Dump(v)) && a + |Dump(v)| < |s| && (s[a + |Dump(v)|] == ',' || s[a + |Dump(v)|] == ']')
    ensures ItemStands(s, a, v)
  {}

  lemma StandingItem(s: string, e: nat, v: Value)
    requires ItemStands(s, e, v)
    ensures HasAt(s, e, Dump(v)) && e < |s| && Skip(s, e) == e && s[e] != ']' && !Blank(s[e])
    ensures var j := e + |Dump(v)|; e < j < |s| && Ended(Sentence(v), s, j) && Skip(s, j) == j
  {
    DumpStart(v);
    HasChar(s, e, Dump(v), 0);
    hide Dump, HasAt, Sentence;
    SkipStays(s, e);
    SkipStays(s, e + |Dump(v)|);
    Closed(Sentence(v), s, e + |Dump(v)|);
  }

  lemma Closed(w: Written, s: string, j: nat)
    requires j < |s| && (s[j] == ']' || s[j] == ',')
    ensures Ended(w, s, j)
  {}

  /** One item before a comma. */
  lemma FirstIsRead(s: string, tmp: nat, e: nat, before: seq<Value>, items: seq<Value>, gaps: seq<string>)
    requires tmp < e <= |s| && Skip(s, tmp + 1) == e && items != [] && |gaps| + 1 == |items| && Printable(items[0])
    requires HasAt(s, e, Separated(items, gaps))
    ensures var j := e + |Dump(items[0])|;
            && ParseValue(s, e) == Parsed(items[0], j)
            && (|items| == 1 ==> ParseItems(s, tmp, before) == Parsed(Array(before + [items[0]]), j + 1))
            && (|items| > 1 && j + 1 < |s| ==> ParseItems(s, tmp, before) == ParseItems(s, j + 1, before + [items[0]]))
  {
    hide *;
    SeparatedStart(s, e, items, gaps);
    StandingItem(s, e, items[0]);
    ValueRoundTrip(s, e, items[0]);
    ItemsStep(s, tmp, e, before, items[0], e + |Dump(items[0])|);
  }

  lemma {:induction false} SpacedIsRead(s: string, tmp: nat, before: seq<Value>, items: seq<Value>, gaps: seq<string>)
    requires items != [] && |gaps| + 1 == |items| && AllBlanks(gaps) && "" !in gaps
    requires forall k :: 0 <= k < |items| ==> Printable(items[k])
    requires tmp < |s| && HasAt(s, Skip(s, tmp + 1), Separated(items, gaps))
    ensures ParseItems(s, tmp, before) == Parsed(Array(before + items), Skip(s, tmp + 1) + |Separated(items, gaps)|)
    decreases |items|
  {
    hide ParseItems, ParseValue, Skip, HasAt, Printable, Dump, Ended;
    var e := Skip(s, tmp + 1);
    SeparatedStart(s, e, items, gaps);
    FirstIsRead(s, tmp, e, before, items, gaps);
    if |items| == 1 {
      assert before + items == before + [items[0]];
    } else {
      var j := e + |Dump(items[0])|;
      var rest := Separated(items[1..], gaps[1..]);
      AfterComma(s, j, gaps[0], items[1..], gaps[1..]);
      SpacedIsRead(s, j + 1, before + [items[0]], items[1..], gaps[1..]);
      assert before + [items[0]] + items[1..] == before + items;
    }
  }

  lemma AfterComma(s: string, j: nat, gap: string, items: seq<Value>, gaps: seq<string>)
    requires items != [] && |gaps| + 1 == |items| && Blanks(gap) && gap != ""
    requires HasAt(s, j + 1, gap + Separated(items, gaps))
    ensures j + 1 < |s| && Skip(s, j + 2) == j + 1 + |gap| && HasAt(s, j + 1 + |gap|, Separated(items, gaps))
  {
    var text := Separated(items, gaps);
    HasParts(s, j + 1, gap, text);
    SeparatedStart(s, j + 1 + |gap|, items, gaps);
    StandingItem(s, j + 1 + |gap|, items[0]);
    assert gap == [gap[0]] + gap[1..];
    HasParts(s, j + 1, [gap[0]], gap[1..]);
    assert Blanks(gap[1..]) by { assert forall c :: c in gap[1..] ==> c in gap; }
    hide HasAt, Separated, Dump;
    SkipOver(s, j + 2, gap[1..]);
  }

  // Without a blank behind a comma the first character of the next item is lost, and another value is read.

  lemma {:induction false} LeadingDigit(c: char, k: nat, t: string)
    requires AllDigits(10, t) && DigitValue(10, c) == Some(k) && k > 0
    ensures AllDigits(10, [c] + t) && Worth(10, [c] + t) > Worth(10, t)
    decreases |t|
  {
    if t == "" {
      assert [c] + t == "" + [c];
      WorthSnoc(10, "", c, k);
      WorthOfEmpty(10);
    } else {
      var n := |t| - 1;
      var front, v := t[..n], DigitValue(10, t[n]).value;
      assert t == front + [t[n]] && [c] + t == [c] + front + [t[n]];
      hide DigitValue, Worth;
      LeadingDigit(c, k, front);
      WorthSnoc(10, front, t[n], v);
      WorthSnoc(10, [c] + front, t[n], v);
    }
  }

  lemma {:induction false} NoLeadingZero(n: nat)
    requires n > 0
    ensures '1' <= Decimal(n)[0] <= '9'
  {
    if n >= 10 { NoLeadingZero(n / 10); }
  }

  /** The value is not what is read behind its first character. */
  ghost predicate NotRead(s: string, i: nat, v: Value) {
    i < |s| && (s[i] == ']' || !(ParseValue(s, i).Parsed? && ParseValue(s, i).v == v))
  }

  lemma LostDigit(s: string, a: nat, n: nat)
    requires n < UINT32_LIMIT && ItemStands(s, a, UInt(n))
    ensures a + 1 <= |s| && NotRead(s, Skip(s, a + 1), UInt(n))
  {
    var d := Decimal(n);
    assert Dump(UInt(n)) == d;
    if |d| == 1 {
      SkipStays(s, a + 1);
    } else {
      var t := d[1..];
      assert d == [d[0]] + t;
      hide Decimal;
      HasParts(s, a, [d[0]], t);
      DigitsBehind(n);
      OtherNumber(s, a + 1, t, n);
    }
  }

  lemma OtherNumber(s: string, i: nat, t: string, n: nat)
    requires AllDigits(10, t) && t != "" && Worth(10, t) < n < UINT32_LIMIT && HasAt(s, i, t)
    requires i + |t| < |s| && (s[i + |t|] == ',' || s[i + |t|] == ']')
    ensures i <= |s| && NotRead(s, Skip(s, i), UInt(n))
  {
    HasChar(s, i, t, 0);
    DigitStays(s, i, t);
    DecimalBefore(s, i, t);
    hide *;
    ReadAsOther(s, i, Worth(10, t), n, i + |t|);
  }

  lemma DecimalBefore(s: string, i: nat, t: string)
    requires AllDigits(10, t) && t != "" && Worth(10, t) < UINT32_LIMIT && HasAt(s, i, t)
    requires i + |t| < |s| && (s[i + |t|] == ',' || s[i + |t|] == ']')
    ensures ParseValue(s, i) == Parsed(UInt(Worth(10, t)), i + |t|)
  {
    Closed(Numeral(10, t), s, i + |t|);
    DigitKind(s, i, t);
    hide *;
    DecimalIsRead(s, i, t);
    NumberFits(Worth(10, t), i + |t|);
  }

  lemma DigitKind(s: string, i: nat, t: string)
    requires AllDigits(10, t) && t != "" && HasAt(s, i, t)
    ensures i < |s| && ParseValue(s, i) == ParseNumber(s, i)
  {
    HasChar(s, i, t, 0);
    assert t[0] in t;
    hide ParseNumber, ParseItems, StringBody, HasAt;
  }

  lemma ReadAsOther(s: string, i: nat, m: nat, n: nat, next: nat)
    requires i < |s| && ParseValue(s, i) == Parsed(UInt(m), next) && m != n
    ensures NotRead(s, i, UInt(n))
  {
    hide ParseValue;
  }

  lemma DigitStays(s: string, i: nat, t: string)
    requires AllDigits(10, t) && t != "" && i < |s| && s[i] == t[0]
    ensures Skip(s, i) == i
  {
    assert t[0] in t;
  }

  lemma DigitsBehind(n: nat)
    requires |Decimal(n)| > 1
    ensures var t := Decimal(n)[1..]; AllDigits(10, t) && Worth(10, t) < n
  {
    var d := Decimal(n);
    DecimalIsNumeral(n);
    WorthOfDigits(10, n, LOWER);
    NoLeadingZero(n);
    assert d == [d[0]] + d[1..];
    assert AllDigits(10, d[1..]) by { assert forall c :: c in d[1..] ==> c in d; }
    LeadingDigit(d[0], DigitValue(10, d[0]).value, d[1..]);
  }

  lemma LostLetter(s: string, a: nat, b: bool)
    requires ItemStands(s, a, Flag(b))
    ensures a + 1 <= |s| && NotRead(s, Skip(s, a + 1), Flag(b))
  {
    HasChar(s, a, Dump(Flag(b)), 1);
    SkipStays(s, a + 1);
  }

  lemma LostQuote(s: string, a: nat, t: string)
    requires Printable(Text(t)) && ItemStands(s, a, Text(t))
    ensures a + 1 <= |s| && NotRead(s, Skip(s, a + 1), Text(t))
  {
    var q := a + 1 + |t|;
    assert Dump(Text(t)) == "\"" + (t + "\"");
    hide HasAt, Dump, NotRead;
    ThreeParts(s, a, "\"", t, "\"");
    HasChar(s, q, "\"", 0);
    var i := Skip(s, a + 1);
    assert BlankRun(s, a + 1, i) && !Blank(s[q]);
    if i < q {
      HasChar(s, a + 1, t, i - a - 1);
      assert s[i] in t;
      NotQuoted(s, i, t);
    } else {
      if t != "" { HasChar(s, a + 1, t, 0); }
      ClosingQuote(s, q, t);
    }
  }

  lemma ClosingQuote(s: string, q: nat, t: string)
    requires q + 1 < |s| && s[q] == '"' && (s[q + 1] == ',' || s[q + 1] == ']') && (t != "" ==> Blank(t[0]))
    ensures NotRead(s, q, Text(t))
  {
    SkipStays(s, q);
    assert t != "" ==> Escaped(t)[0] == t[0];
    if HasAt(s, q + 1, Escaped(t) + "\"") { HasChar(s, q + 1, Escaped(t) + "\"", 0); }
    hide HasAt, StringBody, Escaped;
    TextExactly(s, q + 1, t);
  }

  lemma NotQuoted(s: string, i: nat, t: string)
    requires i < |s| && s[i] != '"' && !Blank(s[i])
    ensures NotRead(s, i, Text(t))
  {
    SkipStays(s, i);
    OnlySmallNumbers(s, i);
    OnlyFlags(s, i);
    if s[i] == '[' { ItemsExtend(s, i, []); }
    hide ParseNumber, ParseItems, StringBody, ParseBool;
  }

  lemma LostBracket(s: string, a: nat, items: seq<Value>)
    requires Printable(Array(items)) && ItemStands(s, a, Array(items))
    ensures a + 1 <= |s| && NotRead(s, Skip(s, a + 1), Array(items))
  {
    HasChar(s, a, Dump(Array(items)), 1);
    HasChar(s, a, Dump(Array(items)), 2);
    if items == [] {
      SkipOne(s, a + 1);
    } else {
      FirstStands(s, a, items);
      PrintableItems(items);
      hide Dump, DumpItems, Printable, HasAt;
      ValueRoundTrip(s, a + 2, items[0]);
      assert items[0] < Array(items);
    }
  }

  lemma FirstStands(s: string, a: nat, items: seq<Value>)
    requires items != [] && HasAt(s, a, Dump(Array(items)))
    ensures HasAt(s, a + 2, Dump(items[0])) && Skip(s, a + 1) == a + 2 && Ended(Sentence(items[0]), s, a + 2 + |Dump(items[0])|)
  {
    var d := Dump(items[0]);
    var tail := if |items| == 1 then " ]" else ", " + (DumpItems(items[1..]) + " ]");
    DumpArray(items);
    DumpItemsStep(items);
    DumpStart(items[0]);
    assert Dump(Array(items)) == "[" + (" " + (d + tail));
    hide *;
    HasParts(s, a, "[", " " + (d + tail));
    ThreeParts(s, a + 1, " ", d, tail);
    FirstBehind(s, a, items[0], tail);
  }

  lemma FirstBehind(s: string, a: nat, v: Value, tail: string)
    requires HasAt(s, a + 1, " ") && HasAt(s, a + 2, Dump(v)) && HasAt(s, a + 2 + |Dump(v)|, tail)
    requires tail != "" && (tail[0] == ' ' || tail[0] == ',')
    ensures Skip(s, a + 1) == a + 2 && Ended(Sentence(v), s, a + 2 + |Dump(v)|)
  {
    DumpStart(v);
    hide Dump, HasAt, Sentence;
    HasChar(s, a + 1, " ", 0);
    HasChar(s, a + 2, Dump(v), 0);
    HasChar(s, a + 2 + |Dump(v)|, tail, 0);
    SkipOne(s, a + 1);
  }

  lemma LostFirst(s: string, a: nat, v: Value)
    requires Printable(v) && ItemStands(s, a, v)
    ensures a + 1 <= |s| && NotRead(s, Skip(s, a + 1), v)
  {
    hide ItemStands, NotRead;
    match v
    case UInt(n) => LostDigit(s, a, n);
    case Flag(b) => LostLetter(s, a, b);
    case Text(t) => LostQuote(s, a, t);
    case Array(items) => LostBracket(s, a, items);
  }

  lemma {:induction false} UnspacedIsNot(s: string, tmp: nat, before: seq<Value>, items: seq<Value>, gaps: seq<string>)
    requires items != [] && |gaps| + 1 == |items| && AllBlanks(gaps) && "" in gaps
    requires forall k :: 0 <= k < |items| ==> Printable(items[k])
    requires tmp < |s| && HasAt(s, Skip(s, tmp + 1), Separated(items, gaps))
    ensures ParseItems(s, tmp, before).Parsed? ==> ParseItems(s, tmp, before).v != Array(before + items)
    decreases |items|
  {
    hide ParseItems, ParseValue, Skip, HasAt, Printable, Dump, Ended, Separated, ItemStands;
    var e := Skip(s, tmp + 1);
    SeparatedStart(s, e, items, gaps);
    FirstIsRead(s, tmp, e, before, items, gaps);
    var j := e + |Dump(items[0])|;
    var done := before + [items[0]];
    assert done + items[1..] == before + items;
    if gaps[0] != "" {
      AfterComma(s, j, gaps[0], items[1..], gaps[1..]);
      UnspacedIsNot(s, j + 1, done, items[1..], gaps[1..]);
    } else {
      assert gaps[0] + Separated(items[1..], gaps[1..]) == Separated(items[1..], gaps[1..]);
      SeparatedStart(s, j + 1, items[1..], gaps[1..]);
      LostItem(s, j + 1, done, items[1..]);
    }
  }

  lemma LostItem(s: string, tmp: nat, before: seq<Value>, items: seq<Value>)
    requires tmp < |s| && items != [] && Printable(items[0]) && ItemStands(s, tmp, items[0])
    ensures ParseItems(s, tmp, before).Parsed? ==> ParseItems(s, tmp, before).v != Array(before + items)
  {
    LostFirst(s, tmp, items[0]);
    hide ItemStands, Printable;
    var o, i := ParseItems(s, tmp, before), Skip(s, tmp + 1);
    if o.Parsed? && o.v == Array(before + items) {
      ItemParsed(s, tmp, before, i);
      assert s[i] != ']' by {
        if s[i] == ']' { Closes(s, tmp, before); }
      }
      hide ParseItems, ParseValue, Skip;
      FirstItem(s, tmp, i, before, items, o.next);
    }
  }
}
