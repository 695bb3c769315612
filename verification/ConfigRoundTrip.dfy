/** What the printer of source/utils/clog_config.c writes, read by its parser: as sentences of the language of
  * module ConfigGrammar.
  */
module ConfigRoundTrip {
  import opened Common
  import opened Config
  import opened ConfigGrammar

  /** What the round trip is promised for. */
  predicate Printable(v: Value) {
    match v
    case UInt(n) => n < UINT32_LIMIT
    case Flag(_) => true
    case Text(s) => '"' !in s && '\\' !in s
    case Array(items) => forall i :: 0 <= i < |items| ==> Printable(items[i])
  }

  /** The sentence that is printed for a value. */
  function Sentence(v: Value): Written
    decreases v, 0
  {
    match v
    case UInt(n) => Numeral(10, Decimal(n))
    case Flag(b) => Word(b)
    case Text(s) => Quoted(s)
    case Array(items) => Listed(if items == [] then Close(" ") else Sentences(" ", items))
  }

  function Sentences(lead: string, items: seq<Value>): Rest
    requires items != []
    decreases items
  {
    if |items| == 1 then Last(lead, Sentence(items[0]), " ")
    else More(lead, Sentence(items[0]), "", ' ', Sentences("", items[1..]))
  }

  lemma {:induction false} DecimalIsNumeral(n: nat)
    ensures Decimal(n) == DigitsOf(10, n, LOWER)
  {
    assert ['0' + (n % 10) as char] == [LOWER[n % 10]];
    if n >= 10 { DecimalIsNumeral(n / 10); }
  }

  lemma {:induction false} PlainIsEscaped(t: string)
    requires '"' !in t && '\\' !in t
    ensures Escaped(t) == t
  {
    if t != "" {
      assert t[0] in t;
      PlainIsEscaped(t[1..]);
    }
  }

  /** What a printed value starts with tells the parser its kind. */
  lemma DumpStart(v: Value)
    ensures Dump(v) != ""
    ensures var c := Dump(v)[0];
            && !Blank(c) && c != ']'
            && match v
               case UInt(_) => '0' <= c <= '9'
               case Flag(b) => c == if b then 't' else 'f'
               case Text(_) => c == '"'
               case Array(_) => c == '['
  {
    if v.UInt? { assert Decimal(v.n)[0] in Decimal(v.n); }
  }

  lemma DumpArray(items: seq<Value>)
    requires items != []
    ensures Dump(Array(items)) == "[" + (" " + (DumpItems(items) + " ]"))
  {}

  lemma Associative(a: string, b: string, c: string, d: string)
    ensures a + b + c + d == a + (b + (c + d))
  {}

  lemma DumpItemsStep(items: seq<Value>)
    requires items != []
    ensures |items| == 1 ==> DumpItems(items) == Dump(items[0])
    ensures |items| > 1 ==> DumpItems(items) + " ]" == Dump(items[0]) + (", " + (DumpItems(items[1..]) + " ]"))
  {
    if |items| > 1 { Associative(Dump(items[0]), ", ", DumpItems(items[1..]), " ]"); }
  }

  /** Printing writes a sentence that means the value. */
  lemma {:induction false} DumpIsSentence(v: Value)
    requires Printable(v)
    ensures var w := Sentence(v); Shown(w) == Dump(v) && Sound(w) && Meant(w) == v
    decreases v, 1
  {
    match v
    case UInt(n) => NumberIsSentence(n);
    case Flag(b) =>
    case Text(s) => PlainIsEscaped(s);
    case Array(items) =>
      hide Printable, Dump, DumpItems, ShownRest, Sentences;
      if items != [] {
        PrintableItems(items);
        ItemsAreSentences(" ", items, v);
      }
      ListIsSentence(items);
  }

  lemma NumberIsSentence(n: nat)
    requires n < UINT32_LIMIT
    ensures var w := Numeral(10, Decimal(n)); Shown(w) == Decimal(n) && Sound(w) && Meant(w) == UInt(n)
  {
    DecimalIsNumeral(n);
    WorthOfDigits(10, n, LOWER);
    SmallNumber(n);
    hide Worth, AllDigits, DigitsOf, Decimal, Low64;
  }

  lemma SmallNumber(n: nat)
    requires n < UINT32_LIMIT
    ensures Low64(n) == n
  {}

  lemma PrintableItems(items: seq<Value>)
    requires Printable(Array(items))
    ensures forall k :: 0 <= k < |items| ==> Printable(items[k])
  {}

  lemma ListIsSentence(items: seq<Value>)
    requires items != [] ==>
               var r := Sentences(" ", items);
               ShownRest(r) == " " + (DumpItems(items) + " ]") && SoundRest(r) && Items(r) == items
    ensures var w := Sentence(Array(items)); Shown(w) == Dump(Array(items)) && Sound(w) && Meant(w) == Array(items)
  {
    hide DumpItems, Sentences;
    if items != [] { DumpArray(items); } else { assert Blanks(" "); }
  }

  lemma {:induction false} ItemsAreSentences(lead: string, items: seq<Value>, whole: Value)
    requires items != [] && Blanks(lead) && forall k :: 0 <= k < |items| ==> Printable(items[k]) && items[k] < whole
    ensures var r := Sentences(lead, items);
            ShownRest(r) == lead + (DumpItems(items) + " ]") && SoundRest(r) && Items(r) == items
    decreases whole, 0, |items|
  {
    hide Dump, Printable, Sound, Meant, Shown;
    DumpIsSentence(items[0]);
    DumpItemsStep(items);
    if |items| > 1 {
      ItemsAreSentences("", items[1..], whole);
      assert "" + (DumpItems(items[1..]) + " ]") == DumpItems(items[1..]) + " ]";
      assert [' '] + (DumpItems(items[1..]) + " ]") == " " + (DumpItems(items[1..]) + " ]");
    }
  }

  /** Wherever a printed value stands, if it is not continued, the parser reads it back and stops right behind
    * it. */
  lemma ValueRoundTrip(s: string, i: nat, v: Value)
    requires Printable(v) && HasAt(s, i, Dump(v)) && Ended(Sentence(v), s, i + |Dump(v)|)
    ensures ParseValue(s, i) == Parsed(v, i + |Dump(v)|)
  {
    DumpIsSentence(v);
    hide *;
    WrittenIsRead(s, i, Sentence(v));
  }

  lemma ItemsStart(items: seq<Value>)
    requires items != []
    ensures (DumpItems(items) + " ]")[0] == Dump(items[0])[0]
    ensures !Blank(Dump(items[0])[0])
  {
    DumpStart(items[0]);
  }

  /** An item's text d before the end of the array ... */
  lemma AtClose(s: string, e: nat, d: string)
    requires HasAt(s, e, d + " ]") && d != "" && d[0] != ']'
    ensures HasAt(s, e, d) && (e + |d| < |s|) && (Blank(s[e + |d|]) || s[e + |d|] == ',') && e + |d| + 1 < |s| && s[e] != ']'
    ensures Skip(s, e + |d|) == e + |d| + 1 && s[e + |d| + 1] == ']'
  {
    HasParts(s, e, d, " ]");
    hide HasAt;
    HasChar(s, e, d, 0);
    HasChar(s, e + |d|, " ]", 0);
    HasChar(s, e + |d|, " ]", 1);
    SkipOne(s, e + |d|);
  }

  /** ... or before another. */
  lemma AtComma(s: string, e: nat, d: string, rest: string)
    requires HasAt(s, e, d + (", " + rest)) && d != "" && d[0] != ']' && rest != "" && !Blank(rest[0])
    ensures HasAt(s, e, d) && (e + |d| < |s|) && (Blank(s[e + |d|]) || s[e + |d|] == ',') && e + |d| + 2 < |s| && s[e] != ']'
    ensures Skip(s, e + |d|) == e + |d| && s[e + |d|] == ','
    ensures HasAt(s, e + |d| + 2, rest) && Skip(s, e + |d| + 2) == e + |d| + 2
  {
    HasParts(s, e, d, ", " + rest);
    HasParts(s, e + |d|, ", ", rest);
    assert |", "| == 2;
    hide HasAt;
    HasChar(s, e, d, 0);
    HasChar(s, e + |d|, ", ", 0);
    HasChar(s, e + |d| + 2, rest, 0);
    SkipStays(s, e + |d|);
    SkipStays(s, e + |d| + 2);
  }

  // ----- Nothing else comes back: the printer does not escape, the parser has 32 bits -----

  lemma {:induction false} StringBodyExtends(s: string, i: nat, escaping: bool, out: string)
    requires i <= |s|
    ensures var o := StringBody(s, i, escaping, out); o.Parsed? ==> o.v.Text? && out <= o.v.s
    decreases |s| - i
  {
    if i < |s| {
      if escaping {
        if s[i] == '\\' || s[i] == '"' { StringBodyExtends(s, i + 1, false, out + [s[i]]); }
      } else if s[i] == '\\' {
        StringBodyExtends(s, i + 1, true, out);
      } else if s[i] != '"' {
        StringBodyExtends(s, i + 1, false, out + [s[i]]);
      }
    }
  }

  /** A quote read as a character where t has none yet. */
  lemma StrayQuote(s: string, i: nat, out: string, t: string, k: nat)
    requires i <= |s| && |out| < k <= |t| && '"' !in t[..k]
    ensures var o := StringBody(s, i, false, out + ['"']); o.Parsed? ==> o.v != Text(t)
  {
    StringBodyExtends(s, i, false, out + ['"']);
    assert t[..k][|out|] == t[|out|] && t[..k][|out|] in t[..k];
    assert (out + ['"'])[|out|] == '"';
  }

  /** A printed string is read back, wherever its reader stops, only if it holds neither quote nor backslash.
    * The reader has done k characters of t; once it has met an escape it lags behind. */
  lemma {:induction false} OnlyPlainText(s: string, start: nat, t: string, k: nat, escaping: bool, out: string)
    requires HasAt(s, start, t + "\"") && k <= |t| && '"' !in t[..k]
    requires |out| + (if escaping then 1 else 0) <= k && (|out| == k ==> '\\' !in t[..k])
    requires start + k <= |s|
    ensures var o := StringBody(s, start + k, escaping, out); o.Parsed? && o.v == Text(t) ==> '"' !in t && '\\' !in t
    decreases |t| - k
  {
    HasChar(s, start, t + "\"", k);
    if k == |t| {
      assert t[..k] == t;
      if escaping { StrayQuote(s, start + k + 1, out, t, k); }
    } else {
      var c := t[k];
      assert t[..k + 1] == t[..k] + [c];
      if c == '"' {
        if escaping { StrayQuote(s, start + k + 1, out, t, k); }
      } else if escaping {
        if c == '\\' { OnlyPlainText(s, start, t, k + 1, false, out + [c]); }
      } else if c == '\\' {
        OnlyPlainText(s, start, t, k + 1, true, out);
      } else {
        OnlyPlainText(s, start, t, k + 1, false, out + [c]);
      }
    }
  }

  lemma OnlySmallNumbers(s: string, i: nat)
    requires i < |s|
    ensures var o := ParseNumber(s, i); o.Parsed? ==> o.v.UInt? && o.v.n < UINT32_LIMIT
  {}

  lemma {:induction false} ItemsExtend(s: string, tmp: nat, items: seq<Value>)
    requires tmp < |s|
    ensures var o := ParseItems(s, tmp, items); o.Parsed? ==> o.v.Array? && items <= o.v.items
    decreases |s| - tmp
  {
    var i := Skip(s, tmp + 1);
    if i < |s| && s[i] != ']' && ParseValue(s, i).Parsed? {
      var o := ParseValue(s, i);
      var j := Skip(s, o.next);
      if j + 1 < |s| && s[j] == ',' {
        ItemsExtend(s, j + 1, items + [o.v]);
        assert items <= items + [o.v];
      }
    }
  }

  /** If the array loop ends with these items, the first of them is what it reads next. */
  lemma FirstItem(s: string, tmp: nat, e: nat, before: seq<Value>, items: seq<Value>, next: nat)
    requires tmp < e < |s| && Skip(s, tmp + 1) == e && s[e] != ']' && items != []
    requires ParseItems(s, tmp, before) == Parsed(Array(before + items), next)
    ensures ParseValue(s, e).Parsed? && ParseValue(s, e).v == items[0]
  {
    var o := ParseValue(s, e);
    assert o.Parsed?;
    var j := Skip(s, o.next);
    if s[j] != ']' { ItemsExtend(s, j + 1, before + [o.v]); }
    assert before + [o.v] <= before + items;
    assert (before + [o.v])[|before|] == (before + items)[|before|];
  }

  /** A value is read back from its printed text, wherever the reader stops, only if it is printable. */
  lemma {:induction false} OnlyPrintable(s: string, i: nat, v: Value, next: nat)
    requires HasAt(s, i, Dump(v)) && i <= |s| && ParseValue(s, i) == Parsed(v, next)
    ensures Printable(v)
    decreases v, 1
  {
    hide ParseNumber, ParseItems, StringBody, ParseBool, DumpItems;
    DumpStart(v);
    HasChar(s, i, Dump(v), 0);
    SkipStays(s, i);
    match v
    case UInt(n) => OnlySmallNumbers(s, i);
    case Flag(b) =>
    case Text(t) =>
      assert Dump(v) == "\"" + (t + "\"");
      HasParts(s, i, "\"", t + "\"");
      OnlyPlainText(s, i + 1, t, 0, false, "");
    case Array(items) => OnlyPrintableArray(s, i, items, next);
  }

  lemma {:induction false} OnlyPrintableArray(s: string, i: nat, items: seq<Value>, next: nat)
    requires HasAt(s, i, Dump(Array(items))) && i < |s| && ParseItems(s, i, []) == Parsed(Array(items), next)
    ensures Printable(Array(items))
    decreases Array(items), 0
  {
    if items != [] {
      DumpArray(items);
      var body := DumpItems(items) + " ]";
      HasParts(s, i, "[", " " + body);
      HasParts(s, i + 1, " ", body);
      HasChar(s, i + 1, " ", 0);
      ItemsStart(items);
      HasChar(s, i + 2, body, 0);
      SkipOne(s, i + 1);
      assert [] + items == items;
      OnlyPrintableItems(s, i, i + 2, [], items, Array(items), next);
    }
  }

  lemma {:induction false} OnlyPrintableItems(s: string, tmp: nat, e: nat, before: seq<Value>, items: seq<Value>, whole: Value,
                                              next: nat)
    requires items != [] && forall k :: 0 <= k < |items| ==> items[k] < whole
    requires tmp < e <= |s| && Skip(s, tmp + 1) == e && HasAt(s, e, DumpItems(items) + " ]")
    requires ParseItems(s, tmp, before) == Parsed(Array(before + items), next)
    ensures forall k :: 0 <= k < |items| ==> Printable(items[k])
    decreases whole, 0, |items|
  {
    hide ParseItems, ParseValue, Printable, Dump, DumpItems, HasAt, Skip;
    var v, d := items[0], Dump(items[0]);
    DumpItemsStep(items);
    DumpStart(v);
    if |items| == 1 {
      AtClose(s, e, d);
      FirstItem(s, tmp, e, before, items, next);
      OnlyPrintable(s, e, v, ParseValue(s, e).next);
    } else {
      ItemsStart(items[1..]);
      AtComma(s, e, d, DumpItems(items[1..]) + " ]");
      FirstItem(s, tmp, e, before, items, next);
      OnlyPrintable(s, e, v, ParseValue(s, e).next);
      ValueRoundTrip(s, e, v);
      ItemsStep(s, tmp, e, before, v, e + |d|);
      assert before + [v] + items[1..] == before + items;
      OnlyPrintableItems(s, e + |d| + 1, e + |d| + 2, before + [v], items[1..], whole, next);
      assert forall k :: 0 < k < |items| ==> items[k] == items[1..][k - 1];
    }
  }

  /** Where a printed value stands and is not continued, it is read back if and only if it is printable. */
  lemma ValueRoundTripsExactly(s: string, i: nat, v: Value)
    requires HasAt(s, i, Dump(v)) && Ended(Sentence(v), s, i + |Dump(v)|)
    ensures ParseValue(s, i) == Parsed(v, i + |Dump(v)|) <==> Printable(v)
    ensures ParseValue(s, i).Parsed? && ParseValue(s, i).v == v <==> Printable(v)
  {
    hide Ended, Sentence, Dump, ParseValue, Printable;
    if Printable(v) { ValueRoundTrip(s, i, v); }
    if ParseValue(s, i).Parsed? && ParseValue(s, i).v == v { OnlyPrintable(s, i, v, ParseValue(s, i).next); }
  }

  // ----- Entries -----

  /** A key, an equals sign between blanks, a printed value and whatever is behind it. */
  function EntryText(key: string, before: string, behind: string, v: Value, rest: string): string {
    key + (before + ("=" + (behind + (Dump(v) + rest))))
  }

  lemma PrintedEntry(key: string, v: Value, rest: string)
    ensures DumpEntry(Some(key), v) + rest == EntryText(key, " ", " ", v, rest)
  {
    hide Dump;
    assert DumpEntry(Some(key), v) == key + " = " + Dump(v);
    assert " " + ("=" + (" " + (Dump(v) + rest))) == " = " + (Dump(v) + rest);
  }

  /** An entry is read back to the same key and value if nothing but blanks and a comment is behind the value,
    * and refused otherwise. */
  lemma EntryRoundTrip(key: string, before: string, behind: string, v: Value, rest: string)
    requires ValidKey(key) && Printable(v) && Blanks(before) && Blanks(behind) && Ended(Sentence(v), rest, 0)
    ensures EntryText(key, before, behind, v, rest) != ""
    ensures ParseProperty(EntryText(key, before, behind, v, rest)) == if Remark(rest) then Property(key, v) else NoProperty
  {
    DumpIsSentence(v);
    var l := Line(key, before, behind, Sentence(v), rest);
    assert ShownLine(l) == EntryText(key, before, behind, v, rest) && SoundLine(l);
    hide *;
    LineIsRead(l);
  }

  /** It is read back if and only if its key is a name, its value printable and nothing else behind it; that it
    * starts like a name is what the caller of the parser looks at. */
  lemma EntryRoundTripsExactly(key: string, before: string, behind: string, v: Value, rest: string)
    requires (key != "" ==> NameChar(key[0])) && Blanks(before) && Blanks(behind) && Ended(Sentence(v), rest, 0)
    ensures EntryText(key, before, behind, v, rest) != ""
    ensures ParseProperty(EntryText(key, before, behind, v, rest)) == Property(key, v) <==>
            ValidKey(key) && Printable(v) && Remark(rest)
  {
    var s := EntryText(key, before, behind, v, rest);
    hide Dump, Printable, ParseValue, Ended, ParseProperty, Remark, Sentence;
    if ParseProperty(s) == Property(key, v) {
      KeyIsName(s, key, v);
      EntryValue(s, key, before, behind, v, rest);
    }
    if ValidKey(key) && Printable(v) { EntryRoundTrip(key, before, behind, v, rest); }
  }

  lemma KeyIsName(s: string, key: string, v: Value)
    requires s != "" && (key != "" ==> NameChar(key[0])) && ParseProperty(s) == Property(key, v)
    ensures ValidKey(key)
  {
    var k := NameEnd(s, 1);
    assert s[..k] == key && |key| == k;
    forall c | c in key ensures NameChar(c) {
      var j :| 0 <= j < |key| && key[j] == c;
      assert key[j] == s[j];
    }
  }

  lemma EntryValue(s: string, key: string, before: string, behind: string, v: Value, rest: string)
    requires ValidKey(key) && Blanks(before) && Blanks(behind) && s == EntryText(key, before, behind, v, rest)
    requires s != "" && ParseProperty(s) == Property(key, v)
    ensures Printable(v)
  {
    hide Dump, HasAt, Printable, ParseProperty, ParseValue, ValidKey, Blanks;
    SixParts(s, key, before, behind, Dump(v), rest);
    ValueAsPrinted(s, |key| + |before| + 1, behind, v);
    NameIsRead(s, key, before);
    ReadAsProperty(s, |key|, |key| + |before| + 1, key, v);
  }

  lemma ValueAsPrinted(s: string, a: nat, blanks: string, v: Value)
    requires Blanks(blanks) && HasAt(s, a, blanks) && HasAt(s, a + |blanks|, Dump(v))
    ensures a < |s| && (ParseValue(s, a).Parsed? && ParseValue(s, a).v == v ==> Printable(v))
  {
    DumpBehind(s, a, blanks, v);
    hide *;
    if ParseValue(s, a).Parsed? && ParseValue(s, a).v == v {
      OnlyPrintable(s, a + |blanks|, v, ParseValue(s, a).next);
    }
  }

  lemma ReadAsProperty(s: string, k: nat, a: nat, key: string, v: Value)
    requires k < a < |s| && NameEnd(s, 1) == k && Skip(s, k) == a - 1 && (Blank(s[k]) || s[k] == '=')
    requires s[a - 1] == '=' && s != "" && ParseProperty(s) == Property(key, v)
    ensures ParseValue(s, a).Parsed? && ParseValue(s, a).v == v
  {
    assert NameEnd(s, 1) >= 1;
    PropertyIs(s, k, a - 1);
  }

  lemma DumpBehind(s: string, a: nat, blanks: string, v: Value)
    requires Blanks(blanks) && HasAt(s, a, blanks) && HasAt(s, a + |blanks|, Dump(v))
    ensures a + |blanks| < |s| && ParseValue(s, a) == ParseValue(s, a + |blanks|)
  {
    DumpStart(v);
    HasChar(s, a + |blanks|, Dump(v), 0);
    hide Dump, HasAt, Blanks;
    SkipOver(s, a, blanks);
    ParseSkips(s, a);
  }

  // ----- Whole texts -----

  predicate NoBreak(s: string) {
    forall c :: c in s ==> !Break(c)
  }

  predicate OneLine(v: Value) {
    match v
    case Text(t) => NoBreak(t)
    case Array(items) => forall i :: 0 <= i < |items| ==> OneLine(items[i])
    case _ => true
  }

  ghost predicate Named(entries: seq<Property>) {
    forall i :: 0 <= i < |entries| ==> entries[i].Property? && ValidKey(entries[i].key)
  }

  /** The printed entries, one on each line. */
  function File(entries: seq<Property>): string
    requires forall i :: 0 <= i < |entries| ==> entries[i].Property?
  {
    if entries == [] then "" else DumpEntry(Some(entries[0].key), entries[0].v) + ("\n" + File(entries[1..]))
  }

  lemma {:induction false} LineEndMoved(s: string, i: nat, t: string, j: nat)
    requires i <= |s| && s[i..] == t && j <= |t|
    ensures LineEnd(s, i + j) == i + LineEnd(t, j)
    decreases |t| - j
  {
    if j < |t| {
      assert s[i + j] == t[j];
      LineEndMoved(s, i, t, j + 1);
    }
  }

  lemma {:induction false} LinesMoved(s: string, i: nat, t: string, j: nat)
    requires i <= |s| && s[i..] == t && j <= |t|
    ensures Lines(s, i + j) == Lines(t, j)
    decreases |t| - j
  {
    if j < |t| {
      assert s[i + j] == t[j];
      if Break(t[j]) {
        LinesMoved(s, i, t, j + 1);
      } else {
        LineEndMoved(s, i, t, j);
        var e := LineEnd(t, j);
        assert e > j;
        hide LineEnd;
        LinesMoved(s, i, t, e);
        assert s[i + j..i + e] == t[j..e];
      }
    }
  }

  /** A text is cut at line feeds and carriage returns, and empty lines are left out. */
  lemma LinesAreCut(line: string, c: char, rest: string)
    requires (forall x :: x in line ==> x != '\n' && x != '\r') && (c == '\n' || c == '\r')
    ensures Lines(line + [c] + rest, 0) == (if line == "" then [] else [line]) + Lines(rest, 0)
    ensures Lines(line, 0) == if line == "" then [] else [line]
  {
    if line != "" {
      LineThere(line, "");
      LineThere(line, [c] + rest);
      assert line + "" == line && line + ([c] + rest) == line + [c] + rest;
      assert Lines(line, 0) == [line] + Lines(line, |line|);
      var s := line + [c] + rest;
      assert Lines(s, 0) == [line] + Lines(s, |line|);
      BehindBreak(s, |line|, rest);
    } else {
      assert line + [c] + rest == [c] + rest;
      BehindBreak([c] + rest, 0, rest);
    }
  }

  lemma LineThere(line: string, rest: string)
    requires line != "" && NoBreak(line) && (rest == "" || Break(rest[0]))
    ensures var s := line + rest; !Break(s[0]) && LineEnd(s, 0) == |line| && s[0..|line|] == line
  {
    var s := line + rest;
    var e := LineEnd(s, 0);
    assert forall k :: 0 <= k < |line| ==> s[k] == line[k] && line[k] in line;
    assert s[0..|line|] == line;
    assert Unbroken(s, 0, e);
    if rest != "" { assert s[|line|] == rest[0]; }
  }

  lemma BehindBreak(s: string, i: nat, rest: string)
    requires i < |s| && Break(s[i]) && s[i + 1..] == rest
    ensures Lines(s, i) == Lines(rest, 0)
  {
    hide LineEnd;
    LinesMoved(s, i + 1, rest, 0);
  }

  lemma FirstLine(line: string, rest: string)
    requires line != "" && NoBreak(line)
    ensures Lines(line + ("\n" + rest), 0) == [line] + Lines(rest, 0)
  {
    assert line + ("\n" + rest) == line + ['\n'] + rest;
    LinesAreCut(line, '\n', rest);
  }

  /** Blank lines and comments contribute nothing; a line that starts with a name character behind its blanks is
    * a property, one that starts with a bracket is outside this model, and any other is refused. */
  lemma LinesContribute(blanks: string, text: string)
    requires Blanks(blanks) && (text != "" ==> text[0] != ' ' && text[0] != '\t')
    ensures ReadLine(blanks + text) ==
            if text == "" || text[0] == '#' then []
            else if text[0] == '[' then [OutsideProperty]
            else if NameChar(text[0]) then [ParseProperty(text)]
            else [NoProperty]
  {
    var line := blanks + text;
    assert HasAt(line, 0, blanks) && line[|blanks|..] == text;
    if text != "" { assert line[|blanks|] == text[0]; }
    SkipOver(line, 0, blanks);
  }

  lemma {:induction false} DumpOneLine(v: Value)
    requires OneLine(v)
    ensures NoBreak(Dump(v))
    decreases v, 1
  {
    match v
    case UInt(n) => assert forall c :: c in Decimal(n) ==> '0' <= c <= '9';
    case Flag(b) =>
    case Text(t) =>
    case Array(items) => if items != [] { DumpItemsOneLine(items, v); }
  }

  lemma {:induction false} DumpItemsOneLine(items: seq<Value>, whole: Value)
    requires items != [] && forall k :: 0 <= k < |items| ==> OneLine(items[k]) && items[k] < whole
    ensures NoBreak(DumpItems(items))
    decreases whole, 0, |items|
  {
    DumpOneLine(items[0]);
    if |items| > 1 { DumpItemsOneLine(items[1..], whole); }
  }

  /** A printed entry is a line that starts with a name. */
  lemma EntryLine(key: string, v: Value)
    requires ValidKey(key)
    ensures var line := DumpEntry(Some(key), v); line != "" && ReadLine(line) == [ParseProperty(line)]
  {
    var line := DumpEntry(Some(key), v);
    assert line[0] == key[0] && key[0] in key;
    SkipStays(line, 0);
    assert line[0..] == line;
  }

  lemma EntryOneLine(key: string, v: Value)
    requires ValidKey(key) && OneLine(v)
    ensures NoBreak(DumpEntry(Some(key), v))
  {
    DumpOneLine(v);
    forall c | c in key ensures !Break(c) { assert NameChar(c); }
  }

  // What is read from a line has no line break in it.

  lemma {:induction false} StringBodyOneLine(s: string, i: nat, escaping: bool, out: string)
    requires i <= |s| && NoBreak(s) && NoBreak(out)
    ensures var o := StringBody(s, i, escaping, out); o.Parsed? ==> OneLine(o.v)
    decreases |s| - i
  {
    if i < |s| {
      assert s[i] in s;
      if escaping {
        if s[i] == '\\' || s[i] == '"' { StringBodyOneLine(s, i + 1, false, out + [s[i]]); }
      } else if s[i] == '\\' {
        StringBodyOneLine(s, i + 1, true, out);
      } else if s[i] != '"' {
        StringBodyOneLine(s, i + 1, false, out + [s[i]]);
      }
    }
  }

  lemma {:induction false} ValueOneLine(s: string, start: nat)
    requires start <= |s| && NoBreak(s)
    ensures var o := ParseValue(s, start); o.Parsed? ==> OneLine(o.v)
    decreases |s| - start, 1
  {
    hide StringBody, ParseItems, ParseNumber, ParseBool;
    var i := Skip(s, start);
    if i < |s| {
      OnlySmallNumbers(s, i);
      OnlyFlags(s, i);
      StringBodyOneLine(s, i + 1, false, "");
      if s[i] == '[' { ItemsOneLine(s, i, []); }
    }
  }

  lemma OnlyFlags(s: string, i: nat)
    requires i <= |s|
    ensures ParseBool(s, i).Parsed? ==> ParseBool(s, i).v.Flag?
  {}

  lemma {:induction false} ItemsOneLine(s: string, tmp: nat, items: seq<Value>)
    requires tmp < |s| && NoBreak(s) && OneLine(Array(items))
    ensures var o := ParseItems(s, tmp, items); o.Parsed? ==> OneLine(o.v)
    decreases |s| - tmp, 0
  {
    hide ParseValue;
    var i := Skip(s, tmp + 1);
    if i < |s| && s[i] != ']' && ParseValue(s, i).Parsed? {
      var o := ParseValue(s, i);
      ValueOneLine(s, i);
      var j := Skip(s, o.next);
      if j + 1 < |s| && s[j] == ',' { ItemsOneLine(s, j + 1, items + [o.v]); }
    }
  }

  lemma ReadLineOneLine(line: string, p: Property)
    requires NoBreak(line) && p in ReadLine(line) && p.Property?
    ensures OneLine(p.v)
  {
    hide ParseValue;
    var i := Skip(line, 0);
    var s := line[i..];
    assert NoBreak(s);
    assert p == ParseProperty(s);
    ValueOneLine(s, Skip(s, NameEnd(s, 1)) + 1);
  }

  lemma {:induction false} ReadLinesOneLine(s: string, i: nat, p: Property)
    requires i <= |s| && p in ReadLines(Lines(s, i)) && p.Property?
    ensures OneLine(p.v)
    decreases |s| - i
  {
    hide ReadLine;
    if Break(s[i]) {
      ReadLinesOneLine(s, i + 1, p);
    } else {
      var e := LineEnd(s, i);
      assert Lines(s, i)[1..] == Lines(s, e);
      if p in ReadLine(s[i..e]) { ReadLineOneLine(s[i..e], p); } else { ReadLinesOneLine(s, e, p); }
    }
  }

  /** Entries printed one on each line are read back if and only if their values are printable and none has a
    * line break in a string. */
  lemma {:induction false} FileRoundTripsExactly(entries: seq<Property>)
    requires Named(entries)
    ensures ReadLines(Lines(File(entries), 0)) == entries <==>
            forall i :: 0 <= i < |entries| ==> Printable(entries[i].v) && OneLine(entries[i].v)
    decreases |entries|
  {
    hide ReadLine, Printable, OneLine, DumpEntry;
    if entries != [] {
      FileRoundTripsExactly(entries[1..]);
      FileStep(entries);
      assert forall i :: 0 < i < |entries| ==> entries[i] == entries[1..][i - 1];
      if ReadLines(Lines(File(entries), 0)) == entries {
        forall i | 0 <= i < |entries| ensures OneLine(entries[i].v) {
          ReadLinesOneLine(File(entries), 0, entries[i]);
        }
      }
    }
  }

  /** The first entry, if it is one line. */
  lemma FileStep(entries: seq<Property>)
    requires Named(entries) && entries != []
    ensures OneLine(entries[0].v) ==>
              (ReadLines(Lines(File(entries), 0)) == entries <==>
               Printable(entries[0].v) && ReadLines(Lines(File(entries[1..]), 0)) == entries[1..])
  {
    var e := entries[0];
    if OneLine(e.v) {
      var line, rest := DumpEntry(Some(e.key), e.v), File(entries[1..]);
      EntryLine(e.key, e.v);
      EntryOneLine(e.key, e.v);
      assert NameChar(e.key[0]) by { assert e.key[0] in e.key; }
      EntryRoundTripsExactly(e.key, " ", " ", e.v, "");
      PrintedEntry(e.key, e.v, "");
      assert line + "" == line && Remark("") by { assert Blanks(""[..0]); }
      hide ReadLine, Printable, OneLine, DumpEntry, ParseProperty;
      FirstLine(line, rest);
      assert Lines(File(entries), 0)[1..] == Lines(rest, 0);
      assert entries == [e] + entries[1..];
      var tail := ReadLines(Lines(rest, 0));
      assert ReadLines(Lines(File(entries), 0)) == [ParseProperty(line)] + tail;
      assert ([ParseProperty(line)] + tail)[1..] == tail;
    }
  }
}
