/** The language that the parser of source/utils/clog_config.c reads, told by its sentences: how a value may be
  * written and what it means.  The parser reads exactly these sentences (of the kinds of values in this model).
  */
module ConfigGrammar {
  import opened Common
  import opened Config

  /** A numeral, a flag, a quoted text, a list. */
  datatype Written = Numeral(radix: nat, digits: string) | Word(b: bool) | Quoted(t: string) | Listed(rest: Rest)

  /** What may stand behind the bracket of a list or behind the character after a comma: that character is
    * lost, whatever it is. */
  datatype Rest =
    | Close(lead: string)
    | Last(lead: string, item: Written, gap: string)
    | More(lead: string, item: Written, gap: string, lost: char, rest: Rest)

  ghost predicate Blanks(t: string) {
    forall c :: c in t ==> c == ' ' || c == '\t'
  }

  /** Blanks, and behind them nothing or a comment. */
  ghost predicate Remark(rest: string) {
    exists n | 0 <= n <= |rest| :: Blanks(rest[..n]) && (n == |rest| || rest[n] == '#')
  }

  // ----- Digits -----

  const LOWER := "0123456789abcdef"
  const UPPER := "0123456789ABCDEF"

  predicate IsRadix(radix: nat) {
    radix == 2 || radix == 8 || radix == 10 || radix == 16
  }

  /** Which characters are digits, and what they count. */
  lemma DigitExactly(radix: nat, c: char, k: nat)
    requires IsRadix(radix)
    ensures DigitValue(radix, c) == Some(k) <==> k < radix && (c == LOWER[k] || c == UPPER[k])
  {
    assert LOWER == ['0', '1', '2', '3', '4', '5', '6', '7', '8', '9', 'a', 'b', 'c', 'd', 'e', 'f'];
    assert UPPER == ['0', '1', '2', '3', '4', '5', '6', '7', '8', '9', 'A', 'B', 'C', 'D', 'E', 'F'];
  }

  ghost predicate AllDigits(radix: nat, t: string) {
    forall c :: c in t ==> DigitValue(radix, c).Some?
  }

  /** The number that a run of digits stands for, however long it is. */
  ghost function Worth(radix: nat, t: string): nat
    requires AllDigits(radix, t)
  {
    if t == "" then 0 else Append(Worth(radix, t[..|t| - 1]), radix, DigitValue(radix, t[|t| - 1]).value)
  }

  lemma Wraps(a: nat, radix: nat, v: nat)
    ensures Low64(Append(Low64(a), radix, v)) == Low64(Append(a, radix, v))
  {
    var q, m := a / UINT64_LIMIT, a % UINT64_LIMIT;
    assert a == q * UINT64_LIMIT + m;
    assert a * radix == (q * radix) * UINT64_LIMIT + m * radix by {
      Distributes(q * UINT64_LIMIT, m, radix);
      Commutes(q, radix);
    }
    WrapsOnce(q * radix, m * radix + v);
  }

  lemma Distributes(a: nat, b: nat, c: nat)
    ensures (a + b) * c == a * c + b * c
  {}

  lemma Commutes(q: nat, radix: nat)
    ensures q * UINT64_LIMIT * radix == q * radix * UINT64_LIMIT
  {}

  lemma WrapsOnce(k: nat, x: nat)
    ensures (k * UINT64_LIMIT + x) % UINT64_LIMIT == x % UINT64_LIMIT
  {}

  /** The parser's sum is the number modulo 2^64. */
  lemma {:induction false} SumIsWorth(radix: nat, s: string, i: nat, r: nat)
    requires DigitRun(radix, s, i, r)
    ensures AllDigits(radix, s[i..r]) && Accumulate(radix, s, i, r) == Low64(Worth(radix, s[i..r]))
    decreases r - i
  {
    if i < r {
      SumSnoc(radix, s, i, r - 1);
      hide *;
      var t, c := s[i..r - 1], s[r - 1];
      SumIsWorth(radix, s, i, r - 1);
      SliceSnoc(s, i, r);
      WorthSnoc(radix, t, c, DigitValue(radix, c).value);
      Wraps(Worth(radix, t), radix, DigitValue(radix, c).value);
    }
  }

  lemma SliceSnoc(s: string, i: nat, r: nat)
    requires i < r <= |s|
    ensures s[i..r] == s[i..r - 1] + [s[r - 1]]
  {}

  lemma SumSnoc(radix: nat, s: string, i: nat, r: nat)
    requires DigitRun(radix, s, i, r + 1) && i <= r
    ensures DigitRun(radix, s, i, r) && DigitValue(radix, s[r]).Some?
    ensures Accumulate(radix, s, i, r + 1) == Low64(Append(Accumulate(radix, s, i, r), radix, DigitValue(radix, s[r]).value))
  {}


  lemma Divided(n: nat, radix: nat)
    requires IsRadix(radix)
    ensures n % radix < radix && n == Append(n / radix, radix, n % radix) && (n >= radix ==> n / radix < n)
    ensures n < radix ==> n / radix == 0
  {
    if radix == 2 {} else if radix == 8 {} else if radix == 10 {} else {}
  }

  /** The numeral of n, with the digits of either case. */
  function DigitsOf(radix: nat, n: nat, digits: string): string
    requires IsRadix(radix) && |digits| == 16
  {
    Divided(n, radix);
    (if n < radix then "" else DigitsOf(radix, n / radix, digits)) + [digits[n % radix]]
  }

  lemma {:induction false} WorthOfDigits(radix: nat, n: nat, digits: string)
    requires IsRadix(radix) && (digits == LOWER || digits == UPPER)
    ensures var t := DigitsOf(radix, n, digits); t != "" && AllDigits(radix, t) && Worth(radix, t) == n
  {
    Divided(n, radix);
    var q, k := n / radix, n % radix;
    var front := if n < radix then "" else DigitsOf(radix, q, digits);
    assert DigitsOf(radix, n, digits) == front + [digits[k]];
    DigitExactly(radix, digits[k], k);
    WorthOfEmpty(radix);
    hide *;
    if n >= radix { WorthOfDigits(radix, q, digits); }
    WorthSnoc(radix, front, digits[k], k);
  }

  lemma WorthOfEmpty(radix: nat)
    ensures AllDigits(radix, "") && Worth(radix, "") == 0
  {}

  lemma WorthSnoc(radix: nat, t: string, c: char, k: nat)
    requires AllDigits(radix, t) && DigitValue(radix, c) == Some(k)
    ensures AllDigits(radix, t + [c]) && Worth(radix, t + [c]) == Append(Worth(radix, t), radix, k)
  {
    hide DigitValue;
    assert (t + [c])[..|t|] == t;
  }

  // ----- Sentences -----

  function Prefix(radix: nat): string {
    if radix == 16 then "0x" else if radix == 8 then "0o" else if radix == 2 then "0b" else ""
  }

  /** A text with a backslash before each quote and each backslash. */
  function Escaped(t: string): string {
    if t == "" then "" else (if t[0] == '"' || t[0] == '\\' then "\\" + [t[0]] else [t[0]]) + Escaped(t[1..])
  }

  function Shown(w: Written): string {
    match w
    case Numeral(radix, digits) => Prefix(radix) + digits
    case Word(b) => if b then "true" else "false"
    case Quoted(t) => "\"" + (Escaped(t) + "\"")
    case Listed(rest) => "[" + ShownRest(rest)
  }

  function ShownRest(r: Rest): string {
    match r
    case Close(lead) => lead + "]"
    case Last(lead, item, gap) => lead + (Shown(item) + (gap + "]"))
    case More(lead, item, gap, lost, rest) => lead + (Shown(item) + (gap + ("," + ([lost] + ShownRest(rest)))))
  }

  /** A numeral counts modulo 2^64, and must then fit 32 bits. */
  ghost predicate Sound(w: Written) {
    match w
    case Numeral(radix, digits) =>
      IsRadix(radix) && digits != "" && AllDigits(radix, digits) && Low64(Worth(radix, digits)) < UINT32_LIMIT
    case Listed(rest) => SoundRest(rest)
    case _ => true
  }

  ghost predicate SoundRest(r: Rest) {
    match r
    case Close(lead) => Blanks(lead)
    case Last(lead, item, gap) => Blanks(lead) && Sound(item) && Blanks(gap)
    case More(lead, item, gap, _, rest) => Blanks(lead) && Sound(item) && Blanks(gap) && SoundRest(rest)
  }

  ghost function Meant(w: Written): Value
    requires Sound(w)
  {
    match w
    case Numeral(radix, digits) => UInt(Low64(Worth(radix, digits)))
    case Word(b) => Flag(b)
    case Quoted(t) => Text(t)
    case Listed(rest) => Array(Items(rest))
  }

  ghost function Items(r: Rest): seq<Value>
    requires SoundRest(r)
  {
    match r
    case Close(_) => []
    case Last(_, item, _) => [Meant(item)]
    case More(_, item, _, _, rest) => [Meant(item)] + Items(rest)
  }

  /** What stands behind must not continue it: only numerals can be continued. */
  predicate Ended(w: Written, s: string, i: nat) {
    w.Numeral? && i < |s| ==>
      && DigitValue(w.radix, s[i]).None?
      && (w.radix == 10 ==> s[i] != '.')
      && (w.radix == 10 && w.digits == "0" ==> s[i] != 'x' && s[i] != 'o' && s[i] != 'b')
  }

  // ----- Every sentence is read -----

  lemma HasParts(s: string, i: nat, a: string, b: string)
    requires HasAt(s, i, a + b)
    ensures HasAt(s, i, a) && HasAt(s, i + |a|, b)
  {
    assert s[i..i + |a|] == s[i..i + |a + b|][..|a|];
    assert s[i + |a|..i + |a| + |b|] == s[i..i + |a + b|][|a|..];
  }

  lemma JoinParts(s: string, i: nat, a: string, b: string)
    requires HasAt(s, i, a) && HasAt(s, i + |a|, b)
    ensures HasAt(s, i, a + b)
  {
    assert s[i..i + |a| + |b|] == s[i..i + |a|] + s[i + |a|..i + |a| + |b|];
  }

  lemma HasChar(s: string, i: nat, t: string, k: nat)
    requires HasAt(s, i, t) && k < |t|
    ensures i + k < |s| && s[i + k] == t[k]
  {
    assert s[i..i + |t|][k] == s[i + k];
  }

  lemma SkipStays(s: string, i: nat)
    requires i < |s| && !Blank(s[i])
    ensures Skip(s, i) == i
  {}

  lemma SkipOne(s: string, i: nat)
    requires i + 1 < |s| && Blank(s[i]) && !Blank(s[i + 1])
    ensures Skip(s, i) == i + 1
  {}

  lemma {:induction false} SkipOver(s: string, i: nat, t: string)
    requires Blanks(t) && HasAt(s, i, t) && (i + |t| < |s| ==> s[i + |t|] != ' ' && s[i + |t|] != '\t')
    ensures Skip(s, i) == i + |t|
    decreases |t|
  {
    if t != "" {
      HasChar(s, i, t, 0);
      assert t[0] in t && t == [t[0]] + t[1..];
      assert Blanks(t[1..]) by { assert forall c :: c in t[1..] ==> c in t; }
      assert Skip(s, i) == Skip(s, i + 1);
      hide Skip, Blanks;
      HasParts(s, i, [t[0]], t[1..]);
      hide HasAt;
      SkipOver(s, i + 1, t[1..]);
    }
  }

  /** The blanks that were skipped. */
  lemma Skipped(s: string, i: nat)
    requires i <= |s|
    ensures var t := s[i..Skip(s, i)]; Blanks(t) && HasAt(s, i, t)
    ensures Skip(s, Skip(s, i)) == Skip(s, i)
  {
    var j := Skip(s, i);
    var t := s[i..j];
    assert forall k :: 0 <= k < |t| ==> t[k] == s[i + k];
  }

  lemma {:induction false} RunOver(radix: nat, s: string, i: nat, r: nat, end: nat)
    requires DigitRun(radix, s, i, r) && r <= end <= |s|
    requires r == end || DigitValue(radix, s[r]).None?
    ensures RunEnd(radix, s, i, end) == r
    decreases r - i
  {
    if i < r { RunOver(radix, s, i + 1, r, end); }
  }

  lemma {:induction false} NumberOver(s: string, i: nat, r: nat)
    requires DigitRun(10, s, i, r)
    requires r == |s| || DigitValue(10, s[r]).None?
    ensures NumberEnd(s, i) == r
    decreases r - i
  {
    if i < r { NumberOver(s, i + 1, r); }
  }

  lemma DigitsAt(radix: nat, s: string, i: nat, t: string)
    requires HasAt(s, i, t) && AllDigits(radix, t)
    ensures DigitRun(radix, s, i, i + |t|)
  {
    forall k | i <= k < i + |t| ensures DigitValue(radix, s[k]).Some? {
      HasChar(s, i, t, k - i);
      assert t[k - i] in t;
    }
  }

  /** What a run of digits comes to. */
  function Counted(n: nat, next: nat): Outcome {
    if Low64(n) < UINT32_LIMIT then Parsed(UInt(Low64(n)), next) else Bad
  }

  lemma RunIsRead(radix: nat, s: string, i: nat, t: string, end: nat)
    requires HasAt(s, i, t) && AllDigits(radix, t) && t != "" && i + |t| <= end <= |s|
    requires i + |t| == end || DigitValue(radix, s[i + |t|]).None?
    ensures ParseRadix(radix, s, i, end) == Counted(Worth(radix, t), i + |t|)
  {
    assert s[i..i + |t|] == t;
    hide *;
    var r := i + |t|;
    DigitsAt(radix, s, i, t);
    RunOver(radix, s, i, r, end);
    SumIsWorth(radix, s, i, r);
    RunCounts(radix, s, i, r, end, Worth(radix, t));
  }

  lemma RunCounts(radix: nat, s: string, i: nat, r: nat, end: nat, n: nat)
    requires i < r <= end <= |s| && RunEnd(radix, s, i, end) == r && DigitRun(radix, s, i, r)
    requires Accumulate(radix, s, i, r) == Low64(n)
    ensures ParseRadix(radix, s, i, end) == Counted(n, r)
  {
    hide RunEnd, Accumulate, Low64, DigitRun;
  }

  /** A whole number, with its prefix: its worth counts modulo 2^64, and is refused if that exceeds 32 bits. */
  lemma NumeralIsRead(s: string, i: nat, radix: nat, t: string)
    requires IsRadix(radix) && t != "" && AllDigits(radix, t)
    requires var w := Numeral(radix, t); HasAt(s, i, Shown(w)) && Ended(w, s, i + |Shown(w)|)
    ensures i < |s| && ParseNumber(s, i) == Counted(Worth(radix, t), i + |Shown(Numeral(radix, t))|)
  {
    var p := Prefix(radix);
    hide DigitValue, Worth, ParseNumber, Counted;
    if radix == 10 {
      assert Shown(Numeral(10, t)) == t;
      DecimalIsRead(s, i, t);
    } else {
      HasParts(s, i, p, t);
      hide HasAt, AllDigits;
      HasChar(s, i, p, 0);
      HasChar(s, i, p, 1);
      RunIsRead(radix, s, i + 2, t, |s|);
      Prefixed(s, i, radix);
    }
  }

  lemma Prefixed(s: string, i: nat, radix: nat)
    requires IsRadix(radix) && radix != 10 && i + 1 < |s| && s[i..i + 2] == Prefix(radix)
    ensures ParseNumber(s, i) == ParseRadix(radix, s, i + 2, |s|)
  {
    hide ParseRadix, ParseDecimal;
    assert s[i] == s[i..i + 2][0] && s[i + 1] == s[i..i + 2][1];
  }

  lemma DecimalIsRead(s: string, i: nat, t: string)
    requires t != "" && AllDigits(10, t) && HasAt(s, i, t) && Ended(Numeral(10, t), s, i + |t|)
    ensures i < |s| && ParseNumber(s, i) == Counted(Worth(10, t), i + |t|)
  {
    DecimalFacts(s, i, t);
    hide *;
    if s[i] == '0' && |t| == 1 && (i + 1 == |s| || Blank(s[i + 1]) || s[i + 1] == '#') {
      ZeroAlone(s, i);
    } else {
      DigitsAreRead(s, i, t);
    }
  }

  lemma DigitsAreRead(s: string, i: nat, t: string)
    requires t != "" && AllDigits(10, t) && HasAt(s, i, t) && DigitRun(10, s, i, i + |t|) && i + |t| <= |s|
    requires '0' <= s[i] <= '9' && (i + |t| < |s| ==> s[i + |t|] != '.' && DigitValue(10, s[i + |t|]).None?)
    requires s[i] == '0' && |t| == 1 ==> i + 1 < |s| && !Blank(s[i + 1]) && s[i + 1] != '#' && RadixOf(s[i + 1]) == 10
    ensures ParseNumber(s, i) == Counted(Worth(10, t), i + |t|)
  {
    hide *;
    RunIsRead(10, s, i, t, i + |t|);
    WholeNumber(s, i, i + |t|);
  }

  lemma DecimalFacts(s: string, i: nat, t: string)
    requires t != "" && AllDigits(10, t) && HasAt(s, i, t) && Ended(Numeral(10, t), s, i + |t|)
    ensures var r := i + |t|;
            && DigitRun(10, s, i, r) && r <= |s| && '0' <= s[i] <= '9'
            && (r < |s| ==> s[r] != '.' && DigitValue(10, s[r]).None?)
            && (s[i] == '0' && |t| == 1 ==> t == "0" && (r < |s| ==> RadixOf(s[r]) == 10))
  {
    DigitsAt(10, s, i, t);
    HasChar(s, i, t, 0);
    hide HasAt;
    if |t| == 1 { assert t == [t[0]]; }
  }

  lemma ZeroAlone(s: string, i: nat)
    requires i < |s| && s[i] == '0' && (i + 1 == |s| || Blank(s[i + 1]) || s[i + 1] == '#')
    ensures AllDigits(10, "0") && ParseNumber(s, i) == Counted(Worth(10, "0"), i + 1)
  {
    WorthOfZero();
    hide Worth, AllDigits, ParseDecimal, ParseRadix, Append;
    assert Low64(0) == 0;
  }

  lemma WorthOfZero()
    ensures AllDigits(10, "0") && Worth(10, "0") == 0
  {
    assert "0"[..0] == "";
  }

  lemma WholeNumber(s: string, i: nat, r: nat)
    requires i < r <= |s| && '0' <= s[i] <= '9' && DigitRun(10, s, i, r)
    requires r < |s| ==> s[r] != '.' && DigitValue(10, s[r]).None?
    requires s[i] == '0' && r == i + 1 ==> r < |s| && !Blank(s[r]) && s[r] != '#' && RadixOf(s[r]) == 10
    ensures ParseNumber(s, i) == ParseRadix(10, s, i, r)
  {
    NumberOver(s, i, r);
    NumberOver(s, i + 1, r);
    hide ParseRadix, NumberEnd;
  }

  lemma {:induction false} EscapedIsRead(s: string, i: nat, t: string, out: string)
    requires HasAt(s, i, Escaped(t) + "\"")
    ensures StringBody(s, i, false, out) == Parsed(Text(out + t), i + |Escaped(t)| + 1)
    decreases |t|
  {
    HasChar(s, i, Escaped(t) + "\"", 0);
    if t == "" {
      assert out + t == out;
    } else {
      var rest := Escaped(t[1..]) + "\"";
      assert out + [t[0]] + t[1..] == out + t;
      if t[0] == '"' || t[0] == '\\' {
        assert Escaped(t) + "\"" == ['\\', t[0]] + rest;
        HasParts(s, i, ['\\', t[0]], rest);
        HasChar(s, i, ['\\', t[0]], 1);
        EscapedIsRead(s, i + 2, t[1..], out + [t[0]]);
      } else {
        assert Escaped(t) + "\"" == [t[0]] + rest;
        HasParts(s, i, [t[0]], rest);
        EscapedIsRead(s, i + 1, t[1..], out + [t[0]]);
      }
    }
  }

  /** What a written value starts with tells the parser its kind. */
  lemma ShownStart(w: Written)
    requires Sound(w)
    ensures Shown(w) != ""
    ensures var c := Shown(w)[0];
            match w
            case Numeral(_, _) => '0' <= c <= '9'
            case Word(b) => c == if b then 't' else 'f'
            case Quoted(_) => c == '"'
            case Listed(_) => c == '['
  {
    if w.Numeral? && w.radix == 10 { assert w.digits[0] in w.digits; }
  }

  lemma WordIsRead(s: string, i: nat, b: bool)
    requires HasAt(s, i, Shown(Word(b)))
    ensures ParseBool(s, i) == Parsed(Meant(Word(b)), i + |Shown(Word(b))|)
  {
    HasChar(s, i, Shown(Word(b)), 0);
    if HasAt(s, i, "true") { HasChar(s, i, "true", 0); }
  }

  /** Wherever a sentence stands and is not continued, the parser reads what it means and stops right behind
    * it. */
  lemma {:induction false} WrittenIsRead(s: string, i: nat, w: Written)
    requires Sound(w) && HasAt(s, i, Shown(w)) && Ended(w, s, i + |Shown(w)|)
    ensures ParseValue(s, i) == Parsed(Meant(w), i + |Shown(w)|)
    decreases w, 2
  {
    ShownStart(w);
    HasChar(s, i, Shown(w), 0);
    SkipStays(s, i);
    hide ParseNumber, ParseItems, StringBody, ParseBool, ShownRest, Skip, HasAt, Sound, Shown, Meant, Ended;
    match w
    case Numeral(radix, digits) => NumeralMeans(s, i, w);
    case Word(b) => WordIsRead(s, i, b);
    case Quoted(t) => QuoteIsRead(s, i, t);
    case Listed(rest) => ListIsRead(s, i, rest);
  }

  lemma NumeralMeans(s: string, i: nat, w: Written)
    requires w.Numeral? && Sound(w) && HasAt(s, i, Shown(w)) && Ended(w, s, i + |Shown(w)|)
    ensures i < |s| && ParseNumber(s, i) == Parsed(Meant(w), i + |Shown(w)|)
  {
    hide HasAt, Ended, ParseNumber, Shown, Worth, AllDigits;
    NumeralIsRead(s, i, w.radix, w.digits);
  }

  lemma QuoteIsRead(s: string, i: nat, t: string)
    requires HasAt(s, i, Shown(Quoted(t)))
    ensures i < |s| && StringBody(s, i + 1, false, "") == Parsed(Meant(Quoted(t)), i + |Shown(Quoted(t))|)
  {
    HasParts(s, i, "\"", Escaped(t) + "\"");
    EscapedIsRead(s, i + 1, t, "");
    assert "" + t == t;
  }

  lemma {:induction false} ListIsRead(s: string, i: nat, rest: Rest)
    requires Sound(Listed(rest)) && HasAt(s, i, Shown(Listed(rest)))
    ensures i < |s| && ParseItems(s, i, []) == Parsed(Meant(Listed(rest)), i + |Shown(Listed(rest))|)
    decreases Listed(rest), 0
  {
    hide HasAt, ParseItems;
    HasParts(s, i, "[", ShownRest(rest));
    RestIsRead(s, i, [], rest);
    assert [] + Items(rest) == Items(rest);
  }

  /** The array loop before an item that has been shown to parse. */
  lemma ItemsStep(s: string, tmp: nat, e: nat, before: seq<Value>, v: Value, next: nat)
    requires tmp < e < |s| && Skip(s, tmp + 1) == e && s[e] != ']' && e < next <= |s| && ParseValue(s, e) == Parsed(v, next)
    ensures var j := Skip(s, next);
            j < |s| && s[j] == ']' ==> ParseItems(s, tmp, before) == Parsed(Array(before + [v]), j + 1)
    ensures var j := Skip(s, next);
            j + 1 < |s| && s[j] == ',' ==> ParseItems(s, tmp, before) == ParseItems(s, j + 1, before + [v])
  {}

  /** An item between its blanks, before a comma or the bracket c. */
  lemma ItemAt(s: string, a: nat, lead: string, w: Written, gap: string, c: char)
    requires Blanks(lead) && Sound(w) && Blanks(gap) && (c == ']' || c == ',')
    requires HasAt(s, a, lead) && HasAt(s, a + |lead|, Shown(w)) && HasAt(s, a + |lead| + |Shown(w)|, gap)
    requires HasAt(s, a + |lead| + |Shown(w)| + |gap|, [c])
    ensures var e := a + |lead|; var next := e + |Shown(w)|;
            && Skip(s, a) == e < |s| && s[e] != ']' && e < next && Skip(s, next) == next + |gap| < |s|
            && s[next + |gap|] == c && Ended(w, s, next)
  {
    var e := a + |lead|;
    var next := e + |Shown(w)|;
    hide HasAt, Shown, Sound;
    ItemStart(s, e, w);
    SkipOver(s, a, lead);
    GapEnds(s, next, gap, c, w);
  }

  lemma ItemStart(s: string, e: nat, w: Written)
    requires Sound(w) && HasAt(s, e, Shown(w))
    ensures Shown(w) != "" && e < |s| && s[e] != ']' && s[e] != ' ' && s[e] != '\t'
  {
    ShownStart(w);
    HasChar(s, e, Shown(w), 0);
  }

  lemma GapEnds(s: string, i: nat, gap: string, c: char, w: Written)
    requires Blanks(gap) && (c == ']' || c == ',') && HasAt(s, i, gap) && HasAt(s, i + |gap|, [c])
    ensures Skip(s, i) == i + |gap| < |s| && s[i + |gap|] == c && Ended(w, s, i)
  {
    HasChar(s, i + |gap|, [c], 0);
    if gap != "" {
      HasChar(s, i, gap, 0);
      assert gap[0] in gap;
    }
    hide HasAt;
    SkipOver(s, i, gap);
  }

  lemma {:induction false} RestIsRead(s: string, tmp: nat, before: seq<Value>, r: Rest)
    requires SoundRest(r) && HasAt(s, tmp + 1, ShownRest(r))
    ensures tmp < |s| && ParseItems(s, tmp, before) == Parsed(Array(before + Items(r)), tmp + 1 + |ShownRest(r)|)
    decreases r, 1
  {
    hide ParseItems, ParseValue, Skip, HasAt;
    match r
    case Close(lead) =>
      HasParts(s, tmp + 1, lead, "]");
      HasChar(s, tmp + 1 + |lead|, "]", 0);
      SkipOver(s, tmp + 1, lead);
      Closes(s, tmp, before);
      assert before + [] == before;
    case Last(lead, item, gap) =>
      LastParts(s, tmp + 1, lead, item, gap);
      ItemIsRead(s, tmp, before, lead, item, gap, ']', r);
    case More(lead, item, gap, lost, rest) =>
      MoreParts(s, tmp + 1, lead, item, gap, lost, rest);
      ItemIsRead(s, tmp, before, lead, item, gap, ',', r);
      var j := tmp + 1 + |lead| + |Shown(item)| + |gap|;
      RestIsRead(s, j + 1, before + [Meant(item)], rest);
      assert before + [Meant(item)] + Items(rest) == before + ([Meant(item)] + Items(rest));
  }

  /** One round of the array loop; `whole` bounds the nesting. */
  lemma {:induction false} ItemIsRead(s: string, tmp: nat, before: seq<Value>, lead: string, w: Written, gap: string,
                                      c: char, whole: Rest)
    requires Blanks(lead) && Sound(w) && Blanks(gap) && (c == ']' || c == ',') && w < whole
    requires var a := tmp + 1;
             && HasAt(s, a, lead) && HasAt(s, a + |lead|, Shown(w)) && HasAt(s, a + |lead| + |Shown(w)|, gap)
             && HasAt(s, a + |lead| + |Shown(w)| + |gap|, [c])
    ensures var j := tmp + 1 + |lead| + |Shown(w)| + |gap|;
            && j < |s| && (c == ']' ==> ParseItems(s, tmp, before) == Parsed(Array(before + [Meant(w)]), j + 1))
            && (c == ',' && j + 1 < |s| ==> ParseItems(s, tmp, before) == ParseItems(s, j + 1, before + [Meant(w)]))
    decreases whole, 0
  {
    hide ParseItems, ParseValue, Skip, HasAt, Shown, Blanks, Ended;
    var e := tmp + 1 + |lead|;
    ItemAt(s, tmp + 1, lead, w, gap, c);
    WrittenIsRead(s, e, w);
    ItemsStep(s, tmp, e, before, Meant(w), e + |Shown(w)|);
  }

  lemma Closes(s: string, tmp: nat, before: seq<Value>)
    requires tmp < |s| && Skip(s, tmp + 1) < |s| && s[Skip(s, tmp + 1)] == ']'
    ensures ParseItems(s, tmp, before) == Parsed(Array(before), Skip(s, tmp + 1) + 1)
  {}

  lemma LastParts(s: string, a: nat, lead: string, w: Written, gap: string)
    requires HasAt(s, a, ShownRest(Last(lead, w, gap)))
    ensures HasAt(s, a, lead) && HasAt(s, a + |lead|, Shown(w)) && HasAt(s, a + |lead| + |Shown(w)|, gap)
    ensures HasAt(s, a + |lead| + |Shown(w)| + |gap|, "]")
  {
    hide HasAt;
    ThreeParts(s, a, lead, Shown(w), gap + "]");
    HasParts(s, a + |lead| + |Shown(w)|, gap, "]");
  }

  lemma ThreeParts(s: string, a: nat, t: string, u: string, v: string)
    requires HasAt(s, a, t + (u + v))
    ensures HasAt(s, a, t) && HasAt(s, a + |t|, u) && HasAt(s, a + |t| + |u|, v)
  {
    HasParts(s, a, t, u + v);
    HasParts(s, a + |t|, u, v);
  }

  lemma MoreParts(s: string, a: nat, lead: string, w: Written, gap: string, lost: char, rest: Rest)
    requires HasAt(s, a, ShownRest(More(lead, w, gap, lost, rest)))
    ensures HasAt(s, a, lead) && HasAt(s, a + |lead|, Shown(w)) && HasAt(s, a + |lead| + |Shown(w)|, gap)
    ensures var j := a + |lead| + |Shown(w)| + |gap|;
            HasAt(s, j, ",") && j + 1 < |s| && s[j + 1] == lost && HasAt(s, j + 2, ShownRest(rest))
  {
    hide HasAt;
    var end := [lost] + ShownRest(rest);
    var j := a + |lead| + |Shown(w)| + |gap|;
    ThreeParts(s, a, lead, Shown(w), gap + ("," + end));
    ThreeParts(s, a + |lead| + |Shown(w)|, gap, ",", end);
    HasParts(s, j + 1, [lost], ShownRest(rest));
    HasChar(s, j + 1, [lost], 0);
  }

  // ----- Nothing but sentences is read -----

  lemma {:induction false} BodyIsEscaped(s: string, i: nat, out: string) returns (t: string)
    requires i <= |s| && StringBody(s, i, false, out).Parsed?
    ensures HasAt(s, i, Escaped(t) + "\"") && StringBody(s, i, false, out).v == Text(out + t)
    decreases |s| - i
  {
    if s[i] == '"' {
      t := "";
      assert out + t == out && s[i..i + 1] == Escaped(t) + "\"";
    } else {
      var k := if s[i] == '\\' then 2 else 1;
      var c := s[i + k - 1];
      var u := BodyIsEscaped(s, i + k, out + [c]);
      t := [c] + u;
      assert t[1..] == u && out + [c] + u == out + t;
      assert Escaped(t) + "\"" == s[i..i + k] + (Escaped(u) + "\"");
      JoinParts(s, i, s[i..i + k], Escaped(u) + "\"");
    }
  }

  /** A string literal is read if and only if it is a text whose quotes and backslashes have a backslash before
    * them, and no other character has one; it is refused otherwise. */
  lemma TextExactly(s: string, i: nat, t: string)
    requires i <= |s|
    ensures !StringBody(s, i, false, "").Outside?
    ensures StringBody(s, i, false, "").Parsed? && StringBody(s, i, false, "").v == Text(t) <==>
            HasAt(s, i, Escaped(t) + "\"")
    ensures StringBody(s, i, false, "").Bad? <==> !exists u :: HasAt(s, i, Escaped(u) + "\"")
    ensures HasAt(s, i, Escaped(t) + "\"") ==> StringBody(s, i, false, "").next == i + |Escaped(t)| + 1
  {
    NeverOutside(s, i, false, "");
    hide StringBody, Escaped, HasAt;
    if StringBody(s, i, false, "").Parsed? {
      var u := BodyIsEscaped(s, i, "");
      assert "" + u == u;
      EscapedOnly(s, i, u);
    }
    if HasAt(s, i, Escaped(t) + "\"") { EscapedOnly(s, i, t); }
    if u :| HasAt(s, i, Escaped(u) + "\"") {
      EscapedOnly(s, i, u);
    }
  }

  lemma EscapedOnly(s: string, i: nat, t: string)
    requires HasAt(s, i, Escaped(t) + "\"")
    ensures StringBody(s, i, false, "") == Parsed(Text(t), i + |Escaped(t)| + 1)
  {
    EscapedIsRead(s, i, t, "");
    assert "" + t == t;
  }

  lemma {:induction false} NeverOutside(s: string, i: nat, escaping: bool, out: string)
    requires i <= |s|
    ensures !StringBody(s, i, escaping, out).Outside?
    decreases |s| - i
  {
    if i < |s| {
      NeverOutside(s, i + 1, false, out + [s[i]]);
      NeverOutside(s, i + 1, true, out);
    }
  }

  lemma {:induction false} NumberStops(s: string, i: nat)
    requires i <= |s|
    ensures DigitRun(10, s, i, NumberEnd(s, i))
    ensures var e := NumberEnd(s, i); e < |s| ==> DigitValue(10, s[e]).None?
    decreases |s| - i
  {
    if i < |s| && '0' <= s[i] <= '9' { NumberStops(s, i + 1); }
  }

  lemma Numerals(s: string, i: nat, radix: nat, a: nat, e: nat) returns (w: Written)
    requires IsRadix(radix) && i <= a < e <= |s| && s[i..a] == Prefix(radix)
    requires DigitRun(radix, s, a, e)
    requires Ended(Numeral(radix, s[a..e]), s, e) && ParseNumber(s, i).Parsed?
    ensures w.Numeral? && Sound(w) && HasAt(s, i, Shown(w)) && Ended(w, s, i + |Shown(w)|)
    ensures ParseNumber(s, i) == Parsed(Meant(w), i + |Shown(w)|)
  {
    w := Numeral(radix, s[a..e]);
    hide *;
    NumeralAt(s, i, radix, a, e);
    NumeralIsRead(s, i, radix, w.digits);
    SoundNumeral(radix, w.digits, e);
  }

  lemma SoundNumeral(radix: nat, t: string, next: nat)
    requires IsRadix(radix) && t != "" && AllDigits(radix, t) && Counted(Worth(radix, t), next).Parsed?
    ensures var w := Numeral(radix, t); Sound(w) && Counted(Worth(radix, t), next) == Parsed(Meant(w), next)
  {}

  lemma NumeralAt(s: string, i: nat, radix: nat, a: nat, e: nat)
    requires i <= a < e <= |s| && s[i..a] == Prefix(radix) && DigitRun(radix, s, a, e)
    ensures AllDigits(radix, s[a..e])
    ensures var t := Shown(Numeral(radix, s[a..e])); HasAt(s, i, t) && i + |t| == e
  {
    var t := s[a..e];
    assert forall k :: 0 <= k < |t| ==> t[k] == s[a + k];
    hide DigitValue;
    JoinParts(s, i, s[i..a], t);
  }

  lemma NumberExplained(s: string, i: nat) returns (w: Written)
    requires i < |s| && '0' <= s[i] <= '9' && ParseNumber(s, i).Parsed?
    ensures w.Numeral? && Sound(w) && HasAt(s, i, Shown(w)) && Ended(w, s, i + |Shown(w)|)
    ensures ParseNumber(s, i) == Parsed(Meant(w), i + |Shown(w)|)
  {
    hide *;
    if s[i] == '0' && i + 1 < |s| && RadixOf(s[i + 1]) != 10 {
      var radix := RadixOf(s[i + 1]);
      RadixParsed(s, i, radix);
      w := Numerals(s, i, radix, i + 2, RunEnd(radix, s, i + 2, |s|));
    } else {
      var e := DecimalParsed(s, i);
      w := Numerals(s, i, 10, i, e);
    }
  }

  lemma RadixParsed(s: string, i: nat, radix: nat)
    requires i + 1 < |s| && s[i] == '0' && RadixOf(s[i + 1]) == radix != 10 && ParseNumber(s, i).Parsed?
    ensures var e := RunEnd(radix, s, i + 2, |s|); i + 2 < e && Ended(Numeral(radix, s[i + 2..e]), s, e)
    ensures IsRadix(radix) && s[i..i + 2] == Prefix(radix)
  {
    hide Accumulate, ParseDecimal;
    assert s[i..i + 2] == [s[i], s[i + 1]];
  }

  lemma DecimalParsed(s: string, i: nat) returns (e: nat)
    requires i < |s| && '0' <= s[i] <= '9' && ParseNumber(s, i).Parsed?
    requires s[i] == '0' && i + 1 < |s| ==> RadixOf(s[i + 1]) == 10
    ensures IsRadix(10) && i < e <= |s| && s[i..i] == Prefix(10) && DigitRun(10, s, i, e)
    ensures Ended(Numeral(10, s[i..e]), s, e)
  {
    e := NumberEnd(s, i);
    NumberStops(s, i);
    assert NumberEnd(s, i) == NumberEnd(s, i + 1);
    hide ParseRadix, NumberEnd;
    if s[i..e] == "0" { assert |s[i..e]| == 1 && s[i] == s[i..e][0]; }
  }

  /** w stands at i, is not continued, and is what the outcome o has read. */
  ghost predicate Explains(w: Written, s: string, i: nat, o: Outcome) {
    Sound(w) && HasAt(s, i, Shown(w)) && Ended(w, s, i + |Shown(w)|) && o == Parsed(Meant(w), i + |Shown(w)|)
  }

  /** Whatever the parser reads as a value is a sentence that means it ... */
  lemma {:induction false} ValueExplained(s: string, start: nat) returns (w: Written)
    requires start <= |s| && ParseValue(s, start).Parsed?
    ensures Explains(w, s, Skip(s, start), ParseValue(s, start))
    decreases |s| - start, 2
  {
    var i := ParsedKind(s, start);
    hide *;
    if '0' <= s[i] <= '9' {
      w := NumberExplained(s, i);
      Explained(w, s, i, ParseNumber(s, i));
    } else if s[i] == '"' {
      w := QuoteExplained(s, i);
    } else if s[i] == '[' {
      w := ListExplained(s, i);
    } else {
      w := Word(s[i] == 't');
      BoolParsed(s, i);
    }
  }

  lemma ParsedKind(s: string, start: nat) returns (i: nat)
    requires start <= |s| && ParseValue(s, start).Parsed?
    ensures start <= i < |s| && i == Skip(s, start)
    ensures ParseValue(s, start) ==
            if '0' <= s[i] <= '9' then ParseNumber(s, i)
            else if s[i] == '"' then StringBody(s, i + 1, false, "")
            else if s[i] == '[' then ParseItems(s, i, [])
            else ParseBool(s, i)
  {
    i := Skip(s, start);
    hide ParseItems, StringBody, ParseBool, ParseDecimal;
  }

  lemma Explained(w: Written, s: string, i: nat, o: Outcome)
    requires Sound(w) && HasAt(s, i, Shown(w)) && Ended(w, s, i + |Shown(w)|) && o == Parsed(Meant(w), i + |Shown(w)|)
    ensures Explains(w, s, i, o)
  {}

  lemma QuoteExplained(s: string, i: nat) returns (w: Written)
    requires i < |s| && s[i] == '"' && StringBody(s, i + 1, false, "").Parsed?
    ensures Explains(w, s, i, StringBody(s, i + 1, false, ""))
  {
    hide StringBody, HasAt, Escaped;
    var t := BodyIsEscaped(s, i + 1, "");
    w := Quoted(t);
    assert "" + t == t;
    EscapedIsRead(s, i + 1, t, "");
    AtChar(s, i, "\"");
    JoinParts(s, i, "\"", Escaped(t) + "\"");
  }

  lemma {:induction false} ListExplained(s: string, i: nat) returns (w: Written)
    requires i < |s| && s[i] == '[' && ParseItems(s, i, []).Parsed?
    ensures Explains(w, s, i, ParseItems(s, i, []))
    decreases |s| - i, 1
  {
    hide ParseItems, HasAt, ShownRest, Items, SoundRest;
    var r := RestExplained(s, i, []);
    w := Listed(r);
    RestIsRead(s, i, [], r);
    assert [] + Items(r) == Items(r);
    AtChar(s, i, "[");
    JoinParts(s, i, "[", ShownRest(r));
  }

  lemma AtChar(s: string, i: nat, t: string)
    requires i < |s| && t == [s[i]]
    ensures HasAt(s, i, t)
  {}

  lemma BoolParsed(s: string, i: nat)
    requires i < |s| && ParseBool(s, i).Parsed?
    ensures Explains(Word(s[i] == 't'), s, i, ParseBool(s, i))
  {
    if HasAt(s, i, "true") { HasChar(s, i, "true", 0); } else { HasChar(s, i, "false", 0); }
  }

  /** One round of the array loop that comes to an end: the item and what is behind it. */
  lemma ItemParsed(s: string, tmp: nat, before: seq<Value>, i: nat)
    requires tmp < |s| && ParseItems(s, tmp, before).Parsed? && i == Skip(s, tmp + 1)
    ensures tmp < i < |s| && (s[i] != ']' ==> ParseValue(s, i).Parsed?)
  {
    hide ParseValue, Skip;
  }

  lemma BehindParsed(s: string, tmp: nat, before: seq<Value>, i: nat, v: Value, next: nat, j: nat)
    requires tmp < |s| && ParseItems(s, tmp, before).Parsed? && i == Skip(s, tmp + 1) < |s| && s[i] != ']'
    requires ParseValue(s, i) == Parsed(v, next) && next <= |s| && j == Skip(s, next)
    ensures tmp < j < |s|
    ensures s[j] != ']' ==> s[j] == ',' && j + 1 < |s| && ParseItems(s, j + 1, before + [v]).Parsed?
  {
    hide ParseValue, Skip;
  }

  lemma {:induction false} RestExplained(s: string, tmp: nat, before: seq<Value>) returns (r: Rest)
    requires tmp < |s| && ParseItems(s, tmp, before).Parsed?
    ensures SoundRest(r) && HasAt(s, tmp + 1, ShownRest(r))
    decreases |s| - tmp, 0
  {
    hide *;
    var i := Skip(s, tmp + 1);
    ItemParsed(s, tmp, before, i);
    if s[i] == ']' {
      r := CloseAt(s, tmp, i);
    } else {
      Skipped(s, tmp + 1);
      var w := ItemExplained(s, i);
      var next := i + |Shown(w)|;
      var j := Skip(s, next);
      BehindParsed(s, tmp, before, i, Meant(w), next, j);
      r := BehindItem(s, tmp, before, w, i, j);
    }
  }

  lemma {:induction false} ItemExplained(s: string, i: nat) returns (w: Written)
    requires i <= |s| && Skip(s, i) == i && ParseValue(s, i).Parsed?
    ensures Sound(w) && HasAt(s, i, Shown(w)) && ParseValue(s, i) == Parsed(Meant(w), i + |Shown(w)|)
    ensures i + |Shown(w)| <= |s|
    decreases |s| - i, 3
  {
    hide *;
    w := ValueExplained(s, i);
    ExplainedMeans(w, s, i, ParseValue(s, i));
  }

  lemma {:induction false} BehindItem(s: string, tmp: nat, before: seq<Value>, w: Written, i: nat, j: nat) returns (r: Rest)
    requires tmp < |s| && Sound(w) && i == Skip(s, tmp + 1) && HasAt(s, i, Shown(w))
    requires tmp < j < |s| && i + |Shown(w)| <= |s| && j == Skip(s, i + |Shown(w)|)
    requires s[j] != ']' ==> s[j] == ',' && j + 1 < |s| && ParseItems(s, j + 1, before + [Meant(w)]).Parsed?
    ensures SoundRest(r) && HasAt(s, tmp + 1, ShownRest(r))
    decreases |s| - j, 1
  {
    hide *;
    if s[j] == ']' {
      r := LastOf(s, tmp, w, i);
    } else {
      var rest := RestExplained(s, j + 1, before + [Meant(w)]);
      r := MoreOf(s, tmp, w, i, rest);
    }
  }

  lemma CloseAt(s: string, tmp: nat, i: nat) returns (r: Rest)
    requires tmp < |s| && Skip(s, tmp + 1) == i < |s| && s[i] == ']'
    ensures SoundRest(r) && HasAt(s, tmp + 1, ShownRest(r))
  {
    r := Close(s[tmp + 1..i]);
    Skipped(s, tmp + 1);
    AtChar(s, i, "]");
    JoinParts(s, tmp + 1, s[tmp + 1..i], "]");
  }

  /** The item at i before the bracket, or before a comma and the rest. */
  lemma LastOf(s: string, tmp: nat, w: Written, i: nat) returns (r: Rest)
    requires tmp < |s| && i == Skip(s, tmp + 1) && Sound(w) && HasAt(s, i, Shown(w))
    requires Skip(s, i + |Shown(w)|) < |s| && s[Skip(s, i + |Shown(w)|)] == ']'
    ensures SoundRest(r) && HasAt(s, tmp + 1, ShownRest(r))
  {
    hide HasAt, Skip, Sound, Shown, Blanks;
    var next := i + |Shown(w)|;
    var j := Skip(s, next);
    Skipped(s, tmp + 1);
    Skipped(s, next);
    r := Last(s[tmp + 1..i], w, s[next..j]);
    AtChar(s, j, "]");
    FourParts(s, tmp + 1, s[tmp + 1..i], Shown(w), s[next..j], "]");
  }

  lemma MoreOf(s: string, tmp: nat, w: Written, i: nat, rest: Rest) returns (r: Rest)
    requires tmp < |s| && i == Skip(s, tmp + 1) && Sound(w) && HasAt(s, i, Shown(w)) && SoundRest(rest)
    requires var j := Skip(s, i + |Shown(w)|);
             j + 1 < |s| && s[j] == ',' && HasAt(s, j + 2, ShownRest(rest))
    ensures SoundRest(r) && HasAt(s, tmp + 1, ShownRest(r))
  {
    hide HasAt, Skip, Sound, Shown, Blanks;
    var next := i + |Shown(w)|;
    var j := Skip(s, next);
    Skipped(s, tmp + 1);
    Skipped(s, next);
    r := More(s[tmp + 1..i], w, s[next..j], s[j + 1], rest);
    CommaAt(s, j, ShownRest(rest));
    FourParts(s, tmp + 1, s[tmp + 1..i], Shown(w), s[next..j], "," + ([s[j + 1]] + ShownRest(rest)));
  }

  lemma ExplainedMeans(w: Written, s: string, i: nat, o: Outcome)
    requires Explains(w, s, i, o)
    ensures Sound(w) && HasAt(s, i, Shown(w)) && o == Parsed(Meant(w), i + |Shown(w)|)
  {}

  lemma CommaAt(s: string, j: nat, rest: string)
    requires j + 1 < |s| && s[j] == ',' && HasAt(s, j + 2, rest)
    ensures HasAt(s, j, "," + ([s[j + 1]] + rest))
  {
    AtChar(s, j, ",");
    AtChar(s, j + 1, [s[j + 1]]);
    JoinParts(s, j + 1, [s[j + 1]], rest);
    JoinParts(s, j, ",", [s[j + 1]] + rest);
  }

  lemma FourParts(s: string, a: nat, t: string, u: string, v: string, x: string)
    requires HasAt(s, a, t) && HasAt(s, a + |t|, u) && HasAt(s, a + |t| + |u|, v) && HasAt(s, a + |t| + |u| + |v|, x)
    ensures HasAt(s, a, t + (u + (v + x)))
  {
    hide HasAt;
    JoinParts(s, a + |t| + |u|, v, x);
    JoinParts(s, a + |t|, u, v + x);
    JoinParts(s, a, t, u + (v + x));
  }

  /** ... so the parser reads exactly the sentences. */
  lemma SentencesExactly(s: string, i: nat, v: Value, next: nat)
    requires i <= |s| && Skip(s, i) == i
    ensures ParseValue(s, i) == Parsed(v, next) <==>
            exists w | Sound(w) :: Meant(w) == v && HasAt(s, i, Shown(w)) && next == i + |Shown(w)| && Ended(w, s, next)
  {
    hide ParseValue, HasAt, Ended, Shown, Meant, Sound;
    if ParseValue(s, i) == Parsed(v, next) { var w := ValueExplained(s, i); }
    forall w | Sound(w) && HasAt(s, i, Shown(w)) && Ended(w, s, i + |Shown(w)|)
      ensures ParseValue(s, i) == Parsed(Meant(w), i + |Shown(w)|)
    {
      WrittenIsRead(s, i, w);
    }
  }

  // ----- Lines -----

  /** A name, an equals sign, a value, and whatever is behind it. */
  datatype Line = Line(key: string, before: string, behind: string, w: Written, rest: string)

  ghost predicate ValidKey(key: string) {
    key != "" && forall c :: c in key ==> NameChar(c)
  }

  function ShownLine(l: Line): string {
    l.key + (l.before + ("=" + (l.behind + (Shown(l.w) + l.rest))))
  }

  ghost predicate SoundLine(l: Line) {
    ValidKey(l.key) && Blanks(l.before) && Blanks(l.behind) && Sound(l.w)
  }

  lemma {:induction false} NameOver(s: string, i: nat, r: nat)
    requires i <= r <= |s| && (forall k :: i <= k < r ==> NameChar(s[k])) && (r == |s| || !NameChar(s[r]))
    ensures NameEnd(s, i) == r
    decreases r - i
  {
    if i < r { NameOver(s, i + 1, r); }
  }

  lemma KeyIsRead(s: string, key: string)
    requires ValidKey(key) && HasAt(s, 0, key) && |key| < |s| && !NameChar(s[|key|])
    ensures NameEnd(s, 1) == |key| && s[..|key|] == key
  {
    forall j | 0 <= j < |key| ensures NameChar(s[j]) {
      HasChar(s, 0, key, j);
      assert key[j] in key;
    }
    NameOver(s, 1, |key|);
  }

  /** Where the value starts. */
  function ValueAt(l: Line): nat {
    |l.key| + |l.before| + 1 + |l.behind|
  }

  lemma LineParts(l: Line)
    ensures var s := ShownLine(l);
            && HasAt(s, 0, l.key) && HasAt(s, |l.key|, l.before) && HasAt(s, |l.key| + |l.before|, "=")
            && HasAt(s, |l.key| + |l.before| + 1, l.behind)
            && HasAt(s, ValueAt(l), Shown(l.w)) && |s| == ValueAt(l) + |Shown(l.w)| + |l.rest|
            && s[ValueAt(l) + |Shown(l.w)|..] == l.rest
  {
    var s := ShownLine(l);
    var k := |l.key| + |l.before|;
    var text, tail := Shown(l.w), l.behind + (Shown(l.w) + l.rest);
    assert s == l.key + (l.before + ("=" + tail)) && ValueAt(l) == k + 1 + |l.behind|;
    SixParts(s, l.key, l.before, l.behind, text, l.rest);
    hide *;
  }

  lemma SixParts(s: string, key: string, before: string, behind: string, text: string, rest: string)
    requires s == key + (before + ("=" + (behind + (text + rest))))
    ensures var k := |key| + |before|;
            && HasAt(s, 0, key) && HasAt(s, |key|, before) && HasAt(s, k, "=")
            && HasAt(s, k + 1, behind) && HasAt(s, k + 1 + |behind|, text)
            && |s| == k + 1 + |behind| + |text| + |rest| && s[k + 1 + |behind| + |text|..] == rest
  {
    var k := |key| + |before|;
    WholeAt(s);
    hide *;
    ThreeParts(s, 0, key, before, "=" + (behind + (text + rest)));
    HasParts(s, k, "=", behind + (text + rest));
    ThreeParts(s, k + 1, behind, text, rest);
    AtEnd(s, k + 1 + |behind| + |text|, rest);
  }

  lemma WholeAt(s: string)
    ensures HasAt(s, 0, s)
  {}

  lemma AtEnd(s: string, i: nat, t: string)
    requires HasAt(s, i, t) && |s| == i + |t|
    ensures s[i..] == t
  {}

  lemma RemarkExactly(s: string, i: nat)
    requires i <= |s|
    ensures InlineComment(s, i) <==> Remark(s[i..])
  {
    var rest := s[i..];
    var j := Skip(s, i);
    Skipped(s, i);
    assert rest[..j - i] == s[i..j] && (j < |s| ==> rest[j - i] == s[j]);
    if InlineComment(s, i) { assert Blanks(rest[..j - i]); }
    if Remark(rest) {
      var n :| 0 <= n <= |rest| && Blanks(rest[..n]) && (n == |rest| || rest[n] == '#');
      assert HasAt(s, i, rest[..n]) by { assert s[i..i + n] == rest[..n]; }
      SkipOver(s, i, rest[..n]);
    }
  }

  lemma NameIsRead(s: string, key: string, before: string)
    requires ValidKey(key) && Blanks(before) && HasAt(s, 0, key) && HasAt(s, |key|, before) && HasAt(s, |key| + |before|, "=")
    ensures var k, e := |key|, |key| + |before|;
            && e < |s| && NameEnd(s, 1) == k && s[..k] == key && Skip(s, k) == e
            && s[e] == '=' && (Blank(s[k]) || s[k] == '=')
  {
    BehindName(s, |key|, before);
    hide *;
    KeyIsRead(s, key);
  }

  lemma BehindName(s: string, k: nat, before: string)
    requires Blanks(before) && HasAt(s, k, before) && HasAt(s, k + |before|, "=")
    ensures k + |before| < |s| && Skip(s, k) == k + |before| && s[k + |before|] == '='
    ensures !NameChar(s[k]) && (Blank(s[k]) || s[k] == '=')
  {
    HasChar(s, k + |before|, "=", 0);
    if before != "" {
      HasChar(s, k, before, 0);
      assert before[0] in before;
    }
    hide HasAt;
    SkipOver(s, k, before);
  }

  lemma LineValue(l: Line, s: string, a: nat)
    requires SoundLine(l) && Ended(l.w, l.rest, 0) && s == ShownLine(l) && a == |l.key| + |l.before| + 1
    ensures a <= |s| && ParseValue(s, a) == Parsed(Meant(l.w), ValueAt(l) + |Shown(l.w)|)
  {
    LineParts(l);
    var at := a + |l.behind|;
    assert Blanks(l.behind) && Sound(l.w) && ValueAt(l) == at;
    hide *;
    EndedBehind(l.w, s, at + |Shown(l.w)|, l.rest);
    ReadBehind(s, a, l.behind, l.w);
  }

  lemma ReadBehind(s: string, a: nat, blanks: string, w: Written)
    requires Blanks(blanks) && HasAt(s, a, blanks) && Sound(w) && HasAt(s, a + |blanks|, Shown(w))
    requires Ended(w, s, a + |blanks| + |Shown(w)|)
    ensures a <= |s| && ParseValue(s, a) == Parsed(Meant(w), a + |blanks| + |Shown(w)|)
  {
    hide Shown, Sound, Meant, HasAt, Ended, ParseValue;
    NotBlank(w);
    HasChar(s, a + |blanks|, Shown(w), 0);
    SkipOver(s, a, blanks);
    WrittenIsRead(s, a + |blanks|, w);
    ParseSkips(s, a);
  }

  lemma NotBlank(w: Written)
    requires Sound(w)
    ensures Shown(w) != "" && Shown(w)[0] != ' ' && Shown(w)[0] != '\t'
  {
    ShownStart(w);
  }

  lemma EndedBehind(w: Written, s: string, i: nat, rest: string)
    requires i <= |s| && s[i..] == rest && Ended(w, rest, 0)
    ensures Ended(w, s, i)
  {
    if i < |s| { assert s[i..][0] == s[i]; }
  }

  /** A line is read if and only if nothing but blanks and a comment is behind the value. */
  lemma LineIsRead(l: Line)
    requires SoundLine(l) && Ended(l.w, l.rest, 0)
    ensures ShownLine(l) != ""
    ensures ParseProperty(ShownLine(l)) == if Remark(l.rest) then Property(l.key, Meant(l.w)) else NoProperty
  {
    LineParts(l);
    hide Shown, Sound, Meant, HasAt, Ended, ShownLine, ParseValue, Remark, Skip, NameEnd, ParseProperty, InlineComment;
    var s := ShownLine(l);
    NameIsRead(s, l.key, l.before);
    LineValue(l, s, |l.key| + |l.before| + 1);
    RemarkExactly(s, ValueAt(l) + |Shown(l.w)|);
    PropertyIs(s, |l.key|, |l.key| + |l.before|);
  }

  lemma ParseSkips(s: string, i: nat)
    requires i <= |s|
    ensures ParseValue(s, i) == ParseValue(s, Skip(s, i))
  {
    Skipped(s, i);
  }

  lemma PropertyIs(s: string, k: nat, e: nat)
    requires 0 < k <= e < |s| && NameEnd(s, 1) == k && Skip(s, k) == e && (Blank(s[k]) || s[k] == '=')
    requires s[e] == '=' && e + 1 < |s|
    ensures ParseProperty(s) == match ParseValue(s, e + 1)
                                case Bad => NoProperty
                                case Outside => OutsideProperty
                                case Parsed(v, next) => if InlineComment(s, next) then Property(s[..k], v) else NoProperty
  {
    hide ParseValue, InlineComment;
  }

  lemma LineExplained(s: string) returns (l: Line)
    requires s != "" && NameChar(s[0]) && ParseProperty(s).Property?
    ensures SoundLine(l) && Remark(l.rest) && ShownLine(l) == s && ParseProperty(s) == Property(l.key, Meant(l.w))
  {
    var k := NameEnd(s, 1);
    var e := Skip(s, k);
    hide ParseValue, InlineComment;
    var o := ParseValue(s, e + 1);
    hide ParseProperty;
    assert ValidKey(s[..k]) by {
      assert forall j :: 0 <= j < k ==> s[..k][j] == s[j];
    }
    hide NameEnd, ValidKey;
    l := LineOf(s, k, e, o);
  }

  lemma LineOf(s: string, k: nat, e: nat, o: Outcome) returns (l: Line)
    requires k <= |s| && ValidKey(s[..k]) && Skip(s, k) == e && e + 1 < |s| && s[e] == '='
    requires ParseValue(s, e + 1) == o && o.Parsed? && InlineComment(s, o.next)
    ensures SoundLine(l) && Remark(l.rest) && ShownLine(l) == s && l.key == s[..k] && o.v == Meant(l.w)
  {
    hide ParseValue, InlineComment, ValidKey, Skip, Shown, Remark, Sound, Meant, Ended;
    var i := Skip(s, e + 1);
    var w := ValueExplained(s, e + 1);
    ExplainedMeans(w, s, i, o);
    l := Line(s[..k], s[k..e], s[e + 1..i], w, s[o.next..]);
    Skipped(s, k);
    Skipped(s, e + 1);
    RemarkExactly(s, o.next);
    Assembled(s, k, e, i, o.next, Shown(w));
  }

  lemma Assembled(s: string, k: nat, e: nat, i: nat, next: nat, t: string)
    requires k <= e < e + 1 <= i <= next <= |s| && s[e] == '=' && s[i..next] == t
    ensures s == s[..k] + (s[k..e] + ("=" + (s[e + 1..i] + (t + s[next..]))))
  {
    assert s[i..] == t + s[next..];
    assert s[e + 1..] == s[e + 1..i] + s[i..];
    assert s[e..] == "=" + s[e + 1..];
    assert s[k..] == s[k..e] + s[e..];
  }

  /** The parser of a property line accepts exactly these lines. */
  lemma LinesExactly(s: string, key: string, v: Value)
    requires s != "" && NameChar(s[0])
    ensures ParseProperty(s) == Property(key, v) <==>
            exists l | SoundLine(l) && Remark(l.rest) :: ShownLine(l) == s && l.key == key && Meant(l.w) == v
  {
    hide ParseProperty, ShownLine;
    if ParseProperty(s) == Property(key, v) { var l := LineExplained(s); }
    forall l | SoundLine(l) && Remark(l.rest)
      ensures ShownLine(l) != "" && ParseProperty(ShownLine(l)) == Property(l.key, Meant(l.w))
    {
      RemarkEnds(l.w, l.rest);
      LineIsRead(l);
    }
  }

  lemma RemarkEnds(w: Written, rest: string)
    requires Remark(rest)
    ensures Ended(w, rest, 0)
  {
    var n :| 0 <= n <= |rest| && Blanks(rest[..n]) && (n == |rest| || rest[n] == '#');
    if n > 0 { assert rest[..n][0] == rest[0] && rest[0] in rest[..n]; }
  }
}
