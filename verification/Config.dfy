/** Values of the configuration language of source/utils/clog_config.c, what its printer writes for them and
  * what its parser reads, as functions on a line of text.  Module ConfigCode has the loops, ConfigGrammar and
  * ConfigRoundTrip say what the functions mean.
  *
  * Signed numbers, floats and characters are outside this model: the parser's function says `Outside` where
  * the source would read one (or where a `0x`, `0o`, `0b` without digits sends its cursor past the line).
  */
module Config {
  import opened Common

  const UINT32_LIMIT := 0x1_0000_0000
  const UINT64_LIMIT := 0x1_0000_0000_0000_0000

  datatype Value = UInt(n: nat) | Flag(b: bool) | Text(s: string) | Array(items: seq<Value>)

  // ----- Printing -----

  function Decimal(n: nat): (s: string)
    ensures s != "" && forall c :: c in s ==> '0' <= c <= '9'
  {
    var digit := '0' + (n % 10) as char;
    if n < 10 then [digit] else Decimal(n / 10) + [digit]
  }

  function Dump(v: Value): string
    decreases v, 0
  {
    match v
    case UInt(n) => Decimal(n)
    case Flag(b) => if b then "true" else "false"
    case Text(s) => "\"" + s + "\""
    case Array(items) => if items == [] then "[ ]" else "[ " + DumpItems(items) + " ]"
  }

  function DumpItems(items: seq<Value>): string
    requires items != []
    decreases items
  {
    if |items| == 1 then Dump(items[0]) else Dump(items[0]) + ", " + DumpItems(items[1..])
  }

  function DumpEntry(key: Option<string>, v: Value): string {
    (if key.Some? then key.value + " = " else "") + Dump(v)
  }

  // ----- Parsing -----

  /** `next` is where the cursor stands afterwards. */
  datatype Outcome = Parsed(v: Value, next: nat) | Bad | Outside

  predicate Blank(c: char) {
    c == ' ' || c == '\t'
  }

  ghost predicate BlankRun(s: string, i: nat, j: nat) {
    i <= j <= |s| && forall k :: i <= k < j ==> Blank(s[k])
  }

  /** clog_config_remove_leading_spaces, `end` being the end of the line. */
  function Skip(s: string, i: nat): (j: nat)
    requires i <= |s|
    ensures i <= j <= |s| && (j < |s| ==> !Blank(s[j])) && BlankRun(s, i, j)
    decreases |s| - i
  {
    if i < |s| && Blank(s[i]) then Skip(s, i + 1) else i
  }

  function DigitValue(radix: nat, c: char): Option<nat> {
    if '0' <= c <= '9' && (c - '0') as nat < radix then Some((c - '0') as nat)
    else if radix == 16 && 'a' <= c <= 'f' then Some((c - 'a') as nat + 10)
    else if radix == 16 && 'A' <= c <= 'F' then Some((c - 'A') as nat + 10)
    else None
  }

  function RadixOf(c: char): nat {
    if c == 'x' then 16 else if c == 'o' then 8 else if c == 'b' then 2 else 10
  }

  /** Digits from i to r. */
  ghost predicate DigitRun(radix: nat, s: string, i: nat, r: nat) {
    i <= r <= |s| && forall k :: i <= k < r ==> DigitValue(radix, s[k]).Some?
  }

  /** Where the digits that start at i end. */
  function RunEnd(radix: nat, s: string, i: nat, end: nat): (r: nat)
    requires i <= end <= |s|
    ensures r <= end && DigitRun(radix, s, i, r)
    ensures r < end ==> DigitValue(radix, s[r]).None?
    decreases end - i
  {
    if i < end && DigitValue(radix, s[i]).Some? then RunEnd(radix, s, i + 1, end) else i
  }

  function Append(n: nat, radix: nat, digit: nat): nat {
    n * radix + digit
  }

  /** What 64 bits hold of a number. */
  function Low64(n: nat): nat {
    n % UINT64_LIMIT
  }

  /** The digits from i to r, accumulated in 64 bits. */
  function Accumulate(radix: nat, s: string, i: nat, r: nat): nat
    requires DigitRun(radix, s, i, r)
    decreases r - i
  {
    if i == r then 0
    else Low64(Append(Accumulate(radix, s, i, r - 1), radix, DigitValue(radix, s[r - 1]).value))
  }

  function ParseRadix(radix: nat, s: string, i: nat, end: nat): (o: Outcome)
    requires i <= end <= |s|
    ensures o.Parsed? ==> i < o.next <= end
  {
    var r := RunEnd(radix, s, i, end);
    var base := Accumulate(radix, s, i, r);
    if r == i then Outside
    else if base >= UINT32_LIMIT then Bad
    else Parsed(UInt(base), r)
  }

  /** Where the scan over a decimal number stops. */
  function NumberEnd(s: string, i: nat): (e: nat)
    requires i <= |s|
    ensures i <= e <= |s|
    decreases |s| - i
  {
    if i < |s| && '0' <= s[i] <= '9' then NumberEnd(s, i + 1) else i
  }

  function ParseDecimal(s: string, start: nat, tmp: nat): (o: Outcome)
    requires start <= tmp <= |s|
    ensures o.Parsed? ==> start < o.next <= |s|
  {
    var e := NumberEnd(s, tmp);
    if e < |s| && s[e] == '.' then Outside else ParseRadix(10, s, start, e)
  }

  function ParseNumber(s: string, i: nat): (o: Outcome)
    requires i < |s|
    ensures o.Parsed? ==> i < o.next <= |s|
  {
    if s[i] == '-' || s[i] == '+' then Outside
    else if s[i] != '0' then ParseDecimal(s, i, i)
    else if i + 1 == |s| || Blank(s[i + 1]) || s[i + 1] == '#' then Parsed(UInt(0), i + 1)
    else if s[i + 1] == '.' then Outside
    else if RadixOf(s[i + 1]) != 10 then ParseRadix(RadixOf(s[i + 1]), s, i + 2, |s|)
    else ParseDecimal(s, i, i + 1)
  }

  /** The characters of a string up to its closing quote. */
  function StringBody(s: string, i: nat, escaping: bool, out: string): (o: Outcome)
    requires i <= |s|
    ensures o.Parsed? ==> i < o.next <= |s|
    decreases |s| - i
  {
    if i == |s| then Bad
    else if escaping then
      if s[i] == '\\' || s[i] == '"' then StringBody(s, i + 1, false, out + [s[i]]) else Bad
    else if s[i] == '\\' then StringBody(s, i + 1, true, out)
    else if s[i] == '"' then Parsed(Text(out), i + 1)
    else StringBody(s, i + 1, false, out + [s[i]])
  }

  predicate HasAt(s: string, i: nat, t: string) {
    i + |t| <= |s| && s[i..i + |t|] == t
  }

  function ParseBool(s: string, i: nat): (o: Outcome)
    requires i <= |s|
    ensures o.Parsed? ==> i < o.next <= |s|
  {
    if HasAt(s, i, "true") then Parsed(Flag(true), i + 4)
    else if HasAt(s, i, "false") then Parsed(Flag(false), i + 5)
    else Bad
  }

  function ParseValue(s: string, start: nat): (o: Outcome)
    requires start <= |s|
    ensures o.Parsed? ==> start < o.next <= |s|
    decreases |s| - start, 1
  {
    var i := Skip(s, start);
    if i == |s| then Bad
    else if s[i] == '+' || s[i] == '-' || '0' <= s[i] <= '9' then ParseNumber(s, i)
    else if s[i] == '\'' then Outside
    else if s[i] == '"' then StringBody(s, i + 1, false, "")
    else if s[i] == 't' || s[i] == 'f' then ParseBool(s, i)
    else if s[i] == '[' then ParseItems(s, i, [])
    else Bad
  }

  /** The array loop, with the cursor before the place where the next item may start. */
  function ParseItems(s: string, tmp: nat, items: seq<Value>): (o: Outcome)
    requires tmp < |s|
    ensures o.Parsed? ==> tmp < o.next <= |s|
    decreases |s| - tmp, 0
  {
    var i := Skip(s, tmp + 1);
    if i == |s| then Bad
    else if s[i] == ']' then Parsed(Array(items), i + 1)
    else match ParseValue(s, i)
      case Bad => Bad
      case Outside => Outside
      case Parsed(v, next) =>
        var j := Skip(s, next);
        if j == |s| then Bad
        else if s[j] == ']' then Parsed(Array(items + [v]), j + 1)
        else if s[j] != ',' || j + 1 == |s| then Bad
        else ParseItems(s, j + 1, items + [v])
  }

  /** Nothing but blanks and a comment may follow a value. */
  predicate InlineComment(s: string, i: nat)
    requires i <= |s|
  {
    var j := Skip(s, i);
    j == |s| || s[j] == '#'
  }

  datatype Property = Property(key: string, v: Value) | NoProperty | OutsideProperty

  function NameEnd(s: string, i: nat): (e: nat)
    requires i <= |s|
    ensures i <= e <= |s| && (e < |s| ==> !NameChar(s[e])) && forall k :: i <= k < e ==> NameChar(s[k])
    decreases |s| - i
  {
    if i < |s| && NameChar(s[i]) then NameEnd(s, i + 1) else i
  }

  /** A line whose first character is a name character. */
  function ParseProperty(s: string): Property
    requires s != ""
  {
    var k := NameEnd(s, 1);
    if k == |s| || !(Blank(s[k]) || s[k] == '=') then NoProperty
    else
      var e := Skip(s, k);
      if e == |s| || s[e] != '=' || e + 1 == |s| then NoProperty
      else match ParseValue(s, e + 1)
        case Bad => NoProperty
        case Outside => OutsideProperty
        case Parsed(v, next) => if InlineComment(s, next) then Property(s[..k], v) else NoProperty
  }

  // ----- Whole texts: the parser first cuts them into lines -----

  predicate Break(c: char) {
    c == '\n' || c == '\r'
  }

  ghost predicate Unbroken(s: string, i: nat, j: nat) {
    i <= j <= |s| && forall k :: i <= k < j ==> !Break(s[k])
  }

  function LineEnd(s: string, i: nat): (e: nat)
    requires i <= |s|
    ensures i <= e <= |s| && (e < |s| ==> Break(s[e])) && Unbroken(s, i, e)
    decreases |s| - i
  {
    if i < |s| && !Break(s[i]) then LineEnd(s, i + 1) else i
  }

  /** The lines of the text from i on; empty ones are not looked at. */
  function Lines(s: string, i: nat): seq<string>
    requires i <= |s|
    decreases |s| - i
  {
    if i == |s| then []
    else if Break(s[i]) then Lines(s, i + 1)
    else [s[i..LineEnd(s, i)]] + Lines(s, LineEnd(s, i))
  }

  /** What a line contributes; groups are outside this model. */
  function ReadLine(line: string): seq<Property> {
    var i := Skip(line, 0);
    if i == |line| || line[i] == '#' then []
    else if line[i] == '[' then [OutsideProperty]
    else if NameChar(line[i]) then [ParseProperty(line[i..])]
    else [NoProperty]
  }

  function ReadLines(lines: seq<string>): seq<Property> {
    if lines == [] then [] else ReadLine(lines[0]) + ReadLines(lines[1..])
  }
}
