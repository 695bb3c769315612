/** The cursor loops of the parser and the printer of source/utils/clog_config.c, against the functions of
  * module Config.  `s` is one line; a cursor at |s| is at its end.  Without `memory` any allocation may be
  * refused.
  */
module ConfigCode {
  import opened Common
  import opened Config
  import opened ConfigGrammar
  import opened ConfigRoundTrip

  method RemoveLeadingSpaces(s: string, start: nat) returns (tmp: nat)
    requires start <= |s|
    ensures tmp == Skip(s, start)
  {
    tmp := start;
    while tmp < |s|
      invariant start <= tmp <= |s| && Skip(s, tmp) == Skip(s, start)
    {
      if s[tmp] != ' ' && s[tmp] != '\t' {
        return;
      }
      tmp := tmp + 1;
    }
  }

  method ParseUintRadix(radix: nat, s: string, start: nat, end: nat) returns (o: Outcome)
    requires start <= end <= |s|
    ensures o == ParseRadix(radix, s, start, end)
  {
    var tmp, numberEnd, base := start, end, 0;
    while tmp < end
      invariant start <= tmp <= end && (start < tmp ==> numberEnd == tmp - 1)
      invariant DigitRun(radix, s, start, tmp)
      invariant base == Accumulate(radix, s, start, tmp)
      invariant RunEnd(radix, s, start, end) == RunEnd(radix, s, tmp, end)
    {
      var value := DigitValue(radix, s[tmp]);
      if value.None? {
        break;
      }
      base := Low64(Append(base, radix, value.value));
      numberEnd := tmp;
      tmp := tmp + 1;
    }
    if tmp == start {
      return Outside;
    }
    if base >= UINT32_LIMIT {
      return Bad;
    }
    o := Parsed(UInt(base), numberEnd + 1);
  }

  method ParseNumberAt(s: string, start: nat) returns (o: Outcome)
    requires start < |s| && ('0' <= s[start] <= '9' || s[start] == '-' || s[start] == '+')
    ensures o == ParseNumber(s, start)
  {
    var tmp := start;
    if s[tmp] == '-' || s[tmp] == '+' {
      return Outside;
    }
    if s[tmp] == '0' {
      tmp := tmp + 1;
      if tmp == |s| || s[tmp] == ' ' || s[tmp] == '#' || s[tmp] == '\t' {
        return Parsed(UInt(0), tmp);
      }
      if s[tmp] == '.' {
        return Outside;
      }
      var radix := RadixOf(s[tmp]);
      if radix != 10 {
        o := ParseUintRadix(radix, s, tmp + 1, |s|);
        return;
      }
    }
    ghost var first := tmp;
    var numberEnd := tmp;
    while tmp < |s| && s[tmp] != ' ' && s[tmp] != '\t' && s[tmp] != '#'
      invariant first <= tmp <= |s| && numberEnd == tmp && NumberEnd(s, first) == NumberEnd(s, tmp)
    {
      if s[tmp] == '.' {
        return Outside;
      }
      if s[tmp] < '0' || s[tmp] > '9' {
        numberEnd := tmp;
        break;
      }
      tmp := tmp + 1;
      numberEnd := tmp;
    }
    o := ParseUintRadix(10, s, start, numberEnd);
  }

  method ParseStringAt(s: string, start: nat, memory: bool) returns (o: Outcome)
    requires start < |s| && s[start] == '"'
    ensures o == StringBody(s, start + 1, false, "") || (!memory && o == Bad)
  {
    var tmp := RemoveLeadingSpaces(s, start);
    tmp := tmp + 1;
    var got := Malloc(memory);
    if !got {
      return Bad;
    }
    var result := new char[|s| - start + 1];
    var out, isEscaping := 0, false;
    while tmp < |s|
      invariant start < tmp <= |s| && out < tmp - start
      invariant StringBody(s, start + 1, false, "") == StringBody(s, tmp, isEscaping, result[..out])
    {
      ghost var before := result[..out];
      if isEscaping {
        if s[tmp] == '\\' || s[tmp] == '"' {
          result[out] := s[tmp];
          assert result[..out + 1] == before + [s[tmp]];
          out, isEscaping := out + 1, false;
        } else {
          return Bad;
        }
      } else if s[tmp] == '\\' {
        isEscaping := true;
      } else if s[tmp] == '"' {
        return Parsed(Text(result[..out]), tmp + 1);
      } else {
        result[out] := s[tmp];
        assert result[..out + 1] == before + [s[tmp]];
        out := out + 1;
      }
      tmp := tmp + 1;
    }
    o := Bad;
  }

  method ParseBoolAt(s: string, start: nat) returns (o: Outcome)
    requires start <= |s|
    ensures o == if Skip(s, start) == |s| then Bad else ParseBool(s, Skip(s, start))
  {
    var tmp := RemoveLeadingSpaces(s, start);
    if tmp >= |s| {
      return Bad;
    }
    if s[tmp] == 't' {
      if |s| - tmp < 4 || s[tmp..tmp + 4] != "true" {
        return Bad;
      }
      return Parsed(Flag(true), tmp + 4);
    }
    if s[tmp] == 'f' {
      if |s| - tmp < 5 || s[tmp..tmp + 5] != "false" {
        return Bad;
      }
      return Parsed(Flag(false), tmp + 5);
    }
    o := Bad;
  }

  method ParseValueAt(s: string, start: nat, memory: bool) returns (o: Outcome)
    requires start <= |s|
    ensures o == ParseValue(s, start) || (!memory && o == Bad)
    decreases |s| - start, 1
  {
    var tmp := RemoveLeadingSpaces(s, start);
    if tmp == |s| {
      return Bad;
    }
    if s[tmp] == '+' || s[tmp] == '-' || '0' <= s[tmp] <= '9' {
      o := ParseNumberAt(s, tmp);
    } else if s[tmp] == '\'' {
      o := Outside;
    } else if s[tmp] == '"' {
      o := ParseStringAt(s, tmp, memory);
    } else if s[tmp] == 't' || s[tmp] == 'f' {
      SkipStays(s, tmp);
      o := ParseBoolAt(s, tmp);
    } else if s[tmp] == '[' {
      o := ParseArrayAt(s, tmp, memory);
    } else {
      o := Bad;
    }
  }

  /** The array loop of clog_config_parse_value. */
  method ParseArrayAt(s: string, start: nat, memory: bool) returns (o: Outcome)
    requires start < |s|
    ensures o == ParseItems(s, start, []) || (!memory && o == Bad)
    decreases |s| - start, 0
  {
    hide ParseValue, Skip;
    var tmp := start;
    var items: seq<Value> := [];
    while tmp < |s|
      invariant start <= tmp <= |s|
      invariant ParseItems(s, start, []) == if tmp < |s| then ParseItems(s, tmp, items) else Bad
      decreases |s| - tmp
    {
      var at := RemoveLeadingSpaces(s, tmp + 1);
      if at == |s| {
        return Bad;
      }
      if s[at] == ']' {
        return Parsed(Array(items), at + 1);
      }
      var got := Malloc(memory);
      if !got {
        return Bad;
      }
      var child := ParseValueAt(s, at, memory);
      if !child.Parsed? {
        return child;
      }
      items := items + [child.v];
      tmp := RemoveLeadingSpaces(s, child.next);
      if tmp == |s| {
        return Bad;
      }
      if s[tmp] == ']' {
        return Parsed(Array(items), tmp + 1);
      }
      if s[tmp] != ',' {
        return Bad;
      }
      tmp := tmp + 1;
    }
    o := Bad;
  }

  method CheckInlineComment(s: string, start: nat) returns (ok: bool)
    requires start <= |s|
    ensures ok == InlineComment(s, start)
  {
    if start == |s| {
      return true;
    }
    var tmp := RemoveLeadingSpaces(s, start);
    if tmp == |s| {
      return true;
    }
    ok := s[tmp] == '#';
  }

  datatype Phase = ParseKey | ParseEqual | ParseTheValue

  method ParsePropertyLine(s: string, memory: bool) returns (p: Property)
    requires s != "" && NameChar(s[0])
    ensures p == ParseProperty(s) || (!memory && p == NoProperty)
  {
    var got := Malloc(memory);
    if !got {
      return NoProperty;
    }
    var key, tmp, phase := "", 1, ParseKey;
    while tmp < |s|
      invariant 1 <= tmp <= |s|
      invariant phase.ParseKey? ==> NameEnd(s, 1) == NameEnd(s, tmp) && NameChar(s[tmp - 1])
      invariant !phase.ParseKey? ==> AfterKey(s, key)
      invariant phase.ParseEqual? ==> Skip(s, |key|) == Skip(s, tmp) && |key| <= tmp
      invariant phase.ParseTheValue? ==> Skip(s, |key|) == tmp - 1 && s[tmp - 1] == '='
      decreases if phase.ParseKey? then 1 else 0, |s| - tmp
    {
      if phase.ParseKey? {
        if s[tmp] == ' ' || s[tmp] == '=' || s[tmp] == '\t' {
          var gotKey := Malloc(memory);
          if !gotKey {
            return NoProperty;
          }
          key := s[..tmp];
          tmp := tmp - 1;
          phase := ParseEqual;
        }
        if !NameChar(s[tmp]) {
          return NoProperty;
        }
      } else if phase.ParseEqual? {
        if s[tmp] == '=' {
          phase := ParseTheValue;
        } else if s[tmp] == ' ' || s[tmp] == '\t' {
        } else {
          return NoProperty;
        }
      } else {
        p := FinishProperty(s, key, tmp, memory);
        return;
      }
      tmp := tmp + 1;
    }
    p := NoProperty;
  }

  /** The third phase. */
  method FinishProperty(s: string, key: string, tmp: nat, memory: bool) returns (p: Property)
    requires AfterKey(s, key) && 0 < tmp < |s| && Skip(s, |key|) == tmp - 1 && s[tmp - 1] == '='
    ensures p == ParseProperty(s) || (!memory && p == NoProperty)
  {
    hide ParseValue, Skip, InlineComment;
    var o := ParseValueAt(s, tmp, memory);
    if !o.Parsed? {
      p := if o.Bad? then NoProperty else OutsideProperty;
      return;
    }
    var ended := CheckInlineComment(s, o.next);
    if !ended {
      return NoProperty;
    }
    p := Property(key, o.v);
  }

  /** The key has been read, and a blank or the equals sign follows it. */
  ghost predicate AfterKey(s: string, key: string) {
    0 < |key| < |s| && NameEnd(s, 1) == |key| && s[..|key|] == key && (Blank(s[|key|]) || s[|key|] == '=')
  }

  /** The loops of clog_config_parse that find the lines. */
  method SplitLines(s: string) returns (lines: seq<string>)
    ensures lines == Lines(s, 0)
  {
    var tmp := 0;
    lines := [];
    while tmp < |s|
      invariant tmp <= |s| && lines + Lines(s, tmp) == Lines(s, 0)
    {
      var start := tmp;
      while tmp < |s| && s[tmp] != '\n' && s[tmp] != '\r'
        invariant start <= tmp <= |s| && LineEnd(s, tmp) == LineEnd(s, start)
        invariant Unbroken(s, start, tmp)
      {
        tmp := tmp + 1;
      }
      if start != tmp {
        assert lines + Lines(s, start) == lines + [s[start..tmp]] + Lines(s, tmp);
        lines := lines + [s[start..tmp]];
      }
      while tmp < |s| && (s[tmp] == '\n' || s[tmp] == '\r')
        invariant start <= tmp <= |s| && lines + Lines(s, tmp) == Lines(s, 0)
        invariant start == tmp ==> Break(s[tmp])
      {
        tmp := tmp + 1;
      }
    }
  }

  // ----- The printer -----

  function Repeat(t: string, n: nat): string {
    if n == 0 then "" else Repeat(t, n - 1) + t
  }

  /** The indentation of a line, if there is room for it; an empty one is refused except at level 0. */
  function Indented(level: nat, indent: Option<string>, room: nat): Option<string> {
    if indent.None? || level == 0 then Some("")
    else if indent.value == "" || level * |indent.value| >= room then None
    else Some(Repeat(indent.value, level))
  }

  lemma {:induction false} RepeatLength(t: string, n: nat)
    ensures |Repeat(t, n)| == n * |t|
  {
    if n > 0 {
      RepeatLength(t, n - 1);
      assert n * |t| == (n - 1) * |t| + |t|;
    }
  }

  method SetIndent(buf: array<char>, base: nat, level: nat, indent: Option<string>) returns (offset: nat)
    requires base <= buf.Length
    modifies buf
    ensures buf[..base] == old(buf[..base])
    ensures match Indented(level, indent, buf.Length - base)
            case None => offset == 0 && level > 0 && indent.Some?
            case Some(t) => offset == |t| && base + offset <= buf.Length && buf[base..base + offset] == t
                            && (offset == 0 ==> level == 0 || indent.None?)
  {
    if indent.None? {
      return 0;
    }
    var t := indent.value;
    if |t| == 0 {
      return 0;
    }
    var num := level * |t|;
    RepeatLength(t, level);
    if num >= buf.Length - base {
      Positive(level, |t|);
      return 0;
    }
    offset := 0;
    var i := 0;
    while i < level
      invariant i <= level && offset == |Repeat(t, i)| && offset + |Repeat(t, level - i)| == num
      invariant buf[..base + offset] == old(buf[..base]) + Repeat(t, i)
    {
      CopyText(buf, base + offset, t);
      Regroup(old(buf[..base]), Repeat(t, i), t);
      i, offset := i + 1, offset + |t|;
    }
    Positive(level, |t|);
    After(buf, base, base + offset, old(buf[..base]), Repeat(t, level));
  }

  lemma After(buf: array<char>, a: nat, b: nat, first: string, second: string)
    requires a <= b <= buf.Length && |first| == a && buf[..b] == first + second
    ensures buf[..a] == first && buf[a..b] == second
  {
    assert buf[..a] == buf[..b][..a] && buf[a..b] == buf[..b][a..];
  }

  lemma Positive(a: nat, b: nat)
    ensures a * b > 0 <==> a > 0 && b > 0
  {}

  /** A scalar needs room for a terminator behind it, an array does not. */
  predicate Fits(v: Value, length: nat, room: nat) {
    if v.Array? then length <= room else length < room
  }

  method DumpItem(key: Option<string>, v: Value, buf: array<char>, base: nat, level: nat, indent: Option<string>)
      returns (count: nat)
    requires base <= buf.Length
    modifies buf
    ensures buf[..base] == old(buf[..base])
    ensures var ind := Indented(level, indent, buf.Length - base);
            if ind.Some? && Fits(v, |ind.value| + |DumpEntry(key, v)|, buf.Length - base)
            then count == |ind.value| + |DumpEntry(key, v)| > 0 && base + count <= buf.Length
                 && buf[base..base + count] == ind.value + DumpEntry(key, v)
            else count == 0
    decreases v, 3
  {
    hide Indented, Dump, DumpEntry, Repeat;
    var offset := SetIndent(buf, base, level, indent);
    if offset == 0 && level > 0 && indent.Some? {
      return 0;
    }
    ghost var ind := buf[base..base + offset];
    var end;
    if v.Array? {
      end := DumpArrayEntry(key, v.items, buf, base + offset, indent);
    } else {
      end := DumpScalar(key, v, buf, base + offset);
    }
    if end.None? {
      return 0;
    }
    EntryNotEmpty(key, v);
    Joint(buf, base, base + offset, end.value, ind);
    count := end.value - base;
  }

  lemma EntryNotEmpty(key: Option<string>, v: Value)
    ensures DumpEntry(key, v) != ""
  {
    DumpStart(v);
  }

  /** Two pieces of a buffer side by side. */
  lemma Joint(buf: array<char>, a: nat, b: nat, c: nat, first: string)
    requires a <= b <= c <= buf.Length && buf[..b][a..] == first
    ensures buf[a..c] == first + buf[b..c]
  {
    assert buf[a..b] == buf[..b][a..];
  }

  method DumpScalar(key: Option<string>, v: Value, buf: array<char>, at: nat) returns (end: Option<nat>)
    requires at <= buf.Length && !v.Array?
    modifies buf
    ensures buf[..at] == old(buf[..at])
    ensures var text := DumpEntry(key, v);
            if |text| < buf.Length - at then end == Some(at + |text|) && buf[at..at + |text|] == text else end.None?
  {
    var prefix := if key.Some? then key.value + " = " else "";
    var text := prefix + match v {
                           case UInt(n) => Decimal(n)
                           case Text(t) => "\"" + t + "\""
                           case Flag(b) => if b then "true" else "false"
                         };
    var len := SnPrintf(buf, at, buf.Length - at, text);
    if len >= buf.Length - at {
      return None;
    }
    After(buf, at, at + len, old(buf[..at]), text);
    end := Some(at + len);
  }

  method DumpArrayEntry(key: Option<string>, items: seq<Value>, buf: array<char>, at: nat, indent: Option<string>)
      returns (end: Option<nat>)
    requires at <= buf.Length
    modifies buf
    ensures buf[..at] == old(buf[..at])
    ensures var text := DumpEntry(key, Array(items));
            if |text| <= buf.Length - at then end == Some(at + |text|) && buf[at..at + |text|] == text else end.None?
    decreases items, 2
  {
    hide DumpEntry, Dump, DumpItems, ArrayRest;
    var prefix := (if key.Some? then key.value + " = " else "") + "[ ";
    EntryOfArray(key, items, prefix);
    var len := SnPrintf(buf, at, buf.Length - at, prefix);
    if at + len >= buf.Length {
      return None;
    }
    After(buf, at, at + len, old(buf[..at]), prefix);
    end := DumpChildren(items, buf, at + len, indent);
    if end.Some? { Joint(buf, at, at + len, end.value, prefix); }
  }

  lemma EntryOfArray(key: Option<string>, items: seq<Value>, prefix: string)
    requires prefix == (if key.Some? then key.value + " = " else "") + "[ "
    ensures DumpEntry(key, Array(items)) == prefix + ArrayRest(items) && ArrayRest(items) != ""
  {
    var k := if key.Some? then key.value + " = " else "";
    assert DumpEntry(key, Array(items)) == k + ("[ " + ArrayRest(items));
  }

  function ArrayRest(items: seq<Value>): string {
    if items == [] then "]" else DumpItems(items) + " ]"
  }

  /** What follows `[ `; the end of what has been written. */
  method DumpChildren(items: seq<Value>, buf: array<char>, at: nat, indent: Option<string>) returns (end: Option<nat>)
    requires at < buf.Length
    modifies buf
    ensures buf[..at] == old(buf[..at])
    ensures if at + |ArrayRest(items)| <= buf.Length
            then end == Some(at + |ArrayRest(items)|) && buf[at..at + |ArrayRest(items)|] == ArrayRest(items)
            else end.None?
    decreases items, 1
  {
    hide DumpItems, ArrayRest, FromItem, ChildText;
    RestOf(items);
    FromEnd(items);
    var offset := at;
    if items == [] {
      buf[offset] := ']';
      return Some(offset + 1);
    }
    var i := 0;
    while i < |items|
      invariant i <= |items| && at <= offset <= buf.Length && buf[..at] == old(buf[..at])
      invariant buf[at..offset] + FromItem(items, i) == ArrayRest(items)
    {
      ghost var before := buf[..offset][at..];
      FromNext(items, i);
      var next := DumpChild(items, i, buf, offset, indent);
      if next.None? {
        return None;
      }
      Joint(buf, at, offset, next.value, before);
      Regroup(before, ChildText(items, i), FromItem(items, i + 1));
      offset, i := next.value, i + 1;
    }
    ghost var done := buf[..offset][at..];
    end := PutPair(buf, offset, ' ', ']');
    if end.Some? { Joint(buf, at, offset, end.value, done); }
  }

  /** Two single characters, each with its check. */
  method PutPair(buf: array<char>, at: nat, a: char, b: char) returns (end: Option<nat>)
    requires at <= buf.Length
    modifies buf
    ensures buf[..at] == old(buf[..at])
    ensures if at + 2 <= buf.Length then end == Some(at + 2) && buf[at..at + 2] == [a, b] else end.None?
  {
    if at >= buf.Length {
      return None;
    }
    buf[at] := a;
    if at + 1 >= buf.Length {
      return None;
    }
    buf[at + 1] := b;
    end := Some(at + 2);
  }

  function ChildText(items: seq<Value>, i: nat): string
    requires i < |items|
  {
    Dump(items[i]) + if i + 1 < |items| then ", " else ""
  }

  /** The text from item i on. */
  function FromItem(items: seq<Value>, i: nat): string
    requires i <= |items|
  {
    if i < |items| then DumpItems(items[i..]) + " ]" else " ]"
  }

  lemma RestOf(items: seq<Value>)
    ensures items == [] ==> ArrayRest(items) == "]"
    ensures items != [] ==> ArrayRest(items) == FromItem(items, 0)
  {
    assert items[0..] == items;
  }

  lemma FromEnd(items: seq<Value>)
    ensures FromItem(items, |items|) == " ]"
  {}

  lemma FromNext(items: seq<Value>, i: nat)
    requires i < |items|
    ensures FromItem(items, i) == ChildText(items, i) + FromItem(items, i + 1) && |FromItem(items, i + 1)| >= 2
  {
    assert items[i..][1..] == items[i + 1..];
    DumpItemsStep(items[i..]);
  }

  /** One child, and the comma before the next. */
  method DumpChild(items: seq<Value>, i: nat, buf: array<char>, at: nat, indent: Option<string>) returns (end: Option<nat>)
    requires at <= buf.Length && i < |items|
    modifies buf
    ensures buf[..at] == old(buf[..at])
    ensures end.Some? ==> end.value == at + |ChildText(items, i)| <= buf.Length
                          && buf[at..end.value] == ChildText(items, i)
    ensures at + |ChildText(items, i)| < buf.Length ==> end.Some?
    decreases items, 0
  {
    var count := DumpItem(None, items[i], buf, at, 0, indent);
    assert DumpEntry(None, items[i]) == Dump(items[i]);
    hide Dump, DumpEntry;
    if count == 0 {
      return None;
    }
    var offset := at + count;
    if i + 1 < |items| {
      ghost var child := buf[..offset][at..];
      end := PutPair(buf, offset, ',', ' ');
      if end.Some? { Joint(buf, at, offset, end.value, child); }
      return;
    }
    end := Some(offset);
  }
}
