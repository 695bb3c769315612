/** Small vocabulary shared by the other modules. */
module Common {
  datatype Option<+T> = None | Some(value: T)

  function Head<T>(s: seq<T>): Option<T> {
    if s == [] then None else Some(s[0])
  }

  ghost predicate Distinct<T>(s: seq<T>) {
    forall i, j :: 0 <= i < j < |s| ==> s[i] != s[j]
  }

  ghost function Elements<T>(s: seq<T>): set<T> {
    set x | x in s
  }

  /** An allocation: with `memory` it succeeds, without it may be refused. */
  method Malloc(memory: bool) returns (got: bool)
    ensures memory ==> got
  {
    got := *;
    got := got || memory;
  }

  // ----- Text in buffers -----

  predicate NameChar(c: char) {
    c == '_' || '0' <= c <= '9' || 'a' <= c <= 'z' || 'A' <= c <= 'Z'
  }

  const DIGITS := "0123456789"
  const SMALL_LETTERS := "abcdefghijklmnopqrstuvwxyz"
  const CAPITALS := "ABCDEFGHIJKLMNOPQRSTUVWXYZ"

  /** The characters of names, one by one. */
  lemma NameCharExactly(c: char)
    ensures NameChar(c) <==> c == '_' || c in DIGITS || c in SMALL_LETTERS || c in CAPITALS
  {
    RunOfChars(DIGITS, '0', '9', c);
    RunOfChars(SMALL_LETTERS, 'a', 'z', c);
    RunOfChars(CAPITALS, 'A', 'Z', c);
  }

  lemma RunOfChars(t: string, first: char, last: char, c: char)
    requires first <= last && |t| == last as int - first as int + 1
    requires forall k :: 0 <= k < |t| ==> t[k] as int == first as int + k
    ensures c in t <==> first <= c <= last
  {
    if first <= c <= last { assert t[c as int - first as int] == c; }
  }

  /** The character a C string has at i. */
  function CharAt(s: string, i: nat): char {
    if i < |s| then s[i] else '\0'
  }

  lemma Regroup(a: string, b: string, c: string)
    ensures a + (b + c) == a + b + c
  {}

  method PutChar(buf: array<char>, at: nat, c: char)
    requires at < buf.Length
    modifies buf
    ensures buf[..at + 1] == old(buf[..at]) + [c]
  {
    buf[at] := c;
  }

  method CopyText(buf: array<char>, at: nat, text: string)
    requires at + |text| <= buf.Length
    modifies buf
    ensures buf[..at + |text|] == old(buf[..at]) + text
  {
    var i := 0;
    while i < |text|
      invariant i <= |text| && buf[..at + i] == old(buf[..at]) + text[..i]
    {
      PutChar(buf, at + i, text[i]);
      Regroup(old(buf[..at]), text[..i], [text[i]]);
      assert text[..i + 1] == text[..i] + [text[i]];
      i := i + 1;
    }
    assert text[..i] == text;
  }

  /** snprintf of a text into the size bytes at offset: writes what fits and, if there is any room, a
    * terminator, and answers the full length. */
  method SnPrintf(buf: array<char>, offset: nat, size: nat, text: string) returns (len: nat)
    requires offset + size <= buf.Length
    modifies buf
    ensures len == |text| && buf[..offset] == old(buf[..offset])
    ensures |text| < size ==> buf[..offset + |text|] == old(buf[..offset]) + text && buf[offset + |text|] == '\0'
  {
    ghost var before := buf[..offset];
    if size > 0 {
      var part := if |text| < size then text else text[..size - 1];
      CopyText(buf, offset, part);
      assert buf[..offset] == buf[..offset + |part|][..offset];
      buf[offset + |part|] := '\0';
    }
    len := |text|;
  }

  /** clog_strcpy: succeeds with a text that is not empty and fits, or with nothing into nothing. */
  method StrCpy(buf: array<char>, offset: nat, size: nat, src: string) returns (ok: bool)
    requires offset + size <= buf.Length
    modifies buf
    ensures ok == ((size == 0 && src == "") || 0 < |src| < size)
    ensures if ok then buf[..offset + |src|] == old(buf[..offset]) + src else buf[..offset] == old(buf[..offset])
  {
    if size == 0 && src == "" {
      return true;
    }
    var len := SnPrintf(buf, offset, size, src);
    ok := 0 < len < size;
  }
}
