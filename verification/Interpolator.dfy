/** The format compiler and interpreter of source/utils/clog_interpolator.c: a format text becomes a linked
  * list of literals and handlers, and interpreting the list fills a buffer.
  *
  * A handler is what it answers for each room it is given: a text not longer than the room, whose length it
  * returns, or a refusal, which is the negative of an error code.  Without `memory` any allocation may be
  * refused.
  */
module Interpolator {
  import opened Common

  /** The numbers of clog_res_e. */
  type Code = nat

  const SUCCESS: Code := 0
  const FAIL: Code := 1
  const INVALID_PARAM: Code := 3
  const NO_MEMORY: Code := 5

  datatype Answer = Wrote(text: string) | Refused(code: Code)

  ghost predicate Obeys(h: nat -> Answer) {
    forall room :: if h(room).Wrote? then |h(room).text| <= room else h(room).code != SUCCESS
  }

  type Handler = h: nat -> Answer | Obeys(h) witness (room: nat) => Wrote("")

  type Handlers = map<string, Handler>

  datatype Piece = Literal(text: string) | Call(handler: Handler)

  // ----- Parsing, as a function -----

  predicate Brace(c: char) {
    c == '{' || c == '}'
  }

  /** The length of the name at the start of s and before a closing brace. */
  function NameLength(s: string): (n: Option<nat>)
    ensures n.Some? ==> n.value < |s| && s[n.value] == '}' && forall i :: 0 <= i < n.value ==> NameChar(s[i])
  {
    if s == "" then None
    else if s[0] == '}' then Some(0)
    else if !NameChar(s[0]) then None
    else match NameLength(s[1..])
      case None => None
      case Some(n) => Some(n + 1)
  }

  /** How far a literal reaches: up to an opening brace that is not escaped, or the end; none if it meets a
    * closing brace that is not escaped. */
  function LiteralLength(s: string, escaped: bool): (n: Option<nat>)
    ensures n.Some? ==> n.value <= |s| && (n.value < |s| ==> s[n.value] == '{')
    ensures n.Some? && s != "" && s[0] != '{' ==> n.value > 0
  {
    if s == "" then Some(0)
    else if s[0] == '{' && !escaped then Some(0)
    else if s[0] == '}' && !escaped then None
    else match LiteralLength(s[1..], s[0] == '\\')
      case None => None
      case Some(n) => Some(n + 1)
  }

  /** A backslash before a brace is dropped. */
  function Unescape(s: string): (t: string)
    ensures |t| <= |s| && (s != "" && s != "\\" ==> t != "")
  {
    if s == "" then ""
    else if s[0] == '\\' && |s| > 1 && Brace(s[1]) then Unescape(s[1..])
    else [s[0]] + Unescape(s[1..])
  }

  /** `complete` is false if a closing brace that was not escaped ended the parse, which still reports success. */
  datatype Parsed = Pieces(pieces: seq<Piece>, complete: bool) | Rejected(res: Code)

  function Cons(p: Piece, rest: Parsed): Parsed {
    if rest.Pieces? then Pieces([p] + rest.pieces, rest.complete) else rest
  }

  function Parse(handlers: Handlers, format: string): Parsed
    decreases |format|
  {
    if format == "" then Pieces([], true)
    else if format[0] == '{' then
      match NameLength(format[1..])
      case None => Rejected(INVALID_PARAM)
      case Some(n) =>
        if n == 0 then Rejected(INVALID_PARAM)
        else
          var name := format[1..n + 1];
          if name in handlers then Cons(Call(handlers[name]), Parse(handlers, format[n + 2..])) else Rejected(FAIL)
    else
      match LiteralLength(format, false)
      case None => Pieces([], false)
      case Some(n) => Cons(Literal(Unescape(format[..n])), Parse(handlers, format[n..]))
  }

  // ----- Interpreting the list and substituting in the text -----

  /** What the list prints into a buffer with this room, terminator included. */
  function Rendered(pieces: seq<Piece>, room: nat): Option<string>
    decreases |pieces|
  {
    if pieces == [] then if room > 0 then Some("") else None
    else match pieces[0]
      case Literal(text) => if |text| < room then Prepend(text, Rendered(pieces[1..], room - |text|)) else None
      case Call(h) => match h(room)
        case Refused(_) => None
        case Wrote(text) => Prepend(text, Rendered(pieces[1..], room - |text|))
  }

  function Prepend(text: string, rest: Option<string>): Option<string> {
    match rest
    case None => None
    case Some(s) => Some(text + s)
  }

  /** Reading the format from left to right, one character, escape or placeholder at a time. */
  function Direct(handlers: Handlers, format: string, room: nat): Option<string>
    decreases |format|
  {
    if format == "" then if room > 0 then Some("") else None
    else if format[0] == '{' then
      match NameLength(format[1..])
      case None => None
      case Some(n) =>
        var name := format[1..n + 1];
        if n == 0 || name !in handlers then None
        else match handlers[name](room)
          case Refused(_) => None
          case Wrote(text) => Prepend(text, Direct(handlers, format[n + 2..], room - |text|))
    else if format[0] == '}' || room == 0 then None
    else if format[0] == '\\' && |format| > 1 && Brace(format[1]) then
      Prepend([format[1]], Direct(handlers, format[2..], room - 1))
    else Prepend([format[0]], Direct(handlers, format[1..], room - 1))
  }

  lemma RenderedCons(p: Piece, rest: seq<Piece>, room: nat)
    ensures Rendered([p] + rest, room) ==
            if p.Literal? then if |p.text| < room then Prepend(p.text, Rendered(rest, room - |p.text|)) else None
            else if p.handler(room).Refused? then None
            else Prepend(p.handler(room).text, Rendered(rest, room - |p.handler(room).text|))
  {
    assert ([p] + rest)[1..] == rest;
  }

  lemma {:induction false} RenderedFits(pieces: seq<Piece>, room: nat)
    ensures Rendered(pieces, room).Some? ==> |Rendered(pieces, room).value| < room
    decreases |pieces|
  {
    if pieces != [] {
      match pieces[0]
      case Literal(text) => if |text| < room { RenderedFits(pieces[1..], room - |text|); }
      case Call(h) => if h(room).Wrote? { RenderedFits(pieces[1..], room - |h(room).text|); }
    }
  }

  /** With no room left nothing can follow. */
  lemma {:induction false} NoRoom(handlers: Handlers, format: string)
    ensures Direct(handlers, format, 0).None?
    decreases |format|
  {
    if format != "" && format[0] == '{' {
      var n := NameLength(format[1..]);
      if n.Some? { NoRoom(handlers, format[n.value + 2..]); }
    }
  }

  /** The first n characters of the format print this text. */
  ghost predicate ReadsAs(handlers: Handlers, format: string, n: nat, text: string, room: nat)
    requires n <= |format|
  {
    Direct(handlers, format, room) ==
    if |text| < room then Prepend(text, Direct(handlers, format[n..], room - |text|)) else None
  }

  /** A literal of n characters, read directly. */
  lemma {:induction false} DirectLiteral(handlers: Handlers, format: string, n: nat, room: nat)
    requires LiteralLength(format, false) == Some(n) && room > 0
    ensures ReadsAs(handlers, format, n, Unescape(format[..n]), room)
    decreases |format|
  {
    hide Direct, LiteralLength, Unescape;
    if n == 0 {
      UnescapeEnd();
      assert format[0..] == format && format[..0] == "";
      PrependEmpty(Direct(handlers, format, room));
    } else if format[0] == '\\' && |format| > 1 && Brace(format[1]) {
      EscapedPair(format, n);
      DirectPair(handlers, format, room);
      if room > 1 { DirectLiteral(handlers, format[2..], n - 2, room - 1); }
      AfterCharacter(handlers, format, 2, n, room, [format[1]]);
      UnescapePair(format, n);
    } else {
      NotEscaping(format, n);
      DirectOther(handlers, format, room);
      if room > 1 { DirectLiteral(handlers, format[1..], n - 1, room - 1); }
      AfterCharacter(handlers, format, 1, n, room, [format[0]]);
      UnescapeOther(format, n);
    }
  }

  lemma DirectPair(handlers: Handlers, format: string, room: nat)
    requires |format| > 1 && format[0] == '\\' && Brace(format[1]) && room > 0
    ensures Direct(handlers, format, room) == Prepend([format[1]], Direct(handlers, format[2..], room - 1))
  {}

  lemma DirectOther(handlers: Handlers, format: string, room: nat)
    requires format != "" && !Brace(format[0]) && !(format[0] == '\\' && |format| > 1 && Brace(format[1])) && room > 0
    ensures Direct(handlers, format, room) == Prepend([format[0]], Direct(handlers, format[1..], room - 1))
  {}

  /** The rest of a literal whose first k characters give one character. */
  lemma AfterCharacter(handlers: Handlers, format: string, k: nat, n: nat, room: nat, c: string)
    requires 0 < k <= n <= |format| && room > 0 && |c| == 1
    requires room > 1 ==> ReadsAs(handlers, format[k..], n - k, Unescape(format[k..][..n - k]), room - 1)
    requires Direct(handlers, format, room) == Prepend(c, Direct(handlers, format[k..], room - 1))
    ensures ReadsAs(handlers, format, n, c + Unescape(format[k..n]), room)
  {
    hide Direct, Unescape;
    var text := Unescape(format[k..n]);
    assert format[k..][..n - k] == format[k..n] && format[k..][n - k..] == format[n..];
    if room == 1 { NoRoom(handlers, format[k..]); }
    var tail := if 1 + |text| < room then Direct(handlers, format[n..], room - 1 - |text|) else None;
    PrependTwice(c, text, room, Direct(handlers, format, room), Direct(handlers, format[k..], room - 1), tail);
  }

  lemma UnescapePair(format: string, n: nat)
    requires 2 <= n <= |format| && format[0] == '\\' && Brace(format[1])
    ensures Unescape(format[..n]) == [format[1]] + Unescape(format[2..n])
  {
    assert format[..n][1..] == format[1..n] && format[1..n][1..] == format[2..n];
  }

  lemma UnescapeOther(format: string, n: nat)
    requires 1 <= n <= |format| && !(format[0] == '\\' && |format| > 1 && Brace(format[1]))
    ensures Unescape(format[..n]) == [format[0]] + Unescape(format[1..n])
  {
    assert format[..n][1..] == format[1..n];
  }

  lemma PrependEmpty(rest: Option<string>)
    ensures Prepend("", rest) == rest
  {
    if rest.Some? { assert "" + rest.value == rest.value; }
  }

  /** One character, then a text: d is the whole, d1 what is read after the character. */
  lemma PrependTwice(c: string, text: string, room: nat, d: Option<string>, d1: Option<string>, tail: Option<string>)
    requires |c| == 1 && room > 0 && d == Prepend(c, d1)
    requires d1 == if |text| < room - 1 then Prepend(text, tail) else None
    ensures d == if |c + text| < room then Prepend(c + text, tail) else None
  {
    if tail.Some? { assert c + (text + tail.value) == c + text + tail.value; }
  }

  lemma EscapedPair(format: string, n: nat)
    requires |format| > 1 && format[0] == '\\' && Brace(format[1]) && LiteralLength(format, false) == Some(n)
    ensures n >= 2 && LiteralLength(format[2..], false) == Some(n - 2)
  {
    assert LiteralLength(format[1..], true) == Some(n - 1);
    assert format[1..][1..] == format[2..];
  }

  /** Unless a brace follows, a backslash escapes nothing. */
  lemma NotEscaping(format: string, n: nat)
    requires 0 < n && LiteralLength(format, false) == Some(n)
    requires !(format[0] == '\\' && |format| > 1 && Brace(format[1]))
    ensures LiteralLength(format[1..], false) == Some(n - 1) && !Brace(format[0])
  {}

  /** Both readings of the rest of the format agree. */
  ghost predicate Agree(handlers: Handlers, format: string, room: nat) {
    var p := Parse(handlers, format);
    if p.Rejected? then Direct(handlers, format, room).None?
    else p.complete ==> Rendered(p.pieces, room) == Direct(handlers, format, room)
  }

  lemma ParseCall(handlers: Handlers, format: string, n: nat)
    requires format != "" && format[0] == '{' && NameLength(format[1..]) == Some(n)
    requires n > 0 && format[1..n + 1] in handlers
    ensures Parse(handlers, format) == Cons(Call(handlers[format[1..n + 1]]), Parse(handlers, format[n + 2..]))
  {}

  lemma DirectCall(handlers: Handlers, format: string, n: nat, room: nat)
    requires format != "" && format[0] == '{' && NameLength(format[1..]) == Some(n)
    requires n > 0 && format[1..n + 1] in handlers
    ensures var answer := handlers[format[1..n + 1]](room);
            Direct(handlers, format, room) ==
            if answer.Refused? then None else Prepend(answer.text, Direct(handlers, format[n + 2..], room - |answer.text|))
  {}

  lemma AgreeOnCall(handlers: Handlers, format: string, n: nat, room: nat)
    requires format != "" && format[0] == '{' && NameLength(format[1..]) == Some(n)
    requires n > 0 && format[1..n + 1] in handlers
    requires var answer := handlers[format[1..n + 1]](room);
             answer.Wrote? ==> Agree(handlers, format[n + 2..], room - |answer.text|)
    ensures Agree(handlers, format, room)
  {
    hide Agree, Parse, Direct, NameLength;
    ParseCall(handlers, format, n);
    DirectCall(handlers, format, n, room);
    AgreeBehindCall(handlers, format, handlers[format[1..n + 1]], format[n + 2..], room);
  }

  lemma AgreeBehindCall(handlers: Handlers, format: string, h: Handler, rest: string, room: nat)
    requires Parse(handlers, format) == Cons(Call(h), Parse(handlers, rest))
    requires Direct(handlers, format, room) ==
             if h(room).Refused? then None else Prepend(h(room).text, Direct(handlers, rest, room - |h(room).text|))
    requires h(room).Wrote? ==> Agree(handlers, rest, room - |h(room).text|)
    ensures Agree(handlers, format, room)
  {
    hide Parse, Direct, Rendered;
    var p := Parse(handlers, rest);
    if p.Pieces? { RenderedCons(Call(h), p.pieces, room); }
  }

  lemma ParseLiteral(handlers: Handlers, format: string, n: nat)
    requires format != "" && format[0] != '{' && LiteralLength(format, false) == Some(n)
    ensures Parse(handlers, format) == Cons(Literal(Unescape(format[..n])), Parse(handlers, format[n..]))
  {}

  lemma AgreeOnLiteral(handlers: Handlers, format: string, n: nat, text: string, room: nat)
    requires format != "" && format[0] != '{' && LiteralLength(format, false) == Some(n) && text == Unescape(format[..n])
    requires |text| < room ==> Agree(handlers, format[n..], room - |text|)
    ensures Agree(handlers, format, room)
  {
    ParseLiteral(handlers, format, n);
    if room > 0 { DirectLiteral(handlers, format, n, room); } else { NoRoomForLiteral(handlers, format); }
    assert ReadsAs(handlers, format, n, text, room);
    AgreeBehind(handlers, format, n, text, room);
  }

  lemma AgreeBehind(handlers: Handlers, format: string, n: nat, text: string, room: nat)
    requires n <= |format| && ReadsAs(handlers, format, n, text, room)
    requires Parse(handlers, format) == Cons(Literal(text), Parse(handlers, format[n..]))
    requires |text| < room ==> Agree(handlers, format[n..], room - |text|)
    ensures Agree(handlers, format, room)
  {
    hide Direct, Parse, Rendered;
    var rest := Parse(handlers, format[n..]);
    if rest.Pieces? { RenderedCons(Literal(text), rest.pieces, room); }
  }

  lemma NoRoomForLiteral(handlers: Handlers, format: string)
    requires format != "" && format[0] != '{'
    ensures Direct(handlers, format, 0).None?
  {}

  /** The cases that end the parse. */
  lemma AgreeAtOnce(handlers: Handlers, format: string, room: nat)
    requires format != "" && format[0] == '{' ==>
               var n := NameLength(format[1..]); n.None? || n.value == 0 || format[1..n.value + 1] !in handlers
    requires format != "" && format[0] != '{' ==> LiteralLength(format, false).None?
    ensures Agree(handlers, format, room)
  {}

  lemma {:induction false} ReadingsAgree(handlers: Handlers, format: string, room: nat)
    ensures Agree(handlers, format, room)
    decreases |format|
  {
    hide Agree, LiteralLength, NameLength, Unescape;
    if format != "" && format[0] == '{' {
      var n := NameLength(format[1..]);
      if n.Some? && n.value > 0 && format[1..n.value + 1] in handlers {
        var answer := handlers[format[1..n.value + 1]](room);
        if answer.Wrote? { ReadingsAgree(handlers, format[n.value + 2..], room - |answer.text|); }
        AgreeOnCall(handlers, format, n.value, room);
      } else {
        AgreeAtOnce(handlers, format, room);
      }
    } else if format != "" && LiteralLength(format, false).Some? {
      var n := LiteralLength(format, false).value;
      var text := Unescape(format[..n]);
      if |text| < room { ReadingsAgree(handlers, format[n..], room - |text|); }
      AgreeOnLiteral(handlers, format, n, text, room);
    } else {
      AgreeAtOnce(handlers, format, room);
    }
  }

  /** The compiled form means what the text means: interpreting the parsed list gives, in every room, what
    * direct substitution gives, and a format that is rejected cannot be substituted either. */
  lemma CompiledMeansDirect(handlers: Handlers, format: string, room: nat)
    ensures var p := Parse(handlers, format);
            if p.Rejected? then Direct(handlers, format, room).None?
            else p.complete ==> Rendered(p.pieces, room) == Direct(handlers, format, room)
  {
    ReadingsAgree(handlers, format, room);
  }

  // ----- Where the interpreter leaves it: a handler that writes nothing -----

  datatype Outcome = Outcome(code: Code, text: string, num: Option<nat>)

  function Behind(text: string, o: Outcome): Outcome {
    if o.num.Some? then Outcome(o.code, text + o.text, Some(|text| + o.num.value)) else o
  }

  /** What interpreting a list comes to: the code returned, the text in the buffer and the count.  A length of
    * zero is taken for a refusal, and its negative for the code. */
  function Interpret(pieces: seq<Piece>, room: nat): Outcome
    decreases |pieces|
  {
    if pieces == [] then if room > 0 then Outcome(SUCCESS, "", Some(0)) else Outcome(NO_MEMORY, "", None)
    else match pieces[0]
      case Literal(text) =>
        if |text| < room then Behind(text, Interpret(pieces[1..], room - |text|)) else Outcome(FAIL, "", None)
      case Call(h) => match h(room)
        case Refused(code) => Outcome(code, "", None)
        case Wrote(text) =>
          if text == "" then Outcome(SUCCESS, "", None) else Behind(text, Interpret(pieces[1..], room - |text|))
  }

  /** Some handler that is reached writes nothing. */
  predicate Silenced(pieces: seq<Piece>, room: nat)
    decreases |pieces|
  {
    pieces != [] && match pieces[0]
                    case Literal(text) => |text| < room && Silenced(pieces[1..], room - |text|)
                    case Call(h) => h(room).Wrote? && (h(room).text == "" || Silenced(pieces[1..], room - |h(room).text|))
  }

  lemma {:induction false} InterpretExactly(pieces: seq<Piece>, room: nat)
    ensures var o := Interpret(pieces, room);
            && (o.num.Some? <==> Rendered(pieces, room).Some? && !Silenced(pieces, room))
            && (o.num.Some? ==> o.code == SUCCESS && Rendered(pieces, room) == Some(o.text) && o.num == Some(|o.text|))
            && (o.num.None? ==> o.text == "" && (o.code == SUCCESS <==> Silenced(pieces, room)))
    decreases |pieces|
  {
    if pieces != [] {
      match pieces[0]
      case Literal(text) => if |text| < room { InterpretExactly(pieces[1..], room - |text|); }
      case Call(h) => if h(room).Wrote? { InterpretExactly(pieces[1..], room - |h(room).text|); }
    }
  }

  /** Formatting gives the text of direct substitution and its length exactly when there is such a text and no
    * handler that is reached writes nothing; otherwise the text is empty and there is no length, but the code
    * is still that of success if a handler has written nothing. */
  lemma FormattingExactly(handlers: Handlers, format: string, room: nat)
    requires Parse(handlers, format).Pieces? && Parse(handlers, format).complete
    ensures var pieces, direct := Parse(handlers, format).pieces, Direct(handlers, format, room);
            var o := Interpret(pieces, room);
            && (direct.Some? && o == Outcome(SUCCESS, direct.value, Some(|direct.value|)) <==>
                direct.Some? && !Silenced(pieces, room))
            && (o.num.None? <==> direct.None? || Silenced(pieces, room))
            && (o.num.None? ==> o.text == "" && (o.code == SUCCESS <==> Silenced(pieces, room)))
  {
    CompiledMeansDirect(handlers, format, room);
    InterpretExactly(Parse(handlers, format).pieces, room);
  }

  const SILENT: Handler := (room: nat) => Wrote("")

  lemma LoneLetter(handlers: Handlers, c: char, room: nat)
    requires !Brace(c) && c != '\\' && room >= 2
    ensures Parse(handlers, [c]) == Pieces([Literal([c])], true) && Direct(handlers, [c], room) == Some([c])
  {
    assert [c][1..] == "" && [c][..1] == [c];
    assert LiteralLength([c], false) == Some(1) by { assert LiteralLength("", false) == Some(0); }
    assert Unescape([c]) == [c] by { assert Unescape("") == ""; }
    ParseLiteral(handlers, [c], 1);
    DirectOther(handlers, [c], room);
  }

  lemma SilentCall(handlers: Handlers, room: nat)
    requires handlers == map["x" := SILENT] && room >= 2
    ensures Parse(handlers, "{x}b") == Pieces([Call(SILENT), Literal("b")], true)
    ensures Direct(handlers, "{x}b", room) == Some("b")
  {
    LoneLetter(handlers, 'b', room);
    assert "{x}b"[1..] == "x}b" && "x}b"[1..] == "}b" && "{x}b"[3..] == "b" && "{x}b"[1..2] == "x";
    assert NameLength("x}b") == Some(1) by { assert NameLength("}b") == Some(0); }
    hide NameLength, Parse, Direct;
    ParseCall(handlers, "{x}b", 1);
    DirectCall(handlers, "{x}b", 1, room);
    PrependEmpty(Direct(handlers, "b", room));
    assert [Call(SILENT)] + [Literal("b")] == [Call(SILENT), Literal("b")];
  }

  lemma SilentInterpret(room: nat)
    requires room >= 3
    ensures Interpret([Literal("a"), Call(SILENT), Literal("b")], room) == Outcome(SUCCESS, "", None)
  {
    assert [Literal("a"), Call(SILENT), Literal("b")][1..] == [Call(SILENT), Literal("b")];
    assert Interpret([Call(SILENT), Literal("b")], room - 1) == Outcome(SUCCESS, "", None);
  }

  /** `a{x}b`, with an x that writes nothing, stands for `ab`; formatting it reports success, an empty text and no
    * length. */
  lemma EmptyAnswerLosesTheText(room: nat)
    requires room >= 3
    ensures var handlers := map["x" := SILENT];
            && Parse(handlers, "a{x}b") == Pieces([Literal("a"), Call(SILENT), Literal("b")], true)
            && Direct(handlers, "a{x}b", room) == Some("ab")
            && Interpret([Literal("a"), Call(SILENT), Literal("b")], room) == Outcome(SUCCESS, "", None)
  {
    var handlers := map["x" := SILENT];
    SilentInterpret(room);
    SilentCall(handlers, room - 1);
    StartsWithLetter();
    assert "a{x}b"[1..] == "{x}b" && "a{x}b"[..1] == "a" && "a" + "b" == "ab";
    assert [Literal("a")] + [Call(SILENT), Literal("b")] == [Literal("a"), Call(SILENT), Literal("b")];
    hide LiteralLength, Unescape, Parse, Direct, Interpret;
    ParseLiteral(handlers, "a{x}b", 1);
    DirectOther(handlers, "a{x}b", room);
  }

  lemma StartsWithLetter()
    ensures LiteralLength("a{x}b", false) == Some(1) && Unescape("a") == "a"
  {
    assert "a{x}b"[1..] == "{x}b" && "a"[1..] == "";
    assert LiteralLength("{x}b", false) == Some(0) && Unescape("") == "";
  }

  // ----- Printing a list and parsing it back -----

  datatype Item = Text(text: string) | Name(name: string)

  /** Every brace with a backslash before it. */
  function Escape(t: string): (s: string)
    ensures s != "" ==> !Brace(s[0])
    ensures |t| <= |s|
  {
    if t == "" then ""
    else if Brace(t[0]) then ['\\', t[0]] + Escape(t[1..])
    else [t[0]] + Escape(t[1..])
  }

  function Print(items: seq<Item>): string {
    if items == [] then ""
    else
      var here := match items[0]
                  case Text(t) => Escape(t)
                  case Name(n) => "{" + n + "}";
      here + Print(items[1..])
  }

  /** Texts are not empty and not adjacent; names are registered and made of name characters. */
  predicate Printable(handlers: Handlers, items: seq<Item>) {
    && (forall i :: 0 <= i < |items| && items[i].Text? ==> items[i].text != "")
    && (forall i :: 0 <= i < |items| && items[i].Name? ==>
          items[i].name != "" && items[i].name in handlers && forall c :: c in items[i].name ==> NameChar(c))
    && (forall i :: 0 < i < |items| && items[i].Text? ==> items[i - 1].Name?)
  }

  function Resolved(handlers: Handlers, items: seq<Item>): seq<Piece>
    requires Printable(handlers, items)
  {
    seq(|items|, i requires 0 <= i < |items| =>
      match items[i]
      case Text(t) => Literal(t)
      case Name(n) => Call(handlers[n]))
  }

  predicate EndsInBackslash(t: string) {
    t != "" && t[|t| - 1] == '\\'
  }

  /** No text before a placeholder ends in a backslash. */
  predicate NothingEscapesAPlaceholder(items: seq<Item>) {
    forall i :: 0 <= i < |items| - 1 && items[i].Text? ==> !EndsInBackslash(items[i].text)
  }

  lemma {:induction false} UnescapeEscaped(t: string)
    ensures Unescape(Escape(t)) == t
  {
    if t != "" {
      var s, rest := Escape(t), Escape(t[1..]);
      UnescapeEscaped(t[1..]);
      if Brace(t[0]) {
        assert s[1..] == [t[0]] + rest && s[1..][1..] == rest;
      } else {
        assert s[1..] == rest;
      }
    }
  }

  function Plus(n: Option<nat>, k: nat): Option<nat> {
    match n
    case None => None
    case Some(v) => Some(v + k)
  }

  lemma PairLength(c: char, rest: string, escaped: bool)
    requires Brace(c)
    ensures LiteralLength(['\\', c] + rest, escaped) == Plus(LiteralLength(rest, false), 2)
  {
    var s := ['\\', c] + rest;
    assert s[1..] == [c] + rest && s[1..][1..] == rest;
    assert LiteralLength(s[1..], true) == Plus(LiteralLength(rest, false), 1);
  }

  lemma CharLength(c: char, rest: string, escaped: bool)
    requires !Brace(c)
    ensures LiteralLength([c] + rest, escaped) == Plus(LiteralLength(rest, c == '\\'), 1)
  {
    assert ([c] + rest)[1..] == rest;
  }

  /** One character less of a printed text. */
  lemma EscapedStep(t: string, tail: string, escaped: bool)
    requires t != ""
    ensures LiteralLength(Escape(t) + tail, escaped) ==
            Plus(LiteralLength(Escape(t[1..]) + tail, t[0] == '\\'), if Brace(t[0]) then 2 else 1)
    ensures |t| > 1 ==> (EndsInBackslash(t) <==> EndsInBackslash(t[1..]))
  {
    var less := Escape(t[1..]) + tail;
    if Brace(t[0]) {
      assert Escape(t) + tail == ['\\', t[0]] + less;
      PairLength(t[0], less, escaped);
    } else {
      assert Escape(t) + tail == [t[0]] + less;
      CharLength(t[0], less, escaped);
    }
  }

  /** A printed literal reaches exactly to the end or to the placeholder behind it ... */
  lemma {:induction false} EscapedLength(t: string, rest: string, escaped: bool)
    requires rest == "" || (rest[0] == '{' && !EndsInBackslash(t) && (t == "" ==> !escaped))
    ensures LiteralLength(Escape(t) + rest, escaped) == Some(|Escape(t)|)
  {
    if t == "" {
      assert Escape(t) + rest == rest;
    } else {
      EscapedStep(t, rest, escaped);
      EscapedLength(t[1..], rest, t[0] == '\\');
    }
  }

  /** ... but a last backslash takes the placeholder in, and its closing brace ends the parse. */
  lemma {:induction false} EscapedPlaceholder(t: string, name: string, rest: string, escaped: bool)
    requires (t == "" && escaped) || EndsInBackslash(t)
    requires name != "" && forall c :: c in name ==> NameChar(c)
    ensures LiteralLength(Escape(t) + ("{" + name + "}" + rest), escaped).None?
  {
    var tail := "{" + name + "}" + rest;
    if t == "" {
      assert Escape(t) + tail == tail && tail[1..] == name + "}" + rest;
      UnmatchedBrace(name, rest, false);
    } else {
      EscapedStep(t, tail, escaped);
      EscapedPlaceholder(t[1..], name, rest, t[0] == '\\');
    }
  }

  lemma {:induction false} UnmatchedBrace(name: string, rest: string, escaped: bool)
    requires (forall c :: c in name ==> NameChar(c)) && (name == "" ==> !escaped)
    ensures LiteralLength(name + "}" + rest, escaped).None?
  {
    var s := name + "}" + rest;
    if name != "" {
      assert s[1..] == name[1..] + "}" + rest;
      assert name[0] in name;
      UnmatchedBrace(name[1..], rest, false);
    }
  }

  lemma {:induction false} PrintedName(name: string, rest: string)
    requires forall c :: c in name ==> NameChar(c)
    ensures NameLength(name + "}" + rest) == Some(|name|)
  {
    var s := name + "}" + rest;
    if name != "" {
      assert s[1..] == name[1..] + "}" + rest;
      assert name[0] in name;
      PrintedName(name[1..], rest);
    }
  }

  lemma {:induction false} NameThere(s: string, n: nat)
    requires NameLength(s) == Some(n)
    ensures n < |s| && (forall c :: c in s[..n] ==> NameChar(c)) && s == s[..n] + "}" + s[n + 1..]
    decreases |s|
  {
    if n > 0 {
      NameThere(s[1..], n - 1);
      assert s[..n] == [s[0]] + s[1..][..n - 1];
    }
  }

  /** A format that opens a placeholder: with a registered name in the braces it is a call of its handler,
    * with another name the answer is FAIL; without a name, with other characters before the closing brace or
    * without one it is INVALID_PARAM. */
  lemma PlaceholderExactly(handlers: Handlers, format: string, name: string, rest: string)
    requires format != "" && format[0] == '{'
    ensures (forall c :: c in name ==> NameChar(c)) && format == "{" + name + "}" + rest ==>
              Parse(handlers, format) ==
              if name == "" then Rejected(INVALID_PARAM)
              else if name in handlers then Cons(Call(handlers[name]), Parse(handlers, rest))
              else Rejected(FAIL)
    ensures Parse(handlers, format) == Rejected(INVALID_PARAM)
            || exists n | 2 <= n < |format| :: format[n] == '}' && forall c :: c in format[1..n] ==> NameChar(c)
  {
    if (forall c :: c in name ==> NameChar(c)) && format == "{" + name + "}" + rest {
      assert format[1..] == name + "}" + rest;
      PrintedName(name, rest);
      assert format[1..|name| + 1] == name && format[|name| + 2..] == rest;
    }
    var found := NameLength(format[1..]);
    if found.Some? && found.value > 0 {
      var n := found.value;
      NameThere(format[1..], n);
      assert format[1..][..n] == format[1..n + 1] && format[n + 1] == '}';
    }
  }

  lemma PrintableTail(handlers: Handlers, items: seq<Item>)
    requires Printable(handlers, items) && items != []
    ensures Printable(handlers, items[1..])
    ensures Resolved(handlers, items)[1..] == Resolved(handlers, items[1..])
    ensures Print(items[1..]) != "" && items[0].Text? ==> Print(items[1..])[0] == '{'
    ensures NothingEscapesAPlaceholder(items) <==>
            NothingEscapesAPlaceholder(items[1..]) && (items[0].Text? && |items| > 1 ==> !EndsInBackslash(items[0].text))
  {
    var rest := items[1..];
    assert forall i :: 0 <= i < |rest| ==> rest[i] == items[i + 1];
    assert forall i :: 0 < i < |items| ==> items[i] == rest[i - 1];
  }

  lemma ParsePrintedName(handlers: Handlers, items: seq<Item>)
    requires Printable(handlers, items) && items != [] && items[0].Name?
    ensures Parse(handlers, Print(items)) == Cons(Call(handlers[items[0].name]), Parse(handlers, Print(items[1..])))
  {
    var name, rest := items[0].name, Print(items[1..]);
    var s := Print(items);
    assert s == "{" + name + "}" + rest && s[1..] == name + "}" + rest;
    PrintedName(name, rest);
    assert s[1..|name| + 1] == name && s[|name| + 2..] == rest;
  }

  lemma ParsePrintedText(handlers: Handlers, items: seq<Item>)
    requires Printable(handlers, items) && items != [] && items[0].Text?
    ensures Parse(handlers, Print(items)) ==
            if |items| > 1 && EndsInBackslash(items[0].text) then Pieces([], false)
            else Cons(Literal(items[0].text), Parse(handlers, Print(items[1..])))
  {
    var t, rest, s := items[0].text, Print(items[1..]), Print(items);
    PrintableTail(handlers, items);
    assert s != "" && s[0] != '{' && s == Escape(t) + rest;
    if |items| > 1 && EndsInBackslash(t) {
      var name, tail := items[1].name, Print(items[1..][1..]);
      assert rest == "{" + name + "}" + tail;
      EscapedPlaceholder(t, name, tail, false);
    } else {
      assert |items| == 1 ==> rest == "";
      EscapedLength(t, rest, false);
      UnescapeEscaped(t);
      var n := |Escape(t)|;
      assert s[..n] == Escape(t) && s[n..] == rest;
      ParseLiteral(handlers, s, n);
    }
  }

  /** A printed list parses to itself if and only if no text before a placeholder ends in a backslash. */
  lemma {:induction false} FormatRoundTrip(handlers: Handlers, items: seq<Item>)
    requires Printable(handlers, items)
    ensures Parse(handlers, Print(items)) == Pieces(Resolved(handlers, items), true) <==> NothingEscapesAPlaceholder(items)
    decreases |items|
  {
    if items != [] {
      PrintableTail(handlers, items);
      FormatRoundTrip(handlers, items[1..]);
      RoundTripStep(handlers, items);
    }
  }

  lemma RoundTripStep(handlers: Handlers, items: seq<Item>)
    requires Printable(handlers, items) && items != [] && Printable(handlers, items[1..])
    requires Parse(handlers, Print(items[1..])) == Pieces(Resolved(handlers, items[1..]), true) <==>
             NothingEscapesAPlaceholder(items[1..])
    ensures Parse(handlers, Print(items)) == Pieces(Resolved(handlers, items), true) <==> NothingEscapesAPlaceholder(items)
  {
    if items[0].Name? { ParsePrintedName(handlers, items); } else { ParsePrintedText(handlers, items); }
    PrintableTail(handlers, items);
    var all, rest := Resolved(handlers, items), Resolved(handlers, items[1..]);
    hide Parse, Print, NothingEscapesAPlaceholder, EndsInBackslash;
    assert all == [all[0]] + rest;
    var p := Parse(handlers, Print(items[1..]));
    if p.Pieces? && [all[0]] + p.pieces == all { assert p.pieces == all[1..]; }
  }

  // ----- The compiled list -----

  class Node {
    const shouldHandle: bool
    const text: string
    const handler: Handler
    var next: Node?

    constructor Pure(text: string)
      ensures PieceOf(this) == Literal(text) && next == null
    {
      shouldHandle, this.text, handler, next := false, text, SILENT, null;
    }

    constructor Handle(handler: Handler)
      ensures PieceOf(this) == Call(handler) && next == null
    {
      shouldHandle, text, this.handler, next := true, "", handler, null;
    }
  }

  ghost function PieceOf(n: Node): Piece {
    if n.shouldHandle then Call(n.handler) else Literal(n.text)
  }

  ghost predicate NodeOk(nodes: seq<Node>, pieces: seq<Piece>, i: nat)
    requires i < |nodes| == |pieces|
    reads nodes
  {
    && PieceOf(nodes[i]) == pieces[i]
    && nodes[i].next == (if i + 1 < |nodes| then nodes[i + 1] else null)
  }

  /** `head` starts a list of exactly these nodes, which hold these pieces. */
  ghost predicate Compiled(head: Node?, nodes: seq<Node>, pieces: seq<Piece>)
    reads nodes
  {
    && |nodes| == |pieces|
    && head == (if nodes == [] then null else nodes[0])
    && forall i :: 0 <= i < |nodes| ==> NodeOk(nodes, pieces, i)
  }

  lemma CompiledCons(n: Node, nodes: seq<Node>, pieces: seq<Piece>)
    requires Compiled(n.next, nodes, pieces)
    ensures Compiled(n, [n] + nodes, [PieceOf(n)] + pieces)
  {
    forall i | 0 <= i < |[n] + nodes| ensures NodeOk([n] + nodes, [PieceOf(n)] + pieces, i) {
      if i > 0 { assert NodeOk(nodes, pieces, i - 1); }
    }
  }

  /** The index of the last character of the name in the braces that the format starts with. */
  method ParsePlaceholderName(format: string) returns (end: Option<nat>)
    requires format != "" && format[0] == '{'
    ensures end == match NameLength(format[1..])
                   case None => None
                   case Some(n) => if n == 0 then None else Some(n)
  {
    var tmp := 1;
    if CharAt(format, tmp) == '}' {
      return None;
    }
    while tmp < |format|
      invariant 1 <= tmp <= |format| && (tmp == 1 ==> CharAt(format, 1) != '}')
      invariant NameLength(format[1..]) == Plus(NameLength(format[tmp..]), tmp - 1)
    {
      if format[tmp] == '}' {
        return Some(tmp - 1);
      }
      if !NameChar(format[tmp]) {
        return None;
      }
      assert format[tmp..][1..] == format[tmp + 1..];
      tmp := tmp + 1;
    }
    end := None;
  }

  lemma LongerLiteral(format: string, i: nat, escaped: bool)
    requires i < |format| && (escaped || !Brace(format[i]))
    ensures Plus(LiteralLength(format[i..], escaped), i) == Plus(LiteralLength(format[i + 1..], format[i] == '\\'), i + 1)
  {
    assert format[i..][1..] == format[i + 1..];
  }

  /** The first loop over a literal. */
  method ScanLiteral(format: string) returns (tmp: nat, stray: bool)
    ensures LiteralLength(format, false) == if stray then None else Some(tmp)
    ensures !stray ==> tmp <= |format| && (0 < tmp < |format| ==> format[tmp - 1] != '\\')
  {
    tmp, stray := 0, false;
    var isEscape := false;
    assert format[0..] == format;
    while tmp < |format|
      invariant tmp <= |format| && isEscape == (tmp > 0 && format[tmp - 1] == '\\')
      invariant LiteralLength(format, false) == Plus(LiteralLength(format[tmp..], isEscape), tmp)
    {
      if format[tmp] == '{' && !isEscape {
        return;
      }
      if format[tmp] == '}' && !isEscape {
        return tmp, true;
      }
      LongerLiteral(format, tmp, isEscape);
      isEscape := format[tmp] == '\\';
      tmp := tmp + 1;
    }
  }

  /** The second loop: copies the literal without the backslashes that escape. */
  method CopyLiteral(format: string, n: nat) returns (name: string)
    requires 0 < n <= |format| && (n < |format| ==> format[n - 1] != '\\')
    ensures name == Unescape(format[..n])
  {
    hide Unescape;
    var buffer := new char[n + 1];
    var ptr, start := 0, 0;
    assert format[0..n] == format[..n];
    while start < n
      invariant ptr <= start <= n
      invariant buffer[..ptr] + Unescape(format[start..n]) == Unescape(format[..n])
      decreases n - start
    {
      UnescapeAt(format, start, n);
      if format[start] == '\\' && Brace(CharAt(format, start + 1)) {
        start := start + 1;
        continue;
      }
      Regroup(buffer[..ptr], [format[start]], Unescape(format[start + 1..n]));
      PutChar(buffer, ptr, format[start]);
      ptr, start := ptr + 1, start + 1;
    }
    UnescapeEnd();
    assert format[start..n] == "" && buffer[..ptr] + "" == buffer[..ptr];
    name := buffer[..ptr];
  }

  lemma UnescapeEnd()
    ensures Unescape("") == ""
  {}

  lemma UnescapeAt(format: string, start: nat, n: nat)
    requires start < n <= |format|
    ensures Unescape(format[start..n]) ==
            if format[start] == '\\' && start + 1 < n && Brace(format[start + 1]) then Unescape(format[start + 1..n])
            else [format[start]] + Unescape(format[start + 1..n])
  {
    assert format[start..n][1..] == format[start + 1..n];
  }

  lemma CompiledNothing()
    ensures Compiled(null, [], [])
  {}

  /** clog_interpolator_parse_format, the nodes of the rest being linked behind `root`. */
  method ParseFormat(handlers: Handlers, format: string, root: Node, memory: bool)
      returns (res: Code, ghost nodes: seq<Node>)
    modifies root
    ensures forall n :: n in nodes ==> fresh(n)
    ensures || (!memory && (res == NO_MEMORY || res == FAIL))
            || var p := Parse(handlers, format);
               if p.Rejected? then res == p.res
               else res == SUCCESS && if p.pieces == [] then nodes == [] && root.next == old(root.next)
                                      else Compiled(root.next, nodes, p.pieces)
    decreases |format|
  {
    hide NameLength, LiteralLength, Unescape, Compiled;
    nodes := [];
    if format == "" {
      return SUCCESS, [];
    }
    var interpolator: Node;
    var next: string;
    if format[0] == '{' {
      var end := ParsePlaceholderName(format);
      if end.None? {
        return INVALID_PARAM, [];
      }
      var got := Malloc(memory);
      if !got {
        return NO_MEMORY, [];
      }
      var name := format[1..end.value + 1];
      if name !in handlers {
        return FAIL, [];
      }
      ParseCall(handlers, format, end.value);
      interpolator := new Node.Handle(handlers[name]);
      next := format[end.value + 2..];
    } else {
      var tmp, stray := ScanLiteral(format);
      if stray {
        return SUCCESS, [];
      }
      ParseLiteral(handlers, format, tmp);
      var got := Malloc(memory);
      if !got {
        return NO_MEMORY, [];
      }
      var name := CopyLiteral(format, tmp);
      interpolator := new Node.Pure(name);
      next := format[tmp..];
    }
    var gotNode := Malloc(memory);
    if !gotNode {
      return FAIL, [];
    }
    ghost var piece := PieceOf(interpolator);
    assert Parse(handlers, format) == Cons(piece, Parse(handlers, next));
    root.next := interpolator;
    ghost var rest;
    res, rest := ParseFormat(handlers, next, interpolator, memory);
    nodes := [interpolator] + rest;
    if res == SUCCESS && Parse(handlers, next).Pieces? {
      if rest == [] { CompiledNothing(); }
      CompiledCons(interpolator, rest, Parse(handlers, next).pieces);
    }
  }

  /** A call of a handler: the length it has written, or minus an error code. */
  method CallHandler(h: Handler, buf: array<char>, offset: nat) returns (len: int)
    requires offset <= buf.Length
    modifies buf
    ensures match h(buf.Length - offset)
            case Wrote(text) => len == |text| && offset + len <= buf.Length && buf[..offset + len] == old(buf[..offset]) + text
            case Refused(code) => len == 0 - code && buf[..offset] == old(buf[..offset])
  {
    match h(buf.Length - offset)
    case Refused(code) => len := 0 - code;
    case Wrote(text) =>
      CopyText(buf, offset, text);
      len := |text|;
  }

  ghost predicate LiteralsOk(pieces: seq<Piece>) {
    forall p :: p in pieces && p.Literal? ==> p.text != ""
  }

  /** No literal of a parsed list is empty, as interpolate asserts. */
  lemma {:induction false} ParsedLiterals(handlers: Handlers, format: string)
    ensures Parse(handlers, format).Pieces? ==> LiteralsOk(Parse(handlers, format).pieces)
    decreases |format|
  {
    if format != "" && format[0] == '{' {
      var n := NameLength(format[1..]);
      if n.Some? { ParsedLiterals(handlers, format[n.value + 2..]); }
    } else if format != "" && LiteralLength(format, false).Some? {
      var n := LiteralLength(format, false).value;
      ParsedLiterals(handlers, format[n..]);
      LiteralKeepsSomething(format, n);
    }
  }

  lemma LiteralKeepsSomething(format: string, n: nat)
    requires 0 < n <= |format|
    ensures Unescape(format[..n]) != ""
  {
    if format[..n] == "\\" { assert Unescape("\\") == "\\" + Unescape(""); }
  }

  /** clog_interpolator_interpolate, buf.Length being its size. */
  method Interpolate(first: Node?, buf: array<char>, ghost nodes: seq<Node>, ghost pieces: seq<Piece>)
      returns (res: Code, num: Option<nat>)
    requires Compiled(first, nodes, pieces) && LiteralsOk(pieces)
    modifies buf
    ensures buf.Length <= 1 ==> res == INVALID_PARAM && num.None? && buf[..] == old(buf[..])
    ensures buf.Length > 1 ==>
              var o := Interpret(pieces, buf.Length);
              && res == o.code && num == o.num && |o.text| < buf.Length && buf[..|o.text|] == o.text && buf[|o.text|] == '\0'
              && (num.Some? ==> num.value == |o.text|)
  {
    hide Interpret, Compiled, LiteralsOk;
    num := None;
    if buf.Length <= 1 {
      return INVALID_PARAM, None;
    }
    var tmp, offset: nat := first, 0;
    ghost var k := 0;
    assert pieces[0..] == pieces;
    ghost var all := Interpret(pieces, buf.Length);
    BehindNothing(all);
    FirstNode(first, nodes, pieces);
    while tmp != null
      invariant k <= |pieces| && tmp == (if k < |nodes| then nodes[k] else null) && offset <= buf.Length
      invariant all == Behind(buf[..offset], Interpret(pieces[k..], buf.Length - offset))
      decreases |nodes| - k
    {
      NodeAt(first, nodes, pieces, k);
      assert pieces[k..] == [pieces[k]] + pieces[k + 1..];
      InterpretCons(pieces[k], pieces[k + 1..], buf.Length - offset);
      ghost var before := buf[..offset];
      if !tmp.shouldHandle {
        var copied := StrCpy(buf, offset, buf.Length - offset, tmp.text);
        if !copied {
          buf[0] := '\0';
          return FAIL, None;
        }
        BehindBoth(before, tmp.text, Interpret(pieces[k + 1..], buf.Length - offset - |tmp.text|));
        offset := offset + |tmp.text|;
      } else {
        var len := CallHandler(tmp.handler, buf, offset);
        if len <= 0 {
          buf[0] := '\0';
          return -len, None;
        }
        ghost var text := tmp.handler(buf.Length - offset).text;
        BehindBoth(before, text, Interpret(pieces[k + 1..], buf.Length - offset - len));
        offset := offset + len;
      }
      tmp, k := tmp.next, k + 1;
    }
    assert pieces[k..] == [];
    InterpretNothing(buf.Length - offset);
    if offset >= buf.Length {
      buf[0] := '\0';
      return NO_MEMORY, None;
    }
    assert buf[..offset] + "" == buf[..offset];
    buf[offset] := '\0';
    res, num := SUCCESS, Some(offset);
  }

  lemma InterpretNothing(room: nat)
    ensures Interpret([], room) == if room > 0 then Outcome(SUCCESS, "", Some(0)) else Outcome(NO_MEMORY, "", None)
  {}

  lemma InterpretCons(p: Piece, rest: seq<Piece>, room: nat)
    ensures Interpret([p] + rest, room) ==
            if p.Literal? then
              if |p.text| < room then Behind(p.text, Interpret(rest, room - |p.text|)) else Outcome(FAIL, "", None)
            else if p.handler(room).Refused? then Outcome(p.handler(room).code, "", None)
            else if p.handler(room).text == "" then Outcome(SUCCESS, "", None)
            else Behind(p.handler(room).text, Interpret(rest, room - |p.handler(room).text|))
  {
    assert ([p] + rest)[1..] == rest;
  }

  lemma BehindNothing(o: Outcome)
    ensures Behind("", o) == o
  {
    assert "" + o.text == o.text;
  }

  lemma BehindBoth(a: string, b: string, o: Outcome)
    ensures Behind(a, Behind(b, o)) == Behind(a + b, o)
  {
    assert a + (b + o.text) == a + b + o.text;
  }

  lemma FirstNode(first: Node?, nodes: seq<Node>, pieces: seq<Piece>)
    requires Compiled(first, nodes, pieces)
    ensures |nodes| == |pieces| && first == if nodes == [] then null else nodes[0]
  {}

  lemma NodeAt(first: Node?, nodes: seq<Node>, pieces: seq<Piece>, k: nat)
    requires Compiled(first, nodes, pieces) && LiteralsOk(pieces) && k < |nodes|
    ensures |nodes| == |pieces| && PieceOf(nodes[k]) == pieces[k] && (pieces[k].Literal? ==> pieces[k].text != "")
    ensures nodes[k].next == if k + 1 < |nodes| then nodes[k + 1] else null
  {
    assert NodeOk(nodes, pieces, k) && pieces[k] in pieces;
  }
}
