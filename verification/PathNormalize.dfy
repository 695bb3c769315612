/** Path normalization of source/utils/clog_file_system.c on POSIX: a scan that pushes and pops the
  * components on a doubly linked stack, and a second loop that writes them to the caller's buffer.
  * A C string is a Dafny string; the current directory is a parameter; without `memory` any
  * allocation may be refused.
  */
module PathNormalize {
  import opened Common

  datatype Result = Success | Fail | InvalidParam | NoMemory | ErrorFormat

  // ----- What normalizing means -----

  function FirstSlash(s: string): (i: nat)
    ensures i <= |s| && '/' !in s[..i] && (i < |s| ==> s[i] == '/')
  {
    if s == "" || s[0] == '/' then 0
    else
      var i := 1 + FirstSlash(s[1..]);
      assert s[..i] == [s[0]] + s[1..][..i - 1];
      i
  }

  /** The texts between slashes. */
  function Split(s: string): seq<string>
    decreases |s|
  {
    var i := FirstSlash(s);
    if i == |s| then [s] else [s[..i]] + Split(s[i + 1..])
  }

  /** One component on top of a stack of names; none if it leads above the root. */
  function Step(stack: seq<string>, c: string): Option<seq<string>> {
    if c == "" || c == "." then Some(stack)
    else if c == ".." then if stack == [] then None else Some(stack[..|stack| - 1])
    else Some(stack + [c])
  }

  function Fold(stack: seq<string>, cs: seq<string>): Option<seq<string>>
    decreases |cs|
  {
    if cs == [] then Some(stack)
    else match Step(stack, cs[0])
      case None => None
      case Some(next) => Fold(next, cs[1..])
  }

  function Joined(names: seq<string>): string {
    if names == [] then "" else if |names| == 1 then names[0] else names[0] + "/" + Joined(names[1..])
  }

  function Printed(names: seq<string>): string {
    "/" + Joined(names)
  }

  /** The names that an absolute path stands for. */
  function Normal(path: string): Option<seq<string>>
    requires path != "" && path[0] == '/'
  {
    Fold([], Split(path[1..]))
  }

  ghost predicate CleanName(c: string) {
    c != "" && c != "." && c != ".." && '/' !in c
  }

  ghost predicate Clean(names: seq<string>) {
    forall c :: c in names ==> CleanName(c)
  }

  lemma {:induction false} SplitHasNoSlash(s: string)
    ensures forall c :: c in Split(s) ==> '/' !in c
    decreases |s|
  {
    var i := FirstSlash(s);
    if i < |s| { SplitHasNoSlash(s[i + 1..]); }
  }

  lemma {:induction false} FoldIsClean(stack: seq<string>, cs: seq<string>)
    requires Clean(stack) && forall c :: c in cs ==> '/' !in c
    ensures Fold(stack, cs).Some? ==> Clean(Fold(stack, cs).value)
    decreases |cs|
  {
    if cs != [] && Step(stack, cs[0]).Some? {
      FoldIsClean(Step(stack, cs[0]).value, cs[1..]);
    }
  }

  /** No component of a result is empty, `.` or `..`. */
  lemma NormalIsClean(path: string)
    requires path != "" && path[0] == '/'
    ensures Normal(path).Some? ==> Clean(Normal(path).value)
  {
    SplitHasNoSlash(path[1..]);
    FoldIsClean([], Split(path[1..]));
  }

  lemma SplitAt(s: string, i: nat)
    requires i <= |s| && '/' !in s[..i]
    ensures i == |s| ==> Split(s) == [s]
    ensures i < |s| && s[i] == '/' ==> Split(s) == [s[..i]] + Split(s[i + 1..])
  {
    if i == |s| || s[i] == '/' { FirstSlashAt(s, i); }
    hide FirstSlash;
  }

  lemma FirstSlashAt(s: string, i: nat)
    requires i <= |s| && '/' !in s[..i] && (i < |s| ==> s[i] == '/')
    ensures FirstSlash(s) == i
  {
    var j := FirstSlash(s);
    assert forall k :: 0 <= k < i ==> s[k] == s[..i][k];
    assert forall k :: 0 <= k < j ==> s[k] == s[..j][k];
  }

  lemma SplitCons(c: string, rest: string)
    requires '/' !in c
    ensures Split(c) == [c] && Split(c + "/" + rest) == [c] + Split(rest)
  {
    var s := c + "/" + rest;
    assert c[..|c|] == c && s[..|c|] == c && s[|c| + 1..] == rest;
    SplitAt(c, |c|);
    SplitAt(s, |c|);
  }

  lemma {:induction false} SplitJoined(names: seq<string>)
    requires Clean(names) && names != []
    ensures Split(Joined(names)) == names
  {
    hide Split;
    assert CleanName(names[0]) && names == [names[0]] + names[1..];
    var rest := Joined(names[1..]);
    SplitCons(names[0], rest);
    if |names| > 1 {
      SplitJoined(names[1..]);
      assert Joined(names) == names[0] + "/" + rest;
    }
  }

  lemma {:induction false} FoldClean(stack: seq<string>, names: seq<string>)
    requires Clean(names)
    ensures Fold(stack, names) == Some(stack + names)
    decreases |names|
  {
    if names != [] {
      assert CleanName(names[0]);
      FoldClean(stack + [names[0]], names[1..]);
      assert stack + [names[0]] + names[1..] == stack + names;
    } else {
      assert stack + names == stack;
    }
  }

  /** Reading a printed clean stack gives it back ... */
  lemma NormalOfPrinted(names: seq<string>)
    requires Clean(names)
    ensures Normal(Printed(names)) == Some(names)
  {
    assert Printed(names)[1..] == Joined(names);
    if names == [] {
      SplitAt("", 0);
      assert Fold([], [""]) == Fold([], [""][1..]);
    } else {
      SplitJoined(names);
      FoldClean([], names);
      assert [] + names == names;
    }
  }

  /** ... so normalizing twice is normalizing once. */
  lemma NormalizeIsIdempotent(path: string)
    requires path != "" && path[0] == '/' && Normal(path).Some?
    ensures var once := Printed(Normal(path).value); once[0] == '/' && Normal(once) == Normal(path)
  {
    NormalIsClean(path);
    NormalOfPrinted(Normal(path).value);
  }

  /** Names pushed less names popped. */
  function Balance(cs: seq<string>): int {
    if cs == [] then 0
    else
      var c := cs[|cs| - 1];
      Balance(cs[..|cs| - 1]) + if c == "" || c == "." then 0 else if c == ".." then -1 else 1
  }

  ghost predicate Sinks(cs: seq<string>, depth: nat) {
    exists k :: 0 <= k <= |cs| && depth + Balance(cs[..k]) < 0
  }

  lemma {:induction false} BalanceCons(c: string, cs: seq<string>)
    ensures Balance([c] + cs) == Balance([c]) + Balance(cs)
    decreases |cs|
  {
    if cs == [] {
      assert [c] + cs == [c];
    } else {
      var all := [c] + cs;
      assert all[..|all| - 1] == [c] + cs[..|cs| - 1];
      BalanceCons(c, cs[..|cs| - 1]);
    }
  }

  lemma {:induction false} FoldBalance(stack: seq<string>, cs: seq<string>)
    ensures Fold(stack, cs).None? <==> Sinks(cs, |stack|)
    ensures Fold(stack, cs).Some? ==> |Fold(stack, cs).value| == |stack| + Balance(cs)
    decreases |cs|
  {
    if cs == [] {
      assert cs[..0] == [];
    } else {
      var c, rest := cs[0], cs[1..];
      assert cs == [c] + rest && Balance([]) == 0 && [c][..0] == [];
      BalanceCons(c, rest);
      match Step(stack, c)
      case None =>
        assert cs[..1] == [c] && |stack| + Balance(cs[..1]) < 0;
      case Some(next) =>
        FoldBalance(next, rest);
        assert |next| == |stack| + Balance([c]);
        SinksCons(c, rest, |stack|, |next|);
    }
  }

  lemma SinksCons(c: string, rest: seq<string>, depth: nat, next: nat)
    requires next == depth + Balance([c])
    ensures Sinks([c] + rest, depth) <==> Sinks(rest, next)
  {
    var cs := [c] + rest;
    if Sinks(cs, depth) {
      var k :| 0 <= k <= |cs| && depth + Balance(cs[..k]) < 0;
      assert k != 0;
      assert cs[..k] == [c] + rest[..k - 1];
      BalanceCons(c, rest[..k - 1]);
      assert next + Balance(rest[..k - 1]) < 0;
    }
    if Sinks(rest, next) {
      var k :| 0 <= k <= |rest| && next + Balance(rest[..k]) < 0;
      assert cs[..k + 1] == [c] + rest[..k];
      BalanceCons(c, rest[..k]);
      assert depth + Balance(cs[..k + 1]) < 0;
    }
  }

  /** A path has no normal form exactly when, read from the left, it somewhere leads above the root. */
  lemma FailsAboveRoot(path: string)
    requires path != "" && path[0] == '/'
    ensures Normal(path).None? <==> Sinks(Split(path[1..]), 0)
  {
    FoldBalance([], Split(path[1..]));
  }

  // ----- Paths that mean the same -----

  lemma {:induction false} FoldConcat(stack: seq<string>, cs: seq<string>, ds: seq<string>)
    ensures Fold(stack, cs + ds) ==
            match Fold(stack, cs)
            case None => None
            case Some(next) => Fold(next, ds)
    decreases |cs|
  {
    if cs == [] {
      assert cs + ds == ds;
    } else {
      assert (cs + ds)[1..] == cs[1..] + ds;
      if Step(stack, cs[0]).Some? { FoldConcat(Step(stack, cs[0]).value, cs[1..], ds); }
    }
  }

  /** Going into a directory and up again leaves the stack as it was; so do `.` and the empty component. */
  lemma {:induction false} FoldDetour(stack: seq<string>, c: string, cs: seq<string>)
    ensures CleanName(c) ==> Fold(stack, [c, ".."] + cs) == Fold(stack, cs)
    ensures Fold(stack, ["."] + cs) == Fold(stack, cs) && Fold(stack, [""] + cs) == Fold(stack, cs)
  {
    assert (["."] + cs)[1..] == cs && ([""] + cs)[1..] == cs;
    if CleanName(c) {
      var up := [".."] + cs;
      assert [c, ".."] + cs == [c] + up && ([c] + up)[1..] == up && up[1..] == cs;
      assert Step(stack + [c], "..") == Some(stack) by { assert (stack + [c])[..|stack|] == stack; }
      assert Fold(stack + [c], up) == Fold(stack, cs);
    }
  }

  lemma {:induction false} SplitConcat(a: string, b: string)
    ensures Split(a + "/" + b) == Split(a) + Split(b)
    decreases |a|
  {
    hide Split;
    var i := FirstSlash(a);
    if i == |a| {
      assert a[..i] == a;
      SplitCons(a, b);
    } else {
      var head, tail := a[..i], a[i + 1..];
      assert a == head + "/" + tail;
      SplitCons(head, tail);
      SplitCons(head, tail + "/" + b);
      Inside(head + "/", tail, "/", b);
      SplitConcat(tail, b);
      Inside([head], Split(tail), Split(b), []);
    }
  }

  lemma Inside<T>(a: seq<T>, b: seq<T>, c: seq<T>, d: seq<T>)
    ensures a + b + c + d == a + (b + c + d) && a + b + c == a + (b + c)
  {}

  /** What an absolute path means, told by its part up to a slash and the part behind it. */
  lemma NormalAtSlash(before: string, after: string)
    requires before != "" && before[0] == '/'
    ensures Normal(before + "/" + after) ==
            match Normal(before)
            case None => None
            case Some(names) => Fold(names, Split(after))
  {
    assert (before + "/" + after)[1..] == before[1..] + "/" + after;
    SplitConcat(before[1..], after);
    FoldConcat([], Split(before[1..]), Split(after));
  }

  /** Behind any slash of an absolute path a detour into a directory, a `.` or another slash changes
    * nothing ... */
  lemma DetourChangesNothing(before: string, c: string, after: string)
    requires before == "" || before[0] == '/'
    ensures CleanName(c) ==> Meaning(before, c + "/../" + after) == Meaning(before, after)
    ensures Meaning(before, "./" + after) == Meaning(before, after)
    ensures Meaning(before, "/" + after) == Meaning(before, after)
  {
    hide Split, Fold, CleanName;
    SplitCons(".", after);
    SplitCons("", after);
    assert "./" + after == "." + "/" + after && "/" + after == "" + "/" + after;
    Behind(before, after);
    Behind(before, "./" + after);
    Behind(before, "/" + after);
    var names := if before == "" then Some([]) else Normal(before);
    if names.Some? { FoldDetour(names.value, c, Split(after)); }
    if CleanName(c) {
      DetourSplits(c, after);
      Behind(before, c + "/../" + after);
    }
  }

  /** What an absolute path stands for that is cut at one of its slashes. */
  function Meaning(before: string, after: string): Option<seq<string>>
    requires before == "" || before[0] == '/'
  {
    Normal(before + "/" + after)
  }

  lemma Behind(before: string, after: string)
    requires before == "" || before[0] == '/'
    ensures Meaning(before, after) ==
            match (if before == "" then Some([]) else Normal(before))
            case None => None
            case Some(names) => Fold(names, Split(after))
  {
    if before == "" {
      assert (before + "/" + after)[1..] == after;
    } else {
      NormalAtSlash(before, after);
    }
  }

  lemma DetourSplits(c: string, after: string)
    requires CleanName(c)
    ensures Split(c + "/../" + after) == [c, ".."] + Split(after)
  {
    var up := "../" + after;
    assert up == ".." + "/" + after;
    assert c + "/../" + after == c + "/" + up;
    hide Split;
    SplitCons(c, up);
    SplitCons("..", after);
    Inside([c], [".."], Split(after), []);
  }

  /** ... nor does a slash at its end; a name at its end is pushed, and `..` takes the last name away. */
  lemma LastComponent(path: string, c: string)
    requires path != "" && path[0] == '/'
    ensures Normal(path + "/") == Normal(path)
    ensures Normal(path).None? ==> Normal(path + "/" + c).None? && Normal(path + "/..").None?
    ensures Normal(path).Some? && CleanName(c) ==> Normal(path + "/" + c) == Some(Normal(path).value + [c])
    ensures Normal(path) == Some([]) ==> Normal(path + "/..").None?
    ensures forall names, last | Normal(path) == Some(names + [last]) :: Normal(path + "/..") == Some(names)
  {
    NormalAtSlash(path, "");
    NormalAtSlash(path, c);
    NormalAtSlash(path, "..");
    SplitAt("", 0);
    SplitAt("..", 2);
    assert path + "/" == path + "/" + "" && path + "/.." == path + "/" + "..";
    if Normal(path).Some? {
      var names := Normal(path).value;
      FoldDetour(names, c, []);
      assert [""] + [] == [""] && Fold(names, []) == Some(names);
      assert [".."][1..] == [];
      if CleanName(c) {
        SplitAt(c, |c|);
        FoldClean(names, [c]);
      }
    }
    forall names, last | Normal(path) == Some(names + [last]) ensures Normal(path + "/..") == Some(names) {
      assert (names + [last])[..|names|] == names;
    }
  }

  /** The printed path is its names, each behind one slash; without names it is the slash alone. */
  lemma PrintedSplits(names: seq<string>)
    requires Clean(names)
    ensures names == [] ==> Printed(names) == "/"
    ensures names != [] ==> Split(Printed(names)) == [""] + names
  {
    if names != [] {
      SplitJoined(names);
      SplitCons("", Joined(names));
      assert Printed(names) == "" + "/" + Joined(names);
    }
  }

  // ----- The stack of path nodes -----

  class PathNode {
    const name: string
    var prev: PathNode?
    var next: PathNode?

    constructor (name: string, prev: PathNode?)
      ensures this.name == name && this.prev == prev && next == null
    {
      this.name, this.prev, next := name, prev, null;
    }
  }

  ghost predicate LinksOk(nodes: seq<PathNode>, i: nat)
    requires i < |nodes|
    reads nodes
  {
    && nodes[i].prev == (if i == 0 then null else nodes[i - 1])
    && nodes[i].next == (if i + 1 < |nodes| then nodes[i + 1] else null)
  }

  /** The nodes from the head, which has no name, to the current one. */
  ghost predicate Chain(nodes: seq<PathNode>)
    reads nodes
  {
    && nodes != []
    && (forall i :: 0 <= i < |nodes| ==> LinksOk(nodes, i))
    && (forall i, j :: 0 <= i < j < |nodes| ==> nodes[i] != nodes[j])
  }

  ghost function Names(nodes: seq<PathNode>): (names: seq<string>)
    ensures |names| == |nodes| && forall i :: 0 <= i < |nodes| ==> names[i] == nodes[i].name
  {
    seq(|nodes|, i requires 0 <= i < |nodes| => nodes[i].name)
  }

  ghost function Stack(nodes: seq<PathNode>): seq<string>
    requires nodes != []
  {
    Names(nodes)[1..]
  }

  method Pop(node: PathNode, ghost nodes: seq<PathNode>) returns (prev: PathNode, ghost nodes': seq<PathNode>)
    requires Chain(nodes) && |nodes| > 1 && node == nodes[|nodes| - 1]
    modifies nodes
    ensures nodes' == nodes[..|nodes| - 1] && Chain(nodes') && prev == nodes'[|nodes'| - 1]
  {
    assert LinksOk(nodes, |nodes| - 1);
    prev := node.prev;
    nodes' := nodes[..|nodes| - 1];
    prev.next := null;
    forall i | 0 <= i < |nodes'| ensures LinksOk(nodes', i) { assert old(LinksOk(nodes, i)); }
  }

  method Push(node: PathNode, name: string, ghost nodes: seq<PathNode>)
      returns (tmp: PathNode, ghost nodes': seq<PathNode>)
    requires Chain(nodes) && node == nodes[|nodes| - 1]
    modifies nodes
    ensures fresh(tmp) && tmp.name == name && nodes' == nodes + [tmp] && Chain(nodes')
  {
    tmp := new PathNode(name, node);
    nodes' := nodes + [tmp];
    node.next := tmp;
    forall i | 0 <= i < |nodes'| ensures LinksOk(nodes', i) {
      if i < |nodes| { assert old(LinksOk(nodes, i)); }
    }
  }

  /** clog_create_path_node: takes the component between two slashes. */
  method CreatePathNode(node: PathNode, path: string, last: nat, cur: nat, ghost nodes: seq<PathNode>,
                        memory: bool)
      returns (res: Result, node': PathNode, ghost nodes': seq<PathNode>)
    requires Chain(nodes) && node == nodes[|nodes| - 1] && last < cur <= |path|
    modifies nodes
    ensures Chain(nodes') && node' == nodes'[|nodes'| - 1] && nodes'[0] == nodes[0]
    ensures forall i :: 0 <= i < |nodes'| ==> (i < |nodes| && nodes'[i] == nodes[i]) || fresh(nodes'[i])
    ensures match Step(Stack(nodes), path[last + 1..cur])
            case None => res == ErrorFormat && nodes' == nodes
            case Some(stack) =>
              (res == Success && Stack(nodes') == stack) || (!memory && res == NoMemory && nodes' == nodes)
  {
    ghost var c := path[last + 1..cur];
    node', nodes' := node, nodes;
    if last + 1 == cur {
      return Success, node, nodes;
    }
    if path[last + 1] == '.' {
      if last + 2 == cur {
        assert c == ".";
        return Success, node, nodes;
      }
      if CharAt(path, last + 2) == '.' && last + 3 == cur {
        assert c == "..";
        assert LinksOk(nodes, |nodes| - 1);
        if node.prev == null {
          return ErrorFormat, node, nodes;
        }
        node', nodes' := Pop(node, nodes);
        assert Stack(nodes') == Stack(nodes)[..|nodes| - 2];
        return Success, node', nodes';
      }
    }
    assert c != "" && c != "." && c != "..";
    var gotNode := Malloc(memory);
    if !gotNode {
      return NoMemory, node, nodes;
    }
    var gotName := Malloc(memory);
    if !gotName {
      return NoMemory, node, nodes;
    }
    node', nodes' := Push(node, path[last + 1..cur], nodes);
    assert Stack(nodes') == Stack(nodes) + [c];
    res := Success;
  }

  // ----- Normalizing -----

  datatype Start = Abs(path: string) | NoAbs(res: Result)

  /** The absolute path to normalize: relative paths are taken from the current directory; the empty path
    * cannot be copied behind it. */
  function Absolute(path: string, cwd: Option<string>): (a: Start)
    ensures a.Abs? ==> a.path != "" && a.path[0] == '/'
  {
    if path != "" && path[0] == '/' then Abs(path)
    else match cwd
      case None => NoAbs(Fail)
      case Some(dir) =>
        if path == "" || dir == "" then NoAbs(Fail)
        else if dir[0] != '/' then NoAbs(InvalidParam)
        else Abs(dir + "/" + path)
  }

  /** clog_get_unnormalized_abs_path; `cwd` is what getcwd gives. */
  method GetUnnormalizedAbsPath(path: string, cwd: Option<string>, memory: bool) returns (res: Result, abs: string)
    ensures || (!memory && res == NoMemory)
            || match Absolute(path, cwd)
               case Abs(p) => res == Success && abs == p
               case NoAbs(error) => res == error
  {
    if CharAt(path, 0) != '/' {
      if cwd.None? {
        return Fail, "";
      }
      var got := Malloc(memory);
      if !got {
        return NoMemory, "";
      }
      if cwd.value == "" || path == "" {
        return Fail, "";
      }
      abs := cwd.value + "/" + path;
    } else {
      var got := Malloc(memory);
      if !got {
        return NoMemory, "";
      }
      abs := path;
    }
    if abs[0] != '/' {
      return InvalidParam, "";
    }
    res := Success;
  }

  /** The scan: pushes and pops the components of an absolute path. */
  method Scan(path: string, head: PathNode, memory: bool) returns (res: Result, ghost nodes: seq<PathNode>)
    requires path != "" && path[0] == '/' && head.prev == null && head.next == null
    modifies head
    ensures Chain(nodes) && nodes[0] == head
    ensures || (!memory && res == NoMemory)
            || match Normal(path)
               case None => res == ErrorFormat
               case Some(names) => res == Success && Stack(nodes) == names
  {
    hide Fold, Split, Normal, Names;
    var last, cur := 0, 1;
    var node := head;
    nodes := [head];
    assert LinksOk(nodes, 0);
    Starts(path, head);
    while cur < |path|
      invariant last < cur <= |path| && '/' !in path[last + 1..cur]
      invariant Chain(nodes) && nodes[0] == head && node == nodes[|nodes| - 1]
      invariant forall i :: 0 <= i < |nodes| ==> nodes[i] == head || fresh(nodes[i])
      invariant Fold(Stack(nodes), Split(path[last + 1..])) == Normal(path)
      decreases |path| - cur
    {
      if path[cur] != '/' {
        assert path[last + 1..cur + 1] == path[last + 1..cur] + [path[cur]];
        cur := cur + 1;
      } else {
        Component(Stack(nodes), path, last, cur);
        res, node, nodes := CreatePathNode(node, path, last, cur, nodes, memory);
        if res != Success {
          return;
        }
        last, cur := cur, cur + 1;
      }
    }
    Component(Stack(nodes), path, last, cur);
    if cur != last + 1 {
      res, node, nodes := CreatePathNode(node, path, last, cur, nodes, memory);
      return;
    }
    assert path[last + 1..cur] == "";
    res := Success;
  }

  lemma Starts(path: string, head: PathNode)
    requires path != "" && path[0] == '/'
    ensures '/' !in path[1..1] && Fold(Stack([head]), Split(path[0 + 1..])) == Normal(path)
  {
    assert Stack([head]) == [];
  }

  lemma Component(stack: seq<string>, path: string, last: nat, cur: nat)
    requires last < cur <= |path| && '/' !in path[last + 1..cur] && (cur < |path| ==> path[cur] == '/')
    ensures Fold(stack, Split(path[last + 1..])) ==
            match Step(stack, path[last + 1..cur])
            case None => None
            case Some(next) => if cur == |path| then Some(next) else Fold(next, Split(path[cur + 1..]))
  {
    var rest := path[last + 1..];
    var n := cur - last - 1;
    assert rest[..n] == path[last + 1..cur];
    SplitAt(rest, n);
    if cur < |path| { assert rest[n + 1..] == path[cur + 1..]; }
    var cs := Split(rest);
    assert cs[0] == path[last + 1..cur];
    assert cur == |path| ==> cs[1..] == [];
    assert cur < |path| ==> cs[1..] == Split(path[cur + 1..]);
  }

  // ----- Where a short buffer ends -----

  lemma {:induction false} JoinedSnoc(names: seq<string>, k: nat)
    requires k < |names|
    ensures |Printed(names[..k + 1])| == |Printed(names[..k])| + |names[k]| + if k > 0 then 1 else 0
    decreases k
  {
    var rest := names[1..];
    assert names[..k + 1][1..] == rest[..k];
    if k > 0 {
      assert names[..k][1..] == rest[..k - 1];
      JoinedSnoc(rest, k - 1);
    }
  }

  lemma {:induction false} PrintedGrows(names: seq<string>, j: nat, k: nat)
    requires j <= k <= |names|
    ensures |Printed(names[..j])| <= |Printed(names[..k])|
    decreases k
  {
    if j < k {
      PrintedGrows(names, j, k - 1);
      JoinedSnoc(names, k - 1);
    }
  }

  /** Some names, but not all, with the slashes before them leave exactly two bytes of the buffer. */
  ghost predicate EndsAtSlash(names: seq<string>, size: nat) {
    exists k :: 0 < k < |names| && |Printed(names[..k])| + 2 == size
  }

  /** One byte more than text and terminator must fit, except for the root. */
  predicate Roomy(names: seq<string>, size: nat) {
    names == [] || |Printed(names)| + 2 <= size
  }

  lemma Overflows(names: seq<string>, k: nat, size: nat)
    requires k < |names| && |Printed(names[..k + 1])| + 2 > size
    requires forall j :: 0 < j <= k ==> |Printed(names[..j])| + 2 < size
    ensures !Roomy(names, size) && !EndsAtSlash(names, size)
  {
    PrintedGrows(names, k + 1, |names|);
    assert names[..|names|] == names;
    forall j | 0 < j < |names| ensures |Printed(names[..j])| + 2 != size {
      if j > k { PrintedGrows(names, k + 1, j); }
    }
  }

  lemma StopsAtSlash(names: seq<string>, k: nat, size: nat)
    requires Clean(names) && 0 < k < |names| && |Printed(names[..k])| + 2 == size
    ensures !Roomy(names, size) && EndsAtSlash(names, size)
  {
    JoinedSnoc(names, k);
    PrintedGrows(names, k + 1, |names|);
    assert names[..|names|] == names;
  }

  /** The second loop: prints the names behind `head`. */
  method Fill(head: PathNode, buf: array<char>, ghost nodes: seq<PathNode>) returns (res: Result)
    requires Chain(nodes) && nodes[0] == head && Clean(Stack(nodes)) && buf.Length >= 2
    modifies buf
    ensures var names := Stack(nodes);
            if Roomy(names, buf.Length) then res == Success && Holds(buf, Printed(names))
            else res == if EndsAtSlash(names, buf.Length) then NoMemory else Fail
  {
    hide Joined, Names, Clean, EndsAtSlash, Roomy, Printed;
    ghost var names := Stack(nodes);
    ghost var k := 0;
    buf[0] := '/';
    var offset, size := 1, buf.Length;
    NodeAt(nodes, 0);
    FullJoined(names);
    var tmp := head.next;
    while tmp != null
      invariant k <= |names| && tmp == (if k < |names| then nodes[k + 1] else null)
      invariant 1 <= offset && offset + (if tmp == null && k > 0 then 2 else 1) <= size
      invariant offset == |Printed(names[..k])| + if 0 < k < |names| then 1 else 0
      invariant forall j :: 0 < j <= k && j < |names| ==> |Printed(names[..j])| + 2 < size
      invariant buf[..offset] + Joined(names[k..]) == Printed(names)
      decreases |names| - k
    {
      NodeAt(nodes, k + 1);
      JoinedStep(names, k);
      JoinedSnoc(names, k);
      var copied := StrCpy(buf, offset, size - 1 - offset, tmp.name);
      if !copied {
        Overflows(names, k, size);
        return Fail;
      }
      offset := offset + |tmp.name|;
      tmp, k := tmp.next, k + 1;
      if tmp != null {
        if offset + 2 >= size {
          StopsAtSlash(names, k, size);
          return NoMemory;
        }
        PutChar(buf, offset, '/');
        offset := offset + 1;
      }
    }
    FullJoined(names);
    AllPrinted(names, k, size);
    assert names[k..] == [];
    buf[offset] := '\0';
    res := Success;
  }

  ghost predicate Holds(buf: array<char>, text: string)
    reads buf
  {
    |text| < buf.Length && buf[..|text|] == text && buf[|text|] == '\0'
  }

  lemma AllPrinted(names: seq<string>, k: nat, size: nat)
    requires k == |names| && (k > 0 ==> |Printed(names[..k])| + 2 <= size)
    ensures names[..k] == names && Roomy(names, size)
  {
    assert names[..k] == names;
  }

  lemma NodeAt(nodes: seq<PathNode>, k: nat)
    requires Chain(nodes) && k < |nodes|
    ensures |Stack(nodes)| == |nodes| - 1 && (k > 0 ==> Stack(nodes)[k - 1] == nodes[k].name)
    ensures nodes[k].next == if k + 1 < |nodes| then nodes[k + 1] else null
  {
    assert LinksOk(nodes, k);
  }

  lemma FullJoined(names: seq<string>)
    ensures names[0..] == names && names[..0] == [] && Joined([]) == "" && Printed(names) == "/" + Joined(names)
    ensures Printed([]) == "/"
  {}

  lemma JoinedStep(names: seq<string>, k: nat)
    requires k < |names| && Clean(names)
    ensures names[k] != ""
    ensures if k + 1 < |names| then Joined(names[k..]) == names[k] + "/" + Joined(names[k + 1..]) && Joined(names[k + 1..]) != ""
            else Joined(names[k..]) == names[k] && names[k + 1..] == []
  {
    assert CleanName(names[k]) && names[k..][1..] == names[k + 1..];
    if k + 1 < |names| { assert CleanName(names[k + 1]); }
  }

  datatype Outcome = Text(text: string) | Error(res: Result)

  /** The text, if a stack of names was reached and its text fits. */
  ghost function Reached(stack: Option<seq<string>>, size: nat): Outcome {
    match stack
    case None => Error(ErrorFormat)
    case Some(names) =>
      if Roomy(names, size) then Text(Printed(names))
      else Error(if EndsAtSlash(names, size) then NoMemory else Fail)
  }

  /** What normalizing into a buffer of this size comes to when no allocation is refused. */
  ghost function Normalized(path: string, cwd: Option<string>, size: nat): Outcome {
    if size < 2 then Error(InvalidParam)
    else match Absolute(path, cwd)
      case NoAbs(error) => Error(error)
      case Abs(abs) => Reached(Normal(abs), size)
  }

  /** Where the names of the result end up: they need a buffer of two bytes more than their text. */
  lemma Fitting(names: seq<string>, path: string, cwd: Option<string>, size: nat)
    requires path != "" && path[0] == '/' && Normal(path) == Some(names)
    ensures names != [] && size == |Printed(names)| + 1 ==> Normalized(path, cwd, size).Error?
    ensures size >= |Printed(names)| + 2 ==> Normalized(path, cwd, size) == Text(Printed(names))
    ensures names == [] && size == 2 ==> Normalized(path, cwd, size) == Text("/")
  {
    if names != [] { NormalIsClean(path); PrintedGrows(names, 0, |names|); assert names[..|names|] == names; }
  }

  /** A relative path continues from the names of the current directory; an absolute one does not look at
    * it. */
  lemma WhereAPathStarts(path: string, cwd: Option<string>, size: nat)
    requires size >= 2
    ensures path != "" && path[0] == '/' ==> Normalized(path, cwd, size) == Reached(Normal(path), size)
    ensures path != "" && path[0] != '/' && cwd.Some? && cwd.value != "" && cwd.value[0] == '/' ==>
              match Normal(cwd.value)
              case None => Normalized(path, cwd, size) == Error(ErrorFormat)
              case Some(names) => Normalized(path, cwd, size) == Reached(Fold(names, Split(path)), size)
    ensures path != "" && path[0] != '/' && cwd.Some? && cwd.value != "" && cwd.value[0] != '/' ==>
              Normalized(path, cwd, size) == Error(InvalidParam)
    ensures path == "" || (path[0] != '/' && (cwd.None? || cwd.value == "")) ==>
              Normalized(path, cwd, size) == Error(Fail)
  {
    if path != "" && path[0] != '/' && cwd.Some? && cwd.value != "" && cwd.value[0] == '/' {
      NormalAtSlash(cwd.value, path);
    }
  }

  /** clog_normalize, buf.Length being its size. */
  method Normalize(path: string, cwd: Option<string>, buf: array<char>, memory: bool) returns (res: Result)
    modifies buf
    ensures || (!memory && res == NoMemory)
            || match Normalized(path, cwd, buf.Length)
               case Text(text) => res == Success && Holds(buf, text)
               case Error(error) => res == error
    ensures res == InvalidParam || res == ErrorFormat ==> buf[..] == old(buf[..])
  {
    if buf.Length < 2 {
      return InvalidParam;
    }
    var abs;
    res, abs := GetUnnormalizedAbsPath(path, cwd, memory);
    if res != Success {
      return;
    }
    var got := Malloc(memory);
    if !got {
      return NoMemory;
    }
    var head := new PathNode("", null);
    ghost var nodes;
    res, nodes := Scan(abs, head, memory);
    if res != Success {
      return;
    }
    NormalIsClean(abs);
    res := Fill(head, buf, nodes);
  }
}
