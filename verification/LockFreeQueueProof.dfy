/** Memory safety and linearizability of module LockFreeQueue, for every run. */
module LockFreeQueueProof {
  import opened Common
  import opened LockFreeQueue
  import Ebr

  // ----- The invariant -----

  /** The linked nodes form one chain; head and tail stand on it, tail at most one node behind its end. */
  ghost predicate ShapeOk(s: State) {
    && |s.chain| == |s.vals|
    && s.h <= s.tl < |s.chain| <= s.tl + 2
    && s.head == s.chain[s.h] && s.tail == s.chain[s.tl]
    && (forall i :: 0 <= i < |s.chain| ==> s.chain[i] in s.pos && s.pos[s.chain[i]] == i)
    && (forall p :: p in s.pos ==> s.pos[p] < |s.chain| && s.chain[s.pos[p]] == p)
    && (forall i :: 0 <= i < |s.chain| ==> LinkOk(s.chain, s.nodes, i))
  }

  /** Node i of the chain points to the next one, the last to none. */
  ghost predicate LinkOk(chain: seq<Ptr>, nodes: map<Ptr, Node>, i: nat)
    requires i < |chain|
  {
    && chain[i] in nodes
    && (i + 1 < |chain| ==> nodes[chain[i]].next == Some(chain[i + 1]))
    && (i + 1 == |chain| ==> nodes[chain[i]].next == None)
  }

  /** What is still queued is still in its node. */
  ghost predicate DataOk(s: State) {
    forall i :: s.h < i < |s.chain| && i < |s.vals| && s.chain[i] in s.nodes ==> s.nodes[s.chain[i]].data == s.vals[i]
  }

  ghost predicate EbrOk(s: State) {
    && Ebr.Inv(s.ebr)
    && !s.ebr.inactive && !s.ebr.destroyed
    && (forall t :: t in s.threads <==> t in s.ebr.threads)
  }

  /** Only unlinked nodes are retired, and a section that began after the retirement also began after the
    * unlinking. */
  ghost predicate BeganOk(s: State) {
    forall p :: p in s.ebr.began ==> p in s.pos && s.pos[p] < s.h && SeenGone(s, p)
  }

  ghost predicate SeenGone(s: State, p: Ptr)
    requires p in s.ebr.began && p in s.pos
  {
    forall t :: t in s.threads && t in s.ebr.threads ==>
      (s.ebr.threads[t].state.Active? && s.ebr.began[p] < s.ebr.threads[t].enteredAt ==> s.pos[p] < s.threads[t].h0)
  }

  /** A node not yet linked and known to its thread alone. */
  ghost predicate Private(s: State, n: Ptr, v: Value) {
    n in s.nodes && n !in s.pos && s.nodes[n] == Node(None, v)
  }

  /** A pointer read during the present section. */
  ghost predicate At(s: State, p: Ptr, i: nat, h0: nat) {
    h0 <= i < |s.chain| && s.chain[i] == p
  }

  ghost predicate NextOf(s: State, i: nat, next: Ptr) {
    i + 1 < |s.chain| && s.chain[i + 1] == next
  }

  ghost predicate InSection(e: Ebr.Thread) {
    e.state.Active? && e.pc.Idle?
  }

  ghost predicate Entering(e: Ebr.Thread) {
    e.state.Inactive? && (e.pc.Idle? || e.pc.Entering?)
  }

  ghost predicate Unlinked(s: State, head: Ptr, hi: nat, h0: nat) {
    At(s, head, hi, h0) && hi < s.h
  }

  /** What a thread knows at each program point. */
  ghost predicate ThreadOk(s: State, t: Tid, th: Thread, e: Ebr.Thread) {
    && th.h0 <= s.h < |s.chain|
    && |s.chain| == |s.vals|
    && match th.pc
       case Ready => !e.state.Active? && e.pc.Idle?
       case EEntering(v, n) => Entering(e) && th.lin.None? && Private(s, n, v)
       case ELoop(v, n) => InSection(e) && th.lin.None? && Private(s, n, v)
       case EHaveTail(v, n, tail, ti) =>
         InSection(e) && th.lin.None? && Private(s, n, v) && At(s, tail, ti, th.h0) && ti <= s.tl
       case EHaveNext(v, n, tail, ti, next) =>
         && InSection(e) && th.lin.None? && Private(s, n, v) && At(s, tail, ti, th.h0) && ti <= s.tl
         && (next.Some? ==> NextOf(s, ti, next.value))
       case EChecked(v, n, tail, ti) =>
         InSection(e) && th.lin.None? && Private(s, n, v) && At(s, tail, ti, th.h0) && ti <= s.tl
       case ELinked(v, n, tail, ti) =>
         InSection(e) && th.lin == Some(Enq(t, v)) && At(s, tail, ti, th.h0) && NextOf(s, ti, n)
       case EExit(v) => InSection(e) && th.lin == Some(Enq(t, v))
       case DEntering => Entering(e) && th.lin.None?
       case DLoop => InSection(e) && th.lin.None?
       case DHead(head, hi) => InSection(e) && th.lin.None? && At(s, head, hi, th.h0) && hi <= s.h
       case DTail(head, hi, tail, ti) =>
         && InSection(e) && th.lin.None? && At(s, head, hi, th.h0) && At(s, tail, ti, th.h0)
         && hi <= s.h && hi <= ti <= s.tl
       case DNext(head, hi, tail, ti, next) =>
         && InSection(e) && At(s, head, hi, th.h0) && At(s, tail, ti, th.h0) && hi <= s.h && hi <= ti <= s.tl
         && (next.Some? ==> th.lin.None? && NextOf(s, hi, next.value))
         && (next.None? ==> th.lin == Some(Empty(t)) && hi == ti)
       case DChecked(head, hi, nxt) =>
         InSection(e) && th.lin.None? && At(s, head, hi, th.h0) && NextOf(s, hi, nxt) && hi <= s.h && hi < s.tl
       case DTaken(head, hi, nxt) =>
         && InSection(e) && Unlinked(s, head, hi, th.h0) && NextOf(s, hi, nxt) && head !in s.ebr.began
         && th.lin == Some(Deq(t, s.vals[hi + 1]))
         && nxt in s.nodes && s.nodes[nxt].data == s.vals[hi + 1]
       case DRead(head, hi, nxt, v) =>
         && InSection(e) && Unlinked(s, head, hi, th.h0) && NextOf(s, hi, nxt) && head !in s.ebr.began
         && th.lin == Some(Deq(t, v))
       case DRetire(head, hi, v) =>
         && InSection(e) && Unlinked(s, head, hi, th.h0) && head !in s.ebr.began
         && th.lin == Some(Deq(t, v))
       case DRetiring(head, hi, v) =>
         && e.state.Active? && Ebr.Retiring(e.pc) && e.pc.ptr == head && Unlinked(s, head, hi, th.h0)
         && th.lin == Some(Deq(t, v))
       case DExit(res) => InSection(e) && th.lin == Some(if res.Some? then Deq(t, res.value) else Empty(t))
  }

  ghost predicate ThreadsOk(s: State) {
    forall t :: t in s.threads && t in s.ebr.threads ==> ThreadOk(s, t, s.threads[t], s.ebr.threads[t])
  }

  predicate HasNode(pc: Pc) {
    pc.EEntering? || pc.ELoop? || pc.EHaveTail? || pc.EHaveNext? || pc.EChecked?
  }

  /** Between taking the head off and retiring it. */
  predicate HasHead(pc: Pc) {
    pc.DTaken? || pc.DRead? || pc.DRetire?
  }

  ghost predicate Clash(a: Thread, b: Thread) {
    || (HasNode(a.pc) && HasNode(b.pc) && a.pc.n == b.pc.n)
    || (HasHead(a.pc) && HasHead(b.pc) && a.pc.hi == b.pc.hi)
  }

  ghost predicate PairsOk(s: State) {
    forall t, u :: t in s.threads && u in s.threads && t != u ==> !Clash(s.threads[t], s.threads[u])
  }

  /** The sequential queue, replaying the linearization; None when some event was not allowed. */
  function Replay(log: seq<Event>): Option<seq<Value>> {
    if log == [] then Some([])
    else
      match Replay(log[..|log| - 1])
      case None => None
      case Some(q) =>
        match log[|log| - 1]
        case Enq(_, v) => Some(q + [v])
        case Deq(_, v) => if q != [] && q[0] == v then Some(q[1..]) else None
        case Empty(_) => if q == [] then Some(q) else None
  }

  /** The abstract content: the values of the nodes behind head. */
  function Contents(s: State): seq<Value> {
    if s.h < |s.vals| then s.vals[s.h + 1..] else []
  }

  ghost predicate LogOk(s: State) {
    Replay(s.log) == Some(Contents(s))
  }

  ghost predicate Inv(s: State) {
    ShapeOk(s) && DataOk(s) && EbrOk(s) && BeganOk(s) && ThreadsOk(s) && PairsOk(s) && LogOk(s)
  }

  // ----- The reclaimer's part -----

  /** What a step does to the reclaimer as far as the queue sees it. */
  ghost predicate EbrKept(e: Ebr.State, e': Ebr.State) {
    e'.inactive == e.inactive && e'.destroyed == e.destroyed
  }

  lemma PartKind(s: State, a: Action)
    requires PcEnabled(s, a) && EbrPart(s, a).Some?
    ensures var e := EbrPart(s, a).value; !e.Destroy? && !e.TryDestroy?
  {}

  lemma EbrAfterOk(s: State, a: Action)
    requires EbrOk(s) && Enabled(s, a)
    ensures Ebr.Inv(EbrAfter(s, a)) && EbrKept(s.ebr, EbrAfter(s, a))
  {
    if EbrPart(s, a).Some? {
      PartKind(s, a);
      EbrApplied(s.ebr, EbrPart(s, a).value);
    }
  }

  lemma EbrApplied(s: Ebr.State, e: Ebr.Action)
    requires Ebr.Inv(s) && Ebr.Enabled(s, e) && !e.Destroy? && !e.TryDestroy?
    ensures Ebr.Inv(Ebr.Apply(s, e)) && EbrKept(s, Ebr.Apply(s, e))
  {
    Ebr.InvStep(s, e);
    Ebr.FlagsKept(s, e);
  }

  // ----- What other threads' steps leave alone -----

  ghost predicate Grows(s: State, s': State) {
    && |s.chain| <= |s'.chain| == |s'.vals| && |s.vals| == |s.chain|
    && (forall i :: 0 <= i < |s.chain| ==> s'.chain[i] == s.chain[i] && s'.vals[i] == s.vals[i])
    && s.h <= s'.h < |s'.chain| && s.tl <= s'.tl
  }

  lemma ThreadKept(s: State, s': State, u: Tid, th: Thread, e: Ebr.Thread)
    requires ThreadOk(s, u, th, e) && Grows(s, s')
    requires HasNode(th.pc) ==> Private(s', th.pc.n, th.pc.v)
    requires HasHead(th.pc) ==> th.pc.head !in s'.ebr.began
    requires th.pc.DTaken? ==> th.pc.nxt in s'.nodes && s'.nodes[th.pc.nxt].data == s.nodes[th.pc.nxt].data
    ensures ThreadOk(s', u, th, e)
  {}

  /** The actor's new state clashes with nobody. */
  ghost predicate NoNewClash(s: State, t: Tid, th': Thread) {
    forall u :: u in s.threads && u != t ==> !Clash(th', s.threads[u]) && !Clash(s.threads[u], th')
  }

  lemma PairsKept(s: State, s': State, t: Tid, th': Thread)
    requires PairsOk(s) && NoNewClash(s, t, th') && s'.threads == s.threads[t := th']
    ensures PairsOk(s')
  {}

  lemma SameHoldings(s: State, t: Tid, th': Thread)
    requires PairsOk(s) && t in s.threads
    requires HasNode(th'.pc) ==> HasNode(s.threads[t].pc) && th'.pc.n == s.threads[t].pc.n
    requires HasHead(th'.pc) ==> HasHead(s.threads[t].pc) && th'.pc.hi == s.threads[t].pc.hi
    ensures NoNewClash(s, t, th')
  {
    forall u | u in s.threads && u != t ensures !Clash(th', s.threads[u]) && !Clash(s.threads[u], th') {
      assert !Clash(s.threads[t], s.threads[u]) && !Clash(s.threads[u], s.threads[t]);
    }
  }

  /** A step of t that changes no node and, in the queue, at most the tail and the log. */
  lemma MoveKeeps(s: State, s': State, t: Tid, th': Thread)
    requires Inv(s) && Here(s, t)
    requires s' == s.(threads := s.threads[t := th'], tail := s'.tail, tl := s'.tl, log := s'.log)
    requires s.tl <= s'.tl < |s.chain| && s'.tail == s.chain[s'.tl]
    requires ThreadOk(s', t, th', s.ebr.threads[t]) && th'.h0 == s.threads[t].h0
    requires HasNode(th'.pc) ==> HasNode(s.threads[t].pc) && th'.pc.n == s.threads[t].pc.n
    requires HasHead(th'.pc) ==> HasHead(s.threads[t].pc) && th'.pc.hi == s.threads[t].pc.hi
    requires LogOk(s')
    ensures Inv(s')
  {
    hide ThreadOk, LogOk, Ebr.Inv;
    SameHoldings(s, t, th');
    PairsKept(s, s', t, th');
    MoveKeepsThreads(s, s', t, th');
    MoveKeepsShape(s, s');
    MoveKeepsBegan(s, s', t, th');
  }

  lemma MoveKeepsShape(s: State, s': State)
    requires ShapeOk(s) && DataOk(s) && EbrOk(s)
    requires s' == s.(threads := s'.threads, tail := s'.tail, tl := s'.tl, log := s'.log)
    requires s.tl <= s'.tl < |s.chain| && s'.tail == s.chain[s'.tl]
    requires forall t :: t in s.threads <==> t in s'.threads
    ensures ShapeOk(s') && DataOk(s') && EbrOk(s')
  {
    hide Ebr.Inv;
  }

  lemma MoveKeepsBegan(s: State, s': State, t: Tid, th': Thread)
    requires BeganOk(s) && t in s.threads && th'.h0 == s.threads[t].h0
    requires s'.threads == s.threads[t := th'] && s'.ebr == s.ebr && s'.pos == s.pos && s'.h == s.h
    ensures BeganOk(s')
  {
    forall p | p in s'.ebr.began ensures p in s'.pos && s'.pos[p] < s'.h && SeenGone(s', p) {
      assert SeenGone(s, p);
    }
  }

  lemma MoveKeepsThreads(s: State, s': State, t: Tid, th': Thread)
    requires ShapeOk(s) && ThreadsOk(s) && Here(s, t)
    requires s' == s.(threads := s.threads[t := th'], tail := s'.tail, tl := s'.tl, log := s'.log)
    requires s.tl <= s'.tl
    requires ThreadOk(s', t, th', s.ebr.threads[t])
    ensures ThreadsOk(s')
  {
    forall u | u in s'.threads && u in s'.ebr.threads ensures ThreadOk(s', u, s'.threads[u], s'.ebr.threads[u]) {
      if u != t { ThreadKept(s, s', u, s.threads[u], s.ebr.threads[u]); }
    }
  }

  // ----- Steps that only move their thread -----

  /** The thread's own knowledge, as a fact. */
  lemma Knows(s: State, t: Tid)
    requires Inv(s) && Here(s, t)
    ensures ThreadOk(s, t, s.threads[t], s.ebr.threads[t])
  {}

  lemma EnqLoadTailOk(s: State, t: Tid)
    requires Inv(s) && PcEnabled(s, EnqLoadTail(t))
    ensures Inv(Move(s, t, EHaveTail(s.threads[t].pc.v, s.threads[t].pc.n, s.tail, s.tl)))
  {
    Knows(s, t);
    EnqLoadTailFacts(s, t);
    hide Inv;
    MovedKeeps(s, Move(s, t, EHaveTail(s.threads[t].pc.v, s.threads[t].pc.n, s.tail, s.tl)), t);
  }

  lemma EnqLoadTailFacts(s: State, t: Tid)
    requires ShapeOk(s) && PcEnabled(s, EnqLoadTail(t)) && ThreadOk(s, t, s.threads[t], s.ebr.threads[t])
    ensures Moved(s, Move(s, t, EHaveTail(s.threads[t].pc.v, s.threads[t].pc.n, s.tail, s.tl)), t)
  {}

  function LoadedTailNext(s: State, t: Tid): State
    requires t in s.threads && s.threads[t].pc.EHaveTail? && s.threads[t].pc.tail in s.nodes
  {
    var pc := s.threads[t].pc;
    Move(s, t, EHaveNext(pc.v, pc.n, pc.tail, pc.ti, s.nodes[pc.tail].next))
  }

  lemma EnqLoadNextOk(s: State, t: Tid)
    requires Inv(s) && PcEnabled(s, EnqLoadNext(t))
    ensures Inv(LoadedTailNext(s, t))
  {
    Knows(s, t);
    EnqLoadNextFacts(s, t);
    hide Inv;
    MovedKeeps(s, LoadedTailNext(s, t), t);
  }

  lemma EnqLoadNextFacts(s: State, t: Tid)
    requires ShapeOk(s) && PcEnabled(s, EnqLoadNext(t)) && ThreadOk(s, t, s.threads[t], s.ebr.threads[t])
    ensures Moved(s, LoadedTailNext(s, t), t)
  {
    assert LinkOk(s.chain, s.nodes, s.threads[t].pc.ti);
  }

  /** A compare-exchange of the tail that succeeds moves it to the node behind. */
  lemma AdvanceTailOk(s: State, tail: Ptr, ti: nat, next: Ptr, h0: nat)
    requires ShapeOk(s) && At(s, tail, ti, h0) && NextOf(s, ti, next)
    ensures var s' := AdvanceTail(s, tail, next);
            && s' == s.(tail := s'.tail, tl := s'.tl)
            && s.tl <= s'.tl < |s.chain| && s'.tail == s.chain[s'.tl]
            && ti < s'.tl
  {
    if s.tail == tail {
      assert s.pos[s.chain[s.tl]] == s.tl && s.pos[s.chain[ti]] == ti;
    } else {
      LaggingTail(s, ti);
    }
  }

  /** The tail that is not at position ti, with a node behind ti, is past ti. */
  lemma LaggingTail(s: State, ti: nat)
    requires ShapeOk(s) && ti + 1 < |s.chain| && s.tail != s.chain[ti]
    ensures ti < s.tl
  {}

  /** What a step of t that may move the tail has to show for MoveKeeps. */
  ghost predicate Moved(s: State, s': State, t: Tid) {
    && t in s.threads && t in s'.threads && t in s.ebr.threads
    && s' == s.(threads := s.threads[t := s'.threads[t]], tail := s'.tail, tl := s'.tl)
    && s.tl <= s'.tl < |s.chain| && s'.tail == s.chain[s'.tl]
    && ThreadOk(s', t, s'.threads[t], s.ebr.threads[t]) && s'.threads[t].h0 == s.threads[t].h0
    && (HasNode(s'.threads[t].pc) ==> HasNode(s.threads[t].pc) && s'.threads[t].pc.n == s.threads[t].pc.n)
    && (HasHead(s'.threads[t].pc) ==> HasHead(s.threads[t].pc) && s'.threads[t].pc.hi == s.threads[t].pc.hi)
  }

  lemma MovedKeeps(s: State, s': State, t: Tid)
    requires Inv(s) && Moved(s, s', t)
    ensures Inv(s')
  {
    hide ShapeOk, DataOk, EbrOk, BeganOk, ThreadsOk, PairsOk, ThreadOk;
    MoveKeeps(s, s', t, s'.threads[t]);
  }

  lemma EnqDecideOk(s: State, t: Tid)
    requires Inv(s) && PcEnabled(s, EnqDecide(t))
    ensures Inv(Decide(s, t))
  {
    Knows(s, t);
    EnqDecideFacts(s, t);
    hide Inv;
    MovedKeeps(s, Decide(s, t), t);
  }

  lemma EnqDecideFacts(s: State, t: Tid)
    requires ShapeOk(s) && PcEnabled(s, EnqDecide(t)) && ThreadOk(s, t, s.threads[t], s.ebr.threads[t])
    ensures Moved(s, Decide(s, t), t)
  {
    var pc := s.threads[t].pc;
    if pc.next.Some? { AdvanceTailOk(s, pc.tail, pc.ti, pc.next.value, s.threads[t].h0); }
  }

  lemma EnqSwingOk(s: State, t: Tid)
    requires Inv(s) && PcEnabled(s, EnqSwing(t))
    ensures var pc := s.threads[t].pc; Inv(Move(AdvanceTail(s, pc.tail, pc.n), t, EExit(pc.v)))
  {
    var pc := s.threads[t].pc;
    Knows(s, t);
    EnqSwingFacts(s, t);
    hide Inv;
    MovedKeeps(s, Move(AdvanceTail(s, pc.tail, pc.n), t, EExit(pc.v)), t);
  }

  lemma EnqSwingFacts(s: State, t: Tid)
    requires ShapeOk(s) && PcEnabled(s, EnqSwing(t)) && ThreadOk(s, t, s.threads[t], s.ebr.threads[t])
    ensures var pc := s.threads[t].pc; Moved(s, Move(AdvanceTail(s, pc.tail, pc.n), t, EExit(pc.v)), t)
  {
    var pc := s.threads[t].pc;
    AdvanceTailOk(s, pc.tail, pc.ti, pc.n, s.threads[t].h0);
  }

  lemma DeqLoadHeadOk(s: State, t: Tid)
    requires Inv(s) && PcEnabled(s, DeqLoadHead(t))
    ensures Inv(Move(s, t, DHead(s.head, s.h)))
  {
    Knows(s, t);
    DeqLoadHeadFacts(s, t);
    hide Inv;
    MovedKeeps(s, Move(s, t, DHead(s.head, s.h)), t);
  }

  lemma DeqLoadHeadFacts(s: State, t: Tid)
    requires ShapeOk(s) && PcEnabled(s, DeqLoadHead(t)) && ThreadOk(s, t, s.threads[t], s.ebr.threads[t])
    ensures Moved(s, Move(s, t, DHead(s.head, s.h)), t)
  {}

  lemma DeqLoadTailOk(s: State, t: Tid)
    requires Inv(s) && PcEnabled(s, DeqLoadTail(t))
    ensures Inv(Move(s, t, DTail(s.threads[t].pc.head, s.threads[t].pc.hi, s.tail, s.tl)))
  {
    Knows(s, t);
    DeqLoadTailFacts(s, t);
    hide Inv;
    MovedKeeps(s, Move(s, t, DTail(s.threads[t].pc.head, s.threads[t].pc.hi, s.tail, s.tl)), t);
  }

  lemma DeqLoadTailFacts(s: State, t: Tid)
    requires ShapeOk(s) && PcEnabled(s, DeqLoadTail(t)) && ThreadOk(s, t, s.threads[t], s.ebr.threads[t])
    ensures Moved(s, Move(s, t, DTail(s.threads[t].pc.head, s.threads[t].pc.hi, s.tail, s.tl)), t)
  {}

  /** A `next` read as zero is read from the last node, and then the queue is empty. */
  lemma DeqLoadNextOk(s: State, t: Tid)
    requires Inv(s) && PcEnabled(s, DeqLoadNext(t))
    ensures Inv(LoadNext(s, t))
    ensures s.nodes[s.threads[t].pc.head].next.None? ==> Contents(s) == []
  {
    Knows(s, t);
    LoadedNext(s, t);
    TailInChain(s);
    LoadNextFrame(s, t);
    hide Inv, LogOk, ThreadOk, Contents, LoadNext, PcEnabled;
    var s' := LoadNext(s, t);
    MoveKeeps(s, s', t, s'.threads[t]);
  }

  lemma TailInChain(s: State)
    requires ShapeOk(s)
    ensures s.tl < |s.chain| && s.tail == s.chain[s.tl]
  {}

  lemma LoadNextFrame(s: State, t: Tid)
    requires PcEnabled(s, DeqLoadNext(t))
    ensures var s' := LoadNext(s, t);
            && t in s'.threads && s' == s.(threads := s.threads[t := s'.threads[t]], log := s'.log)
            && s'.threads[t].h0 == s.threads[t].h0 && !HasNode(s'.threads[t].pc) && !HasHead(s'.threads[t].pc)
  {}

  lemma LoadedNext(s: State, t: Tid)
    requires ShapeOk(s) && LogOk(s) && PcEnabled(s, DeqLoadNext(t)) && ThreadOk(s, t, s.threads[t], s.ebr.threads[t])
    ensures var s' := LoadNext(s, t); ThreadOk(s', t, s'.threads[t], s.ebr.threads[t]) && LogOk(s')
    ensures s.nodes[s.threads[t].pc.head].next.None? ==> Contents(s) == []
  {
    var s' := LoadNext(s, t);
    assert LinkOk(s.chain, s.nodes, s.threads[t].pc.hi);
    if s.nodes[s.threads[t].pc.head].next.None? { assert s'.log[..|s'.log| - 1] == s.log; }
  }

  lemma DeqDecideOk(s: State, t: Tid)
    requires Inv(s) && PcEnabled(s, DeqDecide(t))
    ensures Inv(DequeueDecide(s, t))
  {
    Knows(s, t);
    hide DataOk, BeganOk, ThreadsOk, PairsOk, Ebr.Inv;
    var pc := s.threads[t].pc;
    if pc.head == pc.tail && pc.next.Some? {
      DeqHelpOk(s, t);
    } else {
      DeqDecided(s, t);
      DeqDecidedOk(s, t, DecidedPc(s, pc));
    }
  }

  lemma DeqDecidedOk(s: State, t: Tid, pc': Pc)
    requires Inv(s) && Here(s, t) && !HasNode(pc') && !HasHead(pc')
    requires ThreadOk(Move(s, t, pc'), t, s.threads[t].(pc := pc'), s.ebr.threads[t])
    ensures Inv(Move(s, t, pc'))
  {
    TailInChain(s);
    SameLog(s, Move(s, t, pc'));
    hide Inv, ThreadOk, LogOk;
    MoveKeeps(s, Move(s, t, pc'), t, s.threads[t].(pc := pc'));
  }

  lemma SameLog(s: State, s': State)
    requires Inv(s) && s'.log == s.log && s'.vals == s.vals && s'.h == s.h
    ensures LogOk(s')
  {}

  lemma DeqHelpOk(s: State, t: Tid)
    requires Inv(s) && PcEnabled(s, DeqDecide(t))
    requires s.threads[t].pc.head == s.threads[t].pc.tail && s.threads[t].pc.next.Some?
    ensures Inv(DequeueDecide(s, t))
  {
    Knows(s, t);
    hide DataOk, BeganOk, ThreadsOk, PairsOk, Ebr.Inv;
    var pc := s.threads[t].pc;
    SamePosition(s, pc.hi, pc.ti);
    AdvanceTailOk(s, pc.tail, pc.ti, pc.next.value, s.threads[t].h0);
    var helped := AdvanceTail(s, pc.tail, pc.next.value);
    HelpedOk(s, t, helped.tail, helped.tl);
  }

  lemma HelpedOk(s: State, t: Tid, tail: Ptr, tl: nat)
    requires Inv(s) && Here(s, t) && InSection(s.ebr.threads[t]) && s.threads[t].lin.None?
    requires s.tl <= tl < |s.chain| && tail == s.chain[tl]
    ensures Inv(Move(s.(tail := tail, tl := tl), t, DLoop))
  {
    Knows(s, t);
    var s' := Move(s.(tail := tail, tl := tl), t, DLoop);
    SameLog(s, s');
    LoopKnows(s, s', t);
    hide Inv, LogOk, ThreadOk;
    MoveKeeps(s, s', t, s.threads[t].(pc := DLoop));
  }

  lemma LoopKnows(s: State, s': State, t: Tid)
    requires Here(s, t) && ThreadOk(s, t, s.threads[t], s.ebr.threads[t])
    requires InSection(s.ebr.threads[t]) && s.threads[t].lin.None?
    requires s'.chain == s.chain && s'.vals == s.vals && s'.h == s.h
    ensures ThreadOk(s', t, s.threads[t].(pc := DLoop), s.ebr.threads[t])
  {  }

  /** Where the decision leads when the tail need not be helped on: a zero `next` was read from the tail. */
  function DecidedPc(s: State, pc: Pc): Pc
    requires pc.DNext?
  {
    if pc.next.None? then DExit(None)
    else if pc.tail == s.tail then DChecked(pc.head, pc.hi, pc.next.value)
    else DLoop
  }

  lemma DeqDecided(s: State, t: Tid)
    requires ShapeOk(s) && Here(s, t) && s.threads[t].pc.DNext?
    requires ThreadOk(s, t, s.threads[t], s.ebr.threads[t])
    requires !(s.threads[t].pc.head == s.threads[t].pc.tail && s.threads[t].pc.next.Some?)
    ensures var pc' := DecidedPc(s, s.threads[t].pc);
            && DequeueDecide(s, t) == Move(s, t, pc')
            && ThreadOk(Move(s, t, pc'), t, s.threads[t].(pc := pc'), s.ebr.threads[t])
  {
    var pc := s.threads[t].pc;
    if pc.next.None? { assert pc.head == pc.tail; }
  }

  lemma SamePosition(s: State, i: nat, j: nat)
    requires ShapeOk(s) && i < |s.chain| && j < |s.chain| && s.chain[i] == s.chain[j]
    ensures i == j
  {
    assert s.pos[s.chain[i]] == i && s.pos[s.chain[j]] == j;
  }

  lemma OtherPosition(s: State, i: nat, j: nat)
    requires ShapeOk(s) && i < |s.chain| && j < |s.chain| && i != j
    ensures s.chain[i] != s.chain[j]
  {
    assert s.pos[s.chain[i]] == i && s.pos[s.chain[j]] == j;
  }

  function ReadFront(s: State, t: Tid): State
    requires t in s.threads && s.threads[t].pc.DTaken? && s.threads[t].pc.nxt in s.nodes
  {
    var pc := s.threads[t].pc;
    Move(s, t, DRead(pc.head, pc.hi, pc.nxt, s.nodes[pc.nxt].data))
  }

  lemma DeqReadOk(s: State, t: Tid)
    requires Inv(s) && PcEnabled(s, DeqRead(t))
    ensures Inv(ReadFront(s, t))
  {
    Knows(s, t);
    DeqReadFacts(s, t);
    hide Inv;
    MovedKeeps(s, ReadFront(s, t), t);
  }

  lemma DeqReadFacts(s: State, t: Tid)
    requires ShapeOk(s) && PcEnabled(s, DeqRead(t)) && ThreadOk(s, t, s.threads[t], s.ebr.threads[t])
    ensures Moved(s, ReadFront(s, t), t)
  {}

  function StartedDequeue(s: State, t: Tid): State
    requires t in s.threads
  {
    s.(threads := s.threads[t := s.threads[t].(pc := DEntering, lin := None)])
  }

  lemma DeqStartOk(s: State, t: Tid)
    requires Inv(s) && PcEnabled(s, DeqStart(t))
    ensures Inv(StartedDequeue(s, t))
  {
    Knows(s, t);
    DeqStartFacts(s, t);
    hide Inv;
    MovedKeeps(s, StartedDequeue(s, t), t);
  }

  lemma DeqStartFacts(s: State, t: Tid)
    requires ShapeOk(s) && PcEnabled(s, DeqStart(t)) && ThreadOk(s, t, s.threads[t], s.ebr.threads[t])
    ensures Moved(s, StartedDequeue(s, t), t)
  {}

  // ----- Steps that change nodes -----

  /** The queue fields of BeganOk did not shrink and the reclaimer's are the same. */
  lemma BeganKept(s: State, s': State)
    requires BeganOk(s) && s'.ebr == s.ebr && s.h <= s'.h
    requires forall p :: p in s.pos ==> p in s'.pos && s'.pos[p] == s.pos[p]
    requires forall t :: t in s'.threads && t in s'.ebr.threads ==> t in s.threads && s'.threads[t].h0 == s.threads[t].h0
    ensures BeganOk(s')
  {
    forall p | p in s'.ebr.began ensures p in s'.pos && s'.pos[p] < s'.h && SeenGone(s', p) {
      assert SeenGone(s, p);
    }
  }

  lemma EnqStartOk(s: State, t: Tid, v: Value, n: Ptr)
    requires Inv(s) && PcEnabled(s, EnqStart(t, v, n))
    ensures Inv(s.(threads := s.threads[t := s.threads[t].(pc := EEntering(v, n), lin := None)],
                   nodes := s.nodes[n := Node(None, v)]))
  {
    hide Ebr.Inv;
    var th' := s.threads[t].(pc := EEntering(v, n), lin := None);
    var s' := s.(threads := s.threads[t := th'], nodes := s.nodes[n := Node(None, v)]);
    NewNodeShape(s, s', n, Node(None, v));
    NewNodeThreads(s, t, v, n);
    BeganKept(s, s');
    NewNodePairs(s, t, th');
    PairsKept(s, s', t, th');
    NewNodeRest(s, s', n, Node(None, v));
  }

  lemma NewNodeRest(s: State, s': State, n: Ptr, node: Node)
    requires ShapeOk(s) && DataOk(s) && EbrOk(s) && LogOk(s) && n !in s.nodes
    requires s' == s.(threads := s'.threads, nodes := s.nodes[n := node])
    requires forall t :: t in s.threads <==> t in s'.threads
    ensures DataOk(s') && EbrOk(s') && LogOk(s')
  {
    NewNodeData(s, s', n, node);
    hide ShapeOk, DataOk, Ebr.Inv;
  }

  lemma NewNodeData(s: State, s': State, n: Ptr, node: Node)
    requires ShapeOk(s) && DataOk(s) && n !in s.nodes && s' == s.(threads := s'.threads, nodes := s.nodes[n := node])
    ensures DataOk(s')
  {
    forall i | s'.h < i < |s'.chain| && i < |s'.vals| && s'.chain[i] in s'.nodes
      ensures s'.nodes[s'.chain[i]].data == s'.vals[i]
    {
      assert LinkOk(s.chain, s.nodes, i);
    }
  }

  lemma NewNodeShape(s: State, s': State, n: Ptr, node: Node)
    requires ShapeOk(s) && n !in s.nodes
    requires s' == s.(threads := s'.threads, nodes := s.nodes[n := node])
    ensures ShapeOk(s')
  {
    forall i | 0 <= i < |s.chain| ensures LinkOk(s'.chain, s'.nodes, i) { assert LinkOk(s.chain, s.nodes, i); }
  }

  lemma LinkedNodesExist(s: State)
    requires ShapeOk(s)
    ensures forall p :: p in s.pos ==> p in s.nodes
  {
    forall p | p in s.pos ensures p in s.nodes { assert LinkOk(s.chain, s.nodes, s.pos[p]); }
  }

  lemma NewNodePairs(s: State, t: Tid, th': Thread)
    requires PairsOk(s) && ThreadsOk(s) && EbrOk(s) && th'.pc.EEntering? && th'.pc.n !in s.nodes
    ensures NoNewClash(s, t, th')
  {
    hide Ebr.Inv;
    forall u | u in s.threads && u != t ensures !Clash(th', s.threads[u]) && !Clash(s.threads[u], th') {
      assert ThreadOk(s, u, s.threads[u], s.ebr.threads[u]);
    }
  }

  lemma NewNodeThreads(s: State, t: Tid, v: Value, n: Ptr)
    requires ShapeOk(s) && ThreadsOk(s) && PcEnabled(s, EnqStart(t, v, n))
    ensures ThreadsOk(s.(threads := s.threads[t := s.threads[t].(pc := EEntering(v, n), lin := None)],
                         nodes := s.nodes[n := Node(None, v)]))
  {
    var s' := s.(threads := s.threads[t := s.threads[t].(pc := EEntering(v, n), lin := None)],
                 nodes := s.nodes[n := Node(None, v)]);
    LinkedNodesExist(s);
    forall u | u in s'.threads && u in s'.ebr.threads ensures ThreadOk(s', u, s'.threads[u], s'.ebr.threads[u]) {
      assert ThreadOk(s, u, s.threads[u], s.ebr.threads[u]);
      if u != t { NewNodeOther(s, s', u, n, v); }
    }
  }

  lemma NewNodeOther(s: State, s': State, u: Tid, n: Ptr, v: Value)
    requires ShapeOk(s) && Here(s, u) && ThreadOk(s, u, s.threads[u], s.ebr.threads[u]) && n !in s.nodes
    requires s' == s.(threads := s'.threads, nodes := s.nodes[n := Node(None, v)])
    ensures ThreadOk(s', u, s.threads[u], s.ebr.threads[u])
  {
    ThreadKept(s, s', u, s.threads[u], s.ebr.threads[u]);
  }

  // A successful link appends.

  function Linked(s: State, t: Tid): State
    requires t in s.threads && s.threads[t].pc.EChecked? && s.threads[t].pc.tail in s.nodes
  {
    var pc := s.threads[t].pc;
    var th := s.threads[t].(pc := ELinked(pc.v, pc.n, pc.tail, pc.ti), lin := Some(Enq(t, pc.v)));
    s.(threads := s.threads[t := th], log := s.log + [Enq(t, pc.v)],
       nodes := s.nodes[pc.tail := s.nodes[pc.tail].(next := Some(pc.n))],
       chain := s.chain + [pc.n], vals := s.vals + [pc.v], pos := s.pos[pc.n := |s.chain|])
  }

  lemma EnqLinkOk(s: State, t: Tid)
    requires Inv(s) && PcEnabled(s, EnqLink(t))
    ensures Inv(Link(s, t))
  {
    Knows(s, t);
    hide DataOk, BeganOk, ThreadsOk, PairsOk, Ebr.Inv;
    var pc := s.threads[t].pc;
    if s.nodes[pc.tail].next.None? {
      assert Link(s, t) == Linked(s, t);
      LinksAtEnd(s, t);
      LinkedOk(s, t);
    } else {
      MoveKeeps(s, Move(s, t, ELoop(pc.v, pc.n)), t, s.threads[t].(pc := ELoop(pc.v, pc.n)));
    }
  }

  /** Only the last node has no next, so the node is linked behind the last one, and the tail is there. */
  lemma LinksAtEnd(s: State, t: Tid)
    requires ShapeOk(s) && Here(s, t) && s.threads[t].pc.EChecked?
    requires ThreadOk(s, t, s.threads[t], s.ebr.threads[t])
    requires s.threads[t].pc.tail in s.nodes && s.nodes[s.threads[t].pc.tail].next.None?
    ensures s.threads[t].pc.ti + 1 == |s.chain| && s.tl + 1 == |s.chain|
  {
    assert LinkOk(s.chain, s.nodes, s.threads[t].pc.ti);
  }

  lemma LinkedOk(s: State, t: Tid)
    requires Inv(s) && PcEnabled(s, EnqLink(t)) && s.nodes[s.threads[t].pc.tail].next.None?
    requires s.tl + 1 == |s.chain|
    ensures Inv(Linked(s, t))
  {
    Knows(s, t);
    LinksAtEnd(s, t);
    LinkedShape(s, t);
    LinkedThreads(s, t);
    LinkedData(s, t);
    LinkedLog(s, t);
    LinkedPairs(s, t);
    LinkedBegan(s, t);
    hide ShapeOk, DataOk, BeganOk, ThreadsOk, PairsOk, LogOk, ThreadOk, Ebr.Inv;
    assert EbrOk(Linked(s, t));
  }

  lemma LinkedPairs(s: State, t: Tid)
    requires PairsOk(s) && PcEnabled(s, EnqLink(t))
    ensures PairsOk(Linked(s, t))
  {
    var s' := Linked(s, t);
    SameHoldings(s, t, s'.threads[t]);
    PairsKept(s, s', t, s'.threads[t]);
  }

  lemma LinkedBegan(s: State, t: Tid)
    requires BeganOk(s) && ShapeOk(s) && PcEnabled(s, EnqLink(t)) && ThreadOk(s, t, s.threads[t], s.ebr.threads[t])
    ensures BeganOk(Linked(s, t))
  {
    BeganKept(s, Linked(s, t));
  }

  lemma LinkedShape(s: State, t: Tid)
    requires ShapeOk(s) && DataOk(s) && PcEnabled(s, EnqLink(t))
    requires ThreadOk(s, t, s.threads[t], s.ebr.threads[t])
    requires s.threads[t].pc.ti + 1 == |s.chain| && s.tl + 1 == |s.chain|
    ensures ShapeOk(Linked(s, t))
  {
    var s' := Linked(s, t);
    var pc := s.threads[t].pc;
    forall i | 0 <= i < |s'.chain| ensures LinkOk(s'.chain, s'.nodes, i) {
      if i < |s.chain| {
        assert LinkOk(s.chain, s.nodes, i);
        if i != pc.ti { assert s.pos[s.chain[i]] == i && s.pos[s.chain[pc.ti]] == pc.ti; }
      }
    }
  }

  lemma LinkedThreads(s: State, t: Tid)
    requires ShapeOk(s) && ThreadsOk(s) && PairsOk(s) && PcEnabled(s, EnqLink(t))
    requires s.threads[t].pc.ti + 1 == |s.chain|
    ensures ThreadsOk(Linked(s, t))
  {
    var s' := Linked(s, t);
    forall u | u in s'.threads && u in s'.ebr.threads ensures ThreadOk(s', u, s'.threads[u], s'.ebr.threads[u]) {
      if u != t { LinkedThread(s, t, u); } else { LinkedActor(s, t); }
    }
  }

  lemma LinkedActor(s: State, t: Tid)
    requires ShapeOk(s) && ThreadsOk(s) && PcEnabled(s, EnqLink(t))
    requires s.threads[t].pc.ti + 1 == |s.chain|
    ensures ThreadOk(Linked(s, t), t, Linked(s, t).threads[t], s.ebr.threads[t])
  {
    assert ThreadOk(s, t, s.threads[t], s.ebr.threads[t]);
  }

  lemma LinkedThread(s: State, t: Tid, u: Tid)
    requires ShapeOk(s) && ThreadsOk(s) && PairsOk(s) && PcEnabled(s, EnqLink(t))
    requires s.threads[t].pc.ti + 1 == |s.chain| && u != t && Here(s, u)
    ensures ThreadOk(Linked(s, t), u, s.threads[u], s.ebr.threads[u])
  {
    assert ThreadOk(s, t, s.threads[t], s.ebr.threads[t]);
    assert ThreadOk(s, u, s.threads[u], s.ebr.threads[u]);
    assert !Clash(s.threads[t], s.threads[u]);
    hide ThreadsOk, PairsOk;
    LinkedOther(s, t, s.threads[u]);
    ThreadKept(s, Linked(s, t), u, s.threads[u], s.ebr.threads[u]);
  }

  /** The link touches the last node and the linker's own one, neither of which is private to another. */
  lemma LinkedOther(s: State, t: Tid, th: Thread)
    requires ShapeOk(s) && PcEnabled(s, EnqLink(t)) && !Clash(s.threads[t], th)
    requires s.threads[t].pc.ti < |s.chain| && s.chain[s.threads[t].pc.ti] == s.threads[t].pc.tail
    ensures HasNode(th.pc) && Private(s, th.pc.n, th.pc.v) ==> Private(Linked(s, t), th.pc.n, th.pc.v)
    ensures th.pc.DTaken? && th.pc.nxt in s.nodes ==>
              th.pc.nxt in Linked(s, t).nodes && Linked(s, t).nodes[th.pc.nxt].data == s.nodes[th.pc.nxt].data
  {}

  lemma LinkedLog(s: State, t: Tid)
    requires LogOk(s) && PcEnabled(s, EnqLink(t)) && s.h < |s.vals|
    ensures LogOk(Linked(s, t))
  {
    var s' := Linked(s, t);
    assert s'.log[..|s'.log| - 1] == s.log;
    assert Contents(s') == Contents(s) + [s.threads[t].pc.v];
  }

  lemma LinkedData(s: State, t: Tid)
    requires ShapeOk(s) && DataOk(s) && PcEnabled(s, EnqLink(t)) && ThreadOk(s, t, s.threads[t], s.ebr.threads[t])
    ensures DataOk(Linked(s, t))
  {
    var s' := Linked(s, t);
    forall i | s'.h < i < |s'.chain| && i < |s'.vals| && s'.chain[i] in s'.nodes
      ensures s'.nodes[s'.chain[i]].data == s'.vals[i]
    {
      if i < |s.chain| { assert LinkOk(s.chain, s.nodes, i); }
    }
  }

  // A successful compare-exchange of the head takes the front.

  function Taken(s: State, t: Tid): State
    requires t in s.threads && s.threads[t].pc.DChecked? && s.h + 1 < |s.vals|
  {
    var pc := s.threads[t].pc;
    var e := Deq(t, s.vals[s.h + 1]);
    s.(threads := s.threads[t := s.threads[t].(pc := DTaken(pc.head, pc.hi, pc.nxt), lin := Some(e))],
       log := s.log + [e], head := pc.nxt, h := s.h + 1)
  }

  lemma DeqCasOk(s: State, t: Tid)
    requires Inv(s) && PcEnabled(s, DeqCas(t))
    ensures Inv(Take(s, t))
  {
    Knows(s, t);
    CasFacts(s, t);
    hide Inv;
    if s.head == s.threads[t].pc.head { TakenOk(s, t); } else { MovedKeeps(s, Move(s, t, DLoop), t); }
  }

  lemma CasFacts(s: State, t: Tid)
    requires ShapeOk(s) && PcEnabled(s, DeqCas(t)) && ThreadOk(s, t, s.threads[t], s.ebr.threads[t])
    ensures Moved(s, Move(s, t, DLoop), t)
    ensures s.head == s.threads[t].pc.head ==>
              s.threads[t].pc.hi == s.h && s.h < s.tl && s.h + 1 < |s.vals| && Take(s, t) == Taken(s, t)
  {
    if s.head == s.threads[t].pc.head { SamePosition(s, s.h, s.threads[t].pc.hi); }
  }

  lemma TakenOk(s: State, t: Tid)
    requires Inv(s) && PcEnabled(s, DeqCas(t)) && s.threads[t].pc.hi == s.h && s.h < s.tl
    ensures Inv(Taken(s, t))
  {
    Knows(s, t);
    TakenShape(s, t);
    TakenThreads(s, t);
    var s' := Taken(s, t);
    TakenPairs(s, t);
    PairsKept(s, s', t, s'.threads[t]);
    BeganKept(s, s');
    TakenLog(s, t);
    hide ShapeOk, DataOk, BeganOk, ThreadsOk, PairsOk, LogOk, ThreadOk, Ebr.Inv;
  }

  lemma TakenLog(s: State, t: Tid)
    requires LogOk(s) && t in s.threads && s.threads[t].pc.DChecked? && s.h + 1 < |s.vals|
    ensures LogOk(Taken(s, t))
  {
    var s' := Taken(s, t);
    assert s'.log[..|s'.log| - 1] == s.log;
    assert Contents(s') == Contents(s)[1..];
  }

  lemma TakenShape(s: State, t: Tid)
    requires ShapeOk(s) && DataOk(s) && EbrOk(s) && PcEnabled(s, DeqCas(t))
    requires ThreadOk(s, t, s.threads[t], s.ebr.threads[t]) && s.threads[t].pc.hi == s.h && s.h < s.tl
    ensures ShapeOk(Taken(s, t)) && DataOk(Taken(s, t)) && EbrOk(Taken(s, t))
  {
    hide Ebr.Inv;
  }

  lemma TakenPairs(s: State, t: Tid)
    requires PairsOk(s) && ThreadsOk(s) && EbrOk(s) && PcEnabled(s, DeqCas(t))
    requires s.threads[t].pc.hi == s.h && s.h + 1 < |s.vals|
    ensures NoNewClash(s, t, Taken(s, t).threads[t])
  {
    hide Ebr.Inv;
    var th' := Taken(s, t).threads[t];
    forall u | u in s.threads && u != t ensures !Clash(th', s.threads[u]) && !Clash(s.threads[u], th') {
      assert ThreadOk(s, u, s.threads[u], s.ebr.threads[u]);
    }
  }

  lemma TakenThreads(s: State, t: Tid)
    requires ShapeOk(s) && DataOk(s) && ThreadsOk(s) && BeganOk(s) && PcEnabled(s, DeqCas(t))
    requires s.threads[t].pc.hi == s.h && s.h < s.tl
    ensures ThreadsOk(Taken(s, t))
  {
    var s' := Taken(s, t);
    forall u | u in s'.threads && u in s'.ebr.threads ensures ThreadOk(s', u, s'.threads[u], s'.ebr.threads[u]) {
      if u != t { TakenThread(s, t, u); } else { TakenActor(s, t); }
    }
  }

  lemma TakenThread(s: State, t: Tid, u: Tid)
    requires ShapeOk(s) && ThreadsOk(s) && PcEnabled(s, DeqCas(t)) && s.h < s.tl && u != t && Here(s, u)
    ensures ThreadOk(Taken(s, t), u, s.threads[u], s.ebr.threads[u])
  {
    assert ThreadOk(s, u, s.threads[u], s.ebr.threads[u]);
    ThreadKept(s, Taken(s, t), u, s.threads[u], s.ebr.threads[u]);
  }

  /** The node behind head still holds the value at the front, and the old head is not yet retired. */
  lemma TakenActor(s: State, t: Tid)
    requires ShapeOk(s) && DataOk(s) && ThreadsOk(s) && BeganOk(s) && PcEnabled(s, DeqCas(t))
    requires s.threads[t].pc.hi == s.h && s.h < s.tl
    ensures ThreadOk(Taken(s, t), t, Taken(s, t).threads[t], s.ebr.threads[t])
  {
    assert ThreadOk(s, t, s.threads[t], s.ebr.threads[t]);
    assert LinkOk(s.chain, s.nodes, s.h + 1);
    assert s.pos[s.chain[s.h]] == s.h;
  }

  // Clearing the data of the new dummy.

  function DataCleared(s: State, t: Tid): State
    requires t in s.threads && s.threads[t].pc.DRead? && s.threads[t].pc.nxt in s.nodes
  {
    var pc := s.threads[t].pc;
    Move(s, t, DRetire(pc.head, pc.hi, pc.v)).(nodes := s.nodes[pc.nxt := s.nodes[pc.nxt].(data := 0)])
  }

  lemma DeqClearOk(s: State, t: Tid)
    requires Inv(s) && PcEnabled(s, DeqClear(t))
    ensures Inv(DataCleared(s, t))
  {
    Knows(s, t);
    ClearedShape(s, t);
    ClearedData(s, t);
    ClearedThreads(s, t);
    ClearedPairs(s, t);
    hide ShapeOk, DataOk, EbrOk, BeganOk, ThreadsOk, PairsOk, LogOk, ThreadOk, DataCleared;
  }

  lemma ClearedPairs(s: State, t: Tid)
    requires PairsOk(s) && BeganOk(s) && PcEnabled(s, DeqClear(t))
    ensures PairsOk(DataCleared(s, t)) && BeganOk(DataCleared(s, t))
  {
    var s' := DataCleared(s, t);
    SameHoldings(s, t, s'.threads[t]);
    PairsKept(s, s', t, s'.threads[t]);
    BeganKept(s, s');
  }

  lemma ClearedShape(s: State, t: Tid)
    requires ShapeOk(s) && EbrOk(s) && LogOk(s) && PcEnabled(s, DeqClear(t))
    ensures var s' := DataCleared(s, t); ShapeOk(s') && EbrOk(s') && LogOk(s')
  {
    hide Ebr.Inv;
    var s' := DataCleared(s, t);
    forall i | 0 <= i < |s.chain| ensures LinkOk(s'.chain, s'.nodes, i) { assert LinkOk(s.chain, s.nodes, i); }
  }

  lemma ClearedData(s: State, t: Tid)
    requires ShapeOk(s) && DataOk(s) && PcEnabled(s, DeqClear(t))
    requires ThreadOk(s, t, s.threads[t], s.ebr.threads[t])
    ensures DataOk(DataCleared(s, t))
  {
    var s' := DataCleared(s, t);
    var pc := s.threads[t].pc;
    forall i | s'.h < i < |s'.chain| && i < |s'.vals| && s'.chain[i] in s'.nodes
      ensures s'.nodes[s'.chain[i]].data == s'.vals[i]
    {
      assert s.pos[s.chain[i]] == i && s.pos[s.chain[pc.hi + 1]] == pc.hi + 1;
    }
  }

  lemma ClearedThreads(s: State, t: Tid)
    requires ShapeOk(s) && ThreadsOk(s) && PairsOk(s) && PcEnabled(s, DeqClear(t))
    ensures ThreadsOk(DataCleared(s, t))
  {
    var s' := DataCleared(s, t);
    assert ThreadOk(s, t, s.threads[t], s.ebr.threads[t]);
    forall u | u in s'.threads && u in s'.ebr.threads ensures ThreadOk(s', u, s'.threads[u], s'.ebr.threads[u]) {
      if u != t { ClearedThread(s, t, u); }
    }
  }

  /** Nobody else reads or owns the node: it is linked, and a second taker of it would clash. */
  lemma ClearedThread(s: State, t: Tid, u: Tid)
    requires ShapeOk(s) && ThreadsOk(s) && PairsOk(s) && PcEnabled(s, DeqClear(t)) && u != t && Here(s, u)
    ensures ThreadOk(DataCleared(s, t), u, s.threads[u], s.ebr.threads[u])
  {
    assert ThreadOk(s, t, s.threads[t], s.ebr.threads[t]);
    assert ThreadOk(s, u, s.threads[u], s.ebr.threads[u]);
    assert !Clash(s.threads[t], s.threads[u]);
    hide ThreadsOk, PairsOk;
    var pc, qc := s.threads[t].pc, s.threads[u].pc;
    if qc.DTaken? { OtherPosition(s, pc.hi + 1, qc.hi + 1); }
    ThreadKept(s, DataCleared(s, t), u, s.threads[u], s.ebr.threads[u]);
  }

  // ----- Steps of the reclaimer -----

  /** A step of t on its handle that starts no retirement. */
  lemma HandleKeeps(s: State, s': State, t: Tid, th': Thread)
    requires Inv(s) && s' == s.(ebr := s'.ebr, threads := s.threads[t := th'])
    requires Ebr.Inv(s'.ebr) && EbrKept(s.ebr, s'.ebr) && s'.ebr.began == s.ebr.began
    requires t in s'.ebr.threads && s'.ebr.threads == s.ebr.threads[t := s'.ebr.threads[t]]
    requires NoNewClash(s, t, th')
    requires ThreadOk(s', t, th', s'.ebr.threads[t])
    requires s'.ebr.threads[t].state.Active? ==> KeepsEntry(s, t, th', s'.ebr.threads[t]) || th'.h0 == s.h
    ensures Inv(s')
  {
    hide Ebr.Inv;
    PairsKept(s, s', t, th');
    HandleKeepsThreads(s, s', t, th');
    HandleKeepsBegan(s, s', t, th');
    HandleKeepsShape(s, s', t);
  }

  ghost predicate KeepsEntry(s: State, t: Tid, th': Thread, e': Ebr.Thread) {
    && t in s.threads && t in s.ebr.threads && s.ebr.threads[t].state.Active?
    && e'.enteredAt == s.ebr.threads[t].enteredAt && th'.h0 == s.threads[t].h0
  }

  lemma HandleKeepsShape(s: State, s': State, t: Tid)
    requires ShapeOk(s) && DataOk(s) && EbrOk(s) && LogOk(s)
    requires s' == s.(ebr := s'.ebr, threads := s'.threads)
    requires Ebr.Inv(s'.ebr) && EbrKept(s.ebr, s'.ebr)
    requires forall u :: u in s'.threads <==> u in s.threads || u == t
    requires forall u :: u in s'.ebr.threads <==> u in s.ebr.threads || u == t
    ensures ShapeOk(s') && DataOk(s') && EbrOk(s') && LogOk(s')
  {
    SameLists(s, s');
    hide Ebr.Inv, ShapeOk, DataOk, LogOk;
  }

  /** What the reclaimer and the threads' program counters have no part in. */
  lemma SameLists(s: State, s': State)
    requires ShapeOk(s) && DataOk(s) && LogOk(s) && s' == s.(ebr := s'.ebr, threads := s'.threads)
    ensures ShapeOk(s') && DataOk(s') && LogOk(s')
  {}

  lemma HandleKeepsThreads(s: State, s': State, t: Tid, th': Thread)
    requires ThreadsOk(s) && ShapeOk(s) && s' == s.(ebr := s'.ebr, threads := s.threads[t := th'])
    requires s'.ebr.began == s.ebr.began
    requires t in s'.ebr.threads && s'.ebr.threads == s.ebr.threads[t := s'.ebr.threads[t]]
    requires ThreadOk(s', t, th', s'.ebr.threads[t])
    ensures ThreadsOk(s')
  {
    forall u | u in s'.threads && u in s'.ebr.threads ensures ThreadOk(s', u, s'.threads[u], s'.ebr.threads[u]) {
      if u != t {
        assert ThreadOk(s, u, s.threads[u], s.ebr.threads[u]);
        ThreadKept(s, s', u, s.threads[u], s.ebr.threads[u]);
      }
    }
  }

  lemma HandleKeepsBegan(s: State, s': State, t: Tid, th': Thread)
    requires BeganOk(s) && s' == s.(ebr := s'.ebr, threads := s.threads[t := th'])
    requires s'.ebr.began == s.ebr.began
    requires t in s'.ebr.threads && s'.ebr.threads == s.ebr.threads[t := s'.ebr.threads[t]]
    requires s'.ebr.threads[t].state.Active? ==> KeepsEntry(s, t, th', s'.ebr.threads[t]) || th'.h0 == s.h
    ensures BeganOk(s')
  {
    forall p | p in s'.ebr.began ensures p in s'.pos && s'.pos[p] < s'.h && SeenGone(s', p) {
      assert SeenGone(s, p);
    }
  }

  /** A poll's or a registration's step. */
  lemma ReclaimerOk(s: State, e': Ebr.State)
    requires Inv(s) && Ebr.Inv(e') && EbrKept(s.ebr, e')
    requires e'.threads == s.ebr.threads && e'.began == s.ebr.began
    ensures Inv(s.(ebr := e'))
  {
    hide Ebr.Inv;
    var s' := s.(ebr := e');
    ReclaimerThreads(s, e');
    forall p | p in s'.ebr.began ensures p in s'.pos && s'.pos[p] < s'.h && SeenGone(s', p) {
      assert SeenGone(s, p);
    }
    ReclaimerShape(s, e');
  }

  lemma ReclaimerShape(s: State, e': Ebr.State)
    requires ShapeOk(s) && DataOk(s) && EbrOk(s) && LogOk(s) && PairsOk(s)
    requires Ebr.Inv(e') && EbrKept(s.ebr, e') && e'.threads == s.ebr.threads
    ensures var s' := s.(ebr := e'); ShapeOk(s') && DataOk(s') && EbrOk(s') && LogOk(s') && PairsOk(s')
  {
    hide Ebr.Inv;
  }

  lemma ReclaimerThreads(s: State, e': Ebr.State)
    requires ThreadsOk(s) && ShapeOk(s) && e'.threads == s.ebr.threads && e'.began == s.ebr.began
    ensures ThreadsOk(s.(ebr := e'))
  {
    var s' := s.(ebr := e');
    forall u | u in s'.threads && u in s'.ebr.threads ensures ThreadOk(s', u, s'.threads[u], s'.ebr.threads[u]) {
      assert ThreadOk(s, u, s.threads[u], s.ebr.threads[u]);
      ThreadKept(s, s', u, s.threads[u], s.ebr.threads[u]);
    }
  }

  /** Retiring the old head: it was unlinked before, so a section that begins later begins behind it. */
  lemma DeqRetireOk(s: State, t: Tid, e': Ebr.State, s': State)
    requires PcEnabled(s, DeqRetire(t)) && EbrKept(s.ebr, e')
    requires var head := s.threads[t].pc.head;
             && e'.threads == s.ebr.threads[t := s.ebr.threads[t].(pc := Ebr.Allocated(head))]
             && e'.began == s.ebr.began[head := s.ebr.clock]
    requires var pc := s.threads[t].pc; s' == Move(s, t, DRetiring(pc.head, pc.hi, pc.v)).(ebr := e')
    requires Inv(s) && Ebr.Inv(e')
    ensures Inv(s')
  {
    hide Ebr.Inv;
    Knows(s, t);
    var pc := s.threads[t].pc;
    var th' := s.threads[t].(pc := DRetiring(pc.head, pc.hi, pc.v));
    SameHoldings(s, t, th');
    PairsKept(s, s', t, th');
    RetireThreads(s, s', t, th');
    RetireBegan(s, s', t, th');
    HandleKeepsShape(s, s', t);
  }

  lemma RetireThreads(s: State, s': State, t: Tid, th': Thread)
    requires ThreadsOk(s) && ShapeOk(s) && PairsOk(s) && Here(s, t) && s.threads[t].pc.DRetire?
    requires s' == s.(ebr := s'.ebr, threads := s.threads[t := th'])
    requires th' == s.threads[t].(pc := DRetiring(s.threads[t].pc.head, s.threads[t].pc.hi, s.threads[t].pc.v))
    requires s'.ebr.threads == s.ebr.threads[t := s.ebr.threads[t].(pc := Ebr.Allocated(s.threads[t].pc.head))]
    requires s'.ebr.began == s.ebr.began[s.threads[t].pc.head := s.ebr.clock]
    ensures ThreadsOk(s')
  {
    assert ThreadOk(s, t, s.threads[t], s.ebr.threads[t]);
    forall u | u in s'.threads && u in s'.ebr.threads ensures ThreadOk(s', u, s'.threads[u], s'.ebr.threads[u]) {
      if u != t { RetireThread(s, s', t, u); }
    }
  }

  lemma RetireThread(s: State, s': State, t: Tid, u: Tid)
    requires ThreadsOk(s) && ShapeOk(s) && PairsOk(s) && Here(s, t) && s.threads[t].pc.DRetire? && u != t && Here(s, u)
    requires s' == s.(ebr := s'.ebr, threads := s'.threads)
    requires s'.ebr.began == s.ebr.began[s.threads[t].pc.head := s.ebr.clock]
    ensures ThreadOk(s', u, s.threads[u], s.ebr.threads[u])
  {
    assert ThreadOk(s, u, s.threads[u], s.ebr.threads[u]);
    RetiresOther(s, t, u);
    hide ThreadsOk, PairsOk, ThreadOk;
    OwnNodeKept(s, u);
    ThreadKept(s, s', u, s.threads[u], s.ebr.threads[u]);
  }

  /** Of two threads that have taken a head off, each has its own. */
  lemma RetiresOther(s: State, t: Tid, u: Tid)
    requires ThreadsOk(s) && ShapeOk(s) && PairsOk(s) && Here(s, t) && s.threads[t].pc.DRetire? && u != t && Here(s, u)
    ensures HasHead(s.threads[u].pc) ==> s.threads[u].pc.head != s.threads[t].pc.head && s.threads[u].pc.head !in s.ebr.began
  {
    assert ThreadOk(s, t, s.threads[t], s.ebr.threads[t]);
    assert ThreadOk(s, u, s.threads[u], s.ebr.threads[u]);
    assert !Clash(s.threads[t], s.threads[u]);
    if HasHead(s.threads[u].pc) && s.threads[u].pc.head == s.threads[t].pc.head {
      SamePosition(s, s.threads[u].pc.hi, s.threads[t].pc.hi);
    }
  }

  lemma OwnNodeKept(s: State, u: Tid)
    requires Here(s, u) && ThreadOk(s, u, s.threads[u], s.ebr.threads[u])
    ensures HasNode(s.threads[u].pc) ==> Private(s, s.threads[u].pc.n, s.threads[u].pc.v)
    ensures s.threads[u].pc.DTaken? ==> s.threads[u].pc.nxt in s.nodes
    ensures |s.chain| == |s.vals| && s.h < |s.chain|
  {}

  lemma RetireBegan(s: State, s': State, t: Tid, th': Thread)
    requires Inv(s) && Here(s, t) && s.threads[t].pc.DRetire?
    requires s' == s.(ebr := s'.ebr, threads := s.threads[t := th']) && th'.h0 == s.threads[t].h0
    requires t in s'.ebr.threads && s'.ebr.threads == s.ebr.threads[t := s.ebr.threads[t].(pc := s'.ebr.threads[t].pc)]
    requires s'.ebr.began == s.ebr.began[s.threads[t].pc.head := s.ebr.clock]
    ensures BeganOk(s')
  {
    RetiredIsBehind(s, t);
    hide Inv, SeenGone;
    forall p | p in s'.ebr.began ensures p in s'.pos && s'.pos[p] < s'.h && SeenGone(s', p) {
      if p == s.threads[t].pc.head { JustRetired(s, s', t, p); } else { RetiredBefore(s, s', t, p); }
    }
  }

  lemma RetiredIsBehind(s: State, t: Tid)
    requires Inv(s) && Here(s, t) && s.threads[t].pc.DRetire?
    ensures s.threads[t].pc.head in s.pos && s.pos[s.threads[t].pc.head] < s.h
    ensures Ebr.SectionsOk(s.ebr) && BeganOk(s)
  {
    Knows(s, t);
    assert s.pos[s.chain[s.threads[t].pc.hi]] == s.threads[t].pc.hi;
  }

  /** Every section open now began before the retirement that begins now. */
  lemma JustRetired(s: State, s': State, t: Tid, p: Ptr)
    requires Ebr.SectionsOk(s.ebr) && p in s'.ebr.began && p in s'.pos && s'.ebr.began[p] == s.ebr.clock && t in s.ebr.threads
    requires t in s'.ebr.threads && s'.ebr.threads == s.ebr.threads[t := s.ebr.threads[t].(pc := s'.ebr.threads[t].pc)]
    ensures SeenGone(s', p)
  {}

  lemma RetiredBefore(s: State, s': State, t: Tid, p: Ptr)
    requires BeganOk(s) && p in s.ebr.began && Here(s, t) && t in s'.threads && t in s'.ebr.threads
    requires s' == s.(ebr := s'.ebr, threads := s.threads[t := s'.threads[t]]) && s'.threads[t].h0 == s.threads[t].h0
    requires s'.ebr.threads == s.ebr.threads[t := s.ebr.threads[t].(pc := s'.ebr.threads[t].pc)]
    requires p in s'.ebr.began && s'.ebr.began[p] == s.ebr.began[p]
    ensures p in s'.pos && s'.pos[p] < s'.h && SeenGone(s', p)
  {
    assert SeenGone(s, p);
  }

  /** Freeing the old head at once leaves the same knowledge: that nobody may use it is another matter. */
  lemma DeqNoMemoryOk(s: State, t: Tid, e': Ebr.State, s': State)
    requires PcEnabled(s, DeqNoMemory(t)) && EbrKept(s.ebr, e')
    requires e'.threads == s.ebr.threads && e'.began == s.ebr.began[s.threads[t].pc.head := s.ebr.clock]
    requires s' == Move(s, t, DExit(Some(s.threads[t].pc.v))).(ebr := e')
    requires Inv(s) && Ebr.Inv(e')
    ensures Inv(s')
  {
    hide Ebr.Inv;
    Knows(s, t);
    var th' := s.threads[t].(pc := DExit(Some(s.threads[t].pc.v)));
    assert s.ebr.threads[t := s.ebr.threads[t].(pc := s.ebr.threads[t].pc)] == s.ebr.threads;
    SameHoldings(s, t, th');
    PairsKept(s, s', t, th');
    DropThreads(s, s', t, th');
    RetireBegan(s, s', t, th');
    HandleKeepsShape(s, s', t);
  }

  lemma DropThreads(s: State, s': State, t: Tid, th': Thread)
    requires ThreadsOk(s) && ShapeOk(s) && PairsOk(s) && Here(s, t) && s.threads[t].pc.DRetire?
    requires s' == s.(ebr := s'.ebr, threads := s.threads[t := th']) && s'.ebr.threads == s.ebr.threads
    requires th' == s.threads[t].(pc := DExit(Some(s.threads[t].pc.v)))
    requires s'.ebr.began == s.ebr.began[s.threads[t].pc.head := s.ebr.clock]
    ensures ThreadsOk(s')
  {
    assert ThreadOk(s, t, s.threads[t], s.ebr.threads[t]);
    forall u | u in s'.threads && u in s'.ebr.threads ensures ThreadOk(s', u, s'.threads[u], s'.ebr.threads[u]) {
      if u != t { RetireThread(s, s', t, u); }
    }
  }

  // ----- Every step -----

  predicate EnqueueKind(a: Action) {
    a.EnqStart? || a.EnqLoadTail? || a.EnqLoadNext? || a.EnqDecide? || a.EnqLink? || a.EnqSwing?
  }

  predicate DequeueKind(a: Action) {
    || a.DeqStart? || a.DeqLoadHead? || a.DeqLoadTail? || a.DeqLoadNext? || a.DeqDecide? || a.DeqCas? || a.DeqRead?
    || a.DeqClear?
  }

  lemma QueueOnly(s: State, a: Action)
    requires Enabled(s, a) && (EnqueueKind(a) || DequeueKind(a))
    ensures Apply(s, a) == QueuePart(s, a, s.ebr)
  {
    if EnqueueKind(a) { EnqueueKeepsEbr(s, a); } else { DequeueKeepsEbr(s, a); }
  }

  lemma EnqueueKeepsEbr(s: State, a: Action)
    requires PcEnabled(s, a) && EnqueueKind(a)
    ensures QueuePart(s, a, s.ebr).ebr == s.ebr
  {}

  lemma DequeueKeepsEbr(s: State, a: Action)
    requires PcEnabled(s, a) && DequeueKind(a)
    ensures QueuePart(s, a, s.ebr).ebr == s.ebr
  {}

  lemma EnqueueStep(s: State, a: Action)
    requires Inv(s) && PcEnabled(s, a) && (a.EnqStart? || a.EnqLoadTail? || a.EnqLoadNext?)
    ensures Inv(QueuePart(s, a, s.ebr))
  {
    hide Inv;
    match a
    case EnqStart(t, v, n) => EnqStartOk(s, t, v, n);
    case EnqLoadTail(t) => EnqLoadTailOk(s, t);
    case EnqLoadNext(t) => EnqLoadNextOk(s, t);
  }

  lemma EnqueueCasStep(s: State, a: Action)
    requires Inv(s) && PcEnabled(s, a) && (a.EnqDecide? || a.EnqLink? || a.EnqSwing?)
    ensures Inv(QueuePart(s, a, s.ebr))
  {
    hide Inv;
    match a
    case EnqDecide(t) => EnqDecideOk(s, t);
    case EnqLink(t) => EnqLinkOk(s, t);
    case EnqSwing(t) => EnqSwingOk(s, t);
  }

  lemma DequeueStep(s: State, a: Action)
    requires Inv(s) && PcEnabled(s, a) && (a.DeqStart? || a.DeqLoadHead? || a.DeqLoadTail? || a.DeqLoadNext?)
    ensures Inv(QueuePart(s, a, s.ebr))
  {
    hide Inv;
    match a
    case DeqStart(t) => DeqStartOk(s, t);
    case DeqLoadHead(t) => DeqLoadHeadOk(s, t);
    case DeqLoadTail(t) => DeqLoadTailOk(s, t);
    case DeqLoadNext(t) => DeqLoadNextOk(s, t);
  }

  lemma DequeueCasStep(s: State, a: Action)
    requires Inv(s) && PcEnabled(s, a) && (a.DeqDecide? || a.DeqCas? || a.DeqRead? || a.DeqClear?)
    ensures Inv(QueuePart(s, a, s.ebr))
  {
    hide Inv;
    match a
    case DeqDecide(t) => DeqDecideOk(s, t);
    case DeqCas(t) => DeqCasOk(s, t);
    case DeqRead(t) => DeqReadOk(s, t);
    case DeqClear(t) => DeqClearOk(s, t);
  }

  lemma QueueStep(s: State, a: Action)
    requires Inv(s) && PcEnabled(s, a) && (EnqueueKind(a) || DequeueKind(a))
    ensures Inv(QueuePart(s, a, s.ebr))
  {
    hide Inv;
    if a.EnqStart? || a.EnqLoadTail? || a.EnqLoadNext? { EnqueueStep(s, a); }
    else if EnqueueKind(a) { EnqueueCasStep(s, a); }
    else if a.DeqStart? || a.DeqLoadHead? || a.DeqLoadTail? || a.DeqLoadNext? { DequeueStep(s, a); }
    else { DequeueCasStep(s, a); }
  }

  lemma ReclaimerStep(s: State, a: Action)
    requires Inv(s) && Enabled(s, a) && a.Reclaimer?
    ensures Inv(Apply(s, a))
  {
    hide ShapeOk, DataOk, BeganOk, ThreadsOk, PairsOk, LogOk, Ebr.Inv;
    EbrAfterOk(s, a);
    Ebr.GlobalStepEffect(s.ebr, a.a);
    ReclaimerOk(s, EbrAfter(s, a));
  }

  lemma AttachStep(s: State, t: Tid)
    requires Inv(s) && Enabled(s, Attach(t))
    ensures Inv(Apply(s, Attach(t)))
  {
    hide ShapeOk, DataOk, BeganOk, PairsOk, LogOk, Ebr.Inv;
    EbrAfterOk(s, Attach(t));
    Ebr.HandleStepEffect(s.ebr, Ebr.RegisterInsert(t), t);
    Ebr.RegisterInsertEffect(s.ebr, t);
    AttachedOk(s, t, EbrAfter(s, Attach(t)));
  }

  lemma AttachedOk(s: State, t: Tid, e': Ebr.State)
    requires Inv(s) && t !in s.threads
    requires Ebr.Inv(e') && EbrKept(s.ebr, e') && e'.began == s.ebr.began
    requires t in e'.threads && e'.threads == s.ebr.threads[t := e'.threads[t]]
    requires e'.threads[t].state.Inactive? && e'.threads[t].pc.Idle?
    ensures Inv(s.(threads := s.threads[t := Thread(Ready, None, 0)], ebr := e'))
  {
    hide Ebr.Inv;
    var th' := Thread(Ready, None, 0);
    HandleKeeps(s, s.(ebr := e', threads := s.threads[t := th']), t, th');
  }

  lemma DetachStep(s: State, t: Tid)
    requires Inv(s) && Enabled(s, Detach(t))
    ensures Inv(Apply(s, Detach(t)))
  {
    hide ShapeOk, DataOk, BeganOk, PairsOk, LogOk, Ebr.Inv;
    EbrAfterOk(s, Detach(t));
    Ebr.HandleStepEffect(s.ebr, Ebr.Unregister(t), t);
    Ebr.UnregisterEffect(s.ebr, t);
    SameThread(s, t, EbrAfter(s, Detach(t)));
  }

  lemma EnterLoadStep(s: State, t: Tid)
    requires Inv(s) && Enabled(s, EnterLoad(t))
    ensures Inv(Apply(s, EnterLoad(t)))
  {
    hide ShapeOk, DataOk, BeganOk, PairsOk, LogOk, Ebr.Inv;
    EbrAfterOk(s, EnterLoad(t));
    Ebr.HandleStepEffect(s.ebr, Ebr.EnterLoad(t), t);
    Ebr.EnterLoadEffect(s.ebr, t);
    SameThread(s, t, EbrAfter(s, EnterLoad(t)));
  }

  /** The queue's thread stays where it is while its handle changes outside a section. */
  lemma SameThread(s: State, t: Tid, e': Ebr.State)
    requires Inv(s) && Here(s, t)
    requires s.threads[t].pc.Ready? || s.threads[t].pc.EEntering? || s.threads[t].pc.DEntering?
    requires Ebr.Inv(e') && EbrKept(s.ebr, e') && e'.began == s.ebr.began
    requires t in e'.threads && e'.threads == s.ebr.threads[t := e'.threads[t]]
    requires s.threads[t].pc.Ready? ==> !e'.threads[t].state.Active? && e'.threads[t].pc.Idle?
    requires !s.threads[t].pc.Ready? ==> Entering(e'.threads[t])
    ensures Inv(s.(ebr := e'))
  {
    hide Ebr.Inv;
    Knows(s, t);
    var s' := s.(ebr := e');
    assert s.threads[t := s.threads[t]] == s.threads;
    SameHoldings(s, t, s.threads[t]);
    HandleKeeps(s, s', t, s.threads[t]);
  }

  lemma EnterCasStep(s: State, t: Tid)
    requires Inv(s) && Enabled(s, EnterCas(t))
    ensures Inv(Apply(s, EnterCas(t)))
  {
    hide ShapeOk, DataOk, BeganOk, PairsOk, LogOk, Ebr.Inv;
    Knows(s, t);
    EbrAfterOk(s, EnterCas(t));
    Ebr.HandleStepEffect(s.ebr, Ebr.EnterCas(t, false), t);
    Ebr.EnterCasEffect(s.ebr, t);
    EnteredOk(s, t, EbrAfter(s, EnterCas(t)));
  }

  lemma EnteredOk(s: State, t: Tid, e': Ebr.State)
    requires Inv(s) && PcEnabled(s, EnterCas(t))
    requires Ebr.Inv(e') && EbrKept(s.ebr, e') && e'.began == s.ebr.began
    requires t in e'.threads && e'.threads == s.ebr.threads[t := e'.threads[t]]
    requires InSection(e'.threads[t])
    ensures Inv(Entered(s, t).(ebr := e'))
  {
    hide Ebr.Inv;
    Knows(s, t);
    var s' := Entered(s, t).(ebr := e');
    SameHoldings(s, t, s'.threads[t]);
    HandleKeeps(s, s', t, s'.threads[t]);
  }

  lemma ReturnStep(s: State, t: Tid)
    requires Inv(s) && Enabled(s, Return(t))
    ensures Inv(Apply(s, Return(t)))
  {
    hide ShapeOk, DataOk, BeganOk, PairsOk, LogOk, Ebr.Inv;
    Knows(s, t);
    EbrAfterOk(s, Return(t));
    Ebr.HandleStepEffect(s.ebr, Ebr.Exit(t), t);
    Ebr.ExitEffect(s.ebr, t);
    MovedOk(s, t, Ready, EbrAfter(s, Return(t)));
  }

  lemma MovedOk(s: State, t: Tid, pc: Pc, e': Ebr.State)
    requires Inv(s) && Here(s, t) && !HasNode(pc) && !HasHead(pc)
    requires Ebr.Inv(e') && EbrKept(s.ebr, e') && e'.began == s.ebr.began
    requires t in e'.threads && e'.threads == s.ebr.threads[t := e'.threads[t]]
    requires e'.threads[t].state.Active? ==>
               s.ebr.threads[t].state.Active? && e'.threads[t].enteredAt == s.ebr.threads[t].enteredAt
    requires ThreadOk(Move(s, t, pc).(ebr := e'), t, s.threads[t].(pc := pc), e'.threads[t])
    ensures Inv(Move(s, t, pc).(ebr := e'))
  {
    hide Ebr.Inv;
    var th' := s.threads[t].(pc := pc);
    SameHoldings(s, t, th');
    HandleKeeps(s, Move(s, t, pc).(ebr := e'), t, th');
  }

  lemma DeqRetireStepOk(s: State, t: Tid)
    requires Inv(s) && Enabled(s, DeqRetireStep(t))
    ensures Inv(Apply(s, DeqRetireStep(t)))
  {
    hide ShapeOk, DataOk, BeganOk, PairsOk, LogOk, Ebr.Inv;
    Knows(s, t);
    var a := RetireStep(s, t);
    EbrAfterOk(s, DeqRetireStep(t));
    Ebr.HandleStepEffect(s.ebr, a, t);
    Ebr.RetireStepEffect(s.ebr, a, t);
    var e' := EbrAfter(s, DeqRetireStep(t));
    if e'.threads[t].pc.Idle? { DoneRetiring(s, t, e'); } else { StillRetiring(s, t, e'); }
  }

  lemma DoneRetiring(s: State, t: Tid, e': Ebr.State)
    requires Inv(s) && PcEnabled(s, DeqRetireStep(t))
    requires Ebr.Inv(e') && EbrKept(s.ebr, e') && e'.began == s.ebr.began
    requires t in e'.threads && e'.threads == s.ebr.threads[t := e'.threads[t]]
    requires e'.threads[t].pc.Idle? && e'.threads[t] == s.ebr.threads[t].(pc := Ebr.Idle)
    ensures Inv(Move(s, t, DExit(Some(s.threads[t].pc.v))).(ebr := e'))
  {
    hide Ebr.Inv;
    Knows(s, t);
    DoneRetiringThread(s, t, e', DExit(Some(s.threads[t].pc.v)));
    MovedOk(s, t, DExit(Some(s.threads[t].pc.v)), e');
  }

  lemma DoneRetiringThread(s: State, t: Tid, e': Ebr.State, pc: Pc)
    requires Here(s, t) && s.threads[t].pc.DRetiring? && pc == DExit(Some(s.threads[t].pc.v))
    requires ThreadOk(s, t, s.threads[t], s.ebr.threads[t])
    requires t in e'.threads && e'.threads[t] == s.ebr.threads[t].(pc := Ebr.Idle)
    ensures ThreadOk(Move(s, t, pc).(ebr := e'), t, s.threads[t].(pc := pc), e'.threads[t])
  {}

  lemma StillRetiring(s: State, t: Tid, e': Ebr.State)
    requires Inv(s) && PcEnabled(s, DeqRetireStep(t))
    requires Ebr.Inv(e') && EbrKept(s.ebr, e') && e'.began == s.ebr.began
    requires t in e'.threads && e'.threads == s.ebr.threads[t := e'.threads[t]]
    requires var th, th' := s.ebr.threads[t], e'.threads[t];
             th' == th.(pc := th'.pc) && Ebr.Retiring(th'.pc) && Ebr.Retiring(th.pc) && th'.pc.ptr == th.pc.ptr
    ensures Inv(s.(ebr := e'))
  {
    hide Ebr.Inv;
    Knows(s, t);
    assert s.threads[t := s.threads[t].(pc := s.threads[t].pc)] == s.threads;
    MovedOk(s, t, s.threads[t].pc, e');
  }

  lemma DeqRetireStart(s: State, t: Tid)
    requires Inv(s) && Enabled(s, DeqRetire(t))
    ensures Inv(Apply(s, DeqRetire(t)))
  {
    hide ShapeOk, DataOk, BeganOk, PairsOk, LogOk, Ebr.Inv;
    EbrAfterOk(s, DeqRetire(t));
    Ebr.RetireAllocEffect(s.ebr, t, s.threads[t].pc.head);
    DeqRetireOk(s, t, EbrAfter(s, DeqRetire(t)), Apply(s, DeqRetire(t)));
  }

  lemma DeqNoMemoryStep(s: State, t: Tid)
    requires Inv(s) && Enabled(s, DeqNoMemory(t))
    ensures Inv(Apply(s, DeqNoMemory(t)))
  {
    hide ShapeOk, DataOk, BeganOk, PairsOk, LogOk, Ebr.Inv;
    EbrAfterOk(s, DeqNoMemory(t));
    Ebr.RetireNoMemoryEffect(s.ebr, t, s.threads[t].pc.head);
    DeqNoMemoryOk(s, t, EbrAfter(s, DeqNoMemory(t)), Apply(s, DeqNoMemory(t)));
  }

  lemma HandleStep(s: State, a: Action)
    requires Inv(s) && Enabled(s, a) && (a.Attach? || a.Detach? || a.EnterLoad? || a.EnterCas? || a.Return?)
    ensures Inv(Apply(s, a))
  {
    hide Inv;
    match a
    case Attach(t) => AttachStep(s, t);
    case Detach(t) => DetachStep(s, t);
    case EnterLoad(t) => EnterLoadStep(s, t);
    case EnterCas(t) => EnterCasStep(s, t);
    case Return(t) => ReturnStep(s, t);
  }

  lemma InvStep(s: State, a: Action)
    requires Inv(s) && Enabled(s, a)
    ensures Inv(Apply(s, a))
  {
    hide Inv;
    if EnqueueKind(a) || DequeueKind(a) {
      QueueOnly(s, a);
      QueueStep(s, a);
    } else if a.Reclaimer? {
      ReclaimerStep(s, a);
    } else if a.DeqRetire? {
      DeqRetireStart(s, a.t);
    } else if a.DeqRetireStep? {
      DeqRetireStepOk(s, a.t);
    } else if a.DeqNoMemory? {
      DeqNoMemoryStep(s, a.t);
    } else {
      HandleStep(s, a);
    }
  }
}
