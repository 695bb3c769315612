/** Where the memory safety of the lock-free queue ends: a run in which a retirement finds no memory and another
  * thread then follows the freed head. */
module LockFreeQueueLimits {
  import opened Common
  import opened LockFreeQueue
  import opened LockFreeQueueProof
  import opened LockFreeQueueTheorems
  import opened LockFreeQueueMemory
  import Ebr

  ghost predicate Reachable(s: State) {
    exists run, acts :: IsRun(run, acts) && run[|acts|] == s
  }

  /** Threads 0 and 1 are attached, and the reclaimer is up. */
  ghost predicate Up(s: State) {
    && !s.ebr.destroyed && !s.ebr.inactive && |s.ebr.lists| == Ebr.NUM_EPOCHS
    && 0 in s.threads && 0 in s.ebr.threads && 1 in s.threads && 1 in s.ebr.threads
  }

  ghost predicate Outside(s: State, t: Tid) {
    t in s.threads && t in s.ebr.threads && s.threads[t].pc.Ready? && s.ebr.threads[t].state.Inactive? && s.ebr.threads[t].pc.Idle?
  }

  ghost predicate Inside(s: State, t: Tid, pc: Pc) {
    t in s.threads && t in s.ebr.threads && s.threads[t].pc == pc && InSection(s.ebr.threads[t])
  }

  ghost predicate Untouched(s: State, s': State, t: Tid) {
    t in s.threads && t in s.ebr.threads && t in s'.threads && t in s'.ebr.threads
    && s'.threads[t] == s.threads[t] && s'.ebr.threads[t] == s.ebr.threads[t]
  }

  /** The fields of the queue that all threads share. */
  ghost predicate SameQueue(s: State, s': State) {
    s'.nodes == s.nodes && s'.head == s.head && s'.tail == s.tail && s'.ebr.began == s.ebr.began
  }

  lemma Then(s: State, a: Action) returns (s': State)
    requires Reachable(s) && Enabled(s, a)
    ensures s' == Apply(s, a) && Reachable(s')
  {
    s' := Apply(s, a);
    var run, acts :| IsRun(run, acts) && run[|acts|] == s;
    var run', acts' := run + [s'], acts + [a];
    forall i | 0 <= i < |acts'| ensures StepsTo(run', acts', i) {
      if i < |acts| { assert StepsTo(run, acts, i); }
    }
    assert IsRun(run', acts') && run'[|acts'|] == s';
  }

  /** A step of one of the two threads. */
  lemma Does(s: State, a: Action, t: Tid, other: Tid) returns (s': State)
    requires Reachable(s) && Up(s) && Enabled(s, a) && Actor(a) == Some(t) && other != t && other in {0, 1}
    requires !a.Attach? && !a.Detach?
    ensures s' == Apply(s, a) && Reachable(s') && Up(s') && Untouched(s, s', other)
  {
    hide Reachable;
    s' := Then(s, a);
    OthersKept(s, a, EbrAfter(s, a), other);
    AppliedFields(s, a);
    StaysUp(s, a);
  }

  lemma StaysUp(s: State, a: Action)
    requires Up(s) && Enabled(s, a) && Actor(a).Some? && !a.Attach? && !a.Detach?
    ensures Up(Apply(s, a))
    ensures forall u :: u in s.ebr.threads && u != a.t ==> u in Apply(s, a).ebr.threads && Apply(s, a).ebr.threads[u] == s.ebr.threads[u]
  {
    AppliedFields(s, a);
    StaysThere(s, a, EbrAfter(s, a));
    if EbrPart(s, a).Some? {
      PartKind(s, a);
      Ebr.FlagsKept(s.ebr, EbrPart(s, a).value);
      PartKeeps(s, EbrPart(s, a).value, a.t);
    }
  }

  lemma StaysThere(s: State, a: Action, e: Ebr.State)
    requires PcEnabled(s, a) && 0 in s.threads && 1 in s.threads
    ensures 0 in QueuePart(s, a, e).threads && 1 in QueuePart(s, a, e).threads
  {
    if Actor(a) != Some(0) { OthersKept(s, a, e, 0); }
    if Actor(a) != Some(1) { OthersKept(s, a, e, 1); }
    if Actor(a).Some? { ActorStays(s, a, e); }
  }

  lemma ActorStays(s: State, a: Action, e: Ebr.State)
    requires PcEnabled(s, a) && !a.Reclaimer?
    ensures a.t in QueuePart(s, a, e).threads
  {
    if !a.Attach? && !Starts(a, a.t) && a != Return(a.t) && !a.Detach? { OperationKept(s, a, e, a.t); }
  }

  lemma PartKeeps(s: State, e: Ebr.Action, t: Tid)
    requires Up(s) && Ebr.Enabled(s.ebr, e) && Ebr.Actor(e) == Some(t) && !e.RegisterInsert? && !e.RegisterLock? && !e.RegisterUnlock?
    ensures |Ebr.Apply(s.ebr, e).lists| == Ebr.NUM_EPOCHS
    ensures forall u :: u in s.ebr.threads ==> u in Ebr.Apply(s.ebr, e).threads
    ensures forall u :: u in s.ebr.threads && u != t ==> Ebr.Apply(s.ebr, e).threads[u] == s.ebr.threads[u]
  {
    Ebr.KeysKept(s.ebr, e);
    Ebr.OthersKept(s.ebr, e);
  }

  // ----- Two threads, attached -----

  const START: State :=
    State(Ebr.State(0, map[], [], Ebr.Unlocked, [[], [], []], Ebr.Off, false, false, 0, map[], {}, multiset{}, {}),
          map[0 := Node(None, 0)], 0, 0, map[], [0], [0], map[0 := 0], 0, 0, [])

  lemma Attaches(s: State, t: Tid) returns (s': State)
    requires Reachable(s) && !s.ebr.destroyed && |s.ebr.lists| == Ebr.NUM_EPOCHS && s.ebr.mutex.Unlocked?
    requires t !in s.threads && t !in s.ebr.threads
    ensures Reachable(s') && Outside(s', t)
    ensures s' == s.(threads := s'.threads, ebr := s.ebr.(threads := s'.ebr.threads, registry := s'.ebr.registry))
    ensures s'.threads == s.threads[t := s'.threads[t]] && s'.ebr.threads == s.ebr.threads[t := s'.ebr.threads[t]]
  {
    var s1 := Then(s, Reclaimer(Ebr.RegisterLock(t)));
    var s2 := Then(s1, Attach(t));
    s' := Then(s2, Reclaimer(Ebr.RegisterUnlock(t)));
  }

  lemma BothAttached() returns (s: State)
    ensures Reachable(s) && Up(s) && Outside(s, 0) && Outside(s, 1) && SameQueue(START, s)
  {
    var run: seq<State>, acts: seq<Action> := [START], [];
    assert IsRun(run, acts) && run[|acts|] == START;
    assert Reachable(START);
    hide Reachable;
    var s1 := Attaches(START, 0);
    s := Attaches(s1, 1);
  }

  // ----- Stretches of one thread's steps -----

  /** The rest of clog_ebr_enter, for a thread that has begun an operation. */
  lemma EntersSection(s: State, t: Tid, other: Tid) returns (s': State)
    requires Reachable(s) && Up(s) && Here(s, t) && other != t && other in {0, 1}
    requires (s.threads[t].pc.EEntering? || s.threads[t].pc.DEntering?)
    requires s.ebr.threads[t].state.Inactive? && s.ebr.threads[t].pc.Idle?
    ensures Reachable(s') && Up(s') && Untouched(s, s', other) && SameQueue(s, s')
    ensures Inside(s', t, Entered(s, t).threads[t].pc)
  {
    hide Reachable;
    var s1 := Does(s, EnterLoad(t), t, other);
    LoadedEpoch(s, t, s1);
    hide Apply;
    s' := Does(s1, EnterCas(t), t, other);
    EnteredSection(s1, t, s');
  }

  lemma LoadedEpoch(s: State, t: Tid, s': State)
    requires Enabled(s, EnterLoad(t)) && s' == Apply(s, EnterLoad(t))
    ensures s' == s.(ebr := s'.ebr) && s'.ebr.began == s.ebr.began && t in s'.ebr.threads
    ensures s'.ebr.threads[t] == s.ebr.threads[t].(epoch := s.ebr.epoch, pc := Ebr.Entering)
  {
    AppliedFields(s, EnterLoad(t));
    Ebr.HandleStepEffect(s.ebr, Ebr.EnterLoad(t), t);
    Ebr.EnterLoadEffect(s.ebr, t);
  }

  lemma EnteredSection(s: State, t: Tid, s': State)
    requires Enabled(s, EnterCas(t)) && s' == Apply(s, EnterCas(t))
    requires s.ebr.threads[t].state.Inactive? && !s.ebr.inactive
    ensures SameQueue(s, s') && Inside(s', t, Entered(s, t).threads[t].pc)
  {
    AppliedFields(s, EnterCas(t));
    Ebr.HandleStepEffect(s.ebr, Ebr.EnterCas(t, false), t);
    Ebr.EnterCasEffect(s.ebr, t);
  }

  lemma StartsOperation(s: State, a: Action, t: Tid, other: Tid) returns (s': State)
    requires Reachable(s) && Up(s) && Outside(s, t) && other != t && other in {0, 1} && t in {0, 1}
    requires a == DeqStart(t) || (a.EnqStart? && a.t == t && a.n !in s.nodes)
    ensures Reachable(s') && Up(s') && Untouched(s, s', other)
    ensures s'.head == s.head && s'.tail == s.tail && s'.ebr.began == s.ebr.began
    ensures s'.nodes == if a.EnqStart? then s.nodes[a.n := Node(None, a.v)] else s.nodes
    ensures Inside(s', t, if a.EnqStart? then ELoop(a.v, a.n) else DLoop)
  {
    hide Reachable;
    var s1 := Does(s, a, t, other);
    Begun(s, a, t, s1);
    hide Apply, Enabled, Up;
    s' := EntersSection(s1, t, other);
  }

  lemma Begun(s: State, a: Action, t: Tid, s': State)
    requires Enabled(s, a) && s' == Apply(s, a) && (a == DeqStart(t) || (a.EnqStart? && a.t == t))
    ensures s'.ebr == s.ebr && s'.head == s.head && s'.tail == s.tail
    ensures s'.nodes == if a.EnqStart? then s.nodes[a.n := Node(None, a.v)] else s.nodes
    ensures t in s'.threads && s'.threads[t].pc == if a.EnqStart? then EEntering(a.v, a.n) else DEntering
  {}

  lemma Returns(s: State, t: Tid, other: Tid, v: Value) returns (s': State)
    requires Reachable(s) && Up(s) && Inside(s, t, EExit(v)) && other != t && other in {0, 1}
    ensures Reachable(s') && Up(s') && Untouched(s, s', other) && SameQueue(s, s') && Outside(s', t)
  {
    hide Reachable;
    s' := Does(s, Return(t), t, other);
    AppliedFields(s, Return(t));
    Ebr.HandleStepEffect(s.ebr, Ebr.Exit(t), t);
    Ebr.ExitEffect(s.ebr, t);
  }

  lemma FindsTail(s: State, t: Tid, other: Tid, n: Ptr, v: Value) returns (s': State)
    requires Reachable(s) && Up(s) && Inside(s, t, ELoop(v, n)) && other != t && other in {0, 1}
    requires s.tail in s.nodes && s.nodes[s.tail].next.None?
    ensures Reachable(s') && Up(s') && Untouched(s, s', other) && SameQueue(s, s') && s'.ebr == s.ebr
    ensures Inside(s', t, EChecked(v, n, s.tail, s.tl))
  {
    hide Reachable;
    var s1 := Does(s, EnqLoadTail(t), t, other);
    var s2 := Does(s1, EnqLoadNext(t), t, other);
    s' := Does(s2, EnqDecide(t), t, other);
  }

  lemma LinksAndReturns(s: State, t: Tid, other: Tid, n: Ptr, v: Value, ti: nat) returns (s': State)
    requires Reachable(s) && Up(s) && Inside(s, t, EChecked(v, n, s.tail, ti)) && other != t && other in {0, 1}
    requires s.tail in s.nodes && s.nodes[s.tail].next.None? && n in s.nodes && n != s.tail
    ensures Reachable(s') && Up(s') && Untouched(s, s', other) && Outside(s', t)
    ensures s'.nodes == s.nodes[s.tail := s.nodes[s.tail].(next := Some(n))]
    ensures s'.head == s.head && s'.tail == n && s'.ebr.began == s.ebr.began
  {
    hide Reachable;
    var s1 := Does(s, EnqLink(t), t, other);
    var s2 := Does(s1, EnqSwing(t), t, other);
    hide Apply, Enabled, Up;
    s' := Returns(s2, t, other, v);
  }

  lemma LoadsEnds(s: State, t: Tid, other: Tid) returns (s': State)
    requires Reachable(s) && Up(s) && Inside(s, t, DLoop) && other != t && other in {0, 1}
    ensures Reachable(s') && Up(s') && Untouched(s, s', other) && SameQueue(s, s')
    ensures Inside(s', t, DTail(s.head, s.h, s.tail, s.tl))
  {
    hide Reachable;
    var s1 := Does(s, DeqLoadHead(t), t, other);
    s' := Does(s1, DeqLoadTail(t), t, other);
  }

  lemma TakesFront(s: State, t: Tid, other: Tid, hi: nat, ti: nat, nxt: Ptr) returns (s': State)
    requires Reachable(s) && Up(s) && Inside(s, t, DTail(s.head, hi, s.tail, ti)) && other != t && other in {0, 1}
    requires s.head in s.nodes && s.nodes[s.head].next == Some(nxt) && s.tail != s.head
    ensures Reachable(s') && Up(s') && Untouched(s, s', other)
    ensures s'.nodes == s.nodes && s'.ebr.began == s.ebr.began && Inside(s', t, DTaken(s.head, hi, nxt))
  {
    hide Reachable;
    var s2 := ChecksFront(s, t, other, hi, ti, nxt);
    s' := Does(s2, DeqCas(t), t, other);
  }

  lemma ChecksFront(s: State, t: Tid, other: Tid, hi: nat, ti: nat, nxt: Ptr) returns (s': State)
    requires Reachable(s) && Up(s) && Inside(s, t, DTail(s.head, hi, s.tail, ti)) && other != t && other in {0, 1}
    requires s.head in s.nodes && s.nodes[s.head].next == Some(nxt) && s.tail != s.head
    ensures Reachable(s') && Up(s') && Untouched(s, s', other) && SameQueue(s, s')
    ensures Inside(s', t, DChecked(s.head, hi, nxt))
  {
    hide Reachable;
    var s1 := Does(s, DeqLoadNext(t), t, other);
    s' := Does(s1, DeqDecide(t), t, other);
  }

  lemma ClearsFront(s: State, t: Tid, other: Tid, head: Ptr, hi: nat, nxt: Ptr) returns (d: State)
    requires Reachable(s) && Up(s) && Inside(s, t, DTaken(head, hi, nxt)) && other != t && other in {0, 1}
    requires nxt in s.nodes && head in s.nodes
    ensures Reachable(d) && Up(d) && Untouched(s, d, other) && d.ebr == s.ebr && head in d.nodes
    ensures t in d.threads && d.threads[t].pc.DRetire? && d.threads[t].pc.head == head
  {
    hide Reachable;
    var s1 := Does(s, DeqRead(t), t, other);
    d := Does(s1, DeqClear(t), t, other);
  }

  lemma DropsHead(d: State, t: Tid, other: Tid, head: Ptr) returns (s': State)
    requires Reachable(d) && Up(d) && Here(d, t) && d.threads[t].pc.DRetire? && d.threads[t].pc.head == head
    requires other != t && other in {0, 1} && head in d.nodes && head !in d.ebr.began && d.ebr.threads[t].pc.Idle?
    ensures Drops(d, DeqNoMemory(t), head)
    ensures Reachable(s') && Up(s') && Untouched(d, s', other) && s'.nodes == d.nodes && head in s'.ebr.dropped
  {
    hide Reachable;
    s' := Does(d, DeqNoMemory(t), t, other);
    DropAdds(d, DeqNoMemory(t), head);
    AppliedFields(d, DeqNoMemory(t));
    hide Apply;
  }

  /** Thread 0 has enqueued one value, thread 1 has read head and tail for a dequeue. */
  lemma ReaderWaits() returns (s: State)
    ensures Reachable(s) && Up(s) && Outside(s, 0) && s.ebr.began == map[]
    ensures exists hi, ti :: Inside(s, 1, DTail(0, hi, 1, ti))
    ensures s.head == 0 && s.tail == 1 && 0 in s.nodes && 1 in s.nodes && s.nodes[0].next == Some(1)
  {
    hide Reachable;
    var s1 := BothAttached();
    var s2 := StartsOperation(s1, EnqStart(0, 5, 1), 0, 1);
    var s3 := FindsTail(s2, 0, 1, 1, 5);
    var s4 := LinksAndReturns(s3, 0, 1, 1, 5, s2.tl);
    var s5 := StartsOperation(s4, DeqStart(1), 1, 0);
    s := LoadsEnds(s5, 1, 0);
  }

  lemma StillInside(s: State, s': State, t: Tid, pc: Pc)
    requires Inside(s, t, pc) && Untouched(s, s', t)
    ensures Inside(s', t, pc)
  {}

  /** From there, thread 0 dequeues up to the retirement of 0. */
  lemma BeforeTheDrop(w: State, pc: Pc) returns (d: State)
    requires Reachable(w) && Up(w) && Outside(w, 0) && w.ebr.began == map[] && Inside(w, 1, pc)
    requires w.head == 0 && w.tail == 1 && 0 in w.nodes && 1 in w.nodes && w.nodes[0].next == Some(1)
    ensures Reachable(d) && Up(d) && Inside(d, 1, pc) && d.ebr.began == map[] && 0 in d.nodes
    ensures d.threads[0].pc.DRetire? && d.threads[0].pc.head == 0 && d.ebr.threads[0].pc.Idle?
  {
    hide Reachable, Untouched;
    var s1 := StartsOperation(w, DeqStart(0), 0, 1);
    StillInside(w, s1, 1, pc);
    var s2 := LoadsEnds(s1, 0, 1);
    StillInside(s1, s2, 1, pc);
    var s3 := TakesFront(s2, 0, 1, s1.h, s1.tl, 1);
    StillInside(s2, s3, 1, pc);
    d := ClearsFront(s3, 0, 1, 0, s1.h, 1);
    StillInside(s3, d, 1, pc);
  }

  /** Thread 1 has read the head 0; thread 0 dequeues, finds no memory to retire 0 and frees it; the next step of
    * thread 1 reads through 0. */
  lemma FreedHeadIsRead() returns (d: State, s: State)
    ensures Reachable(d) && Drops(d, DeqNoMemory(0), 0) && HeldByOther(d, 0, 0)
    ensures Reachable(s) && Enabled(s, DeqLoadNext(1)) && Derefs(s, DeqLoadNext(1)) == Some(0) && 0 in s.ebr.dropped
  {
    var w := ReaderWaits();
    var hi, ti :| Inside(w, 1, DTail(0, hi, 1, ti));
    hide Reachable, Untouched, Drops, Apply, Enabled, Derefs, Inside;
    d := BeforeTheDrop(w, DTail(0, hi, 1, ti));
    UpMeansHere(d);
    s := DropsHead(d, 0, 1, 0);
    StillInside(d, s, 1, DTail(0, hi, 1, ti));
    HoldsHead(d, 1, DTail(0, hi, 1, ti));
    HoldsHead(s, 1, DTail(0, hi, 1, ti));
  }

  lemma UpMeansHere(s: State)
    requires Up(s)
    ensures Here(s, 0) && Here(s, 1)
  {}

  lemma HoldsHead(s: State, t: Tid, pc: Pc)
    requires Inside(s, t, pc) && pc.DTail? && pc.head in s.nodes
    ensures Refers(s, t, pc.head) && Enabled(s, DeqLoadNext(t)) && Derefs(s, DeqLoadNext(t)) == Some(pc.head)
  {}
}
