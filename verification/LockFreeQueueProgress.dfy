/** No thread can block another: from every reachable state of the lock-free queue, whatever the other threads are
  * in the middle of, an operation that has been started is completed by a bounded number of its own steps. */
module LockFreeQueueProgress {
  import opened Common
  import opened LockFreeQueue
  import opened LockFreeQueueProof
  import opened LockFreeQueueTheorems
  import opened LockFreeQueueMemory
  import Ebr

  /** The step that thread t makes next, with memory for its retirements. */
  function Own(s: State, t: Tid): Action
    requires Here(s, t)
  {
    match s.threads[t].pc
    case Ready => DeqStart(t)
    case EEntering(_, _) => if s.ebr.threads[t].pc.Entering? then EnterCas(t) else EnterLoad(t)
    case ELoop(_, _) => EnqLoadTail(t)
    case EHaveTail(_, _, _, _) => EnqLoadNext(t)
    case EHaveNext(_, _, _, _, _) => EnqDecide(t)
    case EChecked(_, _, _, _) => EnqLink(t)
    case ELinked(_, _, _, _) => EnqSwing(t)
    case EExit(_) => Return(t)
    case DEntering => if s.ebr.threads[t].pc.Entering? then EnterCas(t) else EnterLoad(t)
    case DLoop => DeqLoadHead(t)
    case DHead(_, _) => DeqLoadTail(t)
    case DTail(_, _, _, _) => DeqLoadNext(t)
    case DNext(_, _, _, _, _) => DeqDecide(t)
    case DChecked(_, _, _) => DeqCas(t)
    case DTaken(_, _, _) => DeqRead(t)
    case DRead(_, _, _, _) => DeqClear(t)
    case DRetire(_, _, _) => DeqRetire(t)
    case DRetiring(_, _, _) => DeqRetireStep(t)
    case DExit(_) => Return(t)
  }

  // ----- How many steps are left -----

  /** From the start of the loop of an enqueue. */
  function EnqueueLoop(tl: nat, len: nat): nat {
    if tl + 1 < len then 9 else 6
  }

  function EnqueueLeft(tl: nat, len: nat, pc: Pc): nat {
    var loop := EnqueueLoop(tl, len);
    match pc
    case EHaveTail(_, _, _, ti) => if ti == tl then loop - 1 else loop + 2
    case EHaveNext(_, _, _, ti, next) =>
      if ti != tl then loop + 1 else if next.Some? || tl + 1 >= len then loop - 2 else loop + 2
    case EChecked(_, _, _, ti) => if ti + 1 == len then 3 else loop + 1
    case ELinked(_, _, _, _) => 2
    case EExit(_) => 1
    case _ => loop
  }

  function DequeueLoop(h: nat, tl: nat, len: nat): nat {
    if h < tl then 12 else if tl + 1 < len then 16 else 5
  }

  function DequeueLeft(h: nat, tl: nat, len: nat, pc: Pc): nat {
    var loop := DequeueLoop(h, tl, len);
    match pc
    case DHead(_, hi) => if hi == h then loop - 1 else loop + 4
    case DTail(_, hi, _, ti) => if hi == h && ti == tl then loop - 2 else loop + 3
    case DNext(_, hi, _, ti, next) =>
      if next.None? then 2 else if hi == h && ti == tl then loop - 3 else loop + 2
    case DChecked(_, hi, _) => if hi == h then 8 else loop + 1
    case DTaken(_, _, _) => 7
    case DRead(_, _, _, _) => 6
    case DRetire(_, _, _) => 5
    case DExit(_) => 1
    case _ => loop
  }

  function RetireLeft(e: Ebr.State, pc: Ebr.Pc): nat {
    match pc
    case Allocated(_) => 4
    case Tagged(_, _, _) => 3
    case Headed(_, seen, _, expected) =>
      if |e.lists| == Ebr.NUM_EPOCHS && Ebr.HeadPtr(e.lists[seen % Ebr.NUM_EPOCHS]) == expected then 2 else 5
    case _ => 0
  }

  function EnteringLeft(pc: Ebr.Pc): nat {
    if pc.Entering? then 1 else 2
  }

  function Left(s: State, t: Tid): nat
    requires Here(s, t)
  {
    var pc, e := s.threads[t].pc, s.ebr.threads[t];
    if pc.Ready? then 0
    else if pc.EEntering? then EnqueueLoop(s.tl, |s.chain|) + EnteringLeft(e.pc)
    else if pc.DEntering? then DequeueLoop(s.h, s.tl, |s.chain|) + EnteringLeft(e.pc)
    else if pc.DRetiring? then RetireLeft(s.ebr, e.pc)
    else if HasNode(pc) || pc.ELinked? || pc.EExit? then EnqueueLeft(s.tl, |s.chain|, pc)
    else DequeueLeft(s.h, s.tl, |s.chain|, pc)
  }

  // ----- A thread's next step is possible -----

  lemma Parts(s: State, t: Tid)
    requires Inv(s) && Here(s, t)
    ensures ShapeOk(s) && ThreadOk(s, t, s.threads[t], s.ebr.threads[t]) && EbrOk(s) && |s.ebr.lists| == Ebr.NUM_EPOCHS
  {
    Knows(s, t);
  }

  lemma OwnEnabled(s: State, t: Tid)
    requires Inv(s) && Here(s, t) && !s.threads[t].pc.Ready?
    ensures Enabled(s, Own(s, t))
  {
    Parts(s, t);
    hide Inv;
    var pc := s.threads[t].pc;
    if pc.EEntering? || pc.DEntering? {
    } else if HasNode(pc) || pc.ELinked? {
      EnqueueEnabled(s, t);
    } else if pc.DRetire? || pc.DRetiring? || pc.DExit? || pc.EExit? {
      ReclaimerEnabled(s, t);
    } else {
      DequeueEnabled(s, t);
    }
  }

  lemma EnqueueEnabled(s: State, t: Tid)
    requires ShapeOk(s) && Here(s, t) && ThreadOk(s, t, s.threads[t], s.ebr.threads[t])
    requires var pc := s.threads[t].pc; (HasNode(pc) && !pc.EEntering?) || pc.ELinked?
    ensures Enabled(s, Own(s, t)) && EbrPart(s, Own(s, t)).None?
  {
    var pc := s.threads[t].pc;
    if pc.EHaveTail? || pc.EChecked? { assert LinkOk(s.chain, s.nodes, pc.ti); }
  }

  lemma DequeueEnabled(s: State, t: Tid)
    requires ShapeOk(s) && Here(s, t) && ThreadOk(s, t, s.threads[t], s.ebr.threads[t])
    requires var pc := s.threads[t].pc;
             pc.DLoop? || pc.DHead? || pc.DTail? || pc.DNext? || pc.DChecked? || pc.DTaken? || pc.DRead?
    ensures Enabled(s, Own(s, t)) && EbrPart(s, Own(s, t)).None?
  {
    var pc := s.threads[t].pc;
    if pc.DTail? { assert LinkOk(s.chain, s.nodes, pc.hi); }
    if pc.DTaken? || pc.DRead? { assert LinkOk(s.chain, s.nodes, pc.hi + 1); }
  }

  lemma ReclaimerEnabled(s: State, t: Tid)
    requires EbrOk(s) && Here(s, t) && ThreadOk(s, t, s.threads[t], s.ebr.threads[t]) && |s.ebr.lists| == Ebr.NUM_EPOCHS
    requires var pc := s.threads[t].pc; pc.DRetire? || pc.DRetiring? || pc.DExit? || pc.EExit?
    ensures Enabled(s, Own(s, t))
  {
    hide Ebr.Inv;
  }

  // ----- and brings it nearer to the end -----

  ghost predicate Nearer(s: State, s': State, t: Tid) {
    Here(s, t) && Here(s', t) && Left(s', t) < Left(s, t)
  }

  /** Nodes stand in one place of the chain. */
  lemma SamePlace(s: State, i: nat, j: nat)
    requires ShapeOk(s) && i < |s.chain| && j < |s.chain|
    ensures s.chain[i] == s.chain[j] <==> i == j
  {
    assert s.pos[s.chain[i]] == i && s.pos[s.chain[j]] == j;
  }

  lemma EnqueueMoves(s: State, t: Tid)
    requires ShapeOk(s) && Here(s, t) && ThreadOk(s, t, s.threads[t], s.ebr.threads[t])
    requires var pc := s.threads[t].pc; pc.ELoop? || pc.EHaveTail? || pc.ELinked?
    requires Enabled(s, Own(s, t)) && EbrPart(s, Own(s, t)).None?
    ensures Nearer(s, QueuePart(s, Own(s, t), s.ebr), t)
  {
    var pc := s.threads[t].pc;
    if pc.EHaveTail? { assert LinkOk(s.chain, s.nodes, pc.ti); }
  }

  lemma EnqueueDecides(s: State, t: Tid)
    requires ShapeOk(s) && Here(s, t) && ThreadOk(s, t, s.threads[t], s.ebr.threads[t]) && s.threads[t].pc.EHaveNext?
    ensures Nearer(s, Decide(s, t), t)
  {
    SamePlace(s, s.threads[t].pc.ti, s.tl);
  }

  lemma EnqueueLinks(s: State, t: Tid)
    requires ShapeOk(s) && Here(s, t) && ThreadOk(s, t, s.threads[t], s.ebr.threads[t]) && s.threads[t].pc.EChecked?
    requires s.threads[t].pc.tail in s.nodes
    ensures Nearer(s, Link(s, t), t)
  {
    assert LinkOk(s.chain, s.nodes, s.threads[t].pc.ti);
  }

  lemma DequeueLoads(s: State, t: Tid)
    requires ShapeOk(s) && Here(s, t) && ThreadOk(s, t, s.threads[t], s.ebr.threads[t])
    requires s.threads[t].pc.DLoop? || s.threads[t].pc.DHead?
    requires Enabled(s, Own(s, t)) && EbrPart(s, Own(s, t)).None?
    ensures Nearer(s, QueuePart(s, Own(s, t), s.ebr), t)
  {}

  lemma DequeueReads(s: State, t: Tid)
    requires Here(s, t) && (s.threads[t].pc.DTaken? || s.threads[t].pc.DRead?)
    requires Enabled(s, Own(s, t)) && EbrPart(s, Own(s, t)).None?
    ensures Nearer(s, QueuePart(s, Own(s, t), s.ebr), t)
  {}

  lemma DequeueLoadsNext(s: State, t: Tid)
    requires ShapeOk(s) && Here(s, t) && ThreadOk(s, t, s.threads[t], s.ebr.threads[t]) && s.threads[t].pc.DTail?
    requires s.threads[t].pc.head in s.nodes
    ensures Nearer(s, LoadNext(s, t), t)
  {
    assert LinkOk(s.chain, s.nodes, s.threads[t].pc.hi);
  }

  lemma DequeueDecides(s: State, t: Tid)
    requires ShapeOk(s) && Here(s, t) && ThreadOk(s, t, s.threads[t], s.ebr.threads[t]) && s.threads[t].pc.DNext?
    ensures Nearer(s, DequeueDecide(s, t), t)
  {
    var pc := s.threads[t].pc;
    SamePlace(s, pc.hi, pc.ti);
    SamePlace(s, pc.ti, s.tl);
  }

  lemma DequeueTakes(s: State, t: Tid)
    requires ShapeOk(s) && Here(s, t) && ThreadOk(s, t, s.threads[t], s.ebr.threads[t]) && s.threads[t].pc.DChecked?
    ensures Nearer(s, Take(s, t), t)
  {
    SamePlace(s, s.threads[t].pc.hi, s.h);
  }

  lemma Entering(s: State, t: Tid)
    requires Here(s, t) && ThreadOk(s, t, s.threads[t], s.ebr.threads[t]) && EbrOk(s)
    requires (s.threads[t].pc.EEntering? || s.threads[t].pc.DEntering?) && Enabled(s, Own(s, t))
    ensures Nearer(s, Apply(s, Own(s, t)), t)
  {
    var a := Own(s, t);
    Ebr.HandleStepEffect(s.ebr, EbrPart(s, a).value, t);
    hide Ebr.Inv, Ebr.Apply;
    if a.EnterLoad? { LoadsEpoch(s, t); } else { EntersLoop(s, t); }
  }

  lemma LoadsEpoch(s: State, t: Tid)
    requires Enabled(s, EnterLoad(t)) && s.ebr.threads[t].pc.Idle?
    ensures Nearer(s, Apply(s, EnterLoad(t)), t)
  {
    Ebr.EnterLoadEffect(s.ebr, t);
    hide Ebr.Apply;
  }

  lemma EntersLoop(s: State, t: Tid)
    requires Enabled(s, EnterCas(t)) && s.ebr.threads[t].pc.Entering? && !s.ebr.threads[t].state.Active? && !s.ebr.inactive
    ensures Nearer(s, Apply(s, EnterCas(t)), t)
  {
    Ebr.EnterCasEffect(s.ebr, t);
    hide Ebr.Apply;
  }

  lemma Retires(s: State, t: Tid)
    requires Here(s, t) && ThreadOk(s, t, s.threads[t], s.ebr.threads[t]) && |s.ebr.lists| == Ebr.NUM_EPOCHS
    requires s.threads[t].pc.DRetiring? && Enabled(s, Own(s, t))
    ensures Nearer(s, Apply(s, Own(s, t)), t)
  {
    var a := Own(s, t);
    Ebr.HandleStepEffect(s.ebr, EbrPart(s, a).value, t);
    RetireNearer(s.ebr, EbrPart(s, a).value, t);
    hide Ebr.Apply, RetireLeft, Ebr.Enabled;
  }

  /** A push whose exchange fails has three steps to the next one; one that is alone succeeds. */
  lemma RetireNearer(e: Ebr.State, a: Ebr.Action, t: Tid)
    requires Ebr.Enabled(e, a) && (a == Ebr.RetireLoadEpoch(t) || a == Ebr.RetireLoadHead(t) || a == Ebr.RetireCas(t))
    ensures var e' := Ebr.Apply(e, a);
            t in e'.threads && (if e'.threads[t].pc.Idle? then RetireLeft(e, e.threads[t].pc) == 2
                                else RetireLeft(e', e'.threads[t].pc) < RetireLeft(e, e.threads[t].pc))
  {}

  lemma Leaves(s: State, t: Tid)
    requires Here(s, t) && (s.threads[t].pc.EExit? || s.threads[t].pc.DExit?) && Enabled(s, Return(t))
    ensures Nearer(s, Apply(s, Return(t)), t)
  {
    Ebr.HandleStepEffect(s.ebr, Ebr.Exit(t), t);
    hide Ebr.Apply;
  }

  lemma CallsRetirement(s: State, t: Tid)
    requires Here(s, t) && s.threads[t].pc.DRetire? && Enabled(s, DeqRetire(t))
    ensures Nearer(s, Apply(s, DeqRetire(t)), t)
  {
    Ebr.RetireAllocEffect(s.ebr, t, s.threads[t].pc.head);
    hide Ebr.Apply;
  }

  lemma OwnIsNearer(s: State, t: Tid)
    requires Inv(s) && Here(s, t) && !s.threads[t].pc.Ready?
    ensures Enabled(s, Own(s, t)) && Inv(Apply(s, Own(s, t))) && Nearer(s, Apply(s, Own(s, t)), t)
  {
    OwnEnabled(s, t);
    Parts(s, t);
    InvStep(s, Own(s, t));
    hide Inv, Apply, Enabled, ShapeOk, ThreadOk, EbrOk, Nearer;
    var pc := s.threads[t].pc;
    if pc.EEntering? || pc.DEntering? {
      Entering(s, t);
    } else if HasNode(pc) || pc.ELinked? {
      EnqueueNearer(s, t);
    } else if pc.DRetiring? {
      Retires(s, t);
    } else if pc.DRetire? {
      CallsRetirement(s, t);
    } else if pc.DExit? || pc.EExit? {
      Leaves(s, t);
    } else {
      DequeueNearer(s, t);
    }
  }

  lemma EnqueueNearer(s: State, t: Tid)
    requires ShapeOk(s) && Here(s, t) && ThreadOk(s, t, s.threads[t], s.ebr.threads[t])
    requires var pc := s.threads[t].pc; (HasNode(pc) && !pc.EEntering?) || pc.ELinked?
    requires Enabled(s, Own(s, t))
    ensures Nearer(s, Apply(s, Own(s, t)), t)
  {
    EnqueueEnabled(s, t);
    QueueOnly(s, Own(s, t));
    hide Apply, ShapeOk, ThreadOk, Nearer;
    var pc := s.threads[t].pc;
    if pc.EHaveNext? {
      EnqueueDecides(s, t);
    } else if pc.EChecked? {
      EnqueueLinks(s, t);
    } else {
      EnqueueMoves(s, t);
    }
  }

  lemma DequeueNearer(s: State, t: Tid)
    requires ShapeOk(s) && Here(s, t) && ThreadOk(s, t, s.threads[t], s.ebr.threads[t])
    requires var pc := s.threads[t].pc;
             pc.DLoop? || pc.DHead? || pc.DTail? || pc.DNext? || pc.DChecked? || pc.DTaken? || pc.DRead?
    requires Enabled(s, Own(s, t))
    ensures Nearer(s, Apply(s, Own(s, t)), t)
  {
    DequeueEnabled(s, t);
    QueueOnly(s, Own(s, t));
    hide Apply, ShapeOk, ThreadOk, Nearer;
    var pc := s.threads[t].pc;
    if pc.DTail? {
      DequeueLoadsNext(s, t);
    } else if pc.DNext? {
      DequeueDecides(s, t);
    } else if pc.DChecked? {
      DequeueTakes(s, t);
    } else if pc.DLoop? || pc.DHead? {
      DequeueLoads(s, t);
    } else {
      DequeueReads(s, t);
    }
  }

  // ----- To the end -----

  /** Steps of thread t alone, none of which starts another operation. */
  ghost predicate Alone(s: State, t: Tid, acts: seq<Action>, s': State)
    decreases |acts|
  {
    if acts == [] then s == s'
    else
      Actor(acts[0]) == Some(t) && !Starts(acts[0], t) && Enabled(s, acts[0]) && Alone(Apply(s, acts[0]), t, acts[1..], s')
  }

  lemma OwnActor(s: State, t: Tid)
    requires Here(s, t) && !s.threads[t].pc.Ready?
    ensures Actor(Own(s, t)) == Some(t) && !Starts(Own(s, t), t)
  {}

  lemma {:induction false} Completes(s: State, t: Tid) returns (acts: seq<Action>, s': State)
    requires Inv(s) && Here(s, t)
    ensures Alone(s, t, acts, s') && |acts| <= Left(s, t)
    ensures Here(s', t) && s'.threads[t].pc.Ready?
    decreases Left(s, t)
  {
    if s.threads[t].pc.Ready? {
      acts, s' := [], s;
    } else {
      OwnIsNearer(s, t);
      OwnActor(s, t);
      var a := Own(s, t);
      hide Inv, Apply, Enabled;
      var rest;
      rest, s' := Completes(Apply(s, a), t);
      acts := [a] + rest;
      assert acts[1..] == rest;
    }
  }

  lemma AtMostTwenty(s: State, t: Tid)
    requires Here(s, t)
    ensures Left(s, t) <= 20
  {}

  /** Whatever state the other threads have been left in, an operation in progress returns after at most twenty steps
    * of its own thread, if nobody else moves and its retirement finds memory. */
  lemma NobodyIsBlocked(run: seq<State>, acts: seq<Action>, n: nat, t: Tid) returns (own: seq<Action>, s': State)
    requires IsRun(run, acts) && n < |run| && t in run[n].threads
    ensures Alone(run[n], t, own, s') && |own| <= 20
    ensures t in s'.threads && s'.threads[t].pc.Ready?
  {
    InvHolds(run, acts, n);
    var s := run[n];
    assert Here(s, t);
    hide IsRun, Inv, Left;
    AtMostTwenty(s, t);
    own, s' := Completes(s, t);
  }
}
