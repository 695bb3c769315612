/** What the lock-free queue guarantees over whole runs: every interleaving of any number of threads'
  * operations with polls.  A dequeue that finds no memory for the reclaimer's list entry frees its node at
  * once; the model keeps what such a node holds, and module LockFreeQueueMemory says exactly when a later
  * step touches it, which ends what is promised of the program. */
module LockFreeQueueTheorems {
  import opened Common
  import opened LockFreeQueue
  import opened LockFreeQueueProof
  import Ebr

  lemma {:induction false} InvHolds(run: seq<State>, acts: seq<Action>, n: nat)
    requires IsRun(run, acts) && n < |run|
    ensures Inv(run[n])
  {
    if n == 0 {
      InitOk(run[0]);
    } else {
      InvHolds(run, acts, n - 1);
      assert StepsTo(run, acts, n - 1);
      InvStep(run[n - 1], acts[n - 1]);
    }
  }

  lemma InitOk(s: State)
    requires Init(s)
    ensures Inv(s)
  {
    assert Contents(s) == [];
  }

  // ----- Nothing is lost or freed twice -----

  lemma StepRetiresInside(s: State, a: Action)
    requires Inv(s) && Enabled(s, a) && EbrPart(s, a).Some?
    ensures Ebr.RetiresInside(s.ebr, EbrPart(s, a).value)
  {
    if a.DeqRetire? { RetirerInside(s, a.t); }
    hide Inv;
    OnlyDequeueRetires(s, a);
  }

  lemma RetirerInside(s: State, t: Tid)
    requires Inv(s) && PcEnabled(s, DeqRetire(t))
    ensures s.ebr.threads[t].state.Active?
  {
    Knows(s, t);
  }

  lemma OnlyDequeueRetires(s: State, a: Action)
    requires PcEnabled(s, a) && EbrPart(s, a).Some?
    ensures EbrPart(s, a).value.RetireAlloc? <==> a.DeqRetire?
    ensures a.DeqRetire? ==> EbrPart(s, a).value.t == a.t
  {}

  lemma {:induction false} AccountHolds(run: seq<State>, acts: seq<Action>, n: nat)
    requires IsRun(run, acts) && n < |run|
    ensures Ebr.AccountInv(run[n].ebr) && Ebr.DroppedApart(run[n].ebr) && Ebr.BegunOk(run[n].ebr)
  {
    if n > 0 {
      AccountHolds(run, acts, n - 1);
      assert StepsTo(run, acts, n - 1);
      InvHolds(run, acts, n - 1);
      AccountApplied(run[n - 1], acts[n - 1]);
    }
  }

  lemma AccountApplied(s: State, a: Action)
    requires Inv(s) && Enabled(s, a) && Ebr.AccountInv(s.ebr) && Ebr.DroppedApart(s.ebr) && Ebr.BegunOk(s.ebr)
    ensures var e := Apply(s, a).ebr; Ebr.AccountInv(e) && Ebr.DroppedApart(e) && Ebr.BegunOk(e)
  {
    hide Inv, Ebr.AccountInv, Ebr.DroppedApart, Ebr.BegunOk;
    if EbrPart(s, a).Some? {
      StepRetiresInside(s, a);
      Ebr.AccountStep(s.ebr, EbrPart(s, a).value);
      HasRetirers(s.ebr);
      Ebr.DroppedStep(s.ebr, EbrPart(s, a).value);
      Ebr.BegunStep(s.ebr, EbrPart(s, a).value);
    }
    AppliedEbr(s, a);
  }

  lemma HasRetirers(e: Ebr.State)
    requires Ebr.AccountInv(e)
    ensures Ebr.RetirersOk(e) && Ebr.MembersOk(e)
  {}

  lemma AppliedEbr(s: State, a: Action)
    requires Enabled(s, a)
    ensures Apply(s, a).ebr == EbrAfter(s, a)
  {}

  /** Every dequeued node that a thread has handed over is in one reclamation list or freed once, and no
    * other node ever is; a node that was freed on the spot for want of memory is a dequeued one, too, and
    * neither listed nor freed again. */
  lemma NodesReclaimedOnce(run: seq<State>, acts: seq<Action>, n: nat, p: Ptr)
    requires IsRun(run, acts) && n < |run|
    ensures Ebr.AccountedPtr(run[n].ebr, p)
    ensures p in run[n].ebr.retired || p in run[n].ebr.dropped ==> p in run[n].pos && run[n].pos[p] < run[n].h
    ensures p in run[n].ebr.dropped ==> run[n].ebr.freed[p] == 0 && Ebr.Held(run[n].ebr, p) == 0
  {
    AccountHolds(run, acts, n);
    InvHolds(run, acts, n);
    hide IsRun;
    assert Ebr.AccountedPtr(run[n].ebr, p);
  }

  // ----- Linearizability -----

  function Enqueued(log: seq<Event>): seq<Value> {
    if log == [] then []
    else
      var rest, e := Enqueued(log[..|log| - 1]), log[|log| - 1];
      if e.Enq? then rest + [e.v] else rest
  }

  function Dequeued(log: seq<Event>): seq<Value> {
    if log == [] then []
    else
      var rest, e := Dequeued(log[..|log| - 1]), log[|log| - 1];
      if e.Deq? then rest + [e.v] else rest
  }

  /** A history the sequential queue accepts takes values out in the order they were put in. */
  lemma {:induction false} ReplayIsFifo(log: seq<Event>)
    requires Replay(log).Some?
    ensures Enqueued(log) == Dequeued(log) + Replay(log).value
  {
    if log != [] {
      ReplayIsFifo(log[..|log| - 1]);
    }
  }

  /** At every moment of every run the linearization is a history of the sequential queue that ends in the
    * present content; so what was dequeued, followed by what is queued, is what was enqueued. */
  lemma LogIsSequentialHistory(run: seq<State>, acts: seq<Action>, n: nat)
    requires IsRun(run, acts) && n < |run|
    ensures Replay(run[n].log) == Some(Contents(run[n]))
    ensures Enqueued(run[n].log) == Dequeued(run[n].log) + Contents(run[n])
  {
    InvHolds(run, acts, n);
    ReplayIsFifo(run[n].log);
  }

  /** Head never passes tail and tail is at most one node behind the last one. */
  lemma TailLagsByAtMostOne(run: seq<State>, acts: seq<Action>, n: nat)
    requires IsRun(run, acts) && n < |run|
    ensures run[n].h <= run[n].tl < |run[n].chain| <= run[n].tl + 2
    ensures run[n].head == run[n].chain[run[n].h] && run[n].tail == run[n].chain[run[n].tl]
  {
    InvHolds(run, acts, n);
  }

  predicate Starts(a: Action, t: Tid) {
    (a.EnqStart? || a.DeqStart?) && a.t == t
  }

  /** Step j of the run is where an operation of t takes effect. */
  ghost predicate TakesEffect(run: seq<State>, j: nat, t: Tid)
    requires j + 1 < |run|
  {
    |run[j].log| < |run[j + 1].log| && run[j + 1].log[|run[j].log|].t == t
  }

  /** The operation a thread is in: Some(Some(v)) enqueues v, Some(None) dequeues. */
  function Operation(pc: Pc): Option<Option<Value>> {
    if HasNode(pc) || pc.ELinked? || pc.EExit? then Some(Some(pc.v))
    else if pc.Ready? then None
    else Some(None)
  }

  lemma AppliedQueue(s: State, a: Action)
    requires Enabled(s, a)
    ensures Apply(s, a).threads == QueuePart(s, a, EbrAfter(s, a)).threads
    ensures Apply(s, a).log == QueuePart(s, a, EbrAfter(s, a)).log
  {}

  /** The thread that makes a step of the queue. */
  function Actor(a: Action): Option<Tid> {
    if a.Reclaimer? then None else Some(a.t)
  }

  lemma OthersKept(s: State, a: Action, e: Ebr.State, t: Tid)
    requires PcEnabled(s, a) && t in s.threads && Actor(a) != Some(t)
    ensures t in QueuePart(s, a, e).threads && QueuePart(s, a, e).threads[t] == s.threads[t]
  {
    if EnqueueKind(a) { OthersKeptEnqueue(s, a, e, t); } else if DequeueKind(a) { OthersKeptDequeue(s, a, e, t); }
  }

  lemma OthersKeptEnqueue(s: State, a: Action, e: Ebr.State, t: Tid)
    requires PcEnabled(s, a) && t in s.threads && EnqueueKind(a) && a.t != t
    ensures t in QueuePart(s, a, e).threads && QueuePart(s, a, e).threads[t] == s.threads[t]
  {}

  lemma OthersKeptDequeue(s: State, a: Action, e: Ebr.State, t: Tid)
    requires PcEnabled(s, a) && t in s.threads && DequeueKind(a) && a.t != t
    ensures t in QueuePart(s, a, e).threads && QueuePart(s, a, e).threads[t] == s.threads[t]
  {
    if a.DeqDecide? || a.DeqCas? || a.DeqLoadNext? { OthersKeptDecision(s, a, e, t); }
  }

  lemma OthersKeptDecision(s: State, a: Action, e: Ebr.State, t: Tid)
    requires PcEnabled(s, a) && t in s.threads && (a.DeqDecide? || a.DeqCas? || a.DeqLoadNext?) && a.t != t
    ensures t in QueuePart(s, a, e).threads && QueuePart(s, a, e).threads[t] == s.threads[t]
  {
    if a.DeqDecide? { OthersKeptDecide(s, a.t, t); }
  }

  lemma OthersKeptDecide(s: State, u: Tid, t: Tid)
    requires u in s.threads && s.threads[u].pc.DNext? && t in s.threads && u != t
    ensures t in DequeueDecide(s, u).threads && DequeueDecide(s, u).threads[t] == s.threads[t]
  {}

  lemma OperationKept(s: State, a: Action, e: Ebr.State, t: Tid)
    requires PcEnabled(s, a) && t in s.threads && !Starts(a, t) && a != Return(t)
    ensures t in QueuePart(s, a, e).threads
    ensures Operation(QueuePart(s, a, e).threads[t].pc) == Operation(s.threads[t].pc)
  {
    if Actor(a) != Some(t) { OthersKept(s, a, e, t); }
    else if EnqueueKind(a) { EnqueueKept(s, a, e, t); }
    else if DequeueKind(a) { DequeueKept(s, a, e, t); }
  }

  lemma EnqueueKept(s: State, a: Action, e: Ebr.State, t: Tid)
    requires PcEnabled(s, a) && EnqueueKind(a) && a.t == t && !a.EnqStart?
    ensures t in QueuePart(s, a, e).threads
    ensures Operation(QueuePart(s, a, e).threads[t].pc) == Operation(s.threads[t].pc)
  {}

  lemma DequeueKept(s: State, a: Action, e: Ebr.State, t: Tid)
    requires PcEnabled(s, a) && DequeueKind(a) && a.t == t && !a.DeqStart?
    ensures t in QueuePart(s, a, e).threads
    ensures Operation(QueuePart(s, a, e).threads[t].pc) == Operation(s.threads[t].pc)
  {
    if a.DeqDecide? || a.DeqCas? || a.DeqLoadNext? { DecisionKept(s, a, e, t); }
  }

  lemma DecisionKept(s: State, a: Action, e: Ebr.State, t: Tid)
    requires PcEnabled(s, a) && (a.DeqDecide? || a.DeqCas? || a.DeqLoadNext?) && a.t == t
    ensures t in QueuePart(s, a, e).threads
    ensures Operation(QueuePart(s, a, e).threads[t].pc) == Operation(s.threads[t].pc)
  {
    if a.DeqDecide? { DecideKept(s, t); }
  }

  lemma DecideKept(s: State, t: Tid)
    requires t in s.threads && s.threads[t].pc.DNext?
    ensures t in DequeueDecide(s, t).threads && Operation(DequeueDecide(s, t).threads[t].pc) == Operation(s.threads[t].pc)
  {}

  ghost predicate RecordsNothing(s: State, s': State, t: Tid) {
    && t in s.threads && t in s'.threads
    && s'.threads[t].lin == s.threads[t].lin
    && (s'.log == s.log || exists e: Event :: e.t != t && s'.log == s.log + [e])
  }

  ghost predicate Records(s: State, s': State, t: Tid, e: Event) {
    && t in s.threads && t in s'.threads
    && s.threads[t].lin.None? && s'.threads[t].lin == Some(e) && e.t == t
    && s'.log == s.log + [e]
  }

  ghost predicate RecordsSome(s: State, s': State, t: Tid) {
    exists v :: Records(s, s', t, v)
  }

  lemma LogGrowth(s: State, a: Action, e: Ebr.State)
    requires PcEnabled(s, a)
    ensures QueuePart(s, a, e).log == s.log
            || (Actor(a).Some? && exists v: Event :: v.t == a.t && QueuePart(s, a, e).log == s.log + [v])
  {
    if a.EnqLink? { assert Link(s, a.t).log == s.log || Link(s, a.t).log == s.log + [Enq(a.t, s.threads[a.t].pc.v)]; }
    if a.DeqLoadNext? { assert LoadNext(s, a.t).log == s.log || LoadNext(s, a.t).log == s.log + [Empty(a.t)]; }
  }

  /** A step of an operation records at most one event, for its own thread, and only if that thread has
    * none yet. */
  lemma EffectStep(s: State, a: Action, e: Ebr.State, t: Tid)
    requires Inv(s) && PcEnabled(s, a) && t in s.threads && !Starts(a, t)
    ensures var s' := QueuePart(s, a, e);
            RecordsNothing(s, s', t) || RecordsSome(s, s', t)
  {
    var s' := QueuePart(s, a, e);
    if Actor(a) != Some(t) {
      OthersKept(s, a, e, t);
      LogGrowth(s, a, e);
    } else if a.EnqLink? || a.DeqLoadNext? || a.DeqCas? {
      assert ThreadOk(s, t, s.threads[t], s.ebr.threads[t]);
      ActorRecords(s, a, e, t);
    } else {
      ActorQuiet(s, a, e, t);
    }
  }

  lemma ActorRecords(s: State, a: Action, e: Ebr.State, t: Tid)
    requires PcEnabled(s, a) && (a.EnqLink? || a.DeqLoadNext? || a.DeqCas?) && a.t == t && s.threads[t].lin.None?
    ensures var s' := QueuePart(s, a, e);
            RecordsNothing(s, s', t) || RecordsSome(s, s', t)
  {
    var s' := QueuePart(s, a, e);
    if s'.threads[t].lin.Some? { assert Records(s, s', t, s'.threads[t].lin.value); }
  }

  lemma ActorQuiet(s: State, a: Action, e: Ebr.State, t: Tid)
    requires PcEnabled(s, a) && t in s.threads && Actor(a) == Some(t) && !Starts(a, t)
    requires !a.EnqLink? && !a.DeqLoadNext? && !a.DeqCas?
    ensures RecordsNothing(s, QueuePart(s, a, e), t)
  {
    if a.EnqDecide? || a.DeqDecide? { DecisionQuiet(s, a, e, t); }
  }

  lemma DecisionQuiet(s: State, a: Action, e: Ebr.State, t: Tid)
    requires PcEnabled(s, a) && (a.EnqDecide? || a.DeqDecide?) && a.t == t
    ensures RecordsNothing(s, QueuePart(s, a, e), t)
  {}

  lemma StartStep(s: State, a: Action, t: Tid)
    requires Enabled(s, a) && Starts(a, t)
    ensures var s' := Apply(s, a);
            && t in s'.threads && s'.log == s.log && s'.threads[t].lin.None?
            && Operation(s'.threads[t].pc) == Some(if a.EnqStart? then Some(a.v) else None)
  {}

  ghost predicate During(acts: seq<Action>, i: nat, m: nat, t: Tid) {
    && i < m <= |acts|
    && Starts(acts[i], t)
    && forall j :: i < j < m ==> !Starts(acts[j], t) && acts[j] != Return(t)
  }

  /** A step within the operation, as the run shows it. */
  lemma RunEffect(run: seq<State>, acts: seq<Action>, p: nat, t: Tid)
    requires IsRun(run, acts) && p < |acts| && t in run[p].threads
    requires !Starts(acts[p], t) && acts[p] != Return(t)
    ensures RecordsNothing(run[p], run[p + 1], t) || RecordsSome(run[p], run[p + 1], t)
    ensures t in run[p + 1].threads && Operation(run[p + 1].threads[t].pc) == Operation(run[p].threads[t].pc)
  {
    var s, a := run[p], acts[p];
    assert StepsTo(run, acts, p);
    InvHolds(run, acts, p);
    AppliedQueue(s, a);
    EffectStep(s, a, EbrAfter(s, a), t);
    OperationKept(s, a, EbrAfter(s, a), t);
    if RecordsSome(s, QueuePart(s, a, EbrAfter(s, a)), t) {
      var v :| Records(s, QueuePart(s, a, EbrAfter(s, a)), t, v);
      assert Records(run[p], run[p + 1], t, v);
    }
  }

  /** Up to step m, the operation t started at step i has taken effect at step k alone, or nowhere yet. */
  ghost predicate SoFar(run: seq<State>, i: nat, m: nat, t: Tid, k: nat)
    requires m < |run|
  {
    && t in run[m].threads
    && (run[m].threads[t].lin.None? ==> forall j :: i <= j < m ==> !TakesEffect(run, j, t))
    && (run[m].threads[t].lin.Some? ==>
          && i < k < m && run[k + 1].log == run[k].log + [run[m].threads[t].lin.value]
          && forall j :: i <= j < m ==> (TakesEffect(run, j, t) <==> j == k))
  }

  lemma SoFarStep(run: seq<State>, i: nat, p: nat, t: Tid, k: nat) returns (k': nat)
    requires i < p && p + 1 < |run| && SoFar(run, i, p, t, k)
    requires RecordsNothing(run[p], run[p + 1], t) || RecordsSome(run[p], run[p + 1], t)
    ensures SoFar(run, i, p + 1, t, k')
  {
    if RecordsNothing(run[p], run[p + 1], t) {
      assert !TakesEffect(run, p, t);
      k' := k;
    } else {
      var v :| Records(run[p], run[p + 1], t, v);
      assert TakesEffect(run, p, t);
      k' := p;
    }
  }

  lemma SoFarStart(run: seq<State>, acts: seq<Action>, i: nat, t: Tid)
    requires IsRun(run, acts) && i < |acts| && Starts(acts[i], t)
    ensures SoFar(run, i, i + 1, t, 0)
    ensures Operation(run[i + 1].threads[t].pc) == Some(if acts[i].EnqStart? then Some(acts[i].v) else None)
  {
    assert StepsTo(run, acts, i);
    StartStep(run[i], acts[i], t);
  }

  lemma {:induction false} EffectSoFar(run: seq<State>, acts: seq<Action>, i: nat, m: nat, t: Tid) returns (k: nat)
    requires IsRun(run, acts) && During(acts, i, m, t)
    ensures SoFar(run, i, m, t, k)
    ensures Operation(run[m].threads[t].pc) == Some(if acts[i].EnqStart? then Some(acts[i].v) else None)
    decreases m
  {
    if m == i + 1 {
      SoFarStart(run, acts, i, t);
      k := 0;
    } else {
      k := EffectSoFar(run, acts, i, m - 1, t);
      RunEffect(run, acts, m - 1, t);
      k := SoFarStep(run, i, m - 1, t, k);
    }
  }

  /** What the operation is about to return, as an event. */
  function Outcome(pc: Pc, t: Tid): Event
    requires pc.EExit? || pc.DExit?
  {
    match pc
    case EExit(v) => Enq(t, v)
    case DExit(Some(v)) => Deq(t, v)
    case DExit(None) => Empty(t)
  }

  /** Linearizability.  Every operation that returns took effect at exactly one step between its call and
    * its return, with the value it was called with or returns; a not-found answer took effect at a step
    * where the queue was empty. */
  lemma Linearizable(run: seq<State>, acts: seq<Action>, i: nat, n: nat, t: Tid) returns (k: nat)
    requires IsRun(run, acts) && During(acts, i, n, t)
    requires n < |acts| && acts[n] == Return(t)
    ensures t in run[n].threads && (run[n].threads[t].pc.EExit? || run[n].threads[t].pc.DExit?)
    ensures acts[i].EnqStart? <==> run[n].threads[t].pc.EExit?
    ensures acts[i].EnqStart? ==> run[n].threads[t].pc.v == acts[i].v
    ensures i < k < n && run[k + 1].log == run[k].log + [Outcome(run[n].threads[t].pc, t)]
    ensures forall j :: i <= j < n ==> (TakesEffect(run, j, t) <==> j == k)
    ensures run[n].threads[t].pc == DExit(None) ==> Contents(run[k]) == []
  {
    k := EffectSoFar(run, acts, i, n, t);
    assert StepsTo(run, acts, n);
    InvHolds(run, acts, n);
    Returning(run[n], t);
    hide IsRun, Enabled, Inv;
    if run[n].threads[t].pc == DExit(None) { EmptyWhenNotFound(run, acts, k, t); }
  }

  lemma Returning(s: State, t: Tid)
    requires Inv(s) && Enabled(s, Return(t))
    ensures t in s.threads && (s.threads[t].pc.EExit? || s.threads[t].pc.DExit?)
    ensures s.threads[t].lin == Some(Outcome(s.threads[t].pc, t))
  {
    assert ThreadOk(s, t, s.threads[t], s.ebr.threads[t]);
  }

  lemma EmptyWhenNotFound(run: seq<State>, acts: seq<Action>, k: nat, t: Tid)
    requires IsRun(run, acts) && k + 1 < |run|
    requires run[k + 1].log == run[k].log + [Empty(t)]
    ensures Contents(run[k]) == []
  {
    LogIsSequentialHistory(run, acts, k);
    LogIsSequentialHistory(run, acts, k + 1);
    hide IsRun;
    assert run[k + 1].log[..|run[k + 1].log| - 1] == run[k].log;
  }
}
