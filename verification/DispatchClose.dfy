/** Whether clog_dispatcher_async_thread_close returns (source/dispatcher/clog_dispatcher_async_thread.c), on the
  * step machine of module Dispatch: what its first load decides, and that the worker never sleeps through END.
  */
module DispatchClose {
  import opened Common
  import opened Recorders
  import opened Dispatch
  import opened DispatchTheorems
  import Mpsc

  /** END has been posted. */
  predicate Posted(m: MainPc) {
    Ended(m) && !m.EndSet?
  }

  /** The worker is parked, or will look at the semaphore again before it looks at the state. */
  predicate WillWait(w: Worker) {
    w.Waiting? || ((w.Reading? || w.Processing?) && !w.last)
  }

  ghost predicate EndWakes(s: State) {
    Posted(s.main) && WillWait(s.worker) ==> s.sem > 0
  }

  lemma EndWakesStep(s: State, a: Action)
    requires Inv(s) && EndWakes(s) && Enabled(s, a)
    ensures EndWakes(Apply(s, a))
  {
    if IsLog(a) {
      LoggerSteps(s, a);
      EndWakesLogger(s, a.t, Apply(s, a));
    } else if a.MainStep? {
      EndWakesMain(s);
    } else {
      EndWakesWorker(s, a, Apply(s, a));
    }
  }

  lemma EndWakesLogger(s: State, t: Tid, s': State)
    requires EndWakes(s) && LoggerStepped(s, t, s')
    ensures EndWakes(s')
  {}

  lemma EndWakesMain(s: State)
    requires EndWakes(s) && MainEnabled(s)
    ensures EndWakes(MainNext(s))
  {}

  lemma EndWakesWorker(s: State, a: Action, s': State)
    requires ControlOk(s) && EndWakes(s) && !IsLog(a) && !a.MainStep? && Enabled(s, a) && s' == Apply(s, a)
    ensures EndWakes(s')
  {}

  lemma {:induction false} EndWakesHolds(run: seq<State>, acts: seq<Action>, n: nat)
    requires IsRun(run, acts) && n < |run|
    ensures EndWakes(run[n])
  {
    if n > 0 {
      EndWakesHolds(run, acts, n - 1);
      InvHolds(run, acts, n - 1);
      assert StepsTo(run, acts, n - 1);
      EndWakesStep(run[n - 1], acts[n - 1]);
    }
  }

  /** Once END has been posted the worker is never parked on a zero semaphore: the post cannot be used up by an
    * earlier round. */
  lemma NeverParkedAfterEnd(run: seq<State>, acts: seq<Action>, n: nat)
    requires IsRun(run, acts) && n < |run| && Posted(run[n].main) && run[n].worker.Waiting?
    ensures run[n].sem > 0
  {
    EndWakesHolds(run, acts, n);
  }

  // ----- Continuations -----

  /** The actions lead from s to s'. */
  ghost predicate Follows(s: State, acts: seq<Action>, s': State)
    decreases |acts|
  {
    if acts == [] then s' == s else Enabled(s, acts[0]) && Follows(Apply(s, acts[0]), acts[1..], s')
  }

  ghost predicate Reachable(s: State) {
    exists s0, acts :: Init(s0) && Follows(s0, acts, s)
  }

  /** Some continuation makes close return. */
  ghost predicate CanReturn(s: State) {
    exists acts, s' :: Follows(s, acts, s') && s'.main.Returned?
  }

  lemma {:induction false} Along(s: State, acts: seq<Action>, s': State)
    requires Inv(s) && EndWakes(s) && Follows(s, acts, s')
    ensures Inv(s') && EndWakes(s')
    decreases |acts|
  {
    hide Inv, EndWakes, Apply, Enabled;
    if acts != [] {
      InvStep(s, acts[0]);
      EndWakesStep(s, acts[0]);
      Along(Apply(s, acts[0]), acts[1..], s');
    }
  }

  lemma {:induction false} Append(s: State, acts: seq<Action>, m: State, a: Action)
    requires Follows(s, acts, m) && Enabled(m, a)
    ensures Follows(s, acts + [a], Apply(m, a))
    decreases |acts|
  {
    hide Apply, Enabled;
    if acts == [] {
      assert (acts + [a])[1..] == [];
    } else {
      Append(Apply(s, acts[0]), acts[1..], m, a);
      assert (acts + [a])[1..] == acts[1..] + [a];
    }
  }

  lemma {:induction false} Join(s: State, acts: seq<Action>, m: State, more: seq<Action>, s': State)
    requires Follows(s, acts, m) && Follows(m, more, s')
    ensures Follows(s, acts + more, s')
    decreases |acts|
  {
    hide Apply, Enabled;
    if acts == [] {
      assert acts + more == more;
    } else {
      Join(Apply(s, acts[0]), acts[1..], m, more, s');
      assert (acts + more)[1..] == acts[1..] + more;
    }
  }

  lemma StartOk(s: State)
    requires Init(s)
    ensures Inv(s) && EndWakes(s)
  {
    Mpsc.StartOk(NO_ITEM);
  }

  // ----- The worker, alone, comes to an end -----

  ghost predicate Draining(s: State) {
    Inv(s) && EndWakes(s) && (s.main.EndPosted? || s.main.Spinning?) && !s.overwritten
  }

  function QueueNext(c: Mpsc.Consumer<Item>): Mpsc.Action<Item> {
    match c
    case Out => Mpsc.OutStart
    case HaveHead(_) => Mpsc.OutLoadNext
    case HaveNext(_, _) => Mpsc.OutRead
    case HaveData(_, _, _) => Mpsc.OutStore
    case Moved(_, _) => Mpsc.OutFree
    case Result(_) => Mpsc.OutReturn
  }

  function WorkerNext(s: State): Action
    requires !s.worker.Exited?
  {
    match s.worker
    case Waiting => SemWait
    case Woken => LoadState
    case Reading(_) => if s.q.consumer.Result? then ReadDone else Read(QueueNext(s.q.consumer))
    case Processing(_, _) => Process
    case Closing => StoreClosed
  }

  function Round(w: Worker): nat {
    match w
    case Reading(last) => if last then 2 else 5
    case Processing(_, last) => if last then 2 else 5
    case Waiting => 4
    case Woken => 3
    case Closing => 1
    case Exited => 0
  }

  function Left(q: Mpsc.State<Item>): nat {
    if q.h < |q.chain| then |q.chain| - q.h else 0
  }

  function ReadRank(c: Mpsc.Consumer<Item>): nat {
    match c
    case Moved(_, _) => 6
    case Result(res) => if res.Some? then 5 else 0
    case Out => 3
    case HaveHead(_) => 2
    case HaveNext(_, _) => 1
    case HaveData(_, _, _) => 0
  }

  function Rank(s: State): nat {
    if s.worker.Processing? then 4 else ReadRank(s.q.consumer)
  }

  ghost predicate Less(s': State, s: State) {
    || Round(s'.worker) < Round(s.worker)
    || (Round(s'.worker) == Round(s.worker) && Left(s'.q) < Left(s.q))
    || (Round(s'.worker) == Round(s.worker) && Left(s'.q) == Left(s.q) && Rank(s') < Rank(s))
  }

  lemma ReadEnabled(s: State)
    requires QueueOk(s) && s.worker.Reading? && !s.q.consumer.Result?
    ensures Enabled(s, Read(QueueNext(s.q.consumer)))
  {
    assert Mpsc.NextOk(s.q, s.q.h);
  }

  lemma ReadLess(s: State)
    requires QueueOk(s) && s.worker.Reading? && !s.q.consumer.Result? && Enabled(s, Read(QueueNext(s.q.consumer)))
    ensures Less(Apply(s, Read(QueueNext(s.q.consumer))), s)
  {
    QueueBounds(s);
    ReadApplied(s, QueueNext(s.q.consumer));
    hide QueueOk, Apply, Enabled, Mpsc.Apply, Mpsc.Enabled, Left, ReadRank;
    QueueLess(s.q, Mpsc.Apply(s.q, QueueNext(s.q.consumer)));
  }

  lemma QueueBounds(s: State)
    requires QueueOk(s)
    ensures s.q.h < |s.q.chain| && (s.q.consumer.HaveData? ==> s.q.h + 1 < |s.q.chain|)
  {}

  lemma QueueLess(q: Mpsc.State<Item>, q': Mpsc.State<Item>)
    requires !q.consumer.Result? && Mpsc.Enabled(q, QueueNext(q.consumer)) && q' == Mpsc.Apply(q, QueueNext(q.consumer))
    requires q.h < |q.chain| && (q.consumer.HaveData? ==> q.h + 1 < |q.chain|)
    ensures Left(q') < Left(q) || (Left(q') == Left(q) && ReadRank(q'.consumer) < ReadRank(q.consumer))
  {}

  lemma ElseLess(s: State)
    requires Draining(s) && !s.worker.Exited? && !(s.worker.Reading? && !s.q.consumer.Result?)
    ensures Enabled(s, WorkerNext(s)) && Less(Apply(s, WorkerNext(s)), s)
  {
    hide Mpsc.Inv, MarkOk, CallsOk, WakeupOk, LastDrainOk, LoggersOk;
  }

  lemma WorkerMoves(s: State)
    requires Draining(s) && !s.worker.Exited?
    ensures Enabled(s, WorkerNext(s)) && Less(Apply(s, WorkerNext(s)), s) && Draining(Apply(s, WorkerNext(s)))
    ensures Apply(s, WorkerNext(s)).main == s.main
  {
    if s.worker.Reading? && !s.q.consumer.Result? {
      ReadEnabled(s);
      ReadLess(s);
    } else {
      ElseLess(s);
    }
    InvStep(s, WorkerNext(s));
    EndWakesStep(s, WorkerNext(s));
    hide Inv, EndWakes;
  }

  /** From every state in which END has been posted and close has not replaced CLOSED, the worker's own steps
    * lead to CLOSED. */
  lemma {:induction false} WorkerCloses(s: State) returns (acts: seq<Action>, s': State)
    requires Draining(s)
    ensures Follows(s, acts, s') && Draining(s') && s'.worker.Exited? && s'.state.Closed? && s'.main == s.main
    decreases Round(s.worker), Left(s.q), Rank(s)
  {
    if s.worker.Exited? {
      acts, s' := [], s;
    } else {
      WorkerMoves(s);
      hide Draining, Apply, Enabled;
      var rest;
      rest, s' := WorkerCloses(Apply(s, WorkerNext(s)));
      acts := [WorkerNext(s)] + rest;
      assert acts[1..] == rest;
    }
  }

  // ----- What the first load decides -----

  /** Close has met CLOSED, or is about to. */
  ghost predicate Doomed(s: State) {
    Inv(s) && ((s.main.EndPosted? && s.state.Closed?) || s.main.CloseSet? || s.overwritten)
  }

  lemma DoomedStep(s: State, a: Action)
    requires Doomed(s) && Enabled(s, a)
    ensures Doomed(Apply(s, a))
  {
    InvStep(s, a);
    DoomedControl(s, a);
  }

  lemma DoomedControl(s: State, a: Action)
    requires Doomed(s) && Enabled(s, a)
    ensures var s' := Apply(s, a); (s'.main.EndPosted? && s'.state.Closed?) || s'.main.CloseSet? || s'.overwritten
  {
    hide QueueOk, LoggersOk, MarkOk, CallsOk, WakeupOk, LastDrainOk;
    if IsLog(a) { LoggerControl(s, a); }
  }

  lemma LoggerControl(s: State, a: Action)
    requires IsLog(a) && Enabled(s, a)
    ensures var s' := Apply(s, a); s'.main == s.main && s'.state == s.state && s'.overwritten == s.overwritten
  {}

  lemma {:induction false} DoomedForever(s: State, acts: seq<Action>, s': State)
    requires Doomed(s) && Follows(s, acts, s')
    ensures !s'.main.Returned?
    decreases |acts|
  {
    if acts == [] {
      assert ControlOk(s);
    } else {
      DoomedStep(s, acts[0]);
      hide Doomed, Apply, Enabled;
      DoomedForever(Apply(s, acts[0]), acts[1..], s');
    }
  }

  lemma DoomedCannotReturn(s: State)
    requires Doomed(s)
    ensures !CanReturn(s)
  {
    forall acts, s' | Follows(s, acts, s') ensures !s'.main.Returned? { DoomedForever(s, acts, s'); }
  }

  lemma SpinningCanReturn(s: State)
    requires Draining(s) && s.main.Spinning?
    ensures CanReturn(s)
  {
    var acts, m := WorkerCloses(s);
    Append(s, acts, m, MainStep);
    hide Follows;
    assert Apply(m, MainStep).main.Returned?;
  }

  ghost predicate AfterLoad(s: State, stop: bool) {
    if stop then (s.main.Spinning? || s.main.Returned?) && !s.overwritten
    else s.main.CloseSet? || s.overwritten
  }

  lemma AfterLoadStep(s: State, a: Action, stop: bool)
    requires Inv(s) && AfterLoad(s, stop) && Enabled(s, a)
    ensures AfterLoad(Apply(s, a), stop)
  {
    hide QueueOk, LoggersOk, MarkOk, CallsOk, WakeupOk, LastDrainOk;
    if IsLog(a) { LoggerControl(s, a); }
  }

  lemma {:induction false} LoadDecides(run: seq<State>, acts: seq<Action>, m: nat, n: nat)
    requires IsRun(run, acts) && m < n < |run| && acts[m].MainStep? && run[m].main.EndPosted?
    ensures AfterLoad(run[n], run[m].state.Stop?)
    decreases n
  {
    InvHolds(run, acts, n - 1);
    assert StepsTo(run, acts, n - 1);
    hide Inv, Apply, Enabled, AfterLoad;
    if m < n - 1 {
      LoadDecides(run, acts, m, n - 1);
      AfterLoadStep(run[n - 1], acts[n - 1], run[m].state.Stop?);
    } else {
      FirstLoad(run[m]);
    }
  }

  lemma FirstLoad(s: State)
    requires Inv(s) && s.main.EndPosted? && Enabled(s, MainStep)
    ensures AfterLoad(Apply(s, MainStep), s.state.Stop?)
  {
    hide QueueOk, LoggersOk, MarkOk, CallsOk, WakeupOk, LastDrainOk;
  }

  /** Whether close can return is decided by its first load: from every later state some continuation makes it
    * return if and only if that load found STOPPING, which is to say that the worker had not yet stored CLOSED. */
  lemma CloseReturnsExactly(run: seq<State>, acts: seq<Action>, m: nat, n: nat)
    requires IsRun(run, acts) && m < n < |run| && acts[m].MainStep? && run[m].main.EndPosted?
    ensures CanReturn(run[n]) <==> run[m].state.Stop?
    ensures run[m].state.Stop? || run[m].state.Closed?
  {
    InvHolds(run, acts, m);
    InvHolds(run, acts, n);
    EndWakesHolds(run, acts, n);
    LoadDecides(run, acts, m, n);
    hide IsRun, EndWakes, Follows;
    assert ControlOk(run[m]);
    hide Inv, ControlOk;
    if run[m].state.Stop? {
      if run[n].main.Returned? {
        ReturnedCanReturn(run[n]);
      } else {
        SpinningCanReturn(run[n]);
      }
    } else {
      DoomedCannotReturn(run[n]);
    }
  }

  lemma ReturnedCanReturn(s: State)
    requires s.main.Returned?
    ensures CanReturn(s)
  {
    assert Follows(s, [], s);
  }

  lemma NotYetOverwritten(s: State)
    requires Inv(s) && s.main.EndPosted?
    ensures !s.overwritten
  {}

  /** Until that load the worker can always get there first: from every reachable state in which END has been
    * posted and close has not begun, its own steps lead to a state from which close never returns. */
  lemma CloseCanComeTooLate(s: State) returns (s': State)
    requires Reachable(s) && s.main.EndPosted?
    ensures Reachable(s') && s'.main.EndPosted? && s'.state.Closed? && !CanReturn(s')
  {
    var s0, acts :| Init(s0) && Follows(s0, acts, s);
    StartOk(s0);
    hide Follows;
    Along(s0, acts, s);
    NotYetOverwritten(s);
    hide Init, Inv, EndWakes, CanReturn;
    var more;
    more, s' := WorkerCloses(s);
    Join(s0, acts, s, more, s');
    assert Doomed(s');
    DoomedCannotReturn(s');
  }

  function Fresh(registry: Registry, outcome: nat -> Res): State {
    State(Mpsc.Start(NO_ITEM), 0, Idle, Waiting, Opened, map[], registry, outcome, [], 0, 0, false, false)
  }

  lemma MainAdvances(s: State)
    requires Reachable(s) && MainEnabled(s)
    ensures Reachable(MainNext(s))
  {
    var s0, acts :| Init(s0) && Follows(s0, acts, s);
    Append(s0, acts, s, MainStep);
  }

  /** There is such a state: a context that is set up and destroyed before the worker has woken. */
  lemma EndIsReachable(registry: Registry, outcome: nat -> Res) returns (s: State)
    requires Keyed(registry)
    ensures Reachable(s) && s.main.EndPosted? && s.state.Stop? && s.registry == registry
  {
    s := Fresh(registry, outcome);
    assert Init(s) && Follows(s, [], s);
    hide Reachable;
    var n := 0;
    var order := [Opened, StartSet, StartPosted, Running, Stopping, WriteLocked, WriteUnlocked, EndSet, EndPosted];
    while n < 8
      invariant n <= 8 && Reachable(s) && s.main == order[n] && s.loggers == map[] && s.registry == registry
      invariant n >= 7 ==> s.state.Stop?
    {
      MainAdvances(s);
      s, n := MainNext(s), n + 1;
    }
  }

  /** Close spins forever in a reachable state: the worker has stored CLOSED, and close has not yet looked. */
  lemma CloseSpinsForever() returns (s: State)
    ensures Reachable(s) && s.main.EndPosted? && s.state.Closed? && !CanReturn(s)
  {
    var e := EndIsReachable(map[], (i: nat) => Success);
    s := CloseCanComeTooLate(e);
  }
}
