/** That the asynchronous worker keeps up: from every reachable state its own steps bring it to the semaphore with
  * everything written that has been queued, whatever the loggers are in the middle of.
  */
module DispatchProgress {
  import opened Common
  import opened Recorders
  import opened Dispatch
  import opened DispatchTheorems
  import opened DispatchClose
  import Mpsc

  /** The worker waits for a post, or has left. */
  predicate Parked(s: State) {
    s.worker.Exited? || (s.worker.Waiting? && s.sem == 0)
  }

  function Stage(s: State): nat {
    match s.worker
    case Waiting => 0
    case Woken => 7
    case Processing(_, _) => 7
    case Closing => 1
    case Exited => 0
    case Reading(_) =>
      match s.q.consumer
      case Moved(_, _) => 9
      case Result(res) => if res.Some? then 8 else 3
      case Out => 6
      case HaveHead(_) => 5
      case HaveNext(_, _) => 4
      case HaveData(_, _, _) => 3
  }

  function Queued(q: Mpsc.State<Item>): nat {
    if q.h < |q.chain| then |q.chain| - 1 - q.h else 0
  }

  /** How many steps of its own are left at most. */
  function Steps(s: State): nat {
    8 * s.sem + 8 * Queued(s.q) + Stage(s)
  }

  lemma ReadSteps(s: State)
    requires QueueOk(s) && s.worker.Reading? && !s.q.consumer.Result? && Enabled(s, Read(QueueNext(s.q.consumer)))
    ensures Steps(Apply(s, Read(QueueNext(s.q.consumer)))) < Steps(s)
  {
    QueueBounds(s);
    ReadApplied(s, QueueNext(s.q.consumer));
    hide QueueOk, Enabled, Apply;
  }

  lemma ElseSteps(s: State)
    requires Inv(s) && !Parked(s) && !(s.worker.Reading? && !s.q.consumer.Result?)
    ensures Enabled(s, WorkerNext(s)) && Steps(Apply(s, WorkerNext(s))) < Steps(s)
  {
    hide Mpsc.Inv, MarkOk, CallsOk, WakeupOk, LastDrainOk, LoggersOk;
  }

  lemma WorkerGoesOn(s: State)
    requires Inv(s) && !Parked(s)
    ensures Enabled(s, WorkerNext(s)) && Steps(Apply(s, WorkerNext(s))) < Steps(s) && Inv(Apply(s, WorkerNext(s)))
  {
    if s.worker.Reading? && !s.q.consumer.Result? {
      ReadEnabled(s);
      ReadSteps(s);
    } else {
      ElseSteps(s);
    }
    InvStep(s, WorkerNext(s));
  }

  /** Steps of the worker alone. */
  ghost predicate ByWorker(s: State, acts: seq<Action>, s': State)
    decreases |acts|
  {
    if acts == [] then s' == s
    else !IsLog(acts[0]) && !acts[0].MainStep? && Enabled(s, acts[0]) && ByWorker(Apply(s, acts[0]), acts[1..], s')
  }

  /** What the worker's steps leave alone. */
  ghost predicate OthersSame(s: State, s': State) {
    && s'.loggers == s.loggers && s'.main == s.main && s'.registry == s.registry && s'.outcome == s.outcome
    && s'.q.producers == s.q.producers && s'.q.chain == s.q.chain && s'.q.vals == s.q.vals
  }

  lemma WorkerLeaves(s: State, a: Action)
    requires Inv(s) && !IsLog(a) && !a.MainStep? && Enabled(s, a)
    ensures OthersSame(s, Apply(s, a))
  {
    WorkerQueue(s, a, Apply(s, a));
    ValuesStay(s, a);
  }

  lemma ValuesStay(s: State, a: Action)
    requires !IsLog(a) && !a.MainStep? && Enabled(s, a)
    ensures Apply(s, a).q.vals == s.q.vals
  {
    if a.Read? {
      OutEffect(s.q, a.a, Mpsc.Apply(s.q, a.a));
      hide Mpsc.Apply, Mpsc.Enabled;
    } else if a.ReadDone? {
      OutEffect(s.q, Mpsc.OutReturn, Mpsc.Apply(s.q, Mpsc.OutReturn));
      hide Mpsc.Apply, Mpsc.Enabled;
    } else {
      assert Apply(s, a).q == s.q;
    }
  }

  lemma WorkerActs(s: State)
    requires !s.worker.Exited?
    ensures !IsLog(WorkerNext(s)) && !WorkerNext(s).MainStep?
  {}

  lemma {:induction false} WorkerParks(s: State) returns (acts: seq<Action>, s': State)
    requires Inv(s)
    ensures ByWorker(s, acts, s') && |acts| <= Steps(s) && Inv(s') && Parked(s') && OthersSame(s, s')
    decreases Steps(s)
  {
    if Parked(s) {
      acts, s' := [], s;
    } else {
      WorkerGoesOn(s);
      WorkerActs(s);
      var a := WorkerNext(s);
      WorkerLeaves(s, a);
      hide Inv, Apply, Enabled, Steps, Parked;
      var rest;
      rest, s' := WorkerParks(Apply(s, a));
      acts := [a] + rest;
      assert acts[1..] == rest;
    }
  }

  /** The worker keeps up.  From every reachable state its own steps, at most eight for each post and each item
    * that wait and nine more, lead it to the semaphore or out; and if no logger is between the exchange of the
    * tail and its post, and the worker is not gone, then everything queued has been written as the direct
    * dispatcher writes it. */
  lemma WorkerKeepsUp(run: seq<State>, acts: seq<Action>, n: nat) returns (own: seq<Action>, s': State)
    requires IsRun(run, acts) && n < |run|
    ensures ByWorker(run[n], own, s') && Parked(s')
    ensures |own| <= 8 * run[n].sem + 8 * Queued(run[n].q) + 9
    ensures s'.worker.Waiting? && (forall t :: !InFlight(run[n], t)) ==>
              && run[n].q.vals != [] && s'.q.consumed == run[n].q.vals[1..]
              && (s'.calls, s'.writes) == Dispatched(run[n].registry, s'.q.consumed, run[n].outcome, 0)
  {
    InvHolds(run, acts, n);
    var s := run[n];
    hide *;
    StepsAtMost(s);
    own, s' := WorkerParks(s);
    if s'.worker.Waiting? && forall t :: !InFlight(s, t) {
      ParkedAtZero(s');
      AllWritten(s, s');
    }
  }

  lemma StepsAtMost(s: State)
    ensures Steps(s) <= 8 * s.sem + 8 * Queued(s.q) + 9
  {}

  lemma ParkedAtZero(s: State)
    requires Parked(s) && s.worker.Waiting?
    ensures s.sem == 0
  {}

  lemma AllWritten(s: State, s': State)
    requires Inv(s') && OthersSame(s, s') && s'.worker.Waiting? && s'.sem == 0 && forall t :: !InFlight(s, t)
    ensures s.q.vals != [] && s'.q.consumed == s.q.vals[1..]
    ensures (s'.calls, s'.writes) == Dispatched(s.registry, s'.q.consumed, s.outcome, 0)
  {
    assert forall t :: InFlight(s', t) ==> InFlight(s, t);
    Consumed(s');
    CallsMade(s');
    assert Finished(s') == s'.q.consumed;
    assert AllRead(s');
  }
}
