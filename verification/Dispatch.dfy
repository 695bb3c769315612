/** Loggers, the asynchronous worker and the thread that starts and destroys the context, as one step
  * machine around the queue of module Mpsc (source/dispatcher/clog_dispatcher_async_thread.c with its
  * environment in source/casca_log_core.c).  A semaphore is a counter and the read-write lock is held by
  * the loggers past their lock step, or by the destroying thread at `WriteLocked`.
  *
  * Auxiliary: `mark` (the length of the queue's exchange order when destroy took the write lock), `late`
  * (a logger took the read lock after that), `overwritten` (close has replaced CLOSED by STOPPING).
  */
module Dispatch {
  import opened Common
  import opened Recorders
  import Mpsc

  type Tid = Mpsc.Tid
  type Ptr = Mpsc.Ptr

  /** A thread not in clog_record_log or clog_module_log is not in `loggers`. */
  datatype Logger = Checked(item: Item) | Locked(item: Item) | Writing | Written | Unlocking

  datatype Worker =
    | Waiting
    | Woken
    | Reading(last: bool)
    | Processing(item: Item, last: bool)
    | Closing
    | Exited

  /** The thread that runs clog_context_setup and later clog_context_destroy. */
  datatype MainPc =
    | Opened
    | StartSet
    | StartPosted
    | Running
    | Stopping
    | WriteLocked
    | WriteUnlocked
    | EndSet
    | EndPosted
    | CloseSet
    | ClosePost
    | Spinning
    | Returned

  datatype DispatcherState = Idle | Active | Stop | Closed

  datatype State = State(
    q: Mpsc.State<Item>,
    sem: nat,
    state: DispatcherState,
    worker: Worker,
    main: MainPc,
    loggers: map<Tid, Logger>,
    registry: Registry,
    outcome: nat -> Res,
    calls: seq<Call>,
    writes: nat,
    mark: nat,
    late: bool,
    overwritten: bool)

  datatype Action =
    | LogCheck(t: Tid, item: Item)
    | LogLock(t: Tid)
    | LogAlloc(t: Tid, n: Ptr)
    | LogNoMemory(t: Tid)
    | LogExchange(t: Tid)
    | LogLink(t: Tid)
    | LogPost(t: Tid)
    | LogUnlock(t: Tid)
    | SemWait
    | LoadState
    | Read(a: Mpsc.Action<Item>)
    | ReadDone
    | Process
    | StoreClosed
    | MainStep

  const NO_ITEM: Item := RawItem(0, [0, 0, 0, 0])

  ghost predicate Init(s: State) {
    && Keyed(s.registry)
    && s.q == Mpsc.Start(NO_ITEM)
    && s.sem == 0 && s.state == Idle && s.worker == Waiting && s.main == Opened && s.loggers == map[]
    && s.calls == [] && s.writes == 0 && s.mark == 0 && !s.late && !s.overwritten
  }

  predicate LoggerAt(s: State, t: Tid, l: Logger) {
    t in s.loggers && s.loggers[t] == l
  }

  predicate HoldsReadLock(l: Logger) {
    !l.Checked?
  }

  predicate IsRead(a: Mpsc.Action<Item>) {
    a.OutStart? || a.OutLoadNext? || a.OutRead? || a.OutStore? || a.OutFree?
  }

  predicate Ended(m: MainPc) {
    m.EndSet? || m.EndPosted? || m.CloseSet? || m.ClosePost? || m.Spinning? || m.Returned?
  }

  /** From the write lock on. */
  predicate Destroying(m: MainPc) {
    Ended(m) || m.WriteLocked? || m.WriteUnlocked?
  }

  predicate MainEnabled(s: State) {
    match s.main
    case Stopping => forall t :: t in s.loggers ==> !HoldsReadLock(s.loggers[t])
    case Returned => false
    case _ => true
  }

  predicate Enabled(s: State, a: Action) {
    match a
    case LogCheck(t, _) => t !in s.loggers && s.main.Running?
    case LogLock(t) => t in s.loggers && s.loggers[t].Checked? && !s.main.WriteLocked?
    case LogAlloc(t, n) =>
      t in s.loggers && s.loggers[t].Locked? && Mpsc.Enabled(s.q, Mpsc.Alloc(t, s.loggers[t].item, n))
    case LogNoMemory(t) => t in s.loggers && s.loggers[t].Locked?
    case LogExchange(t) => LoggerAt(s, t, Writing) && Mpsc.Enabled(s.q, Mpsc.Exchange(t))
    case LogLink(t) => LoggerAt(s, t, Writing) && Mpsc.Enabled(s.q, Mpsc.Link(t))
    case LogPost(t) => LoggerAt(s, t, Written)
    case LogUnlock(t) => LoggerAt(s, t, Unlocking)
    case SemWait => s.worker.Waiting? && s.sem > 0
    case LoadState => s.worker.Woken?
    case Read(qa) => s.worker.Reading? && IsRead(qa) && Mpsc.Enabled(s.q, qa)
    case ReadDone => s.worker.Reading? && s.q.consumer.Result?
    case Process => s.worker.Processing?
    case StoreClosed => s.worker.Closing?
    case MainStep => MainEnabled(s)
  }

  /** The next step of clog_context_setup, clog_context_destroy or the dispatcher's notify and close. */
  function MainNext(s: State): State {
    match s.main
    case Opened => s.(main := StartSet, state := Active)
    case StartSet => s.(main := StartPosted, sem := s.sem + 1)
    case StartPosted => s.(main := Running)
    case Running => s.(main := Stopping)
    case Stopping => s.(main := WriteLocked, mark := |s.q.chain|)
    case WriteLocked => s.(main := WriteUnlocked)
    case WriteUnlocked => s.(main := EndSet, state := Stop)
    case EndSet => s.(main := EndPosted, sem := s.sem + 1)
    case EndPosted => if s.state.Stop? then s.(main := Spinning) else s.(main := CloseSet)
    case CloseSet => s.(main := ClosePost, state := Stop, overwritten := true)
    case ClosePost => s.(main := Spinning, sem := s.sem + 1)
    case Spinning => if s.state.Closed? then s.(main := Returned) else s
    case Returned => s
  }

  function WithLogger(s: State, t: Tid, l: Logger): State {
    s.(loggers := s.loggers[t := l])
  }

  function Apply(s: State, a: Action): State
    requires Enabled(s, a)
  {
    match a
    case LogCheck(t, item) => WithLogger(s, t, Checked(item))
    case LogLock(t) => WithLogger(s, t, Locked(s.loggers[t].item)).(late := s.late || Destroying(s.main))
    case LogAlloc(t, n) => WithLogger(s, t, Writing).(q := Mpsc.Apply(s.q, Mpsc.Alloc(t, s.loggers[t].item, n)))
    case LogNoMemory(t) => WithLogger(s, t, Unlocking)
    case LogExchange(t) => s.(q := Mpsc.Apply(s.q, Mpsc.Exchange(t)))
    case LogLink(t) => WithLogger(s, t, Written).(q := Mpsc.Apply(s.q, Mpsc.Link(t)))
    case LogPost(t) => WithLogger(s, t, Unlocking).(sem := s.sem + 1)
    case LogUnlock(t) => s.(loggers := s.loggers - {t})
    case SemWait => s.(worker := Woken, sem := s.sem - 1)
    case LoadState =>
      (match s.state
       case Stop => s.(worker := Reading(true))
       case Active => s.(worker := Reading(false))
       case _ => s.(worker := Exited))
    case Read(qa) => s.(q := Mpsc.Apply(s.q, qa))
    case ReadDone =>
      var next := match s.q.consumer.res
                  case Some(item) => Processing(item, s.worker.last)
                  case None => if s.worker.last then Closing else Waiting;
      s.(worker := next, q := Mpsc.Apply(s.q, Mpsc.OutReturn))
    case Process =>
      var o := Offer(s.registry, s.worker.item, 0, s.outcome, s.writes);
      s.(worker := Reading(s.worker.last), calls := s.calls + o.0 + [Release(s.worker.item)], writes := o.1)
    case StoreClosed => s.(worker := Exited, state := Closed)
    case MainStep => MainNext(s)
  }

  ghost predicate IsRun(run: seq<State>, acts: seq<Action>) {
    && |run| == |acts| + 1
    && Init(run[0])
    && forall i :: 0 <= i < |acts| ==> StepsTo(run, acts, i)
  }

  ghost predicate StepsTo(run: seq<State>, acts: seq<Action>, i: nat)
    requires i < |acts| && |run| == |acts| + 1
  {
    Enabled(run[i], acts[i]) && run[i + 1] == Apply(run[i], acts[i])
  }

  // ----- The invariant -----

  /** Between the exchange of the tail and the post of the semaphore. */
  ghost predicate InFlight(s: State, t: Tid) {
    || LoggerAt(s, t, Written)
    || (LoggerAt(s, t, Writing) && t in s.q.producers && s.q.producers[t].Exchanged?)
  }

  ghost predicate SomeInFlight(s: State) {
    exists t :: InFlight(s, t)
  }

  ghost predicate QueueOk(s: State) {
    && Mpsc.Inv(s.q)
    && (forall t :: t in s.q.producers <==> LoggerAt(s, t, Writing))
    && (!s.q.consumer.Out? ==> s.worker.Reading?)
  }

  ghost predicate Begun(m: MainPc) {
    !m.Opened? && !m.StartSet?
  }

  ghost predicate LoggersOk(s: State) {
    && (s.main.Opened? || s.main.StartSet? || s.main.StartPosted? ==> s.loggers == map[] && |s.q.chain| == 1)
    && (s.main.WriteLocked? ==> forall t :: t in s.loggers ==> s.loggers[t].Checked?)
  }

  ghost predicate LastRound(s: State) {
    || (s.worker.Reading? && s.worker.last)
    || (s.worker.Processing? && s.worker.last)
    || s.worker.Closing?
  }

  ghost predicate ControlOk(s: State) {
    && (s.main.Opened? ==> s.state.Idle?)
    && (!s.main.Opened? && !Ended(s.main) ==> s.state.Active?)
    && (Ended(s.main) ==> s.state.Stop? || s.state.Closed?)
    && (s.sem > 0 || !s.worker.Waiting? ==> Begun(s.main))
    && (LastRound(s) ==> Ended(s.main) && s.state.Stop?)
    && (s.state.Closed? ==> s.worker.Exited?)
    && (s.worker.Exited? ==> Ended(s.main) && (s.state.Closed? || s.overwritten))
    && (s.main.CloseSet? ==> s.state.Closed?)
    && (s.main.ClosePost? ==> s.overwritten)
    && (s.overwritten ==> s.worker.Exited? && s.state.Stop? && (s.main.ClosePost? || s.main.Spinning?))
    && (s.main.Returned? ==> s.state.Closed?)
  }

  /** What was exchanged before the write lock was also linked before it. */
  ghost predicate MarkOk(s: State) {
    Destroying(s.main) ==>
      && 0 < s.mark <= |s.q.chain|
      && (forall t :: t in s.q.producers && s.q.producers[t].Exchanged? ==> s.mark <= s.q.producers[t].at)
      && (!s.late ==> s.mark == |s.q.chain| && forall t :: t in s.loggers ==> s.loggers[t].Checked?)
  }

  /** The item the worker has taken but not finished. */
  function InHand(s: State): Option<Item> {
    match s.worker
    case Processing(item, _) => Some(item)
    case Reading(_) =>
      (match s.q.consumer
       case Moved(_, v) => Some(v)
       case Result(Some(v)) => Some(v)
       case _ => None)
    case _ => None
  }

  function Finished(s: State): seq<Item> {
    if InHand(s).Some? && s.q.consumed != [] then s.q.consumed[..|s.q.consumed| - 1] else s.q.consumed
  }

  ghost predicate CallsOk(s: State) {
    && (InHand(s).Some? ==> s.q.consumed != [] && s.q.consumed[|s.q.consumed| - 1] == InHand(s).value)
    && (s.calls, s.writes) == Dispatched(s.registry, Finished(s), s.outcome, 0)
  }

  ghost predicate AllRead(s: State) {
    s.q.h + 1 == |s.q.chain|
  }

  /** The read under way has found nothing. */
  ghost predicate FoundNothing(s: State) {
    s.worker.Reading? && (s.q.consumer == Mpsc.Result(None)
                          || (s.q.consumer.HaveNext? && s.q.consumer.next.None?))
  }

  /** A worker about to park, or parked, with work left has a post to come. */
  ghost predicate WakeupOk(s: State) {
    (s.worker.Waiting? || FoundNothing(s)) && !AllRead(s) ==> s.sem > 0 || SomeInFlight(s)
  }

  /** The last drain reaches the mark. */
  ghost predicate LastDrainOk(s: State) {
    (FoundNothing(s) && s.worker.last) || s.worker.Closing? || s.worker.Exited? ==> s.mark <= s.q.h + 1
  }

  ghost predicate Inv(s: State) {
    QueueOk(s) && LoggersOk(s) && ControlOk(s) && MarkOk(s) && CallsOk(s) && WakeupOk(s) && LastDrainOk(s)
  }

  // ----- What a step of each actor touches -----

  /** A step of logger t. */
  ghost predicate LoggerStepped(s: State, t: Tid, s': State) {
    && s' == s.(q := s'.q, sem := s'.sem, loggers := s'.loggers, late := s'.late)
    && s'.q.consumer == s.q.consumer && s'.q.h == s.q.h && s'.q.consumed == s.q.consumed
    && s.sem <= s'.sem && |s.q.chain| <= |s'.q.chain|
    && (forall u :: u != t ==> (u in s'.loggers <==> u in s.loggers))
    && (forall u :: u != t && u in s.loggers ==> s'.loggers[u] == s.loggers[u])
    && (forall u :: u != t ==> (u in s'.q.producers <==> u in s.q.producers))
    && (forall u :: u != t && u in s.q.producers ==> s'.q.producers[u] == s.q.producers[u])
    && (s.sem < s'.sem || |s.q.chain| < |s'.q.chain| ==> t in s.loggers && !s.loggers[t].Checked?)
    && (|s.q.chain| < |s'.q.chain| ==> InFlight(s', t))
    && (InFlight(s, t) ==> InFlight(s', t) || s.sem < s'.sem)
    && (t in s'.q.producers <==> LoggerAt(s', t, Writing))
    && (s.late ==> s'.late)
    && (t in s'.loggers && !s'.loggers[t].Checked? ==>
          (t in s.loggers && !s.loggers[t].Checked?) || (!s.main.WriteLocked? && (Destroying(s.main) ==> s'.late)))
    && (t in s'.q.producers && s'.q.producers[t].Exchanged? ==>
          (t in s.q.producers && s'.q.producers[t] == s.q.producers[t]) || s'.q.producers[t].at == |s.q.chain|)
    && (t in s'.loggers && t !in s.loggers ==> s.main.Running?)
  }

  /** A step of the worker. */
  ghost predicate WorkerStepped(s: State, s': State) {
    && s' == s.(q := s'.q, sem := s'.sem, worker := s'.worker, state := s'.state, calls := s'.calls, writes := s'.writes)
    && s'.q.producers == s.q.producers && s'.q.chain == s.q.chain
  }

  predicate IsLog(a: Action) {
    || a.LogCheck? || a.LogLock? || a.LogAlloc? || a.LogNoMemory?
    || a.LogExchange? || a.LogLink? || a.LogPost? || a.LogUnlock?
  }

  lemma InputEffect(q: Mpsc.State<Item>, qa: Mpsc.Action<Item>, q': Mpsc.State<Item>)
    requires Mpsc.Enabled(q, qa) && q' == Mpsc.Apply(q, qa) && (qa.Alloc? || qa.Exchange? || qa.Link?)
    ensures forall t :: t in q'.producers <==> (t in q.producers || (qa.Alloc? && t == qa.t)) && !(qa.Link? && t == qa.t)
    ensures q'.consumer == q.consumer && q'.h == q.h && q'.consumed == q.consumed
    ensures |q'.chain| == (if qa.Exchange? then |q.chain| + 1 else |q.chain|)
    ensures forall t :: t in q'.producers && t != qa.t ==> q'.producers[t] == q.producers[t]
    ensures qa.Alloc? ==> q'.producers[qa.t].Allocated?
    ensures qa.Exchange? ==> q'.producers[qa.t].Exchanged? && q'.producers[qa.t].at == |q.chain|
  {}

  lemma OutEffect(q: Mpsc.State<Item>, qa: Mpsc.Action<Item>, q': Mpsc.State<Item>)
    requires Mpsc.Enabled(q, qa) && q' == Mpsc.Apply(q, qa) && !(qa.Alloc? || qa.Exchange? || qa.Link?)
    ensures q'.producers == q.producers && q'.chain == q.chain && q'.vals == q.vals && q'.owner == q.owner
    ensures q'.h == (if qa.OutStore? then q.h + 1 else q.h)
    ensures q'.consumed == (if qa.OutStore? then q.consumed + [q.consumer.v] else q.consumed)
    ensures qa.OutReturn? <==> q'.consumer.Out?
  {}

  /** The queue's part of a logger's step. */
  function Input(s: State, a: Action): Mpsc.Action<Item>
    requires a.LogAlloc? || a.LogExchange? || a.LogLink?
    requires a.LogAlloc? ==> a.t in s.loggers && s.loggers[a.t].Locked?
  {
    match a
    case LogAlloc(t, n) => Mpsc.Alloc(t, s.loggers[t].item, n)
    case LogExchange(t) => Mpsc.Exchange(t)
    case LogLink(t) => Mpsc.Link(t)
  }

  lemma LoggerSteps(s: State, a: Action)
    requires QueueOk(s) && IsLog(a) && Enabled(s, a)
    ensures LoggerStepped(s, a.t, Apply(s, a))
  {
    hide Mpsc.Inv;
    if a.LogAlloc? || a.LogExchange? || a.LogLink? {
      InputSteps(s, a, Apply(s, a));
    } else if a.LogCheck? || a.LogLock? || a.LogPost? {
      LockSteps(s, a, Apply(s, a));
    }
  }

  lemma LockSteps(s: State, a: Action, s': State)
    requires QueueOk(s) && (a.LogCheck? || a.LogLock? || a.LogPost?) && Enabled(s, a) && s' == Apply(s, a)
    ensures LoggerStepped(s, a.t, s')
  {
    hide Mpsc.Inv;
  }

  lemma InputSteps(s: State, a: Action, s': State)
    requires (a.LogAlloc? || a.LogExchange? || a.LogLink?) && Enabled(s, a) && s' == Apply(s, a)
    ensures LoggerStepped(s, a.t, s')
  {
    InputEffect(s.q, Input(s, a), s'.q);
  }

  // ----- Steps of the loggers -----

  lemma LoggerQueue(s: State, a: Action, q': Mpsc.State<Item>)
    requires QueueOk(s) && IsLog(a) && Enabled(s, a) && q' == Apply(s, a).q
    ensures Mpsc.Inv(q')
  {
    if a.LogAlloc? || a.LogExchange? || a.LogLink? {
      assert q' == Mpsc.Apply(s.q, Input(s, a));
      Mpsc.InvStep(s.q, Input(s, a));
    }
  }

  lemma LoggerKeeps(s: State, t: Tid, s': State)
    requires LoggerStepped(s, t, s')
    ensures LoggersOk(s) ==> LoggersOk(s')
    ensures LoggersOk(s) && ControlOk(s) ==> ControlOk(s')
    ensures LastDrainOk(s) ==> LastDrainOk(s')
    ensures CallsOk(s) ==> CallsOk(s')
  {
    assert InHand(s') == InHand(s) && Finished(s') == Finished(s);
  }

  lemma LoggerMark(s: State, t: Tid, s': State)
    requires LoggerStepped(s, t, s') && MarkOk(s)
    ensures MarkOk(s')
  {}

  lemma LoggerWakeup(s: State, t: Tid, s': State)
    requires LoggerStepped(s, t, s') && WakeupOk(s)
    ensures WakeupOk(s')
  {
    if SomeInFlight(s) {
      var u :| InFlight(s, u);
      assert u != t ==> InFlight(s', u);
    }
  }

  lemma LoggerInv(s: State, t: Tid, s': State)
    requires Inv(s) && LoggerStepped(s, t, s') && Mpsc.Inv(s'.q)
    ensures Inv(s')
  {
    LoggerKeeps(s, t, s');
    LoggerMark(s, t, s');
    LoggerWakeup(s, t, s');
    assert QueueOk(s');
  }

  // ----- Steps of the main thread -----

  lemma MainInv(s: State)
    requires Inv(s) && MainEnabled(s)
    ensures Inv(MainNext(s))
  {
    var s' := MainNext(s);
    MainControl(s, s');
    assert |s.q.chain| > 0;
    MainMark(s, s');
    MainFrame(s, s');
    MainRest(s, s');
  }

  lemma MainControl(s: State, s': State)
    requires LoggersOk(s) && ControlOk(s) && MainEnabled(s) && s' == MainNext(s)
    ensures LoggersOk(s') && ControlOk(s')
  {}

  lemma MainMark(s: State, s': State)
    requires MarkOk(s) && MainEnabled(s) && s' == MainNext(s)
    requires |s.q.chain| > 0 && forall t :: t in s.q.producers ==> LoggerAt(s, t, Writing)
    ensures MarkOk(s')
  {
    if s.main.Stopping? {
      TakesMark(s, s');
    } else {
      assert Destroying(s'.main) ==> Destroying(s.main);
      assert s'.q == s.q && s'.loggers == s.loggers && s'.mark == s.mark && s'.late == s.late;
      SameMark(s, s');
    }
  }

  lemma TakesMark(s: State, s': State)
    requires s.main.Stopping? && MainEnabled(s) && s' == s.(main := WriteLocked, mark := |s.q.chain|)
    requires |s.q.chain| > 0 && forall t :: t in s.q.producers ==> LoggerAt(s, t, Writing)
    ensures MarkOk(s')
  {
    assert forall t :: t in s.q.producers ==> t in s.loggers && HoldsReadLock(s.loggers[t]);
  }

  lemma SameMark(s: State, s': State)
    requires MarkOk(s) && (Destroying(s'.main) ==> Destroying(s.main))
    requires s'.q == s.q && s'.loggers == s.loggers && s'.mark == s.mark && s'.late == s.late
    ensures MarkOk(s')
  {}

  lemma MainFrame(s: State, s': State)
    requires MainEnabled(s) && s' == MainNext(s)
    ensures s' == s.(main := s'.main, state := s'.state, sem := s'.sem, mark := s'.mark, overwritten := s'.overwritten)
    ensures s.sem <= s'.sem && (s'.mark == s.mark || (s.main.Stopping? && s'.mark == |s.q.chain|))
  {
    MainCounts(s, s');
  }

  lemma MainCounts(s: State, s': State)
    requires MainEnabled(s) && s' == MainNext(s)
    ensures s.sem <= s'.sem && (s'.mark == s.mark || (s.main.Stopping? && s'.mark == |s.q.chain|))
  {}

  lemma MainRest(s: State, s': State)
    requires s' == s.(main := s'.main, state := s'.state, sem := s'.sem, mark := s'.mark, overwritten := s'.overwritten)
    requires s.sem <= s'.sem && (s'.mark == s.mark || (s.main.Stopping? && s'.mark == |s.q.chain|))
    requires ControlOk(s) && CallsOk(s) && WakeupOk(s) && LastDrainOk(s)
    ensures QueueOk(s) ==> QueueOk(s')
    ensures CallsOk(s') && WakeupOk(s') && LastDrainOk(s')
  {
    KeptInFlight(s, s');
    assert Finished(s') == Finished(s);
  }

  // ----- Steps of the worker -----

  lemma WorkerQueue(s: State, a: Action, s': State)
    requires QueueOk(s) && !IsLog(a) && !a.MainStep? && Enabled(s, a) && s' == Apply(s, a)
    ensures QueueOk(s') && WorkerStepped(s, s')
  {
    if a.Read? {
      WorkerRead(s, a.a, s');
    } else if a.ReadDone? {
      WorkerReadDone(s, s');
    } else {
      WorkerElsewhere(s, a, s');
    }
  }

  lemma WorkerRead(s: State, qa: Mpsc.Action<Item>, s': State)
    requires QueueOk(s) && Enabled(s, Read(qa)) && s' == Apply(s, Read(qa))
    ensures QueueOk(s') && WorkerStepped(s, s')
  {
    hide QueueOk;
    WorkerReads(s, qa, s');
  }

  lemma WorkerReadDone(s: State, s': State)
    requires QueueOk(s) && Enabled(s, ReadDone) && s' == Apply(s, ReadDone)
    ensures QueueOk(s') && WorkerStepped(s, s')
  {
    hide QueueOk;
    WorkerReads(s, Mpsc.OutReturn, s');
  }

  lemma WorkerElsewhere(s: State, a: Action, s': State)
    requires QueueOk(s) && (a.SemWait? || a.LoadState? || a.Process? || a.StoreClosed?) && Enabled(s, a) && s' == Apply(s, a)
    ensures QueueOk(s') && WorkerStepped(s, s')
  {
    assert s.q.consumer.Out?;
    hide QueueOk;
    ElsewhereFrame(s, a, s');
    StillQueueOk(s, s');
  }

  lemma ElsewhereFrame(s: State, a: Action, s': State)
    requires (a.SemWait? || a.LoadState? || a.Process? || a.StoreClosed?) && Enabled(s, a) && s' == Apply(s, a)
    ensures s'.q == s.q && s'.loggers == s.loggers && WorkerStepped(s, s')
  {}

  lemma StillQueueOk(s: State, s': State)
    requires QueueOk(s) && s'.q == s.q && s'.loggers == s.loggers && s.q.consumer.Out?
    ensures QueueOk(s')
  {
    hide Mpsc.Inv;
  }

  lemma WorkerReads(s: State, qa: Mpsc.Action<Item>, s': State)
    requires Mpsc.Enabled(s.q, qa) && s'.q == Mpsc.Apply(s.q, qa) && !(qa.Alloc? || qa.Exchange? || qa.Link?)
    requires s' == s.(q := s'.q, worker := s'.worker) && s.worker.Reading?
    requires qa.OutReturn? || s'.worker == s.worker
    ensures WorkerStepped(s, s')
    ensures QueueOk(s) ==> QueueOk(s')
  {
    hide Mpsc.Inv;
    OutEffect(s.q, qa, s'.q);
    if QueueOk(s) { Mpsc.InvStep(s.q, qa); }
  }

  lemma WorkerControl(s: State, a: Action, s': State)
    requires LoggersOk(s) && ControlOk(s) && !IsLog(a) && !a.MainStep? && Enabled(s, a) && s' == Apply(s, a)
    requires WorkerStepped(s, s')
    ensures LoggersOk(s') && ControlOk(s')
  {}

  lemma WorkerMark(s: State, s': State)
    requires MarkOk(s) && WorkerStepped(s, s')
    ensures MarkOk(s')
  {}

  lemma ReadCalls(s: State, qa: Mpsc.Action<Item>, s': State)
    requires CallsOk(s) && Enabled(s, Read(qa)) && s' == Apply(s, Read(qa))
    ensures CallsOk(s')
  {
    ReadApplied(s, qa);
    ReadHand(s, qa, s');
    hide Enabled, Apply, Mpsc.Enabled, Mpsc.Apply, Dispatched, InHand, Finished;
  }

  lemma ReadApplied(s: State, qa: Mpsc.Action<Item>)
    requires Enabled(s, Read(qa))
    ensures Mpsc.Enabled(s.q, qa) && Apply(s, Read(qa)) == s.(q := Mpsc.Apply(s.q, qa))
  {}

  lemma ReadHand(s: State, qa: Mpsc.Action<Item>, s': State)
    requires s.worker.Reading? && IsRead(qa) && Mpsc.Enabled(s.q, qa) && s' == s.(q := Mpsc.Apply(s.q, qa))
    requires InHand(s).Some? ==> s.q.consumed != [] && s.q.consumed[|s.q.consumed| - 1] == InHand(s).value
    ensures InHand(s').Some? ==> s'.q.consumed != [] && s'.q.consumed[|s'.q.consumed| - 1] == InHand(s').value
    ensures Finished(s') == Finished(s)
  {}

  lemma ProcessCalls(s: State)
    requires QueueOk(s) && CallsOk(s) && Enabled(s, Process)
    ensures CallsOk(Apply(s, Process))
  {
    var s' := Apply(s, Process);
    var c := s.q.consumed;
    DispatchedNext(s.registry, c, |c| - 1, s.outcome, 0);
    assert c[..|c|] == c;
    assert Finished(s') == c;
  }

  lemma WorkerCalls(s: State, a: Action)
    requires QueueOk(s) && CallsOk(s) && !IsLog(a) && !a.MainStep? && Enabled(s, a)
    ensures CallsOk(Apply(s, a))
  {
    if a.Read? {
      ReadCalls(s, a.a, Apply(s, a));
    } else if a.Process? {
      ProcessCalls(s);
    } else {
      OtherCalls(s, a, Apply(s, a));
    }
  }

  lemma OtherCalls(s: State, a: Action, s': State)
    requires CallsOk(s) && Enabled(s, a) && s' == Apply(s, a)
    requires a.SemWait? || a.LoadState? || a.ReadDone? || a.StoreClosed?
    requires !s.q.consumer.Out? ==> s.worker.Reading?
    ensures CallsOk(s')
  {
    hide CallsOk;
    if a.ReadDone? { ReadDoneHand(s, s'); } else { ElsewhereHand(s, a, s'); }
    hide Apply, Enabled, InHand, Mpsc.Apply;
    SameCalls(s, s');
  }

  lemma ReadDoneHand(s: State, s': State)
    requires Enabled(s, ReadDone) && s' == Apply(s, ReadDone)
    ensures InHand(s') == InHand(s) && s' == s.(q := s'.q, worker := s'.worker) && s'.q.consumed == s.q.consumed
  {
    OutEffect(s.q, Mpsc.OutReturn, s'.q);
  }

  lemma ElsewhereHand(s: State, a: Action, s': State)
    requires (a.SemWait? || a.LoadState? || a.StoreClosed?) && Enabled(s, a) && s' == Apply(s, a)
    requires !s.q.consumer.Out? ==> s.worker.Reading?
    ensures InHand(s') == InHand(s) && s' == s.(sem := s'.sem, worker := s'.worker, state := s'.state)
  {}

  lemma SameCalls(s: State, s': State)
    requires CallsOk(s) && InHand(s') == InHand(s) && s'.q.consumed == s.q.consumed
    requires s'.calls == s.calls && s'.writes == s.writes && s'.registry == s.registry && s'.outcome == s.outcome
    ensures CallsOk(s')
  {}

  /** A read that finds nothing though the queue is not drained has met a producer about to link. */
  lemma FindsNothing(s: State, qa: Mpsc.Action<Item>)
    requires QueueOk(s) && Enabled(s, Read(qa)) && !AllRead(s)
    requires FoundNothing(Apply(s, Read(qa))) && !FoundNothing(s)
    ensures |s.q.chain| == |s.q.owner| && s.q.h + 1 < |s.q.chain|
    ensures var t := s.q.owner[s.q.h + 1];
            LoggerAt(s, t, Writing) && t in s.q.producers && s.q.producers[t].Exchanged? && s.q.producers[t].at == s.q.h + 1
  {
    assert Mpsc.NextOk(s.q, s.q.h);
    assert qa.OutLoadNext?;
    assert Mpsc.Pending(s.q, s.q.h + 1);
  }

  lemma ReadWakeup(s: State, qa: Mpsc.Action<Item>, s': State)
    requires QueueOk(s) && WakeupOk(s) && LastDrainOk(s) && MarkOk(s) && Enabled(s, Read(qa)) && s' == Apply(s, Read(qa))
    requires s.worker.last ==> Ended(s.main)
    ensures WakeupOk(s') && LastDrainOk(s')
  {
    OutEffect(s.q, qa, s'.q);
    if FoundNothing(s') {
      if FoundNothing(s) {
        KeptInFlight(s, s');
      } else if !AllRead(s) {
        FindsNothing(s, qa);
        assert InFlight(s', s.q.owner[s.q.h + 1]);
      }
    }
  }

  lemma KeptInFlight(s: State, s': State)
    requires s'.q.producers == s.q.producers && s'.loggers == s.loggers
    ensures SomeInFlight(s) ==> SomeInFlight(s')
  {
    if SomeInFlight(s) {
      var t :| InFlight(s, t);
      assert InFlight(s', t);
    }
  }

  lemma WorkerWakeup(s: State, a: Action, s': State)
    requires QueueOk(s) && ControlOk(s) && MarkOk(s) && WakeupOk(s) && LastDrainOk(s)
    requires !IsLog(a) && !a.MainStep? && Enabled(s, a) && s' == Apply(s, a)
    ensures WakeupOk(s') && LastDrainOk(s')
  {
    if a.Read? {
      ReadWakeup(s, a.a, s');
    } else {
      KeptInFlight(s, s');
      if a.ReadDone? { OutEffect(s.q, Mpsc.OutReturn, s'.q); }
    }
  }

  lemma WorkerInv(s: State, a: Action)
    requires Inv(s) && !IsLog(a) && !a.MainStep? && Enabled(s, a)
    ensures Inv(Apply(s, a))
  {
    var s' := Apply(s, a);
    WorkerQueue(s, a, s');
    WorkerControl(s, a, s');
    WorkerMark(s, s');
    WorkerCalls(s, a);
    WorkerWakeup(s, a, s');
  }

  lemma InvStep(s: State, a: Action)
    requires Inv(s) && Enabled(s, a)
    ensures Inv(Apply(s, a))
  {
    if IsLog(a) {
      LoggerSteps(s, a);
      LoggerQueue(s, a, Apply(s, a).q);
      LoggerInv(s, a.t, Apply(s, a));
    } else if a.MainStep? {
      MainInv(s);
    } else {
      WorkerInv(s, a);
    }
  }
}
