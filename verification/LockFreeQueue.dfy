/** The lock-free queue (source/utils/clog_atomic_queue.c) running on the reclaimer of module Ebr, as a
  * step machine over any number of threads: one atomic load, store or compare-exchange per step, the
  * reclaimer's merged steps (module Ebr) excepted.
  *
  * Auxiliary, read by no decision: `chain` (every node ever linked, in link order) with `vals` and `pos`,
  * the positions `h` and `tl` of head and tail in it, `log` (the linearization of the operations), and in
  * a thread `lin`, `h0` and the positions `ti` and `hi`.
  */
module LockFreeQueue {
  import opened Common
  import Ebr

  type Tid = Ebr.Tid
  type Ptr = Ebr.Ptr
  type Value = nat

  datatype Node = Node(next: Option<Ptr>, data: Value)

  datatype Event = Enq(t: Tid, v: Value) | Deq(t: Tid, v: Value) | Empty(t: Tid)

  datatype Pc =
    | Ready
    | EEntering(v: Value, n: Ptr)
    | ELoop(v: Value, n: Ptr)
    | EHaveTail(v: Value, n: Ptr, tail: Ptr, ti: nat)
    | EHaveNext(v: Value, n: Ptr, tail: Ptr, ti: nat, next: Option<Ptr>)
    | EChecked(v: Value, n: Ptr, tail: Ptr, ti: nat)
    | ELinked(v: Value, n: Ptr, tail: Ptr, ti: nat)
    | EExit(v: Value)
    | DEntering
    | DLoop
    | DHead(head: Ptr, hi: nat)
    | DTail(head: Ptr, hi: nat, tail: Ptr, ti: nat)
    | DNext(head: Ptr, hi: nat, tail: Ptr, ti: nat, next: Option<Ptr>)
    | DChecked(head: Ptr, hi: nat, nxt: Ptr)
    | DTaken(head: Ptr, hi: nat, nxt: Ptr)
    | DRead(head: Ptr, hi: nat, nxt: Ptr, v: Value)
    | DRetire(head: Ptr, hi: nat, v: Value)
    | DRetiring(head: Ptr, hi: nat, v: Value)
    | DExit(res: Option<Value>)

  datatype Thread = Thread(pc: Pc, lin: Option<Event>, h0: nat)

  datatype State = State(
    ebr: Ebr.State,
    nodes: map<Ptr, Node>,
    head: Ptr,
    tail: Ptr,
    threads: map<Tid, Thread>,
    chain: seq<Ptr>,
    vals: seq<Value>,
    pos: map<Ptr, nat>,
    h: nat,
    tl: nat,
    log: seq<Event>)

  /** `Reclaimer` is a step of the reclaimer that no queue operation makes: a registration's mutex step
    * or any step of a poll.  The other names follow the C functions. */
  datatype Action =
    | Reclaimer(a: Ebr.Action)
    | Attach(t: Tid)
    | Detach(t: Tid)
    | EnqStart(t: Tid, v: Value, n: Ptr)
    | DeqStart(t: Tid)
    | EnterLoad(t: Tid)
    | EnterCas(t: Tid)
    | EnqLoadTail(t: Tid)
    | EnqLoadNext(t: Tid)
    | EnqDecide(t: Tid)
    | EnqLink(t: Tid)
    | EnqSwing(t: Tid)
    | DeqLoadHead(t: Tid)
    | DeqLoadTail(t: Tid)
    | DeqLoadNext(t: Tid)
    | DeqDecide(t: Tid)
    | DeqCas(t: Tid)
    | DeqRead(t: Tid)
    | DeqClear(t: Tid)
    | DeqRetire(t: Tid)
    | DeqNoMemory(t: Tid)
    | DeqRetireStep(t: Tid)
    | Return(t: Tid)

  ghost predicate Init(s: State) {
    && Ebr.Init(s.ebr)
    && s == State(s.ebr, map[0 := Node(None, 0)], 0, 0, map[], [0], [0], map[0 := 0], 0, 0, [])
  }

  predicate IsReclaimerStep(a: Ebr.Action) {
    || a.RegisterLock? || a.RegisterUnlock? || a.PollStart? || a.PollLoadEpoch? || a.PollLoadHead? || a.PollFree?
    || a.PollClear? || a.PollLock? || a.PollScan? || a.PollDone? || a.PollUnlock?
  }

  predicate Here(s: State, t: Tid) {
    t in s.threads && t in s.ebr.threads
  }

  /** The next step of a thread inside clog_ebr_defer_release_global. */
  function RetireStep(s: State, t: Tid): Ebr.Action
    requires Here(s, t)
  {
    match s.ebr.threads[t].pc
    case Tagged(_, _, _) => Ebr.RetireLoadHead(t)
    case Headed(_, _, _, _) => Ebr.RetireCas(t)
    case _ => Ebr.RetireLoadEpoch(t)
  }

  /** The reclaimer's part of a step. */
  function EbrPart(s: State, a: Action): Option<Ebr.Action> {
    match a
    case Reclaimer(e) => Some(e)
    case Attach(t) => Some(Ebr.RegisterInsert(t))
    case Detach(t) => Some(Ebr.Unregister(t))
    case EnterLoad(t) => Some(Ebr.EnterLoad(t))
    case EnterCas(t) => Some(Ebr.EnterCas(t, false))
    case DeqRetire(t) => if Here(s, t) && s.threads[t].pc.DRetire? then Some(Ebr.RetireAlloc(t, s.threads[t].pc.head)) else None
    case DeqNoMemory(t) => if Here(s, t) && s.threads[t].pc.DRetire? then Some(Ebr.RetireNoMemory(t, s.threads[t].pc.head)) else None
    case DeqRetireStep(t) => if Here(s, t) then Some(RetireStep(s, t)) else None
    case Return(t) => Some(Ebr.Exit(t))
    case _ => None
  }

  /** The thread is where the step starts. */
  predicate PcEnabled(s: State, a: Action) {
    match a
    case Reclaimer(e) => IsReclaimerStep(e)
    case Attach(t) => t !in s.threads
    case Detach(t) => Here(s, t) && s.threads[t].pc.Ready?
    case EnqStart(t, v, n) =>
      && Here(s, t) && s.threads[t].pc.Ready? && s.ebr.threads[t].state.Inactive?
      && n !in s.nodes
    case DeqStart(t) => Here(s, t) && s.threads[t].pc.Ready? && s.ebr.threads[t].state.Inactive?
    case EnterLoad(t) => Here(s, t) && (s.threads[t].pc.EEntering? || s.threads[t].pc.DEntering?)
    case EnterCas(t) => Here(s, t) && (s.threads[t].pc.EEntering? || s.threads[t].pc.DEntering?)
    case EnqLoadTail(t) => Here(s, t) && s.threads[t].pc.ELoop?
    case EnqLoadNext(t) => Here(s, t) && s.threads[t].pc.EHaveTail? && s.threads[t].pc.tail in s.nodes
    case EnqDecide(t) => Here(s, t) && s.threads[t].pc.EHaveNext?
    case EnqLink(t) => Here(s, t) && s.threads[t].pc.EChecked? && s.threads[t].pc.tail in s.nodes
    case EnqSwing(t) => Here(s, t) && s.threads[t].pc.ELinked?
    case DeqLoadHead(t) => Here(s, t) && s.threads[t].pc.DLoop?
    case DeqLoadTail(t) => Here(s, t) && s.threads[t].pc.DHead?
    case DeqLoadNext(t) => Here(s, t) && s.threads[t].pc.DTail? && s.threads[t].pc.head in s.nodes
    case DeqDecide(t) => Here(s, t) && s.threads[t].pc.DNext?
    case DeqCas(t) => Here(s, t) && s.threads[t].pc.DChecked?
    case DeqRead(t) => Here(s, t) && s.threads[t].pc.DTaken? && s.threads[t].pc.nxt in s.nodes
    case DeqClear(t) => Here(s, t) && s.threads[t].pc.DRead? && s.threads[t].pc.nxt in s.nodes
    case DeqRetire(t) => Here(s, t) && s.threads[t].pc.DRetire?
    case DeqNoMemory(t) => Here(s, t) && s.threads[t].pc.DRetire?
    case DeqRetireStep(t) => Here(s, t) && s.threads[t].pc.DRetiring?
    case Return(t) => Here(s, t) && (s.threads[t].pc.EExit? || s.threads[t].pc.DExit?)
  }

  predicate Enabled(s: State, a: Action) {
    PcEnabled(s, a) && (EbrPart(s, a).Some? ==> Ebr.Enabled(s.ebr, EbrPart(s, a).value))
  }

  function Move(s: State, t: Tid, pc: Pc): State
    requires t in s.threads
  {
    s.(threads := s.threads[t := s.threads[t].(pc := pc)])
  }

  /** The operation of t takes effect here. */
  function Linearize(s: State, t: Tid, pc: Pc, e: Event): State
    requires t in s.threads
  {
    s.(threads := s.threads[t := s.threads[t].(pc := pc, lin := Some(e))], log := s.log + [e])
  }

  /** clog_ebr_enter inside an operation; afterwards the loop starts. */
  function Entered(s: State, t: Tid): State
    requires t in s.threads
  {
    var th := s.threads[t];
    var pc := if th.pc.EEntering? then ELoop(th.pc.v, th.pc.n) else DLoop;
    s.(threads := s.threads[t := th.(pc := pc, h0 := s.h)])
  }

  function AdvanceTail(s: State, expected: Ptr, next: Ptr): State {
    if s.tail == expected then s.(tail := next, tl := s.tl + 1) else s
  }

  function Decide(s: State, t: Tid): State
    requires t in s.threads && s.threads[t].pc.EHaveNext?
  {
    var pc := s.threads[t].pc;
    if pc.next.Some? then Move(AdvanceTail(s, pc.tail, pc.next.value), t, ELoop(pc.v, pc.n))
    else if pc.tail == s.tail then Move(s, t, EChecked(pc.v, pc.n, pc.tail, pc.ti))
    else Move(s, t, ELoop(pc.v, pc.n))
  }

  function Link(s: State, t: Tid): State
    requires t in s.threads && s.threads[t].pc.EChecked? && s.threads[t].pc.tail in s.nodes
  {
    var pc := s.threads[t].pc;
    if s.nodes[pc.tail].next.None? then
      Linearize(s, t, ELinked(pc.v, pc.n, pc.tail, pc.ti), Enq(t, pc.v))
      .(nodes := s.nodes[pc.tail := s.nodes[pc.tail].(next := Some(pc.n))],
        chain := s.chain + [pc.n], vals := s.vals + [pc.v], pos := s.pos[pc.n := |s.chain|])
    else Move(s, t, ELoop(pc.v, pc.n))
  }

  function DequeueDecide(s: State, t: Tid): State
    requires t in s.threads && s.threads[t].pc.DNext?
  {
    var pc := s.threads[t].pc;
    if pc.head == pc.tail && pc.next.None? then Move(s, t, DExit(None))
    else if pc.head == pc.tail then Move(AdvanceTail(s, pc.tail, pc.next.value), t, DLoop)
    else if pc.tail != s.tail then Move(s, t, DLoop)
    else if pc.next.Some? then Move(s, t, DChecked(pc.head, pc.hi, pc.next.value))
    else Move(s, t, DLoop)
  }

  function LoadNext(s: State, t: Tid): State
    requires t in s.threads && s.threads[t].pc.DTail? && s.threads[t].pc.head in s.nodes
  {
    var pc := s.threads[t].pc;
    var next := s.nodes[pc.head].next;
    var pc' := DNext(pc.head, pc.hi, pc.tail, pc.ti, next);
    if next.None? then Linearize(s, t, pc', Empty(t)) else Move(s, t, pc')
  }

  function Take(s: State, t: Tid): State
    requires t in s.threads && s.threads[t].pc.DChecked?
  {
    var pc := s.threads[t].pc;
    if s.head == pc.head then
      Linearize(s, t, DTaken(pc.head, pc.hi, pc.nxt), Deq(t, if s.h + 1 < |s.vals| then s.vals[s.h + 1] else 0))
      .(head := pc.nxt, h := s.h + 1)
    else Move(s, t, DLoop)
  }

  /** The queue's part of a step that leaves the reclaimer in `e`. */
  function QueuePart(s: State, a: Action, e: Ebr.State): State
    requires PcEnabled(s, a)
  {
    match a
    case Reclaimer(_) => s
    case Attach(t) => s.(threads := s.threads[t := Thread(Ready, None, 0)])
    case Detach(_) => s
    case EnqStart(t, v, n) =>
      s.(threads := s.threads[t := s.threads[t].(pc := EEntering(v, n), lin := None)], nodes := s.nodes[n := Node(None, v)])
    case DeqStart(t) => s.(threads := s.threads[t := s.threads[t].(pc := DEntering, lin := None)])
    case EnterLoad(_) => s
    case EnterCas(t) => Entered(s, t)
    case EnqLoadTail(t) => Move(s, t, EHaveTail(s.threads[t].pc.v, s.threads[t].pc.n, s.tail, s.tl))
    case EnqLoadNext(t) =>
      var pc := s.threads[t].pc;
      Move(s, t, EHaveNext(pc.v, pc.n, pc.tail, pc.ti, s.nodes[pc.tail].next))
    case EnqDecide(t) => Decide(s, t)
    case EnqLink(t) => Link(s, t)
    case EnqSwing(t) =>
      var pc := s.threads[t].pc;
      Move(AdvanceTail(s, pc.tail, pc.n), t, EExit(pc.v))
    case DeqLoadHead(t) => Move(s, t, DHead(s.head, s.h))
    case DeqLoadTail(t) => Move(s, t, DTail(s.threads[t].pc.head, s.threads[t].pc.hi, s.tail, s.tl))
    case DeqLoadNext(t) => LoadNext(s, t)
    case DeqDecide(t) => DequeueDecide(s, t)
    case DeqCas(t) => Take(s, t)
    case DeqRead(t) =>
      var pc := s.threads[t].pc;
      Move(s, t, DRead(pc.head, pc.hi, pc.nxt, s.nodes[pc.nxt].data))
    case DeqClear(t) =>
      var pc := s.threads[t].pc;
      Move(s, t, DRetire(pc.head, pc.hi, pc.v)).(nodes := s.nodes[pc.nxt := s.nodes[pc.nxt].(data := 0)])
    case DeqRetire(t) =>
      var pc := s.threads[t].pc;
      Move(s, t, DRetiring(pc.head, pc.hi, pc.v))
    case DeqNoMemory(t) => Move(s, t, DExit(Some(s.threads[t].pc.v)))
    case DeqRetireStep(t) =>
      if t in e.threads && e.threads[t].pc.Idle? then Move(s, t, DExit(Some(s.threads[t].pc.v))) else s
    case Return(t) => Move(s, t, Ready)
  }

  function EbrAfter(s: State, a: Action): Ebr.State
    requires Enabled(s, a)
  {
    match EbrPart(s, a)
    case Some(e) => Ebr.Apply(s.ebr, e)
    case None => s.ebr
  }

  function Apply(s: State, a: Action): State
    requires Enabled(s, a)
  {
    var e := EbrAfter(s, a);
    QueuePart(s, a, e).(ebr := e)
  }

  ghost predicate IsRun(run: seq<State>, acts: seq<Action>) {
    && |run| == |acts| + 1
    && Init(run[0])
    && forall i :: 0 <= i < |acts| ==> StepsTo(run, acts, i)
  }

  ghost predicate StepsTo(run: seq<State>, acts: seq<Action>, i: nat)
    requires i < |acts| && |run| == |acts| + 1
  {
    Enabled(run[i], acts[i]) && run[i + 1] == Apply(run[i], acts[i])
  }
}
