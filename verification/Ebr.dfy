/** Epoch-based reclamation (source/utils/clog_ebr.c) as a step machine.
  *
  * An atomic load, store or compare-exchange of the C functions is one step of one thread, and any step of
  * any thread may come next.  EnterLoad (load of the epoch, store into the handle), EnterCas (loads of both
  * states, exchange), RetireLoadHead (load of the head, store into the private entry), PollStart (load and
  * exchange of the global state) and a PollScan that ends the poll (load, store of the global state) merge
  * accesses of which only one depends on other threads or is seen by them; `early` in EnterCas is the answer of
  * a global state that was loaded before the destruction.  The poll runs at most once at a time (it owns the GC state), so
  * its program counter is part of the global state; which thread runs it makes no difference.
  * Addresses are allocation identities: a `Ptr` names one allocation and is never used twice.
  *
  * Auxiliary fields that no step reads for a decision: `clock` (the epoch without its wrap at three),
  * `section`, `enteredAt`, `tag`, `began`, `retired`, `freed` and `dropped`.
  */
module Ebr {
  import opened Common

  type Tid = nat
  type Ptr = nat

  const NUM_EPOCHS: nat := 3

  datatype LocalState = Active | Inactive | Released

  /** Where a thread stands in enter or in clog_ebr_defer_release_global. */
  datatype Pc =
    | Idle
    | Entering
    | Allocated(ptr: Ptr)
    | Tagged(ptr: Ptr, seen: nat, tag: nat)
    | Headed(ptr: Ptr, seen: nat, tag: nat, expected: Option<Ptr>)

  /** `epoch` is the field the C code writes on enter and reads nowhere. */
  datatype Thread = Thread(state: LocalState, epoch: nat, pc: Pc, section: nat, enteredAt: nat)

  datatype Entry = Entry(ptr: Ptr, tag: nat)

  /** Where the poll stands; everything but `Off` means the global state is ACTIVE_GC. */
  datatype Gc =
    | Off
    | Begun
    | Sampled(e: nat)
    | Walking(e: nat, todo: seq<Entry>)
    | Cleared(e: nat)
    | Scanning(e: nat, next: nat)
    | Advanced

  datatype Mutex = Unlocked | Registering(t: Tid) | Polling | Finishing

  datatype State = State(
    epoch: nat,
    threads: map<Tid, Thread>,
    registry: seq<Tid>,
    mutex: Mutex,
    lists: seq<seq<Entry>>,
    gc: Gc,
    inactive: bool,
    destroyed: bool,
    clock: nat,
    began: map<Ptr, nat>,
    retired: set<Ptr>,
    freed: multiset<Ptr>,
    dropped: set<Ptr>)

  datatype Action =
    | RegisterLock(t: Tid)
    | RegisterInsert(t: Tid)
    | RegisterUnlock(t: Tid)
    | EnterLoad(t: Tid)
    | EnterCas(t: Tid, early: bool)
    | Exit(t: Tid)
    | Unregister(t: Tid)
    | RetireAlloc(t: Tid, ptr: Ptr)
    | RetireNoMemory(t: Tid, ptr: Ptr)
    | RetireLoadEpoch(t: Tid)
    | RetireLoadHead(t: Tid)
    | RetireCas(t: Tid)
    | PollStart
    | PollLoadEpoch
    | PollLoadHead
    | PollFree
    | PollClear
    | PollLock
    | PollScan
    | PollDone
    | PollUnlock
    | Destroy
    | TryDestroy

  ghost predicate Init(s: State) {
    s == State(0, map[], [], Unlocked, [[], [], []], Off, false, false, 0, map[], {}, multiset{}, {})
  }

  /** Index of the list a poll that sampled epoch `e` clears. */
  function ClearIndex(e: nat): nat {
    (e + NUM_EPOCHS - 2) % NUM_EPOCHS
  }

  function HeadPtr(list: seq<Entry>): Option<Ptr> {
    if list == [] then None else Some(list[0].ptr)
  }

  predicate AtPc(s: State, t: Tid, idle: bool) {
    t in s.threads && (idle <==> s.threads[t].pc.Idle?)
  }

  predicate Enabled(s: State, a: Action) {
    && !s.destroyed
    && |s.lists| == NUM_EPOCHS
    && match a
       case RegisterLock(t) => s.mutex.Unlocked? && t !in s.threads
       case RegisterInsert(t) => s.mutex == Registering(t) && t !in s.threads
       case RegisterUnlock(t) => s.mutex == Registering(t) && t in s.threads
       case EnterLoad(t) => AtPc(s, t, true)
       case EnterCas(t, _) => AtPc(s, t, false) && s.threads[t].pc.Entering?
       case Exit(t) => AtPc(s, t, true)
       case Unregister(t) => AtPc(s, t, true)
       case RetireAlloc(t, p) => AtPc(s, t, true) && p !in s.began
       case RetireNoMemory(t, p) => AtPc(s, t, true) && p !in s.began
       case RetireLoadEpoch(t) => AtPc(s, t, false) && s.threads[t].pc.Allocated?
       case RetireLoadHead(t) => AtPc(s, t, false) && s.threads[t].pc.Tagged?
       case RetireCas(t) => AtPc(s, t, false) && s.threads[t].pc.Headed?
       case PollStart => s.gc.Off? && !s.inactive
       case PollLoadEpoch => s.gc.Begun?
       case PollLoadHead => s.gc.Sampled?
       case PollFree => s.gc.Walking? && s.gc.todo != []
       case PollClear => s.gc.Walking? && s.gc.todo == []
       case PollLock => s.gc.Cleared? && s.mutex.Unlocked?
       case PollScan => s.gc.Scanning?
       case PollDone => s.gc.Advanced?
       case PollUnlock => s.mutex.Finishing?
       case Destroy => s.gc.Off? && !s.inactive
       case TryDestroy =>
         && s.inactive && s.mutex.Unlocked?
         && forall t :: t in s.registry ==> t in s.threads && s.threads[t].state.Released?
  }

  function WithPc(s: State, t: Tid, pc: Pc): State
    requires t in s.threads
  {
    s.(threads := s.threads[t := s.threads[t].(pc := pc)])
  }

  function WithThread(s: State, t: Tid, th: Thread): State {
    s.(threads := s.threads[t := th])
  }

  function Push(s: State, t: Tid): State
    requires t in s.threads && s.threads[t].pc.Headed? && |s.lists| == NUM_EPOCHS
  {
    var pc := s.threads[t].pc;
    var k := pc.seen % NUM_EPOCHS;
    WithPc(s, t, Idle).(lists := s.lists[k := [Entry(pc.ptr, pc.tag)] + s.lists[k]], retired := s.retired + {pc.ptr})
  }

  function Ptrs(list: seq<Entry>): multiset<Ptr> {
    if list == [] then multiset{} else multiset{list[0].ptr} + Ptrs(list[1..])
  }

  /** One node of the registry per step; the thread found active ends the poll, the end of the registry
    * advances the epoch unless nobody is registered. */
  function Scan(s: State): State
    requires s.gc.Scanning?
  {
    if s.gc.next < |s.registry| then
      var t := s.registry[s.gc.next];
      if t in s.threads && s.threads[t].state.Active? then s.(gc := Off, mutex := Finishing)
      else s.(gc := s.gc.(next := s.gc.next + 1))
    else if s.registry == [] then s.(gc := Off, mutex := Finishing)
    else s.(gc := Advanced, epoch := (s.gc.e + 1) % NUM_EPOCHS, clock := s.clock + 1)
  }

  function Apply(s: State, a: Action): State
    requires Enabled(s, a)
  {
    match a
    case RegisterLock(t) => s.(mutex := Registering(t))
    case RegisterInsert(t) => WithThread(s, t, Thread(Inactive, s.epoch, Idle, 0, 0)).(registry := [t] + s.registry)
    case RegisterUnlock(_) => s.(mutex := Unlocked)
    case EnterLoad(t) => WithThread(s, t, s.threads[t].(epoch := s.epoch, pc := Entering))
    case EnterCas(t, early) =>
      if s.threads[t].state.Active? || (s.inactive && !early) then WithPc(s, t, Idle)
      else
        WithThread(s, t, s.threads[t].(state := Active, pc := Idle, section := s.threads[t].section + 1,
                                       enteredAt := s.clock))
    case Exit(t) => WithThread(s, t, s.threads[t].(state := Inactive))
    case Unregister(t) => WithThread(s, t, s.threads[t].(state := Released))
    case RetireAlloc(t, p) => WithPc(s, t, Allocated(p)).(began := s.began[p := s.clock])
    case RetireNoMemory(t, p) => s.(began := s.began[p := s.clock], dropped := s.dropped + {p})
    case RetireLoadEpoch(t) => WithPc(s, t, Tagged(s.threads[t].pc.ptr, s.epoch, s.clock))
    case RetireLoadHead(t) =>
      var pc := s.threads[t].pc;
      WithPc(s, t, Headed(pc.ptr, pc.seen, pc.tag, HeadPtr(s.lists[pc.seen % NUM_EPOCHS])))
    case RetireCas(t) =>
      var pc := s.threads[t].pc;
      if HeadPtr(s.lists[pc.seen % NUM_EPOCHS]) == pc.expected then Push(s, t) else WithPc(s, t, Allocated(pc.ptr))
    case PollStart => s.(gc := Begun)
    case PollLoadEpoch => s.(gc := Sampled(s.epoch))
    case PollLoadHead => s.(gc := Walking(s.gc.e, s.lists[ClearIndex(s.gc.e)]))
    case PollFree => s.(gc := s.gc.(todo := s.gc.todo[1..]), freed := s.freed + multiset{s.gc.todo[0].ptr})
    case PollClear => s.(gc := Cleared(s.gc.e), lists := s.lists[ClearIndex(s.gc.e) := []])
    case PollLock => s.(gc := Scanning(s.gc.e, 0), mutex := Polling)
    case PollScan => Scan(s)
    case PollDone => s.(gc := Off, mutex := Finishing)
    case PollUnlock => s.(mutex := Unlocked)
    case Destroy => s.(inactive := true)
    case TryDestroy =>
      s.(threads := map[], registry := [], lists := [[], [], []], destroyed := true,
         freed := s.freed + Ptrs(s.lists[0]) + Ptrs(s.lists[1]) + Ptrs(s.lists[2]))
  }

  /** A run: `acts[i]` leads from `run[i]` to `run[i + 1]`. */
  ghost predicate IsRun(run: seq<State>, acts: seq<Action>) {
    && |run| == |acts| + 1
    && Init(run[0])
    && forall i :: 0 <= i < |acts| ==> StepsTo(run, acts, i)
  }

  ghost predicate StepsTo(run: seq<State>, acts: seq<Action>, i: nat)
    requires i < |acts| && |run| == |acts| + 1
  {
    Enabled(run[i], acts[i]) && run[i + 1] == Apply(run[i], acts[i])
  }

  // ----- What every step keeps -----

  ghost predicate MembersOk(s: State) {
    && Distinct(s.registry)
    && (forall t :: t in s.registry ==> t in s.threads)
    && (forall t :: t in s.threads ==> t in s.registry)
  }

  ghost predicate RegistryOk(s: State) {
    && MembersOk(s)
    && (s.gc.Scanning? || s.gc.Advanced? <==> s.mutex.Polling?)
    && (s.gc.Scanning? ==> s.gc.next <= |s.registry|)
    && (s.mutex.Finishing? || s.mutex.Polling? ==> !s.destroyed)
    && (s.inactive ==> s.gc.Off?)
    && (s.destroyed ==> s.inactive && s.threads == map[])
  }

  ghost predicate EpochOk(s: State) {
    && |s.lists| == NUM_EPOCHS
    && s.epoch == s.clock % NUM_EPOCHS
    && (s.gc.Sampled? || s.gc.Walking? || s.gc.Cleared? || s.gc.Scanning? ==> s.gc.e == s.epoch)
  }

  /** A section sees at most one advance, and a thread the running scan has passed entered after it was
    * passed, so that the scan can account for it only once. */
  ghost predicate SectionsOk(s: State) {
    forall t :: t in s.threads && s.threads[t].state.Active? ==>
      && s.threads[t].enteredAt <= s.clock <= s.threads[t].enteredAt + 1
      && (s.gc.Scanning? && t in s.registry[..Min(s.gc.next, |s.registry|)] ==> s.threads[t].enteredAt == s.clock)
  }

  function Min(a: nat, b: nat): nat { if a < b then a else b }

  ghost predicate Timely(s: State, p: Ptr, tag: nat) {
    p in s.began && s.began[p] <= tag <= s.clock
  }

  ghost predicate PcOk(s: State, pc: Pc) {
    match pc
    case Idle => true
    case Entering => true
    case Allocated(p) => p in s.began && s.began[p] <= s.clock
    case Tagged(p, seen, tag) => Timely(s, p, tag) && seen == tag % NUM_EPOCHS
    case Headed(p, seen, tag, _) => Timely(s, p, tag) && seen == tag % NUM_EPOCHS
  }

  ghost predicate PcsOk(s: State) {
    forall t :: t in s.threads ==> PcOk(s, s.threads[t].pc)
  }

  ghost predicate ListOk(s: State, list: seq<Entry>, k: nat) {
    forall i :: 0 <= i < |list| ==> Timely(s, list[i].ptr, list[i].tag) && list[i].tag % NUM_EPOCHS == k
  }

  ghost predicate ListsOk(s: State) {
    && |s.lists| == NUM_EPOCHS
    && (forall k :: 0 <= k < NUM_EPOCHS ==> ListOk(s, s.lists[k], k))
    && (s.gc.Walking? ==> ListOk(s, s.gc.todo, ClearIndex(s.gc.e)))
  }

  /** Freed long enough after the retirement began that whoever is in a section entered it later. */
  ghost predicate FreedOk(s: State) {
    forall p :: p in s.freed && !s.destroyed ==>
      && p in s.began
      && s.began[p] + 2 <= s.clock
      && forall t :: t in s.threads && s.threads[t].state.Active? ==> s.began[p] < s.threads[t].enteredAt
  }

  ghost predicate Inv(s: State) {
    RegistryOk(s) && EpochOk(s) && SectionsOk(s) && PcsOk(s) && ListsOk(s) && FreedOk(s)
  }

  /** Handles come with an insertion into the registry and go with the teardown. */
  lemma KeysKept(s: State, a: Action)
    requires Enabled(s, a) && !a.RegisterInsert? && !a.TryDestroy?
    ensures Apply(s, a).registry == s.registry && Apply(s, a).threads.Keys == s.threads.Keys
  {}

  lemma MembersStep(s: State, a: Action)
    requires MembersOk(s) && Enabled(s, a)
    ensures MembersOk(Apply(s, a))
  {
    if a.RegisterInsert? {
      var s' := Apply(s, a);
      assert s'.registry == [a.t] + s.registry && s'.threads.Keys == s.threads.Keys + {a.t};
    } else if !a.TryDestroy? {
      KeysKept(s, a);
      SameMembers(s, Apply(s, a));
    }
  }

  lemma SameMembers(s: State, s': State)
    requires MembersOk(s) && s'.registry == s.registry && s'.threads.Keys == s.threads.Keys
    ensures MembersOk(s')
  {
    assert forall t :: t in s'.threads <==> t in s.threads.Keys;
  }

  lemma RegistryStep(s: State, a: Action)
    requires RegistryOk(s) && Enabled(s, a)
    ensures RegistryOk(Apply(s, a))
  {
    MembersStep(s, a);
    hide MembersOk;
  }

  lemma ActorGlobals(s: State, a: Action)
    requires Enabled(s, a) && Actor(a).Some?
    ensures var s' := Apply(s, a);
            s'.epoch == s.epoch && s'.clock == s.clock && s'.gc == s.gc && |s'.lists| == NUM_EPOCHS
  {}

  lemma EpochStep(s: State, a: Action)
    requires EpochOk(s) && RegistryOk(s) && Enabled(s, a)
    ensures EpochOk(Apply(s, a))
  {
    hide RegistryOk;
    if Actor(a).Some? { ActorGlobals(s, a); }
  }

  lemma SectionsStep(s: State, a: Action)
    requires SectionsOk(s) && RegistryOk(s) && Enabled(s, a)
    ensures SectionsOk(Apply(s, a))
  {
    if a.PollScan? {
      SectionsScan(s);
    } else if Actor(a).Some? {
      SectionsActor(s, a);
    } else if !a.TryDestroy? {
      var s' := Apply(s, a);
      assert s'.threads == s.threads && s'.clock == s.clock && s'.registry == s.registry;
      assert s'.gc.Scanning? ==> s'.gc == s.gc || s'.gc.next == 0;
      SectionsSame(s, s');
    }
  }

  lemma SectionsSame(s: State, s': State)
    requires SectionsOk(s) && s'.threads == s.threads && s'.clock == s.clock && s'.registry == s.registry
    requires s'.gc.Scanning? ==> s'.gc == s.gc || s'.gc.next == 0
    ensures SectionsOk(s')
  {}

  lemma SectionsScan(s: State)
    requires SectionsOk(s) && RegistryOk(s) && Enabled(s, PollScan)
    ensures SectionsOk(Apply(s, PollScan))
  {
    var n := s.gc.next;
    if n < |s.registry| {
      assert s.registry[..n + 1] == s.registry[..n] + [s.registry[n]];
    } else {
      assert s.registry[..n] == s.registry;
    }
  }

  /** What a thread's own step may do to its handle, as far as sections go. */
  lemma ActorSection(s: State, a: Action)
    requires Enabled(s, a) && Actor(a).Some?
    ensures var s', t := Apply(s, a), Actor(a).value;
            && s'.clock == s.clock && s'.gc == s.gc
            && (t in s'.threads && s'.threads[t].state.Active? ==>
                  || s'.threads[t].enteredAt == s.clock
                  || (t in s.threads && s.threads[t].state.Active? && s'.threads[t].enteredAt == s.threads[t].enteredAt))
  {}

  lemma SectionsActor(s: State, a: Action)
    requires SectionsOk(s) && RegistryOk(s) && Enabled(s, a) && Actor(a).Some?
    ensures SectionsOk(Apply(s, a))
  {
    var s' := Apply(s, a);
    ActorSection(s, a);
    OthersKept(s, a);
    if a.RegisterInsert? {
      assert !s.gc.Scanning?;
    } else {
      KeysKept(s, a);
    }
    SectionsCarried(s, s', Actor(a).value);
  }

  lemma SectionsCarried(s: State, s': State, t: Tid)
    requires SectionsOk(s) && s'.clock == s.clock && s'.gc == s.gc && (!s.gc.Scanning? || s'.registry == s.registry)
    requires forall u :: u in s'.threads && u != t ==> u in s.threads && s'.threads[u] == s.threads[u]
    requires t in s'.threads && s'.threads[t].state.Active? ==>
               || s'.threads[t].enteredAt == s.clock
               || (t in s.threads && s.threads[t].state.Active? && s'.threads[t].enteredAt == s.threads[t].enteredAt)
    ensures SectionsOk(s')
  {}

  lemma PcsStep(s: State, a: Action)
    requires PcsOk(s) && EpochOk(s) && Enabled(s, a)
    ensures PcsOk(Apply(s, a))
  {
    var s' := Apply(s, a);
    BeganKept(s, a);
    OthersKept(s, a);
    forall t | t in s'.threads ensures PcOk(s', s'.threads[t].pc) {
      if Actor(a) == Some(t) {
        ActorPc(s, a, t);
      } else {
        assert PcOk(s, s.threads[t].pc);
        PcKept(s, s', s.threads[t].pc);
      }
    }
  }

  lemma PcKept(s: State, s': State, pc: Pc)
    requires PcOk(s, pc) && s'.clock >= s.clock
    requires forall p :: p in s.began ==> p in s'.began && s'.began[p] == s.began[p]
    ensures PcOk(s', pc)
  {}

  lemma ActorPc(s: State, a: Action, t: Tid)
    requires PcsOk(s) && EpochOk(s) && Enabled(s, a) && Actor(a) == Some(t) && t in Apply(s, a).threads
    ensures PcOk(Apply(s, a), Apply(s, a).threads[t].pc)
  {
    if t in s.threads { assert PcOk(s, s.threads[t].pc); }
  }

  /** Nothing recorded about a retirement is ever taken back. */
  lemma BeganKept(s: State, a: Action)
    requires Enabled(s, a)
    ensures Apply(s, a).clock >= s.clock
    ensures forall p :: p in s.began ==> p in Apply(s, a).began && Apply(s, a).began[p] == s.began[p]
  {}

  lemma ListKept(s: State, s': State, list: seq<Entry>, k: nat)
    requires ListOk(s, list, k)
    requires s'.clock >= s.clock
    requires forall p :: p in s.began ==> p in s'.began && s'.began[p] == s.began[p]
    ensures ListOk(s', list, k)
  {}

  lemma ListsStep(s: State, a: Action)
    requires ListsOk(s) && PcsOk(s) && EpochOk(s) && Enabled(s, a)
    ensures ListsOk(Apply(s, a))
  {
    if a.RetireCas? {
      RetireCasLists(s, a);
    } else if a.PollLoadHead? || a.PollFree? || a.PollClear? || a.TryDestroy? {
      PollLists(s, a);
    } else {
      var s' := Apply(s, a);
      BeganKept(s, a);
      assert s'.lists == s.lists && (s'.gc.Walking? ==> s.gc == s'.gc);
      forall k | 0 <= k < NUM_EPOCHS ensures ListOk(s', s'.lists[k], k) { ListKept(s, s', s.lists[k], k); }
      if s.gc.Walking? { ListKept(s, s', s.gc.todo, ClearIndex(s.gc.e)); }
    }
  }

  lemma RetireCasLists(s: State, a: Action)
    requires ListsOk(s) && PcsOk(s) && a.RetireCas? && Enabled(s, a)
    ensures ListsOk(Apply(s, a))
  {
    var s' := Apply(s, a);
    if s' != WithPc(s, a.t, Allocated(s.threads[a.t].pc.ptr)) {
      PushListsOk(s, a.t);
    } else {
      forall k | 0 <= k < NUM_EPOCHS ensures ListOk(s', s'.lists[k], k) { ListKept(s, s', s.lists[k], k); }
    }
    if s.gc.Walking? { ListKept(s, s', s.gc.todo, ClearIndex(s.gc.e)); }
  }

  lemma PollLists(s: State, a: Action)
    requires ListsOk(s) && (a.PollLoadHead? || a.PollFree? || a.PollClear? || a.TryDestroy?) && Enabled(s, a)
    ensures ListsOk(Apply(s, a))
  {
    var s' := Apply(s, a);
    assert s'.clock == s.clock && s'.began == s.began && |s'.lists| == NUM_EPOCHS;
    assert forall k :: 0 <= k < NUM_EPOCHS ==> s'.lists[k] == s.lists[k] || s'.lists[k] == [];
    if s'.gc.Walking? {
      var k := ClearIndex(s'.gc.e);
      assert s'.gc.todo == s.lists[k]
             || (s.gc.Walking? && s'.gc.e == s.gc.e
                 && (s'.gc.todo == s.gc.todo || (s.gc.todo != [] && s'.gc.todo == s.gc.todo[1..])));
    }
    FewerEntries(s, s');
  }

  lemma FewerEntries(s: State, s': State)
    requires ListsOk(s) && s'.clock == s.clock && s'.began == s.began && |s'.lists| == NUM_EPOCHS
    requires forall k :: 0 <= k < NUM_EPOCHS ==> s'.lists[k] == s.lists[k] || s'.lists[k] == []
    requires s'.gc.Walking? ==>
               || s'.gc.todo == s.lists[ClearIndex(s'.gc.e)]
               || (s.gc.Walking? && s'.gc.e == s.gc.e
                   && (s'.gc.todo == s.gc.todo || (s.gc.todo != [] && s'.gc.todo == s.gc.todo[1..])))
    ensures ListsOk(s')
  {
    forall k | 0 <= k < NUM_EPOCHS ensures ListOk(s', s'.lists[k], k) { assert ListOk(s, s.lists[k], k); }
    if s'.gc.Walking? { assert ListOk(s, s.lists[ClearIndex(s'.gc.e)], ClearIndex(s'.gc.e)); }
  }

  lemma PushListsOk(s: State, t: Tid)
    requires ListsOk(s) && PcsOk(s) && t in s.threads && s.threads[t].pc.Headed?
    ensures forall k :: 0 <= k < NUM_EPOCHS ==> ListOk(Push(s, t), Push(s, t).lists[k], k)
  {
    assert PcOk(s, s.threads[t].pc);
  }

  lemma TodoIsOld(s: State)
    requires EpochOk(s) && SectionsOk(s) && ListsOk(s) && s.gc.Walking? && s.gc.todo != []
    ensures var e := s.gc.todo[0];
            && Timely(s, e.ptr, e.tag) && e.tag + 2 <= s.clock
            && forall t :: t in s.threads && s.threads[t].state.Active? ==> e.tag < s.threads[t].enteredAt
  {
    var e := s.gc.todo[0];
    assert Timely(s, e.ptr, e.tag) && e.tag % NUM_EPOCHS == ClearIndex(s.clock % NUM_EPOCHS);
    OldTag(e.tag, s.clock);
  }

  lemma OldTag(tag: nat, clock: nat)
    requires tag <= clock && tag % NUM_EPOCHS == ClearIndex(clock % NUM_EPOCHS)
    ensures tag + 2 <= clock
  {}

  lemma FreedStep(s: State, a: Action)
    requires Inv(s) && Enabled(s, a)
    ensures FreedOk(Apply(s, a))
  {
    var s' := Apply(s, a);
    if a.PollFree? {
      TodoIsOld(s);
      FreedPoll(s);
    } else if !a.TryDestroy? {
      assert s'.freed == s.freed && s'.destroyed == s.destroyed;
      BeganKept(s, a);
      ActiveEntered(s, a);
      FreedKept(s, s');
    }
  }

  lemma FreedPoll(s: State)
    requires FreedOk(s) && Enabled(s, PollFree)
    requires var e := s.gc.todo[0];
             && Timely(s, e.ptr, e.tag) && e.tag + 2 <= s.clock
             && forall t :: t in s.threads && s.threads[t].state.Active? ==> e.tag < s.threads[t].enteredAt
    ensures FreedOk(Apply(s, PollFree))
  {}

  lemma FreedKept(s: State, s': State)
    requires FreedOk(s) && s'.freed == s.freed && s'.destroyed == s.destroyed && s'.clock >= s.clock
    requires forall p :: p in s.began ==> p in s'.began && s'.began[p] == s.began[p]
    requires forall t :: t in s'.threads && s'.threads[t].state.Active? ==>
               || s'.threads[t].enteredAt == s.clock
               || (t in s.threads && s.threads[t].state.Active? && s'.threads[t].enteredAt == s.threads[t].enteredAt)
    ensures FreedOk(s')
  {}

  /** A thread active after a step was active in the same section before it, or entered now. */
  lemma ActiveEntered(s: State, a: Action)
    requires Enabled(s, a)
    ensures var s' := Apply(s, a);
            forall t :: t in s'.threads && s'.threads[t].state.Active? ==>
              || s'.threads[t].enteredAt == s.clock
              || (t in s.threads && s.threads[t].state.Active?
                  && s'.threads[t].enteredAt == s.threads[t].enteredAt)
  {
    OthersKept(s, a);
    if Actor(a).Some? { ActorSection(s, a); }
    hide Apply, Enabled;
  }

  lemma InvStep(s: State, a: Action)
    requires Inv(s) && Enabled(s, a)
    ensures Inv(Apply(s, a))
  {
    RegistryStep(s, a);
    EpochStep(s, a);
    SectionsStep(s, a);
    PcsStep(s, a);
    ListsStep(s, a);
    FreedStep(s, a);
  }

  // ----- Runs -----

  // ----- Accounting -----

  /** The caller's obligation that clog_atomic_queue_dequeue meets: retire inside a critical section. */
  ghost predicate RetiresInside(s: State, a: Action) {
    a.RetireAlloc? && a.t in s.threads ==> s.threads[a.t].state.Active?
  }

  predicate Retiring(pc: Pc) {
    pc.Allocated? || pc.Tagged? || pc.Headed?
  }

  ghost predicate RetirerOk(s: State, th: Thread) {
    Retiring(th.pc) ==>
      && th.state.Active?
      && th.pc.ptr in s.began
      && th.pc.ptr !in s.retired
      && (!th.pc.Allocated? ==> th.enteredAt <= th.pc.tag)
  }

  ghost predicate RetirersOk(s: State) {
    && (forall p :: p in s.retired ==> p in s.began)
    && (forall t :: t in s.threads ==> RetirerOk(s, s.threads[t]))
  }

  ghost predicate SamePtr(a: Thread, b: Thread) {
    Retiring(a.pc) && Retiring(b.pc) && a.pc.ptr == b.pc.ptr
  }

  ghost predicate RetirersDiffer(s: State) {
    forall t, u :: t in s.threads && u in s.threads && t != u ==> !SamePtr(s.threads[t], s.threads[u])
  }

  /** List k as the reclaimer still has to free it: of the list being walked, only the rest of the walk. */
  function Pending(s: State, k: nat): seq<Entry>
    requires k < |s.lists|
  {
    if s.gc.Walking? && k == ClearIndex(s.gc.e) then s.gc.todo else s.lists[k]
  }

  function Count(list: seq<Entry>, p: Ptr): nat {
    if list == [] then 0 else (if list[0].ptr == p then 1 else 0) + Count(list[1..], p)
  }

  /** How often p still waits in the three lists. */
  function Held(s: State, p: Ptr): nat
    requires |s.lists| == NUM_EPOCHS
  {
    Count(Pending(s, 0), p) + Count(Pending(s, 1), p) + Count(Pending(s, 2), p)
  }

  /** A retired pointer is in exactly one list, once, or has been freed exactly once; no other pointer is
    * held or freed. */
  ghost predicate AccountedPtr(s: State, p: Ptr) {
    |s.lists| == NUM_EPOCHS && s.freed[p] + Held(s, p) == if p in s.retired then 1 else 0
  }

  ghost predicate Accounted(s: State) {
    forall p: Ptr :: AccountedPtr(s, p)
  }

  ghost predicate AccountInv(s: State) {
    Inv(s) && RetirersOk(s) && RetirersDiffer(s) && Accounted(s)
  }

  /** A thread still retiring in its section holds an epoch at most one behind. */
  lemma PusherMisses(s: State, t: Tid)
    requires Inv(s) && RetirersOk(s) && t in s.threads && s.threads[t].pc.Headed? && s.gc.Walking?
    ensures s.threads[t].pc.seen % NUM_EPOCHS != ClearIndex(s.gc.e)
  {
    assert PcOk(s, s.threads[t].pc) && RetirerOk(s, s.threads[t]);
  }

  function Actor(a: Action): Option<Tid> {
    match a
    case RegisterLock(t) => Some(t)
    case RegisterInsert(t) => Some(t)
    case RegisterUnlock(t) => Some(t)
    case EnterLoad(t) => Some(t)
    case EnterCas(t, _) => Some(t)
    case Exit(t) => Some(t)
    case Unregister(t) => Some(t)
    case RetireAlloc(t, _) => Some(t)
    case RetireNoMemory(t, _) => Some(t)
    case RetireLoadEpoch(t) => Some(t)
    case RetireLoadHead(t) => Some(t)
    case RetireCas(t) => Some(t)
    case _ => None
  }

  lemma OthersKept(s: State, a: Action)
    requires Enabled(s, a)
    ensures forall t :: t in Apply(s, a).threads && Actor(a) != Some(t) ==>
              t in s.threads && Apply(s, a).threads[t] == s.threads[t]
  {}

  lemma RetiredGrows(s: State, a: Action)
    requires Enabled(s, a)
    ensures !a.RetireCas? ==> Apply(s, a).retired == s.retired
    ensures a.RetireCas? ==> Apply(s, a).retired == s.retired || Apply(s, a) == Push(s, a.t)
  {}

  lemma RetirersStep(s: State, a: Action)
    requires AccountInv(s) && Enabled(s, a) && RetiresInside(s, a)
    ensures RetirersOk(Apply(s, a))
  {
    var s' := Apply(s, a);
    OthersKept(s, a);
    BeganKept(s, a);
    RetiredGrows(s, a);
    forall t | t in s'.threads ensures RetirerOk(s', s'.threads[t]) {
      if Actor(a) == Some(t) {
        ActorRetirerStep(s, a, t);
      } else {
        assert RetirerOk(s, s.threads[t]);
        if a.RetireCas? { assert !SamePtr(s.threads[t], s.threads[a.t]); }
      }
    }
    if a.RetireCas? { assert RetirerOk(s, s.threads[a.t]); }
  }

  /** A thread that is retiring after its step has just begun, or was retiring the same pointer before. */
  lemma ActorRetiring(s: State, a: Action, t: Tid)
    requires Enabled(s, a) && Actor(a) == Some(t) && t in Apply(s, a).threads && Retiring(Apply(s, a).threads[t].pc)
    ensures t in s.threads
    ensures var th, th' := s.threads[t], Apply(s, a).threads[t];
            && th'.state == th.state && th'.enteredAt == th.enteredAt
            && if a.RetireAlloc? then th'.pc == Allocated(a.ptr) && a.ptr !in s.began && a.ptr in Apply(s, a).began
               else Retiring(th.pc) && th'.pc.ptr == th.pc.ptr
                    && (th'.pc.Allocated? || th'.pc.tag == s.clock || (!th.pc.Allocated? && th'.pc.tag == th.pc.tag))
  {}

  lemma ActorRetirerStep(s: State, a: Action, t: Tid)
    requires Inv(s) && RetirersOk(s) && Enabled(s, a) && RetiresInside(s, a)
    requires Actor(a) == Some(t) && t in Apply(s, a).threads
    ensures RetirerOk(Apply(s, a), Apply(s, a).threads[t])
  {
    var s' := Apply(s, a);
    if Retiring(s'.threads[t].pc) {
      ActorRetiring(s, a, t);
      BeganKept(s, a);
      RetiredGrows(s, a);
      assert RetirerOk(s, s.threads[t]) && (s.threads[t].state.Active? ==> s.threads[t].enteredAt <= s.clock);
      assert a.RetireCas? ==> s' != Push(s, t);
    }
  }

  lemma RetirersDifferStep(s: State, a: Action)
    requires AccountInv(s) && Enabled(s, a)
    ensures RetirersDiffer(Apply(s, a))
  {
    var s' := Apply(s, a);
    OthersKept(s, a);
    forall t, u | t in s'.threads && u in s'.threads && t != u
      ensures !SamePtr(s'.threads[t], s'.threads[u])
    {
      if Actor(a) == Some(t) { ActorDiffers(s, a, t, u); }
      if Actor(a) == Some(u) { ActorDiffers(s, a, u, t); }
    }
  }

  lemma ActorDiffers(s: State, a: Action, t: Tid, u: Tid)
    requires AccountInv(s) && Enabled(s, a) && Actor(a) == Some(t) && t != u && u in s.threads
    requires t in Apply(s, a).threads
    ensures !SamePtr(Apply(s, a).threads[t], s.threads[u])
  {
    assert RetirerOk(s, s.threads[u]);
    if Retiring(Apply(s, a).threads[t].pc) {
      ActorRetiring(s, a, t);
      hide Apply, Inv, Accounted;
      assert !SamePtr(s.threads[t], s.threads[u]);
    }
  }

  lemma AccountedStep(s: State, a: Action, p: Ptr)
    requires AccountInv(s) && Enabled(s, a)
    ensures AccountedPtr(Apply(s, a), p)
  {
    assert AccountedPtr(s, p);
    if a.RetireCas? {
      RetireCasAccounted(s, a, p);
    } else if a.TryDestroy? {
      TeardownAccounted(s, a, p);
    } else {
      RetiredGrows(s, a);
      PollAccounted(s, a, p);
    }
  }

  lemma RetireCasAccounted(s: State, a: Action, p: Ptr)
    requires AccountInv(s) && Enabled(s, a) && a.RetireCas? && AccountedPtr(s, p)
    ensures AccountedPtr(Apply(s, a), p)
  {
    var s' := Apply(s, a);
    if s' == Push(s, a.t) {
      if s.gc.Walking? { PusherMisses(s, a.t); }
      assert RetirerOk(s, s.threads[a.t]);
      PushAccounted(s, a.t, p);
    } else {
      assert forall j :: 0 <= j < NUM_EPOCHS ==> Pending(s', j) == Pending(s, j);
    }
  }

  lemma PushAccounted(s: State, t: Tid, p: Ptr)
    requires AccountedPtr(s, p) && t in s.threads && s.threads[t].pc.Headed? && s.threads[t].pc.ptr !in s.retired
    requires s.gc.Walking? ==> s.threads[t].pc.seen % NUM_EPOCHS != ClearIndex(s.gc.e)
    ensures AccountedPtr(Push(s, t), p)
  {
    var s' := Push(s, t);
    var pc := s.threads[t].pc;
    var k := pc.seen % NUM_EPOCHS;
    CountPush(Entry(pc.ptr, pc.tag), Pending(s, k), p);
    assert Pending(s', k) == [Entry(pc.ptr, pc.tag)] + Pending(s, k);
    assert forall j :: 0 <= j < NUM_EPOCHS && j != k ==> Pending(s', j) == Pending(s, j);
  }

  lemma CountPush(e: Entry, list: seq<Entry>, p: Ptr)
    ensures Count([e] + list, p) == (if e.ptr == p then 1 else 0) + Count(list, p)
  {
    assert ([e] + list)[1..] == list;
  }

  lemma PollAccounted(s: State, a: Action, p: Ptr)
    requires Inv(s) && Enabled(s, a) && !a.RetireCas? && !a.TryDestroy? && AccountedPtr(s, p)
    requires Apply(s, a).retired == s.retired
    ensures AccountedPtr(Apply(s, a), p)
  {
    var s' := Apply(s, a);
    if a.PollFree? {
      var k := ClearIndex(s.gc.e);
      assert forall j :: 0 <= j < NUM_EPOCHS && j != k ==> Pending(s', j) == Pending(s, j);
      assert Pending(s, k) == s.gc.todo && Pending(s', k) == s.gc.todo[1..];
    } else {
      PendingKept(s, a);
    }
  }

  /** Starting a walk and storing zero after it change what the lists hold only on paper. */
  lemma PendingKept(s: State, a: Action)
    requires Enabled(s, a) && !a.RetireCas? && !a.TryDestroy? && !a.PollFree?
    ensures Apply(s, a).freed == s.freed
    ensures |Apply(s, a).lists| == NUM_EPOCHS
    ensures forall j :: 0 <= j < NUM_EPOCHS ==> Pending(Apply(s, a), j) == Pending(s, j)
  {
    if Actor(a).Some? { ActorPending(s, a); }
  }

  lemma ActorPending(s: State, a: Action)
    requires Enabled(s, a) && Actor(a).Some? && !a.RetireCas?
    ensures Apply(s, a).freed == s.freed && Apply(s, a).lists == s.lists && Apply(s, a).gc == s.gc
  {}

  lemma TeardownAccounted(s: State, a: Action, p: Ptr)
    requires Inv(s) && Enabled(s, a) && a.TryDestroy? && AccountedPtr(s, p)
    ensures AccountedPtr(Apply(s, a), p)
  {
    PtrsCount(s.lists[0], p);
    PtrsCount(s.lists[1], p);
    PtrsCount(s.lists[2], p);
  }

  lemma {:induction false} PtrsCount(list: seq<Entry>, p: Ptr)
    ensures Ptrs(list)[p] == Count(list, p)
  {
    if list != [] { PtrsCount(list[1..], p); }
  }

  lemma AccountStep(s: State, a: Action)
    requires AccountInv(s) && Enabled(s, a) && RetiresInside(s, a)
    ensures AccountInv(Apply(s, a))
  {
    InvStep(s, a);
    RetirersStep(s, a);
    RetirersDifferStep(s, a);
    forall p: Ptr ensures AccountedPtr(Apply(s, a), p) { AccountedStep(s, a, p); }
  }

  /** A pointer freed on the spot is not being retired, nor has it been. */
  ghost predicate DroppedApart(s: State) {
    forall p :: p in s.dropped ==>
      && p in s.began && p !in s.retired
      && forall t :: t in s.threads ==> !(Retiring(s.threads[t].pc) && s.threads[t].pc.ptr == p)
  }

  lemma DroppedStep(s: State, a: Action)
    requires RetirersOk(s) && DroppedApart(s) && Enabled(s, a)
    ensures DroppedApart(Apply(s, a))
  {
    var s' := Apply(s, a);
    OthersKept(s, a);
    RetiredGrows(s, a);
    DroppedGrows(s, a);
    forall p | p in s'.dropped
      ensures p in s'.began && p !in s'.retired
      ensures forall t :: t in s'.threads ==> !(Retiring(s'.threads[t].pc) && s'.threads[t].pc.ptr == p)
    {
      DroppedNotRetired(s, a, p);
      forall t | t in s'.threads ensures !(Retiring(s'.threads[t].pc) && s'.threads[t].pc.ptr == p) {
        if Actor(a) == Some(t) && Retiring(s'.threads[t].pc) { ActorRetiring(s, a, t); }
        if t in s.threads { assert RetirerOk(s, s.threads[t]); }
      }
    }
  }

  lemma DroppedGrows(s: State, a: Action)
    requires Enabled(s, a)
    ensures Apply(s, a).dropped == if a.RetireNoMemory? then s.dropped + {a.ptr} else s.dropped
    ensures forall p :: p in s.began ==> p in Apply(s, a).began
    ensures a.RetireNoMemory? ==> a.ptr !in s.began && a.ptr in Apply(s, a).began && Apply(s, a).threads == s.threads
  {
    BeganKept(s, a);
    DroppedBy(s, a);
    if a.RetireNoMemory? { RetireNoMemoryEffect(s, a.t, a.ptr); }
    hide Apply;
  }

  lemma DroppedBy(s: State, a: Action)
    requires Enabled(s, a)
    ensures Apply(s, a).dropped == if a.RetireNoMemory? then s.dropped + {a.ptr} else s.dropped
  {}

  lemma DroppedNotRetired(s: State, a: Action, p: Ptr)
    requires RetirersOk(s) && DroppedApart(s) && Enabled(s, a) && p in Apply(s, a).dropped
    ensures p in Apply(s, a).began && p !in Apply(s, a).retired
  {
    DroppedGrows(s, a);
    RetiredGrows(s, a);
    if a.RetireCas? { assert RetirerOk(s, s.threads[a.t]); }
  }

  /** Thread t is inside the retirement of p. */
  predicate Retires(s: State, t: Tid, p: Ptr) {
    t in s.threads && Retiring(s.threads[t].pc) && s.threads[t].pc.ptr == p
  }

  ghost predicate BeingRetired(s: State, p: Ptr) {
    exists t :: Retires(s, t, p)
  }

  /** Once the retirement of p has been called, p is freed on the spot, or some thread is still retiring it, or
    * it has been pushed onto a list. */
  ghost predicate BegunOk(s: State) {
    forall p :: p in s.began ==> p in s.dropped || p in s.retired || BeingRetired(s, p)
  }

  lemma BegunStep(s: State, a: Action)
    requires MembersOk(s) && RetirersOk(s) && BegunOk(s) && Enabled(s, a)
    ensures BegunOk(Apply(s, a))
  {
    var s' := Apply(s, a);
    RetiredGrows(s, a);
    DroppedBy(s, a);
    BeganBy(s, a);
    forall p | p in s'.began ensures p in s'.dropped || p in s'.retired || BeingRetired(s', p) {
      if p in s.began {
        if BeingRetired(s, p) {
          var t :| Retires(s, t, p);
          RetirerGoesOn(s, a, t, p);
        }
      } else if a.RetireAlloc? {
        assert Retires(s', a.t, p);
      }
    }
  }

  lemma BeganBy(s: State, a: Action)
    requires Enabled(s, a)
    ensures Apply(s, a).began.Keys == s.began.Keys + if a.RetireAlloc? || a.RetireNoMemory? then {a.ptr} else {}
    ensures a.RetireAlloc? ==> Retires(Apply(s, a), a.t, a.ptr)
  {}

  /** A retirement ends only with the push. */
  lemma RetirerGoesOn(s: State, a: Action, t: Tid, p: Ptr)
    requires MembersOk(s) && RetirersOk(s) && Enabled(s, a) && Retires(s, t, p)
    ensures Retires(Apply(s, a), t, p) || p in Apply(s, a).retired
  {
    if a.TryDestroy? {
      assert t in s.registry && RetirerOk(s, s.threads[t]);
    } else if Actor(a) == Some(t) {
      RetirerStepsOn(s, a, t, p);
    } else {
      OthersStay(s, a, t);
    }
  }

  lemma RetirerStepsOn(s: State, a: Action, t: Tid, p: Ptr)
    requires Enabled(s, a) && Actor(a) == Some(t) && Retires(s, t, p)
    ensures Retires(Apply(s, a), t, p) || p in Apply(s, a).retired
  {}

  lemma OthersStay(s: State, a: Action, t: Tid)
    requires Enabled(s, a) && !a.TryDestroy? && t in s.threads && Actor(a) != Some(t)
    ensures t in Apply(s, a).threads && Apply(s, a).threads[t] == s.threads[t]
  {
    OthersKept(s, a);
    if !a.RegisterInsert? { KeysKept(s, a); }
  }

  // ----- What a step does, for clients -----

  /** Only the teardown and a retirement without memory touch these. */
  lemma FlagsKept(s: State, a: Action)
    requires Enabled(s, a) && !a.Destroy? && !a.TryDestroy?
    ensures !a.RetireNoMemory? ==> Apply(s, a).dropped == s.dropped
    ensures Apply(s, a).inactive == s.inactive && Apply(s, a).destroyed == s.destroyed
  {}

  /** A step that belongs to no thread's operation on its handle leaves all handles alone. */
  lemma GlobalStepEffect(s: State, a: Action)
    requires Enabled(s, a) && (Actor(a).None? || a.RegisterLock? || a.RegisterUnlock?) && !a.TryDestroy? && !a.Destroy?
    ensures var s' := Apply(s, a);
            s'.threads == s.threads && s'.began == s.began && s'.dropped == s.dropped
            && s'.inactive == s.inactive && s'.destroyed == s.destroyed
  {}

  /** A step of thread t, other than the start of a retirement, changes the handle of t alone. */
  lemma HandleStepEffect(s: State, a: Action, t: Tid)
    requires Enabled(s, a) && Actor(a) == Some(t)
    requires !a.RegisterLock? && !a.RegisterUnlock? && !a.RetireAlloc? && !a.RetireNoMemory?
    ensures var s' := Apply(s, a);
            && t in s'.threads && s'.threads == s.threads[t := s'.threads[t]]
            && s'.began == s.began && s'.dropped == s.dropped
            && s'.inactive == s.inactive && s'.destroyed == s.destroyed
  {}

  lemma RegisterInsertEffect(s: State, t: Tid)
    requires Enabled(s, RegisterInsert(t))
    ensures Apply(s, RegisterInsert(t)).threads[t] == Thread(Inactive, s.epoch, Idle, 0, 0)
  {}

  lemma UnregisterEffect(s: State, t: Tid)
    requires Enabled(s, Unregister(t))
    ensures Apply(s, Unregister(t)).threads[t] == s.threads[t].(state := Released)
  {}

  lemma EnterLoadEffect(s: State, t: Tid)
    requires Enabled(s, EnterLoad(t))
    ensures Apply(s, EnterLoad(t)).threads[t] == s.threads[t].(epoch := s.epoch, pc := Entering)
  {}

  lemma EnterCasEffect(s: State, t: Tid)
    requires Enabled(s, EnterCas(t, false)) && !s.threads[t].state.Active? && !s.inactive
    ensures var th := Apply(s, EnterCas(t, false)).threads[t];
            th.state.Active? && th.pc.Idle? && th.enteredAt == s.clock
  {}

  lemma ExitEffect(s: State, t: Tid)
    requires Enabled(s, Exit(t))
    ensures Apply(s, Exit(t)).threads[t] == s.threads[t].(state := Inactive)
  {}

  lemma RetireAllocEffect(s: State, t: Tid, p: Ptr)
    requires Enabled(s, RetireAlloc(t, p))
    ensures var s' := Apply(s, RetireAlloc(t, p));
            && s'.threads == s.threads[t := s.threads[t].(pc := Allocated(p))]
            && s'.began == s.began[p := s.clock] && s'.dropped == s.dropped
            && s'.inactive == s.inactive && s'.destroyed == s.destroyed
  {}

  lemma RetireNoMemoryEffect(s: State, t: Tid, p: Ptr)
    requires Enabled(s, RetireNoMemory(t, p))
    ensures var s' := Apply(s, RetireNoMemory(t, p));
            && s'.threads == s.threads && s'.began == s.began[p := s.clock] && s'.dropped == s.dropped + {p}
            && s'.inactive == s.inactive && s'.destroyed == s.destroyed
  {}

  /** A further step of a retirement: the thread is still retiring the same pointer, or done. */
  lemma RetireStepEffect(s: State, a: Action, t: Tid)
    requires Enabled(s, a) && (a == RetireLoadEpoch(t) || a == RetireLoadHead(t) || a == RetireCas(t))
    ensures var th, th' := s.threads[t], Apply(s, a).threads[t];
            && th' == th.(pc := th'.pc)
            && (th'.pc.Idle? || (Retiring(th'.pc) && Retiring(th.pc) && th'.pc.ptr == th.pc.ptr))
  {}
}
