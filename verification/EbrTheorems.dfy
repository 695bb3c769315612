/** What epoch-based reclamation guarantees over whole runs: the grace period, and that every retired pointer is
  * kept exactly once until it is freed. */
module EbrTheorems {
  import opened Common
  import opened Ebr

  lemma {:induction false} InvHolds(run: seq<State>, acts: seq<Action>, n: nat)
    requires IsRun(run, acts) && n < |run|
    ensures Inv(run[n])
  {
    if n > 0 {
      InvHolds(run, acts, n - 1);
      assert StepsTo(run, acts, n - 1);
      InvStep(run[n - 1], acts[n - 1]);
    }
  }

  ghost predicate ActiveIn(s: State, t: Tid, section: nat) {
    t in s.threads && s.threads[t].state.Active? && s.threads[t].section == section
  }

  /** Section numbers never go down, and the epoch at which a section began never changes. */
  lemma SectionStep(s: State, a: Action, t: Tid)
    requires Enabled(s, a) && RegistryOk(s) && t in s.threads
    ensures var s' := Apply(s, a);
            t in s'.threads ==>
              && s.threads[t].section <= s'.threads[t].section
              && (s'.threads[t].section == s.threads[t].section ==>
                  && s'.threads[t].enteredAt == s.threads[t].enteredAt
                  && (s'.threads[t].state.Active? ==> s.threads[t].state.Active?))
  {
    hide RegistryOk;
    OthersKept(s, a);
  }

  ghost predicate NotLater(th: Thread, th': Thread) {
    th.section <= th'.section && (th.section == th'.section ==> th.enteredAt == th'.enteredAt)
  }

  lemma RunSection(run: seq<State>, acts: seq<Action>, i: nat, t: Tid)
    requires IsRun(run, acts) && i < |acts| && t in run[i].threads && t in run[i + 1].threads
    ensures NotLater(run[i].threads[t], run[i + 1].threads[t])
  {
    assert StepsTo(run, acts, i);
    InvHolds(run, acts, i);
    SectionStep(run[i], acts[i], t);
  }

  lemma {:induction false} SectionKept(run: seq<State>, acts: seq<Action>, i: nat, j: nat, t: Tid)
    requires IsRun(run, acts) && i <= j < |run|
    requires t in run[i].threads && t in run[j].threads
    ensures NotLater(run[i].threads[t], run[j].threads[t])
    decreases j - i
  {
    if i < j {
      if i + 1 < j { StaysRegistered(run, acts, i, t); }
      RunSection(run, acts, i, t);
      SectionKept(run, acts, i + 1, j, t);
    }
  }

  /** Handles go away only in the teardown, which is the last step. */
  lemma StaysRegistered(run: seq<State>, acts: seq<Action>, i: nat, t: Tid)
    requires IsRun(run, acts) && i + 1 < |acts| && t in run[i].threads
    ensures t in run[i + 1].threads
  {
    assert StepsTo(run, acts, i) && StepsTo(run, acts, i + 1);
  }

  /** The epoch advances at most once during any one critical section, however the scan and the section
    * are interleaved. */
  lemma OneAdvancePerSection(run: seq<State>, acts: seq<Action>, i: nat, j: nat, t: Tid, section: nat)
    requires IsRun(run, acts) && i <= j < |run|
    requires ActiveIn(run[i], t, section) && ActiveIn(run[j], t, section)
    ensures run[i].clock <= run[j].clock <= run[i].clock + 1
  {
    InvHolds(run, acts, i);
    InvHolds(run, acts, j);
    SectionKept(run, acts, i, j, t);
    ClockGrows(run, acts, i, j);
  }

  lemma {:induction false} ClockGrows(run: seq<State>, acts: seq<Action>, i: nat, j: nat)
    requires IsRun(run, acts) && i <= j < |run|
    ensures run[i].clock <= run[j].clock
    ensures forall p :: p in run[i].began ==> p in run[j].began && run[j].began[p] == run[i].began[p]
    decreases j - i
  {
    if i < j {
      assert StepsTo(run, acts, i);
      BeganKept(run[i], acts[i]);
      ClockGrows(run, acts, i + 1, j);
    }
  }

  /** Grace period.  When a poll frees a pointer, no thread that was active when the retirement of that
    * pointer was called is still in that same section.  Holds for every run, retirements outside
    * sections and retirements of other threads in any state included. */
  lemma GracePeriod(run: seq<State>, acts: seq<Action>, i: nat, k: nat, p: Ptr, t: Tid, section: nat)
    requires IsRun(run, acts) && i < k < |acts|
    requires acts[i].RetireAlloc? && acts[i].ptr == p
    requires acts[k].PollFree? && run[k].gc.Walking? && run[k].gc.todo != [] && run[k].gc.todo[0].ptr == p
    requires ActiveIn(run[i], t, section)
    ensures !ActiveIn(run[k], t, section)
  {
    assert StepsTo(run, acts, i);
    assert run[i + 1].began[p] == run[i].clock;
    ClockGrows(run, acts, i + 1, k);
    InvHolds(run, acts, i);
    InvHolds(run, acts, k);
    TodoIsOld(run[k]);
    if t in run[k].threads {
      SectionKept(run, acts, i, k, t);
    }
  }

  /** What a poll is about to free was tagged at least two advances ago, so every thread that is in a section
    * then entered it after the retirement began. */
  lemma WalkedIsOld(run: seq<State>, acts: seq<Action>, n: nat)
    requires IsRun(run, acts) && n < |run| && run[n].gc.Walking? && run[n].gc.todo != []
    ensures var s := run[n];
            var e := s.gc.todo[0];
            && e.ptr in s.began && s.began[e.ptr] <= e.tag && e.tag + 2 <= s.clock
            && forall t :: t in s.threads && s.threads[t].state.Active? ==> e.tag < s.threads[t].enteredAt
  {
    InvHolds(run, acts, n);
    TodoIsOld(run[n]);
  }

  lemma {:induction false} AccountHolds(run: seq<State>, acts: seq<Action>, n: nat)
    requires IsRun(run, acts) && n < |run|
    requires forall i :: 0 <= i < |acts| ==> RetiresInside(run[i], acts[i])
    ensures AccountInv(run[n])
  {
    if n > 0 {
      AccountHolds(run, acts, n - 1);
      assert StepsTo(run, acts, n - 1) && RetiresInside(run[n - 1], acts[n - 1]);
      AccountStep(run[n - 1], acts[n - 1]);
    }
  }

  /** So the list that a thread pushes to, whatever epoch it still holds, is never the one that a poll is
    * walking and about to overwrite with zero. */
  lemma StalePusherMissesWalkedList(run: seq<State>, acts: seq<Action>, n: nat, t: Tid)
    requires IsRun(run, acts) && n < |run| && forall i :: 0 <= i < |acts| ==> RetiresInside(run[i], acts[i])
    requires t in run[n].threads && run[n].threads[t].pc.Headed? && run[n].gc.Walking?
    ensures run[n].threads[t].pc.seen % NUM_EPOCHS != ClearIndex(run[n].gc.e)
  {
    AccountHolds(run, acts, n);
    PusherMisses(run[n], t);
  }

  predicate Lists(list: seq<Entry>, p: Ptr) {
    exists i :: 0 <= i < |list| && list[i].ptr == p
  }

  ghost predicate HeadLive(s: State, th: Thread) {
    th.pc.Headed? && th.pc.expected.Some? ==>
      |s.lists| == NUM_EPOCHS && Lists(s.lists[th.pc.seen % NUM_EPOCHS], th.pc.expected.value)
  }

  ghost predicate HeadsLive(s: State) {
    forall t :: t in s.threads ==> HeadLive(s, s.threads[t])
  }

  lemma ListsGrow(s: State, a: Action, k: nat, p: Ptr)
    requires Enabled(s, a) && k < NUM_EPOCHS && Lists(s.lists[k], p) && !a.TryDestroy?
    requires a.PollClear? ==> k != ClearIndex(s.gc.e)
    ensures |Apply(s, a).lists| == NUM_EPOCHS && Lists(Apply(s, a).lists[k], p)
  {
    var i :| 0 <= i < |s.lists[k]| && s.lists[k][i].ptr == p;
    var list := Apply(s, a).lists[k];
    if list != s.lists[k] { assert list[i + 1].ptr == p; }
  }

  lemma HeadsStep(s: State, a: Action)
    requires AccountInv(s) && HeadsLive(s) && Enabled(s, a)
    ensures HeadsLive(Apply(s, a))
  {
    var s' := Apply(s, a);
    OthersKept(s, a);
    forall t | t in s'.threads ensures HeadLive(s', s'.threads[t]) {
      if Actor(a) == Some(t) {
        ActorHead(s, a, t);
      } else if s.threads[t].pc.Headed? && s.threads[t].pc.expected.Some? {
        if a.PollClear? { PusherMisses(s, t); }
        assert HeadLive(s, s.threads[t]);
        ListsGrow(s, a, s.threads[t].pc.seen % NUM_EPOCHS, s.threads[t].pc.expected.value);
      }
    }
  }

  /** What a thread expects after a step of its own it has just loaded. */
  lemma ActorHead(s: State, a: Action, t: Tid)
    requires AccountInv(s) && HeadsLive(s) && Enabled(s, a) && Actor(a) == Some(t) && t in Apply(s, a).threads
    ensures HeadLive(Apply(s, a), Apply(s, a).threads[t])
  {
    var pc := Apply(s, a).threads[t].pc;
    if pc.Headed? && pc.expected.Some? {
      HeadOnlyLoaded(s, a, t);
      if a.RetireLoadHead? { assert s.lists[pc.seen % NUM_EPOCHS][0].ptr == pc.expected.value; }
    }
  }

  lemma HeadOnlyLoaded(s: State, a: Action, t: Tid)
    requires Enabled(s, a) && Actor(a) == Some(t) && t in Apply(s, a).threads && Apply(s, a).threads[t].pc.Headed?
    ensures a.RetireLoadHead? || a.RegisterLock? || a.RegisterUnlock?
    ensures !a.RetireLoadHead? ==> Apply(s, a).lists == s.lists && t in s.threads && Apply(s, a).threads[t] == s.threads[t]
  {}

  /** The entry whose address a push compares with the head of its list has not been freed since it was
    * loaded: it is still in that list.  So an address that comes back cannot deceive the exchange. */
  lemma {:induction false} ExpectedHeadIsLive(run: seq<State>, acts: seq<Action>, n: nat)
    requires IsRun(run, acts) && n < |run| && forall i :: 0 <= i < |acts| ==> RetiresInside(run[i], acts[i])
    ensures HeadsLive(run[n])
  {
    if n > 0 {
      ExpectedHeadIsLive(run, acts, n - 1);
      AccountHolds(run, acts, n - 1);
      assert StepsTo(run, acts, n - 1);
      HeadsStep(run[n - 1], acts[n - 1]);
    }
  }

  lemma {:induction false} BegunHolds(run: seq<State>, acts: seq<Action>, n: nat)
    requires IsRun(run, acts) && n < |run|
    requires forall i :: 0 <= i < |acts| ==> RetiresInside(run[i], acts[i])
    ensures BegunOk(run[n]) && DroppedApart(run[n])
  {
    if n > 0 {
      BegunHolds(run, acts, n - 1);
      AccountHolds(run, acts, n - 1);
      assert StepsTo(run, acts, n - 1);
      RetirersAndMembers(run[n - 1]);
      hide IsRun, BegunOk, DroppedApart, AccountInv, Apply, Enabled;
      BegunStep(run[n - 1], acts[n - 1]);
      DroppedStep(run[n - 1], acts[n - 1]);
    }
  }

  lemma RetirersAndMembers(s: State)
    requires AccountInv(s)
    ensures RetirersOk(s) && MembersOk(s)
  {}

  /** In how many places p is: with the thread that is retiring it, freed on the spot, in a list, freed by a
    * poll or by the teardown. */
  ghost function Places(s: State, p: Ptr): nat
    requires |s.lists| == NUM_EPOCHS
  {
    (if BeingRetired(s, p) then 1 else 0) + (if p in s.dropped then 1 else 0) + Held(s, p) + s.freed[p]
  }

  /** Accounting over whole runs that retire inside sections: a pointer whose retirement has been called is in
    * exactly one place, at all times, and no other pointer is in any; after the teardown it has been freed. */
  lemma EveryRetiredPointerIsKeptOnce(run: seq<State>, acts: seq<Action>, n: nat, p: Ptr)
    requires IsRun(run, acts) && n < |run|
    requires forall i :: 0 <= i < |acts| ==> RetiresInside(run[i], acts[i])
    ensures |run[n].lists| == NUM_EPOCHS && Places(run[n], p) == if p in run[n].began then 1 else 0
    ensures forall t, u :: Retires(run[n], t, p) && Retires(run[n], u, p) ==> t == u
    ensures run[n].destroyed ==> run[n].freed[p] == if p in run[n].began && p !in run[n].dropped then 1 else 0
  {
    AccountHolds(run, acts, n);
    BegunHolds(run, acts, n);
    var s := run[n];
    hide IsRun;
    InOnePlace(s, p);
    if s.destroyed {
      DestroyedIsEmpty(run, acts, n);
      assert Pending(s, 0) == [] && Pending(s, 1) == [] && Pending(s, 2) == [];
    }
  }

  lemma InOnePlace(s: State, p: Ptr)
    requires AccountInv(s) && BegunOk(s) && DroppedApart(s)
    ensures Places(s, p) == if p in s.began then 1 else 0
    ensures forall t, u :: Retires(s, t, p) && Retires(s, u, p) ==> t == u
  {
    assert AccountedPtr(s, p);
    forall t | Retires(s, t, p) ensures p in s.began && p !in s.retired && p !in s.dropped {
      assert RetirerOk(s, s.threads[t]);
    }
    forall t, u | Retires(s, t, p) && Retires(s, u, p) ensures t == u {
      assert t != u ==> !SamePtr(s.threads[t], s.threads[u]);
    }
  }

  /** Of a retirement that has been called and has found memory: p is in one place ever after, and it is not
    * freed on the spot. */
  lemma CalledRetirementIsKept(run: seq<State>, acts: seq<Action>, i: nat, n: nat, p: Ptr)
    requires IsRun(run, acts) && i < n < |run|
    requires forall j :: 0 <= j < |acts| ==> RetiresInside(run[j], acts[j])
    requires acts[i].RetireAlloc? && acts[i].ptr == p
    ensures |run[n].lists| == NUM_EPOCHS && Places(run[n], p) == 1 && p !in run[n].dropped
  {
    EveryRetiredPointerIsKeptOnce(run, acts, n, p);
    BegunHolds(run, acts, i);
    StaysUndropped(run, acts, i, n, p);
  }

  lemma {:induction false} StaysUndropped(run: seq<State>, acts: seq<Action>, i: nat, n: nat, p: Ptr)
    requires IsRun(run, acts) && i < n < |run| && DroppedApart(run[i]) && acts[i].RetireAlloc? && acts[i].ptr == p
    ensures p in run[n].began && p !in run[n].dropped
    decreases n
  {
    assert StepsTo(run, acts, n - 1);
    DroppedGrows(run[n - 1], acts[n - 1]);
    BeganBy(run[n - 1], acts[n - 1]);
    if i < n - 1 { StaysUndropped(run, acts, i, n - 1, p); }
  }

  // ----- The teardown -----

  /** The teardown frees nothing under anybody: nobody is in a section or, if retirements are made inside sections,
    * inside a retirement, no poll is under way, and every handle has been released. */
  lemma TeardownFindsNobody(run: seq<State>, acts: seq<Action>, k: nat)
    requires IsRun(run, acts) && k < |acts| && acts[k].TryDestroy?
    ensures forall t, section :: !ActiveIn(run[k], t, section)
    ensures forall t :: t in run[k].threads ==> run[k].threads[t].state.Released?
    ensures (forall i :: 0 <= i < |acts| ==> RetiresInside(run[i], acts[i])) ==> forall p :: !BeingRetired(run[k], p)
    ensures run[k].gc.Off? && run[k].inactive && !run[k].destroyed
  {
    var s := run[k];
    InvHolds(run, acts, k);
    assert StepsTo(run, acts, k);
    assert forall t :: t in s.threads ==> t in s.registry;
    if forall i :: 0 <= i < |acts| ==> RetiresInside(run[i], acts[i]) {
      AccountHolds(run, acts, k);
      forall t | t in s.threads ensures !Retiring(s.threads[t].pc) { assert RetirerOk(s, s.threads[t]); }
    }
  }

  /** It waits for everybody: whoever has registered before it has unregistered since, for good. */
  lemma TeardownWaitsForAll(run: seq<State>, acts: seq<Action>, i: nat, k: nat, t: Tid) returns (j: nat)
    requires IsRun(run, acts) && i < k < |acts| && acts[i] == RegisterInsert(t) && acts[k].TryDestroy?
    ensures i < j < k && acts[j] == Unregister(t)
    ensures forall m :: j < m <= k ==> t in run[m].threads && run[m].threads[t].state.Released?
  {
    assert StepsTo(run, acts, i);
    RegisterInsertEffect(run[i], t);
    HandleStepEffect(run[i], acts[i], t);
    KeepsHandle(run, acts, i + 1, k, t);
    TeardownFindsNobody(run, acts, k);
    j := LastRelease(run, acts, i + 1, k, t);
  }

  /** Handles go only with the teardown, and nothing follows it. */
  lemma {:induction false} KeepsHandle(run: seq<State>, acts: seq<Action>, i: nat, k: nat, t: Tid)
    requires IsRun(run, acts) && i <= k < |acts| && t in run[i].threads
    ensures forall m :: i <= m <= k ==> t in run[m].threads
    decreases k - i
  {
    if i < k {
      StaysRegistered(run, acts, i, t);
      KeepsHandle(run, acts, i + 1, k, t);
    }
  }

  lemma {:induction false} LastRelease(run: seq<State>, acts: seq<Action>, i: nat, k: nat, t: Tid) returns (j: nat)
    requires IsRun(run, acts) && i <= k < |run| && forall m :: i <= m <= k ==> t in run[m].threads
    requires run[i].threads[t].state.Inactive? && run[k].threads[t].state.Released?
    ensures i <= j < k && acts[j] == Unregister(t)
    ensures forall m :: j < m <= k ==> t in run[m].threads && run[m].threads[t].state.Released?
  {
    assert StepsTo(run, acts, k - 1);
    if run[k - 1].threads[t].state.Released? {
      j := LastRelease(run, acts, i, k - 1, t);
    } else {
      OnlyUnregisterReleases(run[k - 1], acts[k - 1], t);
      j := k - 1;
    }
  }

  lemma OnlyUnregisterReleases(s: State, a: Action, t: Tid)
    requires Enabled(s, a) && t in s.threads && t in Apply(s, a).threads
    requires !s.threads[t].state.Released? && Apply(s, a).threads[t].state.Released?
    ensures a == Unregister(t)
  {
    OthersKept(s, a);
  }

  /** ... and for the destruction to have been called. */
  lemma {:induction false} TeardownFollowsDestroy(run: seq<State>, acts: seq<Action>, k: nat) returns (j: nat)
    requires IsRun(run, acts) && k < |run| && run[k].inactive
    ensures j < k && acts[j].Destroy?
  {
    NotYetInactive(run, acts);
    if k > 0 {
      assert StepsTo(run, acts, k - 1);
      if run[k - 1].inactive { j := TeardownFollowsDestroy(run, acts, k - 1); } else { j := k - 1; }
    }
  }

  lemma NotYetInactive(run: seq<State>, acts: seq<Action>)
    requires IsRun(run, acts)
    ensures !run[0].inactive
  {}

  lemma DestroyedIsEmpty(run: seq<State>, acts: seq<Action>, n: nat)
    requires IsRun(run, acts) && n < |run| && run[n].destroyed
    ensures run[n].gc.Off? && run[n].lists == [[], [], []]
  {
    InvHolds(run, acts, n);
    InvHolds(run, acts, n - 1);
    assert StepsTo(run, acts, n - 1);
    DestroyedByTeardown(run[n - 1], acts[n - 1]);
  }

  lemma DestroyedByTeardown(s: State, a: Action)
    requires Enabled(s, a) && Apply(s, a).destroyed
    ensures a.TryDestroy? && Apply(s, a).lists == [[], [], []]
  {}
}
