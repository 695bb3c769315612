/** That polls reclaim: while nobody is in a section, three polls of clog_ebr.c in a row free everything that
  * has been retired. */
module EbrProgress {
  import opened Common
  import opened Ebr
  import opened EbrTheorems

  predicate IsPoll(a: Action) {
    || a.PollStart? || a.PollLoadEpoch? || a.PollLoadHead? || a.PollFree? || a.PollClear? || a.PollLock?
    || a.PollScan? || a.PollDone? || a.PollUnlock?
  }

  /** Steps of polls, and of nobody else, lead from s to s'. */
  ghost predicate ByPolls(s: State, s': State) {
    exists acts :: PollPath(s, acts, s')
  }

  ghost predicate PollPath(s: State, acts: seq<Action>, s': State)
    decreases |acts|
  {
    if acts == [] then s == s'
    else IsPoll(acts[0]) && Enabled(s, acts[0]) && PollPath(Apply(s, acts[0]), acts[1..], s')
  }

  lemma Done(s: State)
    ensures ByPolls(s, s)
  {
    assert PollPath(s, [], s);
  }

  lemma First(s: State, a: Action, s': State)
    requires IsPoll(a) && Enabled(s, a) && ByPolls(Apply(s, a), s')
    ensures ByPolls(s, s')
  {
    var acts :| PollPath(Apply(s, a), acts, s');
    assert ([a] + acts)[1..] == acts;
    assert PollPath(s, [a] + acts, s');
  }

  lemma {:induction false} PathsMeet(s: State, acts: seq<Action>, m: State, acts': seq<Action>, s': State)
    requires PollPath(s, acts, m) && PollPath(m, acts', s')
    ensures PollPath(s, acts + acts', s')
    decreases |acts|
  {
    if acts == [] {
      assert acts + acts' == acts';
    } else {
      assert (acts + acts')[1..] == acts[1..] + acts';
      PathsMeet(Apply(s, acts[0]), acts[1..], m, acts', s');
    }
  }

  lemma Meet(s: State, m: State, s': State)
    requires ByPolls(s, m) && ByPolls(m, s')
    ensures ByPolls(s, s')
  {
    var acts :| PollPath(s, acts, m);
    var acts' :| PollPath(m, acts', s');
    PathsMeet(s, acts, m, acts', s');
  }

  /** No poll and no registration is running, and nobody is in a section. */
  ghost predicate Quiet(s: State) {
    && !s.destroyed && !s.inactive && s.gc.Off? && s.mutex.Unlocked? && s.registry != [] && |s.lists| == NUM_EPOCHS
    && (forall t :: t in s.threads ==> !s.threads[t].state.Active?)
  }

  /** What one poll makes of a quiet state. */
  ghost function Polled(s: State): State
    requires |s.lists| == NUM_EPOCHS
  {
    var k := ClearIndex(s.epoch);
    s.(lists := s.lists[k := []], freed := s.freed + Ptrs(s.lists[k]), epoch := (s.epoch + 1) % NUM_EPOCHS, clock := s.clock + 1)
  }

  lemma {:induction false} FreesAll(s: State)
    requires !s.destroyed && |s.lists| == NUM_EPOCHS && s.gc.Walking?
    ensures ByPolls(s, s.(gc := Walking(s.gc.e, []), freed := s.freed + Ptrs(s.gc.todo)))
    decreases |if s.gc.Walking? then s.gc.todo else []|
  {
    var todo := s.gc.todo;
    var end := s.(gc := Walking(s.gc.e, []), freed := s.freed + Ptrs(todo));
    if todo == [] {
      assert s.freed + multiset{} == s.freed;
      Done(s);
    } else {
      var s1 := s.(gc := Walking(s.gc.e, todo[1..]), freed := s.freed + multiset{todo[0].ptr});
      assert s.freed + Ptrs(todo) == s1.freed + Ptrs(todo[1..]);
      FreesAll(s1);
      First(s, PollFree, end);
    }
  }

  lemma {:induction false} PassesAll(s: State)
    requires !s.destroyed && |s.lists| == NUM_EPOCHS && s.gc.Scanning? && s.gc.next <= |s.registry|
    requires forall t :: t in s.threads ==> !s.threads[t].state.Active?
    ensures ByPolls(s, s.(gc := Scanning(s.gc.e, |s.registry|)))
    decreases |s.registry| - if s.gc.Scanning? then s.gc.next else 0
  {
    if s.gc.next == |s.registry| {
      Done(s);
    } else {
      PassesAll(s.(gc := Scanning(s.gc.e, s.gc.next + 1)));
      First(s, PollScan, s.(gc := Scanning(s.gc.e, |s.registry|)));
    }
  }

  lemma QuietPoll(s: State)
    requires Quiet(s)
    ensures ByPolls(s, Polled(s))
  {
    hide ByPolls;
    var e, k := s.epoch, ClearIndex(s.epoch);
    var s' := Polled(s);
    var walked := s.(gc := Walking(e, []), freed := s.freed + Ptrs(s.lists[k]));
    var cleared := walked.(lists := s.lists[k := []]);
    QuietEnd(cleared.(gc := Scanning(e, 0), mutex := Polling), s');
    First(cleared.(gc := Cleared(e)), PollLock, s');
    First(walked, PollClear, s');
    FreesAll(s.(gc := Walking(e, s.lists[k])));
    Meet(s.(gc := Walking(e, s.lists[k])), walked, s');
    First(s.(gc := Sampled(e)), PollLoadHead, s');
    First(s.(gc := Begun), PollLoadEpoch, s');
    First(s, PollStart, s');
  }

  /** The scan meets nobody, and the epoch advances. */
  lemma QuietEnd(s: State, s': State)
    requires !s.destroyed && |s.lists| == NUM_EPOCHS && s.registry != [] && s.gc == Scanning(s.epoch, 0) && s.mutex.Polling?
    requires forall t :: t in s.threads ==> !s.threads[t].state.Active?
    requires s' == s.(gc := Off, mutex := Unlocked, epoch := (s.epoch + 1) % NUM_EPOCHS, clock := s.clock + 1)
    ensures ByPolls(s, s')
  {
    hide ByPolls;
    var scanned := s.(gc := Scanning(s.epoch, |s.registry|));
    PassesAll(s);
    Done(s');
    First(s'.(mutex := Finishing), PollUnlock, s');
    First(s'.(gc := Advanced, mutex := Polling), PollDone, s');
    First(scanned, PollScan, s');
    Meet(s, scanned, s');
  }

  /** Three polls in a row, while nobody is in a section, free all that is in the lists, once for each entry. */
  lemma ThreePollsFreeEverything(run: seq<State>, acts: seq<Action>, n: nat) returns (s': State)
    requires IsRun(run, acts) && n < |run| && Quiet(run[n])
    ensures ByPolls(run[n], s') && s'.lists == [[], [], []] && s'.threads == run[n].threads
    ensures s'.freed == run[n].freed + Ptrs(run[n].lists[0]) + Ptrs(run[n].lists[1]) + Ptrs(run[n].lists[2])
  {
    InvHolds(run, acts, n);
    var s := run[n];
    assert s.epoch < NUM_EPOCHS;
    hide ByPolls;
    var s1 := Polled(s);
    var s2 := Polled(s1);
    s' := Polled(s2);
    QuietPoll(s);
    QuietPoll(s1);
    QuietPoll(s2);
    Meet(s, s1, s2);
    Meet(s, s2, s');
    Emptied(s, s');
  }

  lemma Emptied(s: State, s': State)
    requires |s.lists| == NUM_EPOCHS && s.epoch < NUM_EPOCHS && s' == Polled(Polled(Polled(s)))
    ensures s'.lists == [[], [], []]
    ensures s'.freed == s.freed + Ptrs(s.lists[0]) + Ptrs(s.lists[1]) + Ptrs(s.lists[2])
  {
    var k := ClearIndex(s.epoch);
    assert k < 3;
    hide Polled, Ptrs, ClearIndex;
    PolledAt(s, k);
    Rotated(s.lists, k, s.freed, s'.freed);
  }

  lemma Rotated(l: seq<seq<Entry>>, k: nat, f: multiset<Ptr>, all: multiset<Ptr>)
    requires |l| == 3 && k < 3 && all == f + Ptrs(l[k]) + Ptrs(l[(k + 1) % 3]) + Ptrs(l[(k + 2) % 3])
    ensures all == f + Ptrs(l[0]) + Ptrs(l[1]) + Ptrs(l[2])
  {
    hide Ptrs;
    if k == 0 {} else if k == 1 {} else {}
  }

  lemma PolledAt(s: State, k: nat)
    requires |s.lists| == NUM_EPOCHS && s.epoch < NUM_EPOCHS && k == ClearIndex(s.epoch)
    ensures var l, s' := s.lists, Polled(Polled(Polled(s)));
            && s'.lists == [[], [], []]
            && s'.freed == s.freed + Ptrs(l[k]) + Ptrs(l[(k + 1) % 3]) + Ptrs(l[(k + 2) % 3])
  {
    hide Ptrs;
    var s1 := Polled(s);
    assert ClearIndex(s1.epoch) == (k + 1) % 3 && s1.lists[(k + 1) % 3] == s.lists[(k + 1) % 3];
    var s2 := Polled(s1);
    assert ClearIndex(s2.epoch) == (k + 2) % 3 && s2.lists[(k + 2) % 3] == s.lists[(k + 2) % 3];
  }

  /** So everything whose retirement has been called, inside sections, is then freed, once. */
  lemma ThreePollsFreeTheRetired(run: seq<State>, acts: seq<Action>, n: nat) returns (s': State)
    requires IsRun(run, acts) && n < |run| && Quiet(run[n])
    requires forall i :: 0 <= i < |acts| ==> RetiresInside(run[i], acts[i])
    ensures ByPolls(run[n], s')
    ensures forall p :: s'.freed[p] == if p in run[n].began && p !in run[n].dropped then 1 else 0
  {
    s' := ThreePollsFreeEverything(run, acts, n);
    var s := run[n];
    AccountHolds(run, acts, n);
    hide ByPolls;
    forall p ensures s'.freed[p] == if p in s.began && p !in s.dropped then 1 else 0 {
      EveryRetiredPointerIsKeptOnce(run, acts, n, p);
      NobodyRetires(s, p);
      PtrsCount(s.lists[0], p);
      PtrsCount(s.lists[1], p);
      PtrsCount(s.lists[2], p);
    }
  }

  lemma NobodyRetires(s: State, p: Ptr)
    requires AccountInv(s) && Quiet(s)
    ensures !BeingRetired(s, p) && Held(s, p) == Count(s.lists[0], p) + Count(s.lists[1], p) + Count(s.lists[2], p)
  {
    assert forall t :: t in s.threads ==> RetirerOk(s, s.threads[t]);
  }
}
