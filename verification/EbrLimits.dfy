/** Reachable states of the reclaimer of clog_ebr.c: a run to its end, and where the guarantees end for a caller
  * who steps outside the conditions of module EbrTheorems. */
module EbrLimits {
  import opened Common
  import opened Ebr
  import opened EbrTheorems

  ghost predicate IsPath(run: seq<State>, acts: seq<Action>) {
    && |run| == |acts| + 1
    && forall i :: 0 <= i < |acts| ==> Enabled(run[i], acts[i]) && run[i + 1] == Apply(run[i], acts[i])
  }

  ghost predicate Leads(s: State, s': State) {
    exists run, acts :: IsPath(run, acts) && run[0] == s && run[|acts|] == s'
  }

  ghost predicate Reachable(s: State) {
    exists s0 :: Init(s0) && Leads(s0, s)
  }

  lemma LeadsToItself(s: State)
    ensures Leads(s, s)
  {
    var run: seq<State>, acts: seq<Action> := [s], [];
    assert IsPath(run, acts) && run[0] == s && run[|acts|] == s;
  }

  lemma Then(s: State, m: State, a: Action)
    requires Leads(s, m) && Enabled(m, a)
    ensures Leads(s, Apply(m, a))
  {
    var run, acts :| IsPath(run, acts) && run[0] == s && run[|acts|] == m;
    var run', acts' := run + [Apply(m, a)], acts + [a];
    forall i | 0 <= i < |acts'| ensures Enabled(run'[i], acts'[i]) && run'[i + 1] == Apply(run'[i], acts'[i]) {
      if i < |acts| { assert StepsTo(run, acts, i); }
    }
    assert IsPath(run', acts') && run'[0] == s && run'[|acts'|] == Apply(m, a);
  }

  /** A reachable state is the end of a run of module Ebr. */
  lemma ReachableEndsARun(s: State)
    requires Reachable(s)
    ensures exists run, acts :: IsRun(run, acts) && run[|acts|] == s
  {
    var s0 :| Init(s0) && Leads(s0, s);
    var run, acts :| IsPath(run, acts) && run[0] == s0 && run[|acts|] == s;
    assert IsRun(run, acts);
  }

  const FRESH: State := State(0, map[], [], Unlocked, [[], [], []], Off, false, false, 0, map[], {}, multiset{}, {})

  function Registered(t: Tid): State {
    FRESH.(threads := map[t := Thread(Inactive, 0, Idle, 0, 0)], registry := [t])
  }

  lemma Register(t: Tid)
    ensures Leads(FRESH, Registered(t))
  {
    hide Leads;
    LeadsToItself(FRESH);
    Then(FRESH, FRESH, RegisterLock(t));
    var s1 := Apply(FRESH, RegisterLock(t));
    Then(FRESH, s1, RegisterInsert(t));
    var s2 := Apply(s1, RegisterInsert(t));
    Then(FRESH, s2, RegisterUnlock(t));
    assert Apply(s2, RegisterUnlock(t)) == Registered(t);
  }

  /** The poll of a list that is empty, up to the mutex. */
  lemma ClearsNothing(s0: State, s: State)
    requires Leads(s0, s)
    requires !s.destroyed && |s.lists| == NUM_EPOCHS && s.gc.Off? && !s.inactive && s.mutex.Unlocked?
    requires s.lists[ClearIndex(s.epoch)] == []
    ensures Leads(s0, s.(gc := Scanning(s.epoch, 0), mutex := Polling))
  {
    hide Leads;
    var e := s.epoch;
    Walks(s0, s, []);
    Then(s0, s.(gc := Walking(e, [])), PollClear);
    assert s.lists[ClearIndex(e) := []] == s.lists;
    Then(s0, s.(gc := Cleared(e)), PollLock);
  }

  /** A poll up to the head of the list it is going to walk. */
  lemma Walks(s0: State, s: State, list: seq<Entry>)
    requires Leads(s0, s)
    requires !s.destroyed && |s.lists| == NUM_EPOCHS && s.gc.Off? && !s.inactive && s.lists[ClearIndex(s.epoch)] == list
    ensures Leads(s0, s.(gc := Walking(s.epoch, list)))
  {
    hide Leads;
    Then(s0, s, PollStart);
    Then(s0, s.(gc := Begun), PollLoadEpoch);
    Then(s0, s.(gc := Sampled(s.epoch)), PollLoadHead);
  }

  /** The end of a poll: the registry has been scanned, nobody was active. */
  lemma Advances(s0: State, s: State)
    requires Leads(s0, s)
    requires !s.destroyed && |s.lists| == NUM_EPOCHS && s.registry != []
    requires s.gc == Scanning(s.epoch, |s.registry|) && s.mutex == Polling
    ensures Leads(s0, s.(gc := Off, mutex := Unlocked, epoch := (s.epoch + 1) % NUM_EPOCHS, clock := s.clock + 1))
  {
    hide Leads;
    Then(s0, s, PollScan);
    var s' := s.(epoch := (s.epoch + 1) % NUM_EPOCHS, clock := s.clock + 1);
    Then(s0, s'.(gc := Advanced), PollDone);
    Then(s0, s'.(gc := Off, mutex := Finishing), PollUnlock);
  }

  /** The scan passes a thread that is not active. */
  lemma Passes(s0: State, s: State)
    requires Leads(s0, s)
    requires !s.destroyed && |s.lists| == NUM_EPOCHS && s.gc.Scanning? && s.gc.next < |s.registry|
    requires s.registry[s.gc.next] in s.threads && !s.threads[s.registry[s.gc.next]].state.Active?
    ensures Leads(s0, s.(gc := Scanning(s.gc.e, s.gc.next + 1)))
  {
    hide Leads;
    Then(s0, s, PollScan);
  }

  /** One poll, from start to unlock, that finds its list empty and its only registered thread inactive. */
  lemma QuietPoll(s0: State, s: State, t: Tid)
    requires Leads(s0, s)
    requires !s.destroyed && |s.lists| == NUM_EPOCHS && s.gc.Off? && !s.inactive && s.mutex.Unlocked?
    requires s.registry == [t] && t in s.threads && !s.threads[t].state.Active?
    requires s.lists[ClearIndex(s.epoch)] == []
    ensures Leads(s0, s.(epoch := (s.epoch + 1) % NUM_EPOCHS, clock := s.clock + 1))
  {
    hide Leads;
    ClearsNothing(s0, s);
    Passes(s0, s.(gc := Scanning(s.epoch, 0), mutex := Polling));
    Advances(s0, s.(gc := Scanning(s.epoch, 1), mutex := Polling));
  }

  /** A retirement called outside a critical section can push onto a list after a poll has walked it and
    * before the poll stores zero: the pointer is then in no list and never freed. */
  lemma RetirementOutsideSectionCanBeLost() returns (s: State)
    ensures Reachable(s) && 7 in s.retired && !AccountedPtr(s, 7)
  {
    hide Leads;
    var t, p := 0, 7;
    Register(t);
    var r := Registered(t);
    Then(FRESH, r, RetireAlloc(t, p));
    var b := r.(threads := map[t := Thread(Inactive, 0, Allocated(p), 0, 0)], began := map[p := 0]);
    assert Apply(r, RetireAlloc(t, p)) == b;
    Then(FRESH, b, RetireLoadEpoch(t));
    var g := b.(threads := map[t := Thread(Inactive, 0, Tagged(p, 0, 0), 0, 0)]);
    Then(FRESH, g, RetireLoadHead(t));
    var h := b.(threads := map[t := Thread(Inactive, 0, Headed(p, 0, 0, None), 0, 0)]);
    assert Apply(g, RetireLoadHead(t)) == h;
    QuietPoll(FRESH, h, t);
    var h1 := h.(epoch := 1, clock := 1);
    QuietPoll(FRESH, h1, t);
    var h2 := h.(epoch := 2, clock := 2);
    s := LoseIt(h2, b);
  }

  const IDLE: map<Tid, Thread> := map[0 := Thread(Inactive, 0, Idle, 0, 0)]

  lemma LoseIt(h2: State, b: State) returns (s: State)
    requires b == Registered(0).(threads := map[0 := Thread(Inactive, 0, Allocated(7), 0, 0)], began := map[7 := 0])
    requires h2 == b.(threads := map[0 := Thread(Inactive, 0, Headed(7, 0, 0, None), 0, 0)], epoch := 2, clock := 2)
    requires Leads(FRESH, h2)
    ensures Reachable(s) && 7 in s.retired && !AccountedPtr(s, 7)
  {
    hide Leads;
    Then(FRESH, h2, PollStart);
    Then(FRESH, h2.(gc := Begun), PollLoadEpoch);
    Then(FRESH, h2.(gc := Sampled(2)), PollLoadHead);
    var w := h2.(gc := Walking(2, []));
    Then(FRESH, w, RetireCas(0));
    PushIntoWalk(w);
    var q := w.(threads := IDLE, lists := [[Entry(7, 0)], [], []], retired := {7});
    s := Overwrite(q);
  }

  lemma PushIntoWalk(w: State)
    requires !w.destroyed && w.lists == [[], [], []] && w.retired == {}
    requires w.threads == map[0 := Thread(Inactive, 0, Headed(7, 0, 0, None), 0, 0)]
    ensures Enabled(w, RetireCas(0))
    ensures Apply(w, RetireCas(0)) == w.(threads := IDLE, lists := [[Entry(7, 0)], [], []], retired := {7})
  {
    assert [Entry(7, 0)] + w.lists[0] == [Entry(7, 0)];
    assert w.lists[0 := [Entry(7, 0)]] == [[Entry(7, 0)], [], []];
  }

  lemma Overwrite(q: State) returns (s: State)
    requires Leads(FRESH, q) && !q.destroyed && q.gc == Walking(2, [])
    requires q.lists == [[Entry(7, 0)], [], []] && q.retired == {7} && q.freed == multiset{}
    ensures Reachable(s) && 7 in s.retired && !AccountedPtr(s, 7)
  {
    hide Leads;
    Then(FRESH, q, PollClear);
    s := Apply(q, PollClear);
    assert s.lists == [[], [], []];
    assert Init(FRESH);
  }

  // ----- A run to its end -----

  const DONE: Thread := Thread(Released, 0, Idle, 1, 0)

  /** Thread 0 has entered, retired 7 and left again. */
  const RETIRED: State :=
    Registered(0).(threads := map[0 := Thread(Inactive, 0, Idle, 1, 0)], began := map[7 := 0], retired := {7},
                   lists := [[Entry(7, 0)], [], []])

  lemma EntersAlone()
    ensures Leads(FRESH, Registered(0).(threads := map[0 := Thread(Active, 0, Idle, 1, 0)]))
  {
    Register(0);
    hide Leads;
    var r := Registered(0);
    Then(FRESH, r, EnterLoad(0));
    var m := r.(threads := map[0 := Thread(Inactive, 0, Entering, 0, 0)]);
    assert Apply(r, EnterLoad(0)) == m;
    Then(FRESH, m, EnterCas(0, false));
    assert Apply(m, EnterCas(0, false)) == r.(threads := map[0 := Thread(Active, 0, Idle, 1, 0)]);
  }

  lemma RetiresAlone()
    ensures Leads(FRESH, RETIRED)
  {
    EntersAlone();
    hide Leads;
    var th := Thread(Active, 0, Idle, 1, 0);
    var s := Registered(0).(threads := map[0 := th]);
    Then(FRESH, s, RetireAlloc(0, 7));
    var b := s.(began := map[7 := 0]);
    var s1 := b.(threads := map[0 := th.(pc := Allocated(7))]);
    assert Apply(s, RetireAlloc(0, 7)) == s1;
    Then(FRESH, s1, RetireLoadEpoch(0));
    var s2 := b.(threads := map[0 := th.(pc := Tagged(7, 0, 0))]);
    assert Apply(s1, RetireLoadEpoch(0)) == s2;
    Then(FRESH, s2, RetireLoadHead(0));
    var s3 := b.(threads := map[0 := th.(pc := Headed(7, 0, 0, None))]);
    assert Apply(s2, RetireLoadHead(0)) == s3;
    PushesAlone(b, s3, th);
  }

  lemma PushesAlone(b: State, s: State, th: Thread)
    requires th == Thread(Active, 0, Idle, 1, 0)
    requires b == Registered(0).(threads := map[0 := th], began := map[7 := 0])
    requires s == b.(threads := map[0 := th.(pc := Headed(7, 0, 0, None))]) && Leads(FRESH, s)
    ensures Leads(FRESH, RETIRED)
  {
    hide Leads;
    Then(FRESH, s, RetireCas(0));
    var p := b.(lists := [[Entry(7, 0)], [], []], retired := {7});
    assert [Entry(7, 0)] + s.lists[0] == [Entry(7, 0)];
    assert Apply(s, RetireCas(0)) == p;
    Then(FRESH, p, Exit(0));
    assert Apply(p, Exit(0)) == RETIRED;
  }

  /** The teardown happens: after the only thread has retired 7, left its section and unregistered, the destruction
    * frees 7. */
  lemma TeardownHappens() returns (s: State)
    ensures Reachable(s) && Enabled(s, TryDestroy) && 7 in s.retired && s.freed[7] == 0
    ensures Apply(s, TryDestroy).destroyed && Apply(s, TryDestroy).freed[7] == 1
  {
    RetiresAlone();
    hide Leads;
    Then(FRESH, RETIRED, Unregister(0));
    var u := RETIRED.(threads := map[0 := DONE]);
    assert Apply(RETIRED, Unregister(0)) == u;
    Then(FRESH, u, Destroy);
    s := u.(inactive := true);
    assert Init(FRESH);
    assert Ptrs([Entry(7, 0)]) == multiset{7} by { assert [Entry(7, 0)][1..] == []; }
  }

  // ----- The grace period counts from the call, not from the push -----

  function Both(a: Thread, b: Thread): map<Tid, Thread> { map[0 := a, 1 := b] }

  const OUT: Thread := Thread(Inactive, 0, Idle, 0, 0)

  /** Threads 0 and 1 registered and nothing else done; the registry lists the later one first. */
  const PAIR: State := FRESH.(threads := Both(OUT, OUT), registry := [1, 0])

  lemma RegisterBoth()
    ensures Leads(FRESH, PAIR)
  {
    hide Leads;
    Register(0);
    var r := Registered(0);
    Then(FRESH, r, RegisterLock(1));
    Then(FRESH, r.(mutex := Registering(1)), RegisterInsert(1));
    assert [1] + r.registry == [1, 0];
    assert r.threads[1 := OUT] == Both(OUT, OUT);
    Then(FRESH, PAIR.(mutex := Registering(1)), RegisterUnlock(1));
  }

  /** Thread t enters a section at the present epoch. */
  lemma Enters(s0: State, s: State, t: Tid)
    requires Leads(s0, s) && !s.destroyed && |s.lists| == NUM_EPOCHS && !s.inactive
    requires t in s.threads && s.threads[t] == OUT
    ensures Leads(s0, s.(threads := s.threads[t := Thread(Active, s.epoch, Idle, 1, s.clock)]))
  {
    hide Leads;
    Then(s0, s, EnterLoad(t));
    var m := Apply(s, EnterLoad(t));
    Then(s0, m, EnterCas(t, false));
    assert Apply(m, EnterCas(t, false)).threads == s.threads[t := Thread(Active, s.epoch, Idle, 1, s.clock)];
  }

  /** Thread 0, in its section, calls the retirement of 7 ... */
  lemma CallsRetirement(s0: State, s: State, th: Thread)
    requires Leads(s0, s) && !s.destroyed && |s.lists| == NUM_EPOCHS
    requires s.threads == Both(th, OUT) && th.pc.Idle? && 7 !in s.began
    ensures Leads(s0, s.(threads := Both(th.(pc := Allocated(7)), OUT), began := s.began[7 := s.clock]))
  {
    hide Leads;
    Then(s0, s, RetireAlloc(0, 7));
    assert s.threads[0 := th.(pc := Allocated(7))] == Both(th.(pc := Allocated(7)), OUT);
  }

  /** ... and loads the epoch. */
  lemma LoadsEpoch(s0: State, s: State, th: Thread)
    requires Leads(s0, s) && !s.destroyed && |s.lists| == NUM_EPOCHS
    requires s.threads == Both(th, OUT) && th.pc == Allocated(7)
    ensures Leads(s0, s.(threads := Both(th.(pc := Tagged(7, s.epoch, s.clock)), OUT)))
  {
    hide Leads;
    Then(s0, s, RetireLoadEpoch(0));
    assert s.threads[0 := th.(pc := Tagged(7, s.epoch, s.clock))] == Both(th.(pc := Tagged(7, s.epoch, s.clock)), OUT);
  }

  const STALE: Thread := Thread(Active, 0, Tagged(7, 0, 0), 1, 0)
  const LATE: Thread := Thread(Active, 1, Idle, 1, 1)

  /** While the first poll is between its scan and its advance, thread 0 enters and tags 7 with epoch 0. */
  lemma StaleTag()
    ensures Leads(FRESH, PAIR.(threads := Both(STALE, OUT), began := map[7 := 0], epoch := 1, clock := 1))
  {
    hide Leads;
    RegisterBoth();
    ClearsNothing(FRESH, PAIR);
    Passes(FRESH, PAIR.(gc := Scanning(0, 0), mutex := Polling));
    Passes(FRESH, PAIR.(gc := Scanning(0, 1), mutex := Polling));
    var scanned := PAIR.(gc := Scanning(0, 2), mutex := Polling);
    Enters(FRESH, scanned, 0);
    var entered := Thread(Active, 0, Idle, 1, 0);
    assert scanned.threads[0 := entered] == Both(entered, OUT);
    CallsRetirement(FRESH, scanned.(threads := Both(entered, OUT)), entered);
    var called := entered.(pc := Allocated(7));
    LoadsEpoch(FRESH, scanned.(threads := Both(called, OUT), began := map[7 := 0]), called);
    Advances(FRESH, scanned.(threads := Both(STALE, OUT), began := map[7 := 0]));
  }

  /** The second poll has passed thread 1; thread 1 enters at epoch 1, then thread 0 loads the list head. */
  function BeforePush(): State {
    PAIR.(threads := Both(STALE.(pc := Headed(7, 0, 0, None)), LATE), began := map[7 := 0], epoch := 1, clock := 1,
          gc := Scanning(1, 1), mutex := Polling)
  }

  lemma LateEntrant()
    ensures Leads(FRESH, BeforePush())
  {
    hide Leads;
    StaleTag();
    var s := PAIR.(threads := Both(STALE, OUT), began := map[7 := 0], epoch := 1, clock := 1);
    ClearsNothing(FRESH, s);
    Passes(FRESH, s.(gc := Scanning(1, 0), mutex := Polling));
    var passed := s.(gc := Scanning(1, 1), mutex := Polling);
    Enters(FRESH, passed, 1);
    assert passed.threads[1 := LATE] == Both(STALE, LATE);
    Then(FRESH, passed.(threads := Both(STALE, LATE)), RetireLoadHead(0));
    assert Both(STALE, LATE)[0 := STALE.(pc := Headed(7, 0, 0, None))] == BeforePush().threads;
  }

  function AfterPush(): State {
    BeforePush().(threads := Both(STALE.(pc := Idle), LATE), lists := [[Entry(7, 0)], [], []], retired := {7})
  }

  lemma PushAtEpochOne()
    ensures Enabled(BeforePush(), RetireCas(0)) && Apply(BeforePush(), RetireCas(0)) == AfterPush()
  {
    var s := BeforePush();
    assert [Entry(7, 0)] + s.lists[0] == [Entry(7, 0)];
    assert s.lists[0 := [Entry(7, 0)]] == [[Entry(7, 0)], [], []];
    assert s.threads[0 := STALE.(pc := Idle)] == Both(STALE.(pc := Idle), LATE);
  }

  /** Thread 0 has left, the scan has passed it and the epoch has advanced to 2. */
  function BeforeThirdPoll(): State {
    AfterPush().(threads := Both(Thread(Inactive, 0, Idle, 1, 0), LATE), gc := Off, mutex := Unlocked, epoch := 2,
                 clock := 2)
  }

  lemma ThirdPollStarts()
    ensures Leads(AfterPush(), BeforeThirdPoll())
  {
    hide Leads;
    var s := AfterPush();
    LeadsToItself(s);
    Then(s, s, Exit(0));
    var left := s.(threads := Both(Thread(Inactive, 0, Idle, 1, 0), LATE));
    assert s.threads[0 := Thread(Inactive, 0, Idle, 1, 0)] == left.threads;
    Passes(s, left);
    Advances(s, left.(gc := Scanning(1, 2)));
  }

  lemma ThirdPollReaches() returns (f: State)
    ensures Leads(AfterPush(), f) && Enabled(f, PollFree) && f.gc.todo[0].ptr == 7 && ActiveIn(f, 1, 1)
  {
    hide Leads;
    ThirdPollStarts();
    var s, idle := AfterPush(), BeforeThirdPoll();
    Walks(s, idle, [Entry(7, 0)]);
    f := idle.(gc := Walking(2, [Entry(7, 0)]));
  }

  /** Counted from the push instead of the call, the grace period is false even when every retirement is
    * made inside a section: thread 1 is active when 7 is pushed and still in the same section when a poll
    * is about to free 7.  (GracePeriod of module EbrTheorems covers the threads active at the call; thread 1
    * entered after it.) */
  lemma GraceFromThePushIsFalse() returns (m: State, f: State)
    ensures Reachable(m) && Enabled(m, RetireCas(0)) && 7 in Apply(m, RetireCas(0)).retired && 7 !in m.retired
    ensures ActiveIn(m, 1, 1)
    ensures Leads(Apply(m, RetireCas(0)), f) && Enabled(f, PollFree) && f.gc.todo[0].ptr == 7
    ensures ActiveIn(f, 1, 1)
  {
    hide Leads;
    LateEntrant();
    PushAtEpochOne();
    m := BeforePush();
    assert Init(FRESH);
    f := ThirdPollReaches();
  }

  /** Without memory for the list entry there is no grace period: thread 1 is active when thread 0 calls the
    * retirement of 7, and 7 is freed by that very step, while thread 1 is still in the same section. */
  lemma NoMemoryFreesAtOnce() returns (m: State)
    ensures Reachable(m) && ActiveIn(m, 0, 1) && ActiveIn(m, 1, 1) && Enabled(m, RetireNoMemory(0, 7))
    ensures 7 !in m.dropped && 7 in Apply(m, RetireNoMemory(0, 7)).dropped && ActiveIn(Apply(m, RetireNoMemory(0, 7)), 1, 1)
  {
    RegisterBoth();
    Enters(FRESH, PAIR, 0);
    var th := Thread(Active, 0, Idle, 1, 0);
    assert PAIR.threads[0 := th] == Both(th, OUT);
    Enters(FRESH, PAIR.(threads := Both(th, OUT)), 1);
    assert Both(th, OUT)[1 := th] == Both(th, th);
    m := PAIR.(threads := Both(th, th));
    assert Init(FRESH);
  }
}
