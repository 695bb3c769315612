/** No node of the lock-free queue is lost: each one before head is with the dequeuer that took it off, with the
  * reclaimer, or freed, and in one place only. */
module LockFreeQueueReclaim {
  import opened Common
  import opened LockFreeQueue
  import opened LockFreeQueueProof
  import opened LockFreeQueueTheorems
  import opened LockFreeQueueMemory
  import Ebr
  import EbrTheorems

  /** Thread t has taken node i off and has not yet called its retirement. */
  predicate TakenBy(s: State, t: Tid, i: nat) {
    t in s.threads && HasHead(s.threads[t].pc) && s.threads[t].pc.hi == i
  }

  ghost predicate InHands(s: State, i: nat) {
    exists t :: TakenBy(s, t, i)
  }

  ghost predicate NodeKept(s: State, i: nat)
    requires i < |s.chain|
  {
    s.chain[i] in s.ebr.began || InHands(s, i)
  }

  ghost predicate DequeuedOk(s: State) {
    forall i :: 0 <= i < s.h && i < |s.chain| ==> NodeKept(s, i)
  }

  /** Nodes before head are appended to nothing; only a successful exchange moves head. */
  lemma ChainGrows(s: State, a: Action)
    requires Inv(s) && Enabled(s, a)
    ensures var s' := Apply(s, a); s.chain <= s'.chain && s'.h <= s.h + 1 && (s'.h > s.h ==> a.DeqCas?)
    ensures forall p :: p in s.ebr.began ==> p in Apply(s, a).ebr.began
  {
    AppliedFields(s, a);
    if EbrPart(s, a).Some? { Ebr.BeganKept(s.ebr, EbrPart(s, a).value); }
    hide Inv;
    if EnqueueKind(a) {
      EnqueueGrows(s, a);
    } else if DequeueKind(a) {
      DequeueGrows(s, a);
    } else {
      ElseGrows(s, a, EbrAfter(s, a));
    }
  }

  lemma EnqueueGrows(s: State, a: Action)
    requires PcEnabled(s, a) && EnqueueKind(a)
    ensures var s' := QueuePart(s, a, s.ebr); s.chain <= s'.chain && s'.h == s.h
  {}

  lemma DequeueGrows(s: State, a: Action)
    requires PcEnabled(s, a) && DequeueKind(a)
    ensures var s' := QueuePart(s, a, s.ebr); s'.chain == s.chain && s'.h <= s.h + 1 && (s'.h > s.h ==> a.DeqCas?)
  {}

  lemma ElseGrows(s: State, a: Action, e: Ebr.State)
    requires PcEnabled(s, a) && !EnqueueKind(a) && !DequeueKind(a)
    ensures var s' := QueuePart(s, a, e); s'.chain == s.chain && s'.h == s.h
  {}

  /** Whoever has taken a node off keeps it until it calls the retirement. */
  lemma TakerGoesOn(s: State, a: Action, t: Tid, i: nat)
    requires Inv(s) && Enabled(s, a) && TakenBy(s, t, i) && i < |s.chain|
    ensures TakenBy(Apply(s, a), t, i) || s.chain[i] in Apply(s, a).ebr.began
  {
    AppliedFields(s, a);
    if Actor(a) == Some(t) {
      TakerHolds(s, t, i);
      hide Inv;
      TakerSteps(s, a, t, i);
    } else {
      OthersKept(s, a, EbrAfter(s, a), t);
    }
  }

  lemma TakerHolds(s: State, t: Tid, i: nat)
    requires Inv(s) && TakenBy(s, t, i)
    ensures i < |s.chain| && s.threads[t].pc.head == s.chain[i] && i < s.h && s.chain[i] !in s.ebr.began
  {
    assert t in s.ebr.threads;
    assert ThreadOk(s, t, s.threads[t], s.ebr.threads[t]);
  }

  lemma TakerSteps(s: State, a: Action, t: Tid, i: nat)
    requires Enabled(s, a) && Actor(a) == Some(t) && TakenBy(s, t, i)
    ensures TakenBy(Apply(s, a), t, i) || s.threads[t].pc.head in Apply(s, a).ebr.began
  {
    AppliedFields(s, a);
    if a.DeqRetire? { Ebr.RetireAllocEffect(s.ebr, t, s.threads[t].pc.head); }
    if a.DeqNoMemory? { Ebr.RetireNoMemoryEffect(s.ebr, t, s.threads[t].pc.head); }
  }

  /** A successful exchange of head leaves the old one with its thread. */
  lemma NewlyTaken(s: State, a: Action)
    requires Inv(s) && Enabled(s, a) && a.DeqCas? && Apply(s, a).h > s.h
    ensures TakenBy(Apply(s, a), a.t, s.h)
  {
    AppliedFields(s, a);
    Knows(s, a.t);
    CasFacts(s, a.t);
  }

  lemma DequeuedStep(s: State, a: Action)
    requires Inv(s) && DequeuedOk(s) && Enabled(s, a)
    ensures DequeuedOk(Apply(s, a))
  {
    var s' := Apply(s, a);
    ChainGrows(s, a);
    if s'.h > s.h { NewlyTaken(s, a); }
    hide Inv, Apply, Enabled, TakenBy;
    forall i | 0 <= i < s'.h && i < |s'.chain| ensures NodeKept(s', i) {
      if i < s.h && i < |s.chain| {
        assert NodeKept(s, i) && s'.chain[i] == s.chain[i];
        if InHands(s, i) {
          var t :| TakenBy(s, t, i);
          TakerGoesOn(s, a, t, i);
        }
      } else {
        HeadInChain(s);
        assert TakenBy(s', a.t, i);
      }
    }
  }

  lemma HeadInChain(s: State)
    requires Inv(s)
    ensures s.h < |s.chain|
  {}

  lemma {:induction false} DequeuedHolds(run: seq<State>, acts: seq<Action>, n: nat)
    requires IsRun(run, acts) && n < |run|
    ensures DequeuedOk(run[n])
  {
    if n > 0 {
      DequeuedHolds(run, acts, n - 1);
      Steps(run, acts, n - 1);
      hide IsRun, Inv, Enabled, Apply, DequeuedOk;
      DequeuedStep(run[n - 1], acts[n - 1]);
    }
  }

  /** Every node that has been dequeued is at all times in exactly one place: with the thread that took it off,
    * with that thread inside its retirement, in a list of the reclaimer, freed by a poll, or freed on the spot.
    * A node that is still queued is in none of them. */
  lemma EveryDequeuedNodeIsKeptOnce(run: seq<State>, acts: seq<Action>, n: nat, i: nat)
    requires IsRun(run, acts) && n < |run| && i < |run[n].chain|
    ensures |run[n].ebr.lists| == Ebr.NUM_EPOCHS
    ensures var s := run[n];
            (if InHands(s, i) then 1 else 0) + EbrTheorems.Places(s.ebr, s.chain[i]) == if i < s.h then 1 else 0
    ensures forall t, u :: TakenBy(run[n], t, i) && TakenBy(run[n], u, i) ==> t == u
  {
    var s := run[n];
    InvHolds(run, acts, n);
    AccountHolds(run, acts, n);
    DequeuedHolds(run, acts, n);
    hide IsRun;
    NodeInOnePlace(s, i);
  }

  lemma NodeInOnePlace(s: State, i: nat)
    requires Inv(s) && DequeuedOk(s) && i < |s.chain|
    requires Ebr.AccountInv(s.ebr) && Ebr.BegunOk(s.ebr) && Ebr.DroppedApart(s.ebr)
    ensures |s.ebr.lists| == Ebr.NUM_EPOCHS
    ensures (if InHands(s, i) then 1 else 0) + EbrTheorems.Places(s.ebr, s.chain[i]) == if i < s.h then 1 else 0
    ensures forall t, u :: TakenBy(s, t, i) && TakenBy(s, u, i) ==> t == u
  {
    EbrTheorems.InOnePlace(s.ebr, s.chain[i]);
    BegunIsBehind(s, i);
    OneTaker(s, i);
    if InHands(s, i) {
      var t :| TakenBy(s, t, i);
      TakerHolds(s, t, i);
    }
    hide Inv, Ebr.AccountInv, Ebr.BegunOk, Ebr.DroppedApart, InHands, EbrTheorems.Places;
    if i < s.h { assert NodeKept(s, i); }
  }

  lemma BegunIsBehind(s: State, i: nat)
    requires Inv(s) && i < |s.chain|
    ensures s.chain[i] in s.ebr.began ==> i < s.h
    ensures |s.ebr.lists| == Ebr.NUM_EPOCHS
  {
    assert s.pos[s.chain[i]] == i;
  }

  lemma OneTaker(s: State, i: nat)
    requires Inv(s)
    ensures forall t, u :: TakenBy(s, t, i) && TakenBy(s, u, i) ==> t == u
  {
    forall t, u | TakenBy(s, t, i) && TakenBy(s, u, i) ensures t == u {
      assert Clash(s.threads[t], s.threads[u]);
    }
  }
}
