/** What loggers, worker and main thread guarantee over whole runs: no lost wakeup, and a shutdown that drains. */
module DispatchTheorems {
  import opened Common
  import opened Recorders
  import opened Dispatch
  import Mpsc

  lemma {:induction false} InvHolds(run: seq<State>, acts: seq<Action>, n: nat)
    requires IsRun(run, acts) && n < |run|
    ensures Inv(run[n])
  {
    if n == 0 {
      Mpsc.StartOk(NO_ITEM);
    } else {
      InvHolds(run, acts, n - 1);
      assert StepsTo(run, acts, n - 1);
      InvStep(run[n - 1], acts[n - 1]);
    }
  }

  /** No lost wakeup: if the worker is parked on a zero semaphore and an item is queued, some logger is
    * between the exchange of the tail and its post. */
  lemma NoLostWakeup(run: seq<State>, acts: seq<Action>, n: nat)
    requires IsRun(run, acts) && n < |run|
    requires run[n].worker.Waiting? && run[n].sem == 0 && run[n].q.h + 1 < |run[n].q.chain|
    ensures exists t :: InFlight(run[n], t)
  {
    InvHolds(run, acts, n);
  }

  /** The worker gives up only after END was notified, never in between, and only once it has stored
    * CLOSED. */
  lemma WorkerLeavesAfterEnd(run: seq<State>, acts: seq<Action>, n: nat)
    requires IsRun(run, acts) && n < |run| && run[n].worker.Exited?
    ensures Ended(run[n].main) && (run[n].state.Closed? || run[n].overwritten)
  {
    InvHolds(run, acts, n);
  }

  /** While the worker looks up recorders and releases items, the context is running or stopping, which
    * both calls ask for, and destroy has not returned from close. */
  lemma WorkerFindsContextAlive(run: seq<State>, acts: seq<Action>, n: nat)
    requires IsRun(run, acts) && n < |run| && run[n].worker.Processing?
    ensures !run[n].main.Opened? && !run[n].main.StartSet? && !run[n].main.StartPosted? && !run[n].main.Returned?
  {
    InvHolds(run, acts, n);
    assert InHand(run[n]).Some?;
    assert |run[n].q.vals| == |run[n].q.chain| && run[n].q.consumed == run[n].q.vals[1..run[n].q.h + 1];
  }

  /** The calls made so far are those of the direct loop over the items taken and finished. */
  lemma CallsAreDirect(run: seq<State>, acts: seq<Action>, n: nat)
    requires IsRun(run, acts) && n < |run|
    ensures Finished(run[n]) <= run[n].q.consumed && run[n].q.vals != [] && run[n].q.consumed <= run[n].q.vals[1..]
    ensures (run[n].calls, run[n].writes) == Dispatched(run[n].registry, Finished(run[n]), run[n].outcome, 0)
    ensures Writes(run[n].calls) == Targets(run[n].registry, Finished(run[n])) && Releases(run[n].calls) == Finished(run[n])
    ensures Unflushed(run[n].calls) == Served(run[n].registry, Finished(run[n]))
    ensures FlushedAsAsked(run[n].calls, run[n].outcome, 0)
  {
    InvHolds(run, acts, n);
    var s := run[n];
    Consumed(s);
    hide Inv, IsRun, Dispatched, Writes, Targets, Releases, Unflushed, Served, FlushedAsAsked;
    CallsMade(s);
    DispatchedMeans(s.registry, Finished(s), s.outcome, 0);
  }

  lemma CallsMade(s: State)
    requires Inv(s)
    ensures (s.calls, s.writes) == Dispatched(s.registry, Finished(s), s.outcome, 0)
  {}

  /** Shutdown drains: once the worker has left, every item put in before destroy took the write lock has
    * been written once to each registered recorder of its leading valid slots and released once after that, in
    * queue order, with a flush right behind each write that asked for one; and if no logger took the read lock
    * afterwards, that is every item there is. */
  lemma ShutdownDrains(run: seq<State>, acts: seq<Action>, n: nat)
    requires IsRun(run, acts) && n < |run| && run[n].worker.Exited?
    ensures var s := run[n];
            && 0 < s.mark <= |s.q.vals| && s.q.vals[1..s.mark] <= s.q.consumed <= s.q.vals[1..]
            && Writes(s.calls) == Targets(s.registry, s.q.consumed) && Releases(s.calls) == s.q.consumed
            && Unflushed(s.calls) == Served(s.registry, s.q.consumed) && FlushedAsAsked(s.calls, s.outcome, 0)
            && (!s.late ==> s.q.consumed == s.q.vals[1..])
  {
    InvHolds(run, acts, n);
    CallsAreDirect(run, acts, n);
    Drained(run[n]);
    hide Inv, IsRun;
  }

  lemma Drained(s: State)
    requires Inv(s) && s.worker.Exited?
    ensures Finished(s) == s.q.consumed
    ensures 0 < s.mark <= |s.q.vals| && s.q.vals[1..s.mark] <= s.q.consumed <= s.q.vals[1..]
    ensures !s.late ==> s.q.consumed == s.q.vals[1..]
  {
    Consumed(s);
    DrainedTo(s);
    hide Inv;
    Slices(s.q.vals, s.mark, s.q.h + 1);
  }

  lemma DrainedTo(s: State)
    requires Inv(s) && s.worker.Exited?
    ensures Finished(s) == s.q.consumed && 0 < s.mark <= s.q.h + 1 <= |s.q.chain|
    ensures !s.late ==> s.mark == |s.q.chain|
  {
    hide Mpsc.Inv, CallsOk, WakeupOk, LoggersOk;
    assert |s.q.chain| > s.q.h by { Consumed(s); }
  }

  lemma Slices(vals: seq<Item>, i: nat, j: nat)
    requires 0 < i <= j <= |vals|
    ensures vals[1..i] <= vals[1..j] <= vals[1..] && (j == |vals| ==> vals[1..j] == vals[1..])
  {
    assert vals[1..j][..i - 1] == vals[1..i] && vals[1..][..j - 1] == vals[1..j];
  }

  lemma Consumed(s: State)
    requires Inv(s)
    ensures |s.q.vals| == |s.q.chain| && s.q.h < |s.q.vals| && s.q.consumed == s.q.vals[1..s.q.h + 1]
  {}

  /** `close` returns only after that, and never once it has replaced CLOSED by STOPPING itself. */
  lemma CloseReturnsAfterTheDrain(run: seq<State>, acts: seq<Action>, n: nat)
    requires IsRun(run, acts) && n < |run|
    ensures run[n].main.Returned? ==> run[n].worker.Exited? && run[n].state.Closed?
    ensures run[n].overwritten ==> !run[n].main.Returned?
  {
    InvHolds(run, acts, n);
  }
}
