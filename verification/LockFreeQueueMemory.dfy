/** Memory safety of the lock-free queue over every run: which nodes a step may touch, and the exact condition
  * under which a node freed on the spot, because a retirement found no memory, can be touched later. */
module LockFreeQueueMemory {
  import opened Common
  import opened LockFreeQueue
  import opened LockFreeQueueProof
  import opened LockFreeQueueTheorems
  import Ebr

  /** The node whose fields a step reads or writes. */
  function Derefs(s: State, a: Action): Option<Ptr>
    requires Enabled(s, a)
  {
    match a
    case EnqLoadNext(t) => Some(s.threads[t].pc.tail)
    case EnqLink(t) => Some(s.threads[t].pc.tail)
    case DeqLoadNext(t) => Some(s.threads[t].pc.head)
    case DeqRead(t) => Some(s.threads[t].pc.nxt)
    case DeqClear(t) => Some(s.threads[t].pc.nxt)
    case _ => None
  }

  /** The address a step compares with head or tail. */
  function Expected(s: State, a: Action): Option<Ptr>
    requires Enabled(s, a)
  {
    match a
    case EnqDecide(t) => Some(s.threads[t].pc.tail)
    case EnqSwing(t) => Some(s.threads[t].pc.tail)
    case DeqDecide(t) =>
      var pc := s.threads[t].pc;
      if pc.head == pc.tail && pc.next.None? then None else Some(pc.tail)
    case DeqCas(t) => Some(s.threads[t].pc.head)
    case _ => None
  }

  predicate Touches(s: State, a: Action, p: Ptr)
    requires Enabled(s, a)
  {
    Derefs(s, a) == Some(p) || Expected(s, a) == Some(p)
  }

  // ----- Polls never free what is touched -----

  /** Allocated, and not freed by a poll. */
  predicate Kept(s: State, p: Ptr) {
    p in s.nodes && p !in s.ebr.freed
  }

  /** A pointer a thread read in its present section is kept, however long ago the node was dequeued. */
  lemma HeldIsKept(s: State, t: Tid, p: Ptr, i: nat)
    requires Inv(s) && Here(s, t) && s.ebr.threads[t].state.Active? && At(s, p, i, s.threads[t].h0)
    ensures Kept(s, p)
  {
    assert LinkOk(s.chain, s.nodes, i);
    assert s.pos[p] == i;
    if p in s.ebr.began { assert SeenGone(s, p); }
    assert Ebr.FreedOk(s.ebr);
  }

  lemma TouchedIsKept(s: State, a: Action, p: Ptr)
    requires Inv(s) && Enabled(s, a) && Touches(s, a, p)
    ensures Kept(s, p)
  {
    var t := a.t;
    Knows(s, t);
    TouchKind(s, a, p);
    hide Inv, Kept, ThreadOk, Touches, Derefs, Expected, Enabled;
    if a.EnqLoadNext? || a.EnqLink? || a.EnqDecide? || a.EnqSwing? {
      TailIsKept(s, t);
    } else if a.DeqDecide? || a.DeqCas? {
      ComparedIsKept(s, a, t, p);
    } else {
      FrontIsKept(s, t);
    }
  }

  lemma TouchKind(s: State, a: Action, p: Ptr)
    requires Enabled(s, a) && Touches(s, a, p)
    ensures !a.Reclaimer? && Here(s, a.t)
    ensures var pc := s.threads[a.t].pc;
            if a.EnqLoadNext? || a.EnqLink? || a.EnqDecide? || a.EnqSwing? then
              (pc.EHaveTail? || pc.EHaveNext? || pc.EChecked? || pc.ELinked?) && p == pc.tail
            else if a.DeqDecide? || a.DeqCas? then Expected(s, a) == Some(p)
            else (pc.DTail? || pc.DTaken? || pc.DRead?) && p == if pc.DTail? then pc.head else pc.nxt
  {}

  lemma TailIsKept(s: State, t: Tid)
    requires Inv(s) && Here(s, t) && ThreadOk(s, t, s.threads[t], s.ebr.threads[t])
    requires var pc := s.threads[t].pc; pc.EHaveTail? || pc.EHaveNext? || pc.EChecked? || pc.ELinked?
    ensures Kept(s, s.threads[t].pc.tail)
  {
    hide Inv, Kept;
    HeldIsKept(s, t, s.threads[t].pc.tail, s.threads[t].pc.ti);
  }

  lemma FrontIsKept(s: State, t: Tid)
    requires Inv(s) && Here(s, t) && ThreadOk(s, t, s.threads[t], s.ebr.threads[t])
    requires s.threads[t].pc.DTail? || s.threads[t].pc.DTaken? || s.threads[t].pc.DRead?
    ensures Kept(s, if s.threads[t].pc.DTail? then s.threads[t].pc.head else s.threads[t].pc.nxt)
  {
    hide Inv, Kept;
    var pc := s.threads[t].pc;
    if pc.DTail? { HeldIsKept(s, t, pc.head, pc.hi); } else { HeldIsKept(s, t, pc.nxt, pc.hi + 1); }
  }

  lemma ComparedIsKept(s: State, a: Action, t: Tid, p: Ptr)
    requires Inv(s) && Here(s, t) && ThreadOk(s, t, s.threads[t], s.ebr.threads[t])
    requires Enabled(s, a) && (a == DeqDecide(t) || a == DeqCas(t)) && Expected(s, a) == Some(p)
    ensures Kept(s, p)
  {
    hide Inv, Kept;
    var pc := s.threads[t].pc;
    if pc.DChecked? { HeldIsKept(s, t, pc.head, pc.hi); } else { HeldIsKept(s, t, pc.tail, pc.ti); }
  }

  // ----- What is freed on the spot -----

  /** Thread u still holds p in a way that it can follow or compare. */
  predicate Refers(s: State, u: Tid, p: Ptr) {
    u in s.threads &&
    match s.threads[u].pc
    case EHaveTail(_, _, tail, _) => tail == p
    case EHaveNext(_, _, tail, _, _) => tail == p
    case EChecked(_, _, tail, _) => tail == p
    case ELinked(_, _, tail, _) => tail == p
    case DHead(head, _) => head == p
    case DTail(head, _, tail, _) => head == p || tail == p
    case DNext(head, _, tail, _, next) =>
      (tail == p && !(head == p && next.None?)) || (head == p && tail == s.tail && next.Some?)
    case DChecked(head, _, _) => head == p
    case DTaken(_, _, nxt) => nxt == p
    case DRead(_, _, nxt, _) => nxt == p
    case _ => false
  }

  ghost predicate HeldByOther(s: State, t: Tid, p: Ptr) {
    exists u :: u != t && Refers(s, u, p)
  }

  /** Step m frees p on the spot: no memory for the reclaimer's list entry. */
  predicate Drops(s: State, a: Action, p: Ptr) {
    a.DeqNoMemory? && Enabled(s, a) && s.threads[a.t].pc.head == p
  }

  lemma TouchRefers(s: State, a: Action, p: Ptr)
    requires Enabled(s, a) && Touches(s, a, p)
    ensures !a.Reclaimer? && Refers(s, a.t, p)
  {}

  /** p is behind head and nobody can come back to it. */
  ghost predicate Gone(s: State, p: Ptr) {
    && p in s.pos && s.pos[p] < s.h
    && forall u :: u in s.threads ==> !Refers(s, u, p)
  }

  lemma {:induction false} GoneStays(s: State, acts: seq<Action>, p: Ptr)
    requires Inv(s) && Gone(s, p) && Executable(s, acts)
    ensures !TouchedAlong(s, acts, p)
    decreases |acts|
  {
    hide Inv, Gone, Apply, Enabled, Refers, Touches;
    if acts != [] {
      GoneNotTouched(s, acts[0], p);
      GoneStep(s, acts[0], p);
      InvStep(s, acts[0]);
      GoneStays(Apply(s, acts[0]), acts[1..], p);
    }
  }

  lemma GoneNotTouched(s: State, a: Action, p: Ptr)
    requires Gone(s, p) && Enabled(s, a)
    ensures !Touches(s, a, p)
  {
    hide Enabled, Touches, Refers;
    if Touches(s, a, p) { TouchRefers(s, a, p); }
  }

  lemma GoneNotReferred(s: State, u: Tid, p: Ptr)
    requires Gone(s, p)
    ensures !Refers(s, u, p)
  {}

  predicate Executable(s: State, acts: seq<Action>)
    decreases |acts|
  {
    acts != [] ==> Enabled(s, acts[0]) && Executable(Apply(s, acts[0]), acts[1..])
  }

  predicate TouchedAlong(s: State, acts: seq<Action>, p: Ptr)
    requires Executable(s, acts)
    decreases |acts|
  {
    acts != [] && (Touches(s, acts[0], p) || TouchedAlong(Apply(s, acts[0]), acts[1..], p))
  }

  /** Some continuation touches p. */
  ghost predicate CanTouch(s: State, p: Ptr) {
    exists acts :: Executable(s, acts) && TouchedAlong(s, acts, p)
  }

  // A node that is gone stays gone.

  /** What every step does to the queue's fields, as far as a node behind head is concerned. */
  lemma Forward(s: State, a: Action, p: Ptr)
    requires Inv(s) && Enabled(s, a) && p in s.pos
    ensures var s' := Apply(s, a);
            && p in s'.pos && s'.pos[p] == s.pos[p] && s.h <= s'.h && s.tl <= s'.tl && s'.tl < |s'.chain|
            && (s'.tail == s.tail || s.tl < s'.tl)
  {
    InvStep(s, a);
    AppliedFields(s, a);
    if EnqueueKind(a) {
      ForwardEnqueue(s, a, p);
    } else if DequeueKind(a) {
      ForwardDequeue(s, a);
    } else {
      hide Inv;
      ForwardElse(s, a, EbrAfter(s, a));
    }
  }

  lemma AppliedFields(s: State, a: Action)
    requires Enabled(s, a)
    ensures Apply(s, a) == QueuePart(s, a, EbrAfter(s, a)).(ebr := EbrAfter(s, a))
  {}

  lemma ForwardElse(s: State, a: Action, e: Ebr.State)
    requires PcEnabled(s, a) && !EnqueueKind(a) && !DequeueKind(a)
    ensures var s' := QueuePart(s, a, e); s'.pos == s.pos && s'.h == s.h && s'.tl == s.tl && s'.tail == s.tail
  {}

  lemma ForwardEnqueue(s: State, a: Action, p: Ptr)
    requires Inv(s) && PcEnabled(s, a) && EnqueueKind(a) && p in s.pos
    ensures var s' := QueuePart(s, a, s.ebr);
            && p in s'.pos && s'.pos[p] == s.pos[p] && s.h == s'.h && s.tl <= s'.tl
            && (s'.tail == s.tail || s.tl < s'.tl)
  {
    if a.EnqLink? {
      PrivateNode(s, a.t);
      hide Inv;
      ForwardLink(s, a.t, p);
    } else {
      hide Inv;
      ForwardTail(s, a);
    }
  }

  lemma ForwardLink(s: State, t: Tid, p: Ptr)
    requires PcEnabled(s, EnqLink(t)) && p in s.pos && s.threads[t].pc.n !in s.pos
    ensures var s' := Link(s, t); p in s'.pos && s'.pos[p] == s.pos[p] && s.h == s'.h && s.tl == s'.tl && s'.tail == s.tail
  {}

  lemma ForwardTail(s: State, a: Action)
    requires PcEnabled(s, a) && EnqueueKind(a) && !a.EnqLink?
    ensures var s' := QueuePart(s, a, s.ebr);
            s'.pos == s.pos && s.h == s'.h && s.tl <= s'.tl && (s'.tail == s.tail || s.tl < s'.tl)
  {}

  lemma PrivateNode(s: State, t: Tid)
    requires Inv(s) && PcEnabled(s, EnqLink(t))
    ensures s.threads[t].pc.n !in s.pos
  {
    assert ThreadOk(s, t, s.threads[t], s.ebr.threads[t]);
  }

  lemma ForwardDequeue(s: State, a: Action)
    requires PcEnabled(s, a) && DequeueKind(a)
    ensures var s' := QueuePart(s, a, s.ebr);
            && s'.pos == s.pos && s.h <= s'.h && s.tl <= s'.tl
            && (s'.tail == s.tail || s.tl < s'.tl)
  {}

  lemma Facts(s: State)
    requires Inv(s)
    ensures ShapeOk(s) && EbrOk(s)
  {}

  lemma OnlyActorNew(s: State, a: Action, e: Ebr.State, u: Tid)
    requires PcEnabled(s, a) && u in QueuePart(s, a, e).threads && Actor(a) != Some(u)
    ensures u in s.threads
  {
    if EnqueueKind(a) { OnlyActorEnqueue(s, a, e, u); } else if DequeueKind(a) { OnlyActorDequeue(s, a, e, u); }
  }

  lemma OnlyActorEnqueue(s: State, a: Action, e: Ebr.State, u: Tid)
    requires PcEnabled(s, a) && EnqueueKind(a) && u in QueuePart(s, a, e).threads
    ensures u in s.threads
  {}

  lemma OnlyActorDequeue(s: State, a: Action, e: Ebr.State, u: Tid)
    requires PcEnabled(s, a) && DequeueKind(a) && u in QueuePart(s, a, e).threads
    ensures u in s.threads
  {}

  /** The tail that a thread at DNext remembers, once it is not the tail any more, is never again. */
  lemma OthersLetGo(s: State, a: Action, u: Tid, p: Ptr)
    requires Inv(s) && Gone(s, p) && Enabled(s, a) && u in Apply(s, a).threads && Actor(a) != Some(u)
    ensures !Refers(Apply(s, a), u, p)
  {
    var s' := Apply(s, a);
    AppliedFields(s, a);
    OnlyActorNew(s, a, EbrAfter(s, a), u);
    OthersKept(s, a, EbrAfter(s, a), u);
    GoneNotReferred(s, u, p);
    hide QueuePart, Apply, Enabled, Gone;
    assert s'.threads[u] == s.threads[u];
    if s.threads[u].pc.DNext? && s'.tail != s.tail { OldTailStaysOld(s, a, u); }
    SameReferences(s, s', u, p);
  }

  lemma SameReferences(s: State, s': State, u: Tid, p: Ptr)
    requires u in s.threads && u in s'.threads && s'.threads[u] == s.threads[u] && !Refers(s, u, p)
    requires s.threads[u].pc.DNext? && s'.tail != s.tail ==> s.threads[u].pc.tail != s'.tail
    ensures !Refers(s', u, p)
  {}

  lemma OldTailStaysOld(s: State, a: Action, u: Tid)
    requires Inv(s) && Enabled(s, a) && u in s.threads && s.threads[u].pc.DNext? && Apply(s, a).tail != s.tail
    ensures s.threads[u].pc.tail != Apply(s, a).tail
  {
    var s' := Apply(s, a);
    InvStep(s, a);
    Facts(s);
    Facts(s');
    RemembersTail(s, u);
    hide Inv, Apply, Enabled, ThreadOk, EbrOk;
    Forward(s, a, s.threads[u].pc.tail);
    assert s'.pos[s'.chain[s'.tl]] == s'.tl;
  }

  lemma RemembersTail(s: State, u: Tid)
    requires Inv(s) && u in s.threads && s.threads[u].pc.DNext?
    ensures var pc := s.threads[u].pc; pc.tail in s.pos && s.pos[pc.tail] == pc.ti <= s.tl
  {
    assert u in s.ebr.threads;
    assert ThreadOk(s, u, s.threads[u], s.ebr.threads[u]);
    assert s.pos[s.chain[s.threads[u].pc.ti]] == s.threads[u].pc.ti;
  }

  lemma ActorLetsGo(s: State, a: Action, p: Ptr)
    requires Inv(s) && Gone(s, p) && Enabled(s, a) && !a.Reclaimer? && a.t in Apply(s, a).threads
    ensures !Refers(Apply(s, a), a.t, p)
  {
    AppliedFields(s, a);
    GoneNotReferred(s, a.t, p);
    if EnqueueKind(a) || DequeueKind(a) {
      Knows(s, a.t);
      Facts(s);
      hide Inv, EbrOk;
      if EnqueueKind(a) { EnqueueLetsGo(s, a, p); } else { DequeueLetsGo(s, a, p); }
      SamePart(s, a, p);
    } else {
      hide Inv;
      ElseLetsGo(s, a, EbrAfter(s, a), p);
      SamePart(s, a, p);
    }
  }

  lemma SamePart(s: State, a: Action, p: Ptr)
    requires Enabled(s, a) && !a.Reclaimer?
    ensures Refers(Apply(s, a), a.t, p) == Refers(QueuePart(s, a, EbrAfter(s, a)), a.t, p)
    ensures EnqueueKind(a) || DequeueKind(a) ==> EbrAfter(s, a) == s.ebr
  {
    AppliedFields(s, a);
    SameEbr(s, a);
    hide QueuePart, Apply, Enabled, EbrAfter;
  }

  lemma SameEbr(s: State, a: Action)
    requires Enabled(s, a)
    ensures EnqueueKind(a) || DequeueKind(a) ==> EbrAfter(s, a) == s.ebr
  {}

  lemma ElseLetsGo(s: State, a: Action, e: Ebr.State, p: Ptr)
    requires PcEnabled(s, a) && !a.Reclaimer? && !EnqueueKind(a) && !DequeueKind(a) && !Refers(s, a.t, p)
    ensures !Refers(QueuePart(s, a, e), a.t, p)
  {}

  lemma EnqueueLetsGo(s: State, a: Action, p: Ptr)
    requires ShapeOk(s) && PcEnabled(s, a) && EnqueueKind(a) && p in s.pos && s.pos[p] < s.h && !Refers(s, a.t, p)
    ensures !Refers(QueuePart(s, a, s.ebr), a.t, p)
  {
    assert s.pos[s.chain[s.tl]] == s.tl;
  }

  lemma DequeueLetsGo(s: State, a: Action, p: Ptr)
    requires ShapeOk(s) && PcEnabled(s, a) && DequeueKind(a) && p in s.pos && s.pos[p] < s.h && !Refers(s, a.t, p)
    requires ThreadOk(s, a.t, s.threads[a.t], s.ebr.threads[a.t])
    ensures !Refers(QueuePart(s, a, s.ebr), a.t, p)
  {
    if a.DeqCas? {
      CasLetsGo(s, a.t, p);
    } else {
      assert s.pos[s.chain[s.tl]] == s.tl && s.pos[s.chain[s.h]] == s.h;
      assert p != s.head && p != s.tail;
      hide ShapeOk, ThreadOk;
      MovesLetGo(s, a, p);
    }
  }

  lemma MovesLetGo(s: State, a: Action, p: Ptr)
    requires PcEnabled(s, a) && DequeueKind(a) && !a.DeqCas? && !Refers(s, a.t, p) && p != s.head && p != s.tail
    ensures !Refers(QueuePart(s, a, s.ebr), a.t, p)
  {}

  lemma CasLetsGo(s: State, t: Tid, p: Ptr)
    requires ShapeOk(s) && PcEnabled(s, DeqCas(t)) && p in s.pos && s.pos[p] < s.h
    requires ThreadOk(s, t, s.threads[t], s.ebr.threads[t])
    ensures !Refers(QueuePart(s, DeqCas(t), s.ebr), t, p)
  {
    var pc := s.threads[t].pc;
    if s.head == pc.head {
      SamePosition(s, s.h, pc.hi);
      assert s.pos[s.chain[pc.hi + 1]] == pc.hi + 1;
    }
  }

  lemma GoneStep(s: State, a: Action, p: Ptr)
    requires Inv(s) && Gone(s, p) && Enabled(s, a)
    ensures Gone(Apply(s, a), p)
  {
    var s' := Apply(s, a);
    Forward(s, a, p);
    hide Inv, Apply, Enabled, Refers;
    forall u | u in s'.threads ensures !Refers(s', u, p) {
      if Actor(a) == Some(u) { ActorLetsGo(s, a, p); } else { OthersLetGo(s, a, u, p); }
    }
  }

  // ----- Whoever still holds a dropped node can touch it -----

  lemma OneStepTouches(s: State, a: Action, p: Ptr)
    requires Enabled(s, a) && Touches(s, a, p)
    ensures CanTouch(s, p)
  {
    hide Apply, Enabled, Touches;
    assert Executable(Apply(s, a), []);
    assert [a][1..] == [];
    assert Executable(s, [a]) && TouchedAlong(s, [a], p);
  }

  lemma StepThenTouches(s: State, a: Action, p: Ptr)
    requires Enabled(s, a) && CanTouch(Apply(s, a), p)
    ensures CanTouch(s, p)
  {
    hide Apply, Enabled, Touches;
    var acts :| Executable(Apply(s, a), acts) && TouchedAlong(Apply(s, a), acts, p);
    assert ([a] + acts)[1..] == acts;
    assert Executable(s, [a] + acts) && TouchedAlong(s, [a] + acts, p);
  }

  lemma NodesHere(s: State, u: Tid, p: Ptr)
    requires Inv(s) && Refers(s, u, p)
    ensures Here(s, u)
    ensures var pc := s.threads[u].pc;
            && (pc.EHaveTail? || pc.EChecked? ==> pc.tail in s.nodes)
            && (pc.DHead? || pc.DTail? ==> pc.head in s.nodes)
            && (pc.DTaken? || pc.DRead? ==> pc.nxt in s.nodes)
  {
    assert ThreadOk(s, u, s.threads[u], s.ebr.threads[u]);
    var pc := s.threads[u].pc;
    if pc.EHaveTail? || pc.EChecked? { assert LinkOk(s.chain, s.nodes, pc.ti); }
    if pc.DHead? || pc.DTail? { assert LinkOk(s.chain, s.nodes, pc.hi); }
    if pc.DTaken? || pc.DRead? { assert LinkOk(s.chain, s.nodes, pc.hi + 1); }
  }

  lemma HolderCanTouch(s: State, u: Tid, p: Ptr)
    requires Inv(s) && Refers(s, u, p)
    ensures CanTouch(s, p)
  {
    NodesHere(s, u, p);
    hide Inv, CanTouch;
    var pc := s.threads[u].pc;
    if pc.DHead? || pc.DTail? || pc.DNext? {
      FrontHolderCanTouch(s, u, p);
    } else {
      if pc.DChecked? || pc.DTaken? || pc.DRead? { DequeueTouches(s, u, p); } else { EnqueueTouches(s, u, p); }
      hide Refers, NextTouch, Enabled, Touches;
      OneStepTouches(s, NextTouch(pc, u), p);
    }
  }

  lemma EnqueueTouches(s: State, u: Tid, p: Ptr)
    requires Here(s, u) && Refers(s, u, p)
    requires var pc := s.threads[u].pc;
             && (pc.EHaveTail? || pc.EHaveNext? || pc.EChecked? || pc.ELinked?)
             && (pc.EHaveTail? || pc.EChecked? ==> pc.tail in s.nodes)
    ensures var a := NextTouch(s.threads[u].pc, u); Enabled(s, a) && Touches(s, a, p)
  {}

  lemma DequeueTouches(s: State, u: Tid, p: Ptr)
    requires Here(s, u) && Refers(s, u, p)
    requires var pc := s.threads[u].pc;
             (pc.DChecked? || pc.DTaken? || pc.DRead?) && (pc.DTaken? || pc.DRead? ==> pc.nxt in s.nodes)
    ensures var a := NextTouch(s.threads[u].pc, u); Enabled(s, a) && Touches(s, a, p)
  {}

  function NextTouch(pc: Pc, u: Tid): Action {
    match pc
    case EHaveTail(_, _, _, _) => EnqLoadNext(u)
    case EHaveNext(_, _, _, _, _) => EnqDecide(u)
    case EChecked(_, _, _, _) => EnqLink(u)
    case ELinked(_, _, _, _) => EnqSwing(u)
    case DChecked(_, _, _) => DeqCas(u)
    case DTaken(_, _, _) => DeqRead(u)
    case _ => DeqClear(u)
  }

  lemma FrontHolderCanTouch(s: State, u: Tid, p: Ptr)
    requires Here(s, u) && Refers(s, u, p)
    requires var pc := s.threads[u].pc; pc.DNext? || ((pc.DHead? || pc.DTail?) && pc.head in s.nodes)
    ensures CanTouch(s, p)
  {
    var pc := s.threads[u].pc;
    if pc.DHead? {
      var s' := Apply(s, DeqLoadTail(u));
      TailHolderCanTouch(s', u, p);
      StepThenTouches(s, DeqLoadTail(u), p);
    } else if pc.DTail? {
      TailHolderCanTouch(s, u, p);
    } else {
      NextHolderCanTouch(s, u, p);
    }
  }

  lemma TailHolderCanTouch(s: State, u: Tid, p: Ptr)
    requires Here(s, u) && s.threads[u].pc.DTail? && s.threads[u].pc.head in s.nodes
    requires s.threads[u].pc.head == p || s.threads[u].pc.tail == p
    ensures CanTouch(s, p)
  {
    hide CanTouch;
    if s.threads[u].pc.head == p {
      OneStepTouches(s, DeqLoadNext(u), p);
    } else {
      NextHolderCanTouch(Apply(s, DeqLoadNext(u)), u, p);
      StepThenTouches(s, DeqLoadNext(u), p);
    }
  }

  lemma NextHolderCanTouch(s: State, u: Tid, p: Ptr)
    requires Here(s, u) && s.threads[u].pc.DNext? && Refers(s, u, p)
    ensures CanTouch(s, p)
  {
    hide CanTouch;
    var pc := s.threads[u].pc;
    if pc.tail == p && !(pc.head == p && pc.next.None?) {
      OneStepTouches(s, DeqDecide(u), p);
    } else {
      OneStepTouches(Apply(s, DeqDecide(u)), DeqCas(u), p);
      StepThenTouches(s, DeqDecide(u), p);
    }
  }

  // ----- The theorems -----

  /** A dropped node is behind head. */
  lemma DroppedIsBehind(s: State, a: Action, p: Ptr)
    requires Inv(s) && Drops(s, a, p)
    ensures p in s.pos && s.pos[p] < s.h && !Refers(s, a.t, p)
  {
    assert ThreadOk(s, a.t, s.threads[a.t], s.ebr.threads[a.t]);
    assert s.pos[s.chain[s.threads[a.t].pc.hi]] == s.threads[a.t].pc.hi;
  }

  lemma DropKeepsOthers(s: State, a: Action, u: Tid, p: Ptr)
    requires a.DeqNoMemory? && Enabled(s, a)
    ensures u != a.t ==> Refers(Apply(s, a), u, p) == Refers(s, u, p)
    ensures !Refers(Apply(s, a), a.t, p)
  {}

  lemma GoneAfterDrop(s: State, a: Action, p: Ptr)
    requires Inv(s) && Drops(s, a, p) && !HeldByOther(s, a.t, p)
    ensures Gone(Apply(s, a), p)
  {
    DroppedIsBehind(s, a, p);
    Forward(s, a, p);
    var s' := Apply(s, a);
    hide Inv, Apply, Enabled, Refers;
    forall u | u in s'.threads ensures !Refers(s', u, p) {
      DropKeepsOthers(s, a, u, p);
      if u != a.t { assert !Refers(s, u, p); }
    }
  }

  /** Where the guarantee ends when memory runs out.  A node that a dequeue frees on the spot can be touched
    * afterwards, by some continuation, if and only if another thread holds it at that moment. */
  lemma DroppedNodeCanBeTouchedExactly(run: seq<State>, acts: seq<Action>, m: nat, p: Ptr)
    requires IsRun(run, acts) && m < |acts| && Drops(run[m], acts[m], p)
    ensures p in run[m + 1].ebr.dropped
    ensures CanTouch(run[m + 1], p) <==> HeldByOther(run[m], acts[m].t, p)
  {
    var s, a := run[m], acts[m];
    assert StepsTo(run, acts, m);
    InvHolds(run, acts, m);
    InvStep(s, a);
    DropAdds(s, a, p);
    hide IsRun, Inv, Apply, Enabled, Refers;
    if HeldByOther(s, a.t, p) {
      var u :| u != a.t && Refers(s, u, p);
      DropKeepsOthers(s, a, u, p);
      HolderCanTouch(Apply(s, a), u, p);
    } else {
      GoneAfterDrop(s, a, p);
      forall more | Executable(Apply(s, a), more) ensures !TouchedAlong(Apply(s, a), more, p) {
        GoneStays(Apply(s, a), more, p);
      }
    }
  }

  lemma DropAdds(s: State, a: Action, p: Ptr)
    requires Drops(s, a, p)
    ensures p in Apply(s, a).ebr.dropped
  {}

  lemma DropOrigin(s: State, a: Action, p: Ptr)
    requires Enabled(s, a) && p in Apply(s, a).ebr.dropped && p !in s.ebr.dropped
    ensures Drops(s, a, p)
  {
    if !a.DeqNoMemory? && EbrPart(s, a).Some? {
      PartKind(s, a);
      Ebr.FlagsKept(s.ebr, EbrPart(s, a).value);
    }
  }

  lemma {:induction false} DroppedSomewhere(run: seq<State>, acts: seq<Action>, n: nat, p: Ptr) returns (m: nat)
    requires IsRun(run, acts) && n < |run| && p in run[n].ebr.dropped
    ensures m < n && Drops(run[m], acts[m], p)
  {
    NothingDroppedYet(run, acts);
    if n == 0 {
      assert false;
    } else if p in run[n - 1].ebr.dropped {
      m := DroppedSomewhere(run, acts, n - 1, p);
    } else {
      assert StepsTo(run, acts, n - 1);
      DropOrigin(run[n - 1], acts[n - 1], p);
      m := n - 1;
    }
  }

  lemma NothingDroppedYet(run: seq<State>, acts: seq<Action>)
    requires IsRun(run, acts)
    ensures run[0].ebr.dropped == {}
  {}

  /** Step m of a run. */
  lemma Steps(run: seq<State>, acts: seq<Action>, m: nat)
    requires IsRun(run, acts) && m < |acts|
    ensures Inv(run[m]) && Enabled(run[m], acts[m]) && run[m + 1] == Apply(run[m], acts[m])
  {
    InvHolds(run, acts, m);
    assert StepsTo(run, acts, m);
    hide Inv, Enabled, Apply;
  }

  lemma {:induction false} StaysGone(run: seq<State>, acts: seq<Action>, m: nat, n: nat, p: Ptr)
    requires IsRun(run, acts) && m <= n < |run| && Gone(run[m], p)
    ensures Gone(run[n], p)
    decreases n
  {
    hide Inv, Apply, Enabled, Gone;
    assert |run| == |acts| + 1;
    hide IsRun;
    if m < n {
      StaysGone(run, acts, m, n - 1, p);
      Steps(run, acts, n - 1);
      GoneStep(run[n - 1], acts[n - 1], p);
    }
  }

  /** No step of any run touches a node that a poll has freed, stale pointers kept across failed exchanges
    * included; and it touches one that was freed on the spot only if another thread held the node then. */
  lemma NoUseAfterFree(run: seq<State>, acts: seq<Action>, n: nat, p: Ptr)
    requires IsRun(run, acts) && n < |acts| && Enabled(run[n], acts[n]) && Touches(run[n], acts[n], p)
    ensures Kept(run[n], p)
    ensures p in run[n].ebr.dropped ==>
              exists m :: 0 <= m < n && Drops(run[m], acts[m], p) && HeldByOther(run[m], acts[m].t, p)
  {
    InvHolds(run, acts, n);
    hide IsRun, Inv, Enabled, Touches, Kept, Drops, HeldByOther;
    TouchedIsKept(run[n], acts[n], p);
    if p in run[n].ebr.dropped {
      var m := DroppedSomewhere(run, acts, n, p);
      if !HeldByOther(run[m], acts[m].t, p) { UnheldNotTouched(run, acts, m, n, p); }
    }
  }

  lemma UnheldNotTouched(run: seq<State>, acts: seq<Action>, m: nat, n: nat, p: Ptr)
    requires IsRun(run, acts) && m < n < |acts| && Enabled(run[n], acts[n])
    requires Drops(run[m], acts[m], p) && !HeldByOther(run[m], acts[m].t, p)
    ensures !Touches(run[n], acts[n], p)
  {
    hide Inv, Enabled, Apply, Touches, Refers, Gone, HeldByOther, Drops, StepsTo;
    Steps(run, acts, m);
    GoneAfterDrop(run[m], acts[m], p);
    StaysGone(run, acts, m + 1, n, p);
    GoneNotTouched(run[n], acts[n], p);
  }

  /** In a run whose retirements find memory nothing is freed on the spot. */
  lemma NothingDropped(run: seq<State>, acts: seq<Action>, n: nat)
    requires IsRun(run, acts) && n < |run| && forall i :: 0 <= i < |acts| ==> !acts[i].DeqNoMemory?
    ensures run[n].ebr.dropped == {}
  {
    forall p ensures p !in run[n].ebr.dropped {
      if p in run[n].ebr.dropped { var m := DroppedSomewhere(run, acts, n, p); }
    }
  }

  /** Head and tail are never freed, on the spot or otherwise: with NoUseAfterFree, both sides of every
    * comparison with them are live unless a held node was dropped, so that equal addresses are the same
    * allocation and a reused one never makes an exchange succeed by mistake. */
  lemma HeadAndTailAreLive(run: seq<State>, acts: seq<Action>, n: nat)
    requires IsRun(run, acts) && n < |run|
    ensures Kept(run[n], run[n].head) && run[n].head !in run[n].ebr.dropped
    ensures Kept(run[n], run[n].tail) && run[n].tail !in run[n].ebr.dropped
  {
    InvHolds(run, acts, n);
    DroppedAreBehind(run, acts, n);
    QueuedIsLive(run[n], run[n].h);
    QueuedIsLive(run[n], run[n].tl);
  }

  lemma DroppedAreBehind(run: seq<State>, acts: seq<Action>, n: nat)
    requires IsRun(run, acts) && n < |run|
    ensures forall p :: p in run[n].ebr.dropped ==> p in run[n].pos && run[n].pos[p] < run[n].h
  {
    forall p | p in run[n].ebr.dropped ensures p in run[n].pos && run[n].pos[p] < run[n].h {
      NodesReclaimedOnce(run, acts, n, p);
    }
  }

  lemma QueuedIsLive(s: State, i: nat)
    requires Inv(s) && s.h <= i < |s.chain| && forall p :: p in s.ebr.dropped ==> p in s.pos && s.pos[p] < s.h
    ensures Kept(s, s.chain[i]) && s.chain[i] !in s.ebr.dropped
  {
    assert LinkOk(s.chain, s.nodes, i);
    assert s.pos[s.chain[i]] == i;
    assert Ebr.FreedOk(s.ebr);
  }
}
