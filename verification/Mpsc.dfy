/** The multi-producer single-consumer queue (source/utils/clog_atomic_mpsc_queue.c) as a step machine:
  * a producer exchanges the tail first and links its node behind the old tail in a later step; one
  * consumer takes from the head.
  *
  * Auxiliary: `chain`, `vals` and `owner` (nodes, values and producers in exchange order), `pos`, the
  * position `h` of head, `consumed`, `freed`, and in a producer `at`, the position of its node.
  */
module Mpsc {
  import opened Common

  type Tid = nat
  type Ptr = nat

  datatype Node<T> = Node(next: Option<Ptr>, data: T)

  datatype Producer<T> =
    | Allocated(n: Ptr, v: T)
    | Exchanged(n: Ptr, prev: Ptr, at: nat)

  datatype Consumer<T> =
    | Out
    | HaveHead(head: Ptr)
    | HaveNext(head: Ptr, next: Option<Ptr>)
    | HaveData(head: Ptr, nxt: Ptr, v: T)
    | Moved(head: Ptr, v: T)
    | Result(res: Option<T>)

  /** A thread outside clog_atomic_mpsc_queue_in is not in `producers`. */
  datatype State<T> = State(
    nodes: map<Ptr, Node<T>>,
    head: Ptr,
    tail: Ptr,
    producers: map<Tid, Producer<T>>,
    consumer: Consumer<T>,
    chain: seq<Ptr>,
    vals: seq<T>,
    owner: seq<Tid>,
    pos: map<Ptr, nat>,
    h: nat,
    consumed: seq<T>,
    freed: set<Ptr>)

  datatype Action<T> =
    | Alloc(t: Tid, v: T, n: Ptr)
    | Exchange(t: Tid)
    | Link(t: Tid)
    | OutStart
    | OutLoadNext
    | OutRead
    | OutStore
    | OutFree
    | OutReturn

  function Start<T>(zero: T): State<T> {
    State(map[0 := Node(None, zero)], 0, 0, map[], Out, [0], [zero], [0], map[0 := 0], 0, [], {})
  }

  predicate Enabled<T>(s: State<T>, a: Action<T>) {
    match a
    case Alloc(t, _, n) => t !in s.producers && n !in s.nodes
    case Exchange(t) => t in s.producers && s.producers[t].Allocated?
    case Link(t) => t in s.producers && s.producers[t].Exchanged? && s.producers[t].prev in s.nodes
    case OutStart => s.consumer.Out?
    case OutLoadNext => s.consumer.HaveHead? && s.consumer.head in s.nodes
    case OutRead => s.consumer.HaveNext? && (s.consumer.next.Some? ==> s.consumer.next.value in s.nodes)
    case OutStore => s.consumer.HaveData?
    case OutFree => s.consumer.Moved?
    case OutReturn => s.consumer.Result?
  }

  function Apply<T>(s: State<T>, a: Action<T>): State<T>
    requires Enabled(s, a)
  {
    match a
    case Alloc(t, v, n) => s.(producers := s.producers[t := Allocated(n, v)], nodes := s.nodes[n := Node(None, v)])
    case Exchange(t) =>
      var p := s.producers[t];
      s.(producers := s.producers[t := Exchanged(p.n, s.tail, |s.chain|)], tail := p.n,
         chain := s.chain + [p.n], vals := s.vals + [p.v], owner := s.owner + [t], pos := s.pos[p.n := |s.chain|])
    case Link(t) =>
      var p := s.producers[t];
      s.(producers := s.producers - {t}, nodes := s.nodes[p.prev := s.nodes[p.prev].(next := Some(p.n))])
    case OutStart => s.(consumer := HaveHead(s.head))
    case OutLoadNext => s.(consumer := HaveNext(s.consumer.head, s.nodes[s.consumer.head].next))
    case OutRead =>
      (match s.consumer.next
       case None => s.(consumer := Result(None))
       case Some(n) => s.(consumer := HaveData(s.consumer.head, n, s.nodes[n].data)))
    case OutStore =>
      s.(consumer := Moved(s.consumer.head, s.consumer.v), head := s.consumer.nxt, h := s.h + 1,
         consumed := s.consumed + [s.consumer.v])
    case OutFree => s.(consumer := Result(Some(s.consumer.v)), freed := s.freed + {s.consumer.head})
    case OutReturn => s.(consumer := Out)
  }

  // ----- The invariant -----

  ghost predicate ShapeOk<T>(s: State<T>) {
    && |s.chain| == |s.vals| == |s.owner| && s.h < |s.chain|
    && s.head == s.chain[s.h] && s.tail == s.chain[|s.chain| - 1]
    && (forall i :: 0 <= i < |s.chain| ==> s.chain[i] in s.pos && s.pos[s.chain[i]] == i && s.chain[i] in s.nodes)
    && (forall p :: p in s.pos ==> s.pos[p] < |s.chain| && s.chain[s.pos[p]] == p)
    && (forall i :: 0 <= i < |s.chain| ==> s.nodes[s.chain[i]].data == s.vals[i])
    && (forall i :: 0 <= i < |s.chain| ==> NextOk(s, i))
  }

  /** Node i points to node i + 1, or to nothing while the producer of node i + 1 has not linked it. */
  ghost predicate NextOk<T>(s: State<T>, i: nat)
    requires i < |s.chain| == |s.owner| && s.chain[i] in s.nodes
  {
    var next := s.nodes[s.chain[i]].next;
    && (next.Some? ==> i + 1 < |s.chain| && next.value == s.chain[i + 1])
    && (next.None? && i + 1 < |s.chain| ==> Pending(s, i + 1))
    && (i < s.h ==> next.Some?)
  }

  /** The producer of item i has exchanged but not linked. */
  ghost predicate Pending<T>(s: State<T>, i: nat)
    requires 0 < i < |s.chain| == |s.owner|
  {
    && s.owner[i] in s.producers
    && s.producers[s.owner[i]] == Exchanged(s.chain[i], s.chain[i - 1], i)
  }

  ghost predicate ProducerOk<T>(s: State<T>, p: Producer<T>) {
    match p
    case Allocated(n, v) => n in s.nodes && n !in s.pos && s.nodes[n] == Node(None, v)
    case Exchanged(n, prev, at) =>
      && 0 < at < |s.chain| && s.chain[at - 1] == prev && s.chain[at] == n
      && prev in s.nodes && s.nodes[prev].next.None?
  }

  ghost predicate ProducersOk<T>(s: State<T>) {
    && (forall t :: t in s.producers ==> ProducerOk(s, s.producers[t]))
    && (forall t, u :: t in s.producers && u in s.producers && t != u ==> s.producers[t].n != s.producers[u].n)
  }

  /** How many nodes the consumer has given back: all before head, but for one it still has to free. */
  function Gone<T>(s: State<T>): int {
    if s.consumer.Moved? then s.h - 1 else s.h
  }

  ghost predicate ConsumerOk<T>(s: State<T>) {
    && |s.vals| == |s.chain| && s.h < |s.chain|
    && s.consumed == s.vals[1..s.h + 1]
    && (forall p :: p in s.freed <==> p in s.pos && s.pos[p] < Gone(s))
    && match s.consumer
       case Out => true
       case HaveHead(head) => head == s.head
       case HaveNext(head, next) => head == s.head && (next.Some? ==> s.h + 1 < |s.chain| && next.value == s.chain[s.h + 1])
                                    && (next.Some? ==> head in s.nodes && s.nodes[head].next == next)
       case HaveData(head, nxt, v) =>
         && head == s.head && s.h + 1 < |s.chain| && nxt == s.chain[s.h + 1] && v == s.vals[s.h + 1]
         && head in s.nodes && s.nodes[head].next == Some(nxt)
       case Moved(head, v) => head in s.pos && s.pos[head] + 1 == s.h && v == s.vals[s.h]
       case Result(res) => res.Some? ==> 0 < s.h && res.value == s.vals[s.h]
  }

  ghost predicate Inv<T>(s: State<T>) {
    ShapeOk(s) && ProducersOk(s) && ConsumerOk(s)
  }

  lemma ShapeStep<T>(s: State<T>, a: Action<T>)
    requires Inv(s) && Enabled(s, a)
    ensures ShapeOk(Apply(s, a))
  {
    match a
    case Link(t) => LinkShape(s, t);
    case Exchange(t) => ExchangeShape(s, t);
    case Alloc(t, v, n) => AllocShape(s, t, v, n);
    case OutStore => OutStoreShape(s);
    case _ => OutShape(s, a);
  }

  lemma AllocShape<T>(s: State<T>, t: Tid, v: T, n: Ptr)
    requires ShapeOk(s) && Enabled(s, Alloc(t, v, n))
    ensures ShapeOk(Apply(s, Alloc(t, v, n)))
  {
    var s' := Apply(s, Alloc(t, v, n));
    forall i | 0 <= i < |s'.chain| ensures NextOk(s', i) { assert NextOk(s, i); }
  }

  lemma OutStoreShape<T>(s: State<T>)
    requires ShapeOk(s) && ConsumerOk(s) && s.consumer.HaveData?
    ensures ShapeOk(Apply(s, OutStore))
  {
    var s' := Apply(s, OutStore);
    forall i | 0 <= i < |s'.chain| ensures NextOk(s', i) { assert NextOk(s, i); }
  }

  lemma OutShape<T>(s: State<T>, a: Action<T>)
    requires ShapeOk(s) && Enabled(s, a) && !a.Alloc? && !a.Exchange? && !a.Link? && !a.OutStore?
    ensures ShapeOk(Apply(s, a))
  {
    var s' := Apply(s, a);
    assert s' == s.(consumer := s'.consumer, freed := s'.freed);
    forall i | 0 <= i < |s'.chain| ensures NextOk(s', i) { assert NextOk(s, i); }
  }

  lemma ExchangeShape<T>(s: State<T>, t: Tid)
    requires Inv(s) && Enabled(s, Exchange(t))
    ensures ShapeOk(Apply(s, Exchange(t)))
  {
    var s' := Apply(s, Exchange(t));
    assert ProducerOk(s, s.producers[t]);
    forall i | 0 <= i < |s'.chain| ensures NextOk(s', i) {
      if i < |s.chain| { assert NextOk(s, i); }
    }
  }

  lemma LinkShape<T>(s: State<T>, t: Tid)
    requires Inv(s) && Enabled(s, Link(t)) && s.producers[t].Exchanged?
    ensures ShapeOk(Apply(s, Link(t)))
  {
    var s' := Apply(s, Link(t));
    assert ProducerOk(s, s.producers[t]);
    forall i | 0 <= i < |s'.chain| ensures NextOk(s', i) { LinkNext(s, t, i); }
  }

  lemma LinkNext<T>(s: State<T>, t: Tid, i: nat)
    requires ShapeOk(s) && Enabled(s, Link(t)) && ProducerOk(s, s.producers[t]) && i < |s.chain|
    ensures NextOk(Apply(s, Link(t)), i)
  {
    var at := s.producers[t].at;
    assert NextOk(s, i);
    assert s.pos[s.chain[i]] == i && s.pos[s.chain[at - 1]] == at - 1;
    if i + 1 < |s.chain| { assert s.pos[s.chain[i + 1]] == i + 1 && s.pos[s.chain[at]] == at; }
  }

  lemma ProducersStep<T>(s: State<T>, a: Action<T>)
    requires Inv(s) && Enabled(s, a)
    ensures ProducersOk(Apply(s, a))
  {
    var s' := Apply(s, a);
    forall t | t in s'.producers ensures ProducerOk(s', s'.producers[t]) {
      ProducerStep(s, a, t);
    }
    if a.Alloc? {
      forall t | t in s.producers ensures s.producers[t].n in s.nodes { assert ProducerOk(s, s.producers[t]); }
    }
  }

  lemma ProducerStep<T>(s: State<T>, a: Action<T>, t: Tid)
    requires Inv(s) && Enabled(s, a) && t in Apply(s, a).producers
    ensures ProducerOk(Apply(s, a), Apply(s, a).producers[t])
  {
    if t in s.producers { assert ProducerOk(s, s.producers[t]); }
    if a.Link? {
      LinkOther(s, a.t, t);
    } else if a.Exchange? {
      ExchangeProducer(s, a.t, t);
    } else {
      hide ShapeOk, ConsumerOk, ProducersOk;
    }
  }

  lemma ExchangeProducer<T>(s: State<T>, u: Tid, t: Tid)
    requires ShapeOk(s) && ProducersOk(s) && Enabled(s, Exchange(u)) && t in s.producers && ProducerOk(s, s.producers[t])
    ensures ProducerOk(Apply(s, Exchange(u)), Apply(s, Exchange(u)).producers[t])
  {
    assert ProducerOk(s, s.producers[u]) && NextOk(s, |s.chain| - 1);
  }

  /** Linking one node leaves the place where another producer will link its own. */
  lemma LinkOther<T>(s: State<T>, t: Tid, u: Tid)
    requires Inv(s) && Enabled(s, Link(t)) && u in s.producers && u != t
    ensures ProducerOk(Apply(s, Link(t)), s.producers[u])
  {
    var p, q := s.producers[t], s.producers[u];
    assert ProducerOk(s, p) && ProducerOk(s, q);
    assert s.pos[s.chain[p.at - 1]] == p.at - 1;
    if q.Exchanged? { assert s.pos[s.chain[q.at - 1]] == q.at - 1; }
  }

  lemma ConsumerStep<T>(s: State<T>, a: Action<T>)
    requires Inv(s) && Enabled(s, a)
    ensures ConsumerOk(Apply(s, a))
  {
    if a.Alloc? || a.Exchange? || a.Link? { ProducerKeepsConsumer(s, a); } else { OutKeepsConsumer(s, a); }
  }

  lemma ProducerKeepsConsumer<T>(s: State<T>, a: Action<T>)
    requires Inv(s) && Enabled(s, a) && (a.Alloc? || a.Exchange? || a.Link?)
    ensures ConsumerOk(Apply(s, a))
  {
    if !a.Alloc? { assert ProducerOk(s, s.producers[a.t]); }
    if a.Exchange? { assert (s.vals + [s.producers[a.t].v])[1..s.h + 1] == s.vals[1..s.h + 1]; }
  }

  lemma OutKeepsConsumer<T>(s: State<T>, a: Action<T>)
    requires ShapeOk(s) && ConsumerOk(s) && Enabled(s, a) && !a.Alloc? && !a.Exchange? && !a.Link?
    ensures ConsumerOk(Apply(s, a))
  {
    assert NextOk(s, s.h);
    if a.OutStore? { StoreKeepsConsumer(s); } else if a.OutFree? { FreeKeepsConsumer(s); }
  }

  lemma StoreKeepsConsumer<T>(s: State<T>)
    requires ShapeOk(s) && ConsumerOk(s) && s.consumer.HaveData?
    ensures ConsumerOk(Apply(s, OutStore))
  {
    assert s.vals[1..s.h + 1] + [s.vals[s.h + 1]] == s.vals[1..s.h + 2];
  }

  lemma FreeKeepsConsumer<T>(s: State<T>)
    requires ShapeOk(s) && ConsumerOk(s) && s.consumer.Moved?
    ensures ConsumerOk(Apply(s, OutFree))
  {}

  lemma InvStep<T>(s: State<T>, a: Action<T>)
    requires Inv(s) && Enabled(s, a)
    ensures Inv(Apply(s, a))
  {
    ShapeStep(s, a);
    ProducersStep(s, a);
    ConsumerStep(s, a);
  }

  // ----- Runs -----

  ghost predicate IsRun<T>(run: seq<State<T>>, acts: seq<Action<T>>, zero: T) {
    && |run| == |acts| + 1
    && run[0] == Start(zero)
    && forall i :: 0 <= i < |acts| ==> StepsTo(run, acts, i)
  }

  ghost predicate StepsTo<T>(run: seq<State<T>>, acts: seq<Action<T>>, i: nat)
    requires i < |acts| && |run| == |acts| + 1
  {
    Enabled(run[i], acts[i]) && run[i + 1] == Apply(run[i], acts[i])
  }

  lemma StartOk<T>(zero: T)
    ensures Inv(Start(zero))
  {}

  lemma {:induction false} InvHolds<T>(run: seq<State<T>>, acts: seq<Action<T>>, zero: T, n: nat)
    requires IsRun(run, acts, zero) && n < |run|
    ensures Inv(run[n])
  {
    if n == 0 {
      StartOk(zero);
    } else {
      InvHolds(run, acts, zero, n - 1);
      assert StepsTo(run, acts, n - 1);
      InvStep(run[n - 1], acts[n - 1]);
    }
  }

  /** The values handed to the consumer are at every moment a prefix of the values in exchange order, and
    * the value about to be returned is the last of them. */
  lemma ConsumesInExchangeOrder<T>(run: seq<State<T>>, acts: seq<Action<T>>, zero: T, n: nat)
    requires IsRun(run, acts, zero) && n < |run|
    ensures |run[n].vals| > 0 && run[n].consumed <= run[n].vals[1..]
    ensures run[n].consumer.Result? && run[n].consumer.res.Some? ==>
              run[n].consumed != [] && run[n].consumer.res.value == run[n].consumed[|run[n].consumed| - 1]
  {
    InvHolds(run, acts, zero, n);
  }

  /** The values of producer t, of a sequence whose i-th element was put in by owner[i]. */
  function OfProducer<T>(vals: seq<T>, owner: seq<Tid>, t: Tid): seq<T>
    requires |vals| <= |owner|
  {
    if vals == [] then []
    else OfProducer(vals[..|vals| - 1], owner, t) + (if owner[|vals| - 1] == t then [vals[|vals| - 1]] else [])
  }

  lemma {:induction false} OfProducerPrefix<T>(a: seq<T>, b: seq<T>, owner: seq<Tid>, t: Tid)
    requires a <= b && |b| <= |owner|
    ensures OfProducer(a, owner, t) <= OfProducer(b, owner, t)
    decreases |b|
  {
    if |a| < |b| {
      assert a <= b[..|b| - 1];
      OfProducerPrefix(a, b[..|b| - 1], owner, t);
    } else {
      assert a == b;
    }
  }

  /** First in, first out for each producer. */
  lemma FifoPerProducer<T>(run: seq<State<T>>, acts: seq<Action<T>>, zero: T, n: nat, t: Tid)
    requires IsRun(run, acts, zero) && n < |run|
    ensures var s := run[n];
            && |s.vals| == |s.owner| > 0 && s.consumed <= s.vals[1..]
            && OfProducer(s.consumed, s.owner[1..], t) <= OfProducer(s.vals[1..], s.owner[1..], t)
  {
    InvHolds(run, acts, zero, n);
    OfProducerPrefix(run[n].consumed, run[n].vals[1..], run[n].owner[1..], t);
  }

  /** The nodes whose fields a step reads or writes. */
  function Derefs<T>(s: State<T>, a: Action<T>): Option<Ptr>
    requires Enabled(s, a)
  {
    match a
    case Link(t) => Some(s.producers[t].prev)
    case OutLoadNext => Some(s.consumer.head)
    case OutRead => s.consumer.next
    case _ => None
  }

  /** No producer writes, and the consumer does not read, a node that has been freed. */
  lemma NoUseAfterFree<T>(run: seq<State<T>>, acts: seq<Action<T>>, zero: T, n: nat)
    requires IsRun(run, acts, zero) && n < |acts|
    ensures Enabled(run[n], acts[n])
    ensures Derefs(run[n], acts[n]).Some? ==> Derefs(run[n], acts[n]).value !in run[n].freed
    ensures acts[n].OutFree? ==> run[n].consumer.head !in run[n].freed
  {
    InvHolds(run, acts, zero, n);
    assert StepsTo(run, acts, n);
    var s, a := run[n], acts[n];
    if a.Link? {
      assert ProducerOk(s, s.producers[a.t]);
      var at := s.producers[a.t].at;
      assert NextOk(s, at - 1) && s.pos[s.chain[at - 1]] == at - 1;
    }
    if a.OutRead? && s.consumer.next.Some? { assert s.pos[s.chain[s.h + 1]] == s.h + 1; }
  }

  /** A zero `next` means that nothing is queued or that the producer of the next item has exchanged but
    * not yet linked, and only then. */
  lemma NotFoundMeans<T>(run: seq<State<T>>, acts: seq<Action<T>>, zero: T, n: nat)
    requires IsRun(run, acts, zero) && n < |acts| && acts[n].OutLoadNext?
    ensures run[n + 1].consumer.HaveNext?
    ensures var s := run[n];
            && s.h < |s.chain| == |s.owner| && |run[n].vals| == |run[n].chain|
            && (run[n + 1].consumer.next.None? <==> s.h + 1 == |s.chain| || Pending(s, s.h + 1))
  {
    InvHolds(run, acts, zero, n);
    assert StepsTo(run, acts, n);
    var s := run[n];
    assert NextOk(s, s.h);
    if s.h + 1 < |s.chain| && Pending(s, s.h + 1) { assert ProducerOk(s, s.producers[s.owner[s.h + 1]]); }
  }

  /** Nothing leaks: the freed nodes are those before head, but for one that the consumer has just left and frees
    * next. */
  lemma FreedExactly<T>(run: seq<State<T>>, acts: seq<Action<T>>, zero: T, n: nat, p: Ptr)
    requires IsRun(run, acts, zero) && n < |run|
    ensures var s := run[n];
            p in s.freed <==>
            exists i :: 0 <= i < s.h && i < |s.chain| && s.chain[i] == p && (s.consumer.Moved? ==> s.consumer.head != p)
    ensures run[n].consumer.Moved? ==> 0 < run[n].h <= |run[n].chain| && run[n].consumer.head == run[n].chain[run[n].h - 1]
  {
    InvHolds(run, acts, zero, n);
    var s := run[n];
    if p in s.freed { assert s.chain[s.pos[p]] == p; }
    if i :| 0 <= i < s.h && i < |s.chain| && s.chain[i] == p && (s.consumer.Moved? ==> s.consumer.head != p) {
      assert s.pos[p] == i;
    }
  }
}
