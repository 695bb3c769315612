/** Handing log items to recorders: the direct dispatcher's loop, which looks every recorder up, and the
  * async worker's loop, which keeps one recorder per slot in a cache (clog_dispatcher_direct.c and
  * clog_dispatcher_async_thread.c). */
module Recorders {
  import opened Common

  const MAX_RECORDERS: nat := 4
  const INVALID_ID: nat := 0

  /** A recorder object; `object` tells apart two recorders that carry the same id. */
  datatype Recorder = Recorder(id: nat, object: nat)

  datatype RawItem = RawItem(serial: nat, recorders: seq<nat>)

  type Item = i: RawItem | |i.recorders| == MAX_RECORDERS witness RawItem(0, [0, 0, 0, 0])

  datatype Res = Success | RequestFlush | Failure

  datatype Call = Write(r: Recorder, item: Item) | Flush(r: Recorder) | Release(item: Item)

  type Registry = map<nat, Recorder>

  /** clog_add_recorder stores every recorder under its own id. */
  ghost predicate Keyed(registry: Registry) {
    forall id :: id in registry ==> registry[id].id == id
  }

  // ----- What one item, and a sequence of items, is to cause -----

  /** The calls for the slots from i on, and how many writes have been made after them when k were made
    * before.  `outcome(n)` is what the n-th write answers. */
  function Offer(registry: Registry, item: Item, i: nat, outcome: nat -> Res, k: nat): (seq<Call>, nat)
    requires i <= MAX_RECORDERS
    decreases MAX_RECORDERS - i
  {
    if i == MAX_RECORDERS || item.recorders[i] == INVALID_ID then ([], k)
    else if item.recorders[i] in registry then
      var r := registry[item.recorders[i]];
      var rest := Offer(registry, item, i + 1, outcome, k + 1);
      (WriteCalls(r, item, outcome(k)) + rest.0, rest.1)
    else Offer(registry, item, i + 1, outcome, k)
  }

  function WriteCalls(r: Recorder, item: Item, res: Res): seq<Call> {
    if res.RequestFlush? then [Write(r, item), Flush(r)] else [Write(r, item)]
  }

  function Dispatched(registry: Registry, items: seq<Item>, outcome: nat -> Res, k: nat): (seq<Call>, nat) {
    if items == [] then ([], k)
    else
      var before := Dispatched(registry, items[..|items| - 1], outcome, k);
      var item := items[|items| - 1];
      var last := Offer(registry, item, 0, outcome, before.1);
      (before.0 + last.0 + [Release(item)], last.1)
  }

  lemma DispatchedNext(registry: Registry, items: seq<Item>, n: nat, outcome: nat -> Res, k: nat)
    requires n < |items|
    ensures var before := Dispatched(registry, items[..n], outcome, k);
            var last := Offer(registry, items[n], 0, outcome, before.1);
            Dispatched(registry, items[..n + 1], outcome, k) == (before.0 + last.0 + [Release(items[n])], last.1)
  {
    assert items[..n + 1][..n] == items[..n];
  }

  // ----- What that means -----

  /** The ids before the first invalid one. */
  function LeadingIds(ids: seq<nat>): seq<nat> {
    if ids == [] || ids[0] == INVALID_ID then [] else [ids[0]] + LeadingIds(ids[1..])
  }

  /** The registered recorders among the ids, in order. */
  function Registered(registry: Registry, ids: seq<nat>): seq<Recorder> {
    if ids == [] then []
    else (if ids[0] in registry then [registry[ids[0]]] else []) + Registered(registry, ids[1..])
  }

  function Writes(calls: seq<Call>): seq<(Recorder, Item)> {
    if calls == [] then []
    else (if calls[0].Write? then [(calls[0].r, calls[0].item)] else []) + Writes(calls[1..])
  }

  function Releases(calls: seq<Call>): seq<Item> {
    if calls == [] then []
    else (if calls[0].Release? then [calls[0].item] else []) + Releases(calls[1..])
  }

  function Pairs(rs: seq<Recorder>, item: Item): seq<(Recorder, Item)> {
    if rs == [] then [] else [(rs[0], item)] + Pairs(rs[1..], item)
  }

  /** Each item with each of its targets, item by item. */
  function Targets(registry: Registry, items: seq<Item>): seq<(Recorder, Item)> {
    if items == [] then []
    else
      var item := items[|items| - 1];
      Targets(registry, items[..|items| - 1]) + Pairs(Registered(registry, LeadingIds(item.recorders)), item)
  }

  lemma OfferAt(registry: Registry, item: Item, i: nat, outcome: nat -> Res, k: nat)
    requires i < MAX_RECORDERS
    ensures var o := Offer(registry, item, i, outcome, k);
            if item.recorders[i] == INVALID_ID then o == ([], k)
            else if item.recorders[i] in registry then
              var rest := Offer(registry, item, i + 1, outcome, k + 1);
              o == (WriteCalls(registry[item.recorders[i]], item, outcome(k)) + rest.0, rest.1)
            else o == Offer(registry, item, i + 1, outcome, k)
  {}

  lemma OfferEnd(registry: Registry, item: Item, outcome: nat -> Res, k: nat)
    ensures Offer(registry, item, MAX_RECORDERS, outcome, k) == ([], k)
  {}

  lemma CallsCons(c: Call, rest: seq<Call>)
    ensures Writes([c] + rest) == (if c.Write? then [(c.r, c.item)] else []) + Writes(rest)
    ensures Releases([c] + rest) == (if c.Release? then [c.item] else []) + Releases(rest)
  {
    assert ([c] + rest)[1..] == rest;
  }

  lemma ConcatCons(c: Call, rest: seq<Call>, b: seq<Call>)
    requires Writes(rest + b) == Writes(rest) + Writes(b) && Releases(rest + b) == Releases(rest) + Releases(b)
    ensures Writes([c] + rest + b) == Writes([c] + rest) + Writes(b)
    ensures Releases([c] + rest + b) == Releases([c] + rest) + Releases(b)
  {
    hide Writes, Releases;
    assert [c] + rest + b == [c] + (rest + b);
    CallsCons(c, rest);
    CallsCons(c, rest + b);
  }

  lemma {:induction false} WritesConcat(a: seq<Call>, b: seq<Call>)
    ensures Writes(a + b) == Writes(a) + Writes(b)
    ensures Releases(a + b) == Releases(a) + Releases(b)
  {
    if a == [] {
      assert a + b == b;
    } else {
      WritesConcat(a[1..], b);
      ConcatCons(a[0], a[1..], b);
      assert a == [a[0]] + a[1..];
    }
  }

  lemma {:induction false} OfferWrites(registry: Registry, item: Item, i: nat, outcome: nat -> Res, k: nat)
    requires i <= MAX_RECORDERS
    ensures var calls := Offer(registry, item, i, outcome, k).0;
            && Writes(calls) == Pairs(Registered(registry, LeadingIds(item.recorders[i..])), item)
            && Releases(calls) == []
    decreases MAX_RECORDERS - i
  {
    var ids := item.recorders[i..];
    if i < MAX_RECORDERS && item.recorders[i] != INVALID_ID {
      assert ids[1..] == item.recorders[i + 1..];
      assert LeadingIds(ids) == [ids[0]] + LeadingIds(ids[1..]) && LeadingIds(ids)[1..] == LeadingIds(ids[1..]);
      if item.recorders[i] in registry {
        OfferWrites(registry, item, i + 1, outcome, k + 1);
        var r := registry[item.recorders[i]];
        var w := WriteCalls(r, item, outcome(k));
        WritesConcat(w, Offer(registry, item, i + 1, outcome, k + 1).0);
        WriteCallsWrite(r, item, outcome(k));
        assert ([r] + Registered(registry, LeadingIds(ids[1..])))[1..] == Registered(registry, LeadingIds(ids[1..]));
      } else {
        OfferWrites(registry, item, i + 1, outcome, k);
        var rest := Registered(registry, LeadingIds(ids[1..]));
        assert Registered(registry, LeadingIds(ids)) == [] + rest && [] + rest == rest;
      }
    }
  }

  lemma WriteCallsWrite(r: Recorder, item: Item, res: Res)
    ensures Writes(WriteCalls(r, item, res)) == [(r, item)] && Releases(WriteCalls(r, item, res)) == []
  {
    var w := WriteCalls(r, item, res);
    if res.RequestFlush? {
      assert w[1..] == [Flush(r)] && w[1..][1..] == [];
      assert Writes(w[1..]) == Writes(w[1..][1..]) && Releases(w[1..]) == Releases(w[1..][1..]);
    } else {
      assert w[1..] == [];
    }
  }

  lemma OneRelease(item: Item)
    ensures Writes([Release(item)]) == [] && Releases([Release(item)]) == [item]
  {
    assert [Release(item)][1..] == [];
  }

  // ----- The order of the calls, and the flushes -----

  function Unflushed(calls: seq<Call>): seq<Call> {
    if calls == [] then [] else (if calls[0].Flush? then [] else [calls[0]]) + Unflushed(calls[1..])
  }

  function Asked(rs: seq<Recorder>, item: Item): seq<Call> {
    if rs == [] then [] else [Write(rs[0], item)] + Asked(rs[1..], item)
  }

  /** Item by item: the writes to its targets, and its release after the last of them. */
  function Served(registry: Registry, items: seq<Item>): seq<Call> {
    if items == [] then []
    else
      var item := items[|items| - 1];
      Served(registry, items[..|items| - 1]) + Asked(Registered(registry, LeadingIds(item.recorders)), item) + [Release(item)]
  }

  predicate IsFlush(calls: seq<Call>, i: nat, r: Recorder) {
    i < |calls| && calls[i] == Flush(r)
  }

  /** Call i, where k writes were made before all of them: a write is followed at once by a flush of its recorder
    * if and only if it was answered by the request for one, and a flush follows such a write. */
  predicate FlushOk(calls: seq<Call>, outcome: nat -> Res, k: nat, i: nat)
    requires i < |calls|
  {
    && (calls[i].Write? ==>
          (IsFlush(calls, i + 1, calls[i].r) <==> outcome(k + |Writes(calls[..i])|) == RequestFlush))
    && (calls[i].Flush? ==> i > 0 && calls[i - 1].Write? && calls[i - 1].r == calls[i].r)
  }

  predicate FlushedAsAsked(calls: seq<Call>, outcome: nat -> Res, k: nat) {
    forall i :: 0 <= i < |calls| ==> FlushOk(calls, outcome, k, i)
  }

  lemma UnflushedCons(c: Call, rest: seq<Call>)
    ensures Unflushed([c] + rest) == (if c.Flush? then [] else [c]) + Unflushed(rest)
  {
    assert ([c] + rest)[1..] == rest;
  }

  lemma {:induction false} UnflushedConcat(a: seq<Call>, b: seq<Call>)
    ensures Unflushed(a + b) == Unflushed(a) + Unflushed(b)
  {
    if a == [] {
      assert a + b == b;
    } else {
      UnflushedConcat(a[1..], b);
      UnflushedCons(a[0], a[1..]);
      UnflushedCons(a[0], a[1..] + b);
      hide Unflushed;
      assert a == [a[0]] + a[1..] && a + b == [a[0]] + (a[1..] + b);
    }
  }

  lemma FlushesConcat(a: seq<Call>, b: seq<Call>, outcome: nat -> Res, k: nat)
    requires FlushedAsAsked(a, outcome, k) && FlushedAsAsked(b, outcome, k + |Writes(a)|)
    ensures FlushedAsAsked(a + b, outcome, k)
  {
    hide FlushOk, Writes;
    forall i | 0 <= i < |a + b| ensures FlushOk(a + b, outcome, k, i) {
      if i < |a| {
        NoFlushFirst(b, outcome, k + |Writes(a)|);
        FlushBefore(a, b, outcome, k, i);
      } else {
        assert FlushOk(b, outcome, k + |Writes(a)|, i - |a|);
        FlushBehind(a, b, outcome, k, i - |a|);
      }
    }
  }

  lemma NoFlushFirst(b: seq<Call>, outcome: nat -> Res, k: nat)
    requires FlushedAsAsked(b, outcome, k)
    ensures b != [] ==> !b[0].Flush?
  {
    assert b != [] ==> FlushOk(b, outcome, k, 0);
  }

  lemma FlushBefore(a: seq<Call>, b: seq<Call>, outcome: nat -> Res, k: nat, i: nat)
    requires i < |a| && FlushOk(a, outcome, k, i) && (b != [] ==> !b[0].Flush?)
    ensures FlushOk(a + b, outcome, k, i)
  {
    hide Writes;
    assert (a + b)[..i] == a[..i] && (a + b)[i] == a[i];
    assert a[i].Write? ==> (IsFlush(a + b, i + 1, a[i].r) <==> IsFlush(a, i + 1, a[i].r));
  }

  lemma FlushBehind(a: seq<Call>, b: seq<Call>, outcome: nat -> Res, k: nat, i: nat)
    requires i < |b| && FlushOk(b, outcome, k + |Writes(a)|, i)
    ensures FlushOk(a + b, outcome, k, |a| + i)
  {
    WritesConcat(a, b[..i]);
    hide Writes;
    Behind(a, b, i);
    assert b[i].Write? ==> (IsFlush(a + b, |a| + i + 1, b[i].r) <==> IsFlush(b, i + 1, b[i].r));
  }

  lemma Behind(a: seq<Call>, b: seq<Call>, i: nat)
    requires i < |b|
    ensures (a + b)[|a| + i] == b[i] && (a + b)[..|a| + i] == a + b[..i]
    ensures i > 0 ==> (a + b)[|a| + i - 1] == b[i - 1]
  {}

  lemma WriteFlushes(r: Recorder, item: Item, outcome: nat -> Res, k: nat)
    ensures var w := WriteCalls(r, item, outcome(k)); FlushedAsAsked(w, outcome, k) && Unflushed(w) == [Write(r, item)]
  {
    var w := WriteCalls(r, item, outcome(k));
    assert w[..0] == [];
    if |w| > 1 {
      assert w[1..] == [Flush(r)] && w[1..][1..] == [];
      assert Unflushed(w[1..]) == Unflushed(w[1..][1..]);
    } else {
      assert w[1..] == [];
    }
  }

  /** What the loop from slot i on calls. */
  ghost predicate OfferOk(registry: Registry, item: Item, i: nat, outcome: nat -> Res, k: nat)
    requires i <= MAX_RECORDERS
  {
    var o := Offer(registry, item, i, outcome, k);
    && FlushedAsAsked(o.0, outcome, k) && o.1 == k + |Writes(o.0)|
    && Unflushed(o.0) == Asked(Registered(registry, LeadingIds(item.recorders[i..])), item)
  }

  lemma {:induction false} OfferServes(registry: Registry, item: Item, i: nat, outcome: nat -> Res, k: nat)
    requires i <= MAX_RECORDERS
    ensures OfferOk(registry, item, i, outcome, k)
    decreases MAX_RECORDERS - i
  {
    if i == MAX_RECORDERS || item.recorders[i] == INVALID_ID {
    } else {
      hide OfferOk;
      if item.recorders[i] in registry {
        OfferServes(registry, item, i + 1, outcome, k + 1);
        SlotServes(registry, item, i, outcome, k);
      } else {
        OfferServes(registry, item, i + 1, outcome, k);
        SlotSkipped(registry, item, i, outcome, k);
      }
    }
  }

  lemma SlotIds(registry: Registry, item: Item, i: nat)
    requires i < MAX_RECORDERS && item.recorders[i] != INVALID_ID
    ensures Registered(registry, LeadingIds(item.recorders[i..])) ==
            (if item.recorders[i] in registry then [registry[item.recorders[i]]] else [])
            + Registered(registry, LeadingIds(item.recorders[i + 1..]))
  {
    var ids := item.recorders[i..];
    assert ids[1..] == item.recorders[i + 1..];
    assert LeadingIds(ids) == [ids[0]] + LeadingIds(ids[1..]) && LeadingIds(ids)[1..] == LeadingIds(ids[1..]);
  }

  lemma SlotServes(registry: Registry, item: Item, i: nat, outcome: nat -> Res, k: nat)
    requires i < MAX_RECORDERS && item.recorders[i] != INVALID_ID && item.recorders[i] in registry
    requires OfferOk(registry, item, i + 1, outcome, k + 1)
    ensures OfferOk(registry, item, i, outcome, k)
  {
    OfferAt(registry, item, i, outcome, k);
    SlotIds(registry, item, i);
    var r, rest := registry[item.recorders[i]], Registered(registry, LeadingIds(item.recorders[i + 1..]));
    assert ([r] + rest)[1..] == rest;
    assert Asked([r] + rest, item) == [Write(r, item)] + Asked(rest, item);
    hide Offer, Registered, LeadingIds, FlushedAsAsked, Asked, Unflushed, Writes;
    WriteThenRest(r, item, outcome, k, Offer(registry, item, i + 1, outcome, k + 1).0);
  }

  lemma SlotSkipped(registry: Registry, item: Item, i: nat, outcome: nat -> Res, k: nat)
    requires i < MAX_RECORDERS && item.recorders[i] != INVALID_ID && item.recorders[i] !in registry
    requires OfferOk(registry, item, i + 1, outcome, k)
    ensures OfferOk(registry, item, i, outcome, k)
  {
    OfferAt(registry, item, i, outcome, k);
    SlotIds(registry, item, i);
    var rest := Registered(registry, LeadingIds(item.recorders[i + 1..]));
    assert [] + rest == rest;
    hide Offer, Registered, LeadingIds, FlushedAsAsked, Asked, Unflushed, Writes;
  }

  lemma WriteThenRest(r: Recorder, item: Item, outcome: nat -> Res, k: nat, rest: seq<Call>)
    requires FlushedAsAsked(rest, outcome, k + 1)
    ensures var w := WriteCalls(r, item, outcome(k));
            && FlushedAsAsked(w + rest, outcome, k) && |Writes(w + rest)| == 1 + |Writes(rest)|
            && Unflushed(w + rest) == [Write(r, item)] + Unflushed(rest)
  {
    var w := WriteCalls(r, item, outcome(k));
    WriteFlushes(r, item, outcome, k);
    WriteCallsWrite(r, item, outcome(k));
    hide WriteCalls, FlushedAsAsked, Writes, Unflushed;
    FlushesConcat(w, rest, outcome, k);
    UnflushedConcat(w, rest);
    WritesConcat(w, rest);
  }

  ghost predicate ServesOk(registry: Registry, items: seq<Item>, outcome: nat -> Res, k: nat) {
    var o := Dispatched(registry, items, outcome, k);
    FlushedAsAsked(o.0, outcome, k) && o.1 == k + |Writes(o.0)| && Unflushed(o.0) == Served(registry, items)
  }

  lemma {:induction false} DispatchedServes(registry: Registry, items: seq<Item>, outcome: nat -> Res, k: nat)
    ensures ServesOk(registry, items, outcome, k)
  {
    if items != [] {
      hide ServesOk;
      DispatchedServes(registry, items[..|items| - 1], outcome, k);
      ServesNext(registry, items, outcome, k);
    }
  }

  lemma ServesNext(registry: Registry, items: seq<Item>, outcome: nat -> Res, k: nat)
    requires items != [] && ServesOk(registry, items[..|items| - 1], outcome, k)
    ensures ServesOk(registry, items, outcome, k)
  {
    var item, before := items[|items| - 1], Dispatched(registry, items[..|items| - 1], outcome, k);
    var last := Offer(registry, item, 0, outcome, before.1);
    ServedLast(registry, items, outcome, k);
    OfferServes(registry, item, 0, outcome, before.1);
    OfferMeans(registry, item, outcome, before.1);
    hide Dispatched, Offer, Served, Asked, Registered, LeadingIds, Writes, Unflushed, FlushedAsAsked, OfferOk;
    ServesMore(before.0, last.0, item, outcome, k);
  }

  lemma OfferMeans(registry: Registry, item: Item, outcome: nat -> Res, k: nat)
    requires OfferOk(registry, item, 0, outcome, k)
    ensures var o := Offer(registry, item, 0, outcome, k);
            && FlushedAsAsked(o.0, outcome, k) && o.1 == k + |Writes(o.0)|
            && Unflushed(o.0) == Asked(Registered(registry, LeadingIds(item.recorders[0..])), item)
  {}

  lemma ServedLast(registry: Registry, items: seq<Item>, outcome: nat -> Res, k: nat)
    requires items != []
    ensures var init, item := items[..|items| - 1], items[|items| - 1];
            var before := Dispatched(registry, init, outcome, k);
            var last := Offer(registry, item, 0, outcome, before.1);
            && Dispatched(registry, items, outcome, k) == (before.0 + last.0 + [Release(item)], last.1)
            && Served(registry, items) ==
               Served(registry, init) + Asked(Registered(registry, LeadingIds(item.recorders[0..])), item) + [Release(item)]
  {
    var item := items[|items| - 1];
    assert item.recorders[0..] == item.recorders;
    hide Offer, Asked, Registered, LeadingIds;
  }

  lemma ServesMore(before: seq<Call>, last: seq<Call>, item: Item, outcome: nat -> Res, k: nat)
    requires FlushedAsAsked(before, outcome, k) && FlushedAsAsked(last, outcome, k + |Writes(before)|)
    ensures var all := before + last + [Release(item)];
            && FlushedAsAsked(all, outcome, k) && |Writes(all)| == |Writes(before)| + |Writes(last)|
            && Unflushed(all) == Unflushed(before) + Unflushed(last) + [Release(item)]
  {
    OneRelease(item);
    assert [Release(item)][1..] == [] && Unflushed([Release(item)]) == [Release(item)];
    hide FlushedAsAsked, Writes, Unflushed;
    WritesConcat(before, last);
    WritesConcat(before + last, [Release(item)]);
    UnflushedConcat(before, last);
    UnflushedConcat(before + last, [Release(item)]);
    FlushesConcat(before, last, outcome, k);
    ReleaseFlushesNothing(item, outcome, k + |Writes(before + last)|);
    FlushesConcat(before + last, [Release(item)], outcome, k);
  }

  lemma ReleaseFlushesNothing(item: Item, outcome: nat -> Res, k: nat)
    ensures FlushedAsAsked([Release(item)], outcome, k)
  {}

  lemma {:induction false} DispatchedWrites(registry: Registry, items: seq<Item>, outcome: nat -> Res, k: nat)
    ensures var calls := Dispatched(registry, items, outcome, k).0;
            Writes(calls) == Targets(registry, items) && Releases(calls) == items
  {
    if items != [] {
      var init, item := items[..|items| - 1], items[|items| - 1];
      TargetsLast(registry, items);
      hide *;
      DispatchedWrites(registry, init, outcome, k);
      OneMore(registry, init, item, outcome, k);
    }
  }

  lemma TargetsLast(registry: Registry, items: seq<Item>)
    requires items != []
    ensures var init, item := items[..|items| - 1], items[|items| - 1];
            && items == init + [item]
            && Targets(registry, items) == Targets(registry, init) + Pairs(Registered(registry, LeadingIds(item.recorders)), item)
  {
    hide Pairs, Registered, LeadingIds;
  }

  /** Every item is written once to each registered recorder in its leading valid slots, items in order and
    * slots in order, and released once, after its last write, whatever the writes answer; and the recorder is
    * flushed right behind a write exactly when the write asks for it. */
  lemma DispatchedMeans(registry: Registry, items: seq<Item>, outcome: nat -> Res, k: nat)
    ensures var calls := Dispatched(registry, items, outcome, k).0;
            && Writes(calls) == Targets(registry, items) && Releases(calls) == items
            && Unflushed(calls) == Served(registry, items) && FlushedAsAsked(calls, outcome, k)
  {
    hide Dispatched, Writes, Releases, Targets, Unflushed, Served, FlushedAsAsked;
    DispatchedWrites(registry, items, outcome, k);
    DispatchedServes(registry, items, outcome, k);
  }

  lemma OneMore(registry: Registry, init: seq<Item>, item: Item, outcome: nat -> Res, k: nat)
    ensures var before, calls := Dispatched(registry, init, outcome, k).0, Dispatched(registry, init + [item], outcome, k).0;
            && Writes(calls) == Writes(before) + Pairs(Registered(registry, LeadingIds(item.recorders)), item)
            && Releases(calls) == Releases(before) + [item]
  {
    assert (init + [item])[..|init|] == init;
    var before := Dispatched(registry, init, outcome, k);
    OfferWrites(registry, item, 0, outcome, before.1);
    assert item.recorders[0..] == item.recorders;
    hide Offer, Writes, Releases, Pairs, Registered, LeadingIds;
    LastMeans(before.0, Offer(registry, item, 0, outcome, before.1).0, item);
  }

  lemma LastMeans(before: seq<Call>, last: seq<Call>, item: Item)
    ensures Writes(before + last + [Release(item)]) == Writes(before) + Writes(last)
    ensures Releases(before + last + [Release(item)]) == Releases(before) + Releases(last) + [item]
  {
    OneRelease(item);
    hide Writes, Releases;
    WritesConcat(before, last);
    WritesConcat(before + last, [Release(item)]);
  }

  // ----- The two loops -----

  /** What both dispatchers work on: the channel's content, the recorder map, which is fixed once the
    * context is running, and the calls made so far. */
  class Context {
    const registry: Registry
    const outcome: nat -> Res
    var channel: seq<Item>
    var calls: seq<Call>
    var writes: nat

    constructor (registry: Registry, outcome: nat -> Res, channel: seq<Item>)
      ensures this.registry == registry && this.outcome == outcome && this.channel == channel
      ensures calls == [] && writes == 0
    {
      this.registry, this.outcome, this.channel := registry, outcome, channel;
      calls, writes := [], 0;
    }

    /** channel->read */
    method Read() returns (item: Option<Item>)
      modifies this`channel
      ensures item == Head(old(channel))
      ensures channel == if old(channel) == [] then [] else old(channel)[1..]
    {
      item := None;
      if channel != [] {
        item := Some(channel[0]);
        channel := channel[1..];
      }
    }

    /** clog_get_recoder while the context is running or stopping */
    method GetRecorder(id: nat) returns (r: Option<Recorder>)
      ensures r == if id in registry then Some(registry[id]) else None
    {
      r := if id in registry then Some(registry[id]) else None;
    }

    /** recorder->write, and recorder->flush when it is asked for */
    method WriteTo(r: Recorder, item: Item)
      modifies this`calls, this`writes
      ensures calls == old(calls) + WriteCalls(r, item, outcome(old(writes))) && writes == old(writes) + 1
    {
      var res := outcome(writes);
      calls, writes := calls + [Write(r, item)], writes + 1;
      if res.RequestFlush? {
        calls := calls + [Flush(r)];
      }
    }

    method ReleaseItem(item: Item)
      modifies this`calls
      ensures calls == old(calls) + [Release(item)]
    {
      calls := calls + [Release(item)];
    }

    /** One item, each recorder looked up. */
    method OfferDirect(item: Item)
      modifies this`calls, this`writes
      ensures calls == old(calls) + Offer(registry, item, 0, outcome, old(writes)).0
      ensures writes == Offer(registry, item, 0, outcome, old(writes)).1
    {
      hide Offer, WriteCalls;
      var i := 0;
      while i < MAX_RECORDERS
        invariant i <= MAX_RECORDERS
        invariant var now := Offer(registry, item, i, outcome, writes);
                  var all := Offer(registry, item, 0, outcome, old(writes));
                  calls + now.0 == old(calls) + all.0 && now.1 == all.1
      {
        OfferAt(registry, item, i, outcome, writes);
        if item.recorders[i] == INVALID_ID {
          return;
        }
        var r := GetRecorder(item.recorders[i]);
        if r.Some? {
          WriteTo(r.value, item);
        }
        i := i + 1;
      }
      OfferEnd(registry, item, outcome, writes);
    }

    /** One item, and its release. */
    method DispatchDirect(item: Item)
      modifies this`calls, this`writes
      ensures var o := Offer(registry, item, 0, outcome, old(writes));
              calls == old(calls) + (o.0 + [Release(item)]) && writes == o.1
    {
      OfferDirect(item);
      ReleaseItem(item);
    }

    /** clog_dispatcher_direct_notify for a DATA event */
    method NotifyDirect()
      modifies this
      ensures channel == []
      ensures var d := Dispatched(registry, old(channel), outcome, old(writes));
              calls == old(calls) + d.0 && writes == d.1
    {
      ghost var n, made := 0, [];
      ghost var all := channel;
      var item := Read();
      while item.Some?
        invariant Remaining(all, n, item, channel)
        invariant (made, writes) == Dispatched(registry, all[..n], outcome, old(writes))
        invariant calls == old(calls) + made
        decreases |all| - n
      {
        ghost var calls0, writes0 := calls, writes;
        DispatchedNext(registry, all, n, outcome, old(writes));
        DispatchDirect(item.value);
        made := Appended(old(calls), made, calls0, Offer(registry, all[n], 0, outcome, writes0).0, [Release(all[n])]);
        n := n + 1;
        item := Read();
      }
      assert all[..n] == all;
    }
  }

  /** What has been made with two more pieces. */
  ghost function Appended(start: seq<Call>, made: seq<Call>, now: seq<Call>, a: seq<Call>, b: seq<Call>): (r: seq<Call>)
    requires now == start + made
    ensures r == made + a + b && now + (a + b) == start + r
  {
    assert start + made + (a + b) == start + (made + a + b);
    made + a + b
  }

  /** A drain of `all` has read `item` after n others. */
  ghost predicate Remaining(all: seq<Item>, n: nat, item: Option<Item>, channel: seq<Item>) {
    match item
    case None => n == |all| && channel == []
    case Some(i) => n < |all| && i == all[n] && channel == all[n + 1..]
  }

  class AsyncWorker {
    const context: Context
    const cache: array<Option<Recorder>>

    /** What is cached is what a lookup of its id would find. */
    ghost predicate CacheOk()
      reads this, cache
    {
      && cache.Length == MAX_RECORDERS
      && Keyed(context.registry)
      && forall i :: 0 <= i < cache.Length && cache[i].Some? ==>
           cache[i].value.id in context.registry && context.registry[cache[i].value.id] == cache[i].value
    }

    constructor (context: Context)
      requires Keyed(context.registry)
      ensures this.context == context && CacheOk() && fresh(cache)
    {
      this.context := context;
      cache := new Option<Recorder>[MAX_RECORDERS](_ => None);
    }

    /** One item, with a lookup only for slots whose cached recorder has another id. */
    method OfferCached(item: Item)
      requires CacheOk()
      modifies cache, context`calls, context`writes
      ensures CacheOk()
      ensures context.calls == old(context.calls)
                               + Offer(context.registry, item, 0, context.outcome, old(context.writes)).0
      ensures context.writes == Offer(context.registry, item, 0, context.outcome, old(context.writes)).1
    {
      hide Offer, WriteCalls;
      var i := 0;
      while i < MAX_RECORDERS
        invariant i <= MAX_RECORDERS && CacheOk()
        invariant var now := Offer(context.registry, item, i, context.outcome, context.writes);
                  var all := Offer(context.registry, item, 0, context.outcome, old(context.writes));
                  context.calls + now.0 == old(context.calls) + all.0 && now.1 == all.1
      {
        OfferAt(context.registry, item, i, context.outcome, context.writes);
        if item.recorders[i] == INVALID_ID {
          return;
        }
        if cache[i].None? || cache[i].value.id != item.recorders[i] {
          cache[i] := context.GetRecorder(item.recorders[i]);
        }
        var r := cache[i];
        if r.Some? {
          context.WriteTo(r.value, item);
        }
        i := i + 1;
      }
      OfferEnd(context.registry, item, context.outcome, context.writes);
    }

    method DispatchCached(item: Item)
      requires CacheOk()
      modifies cache, context`calls, context`writes
      ensures CacheOk()
      ensures var o := Offer(context.registry, item, 0, context.outcome, old(context.writes));
              context.calls == old(context.calls) + (o.0 + [Release(item)]) && context.writes == o.1
    {
      OfferCached(item);
      context.ReleaseItem(item);
    }

    /** clog_async_thread_dispatcher_process_log: the same calls as the direct dispatcher's loop makes. */
    method ProcessLog()
      requires CacheOk()
      modifies cache, context
      ensures CacheOk()
      ensures context.channel == []
      ensures var d := Dispatched(context.registry, old(context.channel), context.outcome, old(context.writes));
              context.calls == old(context.calls) + d.0 && context.writes == d.1
    {
      ghost var n, made := 0, [];
      ghost var all := context.channel;
      var item := context.Read();
      while item.Some?
        invariant CacheOk() && Remaining(all, n, item, context.channel)
        invariant (made, context.writes) == Dispatched(context.registry, all[..n], context.outcome, old(context.writes))
        invariant context.calls == old(context.calls) + made
        decreases |all| - n
      {
        ghost var calls0, writes0 := context.calls, context.writes;
        DispatchedNext(context.registry, all, n, context.outcome, old(context.writes));
        DispatchCached(item.value);
        made := Appended(old(context.calls), made, calls0, Offer(context.registry, all[n], 0, context.outcome, writes0).0,
                         [Release(all[n])]);
        n := n + 1;
        item := context.Read();
      }
      assert all[..n] == all;
    }
  }
}
