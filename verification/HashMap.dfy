/** The hash map of source/utils/clog_hashmap.c: an array of bucket heads, each the start of a chain of
  * linked entries.  `get` moves the entry it finds to the front of its chain, `put` may double the array
  * and `remove` may halve it.  An operation called with `memory` finds it; without it the
  * heap may refuse any allocation.
  *
  * Ghost fields: `table` (the entries behind each head, where each key is, the set of entries), `live` (all
  * entry cells allocated and not yet freed), `failed` (an allocation has failed).
  */
module HashMap {
  import opened Common

  const INITIAL_BUCKETS := 16

  function And(a: nat, b: nat): nat {
    if a == 0 || b == 0 then 0 else (if a % 2 == 1 && b % 2 == 1 then 1 else 0) + 2 * And(a / 2, b / 2)
  }

  predicate PowerOfTwo(n: nat) {
    n == 1 || (n > 1 && n % 2 == 0 && PowerOfTwo(n / 2))
  }

  /** Masking with a power of two less one is the remainder, hence in range. */
  lemma {:induction false} MaskIsRemainder(h: nat, n: nat)
    requires PowerOfTwo(n)
    ensures And(h, n - 1) == h % n < n
  {
    if n > 1 {
      var m := n / 2;
      MaskIsRemainder(h / 2, m);
      assert n == 2 * m && (n - 1) / 2 == m - 1 && (n - 1) % 2 == 1;
      RemainderByHalves(h, m);
    }
  }

  lemma RemainderByHalves(h: nat, m: nat)
    requires m > 0
    ensures h % (2 * m) == h % 2 + 2 * ((h / 2) % m)
  {
    var q, r := (h / 2) / m, (h / 2) % m;
    assert h / 2 == q * m + r;
    assert h == 2 * (h / 2) + h % 2;
    var x := h % 2 + 2 * r;
    assert h == (2 * m) * q + x by {
      assert 2 * (q * m + r) == (2 * m) * q + 2 * r;
    }
    assert 0 <= x < 2 * m;
    RemainderIs(h, 2 * m, q, x);
  }

  lemma RemainderIs(h: nat, n: nat, q: nat, x: nat)
    requires n > 0 && h == n * q + x && x < n
    ensures h % n == x
  {
    var d := h / n - q;
    assert n * d == x - h % n by {
      assert h == n * (h / n) + h % n;
      assert n * d == n * (h / n) - n * q;
    }
    assert d >= 1 ==> n * d >= n;
    assert -d >= 1 ==> n * -d >= n;
  }

  class Entry<K, V> {
    const key: K
    var value: V
    var next: Entry?<K, V>

    constructor (key: K, value: V, next: Entry?<K, V>)
      ensures this.key == key && this.value == value && this.next == next
    {
      this.key, this.value, this.next := key, value, next;
    }
  }

  datatype Table<K, V> = Table(chains: seq<seq<Entry<K, V>>>, at: map<K, Entry<K, V>>, cells: set<Entry<K, V>>)

  // ----- Linked chains -----

  ghost predicate NextIs<K, V>(es: seq<Entry<K, V>>, j: nat)
    requires j < |es|
    reads es
  {
    es[j].next == (if j + 1 < |es| then es[j + 1] else null)
  }

  /** `head` starts the chain of exactly these entries. */
  ghost predicate Linked<K, V>(head: Entry?<K, V>, es: seq<Entry<K, V>>)
    reads es
  {
    && head == (if es == [] then null else es[0])
    && forall j :: 0 <= j < |es| ==> NextIs(es, j)
  }

  ghost predicate Behind<K, V>(head: Entry?<K, V>, es: seq<Entry<K, V>>, cells: set<Entry<K, V>>)
    reads cells
  {
    (forall e :: e in es ==> e in cells) && Linked(head, es)
  }

  ghost predicate AllBehind<K, V>(heads: seq<Entry?<K, V>>, t: Table<K, V>)
    reads t.cells
  {
    |heads| == |t.chains| && forall i :: 0 <= i < |t.chains| ==> Behind(heads[i], t.chains[i], t.cells)
  }

  /** The array and the entries behind it store the table. */
  ghost predicate Stored<K, V>(hash: K -> nat, entries: array<Entry?<K, V>>, t: Table<K, V>)
    reads entries, t.cells
  {
    entries.Length == |t.chains| && Indexed(hash, t) && AllBehind(entries[..], t)
  }

  lemma LinkedCons<K, V>(e: Entry<K, V>, es: seq<Entry<K, V>>)
    requires Linked(e.next, es)
    ensures Linked(e, [e] + es)
  {
    var all := [e] + es;
    forall j | 0 <= j < |all| ensures NextIs(all, j) {
      if j > 0 { assert NextIs(es, j - 1); }
    }
  }

  /** The search loops of get, take, remove, is_exists and put_internal. */
  method Scan<K(==), V>(head: Entry?<K, V>, key: K, ghost es: seq<Entry<K, V>>)
      returns (last: Entry?<K, V>, entry: Entry?<K, V>, ghost j: nat)
    requires Linked(head, es)
    ensures j <= |es| && last == (if j == 0 then null else es[j - 1])
    ensures forall k :: 0 <= k < j ==> es[k].key != key
    ensures if j < |es| then entry == es[j] && es[j].key == key else entry == null
  {
    last, entry, j := null, head, 0;
    while entry != null && entry.key != key
      invariant j <= |es|
      invariant last == (if j == 0 then null else es[j - 1])
      invariant entry == (if j < |es| then es[j] else null)
      invariant forall k :: 0 <= k < j ==> es[k].key != key
      decreases |es| - j
    {
      assert NextIs(es, j);
      last, entry, j := entry, entry.next, j + 1;
    }
  }

  /** Relinks entry j, found behind `last`, to the front of its chain. */
  method Relink<K, V>(head: Entry<K, V>, last: Entry<K, V>, entry: Entry<K, V>, ghost es: seq<Entry<K, V>>, ghost j: nat)
    requires Linked(head, es) && UniqueKeys(es) && 0 < j < |es| && es[j - 1] == last && es[j] == entry
    modifies last`next, entry`next
    ensures Linked(entry, ToFront(es, j))
  {
    assert NextIs(es, j);
    last.next := entry.next;
    entry.next := head;
    var all := ToFront(es, j);
    forall k | 0 <= k < |all| ensures NextIs(all, k) {
      if k == 0 {
        assert all[1] == es[0];
      } else if k < j {
        assert old(NextIs(es, k - 1)) && all[k] == es[k - 1];
        assert all[k + 1] == es[k];
      } else if k == j {
        assert all[k] == es[j - 1];
        assert k + 1 < |all| ==> all[k + 1] == es[k + 1];
      } else {
        assert old(NextIs(es, k)) && all[k] == es[k];
      }
    }
  }

  /** Takes entry j, found behind `last`, out of its chain. */
  method Unlink<K, V>(head: Entry<K, V>, last: Entry?<K, V>, entry: Entry<K, V>, ghost es: seq<Entry<K, V>>, ghost j: nat)
      returns (rest: Entry?<K, V>)
    requires Linked(head, es) && UniqueKeys(es) && j < |es| && es[j] == entry
    requires last == (if j == 0 then null else es[j - 1])
    modifies if last == null then {} else {last}`next
    ensures Linked(rest, es[..j] + es[j + 1..])
  {
    assert NextIs(es, j);
    rest := head;
    if last == null {
      rest := entry.next;
    } else {
      last.next := entry.next;
    }
    var all := es[..j] + es[j + 1..];
    forall k | 0 <= k < |all| ensures NextIs(all, k) {
      assert old(NextIs(es, k)) && (k >= j ==> old(NextIs(es, k + 1)));
    }
  }

  // ----- Tables -----

  function BucketOf<K>(hash: K -> nat, n: nat, key: K): nat {
    if n == 0 then 0 else And(hash(key), n - 1)
  }

  ghost predicate UniqueKeys<K, V>(es: seq<Entry<K, V>>) {
    forall j, k :: 0 <= j < k < |es| ==> es[j].key != es[k].key
  }

  /** The chain of bucket i: entries of the table that hash to i, no key twice. */
  ghost predicate InBucket<K, V>(hash: K -> nat, t: Table<K, V>, i: nat)
    requires i < |t.chains|
  {
    && UniqueKeys(t.chains[i])
    && forall e :: e in t.chains[i] ==> e in t.cells && BucketOf(hash, |t.chains|, e.key) == i
  }

  ghost predicate Located<K, V>(hash: K -> nat, t: Table<K, V>, e: Entry<K, V>) {
    && e.key in t.at && t.at[e.key] == e
    && BucketOf(hash, |t.chains|, e.key) < |t.chains| && e in t.chains[BucketOf(hash, |t.chains|, e.key)]
  }

  /** Chains, keys and cells describe the same table. */
  ghost predicate Indexed<K, V>(hash: K -> nat, t: Table<K, V>) {
    && PowerOfTwo(|t.chains|)
    && (forall i :: 0 <= i < |t.chains| ==> InBucket(hash, t, i))
    && (forall k :: k in t.at ==> t.at[k] in t.cells && t.at[k].key == k)
    && (forall e :: e in t.cells ==> Located(hash, t, e))
  }

  /** An entry is in the chain whose number is the remainder of its hash, and in no other. */
  lemma ChainExactly<K, V>(hash: K -> nat, t: Table<K, V>, i: nat, e: Entry<K, V>)
    requires Indexed(hash, t) && i < |t.chains| && e in t.cells
    ensures e in t.chains[i] <==> hash(e.key) % |t.chains| == i
  {
    assert Located(hash, t, e) && InBucket(hash, t, i);
    MaskIsRemainder(hash(e.key), |t.chains|);
  }

  /** What the table stands for. */
  ghost function Values<K, V>(t: Table<K, V>): map<K, V>
    reads t.cells
  {
    map k | k in t.at && t.at[k] in t.cells :: t.at[k].value
  }

  ghost function Empty<K, V>(n: nat): Table<K, V> {
    Table(seq(n, _ => []), map[], {})
  }

  lemma NoValues<K, V>(t: Table<K, V>)
    requires t.cells == {}
    ensures Values(t) == map[]
  {}

  lemma EmptyOk<K, V>(hash: K -> nat, n: nat, heads: seq<Entry?<K, V>>)
    requires PowerOfTwo(n) && |heads| == n && forall i :: 0 <= i < n ==> heads[i] == null
    ensures Indexed(hash, Empty<K, V>(n)) && AllBehind(heads, Empty<K, V>(n)) && Values(Empty<K, V>(n)) == map[]
  {}

  ghost function Inserted<K, V>(t: Table<K, V>, i: nat, e: Entry<K, V>): Table<K, V>
    requires i < |t.chains|
  {
    Table(t.chains[i := [e] + t.chains[i]], t.at[e.key := e], t.cells + {e})
  }

  lemma InsertedIndexed<K, V>(hash: K -> nat, t: Table<K, V>, i: nat, e: Entry<K, V>)
    requires Indexed(hash, t) && e.key !in t.at && i == BucketOf(hash, |t.chains|, e.key) < |t.chains|
    ensures e !in t.cells && Indexed(hash, Inserted(t, i, e)) && |Inserted(t, i, e).at| == |t.at| + 1
  {
    var t' := Inserted(t, i, e);
    assert e in t.cells ==> Located(hash, t, e);
    forall b | 0 <= b < |t'.chains| ensures InBucket(hash, t', b) {
      assert InBucket(hash, t, b);
      forall x | x in t.chains[b] ensures x.key != e.key { assert Located(hash, t, x); }
    }
    forall x | x in t'.cells ensures Located(hash, t', x) {
      if x != e { assert Located(hash, t, x); }
    }
  }

  lemma InsertedBehind<K, V>(heads: seq<Entry?<K, V>>, t: Table<K, V>, i: nat, e: Entry<K, V>)
    requires AllBehind(heads, t) && i < |t.chains| && e.next == heads[i]
    ensures AllBehind(heads[i := e], Inserted(t, i, e))
  {
    var t' := Inserted(t, i, e);
    assert Behind(heads[i], t.chains[i], t.cells);
    forall b | 0 <= b < |t'.chains| ensures Behind(heads[i := e][b], t'.chains[b], t'.cells) {
      assert Behind(heads[b], t.chains[b], t.cells);
      if b == i { LinkedCons(e, t.chains[i]); }
    }
  }

  lemma InsertedValues<K, V>(hash: K -> nat, t: Table<K, V>, i: nat, e: Entry<K, V>)
    requires Indexed(hash, t) && i < |t.chains|
    ensures Values(Inserted(t, i, e)) == Values(t)[e.key := e.value]
    ensures Inserted(t, i, e).at.Keys == t.at.Keys + {e.key}
  {}

  ghost function Removed<K, V>(t: Table<K, V>, i: nat, j: nat): Table<K, V>
    requires i < |t.chains| && j < |t.chains[i]|
  {
    var e := t.chains[i][j];
    Table(t.chains[i := t.chains[i][..j] + t.chains[i][j + 1..]], t.at - {e.key}, t.cells - {e})
  }

  lemma RemovedIndexed<K, V>(hash: K -> nat, t: Table<K, V>, i: nat, j: nat)
    requires Indexed(hash, t) && i < |t.chains| && j < |t.chains[i]|
    ensures Indexed(hash, Removed(t, i, j))
  {
    var c, e, t' := t.chains[i], t.chains[i][j], Removed(t, i, j);
    assert InBucket(hash, t, i) && Located(hash, t, e);
    forall b | 0 <= b < |t'.chains| ensures InBucket(hash, t', b) {
      assert InBucket(hash, t, b);
    }
    forall x | x in t'.cells ensures Located(hash, t', x) {
      assert Located(hash, t, x);
      if BucketOf(hash, |t.chains|, x.key) == i {
        var k :| 0 <= k < |c| && c[k] == x;
        assert if k < j then t'.chains[i][k] == x else t'.chains[i][k - 1] == x;
      }
    }
  }

  lemma RemovedValues<K, V>(hash: K -> nat, t: Table<K, V>, i: nat, j: nat)
    requires Indexed(hash, t) && i < |t.chains| && j < |t.chains[i]|
    ensures var e := t.chains[i][j];
            && Values(Removed(t, i, j)) == Values(t) - {e.key} && |Removed(t, i, j).at| == |t.at| - 1
            && e in t.cells && e.key in t.at && t.at[e.key] == e
  {
    var e := t.chains[i][j];
    assert InBucket(hash, t, i) && Located(hash, t, e);
    assert t.at == Removed(t, i, j).at[e.key := e];
  }

  /** Moving element j to the front. */
  function ToFront<T>(s: seq<T>, j: nat): seq<T>
    requires j < |s|
  {
    [s[j]] + s[..j] + s[j + 1..]
  }

  ghost function Fronted<K, V>(t: Table<K, V>, i: nat, j: nat): Table<K, V>
    requires i < |t.chains| && j < |t.chains[i]|
  {
    t.(chains := t.chains[i := ToFront(t.chains[i], j)])
  }

  /** t' is t with the entry of this key moved to the front of chain i. */
  ghost predicate MovedToFront<K, V>(t: Table<K, V>, t': Table<K, V>, i: nat, key: K) {
    i < |t.chains| && exists j: nat :: j < |t.chains[i]| && t.chains[i][j].key == key && t' == Fronted(t, i, j)
  }

  lemma FirstStays<K, V>(t: Table<K, V>, i: nat)
    requires i < |t.chains| && t.chains[i] != []
    ensures MovedToFront(t, t, i, t.chains[i][0].key)
  {
    assert ToFront(t.chains[i], 0) == t.chains[i];
    assert t == Fronted(t, i, 0);
  }

  lemma FrontedValues<K, V>(t: Table<K, V>, i: nat, j: nat)
    requires i < |t.chains| && j < |t.chains[i]|
    ensures Values(Fronted(t, i, j)) == Values(t)
  {}

  lemma FrontedIndexed<K, V>(hash: K -> nat, t: Table<K, V>, i: nat, j: nat)
    requires Indexed(hash, t) && i < |t.chains| && j < |t.chains[i]|
    ensures Indexed(hash, Fronted(t, i, j))
  {
    var c, t' := t.chains[i], Fronted(t, i, j);
    assert InBucket(hash, t, i);
    forall b | 0 <= b < |t'.chains| ensures InBucket(hash, t', b) {
      assert InBucket(hash, t, b);
    }
    forall x | x in t'.cells ensures Located(hash, t', x) {
      assert Located(hash, t, x);
      if BucketOf(hash, |t.chains|, x.key) == i {
        var k :| 0 <= k < |c| && c[k] == x;
        assert t'.chains[i][if k == j then 0 else if k < j then k + 1 else k] == x;
      }
    }
  }

  lemma Assembled<K, V>(hash: K -> nat, heads: seq<Entry?<K, V>>, t: Table<K, V>)
    requires Indexed(hash, t) && |heads| == |t.chains|
    requires forall b :: 0 <= b < |heads| ==> Linked(heads[b], t.chains[b])
    ensures AllBehind(heads, t)
  {
    forall b | 0 <= b < |heads| ensures Behind(heads[b], t.chains[b], t.cells) { assert InBucket(hash, t, b); }
  }

  lemma AllLinked<K, V>(heads: seq<Entry?<K, V>>, t: Table<K, V>)
    requires AllBehind(heads, t)
    ensures |heads| == |t.chains| && forall b :: 0 <= b < |heads| ==> Linked(heads[b], t.chains[b])
  {
    forall b | 0 <= b < |heads| ensures Linked(heads[b], t.chains[b]) { assert Behind(heads[b], t.chains[b], t.cells); }
  }

  twostate lemma SameValues<K, V>(t: Table<K, V>)
    requires forall e :: e in t.cells ==> e.value == old(e.value)
    ensures Values(t) == old(Values(t))
  {}

  lemma Apart<K, V>(hash: K -> nat, t: Table<K, V>, i: nat, b: nat, e: Entry<K, V>)
    requires Indexed(hash, t) && i < |t.chains| && b < |t.chains| && b != i && e in t.chains[i]
    ensures e in t.cells && e !in t.chains[b]
  {
    assert InBucket(hash, t, i) && InBucket(hash, t, b);
  }

  /** The entries of the buckets before i. */
  ghost function Below<K, V>(hash: K -> nat, t: Table<K, V>, i: nat): set<Entry<K, V>> {
    set e | e in t.cells && BucketOf(hash, |t.chains|, e.key) < i
  }

  lemma BelowNext<K, V>(hash: K -> nat, t: Table<K, V>, i: nat)
    requires Indexed(hash, t) && i < |t.chains|
    ensures Below(hash, t, i + 1) == Below(hash, t, i) + Elements(t.chains[i])
    ensures Elements(t.chains[i]) <= t.cells - Below(hash, t, i) && UniqueKeys(t.chains[i])
    ensures Below(hash, t, i) <= t.cells
  {
    assert InBucket(hash, t, i);
    forall e | e in Below(hash, t, i + 1) ensures e in Below(hash, t, i) + Elements(t.chains[i]) {
      assert Located(hash, t, e);
    }
  }

  lemma BelowAll<K, V>(hash: K -> nat, t: Table<K, V>)
    requires Indexed(hash, t)
    ensures Below(hash, t, 0) == {} && Below(hash, t, |t.chains|) == t.cells
  {
    forall e | e in t.cells ensures e in Below(hash, t, |t.chains|) { assert Located(hash, t, e); }
  }

  /** What the entries seen so far stand for. */
  ghost function Part<K, V>(t: Table<K, V>, seen: set<Entry<K, V>>): map<K, V>
    requires seen <= t.cells
    reads t.cells
  {
    Values(t.(cells := seen))
  }

  /** ... and the first j of bucket i. */
  ghost function Upto<K, V>(hash: K -> nat, t: Table<K, V>, i: nat, j: nat): set<Entry<K, V>>
    requires i < |t.chains| && j <= |t.chains[i]|
  {
    Below(hash, t, i) + Elements(t.chains[i][..j])
  }

  lemma UptoEnds<K, V>(hash: K -> nat, t: Table<K, V>, i: nat)
    requires Indexed(hash, t) && i < |t.chains|
    ensures Upto(hash, t, i, 0) == Below(hash, t, i) && Upto(hash, t, i, |t.chains[i]|) == Below(hash, t, i + 1)
    ensures Below(hash, t, i) <= t.cells && Below(hash, t, i + 1) <= t.cells
  {
    BelowNext(hash, t, i);
    assert t.chains[i][..|t.chains[i]|] == t.chains[i];
  }

  lemma PartNext<K, V>(hash: K -> nat, t: Table<K, V>, i: nat, j: nat)
    requires Indexed(hash, t) && i < |t.chains| && j < |t.chains[i]|
    ensures Upto(hash, t, i, j) <= t.cells && Upto(hash, t, i, j + 1) <= t.cells && t.chains[i][j] in t.cells
    ensures var e := t.chains[i][j]; Part(t, Upto(hash, t, i, j + 1)) == Part(t, Upto(hash, t, i, j))[e.key := e.value]
  {
    var c, e := t.chains[i], t.chains[i][j];
    BelowNext(hash, t, i);
    assert InBucket(hash, t, i) && Located(hash, t, e);
    assert c[..j + 1] == c[..j] + [e];
    assert Upto(hash, t, i, j + 1) == Upto(hash, t, i, j) + {e};
  }

  lemma PartAll<K, V>(hash: K -> nat, t: Table<K, V>)
    requires Indexed(hash, t)
    ensures Part(t, {}) == map[] && Part(t, t.cells) == Values(t) && |Values(t)| == |t.at| && Values(t).Keys == t.at.Keys
  {
    assert Values(t).Keys == t.at.Keys;
  }

  // ----- The map -----

  class Map<K(==), V> {
    const hash: K -> nat
    var buckets: array<Entry?<K, V>>
    var bucketsSize: nat
    var dataSize: nat
    ghost var table: Table<K, V>
    ghost var live: set<Entry<K, V>>
    ghost var failed: bool

    ghost predicate Valid()
      reads this`buckets, this`bucketsSize, this`dataSize, this`table, buckets, table.cells
    {
      && bucketsSize == buckets.Length && Stored(hash, buckets, table)
      && dataSize == |table.at|
    }

    ghost function Contents(): map<K, V>
      reads this`table, table.cells
    {
      Values(table)
    }

    /** Between calls: no cell leaked or freed too early, and the load stays at most one as long as the heap
      * has refused nothing. */
    ghost predicate Sound()
      reads this, buckets, table.cells
    {
      Valid() && live == table.cells && (!failed ==> dataSize <= bucketsSize)
    }

    constructor (hash: K -> nat)
      ensures Sound() && fresh(buckets) && Contents() == map[] && bucketsSize == INITIAL_BUCKETS
      ensures this.hash == hash && dataSize == 0
    {
      this.hash := hash;
      buckets := new Entry?<K, V>[INITIAL_BUCKETS](_ => null);
      bucketsSize, dataSize := INITIAL_BUCKETS, 0;
      table, live, failed := Empty(INITIAL_BUCKETS), {}, false;
      new;
      assert PowerOfTwo(16) by { assert PowerOfTwo(4); }
      EmptyOk(hash, INITIAL_BUCKETS, buckets[..]);
    }

    function Index(key: K): nat
      reads this
    {
      BucketOf(hash, bucketsSize, key)
    }

    lemma IndexInRange(key: K)
      requires Valid()
      ensures Index(key) < |table.chains| == buckets.Length
    {
      MaskIsRemainder(hash(key), bucketsSize);
    }

    method Search(key: K) returns (i: nat, last: Entry?<K, V>, entry: Entry?<K, V>, ghost j: nat)
      requires Valid()
      ensures i == Index(key) < |table.chains| && j <= |table.chains[i]|
      ensures last == (if j == 0 then null else table.chains[i][j - 1]) && (last != null ==> last in table.cells)
      ensures entry == null ==> j == |table.chains[i]| && key !in table.at
      ensures entry != null ==> j < |table.chains[i]| && table.chains[i][j] == entry && entry in table.cells
                                && key in table.at && table.at[key] == entry && entry.key == key
    {
      IndexInRange(key);
      i := Index(key);
      assert Behind(buckets[..][i], table.chains[i], table.cells);
      last, entry, j := Scan(buckets[i], key, table.chains[i]);
      assert last != null ==> last in table.chains[i];
      if entry != null {
        assert entry in table.chains[i] && InBucket(hash, table, i);
        assert Located(hash, table, entry);
      }
      if key in table.at { assert Located(hash, table, table.at[key]); }
    }

    /** The chain of the key starts with an entry of this key and value. */
    ghost predicate FirstOfChain(key: K, value: V)
      reads this`buckets, this`table, buckets, table.cells
    {
      && 0 < |table.chains| == buckets.Length
      && var i := hash(key) % |table.chains|;
         && table.chains[i] != [] && buckets[i] == table.chains[i][0]
         && table.chains[i][0].key == key && table.chains[i][0] in table.cells && table.chains[i][0].value == value
    }

    lemma NewIndex(key: K)
      requires Valid()
      ensures 0 < |table.chains| == buckets.Length && Index(key) == hash(key) % |table.chains|
    {
      MaskIsRemainder(hash(key), bucketsSize);
    }

    method PutInternal(key: K, value: V, memory: bool) returns (ok: bool, replaced: bool)
      requires Valid()
      modifies this`dataSize, this`table, this`live, buckets, table.cells
      ensures Valid() && (memory ==> ok)
      ensures ok ==> Contents() == old(Contents())[key := value] && replaced == (key in old(table.at))
      ensures ok ==> dataSize == old(dataSize) + if replaced then 0 else 1
      ensures old(table.cells) <= table.cells && fresh(table.cells - old(table.cells))
      ensures live == old(live) + (table.cells - old(table.cells))
      ensures ok && !replaced ==> FirstOfChain(key, value) && |table.chains| == old(|table.chains|)
      ensures !ok ==> table == old(table) && dataSize == old(dataSize) && buckets[..] == old(buckets[..])
                      && Contents() == old(Contents())
    {
      hide Indexed, AllBehind, Values;
      var i, last, entry, j := Search(key);
      if entry != null {
        Replace(entry, value);
        return true, true;
      }
      var got := Malloc(memory);
      if !got {
        return false, false;
      }
      NewIndex(key);
      ghost var n := |table.chains|;
      ghost var e := Insert(i, key, value);
      hide Valid, Contents;
      assert i == hash(key) % n && table.chains[i][0] == e && e in table.cells;
      return true, false;
    }

    method Replace(entry: Entry<K, V>, value: V)
      requires Valid() && entry in table.cells
      modifies entry`value
      ensures Valid() && Contents() == old(Contents())[entry.key := value]
    {
      assert Located(hash, table, entry);
      ghost var heads, t := buckets[..], table;
      entry.value := value;
      forall b | 0 <= b < |heads| ensures Behind(heads[b], t.chains[b], t.cells) {
        assert old(Behind(heads[b], t.chains[b], t.cells));
        forall j | 0 <= j < |t.chains[b]| ensures NextIs(t.chains[b], j) { assert old(NextIs(t.chains[b], j)); }
      }
      assert Values(t) == old(Values(t))[entry.key := value];
    }

    method Insert(i: nat, key: K, value: V) returns (ghost e: Entry<K, V>)
      requires Valid() && i == Index(key) < |table.chains| && key !in table.at
      modifies this`dataSize, this`table, this`live, buckets
      ensures Valid() && Contents() == old(Contents())[key := value] && dataSize == old(dataSize) + 1
      ensures old(table.cells) <= table.cells && fresh(table.cells - old(table.cells))
      ensures live == old(live) + (table.cells - old(table.cells))
      ensures table == Inserted(old(table), i, e) && buckets[i] == e && e.key == key && e.value == value
    {
      hide Indexed, AllBehind, Values, BucketOf;
      ghost var heads := buckets[..];
      var entry := new Entry(key, value, buckets[i]);
      buckets[i] := entry;
      assert buckets[..] == heads[i := entry];
      InsertedIndexed(hash, table, i, entry);
      InsertedBehind(heads, table, i, entry);
      InsertedValues(hash, table, i, entry);
      hide Behind, Linked, PowerOfTwo;
      table, live, dataSize, e := Inserted(table, i, entry), live + {entry}, dataSize + 1, entry;
    }

    /** clog_free of an entry cell. */
    method Free(e: Entry<K, V>)
      requires e in live
      modifies this`live
      ensures live == old(live) - {e}
    {
      live := live - {e};
    }

    /** The loops that free the entries of one bucket: each field is read before its cell is freed. */
    method FreeChain(head: Entry?<K, V>, ghost es: seq<Entry<K, V>>)
      requires Linked(head, es) && UniqueKeys(es) && Elements(es) <= live
      modifies this`live
      ensures live == old(live) - Elements(es)
    {
      var tmp := head;
      ghost var j := 0;
      while tmp != null
        invariant j <= |es| && tmp == (if j < |es| then es[j] else null)
        invariant live == old(live) - Elements(es[..j])
        decreases |es| - j
      {
        assert NextIs(es, j) && es[j] !in es[..j];
        var next := tmp.next;
        Free(tmp);
        assert es[..j + 1] == es[..j] + [es[j]];
        tmp, j := next, j + 1;
      }
      assert es[..j] == es;
    }

    /** ... and of all buckets. */
    method FreeEntries(heads: array<Entry?<K, V>>, ghost t: Table<K, V>)
      requires Stored(hash, heads, t) && t.cells <= live
      modifies this`live
      ensures live == old(live) - t.cells
    {
      BelowAll(hash, t);
      var j := 0;
      while j < heads.Length
        invariant j <= heads.Length
        invariant live == old(live) - Below(hash, t, j)
      {
        BelowNext(hash, t, j);
        assert Behind(heads[..][j], t.chains[j], t.cells);
        FreeChain(heads[j], t.chains[j]);
        j := j + 1;
      }
    }

    /** The inner loop of resize: puts the entries of one old bucket, the i-th of o, into the new table. */
    method MoveChain(head: Entry?<K, V>, ghost o: Table<K, V>, ghost i: nat, memory: bool)
        returns (ok: bool)
      requires Valid() && Indexed(hash, o) && i < |o.chains| && Behind(head, o.chains[i], o.cells)
      requires table.cells !! o.cells && Below(hash, o, i) <= o.cells && Contents() == Part(o, Below(hash, o, i))
      modifies this`dataSize, this`table, this`live, buckets, table.cells
      ensures Valid() && fresh(table.cells - old(table.cells)) && old(table.cells) <= table.cells && (memory ==> ok)
      ensures live == old(live) + (table.cells - old(table.cells))
      ensures Below(hash, o, i + 1) <= o.cells && (ok ==> Contents() == Part(o, Below(hash, o, i + 1)))
    {
      hide Indexed, AllBehind, Values, Part, Below, Upto;
      ghost var es := o.chains[i];
      UptoEnds(hash, o, i);
      ghost var j := 0;
      var entry := head;
      while entry != null
        invariant Valid() && fresh(table.cells - old(table.cells)) && old(table.cells) <= table.cells
        invariant live == old(live) + (table.cells - old(table.cells))
        invariant Linked(head, es) && table.cells !! o.cells
        invariant j <= |es| && entry == (if j < |es| then es[j] else null)
        invariant Upto(hash, o, i, j) <= o.cells && Contents() == Part(o, Upto(hash, o, i, j))
        decreases |es| - j
      {
        assert NextIs(es, j);
        PartNext(hash, o, i, j);
        var replaced;
        ok, replaced := PutInternal(entry.key, entry.value, memory);
        if !ok {
          return;
        }
        entry, j := entry.next, j + 1;
      }
      ok := true;
    }

    /** The loops of resize over the old buckets. */
    method Rehash(oldEntries: array<Entry?<K, V>>, ghost o: Table<K, V>, memory: bool) returns (ok: bool)
      requires Valid() && table.cells == {} && oldEntries != buckets
      requires Stored(hash, oldEntries, o)
      modifies this`dataSize, this`table, this`live, buckets
      ensures Valid() && fresh(table.cells) && live == old(live) + table.cells && (memory ==> ok)
      ensures ok ==> Contents() == Values(o)
    {
      hide Valid, Stored, Contents, Values, Part, Below, Behind;
      RehashStarts(oldEntries, o);
      var i := 0;
      while i < oldEntries.Length
        invariant i <= oldEntries.Length
        invariant Valid() && fresh(table.cells) && live == old(live) + table.cells
        invariant Below(hash, o, i) <= o.cells && Contents() == Part(o, Below(hash, o, i))
      {
        HeadOf(oldEntries, o, i);
        ok := MoveChain(oldEntries[i], o, i, memory);
        if !ok {
          return;
        }
        i := i + 1;
      }
      ok := true;
    }

    lemma RehashStarts(entries: array<Entry?<K, V>>, o: Table<K, V>)
      requires Valid() && table.cells == {} && Stored(hash, entries, o)
      ensures entries.Length == |o.chains| && Contents() == map[]
      ensures Below(hash, o, 0) == {} && Below(hash, o, |o.chains|) == o.cells
      ensures Part(o, {}) == map[] && Part(o, o.cells) == Values(o)
    {
      BelowAll(hash, o);
      PartAll(hash, o);
      NoValues(table);
    }

    /** Rehashes everything into newSize buckets, or restores what was there: no entry, nor the old array, is
      * written to, and on failure exactly the new cells have been freed. */
    method Resize(newSize: nat, memory: bool) returns (ok: bool)
      requires Valid() && live == table.cells && PowerOfTwo(newSize)
      modifies this`dataSize, this`bucketsSize, this`buckets, this`table, this`live, this`failed
      ensures Valid() && live == table.cells && failed == (old(failed) || !ok) && (memory ==> ok)
      ensures Contents() == old(Contents()) && dataSize == old(dataSize)
      ensures ok ==> bucketsSize == newSize && fresh(buckets) && fresh(table.cells)
      ensures !ok ==> bucketsSize == old(bucketsSize) && buckets == old(buckets) && table == old(table)
    {
      hide Valid, Stored, Values, Contents;
      var got := Malloc(memory);
      if !got {
        failed := true;
        return false;
      }
      var newEntries := new Entry?<K, V>[newSize](_ => null);
      var oldEntries, oldSize, oldDataSize := buckets, bucketsSize, dataSize;
      ghost var o := table;
      Parts();
      Start(newEntries);
      ok := Rehash(oldEntries, o, memory);
      assert Stored(hash, oldEntries, o) && Values(o) == old(Values(table));
      if ok {
        SameCount(o);
        FreeEntries(oldEntries, o);
      } else {
        RollBack(oldEntries, oldSize, oldDataSize, o);
        failed := true;
      }
      assert Valid() && Contents() == old(Contents());
    }

    lemma Parts()
      requires Valid()
      ensures bucketsSize == buckets.Length && Stored(hash, buckets, table) && dataSize == |table.at|
      ensures Contents() == Values(table)
    {}

    lemma MoreParts()
      requires Valid()
      ensures bucketsSize == buckets.Length == |table.chains|
      ensures Indexed(hash, table) && AllBehind(buckets[..], table)
    {}

    lemma SameCount(o: Table<K, V>)
      requires Valid() && Indexed(hash, o) && Contents() == Values(o)
      ensures dataSize == |o.at|
    {
      PartAll(hash, o);
      PartAll(hash, table);
    }

    method Start(entries: array<Entry?<K, V>>)
      requires PowerOfTwo(entries.Length) && forall i :: 0 <= i < entries.Length ==> entries[i] == null
      modifies this`dataSize, this`bucketsSize, this`buckets, this`table
      ensures Valid() && buckets == entries && bucketsSize == entries.Length && table.cells == {}
    {
      buckets, bucketsSize, dataSize := entries, entries.Length, 0;
      table := Empty(entries.Length);
      EmptyOk(hash, entries.Length, entries[..]);
    }

    method RollBack(entries: array<Entry?<K, V>>, size: nat, count: nat, ghost o: Table<K, V>)
      requires Valid() && Stored(hash, entries, o) && size == entries.Length && count == |o.at|
      requires live == o.cells + table.cells && o.cells !! table.cells
      modifies this`dataSize, this`bucketsSize, this`buckets, this`table, this`live
      ensures Valid() && buckets == entries && table == o && Contents() == Values(o)
      ensures bucketsSize == size && dataSize == count && live == o.cells
    {
      hide Indexed, AllBehind, Values;
      ghost var n := table;
      var newEntries := buckets;
      buckets, bucketsSize, dataSize, table := entries, size, count, o;
      FreeEntries(newEntries, n);
    }

    lemma HeadOf(entries: array<Entry?<K, V>>, t: Table<K, V>, i: nat)
      requires Stored(hash, entries, t) && i < entries.Length
      ensures i < |t.chains| && Behind(entries[i], t.chains[i], t.cells) && Indexed(hash, t)
    {
      assert Behind(entries[..][i], t.chains[i], t.cells);
    }

    /** Doubles a full array first; that this may fail changes nothing but the load. */
    method Put(key: K, value: V, memory: bool) returns (ok: bool)
      requires Sound()
      modifies this`dataSize, this`bucketsSize, this`buckets, this`table, this`live, this`failed, buckets, table.cells
      ensures Sound() && (old(failed) ==> failed) && (memory ==> ok && failed == old(failed))
      ensures bucketsSize == old(bucketsSize) || bucketsSize == old(bucketsSize) * 2
      ensures memory ==> (bucketsSize == old(bucketsSize) <==> old(dataSize) < old(bucketsSize))
      ensures bucketsSize != old(bucketsSize) ==> old(dataSize) >= old(bucketsSize)
      ensures Contents() == if ok then old(Contents())[key := value] else old(Contents())
      ensures ok && key !in old(Contents()) ==> FirstOfChain(key, value)
      ensures !ok ==> failed
      ensures (buckets == old(buckets) || fresh(buckets)) && fresh(table.cells - old(table.cells))
    {
      hide Stored, Contents, FirstOfChain;
      SizeOk();
      var dupKey := Malloc(memory);
      var dupValue := Malloc(memory);
      if !dupKey || !dupValue {
        failed := true;
        return false;
      }
      if dataSize >= bucketsSize {
        var resized := Resize(bucketsSize * 2, memory);
      }
      KeysOfContents();
      var replaced;
      ok, replaced := PutInternal(key, value, memory);
      failed := failed || !ok;
    }

    /** Finds the value and makes its entry the first of its chain. */
    method Get(key: K) returns (value: Option<V>)
      requires Sound()
      modifies this`table, buckets, table.cells
      ensures Sound() && Contents() == old(Contents()) && table.cells == old(table.cells)
      ensures value == if key in old(Contents()) then Some(old(Contents())[key]) else None
      ensures value.Some? ==> Index(key) < buckets.Length && buckets[Index(key)] != null
                              && buckets[Index(key)] in table.cells && buckets[Index(key)].key == key
      ensures if value.Some? then MovedToFront(old(table), table, Index(key), key) else table == old(table)
    {
      hide Valid, Stored, Contents, MovedToFront;
      var i, last, entry, j := Search(key);
      KeysOfContents();
      if entry == null {
        return None;
      }
      Front(i, last, entry, j);
      value := Some(entry.value);
    }

    method Front(i: nat, last: Entry?<K, V>, entry: Entry<K, V>, ghost j: nat)
      requires Valid() && i < |table.chains| && j < |table.chains[i]|
      requires last == (if j == 0 then null else table.chains[i][j - 1]) && table.chains[i][j] == entry
      requires entry in table.cells && (last == null || last in table.cells)
      modifies this`table, buckets, table.cells
      ensures Valid() && Contents() == old(Contents()) && table.cells == old(table.cells)
      ensures i < buckets.Length && buckets[i] == entry && entry.value == old(entry.value)
      ensures MovedToFront(old(table), table, i, entry.key)
    {
      hide Indexed, Values, ToFront;
      MoreParts();
      HeadOf(buckets, table, i);
      if buckets[i] != entry {
        MoveToFront(i, last, entry, j);
      } else {
        FirstOnly(i, entry, j);
        FirstStays(table, i);
      }
    }

    lemma FirstOnly(i: nat, entry: Entry<K, V>, j: nat)
      requires Valid() && i < |table.chains| && j < |table.chains[i]| && table.chains[i][j] == entry
      requires i < buckets.Length && buckets[i] == entry
      ensures j == 0
    {
      Separate(i);
    }

    /** Entries of one chain are in no other; each chain is linked. */
    lemma Separate(i: nat)
      requires Valid() && i < |table.chains|
      ensures |table.chains| == buckets.Length && UniqueKeys(table.chains[i])
      ensures forall b :: 0 <= b < buckets.Length ==> Linked(buckets[b], table.chains[b])
      ensures forall b, e :: 0 <= b < buckets.Length && b != i && e in table.chains[i] ==> e !in table.chains[b]
    {
      AllLinked(buckets[..], table);
      assert forall b :: 0 <= b < buckets.Length ==> buckets[..][b] == buckets[b];
      assert InBucket(hash, table, i);
      forall b, e | 0 <= b < buckets.Length && b != i && e in table.chains[i] ensures e !in table.chains[b] {
        Apart(hash, table, i, b, e);
      }
    }

    method RelinkIn(i: nat, last: Entry<K, V>, entry: Entry<K, V>, ghost j: nat)
      requires Valid() && i < |table.chains| && 0 < j < |table.chains[i]|
      requires table.chains[i][j - 1] == last && table.chains[i][j] == entry
      modifies buckets, last`next, entry`next
      ensures |table.chains| == buckets.Length && buckets[i] == entry
      ensures forall b :: 0 <= b < buckets.Length ==> Linked(buckets[b], Fronted(table, i, j).chains[b])
    {
      hide Valid;
      Separate(i);
      assert last in table.chains[i] && entry in table.chains[i];
      Relink(buckets[i], last, entry, table.chains[i], j);
      buckets[i] := entry;
    }

    method MoveToFront(i: nat, last: Entry<K, V>, entry: Entry<K, V>, ghost j: nat)
      requires Valid() && i < |table.chains| && 0 < j < |table.chains[i]|
      requires table.chains[i][j - 1] == last && table.chains[i][j] == entry
      modifies this`table, buckets, last`next, entry`next
      ensures Valid() && table == Fronted(old(table), i, j) && Contents() == old(Contents()) && buckets[i] == entry
    {
      hide Indexed, Values, AllBehind;
      ghost var t := table;
      FrontedIndexed(hash, t, i, j);
      RelinkIn(i, last, entry, j);
      table := Fronted(t, i, j);
      Assembled(hash, buckets[..], table);
      SameValues(t);
      FrontedValues(t, i, j);
    }

    lemma SizeOk()
      requires Valid()
      ensures bucketsSize >= 1 && PowerOfTwo(bucketsSize) && PowerOfTwo(bucketsSize * 2)
      ensures bucketsSize > 1 ==> PowerOfTwo(bucketsSize / 2)
    {}

    lemma KeysOfContents()
      requires Valid()
      ensures Contents().Keys == table.at.Keys && |Contents()| == dataSize
      ensures forall k :: k in table.at ==> table.at[k] in table.cells && Contents()[k] == table.at[k].value
    {
      PartAll(hash, table);
    }

    method UnlinkIn(i: nat, last: Entry?<K, V>, entry: Entry<K, V>, ghost j: nat)
      requires Valid() && i < |table.chains| && j < |table.chains[i]|
      requires last == (if j == 0 then null else table.chains[i][j - 1]) && table.chains[i][j] == entry
      modifies buckets, if last == null then {} else {last}`next
      ensures |table.chains| == buckets.Length
      ensures forall b :: 0 <= b < buckets.Length ==> Linked(buckets[b], Removed(table, i, j).chains[b])
    {
      hide Valid;
      Separate(i);
      assert last != null ==> last in table.chains[i];
      var rest := Unlink(buckets[i], last, entry, table.chains[i], j);
      buckets[i] := rest;
    }

    method TakeOut(i: nat, last: Entry?<K, V>, entry: Entry<K, V>, ghost j: nat)
      requires Valid() && i < |table.chains| && j < |table.chains[i]| && table.cells <= live
      requires last == (if j == 0 then null else table.chains[i][j - 1]) && table.chains[i][j] == entry
      modifies this`table, this`dataSize, this`live, buckets, if last == null then {} else {last}`next
      ensures Valid() && Contents() == old(Contents()) - {entry.key} && dataSize == old(dataSize) - 1
      ensures table.cells == old(table.cells) - {entry} && live == old(live) - {entry}
    {
      hide Indexed, Values, AllBehind;
      ghost var t := table;
      RemovedIndexed(hash, t, i, j);
      RemovedValues(hash, t, i, j);
      UnlinkIn(i, last, entry, j);
      Free(entry);
      table, dataSize := Removed(t, i, j), dataSize - 1;
      Assembled(hash, buckets[..], table);
      SameValues(table);
    }

    /** Takes the entry out and hands its value over; the array is not shrunk. */
    method Take(key: K) returns (value: Option<V>)
      requires Sound()
      modifies this`table, this`dataSize, this`live, buckets, table.cells
      ensures Sound() && Contents() == old(Contents()) - {key} && table.cells <= old(table.cells)
      ensures value == if key in old(Contents()) then Some(old(Contents())[key]) else None
    {
      hide Valid, Stored, Contents, Index;
      var i, last, entry, j := Search(key);
      KeysOfContents();
      if entry == null {
        return None;
      }
      var v := TakeEntry(i, last, entry, j);
      value := Some(v);
    }

    method TakeEntry(i: nat, last: Entry?<K, V>, entry: Entry<K, V>, ghost j: nat) returns (value: V)
      requires Sound() && i < |table.chains| && j < |table.chains[i]|
      requires last == (if j == 0 then null else table.chains[i][j - 1]) && table.chains[i][j] == entry
      modifies this`table, this`dataSize, this`live, buckets, if last == null then {} else {last}
      ensures Sound() && Contents() == old(Contents()) - {entry.key} && table.cells <= old(table.cells)
      ensures value == old(entry.value)
    {
      hide Valid, Stored, Contents;
      value := entry.value;
      TakeOut(i, last, entry, j);
    }

    /** Everything the map owns, on the way out of clog_hashmap_destroy. */
    method FreeBuckets()
      requires Sound()
      modifies this`live
      ensures live == {}
    {
      hide Stored, Values;
      Parts();
      FreeEntries(buckets, table);
    }

    /** Halves the array when less than half of it is in use; that this may fail changes nothing. */
    method Remove(key: K, memory: bool) returns (removed: bool)
      requires Sound()
      modifies this`dataSize, this`bucketsSize, this`buckets, this`table, this`live, this`failed, buckets, table.cells
      ensures Sound() && (old(failed) ==> failed) && (memory ==> failed == old(failed))
      ensures bucketsSize == old(bucketsSize) || (bucketsSize == old(bucketsSize) / 2 && removed && dataSize < bucketsSize)
      ensures memory && removed && dataSize < old(bucketsSize) / 2 ==> bucketsSize == old(bucketsSize) / 2
      ensures Contents() == old(Contents()) - {key} && removed == (key in old(Contents()))
      ensures (buckets == old(buckets) || fresh(buckets)) && (table.cells <= old(table.cells) || fresh(table.cells))
    {
      hide Valid, Stored, Contents;
      KeysOfContents();
      removed := false;
      if dataSize != 0 {
        var i, last, entry, j := Search(key);
        if entry != null {
          Delete(i, last, entry, j, memory);
          removed := true;
        }
      }
    }

    method Delete(i: nat, last: Entry?<K, V>, entry: Entry<K, V>, ghost j: nat, memory: bool)
      requires Sound() && i < |table.chains| && j < |table.chains[i]|
      requires last == (if j == 0 then null else table.chains[i][j - 1]) && table.chains[i][j] == entry
      requires last == null || last in table.cells
      modifies this`dataSize, this`bucketsSize, this`buckets, this`table, this`live, this`failed, buckets,
               if last == null then {} else {last}
      ensures Sound() && (old(failed) ==> failed) && (memory ==> failed == old(failed))
      ensures bucketsSize == old(bucketsSize) || (bucketsSize == old(bucketsSize) / 2 && dataSize < bucketsSize)
      ensures memory && dataSize < old(bucketsSize) / 2 ==> bucketsSize == old(bucketsSize) / 2
      ensures Contents() == old(Contents()) - {entry.key}
      ensures (buckets == old(buckets) || fresh(buckets)) && (table.cells <= old(table.cells) || fresh(table.cells))
    {
      hide Valid, Stored, Contents;
      TakeOut(i, last, entry, j);
      Shrink(memory);
    }

    /** Halves the array if it is less than half full. */
    method Shrink(memory: bool)
      requires Sound()
      modifies this`dataSize, this`bucketsSize, this`buckets, this`table, this`live, this`failed
      ensures Sound() && (old(failed) ==> failed) && (memory ==> failed == old(failed))
      ensures Contents() == old(Contents()) && dataSize == old(dataSize)
      ensures bucketsSize == old(bucketsSize) || (bucketsSize == old(bucketsSize) / 2 && dataSize < bucketsSize)
      ensures memory && dataSize < old(bucketsSize) / 2 ==> bucketsSize == old(bucketsSize) / 2
      ensures (buckets == old(buckets) && table == old(table)) || (fresh(buckets) && fresh(table.cells))
    {
      hide Stored, Contents;
      SizeOk();
      var newSize := bucketsSize / 2;
      if dataSize < newSize {
        var resized := Resize(newSize, memory);
      }
    }

    method IsExists(key: K) returns (found: bool)
      requires Sound()
      ensures found == (key in Contents())
    {
      var i, last, entry, j := Search(key);
      KeysOfContents();
      found := entry != null;
    }

    method Size() returns (size: nat)
      requires Sound()
      ensures size == |Contents()|
    {
      KeysOfContents();
      size := dataSize;
    }

    method Clear()
      requires Sound()
      modifies this`table, this`dataSize, this`live, buckets
      ensures Sound() && Contents() == map[] && live == {} && bucketsSize == old(bucketsSize)
    {
      hide Indexed, AllBehind, Values;
      SizeOk();
      FreeAll();
      table, dataSize := Empty(bucketsSize), 0;
      EmptyOk(hash, bucketsSize, buckets[..]);
    }

    method FreeAll()
      requires Valid() && live == table.cells
      modifies this`live, buckets
      ensures live == {} && forall k :: 0 <= k < buckets.Length ==> buckets[k] == null
    {
      hide Valid, Stored, Indexed, AllBehind, Below;
      MoreParts();
      BelowAll(hash, table);
      ghost var heads := buckets[..];
      var i := 0;
      while i < bucketsSize
        invariant i <= bucketsSize && bucketsSize == |table.chains| == buckets.Length == |heads|
        invariant forall k :: 0 <= k < i ==> buckets[k] == null
        invariant forall k :: i <= k < bucketsSize ==> buckets[k] == heads[k]
        invariant live == old(live) - Below(hash, table, i)
      {
        BelowNext(hash, table, i);
        AllLinked(heads, table);
        FreeChain(buckets[i], table.chains[i]);
        buckets[i] := null;
        i := i + 1;
      }
    }
  }

  /** clog_hashmap_create. */
  method Create<K(==), V>(hash: K -> nat, memory: bool) returns (m: Map?<K, V>)
    ensures memory ==> m != null
    ensures m != null ==> fresh(m) && fresh(m.buckets) && m.Sound() && m.Contents() == map[]
    ensures m != null ==> m.hash == hash && m.bucketsSize == INITIAL_BUCKETS && m.dataSize == 0
  {
    var gotMap := Malloc(memory);
    if !gotMap {
      return null;
    }
    var gotBuckets := Malloc(memory);
    if !gotBuckets {
      return null;
    }
    m := new Map(hash);
  }
}
