/** The iterator of source/utils/clog_hashmap.c over the map of module HashMap. */
module HashMapIterator {
  import opened Common
  import opened HashMap

  function Flatten<T>(s: seq<seq<T>>): seq<T> {
    if s == [] then [] else Flatten(s[..|s| - 1]) + s[|s| - 1]
  }

  lemma {:induction false} FlattenPrefix<T>(s: seq<seq<T>>, i: nat)
    requires i <= |s|
    ensures Flatten(s[..i]) <= Flatten(s)
    decreases |s|
  {
    if i < |s| {
      FlattenPrefix(s[..|s| - 1], i);
      assert s[..|s| - 1][..i] == s[..i];
    } else {
      assert s[..i] == s;
    }
  }

  /** Element j of part i is element |first i parts| + j of the whole. */
  lemma FlattenAt<T>(s: seq<seq<T>>, i: nat, j: nat)
    requires i < |s| && j < |s[i]|
    ensures |Flatten(s[..i])| + j < |Flatten(s)| && Flatten(s)[|Flatten(s[..i])| + j] == s[i][j]
  {
    assert s[..i + 1][..i] == s[..i];
    FlattenPrefix(s, i + 1);
    assert Flatten(s[..i + 1]) == Flatten(s[..i]) + s[i];
  }

  /** The entries in the order of iteration. */
  ghost function Order<K, V>(t: Table<K, V>): seq<Entry<K, V>> {
    Flatten(t.chains)
  }

  lemma {:induction false} FlattenOfTable<K, V>(hash: K -> nat, t: Table<K, V>, i: nat)
    requires Indexed(hash, t) && i <= |t.chains|
    ensures Elements(Flatten(t.chains[..i])) == Below(hash, t, i) && UniqueKeys(Flatten(t.chains[..i]))
  {
    if i == 0 {
      BelowAll(hash, t);
    } else {
      FlattenOfTable(hash, t, i - 1);
      BelowNext(hash, t, i - 1);
      assert t.chains[..i][..i - 1] == t.chains[..i - 1];
      var before, here := Flatten(t.chains[..i - 1]), t.chains[i - 1];
      var all: seq<Entry<K, V>> := before + here;
      assert Flatten(t.chains[..i]) == all;
      assert Elements(all) == Elements(before) + Elements(here);
      forall j, k | 0 <= j < k < |all| ensures all[j].key != all[k].key {
        DifferentBuckets(hash, t, i - 1, before, here, j, k);
      }
    }
  }

  lemma DifferentBuckets<K, V>(hash: K -> nat, t: Table<K, V>, i: nat, before: seq<Entry<K, V>>, here: seq<Entry<K, V>>,
                               j: nat, k: nat)
    requires Indexed(hash, t) && i < |t.chains| && here == t.chains[i] && Elements(before) == Below(hash, t, i)
    requires UniqueKeys(before) && j < k < |before + here|
    ensures (before + here)[j].key != (before + here)[k].key
  {
    assert InBucket(hash, t, i);
    if j < |before| <= k {
      assert before[j] in Elements(before) && here[k - |before|] in here;
    }
  }

  /** The order of iteration holds every entry once: its entries are the cells, no key comes twice, and their
    * number is the count the map keeps. */
  lemma OrderIsComplete<K, V>(hash: K -> nat, t: Table<K, V>)
    requires Indexed(hash, t)
    ensures Elements(Order(t)) == t.cells && UniqueKeys(Order(t)) && |Order(t)| == |t.at|
  {
    FlattenOfTable(hash, t, |t.chains|);
    BelowAll(hash, t);
    assert t.chains[..|t.chains|] == t.chains;
    var o := Order(t);
    forall k | k in t.at ensures k in (set e | e in o :: e.key) { assert t.at[k] in Elements(o) && t.at[k].key == k; }
    forall e | e in o ensures e.key in t.at { assert e in Elements(o) && Located(hash, t, e); }
    CountOfOrder(o, t.at.Keys);
  }

  lemma {:induction false} CountOfOrder<K, V>(es: seq<Entry<K, V>>, keys: set<K>)
    requires UniqueKeys(es) && keys == (set e | e in es :: e.key)
    ensures |es| == |keys|
  {
    if es == [] {
      assert keys == {};
    } else {
      var init, last := es[..|es| - 1], es[|es| - 1];
      assert last in es;
      assert keys - {last.key} == (set e | e in init :: e.key);
      CountOfOrder(init, keys - {last.key});
    }
  }

  lemma {:induction false} EmptyParts<T>(s: seq<seq<T>>, i: nat, j: nat)
    requires i <= j <= |s| && forall k :: i <= k < j ==> s[k] == []
    ensures Flatten(s[..j]) == Flatten(s[..i])
    decreases j
  {
    if i < j {
      assert s[..j][..j - 1] == s[..j - 1];
      EmptyParts(s, i, j - 1);
    }
  }

  method FirstFrom<K, V>(heads: array<Entry?<K, V>>, size: nat, from: nat) returns (i: nat)
    requires size == heads.Length
    ensures from <= i && (from < i ==> i <= size) && (forall k :: from <= k < i ==> heads[k] == null)
    ensures i < size ==> heads[i] != null
  {
    i := from;
    while i < size && heads[i] == null
      invariant from <= i && (from < i ==> i <= size)
      invariant forall k :: from <= k < i ==> heads[k] == null
    {
      i := i + 1;
    }
  }

  class Iterator<K(==), V> {
    const m: Map<K, V>
    var bucketIndex: nat
    var current: Entry?<K, V>
    ghost var n: nat

    /** The iterator stands at element n of the order of iteration, or past the last. */
    ghost predicate Valid()
      reads this, m, m.buckets, m.table.cells
    {
      && m.Valid() && n <= |Order(m.table)|
      && current == (if n < |Order(m.table)| then Order(m.table)[n] else null)
      && (if current != null then exists j: nat :: Stands(j) else bucketIndex >= |m.table.chains|)
    }

    ghost predicate Stands(j: nat)
      reads this, m
    {
      && bucketIndex < |m.table.chains| && j < |m.table.chains[bucketIndex]|
      && current == m.table.chains[bucketIndex][j] && n == |Flatten(m.table.chains[..bucketIndex])| + j
    }

    /** Element n is the first of bucket i or of a later one. */
    ghost predicate Before(i: nat)
      reads this, m
    {
      n == if i < |m.table.chains| then |Flatten(m.table.chains[..i])| else |Order(m.table)|
    }

    constructor (m: Map<K, V>)
      requires m.Valid()
      ensures this.m == m && Valid() && n == 0
    {
      this.m, bucketIndex, current, n := m, 0, null, 0;
      new;
      FindBucket();
    }

    /** The loop to the next bucket that is not empty. */
    method FindBucket()
      requires m.Valid() && Before(bucketIndex)
      modifies this`bucketIndex, this`current
      ensures Valid()
    {
      hide Stored, Indexed, AllBehind, Order, Flatten;
      m.MoreParts();
      ghost var from := bucketIndex;
      bucketIndex := FirstFrom(m.buckets, m.bucketsSize, bucketIndex);
      NothingBetween(from, bucketIndex);
      if bucketIndex < m.bucketsSize {
        current := m.buckets[bucketIndex];
        StandsFirst();
      } else {
        current := null;
      }
    }

    lemma NothingBetween(i: nat, j: nat)
      requires m.Valid() && Before(i) && i <= j && (i < j ==> j <= m.buckets.Length)
      requires forall k :: i <= k < j ==> m.buckets[k] == null
      ensures Before(j)
    {
      if i < j {
        var chains := m.table.chains;
        forall k | i <= k < j ensures chains[k] == [] { m.HeadOf(m.buckets, m.table, k); }
        EmptyParts(chains, i, j);
        assert chains[..|chains|] == chains;
      }
    }

    lemma StandsFirst()
      requires m.Valid() && Before(bucketIndex) && bucketIndex < m.bucketsSize
      requires current != null && current == m.buckets[bucketIndex]
      ensures Stands(0) && Valid()
    {
      m.HeadOf(m.buckets, m.table, bucketIndex);
      FlattenAt(m.table.chains, bucketIndex, 0);
      assert Stands(0);
    }

    /** Moves on by exactly one entry; false at the end. */
    method Next() returns (more: bool)
      requires Valid()
      modifies this`bucketIndex, this`current, this`n
      ensures Valid() && n == (if old(n) < |Order(m.table)| then old(n) + 1 else old(n))
      ensures more == (n < |Order(m.table)|)
    {
      hide Map.Valid, Flatten, Order;
      if current != null {
        ghost var j: nat :| Stands(j);
        AfterElement(j);
        current, n := current.next, n + 1;
        if current != null {
          assert Stands(j + 1);
          return true;
        }
      }
      bucketIndex := bucketIndex + 1;
      FindBucket();
      more := current != null;
    }

    lemma AfterElement(j: nat)
      requires m.Valid() && current != null && Stands(j)
      ensures var c, chains := m.table.chains[bucketIndex], m.table.chains;
              && n < |Order(m.table)|
              && current.next == (if j + 1 < |c| then c[j + 1] else null)
              && (j + 1 < |c| ==> n + 1 < |Order(m.table)| && Order(m.table)[n + 1] == c[j + 1])
              && (j + 1 == |c| ==>
                    n + 1 == if bucketIndex + 1 < |chains| then |Flatten(chains[..bucketIndex + 1])| else |Order(m.table)|)
    {
      m.HeadOf(m.buckets, m.table, bucketIndex);
      assert NextIs(m.table.chains[bucketIndex], j);
      hide Map.Valid, Stored, Behind, NextIs, Indexed;
      PlaceOf(m.table.chains, bucketIndex, j);
    }
  }

  /** Where element j of part i, and what comes behind it, stand in the whole. */
  lemma PlaceOf<T>(s: seq<seq<T>>, i: nat, j: nat)
    requires i < |s| && j < |s[i]|
    ensures var n := |Flatten(s[..i])| + j;
            && n < |Flatten(s)|
            && (j + 1 < |s[i]| ==> n + 1 < |Flatten(s)| && Flatten(s)[n + 1] == s[i][j + 1])
            && (j + 1 == |s[i]| ==> n + 1 == if i + 1 < |s| then |Flatten(s[..i + 1])| else |Flatten(s)|)
  {
    FlattenAt(s, i, j);
    if j + 1 < |s[i]| { FlattenAt(s, i, j + 1); }
    assert s[..i + 1][..i] == s[..i];
    assert s[..|s|] == s;
  }
}
