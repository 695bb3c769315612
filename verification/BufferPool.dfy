/** The buffer pool of source/utils/clog_buffer_pool.c: a linked free list that may grow without bound, shrinks
  * when too little of it is in use, and is finalized in two phases.  Each call is one atomic step; without
  * `memory` any allocation may be refused.
  *
  * Ghost fields: `books` (the free list, and the pool and temporary buffers in callers' hands), `live` (all
  * buffers allocated and not yet freed), `freed` (the pool itself has been freed).
  */
module BufferPool {
  import opened Common

  datatype Kind = FromPool | Temporary

  datatype PoolState = Disabled | Running | Finalizing

  datatype Result = Success | InvalidParam | NoMemory | NotCompleted

  class Buffer {
    const kind: Kind
    const size: nat
    var next: Buffer?

    constructor (kind: Kind, size: nat)
      ensures this.kind == kind && this.size == size && next == null
    {
      this.kind, this.size, next := kind, size, null;
    }
  }

  ghost predicate NextIs(s: seq<Buffer>, j: nat)
    requires j < |s|
    reads s
  {
    s[j].next == if j + 1 < |s| then s[j + 1] else null
  }

  /** `head` starts a list of exactly these buffers. */
  ghost predicate Linked(head: Buffer?, s: seq<Buffer>)
    reads s
  {
    && head == (if s == [] then null else s[0])
    && forall j :: 0 <= j < |s| ==> NextIs(s, j)
  }

  lemma LinkedTail(s: seq<Buffer>)
    requires s != [] && Linked(s[0], s)
    ensures Linked(s[0].next, s[1..])
  {
    assert NextIs(s, 0);
    forall j | 0 <= j < |s[1..]| ensures NextIs(s[1..], j) { assert NextIs(s, j + 1); }
  }

  lemma LinkedCons(b: Buffer, s: seq<Buffer>)
    requires Linked(b.next, s)
    ensures Linked(b, [b] + s)
  {
    var all := [b] + s;
    forall j | 0 <= j < |all| ensures NextIs(all, j) {
      if j > 0 { assert NextIs(s, j - 1); }
    }
  }

  // ----- Shrinking, as numbers -----

  /** Capacity and free count after a release into a running pool that manages itself. */
  function AfterRelease(threshold: nat, init: nat, capacity: nat, free: nat): (nat, nat)
    requires free < capacity
  {
    if 100 - free * 100 / capacity > threshold || capacity == init then (capacity, free + 1) else (capacity - 1, free)
  }

  /** ... after n releases of outstanding buffers. */
  function AfterReleases(threshold: nat, init: nat, capacity: nat, free: nat, n: nat): (nat, nat)
    requires free + n <= capacity
    decreases n
  {
    if n == 0 then (capacity, free)
    else
      var next := AfterRelease(threshold, init, capacity, free);
      AfterReleases(threshold, init, next.0, next.1, n - 1)
  }

  function Max(a: nat, b: nat): nat {
    if a < b then b else a
  }

  function CeilDiv(a: nat, b: nat): nat
    requires b > 0
  {
    (a + b - 1) / b
  }

  lemma MulMonotone(a: nat, b: nat, c: nat)
    requires a <= b
    ensures a * c <= b * c
  {
    assert b * c == a * c + (b - a) * c;
  }

  lemma QuotientBelow(x: nat, c: nat, m: nat)
    requires c > 0
    ensures x / c < m <==> x < m * c
  {
    var q := x / c;
    assert x == q * c + x % c;
    if q < m {
      MulMonotone(q + 1, m, c);
      assert (q + 1) * c == q * c + c;
    } else {
      MulMonotone(m, q, c);
    }
  }

  /** The test of the occupancy rate without its rounding. */
  lemma RateMeans(threshold: nat, capacity: nat, free: nat)
    requires free < capacity && threshold < 100
    ensures 100 - free * 100 / capacity > threshold <==> free * 100 < (100 - threshold) * capacity
  {
    QuotientBelow(free * 100, capacity, 100 - threshold);
  }

  /** One release keeps the buffer if and only if less than the given share of the pool is free, or the pool
    * has its initial size; else the pool loses it. */
  lemma KeptExactly(threshold: nat, init: nat, capacity: nat, free: nat)
    requires free < capacity && threshold < 100
    ensures AfterRelease(threshold, init, capacity, free) ==
            if free * 100 < (100 - threshold) * capacity || capacity == init then (capacity, free + 1)
            else (capacity - 1, free)
  {
    RateMeans(threshold, capacity, free);
  }

  /** At its initial size the pool keeps every buffer. */
  lemma {:induction false} AtInitialSize(threshold: nat, capacity: nat, free: nat)
    requires free <= capacity
    ensures AfterReleases(threshold, capacity, capacity, free, capacity - free) == (capacity, capacity)
    decreases capacity - free
  {
    if free < capacity { AtInitialSize(threshold, capacity, free + 1); }
  }

  /** Once enough buffers are free, releases shrink it. */
  lemma {:induction false} Shrinking(threshold: nat, init: nat, capacity: nat, free: nat)
    requires free <= capacity && init <= capacity && threshold < 100
    requires free * 100 >= (100 - threshold) * capacity
    ensures AfterReleases(threshold, init, capacity, free, capacity - free) == (Max(init, free), Max(init, free))
    decreases capacity
  {
    if capacity == init {
      AtInitialSize(threshold, capacity, free);
    } else if free < capacity {
      RateMeans(threshold, capacity, free);
      MulMonotone(capacity - 1, capacity, 100 - threshold);
      Shrinking(threshold, init, capacity - 1, free);
    }
  }

  /** Until then it keeps them. */
  lemma {:induction false} Filling(threshold: nat, init: nat, capacity: nat, free: nat)
    requires free <= capacity && init <= capacity && 0 < threshold < 100 && capacity > 0
    requires free <= CeilDiv((100 - threshold) * capacity, 100)
    ensures var c := Max(init, CeilDiv((100 - threshold) * capacity, 100));
            AfterReleases(threshold, init, capacity, free, capacity - free) == (c, c)
    decreases capacity - free
  {
    var m := (100 - threshold) * capacity;
    assert m < 100 * capacity;
    var goal := CeilDiv(m, 100);
    if capacity == init {
      AtInitialSize(threshold, capacity, free);
    } else if free * 100 >= m {
      Shrinking(threshold, init, capacity, free);
    } else {
      RateMeans(threshold, capacity, free);
      Filling(threshold, init, capacity, free + 1);
    }
  }

  /** With nothing free and N buffers out, N releases leave a pool that manages itself with this capacity,
    * all of it free. */
  lemma ShrinkClosedForm(threshold: nat, init: nat, n: nat)
    requires 0 < threshold < 100 && init <= n && n > 0
    ensures var c := Max(init, CeilDiv(n * (100 - threshold), 100));
            AfterReleases(threshold, init, n, 0, n) == (c, c)
  {
    assert n * (100 - threshold) == (100 - threshold) * n;
    Filling(threshold, init, n, 0);
  }

  // ----- Who has which buffer -----

  datatype Books = Books(free: seq<Buffer>, out: set<Buffer>, tmps: set<Buffer>)

  ghost predicate Placed(g: Books, b: Buffer) {
    if b.kind.Temporary? then b in g.tmps && b !in g.out && b !in g.free
    else b !in g.tmps && (b in g.out <==> b !in g.free)
  }

  /** Every live buffer is in one place, and in the right one for its kind. */
  ghost predicate BooksOk(g: Books, live: set<Buffer>) {
    && Distinct(g.free)
    && (forall b :: b in live ==> Placed(g, b))
    && (forall b :: b in g.free ==> b in live) && g.out <= live && g.tmps <= live
  }

  ghost function Popped(g: Books): Books
    requires g.free != []
  {
    g.(free := g.free[1..], out := g.out + {g.free[0]})
  }

  lemma PoppedOk(g: Books, live: set<Buffer>)
    requires BooksOk(g, live) && g.free != []
    ensures BooksOk(Popped(g), live) && |Popped(g).out| == |g.out| + 1
    ensures g.free[0] in live && g.free[0] !in g.out + g.tmps && g.free[0] !in g.free[1..]
  {
    var b := g.free[0];
    assert b in g.free && b !in g.free[1..] && Placed(g, b);
    forall x | x in live ensures Placed(Popped(g), x) {
      assert Placed(g, x) && (x != b ==> (x in g.free <==> x in g.free[1..]));
    }
  }

  ghost function Pushed(g: Books, b: Buffer): Books {
    g.(free := [b] + g.free, out := g.out - {b})
  }

  lemma PushedOk(g: Books, live: set<Buffer>, b: Buffer)
    requires BooksOk(g, live) && b in g.out
    ensures BooksOk(Pushed(g, b), live) && |Pushed(g, b).out| == |g.out| - 1
    ensures b !in g.free && b.kind.FromPool?
  {
    assert b in live && Placed(g, b);
    forall x | x in live ensures Placed(Pushed(g, b), x) {
      assert Placed(g, x) && (x != b ==> (x in g.free <==> x in [b] + g.free));
    }
  }

  lemma LentOk(g: Books, live: set<Buffer>, b: Buffer)
    requires BooksOk(g, live) && b !in live
    ensures b.kind.FromPool? ==> BooksOk(g.(out := g.out + {b}), live + {b}) && |g.out + {b}| == |g.out| + 1
    ensures b.kind.Temporary? ==> BooksOk(g.(tmps := g.tmps + {b}), live + {b})
    ensures b !in g.out + g.tmps
  {
    assert forall x :: x in live ==> Placed(g, x);
  }

  lemma GivenBackOk(g: Books, live: set<Buffer>, b: Buffer)
    requires BooksOk(g, live) && b in g.out + g.tmps
    ensures b in live && Placed(g, b)
    ensures b in g.out ==> BooksOk(g.(out := g.out - {b}), live - {b}) && |g.out - {b}| == |g.out| - 1
    ensures b in g.tmps ==> BooksOk(g.(tmps := g.tmps - {b}), live - {b})
  {
    assert b in live && Placed(g, b);
    assert forall x :: x in live ==> Placed(g, x);
  }

  lemma DroppedOk(g: Books, live: set<Buffer>)
    requires BooksOk(g, live)
    ensures Distinct(g.free) && Elements(g.free) <= live
    ensures BooksOk(g.(free := []), live - Elements(g.free)) && live - Elements(g.free) == g.out + g.tmps
  {
    assert forall x :: x in live ==> Placed(g, x);
  }

  // ----- The pool -----

  class Pool {
    var head: Buffer?
    var state: PoolState
    var freeCount: nat
    var capacity: nat
    var initCapacity: nat
    var threshold: nat
    var autoManager: bool
    var itemSize: nat
    ghost var books: Books
    ghost var live: set<Buffer>
    ghost var freed: bool

    ghost predicate CountsOk()
      reads this`state, this`freeCount, this`capacity, this`initCapacity, this`threshold, this`autoManager, this`books,
            this`freed
    {
      && freeCount == |books.free| && capacity == |books.free| + |books.out|
      && (freed <==> state.Disabled?)
      && match state
         case Running =>
           if autoManager then initCapacity <= capacity && 0 < threshold < 100 else initCapacity == capacity
         case Finalizing => books.free == [] && capacity > 0 && initCapacity == 0 && !autoManager
         case Disabled => capacity == 0 && !autoManager
    }

    /** While the pool runs its buffers have room for an item; finalization forgets the size. */
    ghost predicate SizesOk()
      reads this`state, this`itemSize, this`live
    {
      if state.Running? then forall b :: b in live && b.kind.FromPool? ==> b.size == itemSize else itemSize == 0
    }

    ghost predicate Valid()
      reads this, books.free
    {
      Linked(head, books.free) && BooksOk(books, live) && CountsOk() && SizesOk()
    }

    /** The pool's memory and the first assignments of initialize. */
    constructor (itemSize: nat, initCapacity: nat, autoManager: bool, threshold: nat)
      ensures this.itemSize == itemSize
      ensures head == null && state.Running? && freeCount == capacity == initCapacity == this.initCapacity
      ensures this.autoManager == autoManager && this.threshold == threshold
      ensures books == Books([], {}, {}) && live == {} && !freed
    {
      head, state, freeCount, capacity, this.initCapacity := null, Running, initCapacity, initCapacity, initCapacity;
      this.autoManager, this.threshold, this.itemSize := autoManager, threshold, itemSize;
      books, live, freed := Books([], {}, {}), {}, false;
    }

    method MallocSingle(kind: Kind, memory: bool) returns (b: Buffer?)
      modifies this`live
      ensures memory ==> b != null
      ensures b == null ==> live == old(live)
      ensures b != null ==> fresh(b) && b.kind == kind && b.size == itemSize && b.next == null && live == old(live) + {b}
    {
      var got := Malloc(memory);
      if !got {
        return null;
      }
      b := new Buffer(kind, itemSize);
      live := live + {b};
    }

    method Free(b: Buffer)
      requires b in live
      modifies this`live
      ensures live == old(live) - {b}
    {
      live := live - {b};
    }

    method FreePool()
      requires !freed
      modifies this`freed
      ensures freed
    {
      freed := true;
    }

    method LinkSecond(list: Buffer, buffer: Buffer, ghost s: seq<Buffer>)
      requires s != [] && Linked(list, s) && Distinct(s) && buffer !in s
      modifies list, buffer
      ensures Linked(list, [list] + ([buffer] + s[1..])) && Distinct([list] + ([buffer] + s[1..]))
    {
      LinkedTail(s);
      assert list !in s[1..];
      buffer.next := list.next;
      list.next := buffer;
      LinkedCons(buffer, s[1..]);
      LinkedCons(list, [buffer] + s[1..]);
    }

    method FreeList(list: Buffer?, ghost s: seq<Buffer>)
      requires Linked(list, s) && Distinct(s) && Elements(s) <= live
      modifies this`live
      ensures live == old(live) - Elements(s)
    {
      var b := list;
      ghost var rest := s;
      while b != null
        invariant Linked(b, rest) && Distinct(rest) && Elements(rest) <= Elements(s)
        invariant live == old(live) - (Elements(s) - Elements(rest))
        decreases |rest|
      {
        var next := b.next;
        assert rest[0] == b && b in Elements(rest) && b !in rest[1..];
        LinkedTail(rest);
        assert Elements(rest) == {b} + Elements(rest[1..]);
        Free(b);
        b, rest := next, rest[1..];
      }
    }

    /** A chain of num buffers, or nothing: then what had been allocated has been freed again. */
    method MallocBatch(num: nat, memory: bool) returns (list: Buffer?, ghost s: seq<Buffer>)
      modifies this`live
      ensures Linked(list, s) && Distinct(s) && fresh(Elements(s))
      ensures forall b :: b in s ==> b.kind.FromPool? && b.size == itemSize
      ensures |s| == num || (s == [] && !memory)
      ensures live == old(live) + Elements(s)
    {
      var count := 0;
      list, s := null, [];
      while count < num
        invariant count <= num && |s| == count
        invariant Linked(list, s) && Distinct(s) && live == old(live) + Elements(s)
        invariant forall b :: b in s ==> b.kind.FromPool? && b.size == itemSize && fresh(b)
      {
        var buffer := MallocSingle(FromPool, memory);
        if buffer == null {
          FreeList(list, s);
          return null, [];
        }
        if list == null {
          list, s := buffer, [buffer];
        } else {
          ghost var s' := [list] + ([buffer] + s[1..]);
          assert list in s && forall b :: b in s' <==> b in s || b == buffer;
          LinkSecond(list, buffer, s);
          s := s';
        }
        count := count + 1;
      }
    }

    method Acquire(memory: bool) returns (b: Buffer?)
      requires Valid() && !freed
      modifies this`head, this`freeCount, this`capacity, this`books, this`live, if head == null then {} else {head}
      ensures Valid() && (memory ==> b != null)
      ensures b == null ==> books == old(books) && live == old(live) && (state.Running? ==> old(books).free == [])
      ensures b != null ==> b !in old(books).out + old(books).tmps && b in live
      ensures b != null ==> b.size == if state.Running? then itemSize else 0
      ensures state.Running? && old(books).free != [] ==>
                b == old(books).free[0] && books == Popped(old(books)) && live == old(live)
      ensures state.Running? && old(books).free == [] && autoManager && b != null ==>
                fresh(b) && books == old(books).(out := old(books).out + {b})
      ensures !state.Running? || (old(books).free == [] && !autoManager) ==>
                b == null || (fresh(b) && books == old(books).(tmps := old(books).tmps + {b}))
    {
      hide BooksOk, Linked;
      HeadMeans();
      if !state.Running? {
        b := MallocTmp(memory);
      } else if head != null {
        b := Pop();
      } else if autoManager {
        b := Expand(memory);
      } else {
        b := MallocTmp(memory);
      }
    }

    lemma HeadMeans()
      requires Valid()
      ensures head == if books.free == [] then null else books.free[0]
    {}

    method Pop() returns (b: Buffer)
      requires Valid() && head != null
      modifies this`head, this`freeCount, this`books, head
      ensures Valid() && old(books).free != [] && b == old(books).free[0] && books == Popped(old(books))
      ensures b !in old(books).out + old(books).tmps && b in live && (state.Running? ==> b.size == itemSize)
    {
      HeadMeans();
      PoppedOk(books, live);
      LinkedTail(books.free);
      assert Linked(books.free[0].next, books.free[1..]);
      hide BooksOk;
      b := head;
      head := b.next;
      freeCount := freeCount - 1;
      books := Popped(books);
      b.next := null;
    }

    method Expand(memory: bool) returns (b: Buffer?)
      requires Valid() && state.Running? && autoManager
      modifies this`capacity, this`books, this`live
      ensures Valid() && (b == null ==> !memory && books == old(books) && live == old(live))
      ensures b != null ==> fresh(b) && b in live && b.size == itemSize && b !in old(books).out + old(books).tmps
                            && books == old(books).(out := old(books).out + {b})
    {
      hide Linked, BooksOk;
      InUse();
      b := MallocSingle(FromPool, memory);
      if b != null {
        var made: Buffer := b;
        LentOk(books, old(live), made);
        capacity := capacity + 1;
        books := books.(out := books.out + {made});
        assert CountsOk();
        assert Valid();
      }
    }

    method MallocTmp(memory: bool) returns (b: Buffer?)
      requires Valid()
      modifies this`live, this`books
      ensures Valid() && (b == null ==> !memory && books == old(books) && live == old(live))
      ensures b != null ==> fresh(b) && b in live && b.size == itemSize && b !in old(books).out + old(books).tmps
                            && books == old(books).(tmps := old(books).tmps + {b})
    {
      hide Linked, BooksOk;
      b := MallocSingle(Temporary, memory);
      if b != null {
        LentOk(books, old(live), b);
        books := books.(tmps := books.tmps + {b});
      }
    }

    method Push(b: Buffer)
      requires Valid() && b in books.out && state.Running?
      modifies this`head, this`freeCount, this`books, b
      ensures Valid() && books == Pushed(old(books), b)
    {
      hide BooksOk;
      PushedOk(books, live, b);
      b.next := head;
      head := b;
      LinkedCons(b, books.free);
      freeCount := freeCount + 1;
      books := Pushed(books, b);
    }

    /** False when the pool is gone: the source then returns a null pool. */
    method Release(b: Buffer?) returns (kept: bool)
      requires Valid() && (b == null || b in books.out + books.tmps)
      modifies this`head, this`state, this`freeCount, this`capacity, this`books, this`live, this`freed,
               if b == null then {} else {b}
      ensures Valid()
      ensures b == null ==> !kept && books == old(books) && live == old(live) && state == old(state)
      ensures b in old(books).tmps ==> kept && state == old(state) && live == old(live) - {b}
                                       && books == old(books).(tmps := old(books).tmps - {b})
      ensures b in old(books).out && old(state).Finalizing? ==>
                live == old(live) - {b} && books == old(books).(out := old(books).out - {b})
                && kept == (books.out != {}) && freed == !kept && state == if kept then Finalizing else Disabled
      ensures b in old(books).out && old(state).Running? ==> kept && state.Running?
      ensures b in old(books).out && old(state).Running? && !autoManager ==>
                books == Pushed(old(books), b) && live == old(live)
      ensures b in old(books).out && old(state).Running? && autoManager ==>
                old(freeCount) < old(capacity)
                && (capacity, freeCount) == AfterRelease(threshold, initCapacity, old(capacity), old(freeCount))
                && if capacity < old(capacity)
                   then books == old(books).(out := old(books).out - {b}) && live == old(live) - {b}
                   else books == Pushed(old(books), b) && live == old(live)
    {
      hide BooksOk, Linked;
      if b == null {
        return false;
      }
      GivenBackOk(books, live, b);
      if b.kind.Temporary? {
        Free(b);
        books := books.(tmps := books.tmps - {b});
        return true;
      }
      InUse();
      if state.Finalizing? {
        kept := ReleaseLast(b);
      } else if !autoManager {
        Push(b);
        kept := true;
      } else {
        ReleaseManaged(b);
        kept := true;
      }
    }

    /** The division by the capacity is safe while a buffer is out. */
    lemma InUse()
      requires CountsOk()
      ensures books.out != {} ==> freeCount < capacity && !state.Disabled?
    {}

    method ReleaseLast(b: Buffer) returns (kept: bool)
      requires Valid() && b in books.out && state.Finalizing?
      modifies this`state, this`capacity, this`books, this`live, this`freed
      ensures Valid() && live == old(live) - {b} && books == old(books).(out := old(books).out - {b})
      ensures kept == (books.out != {}) && freed == !kept && state == if kept then Finalizing else Disabled
    {
      hide BooksOk, Linked;
      GivenBackOk(books, live, b);
      Free(b);
      books := books.(out := books.out - {b});
      capacity := capacity - 1;
      if capacity == 0 {
        state := Disabled;
        FreePool();
        return false;
      }
      kept := true;
    }

    method ReleaseManaged(b: Buffer)
      requires Valid() && b in books.out && state.Running? && autoManager
      modifies this`head, this`freeCount, this`capacity, this`books, this`live, b
      ensures Valid() && old(freeCount) < old(capacity)
      ensures (capacity, freeCount) == AfterRelease(threshold, initCapacity, old(capacity), old(freeCount))
      ensures if capacity < old(capacity)
              then books == old(books).(out := old(books).out - {b}) && live == old(live) - {b}
              else books == Pushed(old(books), b) && live == old(live)
    {
      hide BooksOk, Linked;
      InUse();
      GivenBackOk(books, live, b);
      var rate := 100 - freeCount * 100 / capacity;
      if rate > threshold || capacity == initCapacity {
        Push(b);
      } else {
        capacity := capacity - 1;
        Free(b);
        books := books.(out := books.out - {b});
      }
    }

    /** The loop of finalize. */
    method DropAll(list: Buffer?, ghost s: seq<Buffer>)
      requires Linked(list, s) && Distinct(s) && Elements(s) <= live && |s| <= freeCount && |s| <= capacity
      modifies this`live, this`freeCount, this`capacity
      ensures live == old(live) - Elements(s) && freeCount == old(freeCount) - |s| && capacity == old(capacity) - |s|
    {
      var buffer := list;
      ghost var rest := s;
      while buffer != null
        invariant Linked(buffer, rest) && Distinct(rest) && Elements(rest) <= Elements(s)
        invariant live == old(live) - (Elements(s) - Elements(rest)) && |rest| <= freeCount && |rest| <= capacity
        invariant freeCount - |rest| == old(freeCount) - |s| && capacity - |rest| == old(capacity) - |s|
        decreases |rest|
      {
        var next := buffer.next;
        assert rest[0] == buffer && buffer in Elements(rest) && buffer !in rest[1..];
        LinkedTail(rest);
        assert Elements(rest) == {buffer} + Elements(rest[1..]);
        Free(buffer);
        buffer, rest := next, rest[1..];
        freeCount, capacity := freeCount - 1, capacity - 1;
      }
    }

    /** Finalize as initialize calls it, before the free list is in place. */
    method FinalizeEmpty()
      requires head == null && !freed
      modifies this
      ensures live == old(live) && freed == (old(capacity) == 0)
    {
      state := Finalizing;
      DropAll(head, []);
      initCapacity, autoManager, itemSize := 0, false, 0;
      if capacity == 0 {
        state := Disabled;
        FreePool();
      }
    }

    /** Called again before the pool is gone, it finds nothing more to free and says so again. */
    method Finalize() returns (res: Result)
      requires Valid() && !freed
      modifies this`head, this`state, this`freeCount, this`capacity, this`initCapacity, this`autoManager, this`books,
               this`itemSize, this`live, this`freed
      ensures Valid() && books == old(books).(free := []) && live == books.out + books.tmps
      ensures capacity == |books.out| && initCapacity == 0 && !autoManager && itemSize == 0
      ensures res == (if books.out == {} then Success else NotCompleted)
      ensures freed == (books.out == {}) && state == if books.out == {} then Disabled else Finalizing
    {
      hide BooksOk, Linked;
      DropFree();
      res := NotCompleted;
      if capacity == 0 {
        state := Disabled;
        FreePool();
        res := Success;
      }
    }

    method DropFree()
      requires Valid() && !freed
      modifies this`head, this`state, this`freeCount, this`capacity, this`initCapacity, this`autoManager, this`itemSize,
               this`books, this`live
      ensures Linked(head, books.free) && BooksOk(books, live) && !freed
      ensures books == old(books).(free := []) && live == books.out + books.tmps && freeCount == 0
      ensures capacity == |books.out| && initCapacity == 0 && !autoManager && itemSize == 0 && state.Finalizing?
    {
      hide BooksOk, Linked;
      ghost var g, l := books, live;
      DroppedOk(g, l);
      assert Linked(head, g.free) && freeCount == |g.free| && capacity == |g.free| + |g.out|;
      hide CountsOk, SizesOk, Elements;
      state := Finalizing;
      var list := head;
      head := null;
      DropAll(list, g.free);
      books := g.(free := []);
      initCapacity, autoManager, itemSize := 0, false, 0;
      EmptyLinked();
      assert live == l - Elements(g.free);
    }

    lemma EmptyLinked()
      ensures Linked(null, [])
    {}
  }

  /** clog_buffer_pool_initialize.  `made` is the pool that was allocated, if one was: on success it is handed
    * over, otherwise it has been freed, unless the batch failed and init_capacity was not zero. */
  method Initialize(itemSize: nat, initCapacity: nat, autoManager: bool, threshold: nat, memory: bool)
      returns (res: Result, pool: Pool?, ghost made: Pool?)
    ensures res.InvalidParam? <==> autoManager && (threshold == 0 || threshold >= 100)
    ensures pool != null <==> res.Success?
    ensures res.Success? || res.InvalidParam? || (res.NoMemory? && (!memory || initCapacity == 0))
    ensures res.Success? ==>
              fresh(pool) && pool == made && pool.Valid() && pool.state.Running? && |pool.books.free| == pool.capacity == initCapacity
              && initCapacity > 0 && pool.books.out == {} && pool.books.tmps == {} && pool.initCapacity == initCapacity
              && pool.autoManager == autoManager && pool.threshold == threshold && pool.itemSize == itemSize
    ensures res.NoMemory? && made != null ==> made.live == {} && made.freed == (initCapacity == 0)
  {
    pool, made := null, null;
    if autoManager && (threshold == 0 || threshold >= 100) {
      return InvalidParam, null, null;
    }
    var got := Malloc(memory);
    if !got {
      return NoMemory, null, null;
    }
    var tmp := new Pool(itemSize, initCapacity, autoManager, threshold);
    made := tmp;
    var buffer;
    ghost var s;
    buffer, s := tmp.MallocBatch(initCapacity, memory);
    if buffer == null {
      tmp.FinalizeEmpty();
      return NoMemory, null, tmp;
    }
    tmp.head := buffer;
    tmp.books := Books(s, {}, {});
    res, pool := Success, tmp;
  }

  method ReleaseOne(pool: Pool, b: Buffer, ghost left: nat)
    requires pool.Valid() && pool.state.Running? && pool.autoManager && b in pool.books.out && |pool.books.out| == left
    requires pool.freeCount + left <= pool.capacity
    modifies pool, b
    ensures pool.Valid() && pool.state.Running? && pool.autoManager == old(pool.autoManager)
    ensures pool.threshold == old(pool.threshold) && pool.initCapacity == old(pool.initCapacity)
    ensures pool.books.out == old(pool.books.out) - {b} && |pool.books.out| == left - 1
    ensures pool.books.tmps == old(pool.books.tmps) && pool.freeCount + (left - 1) <= pool.capacity
    ensures AfterReleases(pool.threshold, pool.initCapacity, pool.capacity, pool.freeCount, left - 1) ==
            AfterReleases(pool.threshold, pool.initCapacity, old(pool.capacity), old(pool.freeCount), left)
  {
    hide BooksOk, Linked;
    var kept := pool.Release(b);
  }

  /** Callers give back, in any order, all the buffers of a pool that manages itself and has none free: the
    * closed form, for the pool itself. */
  method ReleaseAll(pool: Pool, bs: seq<Buffer>)
    requires pool.Valid() && pool.state.Running? && pool.autoManager && pool.books.free == []
    requires bs != [] && Distinct(bs) && Elements(bs) == pool.books.out
    modifies pool, Elements(bs)
    ensures pool.Valid() && pool.state.Running? && pool.books.out == {} && pool.books.tmps == old(pool.books.tmps)
    ensures pool.threshold < 100 && pool.capacity == pool.freeCount == |pool.books.free|
            == Max(pool.initCapacity, CeilDiv(|bs| * (100 - pool.threshold), 100))
  {
    hide BooksOk, Linked, CeilDiv, Max, AfterReleases;
    CountElements(bs);
    ShrinkClosedForm(pool.threshold, pool.initCapacity, |bs|);
    var i := 0;
    while i < |bs|
      invariant i <= |bs| && pool.Valid() && pool.state.Running? && pool.autoManager
      invariant pool.threshold == old(pool.threshold) && pool.initCapacity == old(pool.initCapacity)
      invariant pool.books.out == Elements(bs[i..]) && |pool.books.out| == |bs| - i && pool.books.tmps == old(pool.books.tmps)
      invariant pool.freeCount + (|bs| - i) <= pool.capacity
      invariant AfterReleases(pool.threshold, pool.initCapacity, pool.capacity, pool.freeCount, |bs| - i) ==
                AfterReleases(pool.threshold, pool.initCapacity, |bs|, 0, |bs|)
    {
      assert bs[i..][0] == bs[i] && bs[i] in bs[i..];
      assert Elements(bs[i..]) - {bs[i]} == Elements(bs[i + 1..]);
      ReleaseOne(pool, bs[i], |bs| - i);
      i := i + 1;
    }
    assert bs[i..] == [];
    NothingLeft(pool.threshold, pool.initCapacity, pool.capacity, pool.freeCount);
  }

  lemma NothingLeft(threshold: nat, init: nat, capacity: nat, free: nat)
    requires free <= capacity
    ensures AfterReleases(threshold, init, capacity, free, 0) == (capacity, free)
  {}

  lemma {:induction false} CountElements(s: seq<Buffer>)
    requires Distinct(s)
    ensures |Elements(s)| == |s|
  {
    if s != [] {
      assert Distinct(s[1..]) && s[0] !in s[1..];
      CountElements(s[1..]);
      assert Elements(s) == Elements(s[1..]) + {s[0]};
    }
  }
}
