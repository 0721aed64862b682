/**
 The dynamic memory of memory.c: four pools of equal blocks, each with a free list linked through the
 blocks themselves.  First the pools on values, then the linked lists that refine them.
 */
module MemPool {
  import opened Prelude

  const MEMORY_AREA_NUM: nat := 4

  /** `sizeof(kzmem_block)`: a 32-bit pointer and a 16-bit int, padded to a multiple of four. */
  const HEADER: nat := 8

  type PoolId = i: nat | i < 4

  function SizeOf(i: PoolId): (r: nat) {
    if i == 0 then 16 else if i == 1 then 64 else if i == 2 then 256 else 2048
  }

  function NumOf(i: PoolId): (r: nat) {
    if i == 3 then 16 else 32
  }

  /** The free list of each pool, first block first, and the blocks handed out from it. */
  datatype Pool = Pool(free: seq<int>, used: set<int>)

  type Pools = s: seq<Pool> | |s| == 4 witness seq(4, _ => Pool([], {}))

  /** The first pool at or after `i` whose blocks hold `size` bytes behind the header, or their number. */
  function Fit(size: int, i: nat): (r: nat)
    requires i <= MEMORY_AREA_NUM
    ensures i <= r <= MEMORY_AREA_NUM
    ensures forall j: PoolId :: i <= j < r ==> size < 0 || SizeOf(j) - HEADER < size
    ensures r < MEMORY_AREA_NUM ==> 0 <= size <= SizeOf(r) - HEADER
    decreases MEMORY_AREA_NUM - i
  {
    if i == MEMORY_AREA_NUM then i else if 0 <= size <= SizeOf(i) - HEADER then i else Fit(size, i + 1)
  }

  /** `kzmem_alloc`: the address behind the header of the first free block; `None` is a system down. */
  function Alloc(p: Pools, size: int): (r: Option<(Pools, int)>) {
    var i := Fit(size, 0);
    if i == MEMORY_AREA_NUM || p[i].free == [] then None
    else
      Some((Taken(p, i), p[i].free[0] + HEADER))
  }

  /** `kzmem_free` of a block of pool `i`. */
  function Free(p: Pools, i: PoolId, mem: int): (r: Pools) {
    p[i := Pool([mem - HEADER] + p[i].free, p[i].used - {mem - HEADER})]
  }

  /** The pool that has the block of `mem` in use, or the number of pools. */
  function PoolOf(p: Pools, mem: int): (r: nat)
    ensures r < MEMORY_AREA_NUM ==> mem - HEADER in p[r].used
    ensures r >= MEMORY_AREA_NUM ==> forall i: PoolId :: mem - HEADER !in p[i].used
  {
    var a := mem - HEADER;
    if a in p[0].used then 0 else if a in p[1].used then 1 else if a in p[2].used then 2 else if a in p[3].used then 3
    else MEMORY_AREA_NUM
  }

  /** `kzmem_free` of a block that is in use. */
  function Release(p: Pools, mem: int): (r: Pools) {
    var i := PoolOf(p, mem);
    if i < MEMORY_AREA_NUM then Free(p, i, mem) else p
  }

  /** Block `a` belongs to pool `i`, free or used. */
  ghost predicate Owned(p: Pools, i: PoolId, a: int) {
    a in p[i].free || a in p[i].used
  }

  /**
   Each block is in its pool once, free or in use, and blocks do not overlap.
   */
  ghost predicate PoolsOk(p: Pools) {
    && (forall i: PoolId :: NoDup(p[i].free))
    && (forall i: PoolId, a: int :: a in p[i].free ==> a !in p[i].used)
    && (forall i: PoolId :: |p[i].free| + |p[i].used| == NumOf(i))
    && (forall i: PoolId, j: PoolId, a: int, b: int :: Owned(p, i, a) && Owned(p, j, b) && (i != j || a != b) ==>
          a + SizeOf(i) <= b || b + SizeOf(j) <= a)
  }

  /** The same blocks, in whatever state. */
  ghost predicate SameBlocks(p: Pools, r: Pools) {
    forall i: PoolId, a: int :: Owned(p, i, a) <==> Owned(r, i, a)
  }

  // ---------------------------------------------------------------- properties

  /** The first free block of pool `i` handed out. */
  function Taken(p: Pools, i: PoolId): (r: Pools)
    requires p[i].free != []
  {
    p[i := Pool(p[i].free[1..], p[i].used + {p[i].free[0]})]
  }

  lemma TakeOk(p: Pools, i: PoolId)
    requires PoolsOk(p) && p[i].free != []
    ensures PoolsOk(Taken(p, i)) && SameBlocks(p, Taken(p, i))
  {
    var r, a := Taken(p, i), p[i].free[0];
    assert p[i].free == [a] + r[i].free;
    assert a in p[i].free && a !in p[i].used;
    forall j: PoolId, b: int | true
      ensures Owned(p, j, b) <==> Owned(r, j, b)
    {
    }
  }

  /** Allocation hands out one block that nobody has, of the smallest pool that fits, and keeps the pools in order. */
  lemma AllocOk(p: Pools, size: int)
    requires PoolsOk(p) && Alloc(p, size).Some?
    ensures var (r, mem) := Alloc(p, size).value;
            var i := Fit(size, 0);
            PoolsOk(r) && SameBlocks(p, r) && mem - HEADER !in p[i].used
            && r[i].used == p[i].used + {mem - HEADER} && (forall j: PoolId :: j != i ==> r[j] == p[j])
            && mem + size <= mem - HEADER + SizeOf(i)
  {
    TakeOk(p, Fit(size, 0));
  }

  /** Allocation fails exactly for a size that no pool holds, or when all blocks of the smallest fitting pool are in use. */
  lemma AllocFailsIff(p: Pools, size: int)
    requires PoolsOk(p)
    ensures Alloc(p, size) == None <==>
              size < 0 || size > 2040 || var i := Fit(size, 0); i < MEMORY_AREA_NUM && |p[i].used| == NumOf(i)
  {
    var i := Fit(size, 0);
    if 0 <= size <= 2040 {
      assert i <= 3 by {
        assert SizeOf(3) - HEADER == 2040;
      }
    }
  }

  /** The pool of a size, and when it is exhausted. */
  lemma PoolOfSize(p: Pools, size: int)
    requires PoolsOk(p)
    ensures 0 <= size <= 8 ==> Fit(size, 0) == 0 && (Alloc(p, size) == None <==> |p[0].used| == 32)
    ensures 9 <= size <= 56 ==> Fit(size, 0) == 1 && (Alloc(p, size) == None <==> |p[1].used| == 32)
    ensures 57 <= size <= 248 ==> Fit(size, 0) == 2 && (Alloc(p, size) == None <==> |p[2].used| == 32)
    ensures 249 <= size <= 2040 ==> Fit(size, 0) == 3 && (Alloc(p, size) == None <==> |p[3].used| == 16)
    ensures size < 0 || 2040 < size ==> Alloc(p, size) == None
  {
    hide PoolsOk;
    AllocFailsIff(p, size);
    assert SizeOf(0) == 16 && SizeOf(1) == 64 && SizeOf(2) == 256 && SizeOf(3) == 2048;
  }

  /** What an allocation takes, and what it leaves. */
  lemma AllocTakes(p: Pools, size: int)
    requires Alloc(p, size).Some?
    ensures Fit(size, 0) < MEMORY_AREA_NUM
    ensures var i, (r, mem) := Fit(size, 0), Alloc(p, size).value;
            p[i].free != [] && mem == p[i].free[0] + 8 && r == p[i := Pool(p[i].free[1..], p[i].used + {p[i].free[0]})]
  {
  }

  /** Giving back a block that is in use keeps the pools in order. */
  lemma FreeOk(p: Pools, i: PoolId, mem: int)
    requires PoolsOk(p) && mem - HEADER in p[i].used
    ensures PoolsOk(Free(p, i, mem)) && SameBlocks(p, Free(p, i, mem))
    ensures forall j: PoolId :: j != i ==> Free(p, i, mem)[j] == p[j]
  {
    var r := Free(p, i, mem);
    assert r[i].free[1..] == p[i].free;
    forall j: PoolId, b: int | true
      ensures Owned(p, j, b) <==> Owned(r, j, b)
    {
      assert b in r[i].free <==> b == mem - HEADER || b in p[i].free;
    }
  }

  /** A block given back at once leaves no trace. */
  lemma AllocThenFree(p: Pools, size: int)
    requires PoolsOk(p) && Alloc(p, size).Some?
    ensures var (r, mem) := Alloc(p, size).value;
            Fit(size, 0) < MEMORY_AREA_NUM && Free(r, Fit(size, 0), mem) == p
  {
    var (r, mem) := Alloc(p, size).value;
    var i := Fit(size, 0);
    var a := p[i].free[0];
    assert a !in p[i].used;
    assert p[i].free == [a] + p[i].free[1..];
    assert p[i].used + {a} - {a} == p[i].used;
  }

  /** The block given back last is handed out first. */
  lemma FreeThenAlloc(p: Pools, i: PoolId, mem: int, size: int)
    requires mem - HEADER in p[i].used && Fit(size, 0) == i
    ensures Alloc(Free(p, i, mem), size) == Some((p, mem))
  {
    var r := Free(p, i, mem);
    assert r[i].free[1..] == p[i].free;
    assert p[i].used - {mem - HEADER} + {mem - HEADER} == p[i].used;
    assert r[i := Pool(r[i].free[1..], r[i].used + {mem - HEADER})] == p;
  }

  // ---------------------------------------------------------------- runs

  datatype Request = Get(size: int) | Put(pool: PoolId, mem: int)

  ghost predicate RequestLegal(p: Pools, q: Request) {
    q.Put? ==> q.mem - HEADER in p[q.pool].used
  }

  function Serve(p: Pools, q: Request): (r: Option<Pools>) {
    match q
    case Get(size) => if Alloc(p, size) == None then None else Some(Alloc(p, size).value.0)
    case Put(i, mem) => Some(Free(p, i, mem))
  }

  /** Every block given back is in use, and nothing follows a system down. */
  ghost predicate RequestsLegal(p: Pools, qs: seq<Request>)
    decreases |qs|
  {
    qs == [] ||
    (RequestLegal(p, qs[0]) && match Serve(p, qs[0]) case None => |qs| == 1 case Some(r) => RequestsLegal(r, qs[1..]))
  }

  function ServeAll(p: Pools, qs: seq<Request>): (r: Option<Pools>)
    decreases |qs|
  {
    if qs == [] then Some(p)
    else match Serve(p, qs[0]) case None => None case Some(r) => ServeAll(r, qs[1..])
  }

  /** Along every run no block is lost, and none is both free and in use or handed out twice. */
  lemma {:induction false} RunOk(p: Pools, qs: seq<Request>)
    requires PoolsOk(p) && RequestsLegal(p, qs) && ServeAll(p, qs).Some?
    ensures PoolsOk(ServeAll(p, qs).value) && SameBlocks(p, ServeAll(p, qs).value)
    decreases |qs|
  {
    hide PoolsOk, Alloc, Free;
    if qs != [] {
      match qs[0] {
        case Get(size) => AllocOk(p, size);
        case Put(i, mem) => FreeOk(p, i, mem);
      }
      RunOk(Serve(p, qs[0]).value, qs[1..]);
    }
  }

  // ---------------------------------------------------------------- the linked lists

  /** `kzmem_block` */
  datatype Block = Block(next: Option<int>, size: int)

  ghost predicate ListRep(blocks: map<int, Block>, head: Option<int>, q: seq<int>) {
    && head == (if q == [] then None else Some(q[0]))
    && forall k :: 0 <= k < |q| ==> LinkedAt(blocks, q, k)
  }

  /** Block number `k` of a list points to the next one, the last to none. */
  ghost predicate LinkedAt(blocks: map<int, Block>, q: seq<int>, k: nat)
    requires k < |q|
  {
    q[k] in blocks && blocks[q[k]].next == if k + 1 < |q| then Some(q[k + 1]) else None
  }

  ghost predicate BlocksRep(blocks: map<int, Block>, p: Pools) {
    forall i: PoolId, a: int :: Owned(p, i, a) ==> a in blocks && blocks[a].size == SizeOf(i)
  }

  /** `n` blocks laid out from `area` on. */
  function Laid(area: int, size: nat, n: nat): (q: seq<int>)
    ensures |q| == n
  {
    seq(n, k => area + k * size)
  }

  /** Where the blocks of pool `i` start when those of pool 0 start at `area`. */
  function Start(area: int, i: nat): (r: int) {
    area + (if i == 0 then 0 else if i == 1 then 512 else if i == 2 then 2560 else if i == 3 then 10752 else 43520)
  }

  function Initial(area: int): (r: Pools) {
    seq(4, i requires 0 <= i < 4 => Pool(Laid(Start(area, i), SizeOf(i), NumOf(i)), {}))
  }

  lemma Steps(size: nat, k: nat, l: nat)
    requires k < l
    ensures k * size + size <= l * size
  {
    Product(l - k - 1, size);
    assert l * size == (k + 1 + (l - k - 1)) * size == (k + 1) * size + (l - k - 1) * size;
  }

  lemma Product(a: nat, b: nat)
    ensures a * b >= 0
  {
  }

  lemma LaidApart(area: int, size: nat, n: nat, a: int, b: int)
    requires a in Laid(area, size, n) && b in Laid(area, size, n) && a != b
    ensures a + size <= b || b + size <= a
  {
    var k :| 0 <= k < n && a == area + k * size;
    var l :| 0 <= l < n && b == area + l * size;
    if k < l {
      Steps(size, k, l);
    } else {
      Steps(size, l, k);
    }
  }

  lemma LaidInside(area: int, size: nat, n: nat, a: int)
    requires a in Laid(area, size, n)
    ensures area <= a && a + size <= area + n * size
  {
    var k :| 0 <= k < n && a == area + k * size;
    Steps(size, k, n);
  }

  /** The blocks of pool `i` lie between the start of its area and that of the next. */
  lemma InitialArea(area: int, i: PoolId, a: int)
    requires a in Laid(Start(area, i), SizeOf(i), NumOf(i))
    ensures Start(area, i) <= a && a + SizeOf(i) <= Start(area, i + 1)
  {
    hide Laid;
    LaidInside(Start(area, i), SizeOf(i), NumOf(i), a);
  }

  lemma LaidNoDup(area: int, size: nat, n: nat)
    requires size > 0
    ensures NoDup(Laid(area, size, n))
  {
    forall k, l | 0 <= k < l < n
      ensures Laid(area, size, n)[k] != Laid(area, size, n)[l]
    {
      Steps(size, k, l);
    }
  }

  /** The state that `kzmem_init` leaves. */
  lemma InitialOk(area: int)
    ensures PoolsOk(Initial(area))
  {
    hide Laid;
    var p := Initial(area);
    forall i: PoolId | true
      ensures NoDup(p[i].free)
    {
      LaidNoDup(Start(area, i), SizeOf(i), NumOf(i));
    }
    forall i: PoolId, j: PoolId, a: int, b: int | Owned(p, i, a) && Owned(p, j, b) && (i != j || a != b)
      ensures a + SizeOf(i) <= b || b + SizeOf(j) <= a
    {
      InitialArea(area, i, a);
      InitialArea(area, j, b);
      if i == j {
        LaidApart(Start(area, i), SizeOf(i), NumOf(i), a, b);
      }
    }
  }

  /** `kzmem_init_pool`: links `num` blocks of `size` bytes from `area` on. */
  method InitPool(bs: map<int, Block>, area: int, size: nat, num: nat) returns (blocks: map<int, Block>, head: Option<int>)
    requires size > 0
    ensures ListRep(blocks, head, Laid(area, size, num))
    ensures forall a :: a in Laid(area, size, num) ==> a in blocks && blocks[a].size == size
    ensures forall a :: a < area && a in bs ==> a in blocks && blocks[a] == bs[a]
  {
    hide Laid;
    blocks, head := bs, None;
    LaidNone(area, size);
    var mp := area;
    var last: Option<int> := None;
    var i := 0;
    while i < num
      invariant i <= num && mp == area + i * size
      invariant last == if i == 0 then None else Some(Laid(area, size, i)[i - 1])
      invariant ListRep(blocks, head, Laid(area, size, i))
      invariant forall a :: a in Laid(area, size, i) ==> a in blocks && blocks[a].size == size
      invariant forall a :: a < area && a in bs ==> a in blocks && blocks[a] == bs[a]
    {
      LaidMore(area, size, i);
      ghost var q, before := Laid(area, size, i), blocks;
      if last == None {
        head := Some(mp);
      } else {
        blocks := blocks[last.value := blocks[last.value].(next := Some(mp))];
      }
      blocks := blocks[mp := Block(None, size)];
      AppendRep(before, head, q, mp, size, blocks);
      last, mp, i := Some(mp), mp + size, i + 1;
    }
  }

  lemma LaidNone(area: int, size: nat)
    ensures Laid(area, size, 0) == []
  {
  }

  /** One more block, behind all others. */
  lemma LaidMore(area: int, size: nat, n: nat)
    requires size > 0
    ensures Laid(area, size, n + 1) == Laid(area, size, n) + [area + n * size]
    ensures forall k :: 0 <= k < n ==> area <= Laid(area, size, n)[k] < area + n * size
    ensures NoDup(Laid(area, size, n))
    ensures area <= area + n * size && area + (n + 1) * size == area + n * size + size
  {
    LaidNoDup(area, size, n);
    Product(n, size);
    forall k | 0 <= k < n
      ensures area <= Laid(area, size, n)[k] < area + n * size
    {
      assert Laid(area, size, n)[k] in Laid(area, size, n);
      LaidInside(area, size, n, Laid(area, size, n)[k]);
    }
  }

  /** The list after a block was linked behind its last. */
  lemma AppendRep(bs: map<int, Block>, head: Option<int>, q: seq<int>, mp: int, size: nat, blocks: map<int, Block>)
    requires NoDup(q) && mp !in q && head == Some(if q == [] then mp else q[0])
    requires q != [] ==> ListRep(bs, head, q)
    requires blocks == (if q == [] then bs
                        else
                          var z := q[|q| - 1];
                          if z in bs then bs[z := bs[z].(next := Some(mp))] else bs)[mp := Block(None, size)]
    ensures ListRep(blocks, head, q + [mp])
  {
    var r := q + [mp];
    forall k | 0 <= k < |r|
      ensures LinkedAt(blocks, r, k)
    {
      if k < |q| {
        assert r[k] == q[k] && q[k] != mp && LinkedAt(bs, q, k);
        assert k < |q| - 1 ==> q[k] != q[|q| - 1] && r[k + 1] == q[k + 1];
      }
    }
  }

  /** Taking the first block off a list. */
  lemma TakeRep(blocks: map<int, Block>, p: Pools, i: PoolId, j: PoolId, head: Option<int>)
    requires PoolsOk(p) && BlocksRep(blocks, p) && p[i].free != [] && ListRep(blocks, head, p[j].free)
    ensures var a := p[i].free[0];
            a in blocks &&
            ListRep(blocks[a := blocks[a].(next := None)],
                    if i == j then blocks[a].next else head,
                    if i == j then p[j].free[1..] else p[j].free)
  {
    var a, q := p[i].free[0], p[j].free;
    assert Owned(p, i, a);
    if i == j {
      assert LinkedAt(blocks, q, 0);
      var blocks' := blocks[a := blocks[a].(next := None)];
      forall k | 0 <= k < |q| - 1
        ensures LinkedAt(blocks', q[1..], k)
      {
        assert LinkedAt(blocks, q, k + 1) && q[k + 1] != q[0];
      }
    } else {
      OtherBlock(blocks, p, i, a, j, head, blocks[a].(next := None));
    }
  }

  /** A block belongs to one pool. */
  lemma OnePool(p: Pools, a: int)
    requires PoolsOk(p)
    ensures forall i: PoolId, j: PoolId :: a in p[i].used && a in p[j].used ==> i == j
  {
    forall i: PoolId, j: PoolId | a in p[i].used && a in p[j].used
      ensures i == j
    {
      assert Owned(p, i, a) && Owned(p, j, a);
    }
  }

  /** A list that does not hold block `a` is still a list when `a` is written. */
  lemma OtherBlock(blocks: map<int, Block>, p: Pools, i: PoolId, a: int, j: PoolId, head: Option<int>, block: Block)
    requires PoolsOk(p) && Owned(p, i, a) && (i != j || a !in p[j].free) && ListRep(blocks, head, p[j].free)
    ensures ListRep(blocks[a := block], head, p[j].free)
  {
    assert a in p[j].free ==> Owned(p, j, a);
    ListFrame(blocks, head, p[j].free, blocks[a := block]);
  }

  /** Putting a block in front of a list. */
  lemma GiveRep(blocks: map<int, Block>, p: Pools, i: PoolId, a: int, j: PoolId, front: Option<int>, head: Option<int>)
    requires PoolsOk(p) && BlocksRep(blocks, p) && a in p[i].used && ListRep(blocks, head, p[j].free)
    requires i == j ==> front == head
    ensures a in blocks
    ensures ListRep(blocks[a := blocks[a].(next := front)],
                    if i == j then Some(a) else head,
                    if i == j then [a] + p[j].free else p[j].free)
  {
    assert Owned(p, i, a);
    OtherBlock(blocks, p, i, a, j, head, blocks[a].(next := front));
    var q, r := p[j].free, [a] + p[j].free;
    var blocks' := blocks[a := blocks[a].(next := front)];
    if i == j {
      forall k | 0 <= k < |r|
        ensures LinkedAt(blocks', r, k)
      {
        if k > 0 {
          assert LinkedAt(blocks', q, k - 1) && r[k] == q[k - 1];
        } else if q != [] {
          assert r[1] == q[0];
        }
      }
    }
  }

  class KzMem {
    /** `pool[i].free` */
    const free: array<Option<int>>
    /** The block headers, by address. */
    var blocks: map<int, Block>
    ghost var pools: Pools

    ghost predicate Valid()
      reads this, free
    {
      free.Length == MEMORY_AREA_NUM && PoolsOk(pools) && BlocksRep(blocks, pools)
      && forall i: PoolId :: ListRep(blocks, free[i], pools[i].free)
    }

    /** `kzmem_alloc` */
    method KzmemAlloc(size: int) returns (mem: Option<int>)
      requires Valid()
      modifies this, free
      ensures Valid()
      ensures match Alloc(old(pools), size)
              case None => mem == None && pools == old(pools)
              case Some((r, m)) => mem == Some(m) && pools == r
    {
      var i := 0;
      while i < MEMORY_AREA_NUM
        invariant i <= MEMORY_AREA_NUM && Fit(size, i) == Fit(size, 0)
        invariant Valid() && pools == old(pools)
        decreases MEMORY_AREA_NUM - i
      {
        if 0 <= size <= SizeOf(i) - HEADER {
          if free[i] == None {
            return None;
          }
          var mp := free[i].value;
          Take(i);
          return Some(mp + HEADER);
        }
        i := i + 1;
      }
      return None;
    }

    /** `mp = p->free; p->free = p->free->next; mp->next = NULL` */
    method Take(i: PoolId)
      requires Valid() && pools[i].free != []
      modifies this, free
      ensures Valid()
      ensures pools == Taken(old(pools), i)
    {
      hide PoolsOk, ListRep;
      ghost var p, bs, hs := pools, blocks, free[..];
      HeadOf(i);
      var mp := free[i].value;
      TakeOk(p, i);
      pools := Taken(p, i);
      free[i] := blocks[mp].next;
      blocks := blocks[mp := blocks[mp].(next := None)];
      forall j: PoolId | true
        ensures ListRep(blocks, free[j], pools[j].free)
      {
        TakeRep(bs, p, i, j, hs[j]);
      }
    }

    /** `mp->next = p->free; p->free = mp` */
    method Give(i: PoolId, mp: int)
      requires Valid() && mp in pools[i].used
      modifies this, free
      ensures Valid()
      ensures pools == Free(old(pools), i, mp + HEADER)
    {
      hide PoolsOk, ListRep;
      ghost var p, bs, hs := pools, blocks, free[..];
      FreeOk(p, i, mp + HEADER);
      pools := Free(pools, i, mp + HEADER);
      assert Owned(p, i, mp);
      blocks := blocks[mp := blocks[mp].(next := free[i])];
      free[i] := Some(mp);
      forall j: PoolId | true
        ensures ListRep(blocks, free[j], pools[j].free)
      {
        GiveRep(bs, p, i, mp, j, hs[i], hs[j]);
      }
    }

    lemma HeadOf(i: PoolId)
      requires Valid()
      ensures free[i] == if pools[i].free == [] then None else Some(pools[i].free[0])
      ensures pools[i].free != [] ==> pools[i].free[0] in blocks
    {
      var q := pools[i].free;
      assert q != [] ==> LinkedAt(blocks, q, 0);
    }

    /** `kzmem_free` of a block that is in use; its size tells the pool it goes back to. */
    method KzmemFree(mem: int)
      requires Valid() && exists i: PoolId :: mem - HEADER in pools[i].used
      modifies this, free
      ensures Valid()
      ensures forall i: PoolId :: mem - HEADER in old(pools)[i].used ==> pools == Free(old(pools), i, mem)
    {
      hide PoolsOk, ListRep;
      var mp := mem - HEADER;
      ghost var o: PoolId :| mp in pools[o].used;
      assert Owned(pools, o, mp);
      var i := 0;
      while i < MEMORY_AREA_NUM
        invariant i <= o && Valid() && pools == old(pools)
        decreases MEMORY_AREA_NUM - i
      {
        if blocks[mp].size == SizeOf(i) {
          OnePool(pools, mp);
          Give(i, mp);
          return;
        }
        i := i + 1;
      }
    }

    /** `kzmem_init` on the memory from `area` on. */
    constructor (area: int)
      ensures Valid() && pools == Initial(area) && fresh(free)
    {
      hide Laid, ListRep;
      free := new Option<int>[MEMORY_AREA_NUM](_ => None);
      blocks := map[];
      pools := Initial(area);
      new;
      InitialOk(area);
      var i := 0;
      while i < MEMORY_AREA_NUM
        invariant i <= MEMORY_AREA_NUM && pools == Initial(area) && fresh(free) && free.Length == MEMORY_AREA_NUM
        invariant forall j: PoolId :: j < i ==> ListRep(blocks, free[j], pools[j].free)
        invariant forall j: PoolId, a :: j < i && a in pools[j].free ==> a in blocks && blocks[a].size == SizeOf(j)
      {
        ghost var bs := blocks;
        blocks, free[i] := InitPool(blocks, Start(area, i), SizeOf(i), NumOf(i));
        forall j: PoolId | j < i
          ensures ListRep(blocks, free[j], pools[j].free)
        {
          EarlierArea(area, j, i);
          ListFrame(bs, free[j], pools[j].free, blocks);
        }
        forall j: PoolId, a | j < i && a in pools[j].free
          ensures a in blocks && blocks[a].size == SizeOf(j)
        {
          EarlierArea(area, j, i);
        }
        i := i + 1;
      }
    }
  }

  lemma EarlierArea(area: int, j: PoolId, i: PoolId)
    requires j < i
    ensures forall a :: a in Initial(area)[j].free ==> a < Start(area, i)
  {
    hide Laid;
    forall a | a in Initial(area)[j].free
      ensures a < Start(area, i)
    {
      InitialArea(area, j, a);
    }
  }

  lemma ListFrame(bs: map<int, Block>, head: Option<int>, q: seq<int>, blocks: map<int, Block>)
    requires ListRep(bs, head, q) && forall a :: a in q && a in bs ==> a in blocks && blocks[a] == bs[a]
    ensures ListRep(blocks, head, q)
  {
    forall k | 0 <= k < |q|
      ensures LinkedAt(blocks, q, k)
    {
      assert LinkedAt(bs, q, k);
      var a := q[k];
      assert a in q;
    }
  }
}
