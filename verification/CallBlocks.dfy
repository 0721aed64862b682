/**
 The kernel's stores through the pointers of a call: `ret` of its parameter block, and for a receive
 `*sizep` and `*pp`.  Offsets and sizes are those of `kz_syscall_param_t` with 16-bit ints and 32-bit
 pointers.
 */
module CallBlocks {
  import opened Prelude
  import opened KernelSpec
  import opened KernelStacks
  import opened KernelDeliveries
  import opened Context

  /** Addresses fixed by the linker: the two functions a new stack refers to, and the TCBs. */
  datatype Layout = Layout(threadInit: Addr24, threadEnd: Word, tcbAddr: Tid -> Word)

  // ---------------------------------------------------------------- cells

  type CellSize = n: nat | n == 2 || n == 4 witness 2

  /** `w` as an unsigned integer of `n` bytes. */
  function Cut(n: CellSize, w: Word): (r: Word) {
    if n == 2 then w % 0x1_0000 else w
  }

  function LoadCell(m: Memory, a: int, n: CellSize): (w: Word) {
    if n == 2 then Load8(m, a) * 0x100 + Load8(m, a + 1) else Load(m, a)
  }

  function StoreCell(m: Memory, a: int, n: CellSize, w: Word): (r: Memory) {
    if n == 2 then m[a := w / 0x100 % 0x100][a + 1 := w % 0x100] else Store(m, a, w)
  }

  lemma StoredCell(m: Memory, a: int, n: CellSize, w: Word)
    ensures LoadCell(StoreCell(m, a, n, w), a, n) == Cut(n, w)
  {
    if n == 2 {
      TwoBytes(w);
    } else {
      LoadStore(m, a, w);
    }
  }

  lemma TwoBytes(w: Word)
    ensures w / 0x100 % 0x100 * 0x100 + w % 0x100 == w % 0x1_0000
  {
  }

  /** The bytes of `[lo, hi)` are none of the `n` bytes at `a`. */
  predicate Apart(a: int, n: nat, lo: int, hi: int) {
    a + n <= lo || hi <= a
  }

  lemma StoreCellApart(m: Memory, a: int, n: CellSize, w: Word, lo: int, hi: int)
    requires Apart(a, n, lo, hi)
    ensures SameOn(m, StoreCell(m, a, n, w), lo, hi)
  {
  }

  lemma LoadCellSame(m: Memory, n: Memory, a: int, c: CellSize)
    requires SameOn(m, n, a, a + c)
    ensures LoadCell(n, a, c) == LoadCell(m, a, c)
  {
    if c == 4 {
      LoadSame(m, n, a);
    } else {
      assert Load8(n, a) == Load8(m, a) && Load8(n, a + 1) == Load8(m, a + 1);
    }
  }

  lemma SameOnTrans(m: Memory, n: Memory, o: Memory, lo: int, hi: int)
    requires SameOn(m, n, lo, hi) && SameOn(n, o, lo, hi)
    ensures SameOn(m, o, lo, hi)
  {
  }

  // ---------------------------------------------------------------- values

  function Wrapped(n: int): (w: Word) {
    n % 0x1_0000_0000
  }

  /** A return value as the kernel stores it: thread numbers are addresses of TCBs. */
  function RetWord(l: Layout, v: Ret): (w: Word) {
    match v
    case Unset => 0
    case Num(n) => Wrapped(n)
    case Thread(t) => l.tcbAddr(t)
  }

  /** The offset of `ret` in the block of a call. */
  function RetOffset(c: Call): (o: nat)
    ensures o + 4 <= BLOCK_SIZE
  {
    match c
    case Run(_, _, _, _, _) => 20
    case Recv(_, _, _) => 12
    case Send(_, _, _) => 8
    case SetIntr(_, _) => 8
    case Wakeup(_) => 4
    case KMalloc(_) => 4
    case KMFree(_) => 4
    case ChPri(_) => 2
    case _ => 0
  }

  /** Thread ids and pointers have four bytes, ints two. */
  function RetSize(c: Call): (n: CellSize) {
    match c
    case Run(_, _, _, _, _) => 4
    case Recv(_, _, _) => 4
    case GetId => 4
    case KMalloc(_) => 4
    case _ => 2
  }

  /** The sizes of the members that `kz_syscall_param_t` has for a call, `ret` last. */
  function Members(c: Call): (ms: seq<CellSize>)
    ensures ms != []
  {
    match c
    case Run(_, _, _, _, _) => [4, 4, 2, 2, 2, 4, 4]  // func, name, priority, stacksize, argc, argv
    case Recv(_, _, _) => [2, 4, 4, 4]                // id, sizep, pp
    case Send(_, _, _) => [2, 2, 4, 2]                // id, size, p
    case SetIntr(_, _) => [2, 4, 2]                   // type, handler
    case Wakeup(_) => [4, 2]                          // id
    case KMalloc(_) => [2, 4]                         // size
    case KMFree(_) => [4, 2]                          // p
    case ChPri(_) => [2, 2]                           // priority
    case GetId => [4]
    case _ => [2]
  }

  /** Each member stands behind the one before, at the next multiple of its own size. */
  predicate LaidOut(ms: seq<CellSize>, os: seq<nat>) {
    |os| == |ms| && (ms != [] ==> os[0] == 0)
    && forall i, j | 0 <= i < |ms| && 0 <= j < |ms| :: j == i + 1 ==>
         os[i] + ms[i] <= os[j] < os[i] + ms[i] + ms[j] && os[j] % ms[j] == 0
  }

  lemma RunLaidOut(ms: seq<CellSize>, os: seq<nat>)
    requires ms == [4, 4, 2, 2, 2, 4, 4] && os == [0, 4, 8, 10, 12, 16, 20]
    ensures LaidOut(ms, os)
  {
    assert ms[0] == 4 && ms[1] == 4 && ms[2] == 2 && ms[3] == 2 && ms[4] == 2 && ms[5] == 4 && ms[6] == 4;
    assert os[0] == 0 && os[1] == 4 && os[2] == 8 && os[3] == 10 && os[4] == 12 && os[5] == 16 && os[6] == 20;
  }

  lemma FourLaidOut(ms: seq<CellSize>, os: seq<nat>)
    requires |ms| == |os| == 4 && os[0] == 0
    requires os[0] + ms[0] <= os[1] < os[0] + ms[0] + ms[1] && os[1] % ms[1] == 0
    requires os[1] + ms[1] <= os[2] < os[1] + ms[1] + ms[2] && os[2] % ms[2] == 0
    requires os[2] + ms[2] <= os[3] < os[2] + ms[2] + ms[3] && os[3] % ms[3] == 0
    ensures LaidOut(ms, os)
  {
  }

  lemma FewLaidOut(ms: seq<CellSize>, os: seq<nat>)
    requires 1 <= |ms| == |os| <= 3 && os[0] == 0
    requires |ms| > 1 ==> os[0] + ms[0] <= os[1] < os[0] + ms[0] + ms[1] && os[1] % ms[1] == 0
    requires |ms| > 2 ==> os[1] + ms[1] <= os[2] < os[1] + ms[1] + ms[2] && os[2] % ms[2] == 0
    ensures LaidOut(ms, os)
  {
  }

  /** `ret` is where the members before it put it; the block of `kz_run` is the largest. */
  lemma RetPlace(c: Call) returns (os: seq<nat>)
    ensures LaidOut(Members(c), os) && os != [] && os[|os| - 1] == RetOffset(c) && Members(c)[|os| - 1] == RetSize(c)
    ensures RetOffset(c) + RetSize(c) <= BLOCK_SIZE && (c.Run? ==> RetOffset(c) + RetSize(c) == BLOCK_SIZE)
  {
    if c.Run? {
      os := [0, 4, 8, 10, 12, 16, 20];
      RunLaidOut(Members(c), os);
    } else if c.Recv? || c.Send? {
      os := if c.Recv? then [0, 4, 8, 12] else [0, 2, 4, 8];
      FourLaidOut(Members(c), os);
    } else {
      hide LaidOut;
      os := if c.SetIntr? then [0, 4, 8] else if c.ChPri? then [0, 2] else if c.Wakeup? || c.KMalloc? || c.KMFree? then [0, 4] else [0];
      FewLaidOut(Members(c), os);
    }
  }

  // ---------------------------------------------------------------- stores

  /** `p->un.*.ret = ...` of `call_functions`, for a call that stores one. */
  function StoreReturn(l: Layout, m: Memory, tcb: Tcb): (r: Memory) {
    if tcb.call.Some? && tcb.param.Some? && StoresRet(tcb.call.value) then
      var c := tcb.call.value;
      StoreCell(m, tcb.param.value.at + RetOffset(c), RetSize(c), RetWord(l, tcb.param.value.ret))
    else m
  }

  function StoreSize(m: Memory, sizep: Option<int>, size: int): (r: Memory) {
    if sizep.Some? then StoreCell(m, sizep.value, 2, Wrapped(size)) else m
  }

  function StorePtr(m: Memory, pp: Option<int>, p: int): (r: Memory) {
    if pp.Some? then StoreCell(m, pp.value, 4, Wrapped(p)) else m
  }

  /** The three stores of `recvmsg`. */
  function DeliverStores(l: Layout, m: Memory, tcb: Tcb, msg: Msg): (r: Memory) {
    if tcb.call.Some? && tcb.call.value.Recv? && tcb.param.Some? then
      var c := tcb.call.value;
      StorePtr(StoreSize(StoreCell(m, tcb.param.value.at + RetOffset(c), 4, RetWord(l, SenderId(msg))), c.sizep, msg.size),
               c.pp, msg.p)
    else m
  }

  /** The stores of the deliveries in `evs`, in order. */
  function Deliveries(l: Layout, tcbs: Tcbs, evs: seq<Event>, m: Memory): (r: Memory) {
    if evs == [] then m
    else
      var n := Deliveries(l, tcbs, evs[..|evs| - 1], m);
      var e := evs[|evs| - 1];
      if e.Delivered? then DeliverStores(l, n, tcbs[e.to], e.msg) else n
  }

  // ---------------------------------------------------------------- what they miss

  /** The places that a receive passes are none of `[lo, hi)`. */
  predicate CellsMiss(c: Call, lo: int, hi: int) {
    c.Recv? ==> (c.sizep.Some? ==> Apart(c.sizep.value, 2, lo, hi)) && (c.pp.Some? ==> Apart(c.pp.value, 4, lo, hi))
  }

  /** No store through the pointers of the call of `tcb` touches `[lo, hi)`. */
  predicate Misses(tcb: Tcb, lo: int, hi: int) {
    (tcb.param.Some? ==> Apart(tcb.param.value.at, BLOCK_SIZE, lo, hi))
    && (tcb.call.Some? ==> CellsMiss(tcb.call.value, lo, hi))
  }

  lemma ReturnMisses(l: Layout, m: Memory, tcb: Tcb, lo: int, hi: int)
    requires tcb.param.Some? ==> Apart(tcb.param.value.at, BLOCK_SIZE, lo, hi)
    ensures SameOn(m, StoreReturn(l, m, tcb), lo, hi)
  {
    hide StoreCell;
    if tcb.call.Some? && tcb.param.Some? && StoresRet(tcb.call.value) {
      var c := tcb.call.value;
      StoreCellApart(m, tcb.param.value.at + RetOffset(c), RetSize(c), RetWord(l, tcb.param.value.ret), lo, hi);
    }
  }

  lemma PlacesMiss(m: Memory, c: Call, size: int, p: int, lo: int, hi: int)
    requires c.Recv? && CellsMiss(c, lo, hi)
    ensures SameOn(m, StorePtr(StoreSize(m, c.sizep, size), c.pp, p), lo, hi)
  {
    hide StoreCell, SameOn;
    SameOnSelf(m, lo, hi);
    var m1 := StoreSize(m, c.sizep, size);
    if c.sizep.Some? {
      StoreCellApart(m, c.sizep.value, 2, Wrapped(size), lo, hi);
    }
    if c.pp.Some? {
      StoreCellApart(m1, c.pp.value, 4, Wrapped(p), lo, hi);
      SameOnTrans(m, m1, StorePtr(m1, c.pp, p), lo, hi);
    }
  }

  lemma SameOnSelf(m: Memory, lo: int, hi: int)
    ensures SameOn(m, m, lo, hi)
  {
  }

  lemma DeliverMisses(l: Layout, m: Memory, tcb: Tcb, msg: Msg, lo: int, hi: int)
    requires Misses(tcb, lo, hi)
    ensures SameOn(m, DeliverStores(l, m, tcb, msg), lo, hi)
  {
    hide StoreCell, SameOn, StorePtr, StoreSize, RetOffset;
    SameOnSelf(m, lo, hi);
    if tcb.call.Some? && tcb.call.value.Recv? && tcb.param.Some? {
      var c := tcb.call.value;
      var o := RetOffset(c);
      var m1 := StoreCell(m, tcb.param.value.at + o, 4, RetWord(l, SenderId(msg)));
      StoreCellApart(m, tcb.param.value.at + o, 4, RetWord(l, SenderId(msg)), lo, hi);
      PlacesMiss(m1, c, msg.size, msg.p, lo, hi);
      SameOnTrans(m, m1, DeliverStores(l, m, tcb, msg), lo, hi);
    }
  }

  /** The deliveries of `evs` are to threads of which `t` is none, or whose stores miss `[lo, hi)`. */
  ghost predicate AllMiss(tcbs: Tcbs, evs: seq<Event>, t: Option<Tid>, lo: int, hi: int) {
    forall i :: 0 <= i < |evs| && evs[i].Delivered? && Some(evs[i].to) != t ==> Misses(tcbs[evs[i].to], lo, hi)
  }

  lemma {:induction false} DeliveriesMiss(l: Layout, tcbs: Tcbs, evs: seq<Event>, m: Memory, lo: int, hi: int)
    requires AllMiss(tcbs, evs, None, lo, hi)
    ensures SameOn(m, Deliveries(l, tcbs, evs, m), lo, hi)
    decreases |evs|
  {
    hide SameOn, Misses, DeliverStores;
    SameOnSelf(m, lo, hi);
    if evs != [] {
      var n := |evs| - 1;
      var m1 := Deliveries(l, tcbs, evs[..n], m);
      DeliveriesMiss(l, tcbs, evs[..n], m, lo, hi);
      if evs[n].Delivered? {
        DeliverMisses(l, m1, tcbs[evs[n].to], evs[n].msg, lo, hi);
        SameOnTrans(m, m1, DeliverStores(l, m1, tcbs[evs[n].to], evs[n].msg), lo, hi);
      }
    }
  }

  // ---------------------------------------------------------------- return values in memory

  /** Memory holds the return value of block `p` of call `c`. */
  ghost predicate InMemory(l: Layout, m: Memory, c: Call, p: Option<Block>) {
    p.Some? && LoadCell(m, p.value.at + RetOffset(c), RetSize(c)) == Cut(RetSize(c), RetWord(l, p.value.ret))
  }

  /** The bytes at the place of `ret`: a number, cut to the size of an int or a pointer, or the address of a TCB. */
  lemma InMemoryMeans(l: Layout, m: Memory, c: Call, p: Option<Block>)
    requires InMemory(l, m, c, p) && StoresRet(c)
    ensures p.Some?
    ensures var a := p.value.at + RetOffset(c);
            if c.Run? || c.Recv? || c.GetId? || c.KMalloc? then
              (p.value.ret.Num? ==> Load(m, a) == p.value.ret.n % 0x1_0000_0000)
              && (p.value.ret.Thread? ==> Load(m, a) == l.tcbAddr(p.value.ret.t))
            else
              p.value.ret.Num? ==> Load8(m, a) * 0x100 + Load8(m, a + 1) == p.value.ret.n % 0x1_0000
  {
    hide Load;
    if p.value.ret.Num? {
      CutTwice(p.value.ret.n);
    }
  }

  lemma CutTwice(n: int)
    ensures n % 0x1_0000_0000 % 0x1_0000 == n % 0x1_0000
  {
  }

  lemma ReturnInMemory(l: Layout, m: Memory, tcb: Tcb)
    requires tcb.call.Some? && tcb.param.Some? && StoresRet(tcb.call.value)
    ensures InMemory(l, StoreReturn(l, m, tcb), tcb.call.value, tcb.param)
  {
    hide StoreCell, LoadCell;
    var c := tcb.call.value;
    StoredCell(m, tcb.param.value.at + RetOffset(c), RetSize(c), RetWord(l, tcb.param.value.ret));
  }

  lemma InMemoryKept(l: Layout, m: Memory, n: Memory, c: Call, p: Option<Block>)
    requires InMemory(l, m, c, p) && SameOn(m, n, p.value.at, p.value.at + BLOCK_SIZE)
    ensures InMemory(l, n, c, p)
  {
    hide LoadCell;
    LoadCellSame(m, n, p.value.at + RetOffset(c), RetSize(c));
  }

  lemma DeliveredInMemory(l: Layout, m: Memory, tcb: Tcb, msg: Msg)
    requires tcb.call.Some? && tcb.call.value.Recv? && tcb.param.Some?
    requires CellsMiss(tcb.call.value, tcb.param.value.at, tcb.param.value.at + BLOCK_SIZE)
    ensures InMemory(l, DeliverStores(l, m, tcb, msg), tcb.call.value, Some(Fill(tcb.call, tcb.param.value, msg)))
  {
    hide StoreCell, LoadCell, StorePtr, StoreSize;
    var c, at := tcb.call.value, tcb.param.value.at;
    var m1 := StoreCell(m, at + RetOffset(c), 4, RetWord(l, SenderId(msg)));
    StoredCell(m, at + RetOffset(c), 4, RetWord(l, SenderId(msg)));
    PlacesMiss(m1, c, msg.size, msg.p, at, at + BLOCK_SIZE);
    InMemoryKept(l, m1, DeliverStores(l, m, tcb, msg), c, Some(Fill(tcb.call, tcb.param.value, msg)));
  }

  // ---------------------------------------------------------------- what a receive points to

  /** A place that lies above the block at `at`, on a stack that ends at `top`. */
  predicate OwnPlace(a: Option<int>, n: nat, at: int, top: int) {
    a.Some? && at + BLOCK_SIZE <= a.value && a.value + n <= top
  }

  /** The two places of a receive do not overlap. */
  predicate PlacesApart(c: Call) {
    c.Recv? && c.sizep.Some? && c.pp.Some? ==> Apart(c.sizep.value, 2, c.pp.value, c.pp.value + 4)
  }

  /** Those of `*sizep` and `*pp` that lie on the caller's stack hold the size and the pointer of block `p`. */
  ghost predicate PlacesHold(m: Memory, c: Call, p: Option<Block>, top: int) {
    p.Some? &&
    (c.Recv? ==>
       (OwnPlace(c.sizep, 2, p.value.at, top) ==> LoadCell(m, c.sizep.value, 2) == Cut(2, Wrapped(p.value.size)))
       && (OwnPlace(c.pp, 4, p.value.at, top) ==> LoadCell(m, c.pp.value, 4) == Wrapped(p.value.p)))
  }

  lemma SameOnWithin(m: Memory, n: Memory, lo: int, hi: int, a: int, b: int)
    requires SameOn(m, n, lo, hi) && lo <= a && b <= hi
    ensures SameOn(m, n, a, b)
  {
  }

  lemma PlacesKept(m: Memory, n: Memory, c: Call, p: Option<Block>, top: int)
    requires PlacesHold(m, c, p, top) && SameOn(m, n, p.value.at + BLOCK_SIZE, top)
    ensures PlacesHold(n, c, p, top)
  {
    hide LoadCell, SameOn;
    var lo := p.value.at + BLOCK_SIZE;
    if c.Recv? && OwnPlace(c.sizep, 2, p.value.at, top) {
      SameOnWithin(m, n, lo, top, c.sizep.value, c.sizep.value + 2);
      LoadCellSame(m, n, c.sizep.value, 2);
    }
    if c.Recv? && OwnPlace(c.pp, 4, p.value.at, top) {
      SameOnWithin(m, n, lo, top, c.pp.value, c.pp.value + 4);
      LoadCellSame(m, n, c.pp.value, 4);
    }
  }

  /** A delivery puts size and pointer of the message there. */
  lemma DeliveredPlaces(l: Layout, m: Memory, tcb: Tcb, msg: Msg, top: int)
    requires tcb.call.Some? && tcb.call.value.Recv? && tcb.param.Some? && PlacesApart(tcb.call.value)
    ensures PlacesHold(DeliverStores(l, m, tcb, msg), tcb.call.value, Some(Fill(tcb.call, tcb.param.value, msg)), top)
  {
    hide StoreCell, LoadCell, SameOn;
    var c := tcb.call.value;
    var m1 := StoreCell(m, tcb.param.value.at + RetOffset(c), 4, RetWord(l, SenderId(msg)));
    var m2 := StoreSize(m1, c.sizep, msg.size);
    var m3 := StorePtr(m2, c.pp, msg.p);
    if c.sizep.Some? {
      StoredCell(m1, c.sizep.value, 2, Wrapped(msg.size));
      if c.pp.Some? {
        StoreCellApart(m2, c.pp.value, 4, Wrapped(msg.p), c.sizep.value, c.sizep.value + 2);
        LoadCellSame(m2, m3, c.sizep.value, 2);
      }
    }
    if c.pp.Some? {
      StoredCell(m2, c.pp.value, 4, Wrapped(msg.p));
    }
  }

  /** The return value, stored in the block, leaves the places above it alone. */
  lemma ReturnKeepsPlaces(l: Layout, m: Memory, tcb: Tcb, p: Option<Block>, top: int)
    requires tcb.call.Some? && tcb.param.Some? && PlaceOf(p) == PlaceOf(tcb.param)
    requires PlacesHold(m, tcb.call.value, p, top)
    ensures PlacesHold(StoreReturn(l, m, tcb), tcb.call.value, p, top)
  {
    hide SameOn;
    ReturnMisses(l, m, tcb, p.value.at + BLOCK_SIZE, top);
    PlacesKept(m, StoreReturn(l, m, tcb), tcb.call.value, p, top);
  }

  /** The places of `t` follow the history of deliveries to it, when the stores for others miss its stack. */
  lemma {:induction false} DeliveriesPlaces(l: Layout, tcbs: Tcbs, evs: seq<Event>, m: Memory, t: Tid, tcb: Tcb, top: int)
    requires tcb.call.Some? && tcb.param.Some? && PlacesHold(m, tcb.call.value, tcb.param, top)
    requires tcbs[t].call == tcb.call && PlaceOf(tcbs[t].param) == PlaceOf(tcb.param) && PlacesApart(tcb.call.value)
    requires AllMiss(tcbs, evs, Some(t), tcb.param.value.at, top)
    requires tcb.call.value.Recv? || forall i :: 0 <= i < |evs| && evs[i].Delivered? ==> evs[i].to != t
    ensures PlacesHold(Deliveries(l, tcbs, evs, m), tcb.call.value, ParamAfter(tcb, evs, t), top)
    ensures PlaceOf(ParamAfter(tcb, evs, t)) == PlaceOf(tcb.param)
    decreases |evs|
  {
    hide PlacesHold, Misses, DeliverStores, SameOn;
    if evs != [] {
      var n := |evs| - 1;
      var c, e, m1, p := tcb.call.value, evs[n], Deliveries(l, tcbs, evs[..n], m), ParamAfter(tcb, evs[..n], t);
      DeliveriesPlaces(l, tcbs, evs[..n], m, t, tcb, top);
      if e.Delivered? && e.to == t {
        DeliverAgrees(l, m1, tcbs[t], tcb.(param := p), e.msg);
        DeliveredPlaces(l, m1, tcb.(param := p), e.msg, top);
      } else if e.Delivered? {
        var m2 := DeliverStores(l, m1, tcbs[e.to], e.msg);
        DeliverMisses(l, m1, tcbs[e.to], e.msg, p.value.at, top);
        SameOnWithin(m1, m2, p.value.at, top, p.value.at + BLOCK_SIZE, top);
        PlacesKept(m1, m2, c, p, top);
      }
    }
  }

  // ---------------------------------------------------------------- return values and deliveries

  /**
   Whatever is delivered, to `t` and to others, memory holds the return value that the kernel's history
   gives for `t`, provided that the stores for others miss its block.
   */
  lemma {:induction false} DeliveriesInMemory(l: Layout, tcbs: Tcbs, evs: seq<Event>, m: Memory, t: Tid, tcb: Tcb)
    requires tcb.call.Some? && tcb.param.Some? && InMemory(l, m, tcb.call.value, tcb.param)
    requires tcbs[t].call == tcb.call && PlaceOf(tcbs[t].param) == PlaceOf(tcb.param)
    requires var at := tcb.param.value.at;
             AllMiss(tcbs, evs, Some(t), at, at + BLOCK_SIZE) && CellsMiss(tcb.call.value, at, at + BLOCK_SIZE)
    requires tcb.call.value.Recv? || forall i :: 0 <= i < |evs| && evs[i].Delivered? ==> evs[i].to != t
    ensures InMemory(l, Deliveries(l, tcbs, evs, m), tcb.call.value, ParamAfter(tcb, evs, t))
    ensures PlaceOf(ParamAfter(tcb, evs, t)) == PlaceOf(tcb.param)
    decreases |evs|
  {
    hide InMemory, Misses, CellsMiss, DeliverStores;
    if evs != [] {
      var n := |evs| - 1;
      var c, e, m1, p := tcb.call.value, evs[n], Deliveries(l, tcbs, evs[..n], m), ParamAfter(tcb, evs[..n], t);
      DeliveriesInMemory(l, tcbs, evs[..n], m, t, tcb);
      if e.Delivered? && e.to == t {
        DeliverAgrees(l, m1, tcbs[t], tcb.(param := p), e.msg);
        DeliveredInMemory(l, m1, tcb.(param := p), e.msg);
      } else if e.Delivered? {
        DeliverMisses(l, m1, tcbs[e.to], e.msg, p.value.at, p.value.at + BLOCK_SIZE);
        InMemoryKept(l, m1, DeliverStores(l, m1, tcbs[e.to], e.msg), c, p);
      }
    }
  }

  /** A delivery reads the call and the place of the block only. */
  lemma DeliverAgrees(l: Layout, m: Memory, x: Tcb, y: Tcb, msg: Msg)
    requires x.call == y.call && PlaceOf(x.param) == PlaceOf(y.param)
    ensures DeliverStores(l, m, x, msg) == DeliverStores(l, m, y, msg)
  {
  }
}
