/**
 The kernel and its allocator together: every allocation of the kernel is answered by the pools, every
 delivered message gives its buffer back, and so does a legal `kz_kmfree`.
 */
module KernelMemory {
  import opened Prelude
  import opened KernelSpec
  import opened KernelInvariant
  import opened KernelScheduling
  import opened KernelLifecycle
  import opened KernelMail
  import opened KernelEffects
  import P = MemPool

  /** `sizeof(kz_msgbuf)`: three pointers and a 16-bit int, padded; it takes the blocks of 64 bytes. */
  const MSGBUF_SIZE: nat := 16
  const MSG_POOL: P.PoolId := 1

  datatype Joint = Joint(k: State, p: P.Pools)

  // ---------------------------------------------------------------- calls

  function AddressOf(a: Option<(P.Pools, int)>): (mem: Option<int>) {
    if a == None then None else Some(a.value.1)
  }

  /** What the allocator answers to a call. */
  function Answer(p: P.Pools, c: Call): (alloc: Option<int>) {
    match c
    case Send(_, _, _) => AddressOf(P.Alloc(p, MSGBUF_SIZE))
    case KMalloc(bytes) => AddressOf(P.Alloc(p, bytes))
    case KMFree(mem) => if P.PoolOf(p, mem) < P.MEMORY_AREA_NUM then Some(0) else None
    case _ => None
  }

  function PoolsAlloc(p: P.Pools, size: int): (r: P.Pools) {
    if P.Alloc(p, size) == None then p else P.Alloc(p, size).value.0
  }

  /** The pools after a call that does not bring the system down. */
  function PoolsAfter(p: P.Pools, k: State, c: Call): (r: P.Pools) {
    match c
    case Send(b, size, q) =>
      var r := PoolsAlloc(p, MSGBUF_SIZE);
      if b < MSGBOX_ID_NUM && k.boxes[b].receiver.Some? && Answer(p, c).Some? then
        P.Release(r, (k.boxes[b].msgs + [Msg(Answer(p, c).value, k.current, size, q)])[0].addr)
      else r
    case Recv(b, _, _) =>
      if b < MSGBOX_ID_NUM && k.boxes[b].receiver == None && k.boxes[b].msgs != [] then P.Release(p, k.boxes[b].msgs[0].addr)
      else p
    case KMalloc(bytes) => PoolsAlloc(p, bytes)
    case KMFree(mem) => P.Release(p, mem)
    case _ => p
  }

  /** What a caller owes; the allocator takes no part in it, but for a block given back. */
  ghost predicate Asked(k: State, p: P.Pools, c: Call) {
    match c
    case Send(b, _, _) => b < MSGBOX_ID_NUM
    case KMFree(mem) => P.PoolOf(p, mem) < P.MEMORY_AREA_NUM && mem !in k.heap
    case _ => CallLegal(k, c, None)
  }

  /** Every message buffer of the kernel lies in a block that is in use. */
  ghost predicate Backed(p: P.Pools, heap: set<int>) {
    forall a: int :: a in heap ==> a - P.HEADER in p[MSG_POOL].used
  }

  lemma MsgFit()
    ensures P.Fit(MSGBUF_SIZE, 0) == MSG_POOL
  {
  }

  /** The buffer that a send gets is none of those linked in a mailbox. */
  lemma AskedLegal(k: State, p: P.Pools, c: Call)
    requires P.PoolsOk(p) && Backed(p, k.heap) && Asked(k, p, c)
    ensures CallLegal(k, c, Answer(p, c))
  {
    MsgFit();
    if c.Send? && P.Alloc(p, MSGBUF_SIZE).Some? {
      P.AllocOk(p, MSGBUF_SIZE);
    }
  }

  /** A buffer that leaves a mailbox is in use, and freeing it leaves the others in use. */
  lemma ReleaseBuffer(p: P.Pools, heap: set<int>, mem: int)
    requires P.PoolsOk(p) && Backed(p, heap) && mem in heap
    ensures P.PoolsOk(P.Release(p, mem)) && Backed(P.Release(p, mem), heap - {mem})
  {
    P.OnePool(p, mem - P.HEADER);
    P.FreeOk(p, MSG_POOL, mem);
  }

  /**
   `kz_kmfree` frees any block it is given.  The mailboxes keep their buffers iff it is none of them.
   */
  lemma FreeIff(p: P.Pools, heap: set<int>, mem: int)
    requires P.PoolsOk(p) && Backed(p, heap) && P.PoolOf(p, mem) < P.MEMORY_AREA_NUM
    ensures P.PoolsOk(P.Release(p, mem))
    ensures Backed(P.Release(p, mem), heap) <==> mem !in heap
  {
    P.OnePool(p, mem - P.HEADER);
    P.FreeOk(p, P.PoolOf(p, mem), mem);
  }

  lemma AllocBacked(p: P.Pools, heap: set<int>, size: int)
    requires P.PoolsOk(p) && Backed(p, heap)
    ensures P.PoolsOk(PoolsAlloc(p, size)) && Backed(PoolsAlloc(p, size), heap)
  {
    if P.Alloc(p, size).Some? {
      P.AllocOk(p, size);
    }
  }

  lemma SendBacked(p: P.Pools, heap: set<int>)
    requires P.PoolsOk(p) && Backed(p, heap) && P.Alloc(p, MSGBUF_SIZE).Some?
    ensures P.PoolsOk(PoolsAlloc(p, MSGBUF_SIZE))
    ensures Backed(PoolsAlloc(p, MSGBUF_SIZE), heap + {P.Alloc(p, MSGBUF_SIZE).value.1})
  {
    MsgFit();
    P.AllocOk(p, MSGBUF_SIZE);
  }

  /** What a call does to the message buffers in use. */
  lemma CallHeap(k: State, c: Call, alloc: Option<int>)
    requires CallOk(k, c) && CallFunctions(k, c, alloc).Up?
    ensures CallFunctions(k, c, alloc).value.0.heap ==
            match c
            case Send(b, size, q) =>
              var msgs := k.boxes[b].msgs + [Msg(alloc.value, k.current, size, q)];
              k.heap + {alloc.value} - (if k.boxes[b].receiver.Some? then {msgs[0].addr} else {})
            case Recv(b, _, _) =>
              k.heap - (if k.boxes[b].msgs != [] then {k.boxes[b].msgs[0].addr} else {})
            case _ => k.heap
  {
  }

  /** A call keeps the buffers of the kernel in blocks that are in use. */
  lemma CallBacked(k: State, p: P.Pools, c: Call)
    requires Core(k) && P.PoolsOk(p) && Backed(p, k.heap) && Asked(k, p, c)
    requires CallOk(k, c) && CallFunctions(k, c, Answer(p, c)).Up?
    ensures P.PoolsOk(PoolsAfter(p, k, c)) && Backed(PoolsAfter(p, k, c), CallFunctions(k, c, Answer(p, c)).value.0.heap)
  {
    hide CallFunctions, Backed, P.PoolsOk;
    CallHeap(k, c, Answer(p, c));
    match c {
      case Send(b, size, q) =>
        SendUp(k, p, c);
        SendBacked(p, k.heap);
        if k.boxes[b].receiver.Some? {
          var m := (k.boxes[b].msgs + [Msg(Answer(p, c).value, k.current, size, q)])[0];
          FirstStored(k, b, m, Answer(p, c).value);
          ReleaseBuffer(PoolsAlloc(p, MSGBUF_SIZE), k.heap + {Answer(p, c).value}, m.addr);
        } else {
          assert k.heap + {Answer(p, c).value} - {} == k.heap + {Answer(p, c).value};
        }
      case Recv(b, _, _) =>
        RecvUp(k, c, Answer(p, c));
        if k.boxes[b].msgs != [] {
          FirstStored(k, b, k.boxes[b].msgs[0], 0);
          ReleaseBuffer(p, k.heap, k.boxes[b].msgs[0].addr);
        } else {
          assert k.heap - {} == k.heap;
        }
      case KMalloc(bytes) => AllocBacked(p, k.heap, bytes);
      case KMFree(mem) => FreeIff(p, k.heap, mem);
      case _ =>
    }
  }

  lemma SendUp(k: State, p: P.Pools, c: Call)
    requires c.Send? && CallOk(k, c) && CallFunctions(k, c, Answer(p, c)).Up?
    ensures Answer(p, c).Some? && P.Alloc(p, MSGBUF_SIZE).Some? && Answer(p, c).value == P.Alloc(p, MSGBUF_SIZE).value.1
  {
  }

  lemma RecvUp(k: State, c: Call, alloc: Option<int>)
    requires c.Recv? && CallOk(k, c) && CallFunctions(k, c, alloc).Up?
    ensures k.boxes[c.from].receiver == None
  {
  }

  lemma FirstStored(k: State, b: BoxId, m: Msg, addr: int)
    requires Core(k) && (if k.boxes[b].msgs == [] then m.addr == addr else m == k.boxes[b].msgs[0])
    ensures m.addr == addr || m.addr in k.heap
    ensures k.boxes[b].msgs != [] ==> m.addr in k.heap
  {
    assert k.boxes[b].msgs != [] ==> Stored(k.boxes, b, 0, m.addr);
  }

  // ---------------------------------------------------------------- handlers

  ghost predicate SrvAsked(k: State, p: P.Pools, calls: seq<Call>)
    decreases |calls|
  {
    calls == [] ||
    (SrvKind(calls[0]) && Asked(k, p, calls[0]) &&
     var k1 := k.(current := None);
     CallOk(k1, calls[0]) ==>
       match SrvcallProc(k, calls[0], Answer(p, calls[0]))
       case Down => true
       case Up((r, _)) => SrvAsked(r, PoolsAfter(p, k1, calls[0]), calls[1..]))
  }

  /** The service calls of a handler with the answers of the allocator, and the pools after them. */
  function Answers(k: State, p: P.Pools, calls: seq<Call>): (r: (seq<SrvCall>, P.Pools))
    decreases |calls|
  {
    if calls == [] then ([], p)
    else
      var s, k1 := SrvCall(calls[0], Answer(p, calls[0])), k.(current := None);
      if !CallOk(k1, calls[0]) then ([s], p)
      else
        match SrvcallProc(k, s.call, s.alloc)
        case Down => ([s], p)
        case Up((r, _)) =>
          var rest := Answers(r, PoolsAfter(p, k1, calls[0]), calls[1..]);
          ([s] + rest.0, rest.1)
  }

  lemma SrvBacked(k: State, p: P.Pools, calls: seq<Call>)
    requires Core(k) && P.PoolsOk(p) && Backed(p, k.heap) && SrvAsked(k, p, calls)
    ensures var (s, r) := Answers(k, p, calls);
            SrvLegal(k, s) && SrvOk(k, s) && (SrvCalls(k, s).Up? ==> P.PoolsOk(r) && Backed(r, SrvCalls(k, s).value.heap))
    decreases |calls|
  {
    hide Core, Backed, P.PoolsOk, CallFunctions, PoolsAfter, Answer, Asked;
    if calls != [] {
      var k1, alloc := k.(current := None), Answer(p, calls[0]);
      AskedLegal(k, p, calls[0]);
      RecurrentCore(k, None);
      SameReceivers(k, k1);
      AskedSame(k, k1, p, calls[0]);
      CallCore(k1, calls[0], alloc);
      if SrvcallProc(k, calls[0], alloc).Up? {
        var r := SrvcallProc(k, calls[0], alloc).value.0;
        CallBacked(k1, p, calls[0]);
        SrvBacked(r, PoolsAfter(p, k1, calls[0]), calls[1..]);
        var rest := Answers(r, PoolsAfter(p, k1, calls[0]), calls[1..]);
        assert ([SrvCall(calls[0], alloc)] + rest.0)[1..] == rest.0;
      }
    }
  }

  lemma AskedSame(k: State, k1: State, p: P.Pools, c: Call)
    requires Asked(k, p, c) && k1 == k.(current := None)
    ensures Asked(k1, p, c) && (forall alloc :: CallLegal(k, c, alloc) ==> CallLegal(k1, c, alloc))
  {
    SameReceivers(k, k1);
  }

  // ---------------------------------------------------------------- entries and runs

  /** An entry into the kernel, before the allocator has answered. */
  datatype Demand =
    | CallDemand(call: Call, blk: Block, sp: int)
    | VectorDemand(kind: nat, calls: seq<Call>, sp: int)

  ghost predicate DemandLegal(j: Joint, d: Demand) {
    j.k.current.Some? &&
    match d
    case CallDemand(c, _, _) => Asked(j.k, j.p, c)
    case VectorDemand(kind, calls, sp) =>
      kind < SOFTVEC_TYPE_NUM && kind != SOFTVEC_TYPE_SYSCALL &&
      (j.k.handlers[kind].User? ==> SrvAsked(SaveSp(j.k, sp), j.p, calls))
  }

  /** Whether the handler of the vector makes service calls. */
  predicate MakesCalls(k: State, kind: nat) {
    kind < SOFTVEC_TYPE_NUM && k.handlers[kind].User?
  }

  function EntryOf(j: Joint, d: Demand): (e: Entry)
    requires j.k.current.Some?
  {
    match d
    case CallDemand(c, blk, sp) => Trap(c, blk, Answer(j.p, c), sp)
    case VectorDemand(kind, calls, sp) =>
      Interrupt(kind, if MakesCalls(j.k, kind) then Answers(SaveSp(j.k, sp), j.p, calls).0 else [], sp)
  }

  function PoolsNext(j: Joint, d: Demand): (p: P.Pools)
    requires j.k.current.Some?
  {
    match d
    case CallDemand(c, _, _) => PoolsAfter(j.p, j.k, c)
    case VectorDemand(kind, calls, sp) =>
      if MakesCalls(j.k, kind) then Answers(SaveSp(j.k, sp), j.p, calls).1 else j.p
  }

  ghost predicate JointInv(j: Joint) {
    Inv(j.k) && P.PoolsOk(j.p) && Backed(j.p, j.k.heap)
  }

  lemma DemandEntry(j: Joint, d: Demand)
    requires JointInv(j) && DemandLegal(j, d)
    ensures EntryLegal(j.k, EntryOf(j, d))
  {
    hide P.PoolsOk, Answer, Inv, Answers, SrvAsked;
    match d {
      case CallDemand(c, _, _) => AskedLegal(j.k, j.p, c);
      case VectorDemand(kind, calls, sp) =>
        if MakesCalls(j.k, kind) {
          EnteredCore(j.k, Interrupt(kind, [], sp));
          SrvBacked(SaveSp(j.k, sp), j.p, calls);
        }
    }
  }

  lemma CallStep(j: Joint, d: Demand)
    requires JointInv(j) && DemandLegal(j, d) && d.CallDemand?
    requires EntryLegal(j.k, EntryOf(j, d)) && Next(j.k, EntryOf(j, d)).Up?
    ensures var r := Next(j.k, EntryOf(j, d)).value; P.PoolsOk(PoolsNext(j, d)) && Backed(PoolsNext(j, d), r.heap)
  {
    hide P.PoolsOk, Answer, Inv, Next, Backed, CallFunctions;
    var e := EntryOf(j, d);
    var k1 := GetCurrent(Entered(j.k, e));
    TrapEntry(j.k, e);
    TrapStep(j.k, e);
    SameReceivers(j.k, k1);
    AskedPopped(j.k, k1, j.p, d.call);
    CallBacked(k1, j.p, d.call);
  }

  /** What a call owes does not depend on ready queues. */
  lemma AskedPopped(k: State, k1: State, p: P.Pools, c: Call)
    requires Asked(k, p, c) && k1.boxes == k.boxes && k1.heap == k.heap && k1.current == k.current
    requires forall t: Tid :: Live(k1, t) == Live(k, t)
    ensures Asked(k1, p, c) && PoolsAfter(p, k1, c) == PoolsAfter(p, k, c)
  {
    SameReceivers(k, k1);
  }

  lemma VectorStep(j: Joint, d: Demand)
    requires JointInv(j) && DemandLegal(j, d) && d.VectorDemand?
    requires EntryLegal(j.k, EntryOf(j, d)) && Next(j.k, EntryOf(j, d)).Up?
    ensures var r := Next(j.k, EntryOf(j, d)).value; P.PoolsOk(PoolsNext(j, d)) && Backed(PoolsNext(j, d), r.heap)
  {
    hide P.PoolsOk, Answer, Inv, Backed, Answers, SrvAsked, SrvCalls;
    var e := EntryOf(j, d);
    StepInv(j.k, e);
    EnteredCore(j.k, e);
    if MakesCalls(j.k, d.kind) {
      SrvBacked(SaveSp(j.k, d.sp), j.p, d.calls);
    }
  }

  /** One entry, with the pools as its allocator: legal for the kernel, and the invariant of both is kept. */
  lemma JointStep(j: Joint, d: Demand)
    requires JointInv(j) && DemandLegal(j, d)
    ensures EntryLegal(j.k, EntryOf(j, d))
    ensures Next(j.k, EntryOf(j, d)).Up? ==> JointInv(Joint(Next(j.k, EntryOf(j, d)).value, PoolsNext(j, d)))
  {
    hide P.PoolsOk, Inv, Backed, PoolsNext, EntryOf, DemandLegal;
    DemandEntry(j, d);
    if Next(j.k, EntryOf(j, d)).Up? {
      if d.CallDemand? {
        CallStep(j, d);
      } else {
        VectorStep(j, d);
      }
    }
  }

  function JointNext(j: Joint, d: Demand): (r: Outcome<Joint>)
    requires JointInv(j) && DemandLegal(j, d)
    ensures r.Up? ==> JointInv(r.value)
  {
    JointStep(j, d);
    match Next(j.k, EntryOf(j, d))
    case Down => Down
    case Up(k) => Up(Joint(k, PoolsNext(j, d)))
  }

  ghost predicate LegalDemands(j: Joint, ds: seq<Demand>)
    requires JointInv(j)
    decreases |ds|
  {
    ds == [] ||
    (DemandLegal(j, ds[0]) && match JointNext(j, ds[0])
                              case Down => |ds| == 1
                              case Up(j1) => LegalDemands(j1, ds[1..]))
  }

  function JointRun(j: Joint, ds: seq<Demand>): (r: Outcome<Joint>)
    requires JointInv(j) && LegalDemands(j, ds)
    ensures r.Up? ==> JointInv(r.value)
    decreases |ds|
  {
    if ds == [] then Up(j)
    else
      match JointNext(j, ds[0])
      case Down => Down
      case Up(j1) => JointRun(j1, ds[1..])
  }

  /** The entries of a run, with the answers that the pools give. */
  ghost function EntriesOf(j: Joint, ds: seq<Demand>): (es: seq<Entry>)
    requires JointInv(j) && LegalDemands(j, ds)
    decreases |ds|
  {
    if ds == [] then []
    else [EntryOf(j, ds[0])] + match JointNext(j, ds[0]) case Down => [] case Up(j1) => EntriesOf(j1, ds[1..])
  }

  /** So every run with the pools is a legal run of the kernel, and all that holds of those holds of it. */
  lemma {:induction false} JointIsRun(j: Joint, ds: seq<Demand>)
    requires JointInv(j) && LegalDemands(j, ds)
    ensures LegalRun(j.k, EntriesOf(j, ds))
    ensures JointRun(j, ds).Down? ==> Execute(j.k, EntriesOf(j, ds)).Down?
    ensures JointRun(j, ds).Up? ==> Execute(j.k, EntriesOf(j, ds)) == Up(JointRun(j, ds).value.k)
    decreases |ds|
  {
    hide Next, JointInv, Inv, EntryOf, DemandLegal;
    if ds != [] {
      JointStep(j, ds[0]);
      var es := EntriesOf(j, ds);
      JointFacts(j);
      match JointNext(j, ds[0]) {
        case Down =>
          assert es == [EntryOf(j, ds[0])];
        case Up(j1) =>
          JointIsRun(j1, ds[1..]);
          JointFacts(j1);
          assert es[1..] == EntriesOf(j1, ds[1..]);
      }
    } else {
      JointFacts(j);
    }
  }

  lemma JointFacts(j: Joint)
    requires JointInv(j)
    ensures Inv(j.k) && j.k.current.Some?
  {
    RunningThread(j.k);
  }

  // ---------------------------------------------------------------- capacity

  lemma {:induction false} SubsetCount(heap: set<int>, used: set<int>)
    requires forall a: int :: a in heap ==> a - P.HEADER in used
    ensures |heap| <= |used|
  {
    if heap != {} {
      var a := Member(heap);
      SubsetCount(heap - {a}, used - {a - P.HEADER});
    }
  }

  lemma Member<T>(s: set<T>) returns (a: T)
    requires s != {}
    ensures a in s
  {
    a :| a in s;
  }

  lemma QueuedBelow(j: Joint)
    requires JointInv(j)
    ensures Queued(j.k.boxes, MSGBOX_ID_NUM) <= |j.p[MSG_POOL].used| <= 32
  {
    BufferConservation(j.k);
    SubsetCount(j.k.heap, j.p[MSG_POOL].used);
  }

  /** `kz_start`: the kernel on fresh pools. */
  lemma JointBoot(stackTop: int, c: Call, area: int)
    requires c.Run? && c.func != 0 && 0 <= c.priority < PRIORITY_NUM && INITIAL_FRAME <= c.stacksize
    ensures JointInv(Joint(Boot(stackTop, c), P.Initial(area)))
  {
    hide Inv, P.PoolsOk;
    BootHeap(stackTop, c);
    P.InitialOk(area);
  }

  lemma BootHeap(stackTop: int, c: Call)
    requires c.Run? && c.func != 0 && 0 <= c.priority < PRIORITY_NUM && INITIAL_FRAME <= c.stacksize
    ensures Boot(stackTop, c).heap == {}
  {
  }

  /** Over every run from `kz_start`, all mailboxes together never hold more than 32 messages. */
  lemma RunCapacity(stackTop: int, c: Call, area: int, ds: seq<Demand>)
    requires c.Run? && c.func != 0 && 0 <= c.priority < PRIORITY_NUM && INITIAL_FRAME <= c.stacksize
    requires var j := Joint(Boot(stackTop, c), P.Initial(area));
             JointInv(j) && LegalDemands(j, ds) && JointRun(j, ds).Up?
    ensures var r := JointRun(Joint(Boot(stackTop, c), P.Initial(area)), ds).value;
            Queued(r.k.boxes, MSGBOX_ID_NUM) <= |r.p[MSG_POOL].used| <= 32
  {
    hide Boot, JointInv, LegalDemands;
    QueuedBelow(JointRun(Joint(Boot(stackTop, c), P.Initial(area)), ds).value);
  }

  /** A send brings the system down iff all 32 blocks of 64 bytes are in use, by whomever. */
  lemma SendDownIff(j: Joint, d: Demand)
    requires JointInv(j) && DemandLegal(j, d) && d.CallDemand? && d.call.Send?
    ensures JointNext(j, d).Down? <==> |j.p[MSG_POOL].used| == 32
  {
    hide Next, Inv, P.PoolsOk;
    JointStep(j, d);
    MsgFit();
    P.AllocFailsIff(j.p, MSGBUF_SIZE);
    TrapDownIff(j.k, EntryOf(j, d));
  }

  // ---------------------------------------------------------------- what each call does to the pools

  /** A block taken from the front of the free list of pool `i`. */
  ghost predicate Took(p: P.Pools, i: P.PoolId, r: P.Pools, mem: int) {
    p[i].free != [] && mem == p[i].free[0] + 8 && r == p[i := P.Pool(p[i].free[1..], p[i].used + {p[i].free[0]})]
  }

  /** A block put in front of the free list of pool `i`. */
  ghost predicate Gave(p: P.Pools, i: P.PoolId, r: P.Pools, mem: int) {
    mem - 8 in p[i].used && r == p[i := P.Pool([mem - 8] + p[i].free, p[i].used - {mem - 8})]
  }

  /** The pool that serves a size of at most 2040 bytes. */
  function Serving(size: int): (i: P.PoolId) {
    if size <= 8 then 0 else if size <= 56 then 1 else if size <= 248 then 2 else 3
  }

  /**
   kmalloc: it brings the system down iff no pool serves the size or all blocks of the one that does are in
   use; else the caller finds the address of its first free block, which is in use from then on.
   */
  lemma KMallocEffect(j: Joint, d: Demand)
    requires JointInv(j) && DemandLegal(j, d) && d.CallDemand? && d.call.KMalloc?
    ensures var size, i := d.call.bytes, Serving(d.call.bytes);
            JointNext(j, d).Down? <==> size < 0 || size > 2040 || |j.p[i].used| == if i == 3 then 16 else 32
    ensures JointNext(j, d).Up? ==>
              var r, blk := JointNext(j, d).value, JointNext(j, d).value.k.tcbs[j.k.current.value].param;
              blk.Some? && blk.value.ret.Num? && Took(j.p, Serving(d.call.bytes), r.p, blk.value.ret.n)
  {
    hide Next, Inv, P.PoolsOk, P.Alloc, P.Fit;
    JointStep(j, d);
    P.PoolOfSize(j.p, d.call.bytes);
    TrapDownIff(j.k, EntryOf(j, d));
    if JointNext(j, d).Up? {
      P.AllocTakes(j.p, d.call.bytes);
      PlainEffect(j.k, EntryOf(j, d));
    }
  }

  /** kmfree: the block is the first free one of the pool that had it in use. */
  lemma KMFreeEffect(j: Joint, d: Demand, i: P.PoolId)
    requires JointInv(j) && DemandLegal(j, d) && d.CallDemand? && d.call.KMFree? && d.call.mem - 8 in j.p[i].used
    ensures JointNext(j, d).Up? && Gave(j.p, i, JointNext(j, d).value.p, d.call.mem)
  {
    P.OnePool(j.p, d.call.mem - 8);
    hide Next, Inv, P.PoolsOk;
    JointStep(j, d);
    TrapDownIff(j.k, EntryOf(j, d));
  }

  /**
   send: the buffer is a block of 64 bytes; with a receiver waiting it is given back at once, and the pools
   are as before.
   */
  lemma SendPools(j: Joint, d: Demand)
    requires JointInv(j) && DemandLegal(j, d) && d.CallDemand? && d.call.Send? && JointNext(j, d).Up?
    ensures var b, r := d.call.to, JointNext(j, d).value;
            if j.k.boxes[b].receiver.Some? then r.p == j.p
            else var msgs := r.k.boxes[b].msgs; msgs != [] && Took(j.p, 1, r.p, msgs[|msgs| - 1].addr)
  {
    hide Next, Inv, P.PoolsOk, P.Alloc, P.Fit;
    JointStep(j, d);
    var e, b := EntryOf(j, d), d.call.to;
    MsgFit();
    if j.k.boxes[b].receiver.Some? {
      Receiver(j.k, b, j.k.boxes[b].receiver.value);
      SendHandsOver(j.k, e, j.k.current.value, b, j.k.boxes[b].receiver.value);
      HandedBack(j.p);
    } else {
      SendEffect(j.k, e, j.k.current.value, b);
      P.AllocTakes(j.p, MSGBUF_SIZE);
    }
  }

  lemma HandedBack(p: P.Pools)
    requires P.PoolsOk(p) && P.Alloc(p, MSGBUF_SIZE).Some?
    ensures P.Release(PoolsAlloc(p, MSGBUF_SIZE), P.Alloc(p, MSGBUF_SIZE).value.1) == p
  {
    MsgFit();
    var (r, mem) := P.Alloc(p, MSGBUF_SIZE).value;
    P.AllocOk(p, MSGBUF_SIZE);
    P.AllocThenFree(p, MSGBUF_SIZE);
    P.OnePool(r, mem - P.HEADER);
  }

  /** recv from a box with mail: the buffer of the oldest message is the first free block of 64 bytes. */
  lemma RecvPools(j: Joint, d: Demand)
    requires JointInv(j) && DemandLegal(j, d) && d.CallDemand? && d.call.Recv? && JointNext(j, d).Up?
    requires j.k.boxes[d.call.from].msgs != []
    ensures Gave(j.p, 1, JointNext(j, d).value.p, j.k.boxes[d.call.from].msgs[0].addr)
  {
    var b := d.call.from;
    var mem := j.k.boxes[b].msgs[0].addr;
    FirstStored(j.k, b, j.k.boxes[b].msgs[0], mem);
    P.OnePool(j.p, mem - 8);
    hide Next, Inv, P.PoolsOk;
    JointStep(j, d);
    RecvTakes(j.k, EntryOf(j, d));
  }

  /** Every other call leaves the pools alone. */
  lemma OtherPools(j: Joint, d: Demand)
    requires JointInv(j) && DemandLegal(j, d) && d.CallDemand? && JointNext(j, d).Up?
    requires !d.call.KMalloc? && !d.call.KMFree? && !d.call.Send?
    requires d.call.Recv? ==> j.k.boxes[d.call.from].msgs == []
    ensures JointNext(j, d).value.p == j.p
  {
    hide Next, Inv;
    JointStep(j, d);
  }

  /** What the allocator answers to a call in state `k`, and what the call leaves of the pools. */
  ghost predicate PoolEffect(p: P.Pools, k: State, c: Call, alloc: Option<int>, r: P.Pools) {
    match c
    case KMalloc(size) => if alloc.Some? then Took(p, Serving(size), r, alloc.value) else r == p
    case KMFree(mem) => alloc.Some? && forall i: P.PoolId :: mem - 8 in p[i].used ==> Gave(p, i, r, mem)
    case Send(b, _, _) =>
      b < MSGBOX_ID_NUM &&
      if alloc == None then p[1].free == [] && r == p
      else if k.boxes[b].receiver.Some? then r == p && p[1].free != [] && alloc.value == p[1].free[0] + 8
      else Took(p, 1, r, alloc.value)
    case Recv(b, _, _) =>
      b < MSGBOX_ID_NUM &&
      if k.boxes[b].receiver == None && k.boxes[b].msgs != [] then Gave(p, 1, r, k.boxes[b].msgs[0].addr) else r == p
    case _ => r == p
  }

  lemma PoolEffectIs(p: P.Pools, k: State, c: Call)
    requires Core(k) && P.PoolsOk(p) && Backed(p, k.heap) && Asked(k, p, c)
    ensures PoolEffect(p, k, c, Answer(p, c), PoolsAfter(p, k, c))
  {
    match c {
      case KMalloc(size) =>
        hide P.PoolsOk;
        P.PoolOfSize(p, size);
      case KMFree(mem) =>
        P.OnePool(p, mem - 8);
      case Send(b, _, _) => SendPoolEffect(p, k, c);
      case Recv(b, _, _) =>
        if k.boxes[b].msgs != [] {
          FirstStored(k, b, k.boxes[b].msgs[0], 0);
          P.OnePool(p, k.boxes[b].msgs[0].addr - 8);
        }
      case _ =>
    }
  }

  lemma SendPoolEffect(p: P.Pools, k: State, c: Call)
    requires Core(k) && P.PoolsOk(p) && c.Send? && c.to < MSGBOX_ID_NUM
    ensures PoolEffect(p, k, c, Answer(p, c), PoolsAfter(p, k, c))
  {
    MsgFit();
    if P.Alloc(p, MSGBUF_SIZE).Some? {
      HandedBack(p);
      assert k.boxes[c.to].receiver.Some? ==> k.boxes[c.to].msgs == [];
    }
  }

  /** The pools between the service calls of a handler: each call is answered from those the calls before it left. */
  lemma AnswersEffect(k: State, p: P.Pools, calls: seq<Call>) returns (ks: seq<State>, ps: seq<P.Pools>)
    requires Core(k) && P.PoolsOk(p) && Backed(p, k.heap) && SrvAsked(k, p, calls)
    requires SrvLegal(k, Answers(k, p, calls).0) && SrvOk(k, Answers(k, p, calls).0)
    requires SrvCalls(k, Answers(k, p, calls).0).Up?
    ensures var (s, r) := Answers(k, p, calls);
            |s| == |calls| && |ps| == |calls| + 1 && ps[0] == p && ps[|calls|] == r
            && |ks| == |calls| + 1 && ks[0] == k && ks[|calls|] == SrvCalls(k, s).value
            && (forall i :: 0 <= i < |calls| ==> s[i].call == calls[i] && PoolEffect(ps[i], ks[i], calls[i], s[i].alloc, ps[i + 1]))
    decreases |calls|
  {
    hide Core, Backed, P.PoolsOk, CallFunctions, PoolsAfter, Answer, Asked, PoolEffect;
    ks, ps := [k], [p];
    if calls != [] {
      var k1, alloc := k.(current := None), Answer(p, calls[0]);
      AskedLegal(k, p, calls[0]);
      RecurrentCore(k, None);
      SameReceivers(k, k1);
      AskedSame(k, k1, p, calls[0]);
      CallCore(k1, calls[0], alloc);
      PoolEffectIs(p, k1, calls[0]);
      PoolEffectSame(p, k, k1, calls[0], alloc, PoolsAfter(p, k1, calls[0]));
      var s := Answers(k, p, calls).0;
      FirstUp(k, s);
      var r := SrvcallProc(k, calls[0], alloc).value.0;
      CallBacked(k1, p, calls[0]);
      var p1 := PoolsAfter(p, k1, calls[0]);
      var rest := Answers(r, p1, calls[1..]).0;
      assert s == [SrvCall(calls[0], alloc)] + rest && s[1..] == rest;
      var ls, qs := AnswersEffect(r, p1, calls[1..]);
      ks, ps := [k] + ls, [p] + qs;
      forall i | 0 <= i < |calls|
        ensures s[i].call == calls[i] && PoolEffect(ps[i], ks[i], calls[i], s[i].alloc, ps[i + 1])
      {
        if i > 0 {
          var j := i - 1;
          assert rest[j].call == calls[1..][j] && PoolEffect(qs[j], ls[j], calls[1..][j], rest[j].alloc, qs[j + 1]);
        }
      }
    }
  }

  lemma FirstUp(k: State, s: seq<SrvCall>)
    requires s != [] && SrvOk(k, s) && SrvCalls(k, s).Up?
    ensures CallOk(k.(current := None), s[0].call) && SrvcallProc(k, s[0].call, s[0].alloc).Up?
    ensures SrvCalls(k, s) == SrvCalls(SrvcallProc(k, s[0].call, s[0].alloc).value.0, s[1..])
  {
    hide CallFunctions;
  }

  lemma PoolEffectSame(p: P.Pools, k: State, k1: State, c: Call, alloc: Option<int>, r: P.Pools)
    requires PoolEffect(p, k1, c, alloc, r) && k1.boxes == k.boxes
    ensures PoolEffect(p, k, c, alloc, r)
  {
  }
}
