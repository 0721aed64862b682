/**
 The KOZOS kernel on values: the ready queues are sequences of thread numbers, each mailbox is a
 sequence of message buffers and an optional receiver.  One function per function of kozos.c, with
 the same branches; `KernelHeap` proves the pointer kernel against these functions.
 */
module KernelSpec {
  import opened Prelude

  const THREAD_NUM: nat := 16
  const PRIORITY_NUM: nat := 16
  const MSGBOX_ID_NUM: nat := 17
  const SOFTVEC_TYPE_NUM: nat := 6
  const SOFTVEC_TYPE_SOFTERR: nat := 0
  const SOFTVEC_TYPE_SYSCALL: nat := 1

  /** A TCB is named by its index in `threads`, a mailbox by its index in `msgboxes`. */
  type Tid = t: nat | t < 16
  type Pri = p: nat | p < 16
  type BoxId = b: nat | b < 17

  /** Nine 32-bit words are pushed on a new stack before the first dispatch. */
  const INITIAL_FRAME: nat := 36

  /** The value a call stores in its parameter block; `Thread(t)` is the address of TCB `t`. */
  datatype Ret = Unset | Num(n: int) | Thread(t: Tid)

  /** A parameter block: its address, its `ret`, and the cells `*sizep` and `*pp` of a receive. */
  datatype Block = Block(at: int, ret: Ret, size: int, p: int)

  datatype Call =
    | Run(func: int, priority: int, stacksize: nat, argc: int, argv: int)
    | Exit
    | Wait
    | Sleep
    | Wakeup(id: nat)
    | GetId
    | ChPri(newPriority: int)
    | KMalloc(bytes: int)
    | KMFree(mem: int)
    | Send(to: nat, size: int, p: int)
    | Recv(from: nat, sizep: Option<int>, pp: Option<int>)
    | SetIntr(kind: nat, handler: int)
    | Unknown

  datatype Handler = NoHandler | SyscallIntr | SoftErrIntr | User(h: int)

  datatype Tcb = Tcb(
    priority: Pri, ready: bool,
    base: int, stack: int,
    func: int, argc: int, argv: int,
    call: Option<Call>, param: Option<Block>,
    sp: int)

  const ZERO_TCB := Tcb(0, false, 0, 0, 0, 0, 0, None, None, 0)

  /** A message buffer: where it was allocated, who sent it (`None` for a service call), and what. */
  datatype Msg = Msg(addr: int, sender: Option<Tid>, size: int, p: int)

  datatype Box = Box(receiver: Option<Tid>, msgs: seq<Msg>)

  datatype Event =
    | Sent(box: BoxId, msg: Msg)
    | Delivered(box: BoxId, to: Tid, msg: Msg)

  type Tcbs = s: seq<Tcb> | |s| == 16 witness seq(16, _ => ZERO_TCB)
  type Queues = s: seq<seq<Tid>> | |s| == 16 witness seq(16, _ => [])
  type Boxes = s: seq<Box> | |s| == 17 witness seq(17, _ => Box(None, []))
  type Handlers = s: seq<Handler> | |s| == 6 witness seq(6, _ => NoHandler)

  /** `heap` holds the message buffers allocated and not yet freed; `log` is the history of mail. */
  datatype State = State(
    tcbs: Tcbs, queues: Queues, boxes: Boxes, handlers: Handlers,
    current: Option<Tid>, stackTop: int, heap: set<int>, log: seq<Event>)

  predicate Live(k: State, t: Tid)
  {
    k.tcbs[t].func != 0
  }

  predicate Ready(k: State, t: Tid)
  {
    k.tcbs[t].ready
  }

  /** Thread `t` is registered as the receiver of box `b`. */
  predicate Waits(k: State, t: Tid, b: BoxId)
  {
    k.boxes[b].receiver == Some(t)
  }

  // ---------------------------------------------------------------- ready queues

  /** What is left of a chain once its head pointer is moved to the successor of `t`. */
  function Successors(q: seq<Tid>, t: Tid): (r: seq<Tid>)
  {
    if q == [] then [] else if q[0] == t then q[1..] else Successors(q[1..], t)
  }

  function GetCurrent(k: State): (r: State)
  {
    match k.current
    case None => k
    case Some(t) =>
      if !k.tcbs[t].ready then k
      else
        var p := k.tcbs[t].priority;
        k.(queues := k.queues[p := Successors(k.queues[p], t)],
           tcbs := k.tcbs[t := k.tcbs[t].(ready := false)])
  }

  function PutCurrent(k: State): (r: State)
  {
    match k.current
    case None => k
    case Some(t) =>
      if k.tcbs[t].ready then k
      else
        var p := k.tcbs[t].priority;
        k.(queues := k.queues[p := k.queues[p] + [t]],
           tcbs := k.tcbs[t := k.tcbs[t].(ready := true)])
  }

  // ---------------------------------------------------------------- system calls

  /** The index of the first free TCB at or after `i`, or the table size. */
  function FirstFree(tcbs: seq<Tcb>, i: nat): (r: nat)
    requires i <= |tcbs|
    ensures i <= r <= |tcbs|
    ensures r < |tcbs| ==> tcbs[r].func == 0
    ensures forall j :: i <= j < r ==> tcbs[j].func != 0
    decreases |tcbs| - i
  {
    if i == |tcbs| then i else if tcbs[i].func == 0 then i else FirstFree(tcbs, i + 1)
  }

  function NewTcb(c: Call, stackTop: int): (r: Tcb)
    requires c.Run? && 0 <= c.priority < PRIORITY_NUM
  {
    Tcb(c.priority, false, stackTop, stackTop + c.stacksize, c.func, c.argc, c.argv, None, None,
        stackTop + c.stacksize - INITIAL_FRAME)
  }

  function InitTcb(k: State, c: Call, i: Tid): (r: State)
    requires c.Run? && 0 <= c.priority < PRIORITY_NUM
  {
    k.(tcbs := k.tcbs[i := NewTcb(c, k.stackTop)], stackTop := k.stackTop + c.stacksize)
  }

  /** Put the current thread on its queue, then thread `i`, which is left as the current one. */
  function PutBoth(k: State, i: Tid): (r: State)
  {
    PutCurrent(PutCurrent(k).(current := Some(i)))
  }

  function ThreadRun(k: State, c: Call): (r: (State, Ret))
    requires c.Run? && 0 <= c.priority < PRIORITY_NUM
  {
    var i := FirstFree(k.tcbs, 0);
    if i == THREAD_NUM then (k, Num(-1))  // the caller is not put back
    else (PutBoth(InitTcb(k, c, i), i), Thread(i))
  }

  function ThreadExit(k: State): (r: State)
    requires k.current.Some?
  {
    k.(tcbs := k.tcbs[k.current.value := ZERO_TCB])
  }

  function ThreadWakeup(k: State, id: Tid): (r: (State, Ret))
  {
    (PutBoth(k, id), Num(0))
  }

  function ThreadGetId(k: State): (r: (State, Ret))
  {
    (PutCurrent(k), if k.current.Some? then Thread(k.current.value) else Num(0))
  }

  function ThreadChPri(k: State, priority: int): (r: (State, Ret))
    requires k.current.Some? && priority < PRIORITY_NUM
  {
    var t := k.current.value;
    var k1 := if priority >= 0 then k.(tcbs := k.tcbs[t := k.tcbs[t].(priority := priority)]) else k;
    (PutCurrent(k1), Num(k.tcbs[t].priority))
  }

  /** `alloc` is the answer of the memory manager; `None` means that it brought the system down. */
  function ThreadKMalloc(k: State, alloc: Option<int>): (r: Outcome<(State, Ret)>)
  {
    if alloc == None then Down else Up((PutCurrent(k), Num(alloc.value)))
  }

  function ThreadKMFree(k: State, alloc: Option<int>): (r: Outcome<(State, Ret)>)
  {
    if alloc == None then Down else Up((PutCurrent(k), Num(0)))
  }

  // ---------------------------------------------------------------- mailboxes

  function SendMsg(k: State, b: BoxId, sender: Option<Tid>, size: int, p: int, addr: int): (r: State)
  {
    var m := Msg(addr, sender, size, p);
    k.(boxes := k.boxes[b := k.boxes[b].(msgs := k.boxes[b].msgs + [m])],
       heap := k.heap + {addr},
       log := k.log + [Sent(b, m)])
  }

  function SenderId(m: Msg): (r: Ret) {
    if m.sender.Some? then Thread(m.sender.value) else Num(0)
  }

  /** What a delivery writes into the parameter block of the receiving call. */
  function Fill(call: Option<Call>, blk: Block, m: Msg): (r: Block) {
    blk.(ret := SenderId(m),
         size := if call.Some? && call.value.Recv? && call.value.sizep == None then blk.size else m.size,
         p := if call.Some? && call.value.Recv? && call.value.pp == None then blk.p else m.p)
  }

  function FillParam(tcb: Tcb, m: Msg): (r: Tcb) {
    if tcb.param.Some? then tcb.(param := Some(Fill(tcb.call, tcb.param.value, m))) else tcb
  }

  function RecvMsg(k: State, b: BoxId): (r: State)
    requires k.boxes[b].receiver.Some? && k.boxes[b].msgs != []
  {
    var m := k.boxes[b].msgs[0];
    var t := k.boxes[b].receiver.value;
    k.(boxes := k.boxes[b := Box(None, k.boxes[b].msgs[1..])],
       tcbs := k.tcbs[t := FillParam(k.tcbs[t], m)],
       heap := k.heap - {m.addr},
       log := k.log + [Delivered(b, t, m)])
  }

  function ThreadSend(k: State, b: BoxId, size: int, p: int, alloc: Option<int>): (r: Outcome<(State, Ret)>)
  {
    var k1 := PutCurrent(k);
    if alloc == None then Down
    else
      var k2 := SendMsg(k1, b, k1.current, size, p, alloc.value);
      if k2.boxes[b].receiver.Some? then
        var k3 := k2.(current := k2.boxes[b].receiver);
        Up((PutCurrent(RecvMsg(k3, b)), Num(size)))
      else
        Up((k2, Num(size)))
  }

  function RetOf(tcb: Tcb): (r: Ret) {
    if tcb.param.Some? then tcb.param.value.ret else Unset
  }

  function ThreadRecv(k: State, b: BoxId): (r: Outcome<(State, Ret)>)
    requires k.current.Some?
  {
    if k.boxes[b].receiver.Some? then Down
    else
      var k1 := k.(boxes := k.boxes[b := k.boxes[b].(receiver := k.current)]);
      if k1.boxes[b].msgs == [] then Up((k1, Num(-1)))
      else
        var k2 := RecvMsg(k1, b);
        var k3 := PutCurrent(k2);
        Up((k3, RetOf(k3.tcbs[k3.current.value])))
  }

  function ThreadSetIntr(k: State, kind: nat, h: Handler): (r: (State, Ret))
    requires kind < SOFTVEC_TYPE_NUM
  {
    (PutCurrent(k.(handlers := k.handlers[kind := h])), Num(0))
  }

  function UserHandler(h: int): (r: Handler) {
    if h == 0 then NoHandler else User(h)
  }

  // ---------------------------------------------------------------- kernel entries

  /** What a call must satisfy for its handler not to index outside a table or read a null `current`. */
  predicate CallOk(k: State, c: Call) {
    match c
    case Run(_, priority, _, _, _) => 0 <= priority < PRIORITY_NUM
    case Exit => k.current.Some?
    case Wakeup(id) => id < THREAD_NUM
    case ChPri(priority) => k.current.Some? && priority < PRIORITY_NUM
    case Send(b, _, _) => b < MSGBOX_ID_NUM
    case Recv(b, _, _) => b < MSGBOX_ID_NUM && k.current.Some?
    case SetIntr(kind, _) => kind < SOFTVEC_TYPE_NUM
    case _ => true
  }

  function CallFunctions(k: State, c: Call, alloc: Option<int>): (r: Outcome<(State, Ret)>)
    requires CallOk(k, c)
  {
    match c
    case Run(_, _, _, _, _) => Up(ThreadRun(k, c))
    case Exit => Up((ThreadExit(k), Unset))
    case Wait => Up((PutCurrent(k), Num(0)))
    case Sleep => Up((k, Num(0)))
    case Wakeup(id) => Up(ThreadWakeup(k, id))
    case GetId => Up(ThreadGetId(k))
    case ChPri(priority) => Up(ThreadChPri(k, priority))
    case KMalloc(_) => ThreadKMalloc(k, alloc)
    case KMFree(_) => ThreadKMFree(k, alloc)
    case Send(b, size, p) => ThreadSend(k, b, size, p, alloc)
    case Recv(b, _, _) => ThreadRecv(k, b)
    case SetIntr(kind, h) => Up(ThreadSetIntr(k, kind, UserHandler(h)))
    case Unknown => Up((k, Unset))
  }

  /** The handlers of exit and of an unknown type store nothing in the parameter block. */
  predicate StoresRet(c: Call) {
    !c.Exit? && !c.Unknown?
  }

  function SetRet(k: State, t: Tid, v: Ret): (r: State)
  {
    match k.tcbs[t].param
    case None => k
    case Some(blk) => k.(tcbs := k.tcbs[t := k.tcbs[t].(param := Some(blk.(ret := v)))])
  }

  function SyscallProc(k: State, alloc: Option<int>): (r: Outcome<State>)
    requires k.current.Some? && k.tcbs[k.current.value].call.Some?
    requires CallOk(GetCurrent(k), k.tcbs[k.current.value].call.value)
  {
    var t := k.current.value;
    var c := k.tcbs[t].call.value;
    match CallFunctions(GetCurrent(k), c, alloc)
    case Down => Down
    case Up((k1, v)) => if StoresRet(c) then Up(SetRet(k1, t, v)) else Up(k1)
  }

  function SrvcallProc(k: State, c: Call, alloc: Option<int>): (r: Outcome<(State, Ret)>)
    requires CallOk(k.(current := None), c)
  {
    CallFunctions(k.(current := None), c, alloc)
  }

  /** The number of the first non-empty queue at or after `i`, or the number of queues. */
  function FirstNonEmpty(queues: seq<seq<Tid>>, i: nat): (r: nat)
    requires i <= |queues|
    ensures i <= r <= |queues|
    ensures r < |queues| ==> queues[r] != []
    ensures forall j :: i <= j < r ==> queues[j] == []
    decreases |queues| - i
  {
    if i == |queues| then i else if queues[i] != [] then i else FirstNonEmpty(queues, i + 1)
  }

  function Schedule(k: State): (r: Outcome<State>)
  {
    var p := FirstNonEmpty(k.queues, 0);
    if p == PRIORITY_NUM then Down else Up(k.(current := Some(k.queues[p][0])))
  }

  function SoftErr(k: State): (r: State)
    requires k.current.Some?
  {
    ThreadExit(GetCurrent(k))
  }

  function SaveSp(k: State, sp: int): (r: State)
    requires k.current.Some?
  {
    var t := k.current.value;
    k.(tcbs := k.tcbs[t := k.tcbs[t].(sp := sp)])
  }

  /** One service call of an interrupt handler. */
  datatype SrvCall = SrvCall(call: Call, alloc: Option<int>)

  /**
   One entry into the kernel.  `Trap` is a system call of the running thread, with the parameter
   block it passes (ignored by exit, which passes a null pointer); `Interrupt` is any other vector,
   with the service calls that a registered handler makes.
   */
  datatype Entry =
    | Trap(call: Call, blk: Block, alloc: Option<int>, sp: int)
    | Interrupt(kind: nat, calls: seq<SrvCall>, sp: int)

  /** What `kz_syscall` stores before trapping. */
  function SetCall(k: State, c: Call, blk: Block): (r: State)
    requires k.current.Some?
  {
    var t := k.current.value;
    k.(tcbs := k.tcbs[t := k.tcbs[t].(call := Some(c), param := if c.Exit? then None else Some(blk))])
  }

  /** The service calls of one handler, in order; defined while each call is. */
  predicate SrvOk(k: State, calls: seq<SrvCall>)
    decreases |calls|
  {
    calls == [] ||
    (CallOk(k.(current := None), calls[0].call) &&
     var r := SrvcallProc(k, calls[0].call, calls[0].alloc);
     r.Up? ==> SrvOk(r.value.0, calls[1..]))
  }

  function SrvCalls(k: State, calls: seq<SrvCall>): (r: Outcome<State>)
    requires SrvOk(k, calls)
    decreases |calls|
  {
    if calls == [] then Up(k)
    else
      match SrvcallProc(k, calls[0].call, calls[0].alloc)
      case Down => Down
      case Up((k1, _)) => SrvCalls(k1, calls[1..])
  }

  function EntryKind(e: Entry): (r: nat) {
    if e.Trap? then SOFTVEC_TYPE_SYSCALL else e.kind
  }

  function EntryCalls(e: Entry): (r: seq<SrvCall>) {
    if e.Trap? then [] else e.calls
  }

  function EntryAlloc(e: Entry): (r: Option<int>) {
    if e.Trap? then e.alloc else None
  }

  /** When the registered handler of vector `kind` is defined. */
  predicate HandlerOk(k: State, kind: nat, calls: seq<SrvCall>)
  {
    kind < SOFTVEC_TYPE_NUM && k.current.Some? &&
    match k.handlers[kind]
    case NoHandler => true
    case SyscallIntr =>
      k.tcbs[k.current.value].call.Some? && CallOk(GetCurrent(k), k.tcbs[k.current.value].call.value)
    case SoftErrIntr => true
    case User(_) => SrvOk(k, calls)
  }

  function RunHandler(k: State, kind: nat, calls: seq<SrvCall>, alloc: Option<int>): (r: Outcome<State>)
    requires HandlerOk(k, kind, calls)
  {
    match k.handlers[kind]
    case NoHandler => Up(k)
    case SyscallIntr => SyscallProc(k, alloc)
    case SoftErrIntr => Up(SoftErr(k))
    case User(_) => SrvCalls(k, calls)
  }

  /** `thread_intr` up to the dispatch: save the stack pointer, run the handler, schedule. */
  function ThreadIntr(k: State, kind: nat, sp: int, calls: seq<SrvCall>, alloc: Option<int>): (r: Outcome<State>)
    requires k.current.Some? && HandlerOk(SaveSp(k, sp), kind, calls)
  {
    match RunHandler(SaveSp(k, sp), kind, calls, alloc)
    case Down => Down
    case Up(k1) => Schedule(k1)
  }

  ghost predicate EntryOk(k: State, e: Entry) {
    && k.current.Some?
    && HandlerOk(SaveSp(Prepared(k, e), e.sp), EntryKind(e), EntryCalls(e))
  }

  function Prepared(k: State, e: Entry): (r: State)
    requires k.current.Some?
    ensures r.current == k.current
  {
    if e.Trap? then SetCall(k, e.call, e.blk) else k
  }

  /** One kernel entry, from the running thread to the thread dispatched next. */
  function Step(k: State, e: Entry): (r: Outcome<State>)
    requires EntryOk(k, e)
  {
    ThreadIntr(Prepared(k, e), EntryKind(e), e.sp, EntryCalls(e), EntryAlloc(e))
  }

  // ---------------------------------------------------------------- start

  function Cleared(stackTop: int): (r: State)
  {
    State(seq(THREAD_NUM, _ => ZERO_TCB), seq(PRIORITY_NUM, _ => []),
          seq(MSGBOX_ID_NUM, _ => Box(None, [])), seq(SOFTVEC_TYPE_NUM, _ => NoHandler),
          None, stackTop, {}, [])
  }

  /** `kz_start` up to its dispatch. */
  function Start(stackTop: int, c: Call): (r: State)
    requires c.Run? && 0 <= c.priority < PRIORITY_NUM
  {
    var k1 := ThreadSetIntr(Cleared(stackTop), SOFTVEC_TYPE_SYSCALL, SyscallIntr).0;
    var k2 := ThreadSetIntr(k1, SOFTVEC_TYPE_SOFTERR, SoftErrIntr).0;
    ThreadRun(k2, c).0
  }
}
