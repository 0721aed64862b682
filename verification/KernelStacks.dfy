/**
 Where the kernel's data on thread stacks lies: which stacks live threads have, and the parameter
 blocks of their calls on them.
 */
module KernelStacks {
  import opened Prelude
  import opened KernelSpec
  import opened KernelInvariant
  import opened KernelScheduling
  import opened KernelLifecycle

  // ---------------------------------------------------------------- what the kernel does to stacks

  function PlaceOf(param: Option<Block>): (at: Option<int>) {
    if param == None then None else Some(param.value.at)
  }

  /** Thread `t` has the same stack, with the same frame, call and parameter block on it. */
  ghost predicate SameStack(k: State, r: State, t: Tid) {
    r.tcbs[t].base == k.tcbs[t].base && r.tcbs[t].stack == k.tcbs[t].stack && r.tcbs[t].sp == k.tcbs[t].sp
    && r.tcbs[t].call == k.tcbs[t].call && PlaceOf(r.tcbs[t].param) == PlaceOf(k.tcbs[t].param)
  }

  /** Thread `t` of `r` has a stack above everything allocated in `k`, with the first frame at its top. */
  ghost predicate NewStack(k: State, r: State, t: Tid) {
    var tcb := r.tcbs[t];
    k.stackTop <= tcb.base && tcb.base + INITIAL_FRAME <= tcb.stack <= r.stackTop && tcb.sp == tcb.stack - INITIAL_FRAME
    && tcb.param == None
  }

  /** Live threads keep their stacks; new ones get stacks that nobody had. */
  ghost predicate StackStep(k: State, r: State, t: Tid) {
    && k.stackTop <= r.stackTop
    && (Live(k, t) && Live(r, t) ==> SameStack(k, r, t))
    && (!Live(k, t) && Live(r, t) ==> NewStack(k, r, t))
  }

  lemma PutStack(k: State, t: Tid)
    ensures StackStep(k, PutCurrent(k), t) && PutCurrent(k).stackTop == k.stackTop
    ensures Live(PutCurrent(k), t) == Live(k, t) && PutCurrent(k).tcbs[t].base == k.tcbs[t].base
    ensures SameStack(k, PutCurrent(k), t)
  {
  }

  lemma PutBothStack(k: State, i: Tid, t: Tid)
    ensures PutBoth(k, i).stackTop == k.stackTop && Live(PutBoth(k, i), t) == Live(k, t) && SameStack(k, PutBoth(k, i), t)
  {
    PutStack(k, t);
    PutStack(PutCurrent(k).(current := Some(i)), t);
  }

  lemma CallStack(k: State, c: Call, alloc: Option<int>, t: Tid)
    requires CallOk(k, c) && CallFunctions(k, c, alloc).Up? && CallLegal(k, c, alloc)
    ensures StackStep(k, CallFunctions(k, c, alloc).value.0, t)
  {
    hide StackStep;
    PutStack(k, t);
    match c
    case Run(_, _, _, _, _) => RunStack(k, c, t);
    case Exit => ExitStack(k, t);
    case Wakeup(id) =>
      PutBothStack(k, id, t);
      SameIsStep(k, PutBoth(k, id), t);
    case Send(b, size, p) => SendStack(k, b, size, p, alloc, t);
    case Recv(b, _, _) => RecvStack(k, b, t);
    case ChPri(priority) => SameIsStep(k, ThreadChPri(k, priority).0, t);
    case SetIntr(kind, h) => SameIsStep(k, ThreadSetIntr(k, kind, UserHandler(h)).0, t);
    case _ => SameIsStep(k, CallFunctions(k, c, alloc).value.0, t);
  }

  lemma SameIsStep(k: State, r: State, t: Tid)
    requires SameStack(k, r, t) && r.stackTop == k.stackTop && Live(r, t) == Live(k, t)
    ensures StackStep(k, r, t)
  {
  }

  lemma ExitStack(k: State, t: Tid)
    requires k.current.Some?
    ensures StackStep(k, ThreadExit(k), t)
  {
  }

  lemma RunStack(k: State, c: Call, t: Tid)
    requires c.Run? && CallLegal(k, c, None)
    ensures StackStep(k, ThreadRun(k, c).0, t)
  {
    var i := FirstFree(k.tcbs, 0);
    if i < THREAD_NUM {
      PutBothStack(InitTcb(k, c, i), i, t);
    }
  }

  lemma SendStack(k: State, b: BoxId, size: int, p: int, alloc: Option<int>, t: Tid)
    requires ThreadSend(k, b, size, p, alloc).Up?
    ensures StackStep(k, ThreadSend(k, b, size, p, alloc).value.0, t)
  {
    PutStack(k, t);
    var k1 := PutCurrent(k);
    var k2 := SendMsg(k1, b, k1.current, size, p, alloc.value);
    if k2.boxes[b].receiver.Some? {
      PutStack(RecvMsg(k2.(current := k2.boxes[b].receiver), b), t);
    }
  }

  lemma RecvStack(k: State, b: BoxId, t: Tid)
    requires k.current.Some? && ThreadRecv(k, b).Up?
    ensures StackStep(k, ThreadRecv(k, b).value.0, t)
  {
    if k.boxes[b].msgs != [] {
      PutStack(RecvMsg(k.(boxes := k.boxes[b := k.boxes[b].(receiver := k.current)]), b), t);
    }
  }

  /** Service calls never remove a thread. */
  lemma SrvCallsStack(k: State, calls: seq<SrvCall>, t: Tid)
    requires Core(k) && SrvLegal(k, calls) && SrvOk(k, calls) && SrvCalls(k, calls).Up?
    ensures StackStep(k, SrvCalls(k, calls).value, t)
    ensures Live(k, t) ==> Live(SrvCalls(k, calls).value, t)
    decreases |calls|
  {
    if calls != [] {
      var k1 := k.(current := None);
      RecurrentCore(k, None);
      SameReceivers(k, k1);
      CallCore(k1, calls[0].call, calls[0].alloc);
      CallStack(k1, calls[0].call, calls[0].alloc, t);
      CallLive(k1, calls[0].call, calls[0].alloc, t);
      SrvCallsStack(SrvcallProc(k, calls[0].call, calls[0].alloc).value.0, calls[1..], t);
    }
  }

  /** One entry: the running thread gets its new stack pointer, other live threads keep theirs. */
  lemma EntryStack(k: State, e: Entry, t: Tid)
    requires Inv(k) && EntryLegal(k, e) && Next(k, e).Up?
    ensures StackStep(Entered(k, e), Next(k, e).value, t)
    ensures Live(k, t) && k.current != Some(t) ==> Live(Next(k, e).value, t)
    ensures Live(Entered(k, e), t) == Live(k, t)
    ensures k.current != Some(t) ==> SameStack(k, Entered(k, e), t)
    ensures k.current == Some(t) ==>
              var tcb := Entered(k, e).tcbs[t];
              tcb.sp == e.sp && tcb.base == k.tcbs[t].base && tcb.stack == k.tcbs[t].stack
    ensures Entered(k, e).stackTop == k.stackTop
  {
    hide Next, Inv, Core, CallFunctions, SrvCalls;
    RunningThread(k);
    var k1 := Entered(k, e);
    if TakesCurrent(e) {
      StepLive(k, e, t);
    }
    if e.Trap? {
      TrapEntry(k, e);
      TrapStep(k, e);
      CallStack(GetCurrent(k1), e.call, e.alloc, t);
    } else {
      InterruptStep(k, e);
      if k.handlers[e.kind].User? {
        SrvCallsStack(k1, e.calls, t);
      }
    }
  }

  // ---------------------------------------------------------------- parameter blocks

  /** `sizeof(kz_syscall_param_t)` */
  const BLOCK_SIZE: nat := 24

  ghost predicate OnStack(tcb: Tcb, at: int) {
    tcb.base <= at && at + BLOCK_SIZE <= tcb.stack
  }

  /** The parameter block of a thread, a local of the library function, lies on its stack. */
  ghost predicate Placed(k: State) {
    forall t: Tid :: Live(k, t) && k.tcbs[t].param.Some? ==> OnStack(k.tcbs[t], k.tcbs[t].param.value.at)
  }

  ghost predicate EntryPlaced(k: State, e: Entry) {
    k.current.Some? && (e.Trap? && !e.call.Exit? ==> OnStack(k.tcbs[k.current.value], e.blk.at))
  }

  lemma PlacedStep(k: State, e: Entry)
    requires Inv(k) && Placed(k) && EntryLegal(k, e) && EntryPlaced(k, e) && Next(k, e).Up?
    ensures Placed(Next(k, e).value)
  {
    hide Next, Inv;
    var r := Next(k, e).value;
    forall t: Tid | Live(r, t) && r.tcbs[t].param.Some?
      ensures OnStack(r.tcbs[t], r.tcbs[t].param.value.at)
    {
      EntryStack(k, e, t);
    }
  }

  /** No two threads have the same parameter block. */
  lemma BlocksApart(k: State, t: Tid, u: Tid, at: int)
    requires Core(k) && Placed(k) && Live(k, t) && OnStack(k.tcbs[t], at) && t != u
    ensures PlaceOf(k.tcbs[u].param) != Some(at)
  {
  }

  ghost predicate PlacedRun(k: State, es: seq<Entry>)
    requires Inv(k) && LegalRun(k, es)
    decreases |es|
  {
    es == [] || (EntryPlaced(k, es[0]) && match Next(k, es[0]) case Down => true case Up(k1) => PlacedRun(k1, es[1..]))
  }

  lemma BootPlaced(stackTop: int, c: Call)
    requires c.Run? && c.func != 0 && 0 <= c.priority < PRIORITY_NUM && INITIAL_FRAME <= c.stacksize
    ensures Placed(Boot(stackTop, c))
  {
    StartInv(stackTop, c);
    var k1 := ThreadSetIntr(Cleared(stackTop), SOFTVEC_TYPE_SYSCALL, SyscallIntr).0;
  }
}
