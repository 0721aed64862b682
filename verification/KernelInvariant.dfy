/**
 What every kernel entry keeps.  `Core` holds at every point between two operations of a handler;
 `Inv` adds that the running thread is the head of the lowest-numbered non-empty queue, and holds
 between any two kernel entries of any run.
 */
module KernelInvariant {
  import opened Prelude
  import opened KernelSpec

  // ---------------------------------------------------------------- the invariant

  ghost predicate IsReceiver(k: State, t: Tid)
  {
    exists b: BoxId :: Waits(k, t, b)
  }

  /** A ready thread is in the queue of its priority, once, and a queue holds ready threads only. */
  ghost predicate QueuesOk(k: State)
  {
    && (forall p: Pri, t: Tid :: t in k.queues[p] ==>
          k.tcbs[t].ready && k.tcbs[t].priority == p && k.tcbs[t].func != 0)
    && (forall p: Pri :: NoDup(k.queues[p]))
    && (forall t: Tid :: k.tcbs[t].ready ==> t in k.queues[k.tcbs[t].priority])
  }

  /** A free TCB is all zero. */
  ghost predicate FreeOk(k: State)
  {
    forall t: Tid :: k.tcbs[t].func == 0 ==> k.tcbs[t] == ZERO_TCB
  }

  /** Stacks of live threads lie below the allocation mark and are pairwise disjoint. */
  ghost predicate StacksOk(k: State)
  {
    && (forall t: Tid :: k.tcbs[t].func != 0 ==>
          k.tcbs[t].base + INITIAL_FRAME <= k.tcbs[t].stack <= k.stackTop)
    && (forall t: Tid, u: Tid :: t != u && k.tcbs[t].func != 0 && k.tcbs[u].func != 0 ==>
          k.tcbs[t].stack <= k.tcbs[u].base || k.tcbs[u].stack <= k.tcbs[t].base)
  }

  ghost predicate HandlersOk(k: State)
  {
    && k.handlers[SOFTVEC_TYPE_SYSCALL] == SyscallIntr
    && k.handlers[SOFTVEC_TYPE_SOFTERR] == SoftErrIntr
    && forall i :: 2 <= i < SOFTVEC_TYPE_NUM ==> k.handlers[i] == NoHandler || k.handlers[i].User?
  }

  /** Message `i` of box `b` is stored at address `a`. */
  ghost predicate Stored(boxes: Boxes, b: int, i: int, a: int) {
    0 <= b < |boxes| && 0 <= i < |boxes[b].msgs| && boxes[b].msgs[i].addr == a
  }

  /** The buffers in use are those linked in a mailbox, each linked once. */
  ghost predicate HeapOk(boxes: Boxes, heap: set<int>) {
    && (forall b, i, a :: Stored(boxes, b, i, a) ==> a in heap)
    && (forall a :: a in heap ==> exists b, i :: Stored(boxes, b, i, a))
    && (forall b, i, c, j, a :: Stored(boxes, b, i, a) && Stored(boxes, c, j, a) ==> b == c && i == j)
  }

  function SentTo(log: seq<Event>, b: nat): (r: seq<Msg>) {
    if log == [] then []
    else
      var e := log[|log| - 1];
      SentTo(log[..|log| - 1], b) + if e.Sent? && e.box == b then [e.msg] else []
  }

  function DeliveredFrom(log: seq<Event>, b: nat): (r: seq<Msg>) {
    if log == [] then []
    else
      var e := log[|log| - 1];
      DeliveredFrom(log[..|log| - 1], b) + if e.Delivered? && e.box == b then [e.msg] else []
  }

  /** Every message sent to a box was delivered once, in order, or is still queued there, in order. */
  ghost predicate MailOk(boxes: Boxes, log: seq<Event>) {
    forall b :: 0 <= b < |boxes| ==> SentTo(log, b) == DeliveredFrom(log, b) + boxes[b].msgs
  }

  /** A thread registered at box `b`: live, off the ready queues, inside a receive on `b`. */
  ghost predicate Blocked(k: State, t: Tid, b: BoxId)
  {
    var tcb := k.tcbs[t];
    tcb.func != 0 && !tcb.ready && tcb.param.Some? && tcb.call.Some? && tcb.call.value.Recv? && tcb.call.value.from == b
  }

  /** The mailbox part, for every box but `x`: while a receiver waits there is nothing to receive. */
  ghost predicate BoxesOkExcept(k: State, x: int)
  {
    && (forall b: BoxId, t: Tid :: Waits(k, t, b) ==> Blocked(k, t, b))
    && (forall b: BoxId :: b != x && k.boxes[b].receiver.Some? ==> k.boxes[b].msgs == [])
  }

  ghost predicate Rest(k: State)
  {
    QueuesOk(k) && FreeOk(k) && StacksOk(k) && HandlersOk(k) && HeapOk(k.boxes, k.heap) && MailOk(k.boxes, k.log)
  }

  ghost predicate Core(k: State) {
    Rest(k) && BoxesOkExcept(k, -1)
  }

  /** `current` is the head of the lowest-numbered non-empty queue. */
  ghost predicate Dispatched(k: State)
  {
    var p := FirstNonEmpty(k.queues, 0);
    p < PRIORITY_NUM && k.current == Some(k.queues[p][0])
  }

  ghost predicate Inv(k: State) {
    Core(k) && Dispatched(k)
  }

  // ---------------------------------------------------------------- what callers owe

  ghost predicate CallLegal(k: State, c: Call, alloc: Option<int>)
  {
    match c
    case Run(func, priority, stacksize, _, _) =>
      func != 0 && 0 <= priority < PRIORITY_NUM && INITIAL_FRAME <= stacksize
    case Wakeup(id) => id < THREAD_NUM && Live(k, id) && !IsReceiver(k, id)
    case ChPri(priority) => priority < PRIORITY_NUM
    case Send(b, _, _) => b < MSGBOX_ID_NUM && (alloc.Some? ==> alloc.value !in k.heap)
    case Recv(b, _, _) => b < MSGBOX_ID_NUM
    case KMFree(mem) => mem !in k.heap
    case SetIntr(kind, _) => 2 <= kind < SOFTVEC_TYPE_NUM
    case _ => true
  }

  /** Service calls run without a current thread, so three calls are not available to them. */
  predicate SrvKind(c: Call) {
    !c.Exit? && !c.ChPri? && !c.Recv?
  }

  ghost predicate SrvLegal(k: State, calls: seq<SrvCall>)
    decreases |calls|
  {
    calls == [] ||
    (SrvKind(calls[0].call) && CallLegal(k, calls[0].call, calls[0].alloc) &&
     var r := SrvcallProc(k, calls[0].call, calls[0].alloc);
     r.Up? ==> SrvLegal(r.value.0, calls[1..]))
  }

  /** The state in which the handler of an entry starts. */
  function Entered(k: State, e: Entry): (r: State)
    requires k.current.Some?
    ensures r.current == k.current
  {
    SaveSp(Prepared(k, e), e.sp)
  }

  ghost predicate EntryLegal(k: State, e: Entry)
  {
    k.current.Some? &&
    match e
    case Trap(c, _, alloc, _) => CallLegal(k, c, alloc)
    case Interrupt(kind, calls, _) =>
      kind < SOFTVEC_TYPE_NUM && kind != SOFTVEC_TYPE_SYSCALL &&
      (k.handlers[kind].User? ==> SrvLegal(Entered(k, e), calls))
  }

  // ---------------------------------------------------------------- ready-queue operations

  /** The thread that an operation may put on a queue: none, or a live one that no box has registered. */
  ghost predicate CurrentFree(k: State)
  {
    k.current.Some? ==> Live(k, k.current.value) && !IsReceiver(k, k.current.value)
  }

  lemma SameReceivers(k: State, r: State)
    requires k.boxes == r.boxes
    ensures forall t: Tid, b: BoxId :: Waits(r, t, b) <==> Waits(k, t, b)
    ensures forall t: Tid :: IsReceiver(r, t) <==> IsReceiver(k, t)
  {
    assert forall t: Tid, b: BoxId :: Waits(r, t, b) <==> Waits(k, t, b);
  }

  ghost predicate SameMail(k: State, r: State) {
    k.boxes == r.boxes && k.heap == r.heap && k.log == r.log && k.handlers == r.handlers
  }

  lemma AppendNoDup<T>(q: seq<T>, x: T)
    requires NoDup(q) && x !in q
    ensures NoDup(q + [x])
  {
  }

  lemma PutCurrentQueues(k: State)
    requires QueuesOk(k) && (k.current.Some? ==> Live(k, k.current.value))
    ensures QueuesOk(PutCurrent(k))
  {
    var r := PutCurrent(k);
    if k.current.Some? && !k.tcbs[k.current.value].ready {
      var t := k.current.value;
      var p := k.tcbs[t].priority;
      assert t !in k.queues[p];
      AppendNoDup(k.queues[p], t);
      forall q: Pri, u: Tid | u in r.queues[q]
        ensures r.tcbs[u].ready && r.tcbs[u].priority == q && r.tcbs[u].func != 0
      {
        assert u in k.queues[q] || (q == p && u == t);
      }
      forall u: Tid | r.tcbs[u].ready
        ensures u in r.queues[r.tcbs[u].priority]
      {
        assert u == t || u in k.queues[k.tcbs[u].priority];
      }
    }
  }

  lemma PutCurrentCore(k: State)
    requires Core(k) && CurrentFree(k)
    ensures Core(PutCurrent(k)) && CurrentFree(PutCurrent(k))
  {
    var r := PutCurrent(k);
    PutCurrentQueues(k);
    assert SameMail(k, r);
    assert forall t: Tid :: r.tcbs[t] == k.tcbs[t].(ready := r.tcbs[t].ready);
    SameReceivers(k, r);
    forall b: BoxId, t: Tid | Waits(r, t, b)
      ensures Blocked(r, t, b)
    {
      assert Waits(k, t, b);
    }
  }

  /** Popping the head: the case that the unchecked `getcurrent` relies on. */
  lemma PopHead(q: seq<Tid>, t: Tid)
    requires q != [] && q[0] == t
    ensures Successors(q, t) == q[1..]
  {
  }

  /** `current` stands at the head of its own queue if it stands in a queue at all. */
  ghost predicate AtHead(k: State)
  {
    k.current.Some? && k.tcbs[k.current.value].ready ==>
      var q := k.queues[k.tcbs[k.current.value].priority];
      q != [] && q[0] == k.current.value
  }

  lemma GetCurrentQueues(k: State)
    requires QueuesOk(k) && AtHead(k)
    ensures QueuesOk(GetCurrent(k))
    ensures k.current.Some? ==> !Ready(GetCurrent(k), k.current.value)
  {
    var r := GetCurrent(k);
    if k.current.Some? && k.tcbs[k.current.value].ready {
      var t := k.current.value;
      var p := k.tcbs[t].priority;
      PopHead(k.queues[p], t);
      assert k.queues[p] == [t] + r.queues[p];
      forall q: Pri, u: Tid | u in r.queues[q]
        ensures r.tcbs[u].ready && r.tcbs[u].priority == q && r.tcbs[u].func != 0
      {
        assert u in k.queues[q];
      }
      forall u: Tid | r.tcbs[u].ready
        ensures u in r.queues[r.tcbs[u].priority]
      {
        assert u in k.queues[k.tcbs[u].priority];
      }
    }
  }

  lemma GetCurrentCore(k: State)
    requires Core(k) && CurrentFree(k) && AtHead(k)
    ensures Core(GetCurrent(k)) && CurrentFree(GetCurrent(k))
    ensures k.current.Some? ==> !Ready(GetCurrent(k), k.current.value)
  {
    var r := GetCurrent(k);
    GetCurrentQueues(k);
    assert SameMail(k, r);
    assert forall t: Tid :: r.tcbs[t] == k.tcbs[t].(ready := r.tcbs[t].ready);
    SameReceivers(k, r);
    forall b: BoxId, t: Tid | Waits(r, t, b)
      ensures Blocked(r, t, b)
    {
      assert Waits(k, t, b);
    }
  }

  // ---------------------------------------------------------------- small updates of one TCB

  /** Two states that differ in fields of TCBs that the queue and stack parts do not read. */
  ghost predicate SameSkeleton(k: State, r: State) {
    && SameMail(k, r) && k.queues == r.queues && k.stackTop == r.stackTop
    && forall t: Tid ::
         r.tcbs[t].priority == k.tcbs[t].priority && r.tcbs[t].ready == k.tcbs[t].ready
         && r.tcbs[t].func == k.tcbs[t].func && r.tcbs[t].base == k.tcbs[t].base && r.tcbs[t].stack == k.tcbs[t].stack
  }

  lemma SkeletonCore(k: State, r: State)
    requires Core(k) && SameSkeleton(k, r)
    requires forall t: Tid :: k.tcbs[t] != r.tcbs[t] ==> r.tcbs[t].func != 0
    requires forall t: Tid, b: BoxId :: Waits(k, t, b) ==>
               r.tcbs[t].call == k.tcbs[t].call && r.tcbs[t].param.Some? == k.tcbs[t].param.Some?
    ensures Core(r)
  {
    SameReceivers(k, r);
    forall b: BoxId, t: Tid | Waits(r, t, b)
      ensures Blocked(r, t, b)
    {
      assert Waits(k, t, b) && Blocked(k, t, b);
    }
  }

  /** A live current thread changes its own call, block or saved stack pointer. */
  lemma OwnUpdateCore(k: State, tcb: Tcb)
    requires Core(k) && k.current.Some? && CurrentFree(k)
    requires var was := k.tcbs[k.current.value];
             tcb == was.(call := tcb.call, param := tcb.param, sp := tcb.sp)
    ensures Core(k.(tcbs := k.tcbs[k.current.value := tcb]))
    ensures CurrentFree(k.(tcbs := k.tcbs[k.current.value := tcb]))
  {
    var t := k.current.value;
    var r := k.(tcbs := k.tcbs[t := tcb]);
    assert SameSkeleton(k, r);
    forall u: Tid, b: BoxId | Waits(k, u, b)
      ensures u != t && r.tcbs[u] == k.tcbs[u]
    {
    }
    SkeletonCore(k, r);
    SameReceivers(k, r);
  }

  lemma SetRetCore(k: State, t: Tid, v: Ret)
    requires Core(k)
    ensures Core(SetRet(k, t, v))
  {
    var r := SetRet(k, t, v);
    if k.tcbs[t].param.Some? {
      assert k.tcbs[t] != ZERO_TCB;
      SkeletonCore(k, r);
    }
  }

  // ---------------------------------------------------------------- run and exit

  lemma NewThreadCore(k: State, c: Call)
    requires Core(k) && CurrentFree(k) && c.Run? && CallLegal(k, c, None)
    requires FirstFree(k.tcbs, 0) < THREAD_NUM
    ensures var i := FirstFree(k.tcbs, 0);
            var r := InitTcb(k, c, i);
            Core(r) && CurrentFree(r) && Live(r, i) && !IsReceiver(r, i) && !Ready(r, i)
  {
    var i := FirstFree(k.tcbs, 0);
    var r := InitTcb(k, c, i);
    assert k.tcbs[i] == ZERO_TCB;
    SameReceivers(k, r);
    forall b: BoxId, t: Tid | Waits(r, t, b)
      ensures t != i && Blocked(r, t, b)
    {
      assert Waits(k, t, b);
    }
    if k.current.Some? {
      var t := k.current.value;
      assert t != i && Live(r, t);
    }
  }

  lemma ThreadRunCore(k: State, c: Call)
    requires Core(k) && CurrentFree(k) && c.Run? && CallLegal(k, c, None)
    ensures Core(ThreadRun(k, c).0)
  {
    var i := FirstFree(k.tcbs, 0);
    if i < THREAD_NUM {
      NewThreadCore(k, c);
      PutBothCore(InitTcb(k, c, i), i);
    }
  }

  /** Put back the current thread, then put thread `i`: the common end of run and wakeup. */
  lemma PutBothCore(k: State, i: Tid)
    requires Core(k) && CurrentFree(k) && Live(k, i) && !IsReceiver(k, i)
    ensures Core(PutBoth(k, i))
  {
    PutCurrentCore(k);
    var k1 := PutCurrent(k).(current := Some(i));
    RecurrentCore(PutCurrent(k), Some(i));
    SameReceivers(k, k1);
    PutCurrentCore(k1);
  }

  /** `Core` does not read `current`. */
  lemma RecurrentCore(k: State, c: Option<Tid>)
    requires Core(k)
    ensures Core(k.(current := c))
  {
    var r := k.(current := c);
    assert SameSkeleton(k, r);
    SkeletonCore(k, r);
  }

  lemma ThreadExitCore(k: State)
    requires Core(k) && CurrentFree(k) && k.current.Some? && !Ready(k, k.current.value)
    ensures Core(ThreadExit(k))
  {
    var t := k.current.value;
    var r := ThreadExit(k);
    SameReceivers(k, r);
    forall b: BoxId, u: Tid | Waits(r, u, b)
      ensures u != t && Blocked(r, u, b)
    {
      assert Waits(k, u, b);
    }
    assert t !in k.queues[k.tcbs[t].priority];
    forall p: Pri, u: Tid | u in r.queues[p]
      ensures r.tcbs[u].ready && r.tcbs[u].priority == p && r.tcbs[u].func != 0
    {
      assert u in k.queues[p];
    }
  }

  lemma ThreadChPriCore(k: State, priority: int)
    requires Core(k) && CurrentFree(k) && k.current.Some? && !Ready(k, k.current.value) && priority < PRIORITY_NUM
    ensures Core(ThreadChPri(k, priority).0)
  {
    if priority >= 0 {
      var t := k.current.value;
      var r := k.(tcbs := k.tcbs[t := k.tcbs[t].(priority := priority)]);
      SameReceivers(k, r);
      forall b: BoxId, u: Tid | Waits(r, u, b)
        ensures Blocked(r, u, b)
      {
        assert Waits(k, u, b);
      }
      forall p: Pri, u: Tid | u in r.queues[p]
        ensures r.tcbs[u].ready && r.tcbs[u].priority == p && r.tcbs[u].func != 0
      {
        assert u in k.queues[p];
      }
      PutCurrentCore(r);
    } else {
      PutCurrentCore(k);
    }
  }

  // ---------------------------------------------------------------- mail

  lemma LogStep(log: seq<Event>, e: Event, b: BoxId)
    ensures SentTo(log + [e], b) == SentTo(log, b) + if e.Sent? && e.box == b then [e.msg] else []
    ensures DeliveredFrom(log + [e], b) == DeliveredFrom(log, b) + if e.Delivered? && e.box == b then [e.msg] else []
  {
    assert (log + [e])[..|log|] == log;
  }

  lemma SendMsgHeap(k: State, b: BoxId, sender: Option<Tid>, size: int, p: int, addr: int)
    requires HeapOk(k.boxes, k.heap) && addr !in k.heap
    ensures var r := SendMsg(k, b, sender, size, p, addr); HeapOk(r.boxes, r.heap)
  {
    var r := SendMsg(k, b, sender, size, p, addr);
    var n := |k.boxes[b].msgs|;
    assert forall c, i, a :: Stored(r.boxes, c, i, a) <==> Stored(k.boxes, c, i, a) || (c == b && i == n && a == addr);
    assert Stored(r.boxes, b, n, addr);
    forall a | a in k.heap
      ensures exists c, i :: Stored(r.boxes, c, i, a)
    {
      var c, i :| Stored(k.boxes, c, i, a);
      assert Stored(r.boxes, c, i, a);
    }
  }

  lemma SendMsgRest(k: State, b: BoxId, sender: Option<Tid>, size: int, p: int, addr: int)
    requires Core(k) && addr !in k.heap
    ensures var r := SendMsg(k, b, sender, size, p, addr); Rest(r) && BoxesOkExcept(r, b)
  {
    var r := SendMsg(k, b, sender, size, p, addr);
    SendMsgHeap(k, b, sender, size, p, addr);
    SendMsgMail(k, b, sender, size, p, addr);
    assert forall t: Tid, c: BoxId :: Waits(r, t, c) <==> Waits(k, t, c);
    forall c: BoxId, t: Tid | Waits(r, t, c)
      ensures Blocked(r, t, c)
    {
      assert Waits(k, t, c);
    }
  }

  lemma SendMsgMail(k: State, b: BoxId, sender: Option<Tid>, size: int, p: int, addr: int)
    requires MailOk(k.boxes, k.log)
    ensures var r := SendMsg(k, b, sender, size, p, addr); MailOk(r.boxes, r.log)
  {
    var r := SendMsg(k, b, sender, size, p, addr);
    forall c: BoxId | true
      ensures SentTo(r.log, c) == DeliveredFrom(r.log, c) + r.boxes[c].msgs
    {
      LogStep(k.log, Sent(b, Msg(addr, sender, size, p)), c);
    }
  }

  lemma RecvMsgHeap(k: State, b: BoxId)
    requires HeapOk(k.boxes, k.heap) && k.boxes[b].receiver.Some? && k.boxes[b].msgs != []
    ensures var r := RecvMsg(k, b); HeapOk(r.boxes, r.heap)
  {
    var r := RecvMsg(k, b);
    var m := k.boxes[b].msgs[0];
    assert Stored(k.boxes, b, 0, m.addr);
    assert forall c, i, a :: Stored(r.boxes, c, i, a) ==> Stored(k.boxes, c, if c == b then i + 1 else i, a);
    forall a | a in r.heap
      ensures exists c, i :: Stored(r.boxes, c, i, a)
    {
      var c, i :| Stored(k.boxes, c, i, a);
      assert Stored(r.boxes, c, if c == b then i - 1 else i, a);
    }
  }

  /** Handing the oldest message of a box to its receiver, whatever else is queued there. */
  lemma RecvMsgCore(k: State, b: BoxId)
    requires Deliverable(k, b)
    ensures var t, r := k.boxes[b].receiver.value, RecvMsg(k, b);
            Core(r) && Live(r, t) && !IsReceiver(r, t) && !Ready(r, t)
  {
    var t, r := k.boxes[b].receiver.value, RecvMsg(k, b);
    assert Waits(k, t, b) && Blocked(k, t, b);
    RecvMsgHeap(k, b);
    RecvMsgMail(k, b);
    assert QueuesOk(r) && FreeOk(r) && StacksOk(r) && HandlersOk(r) by {
      assert forall u: Tid :: r.tcbs[u] == k.tcbs[u].(param := r.tcbs[u].param);
    }
    RecvMsgBoxes(k, b);
  }

  ghost predicate Deliverable(k: State, b: BoxId) {
    Rest(k) && BoxesOkExcept(k, b)
    && k.boxes[b].receiver.Some? && k.boxes[b].msgs != []
  }

  lemma RecvMsgMail(k: State, b: BoxId)
    requires Deliverable(k, b)
    ensures var r := RecvMsg(k, b); MailOk(r.boxes, r.log)
  {
    hide SentTo, DeliveredFrom, HeapOk, QueuesOk, StacksOk, BoxesOkExcept;
    var t, r := k.boxes[b].receiver.value, RecvMsg(k, b);
    forall c: BoxId | true
      ensures SentTo(r.log, c) == DeliveredFrom(r.log, c) + r.boxes[c].msgs
    {
      LogStep(k.log, Delivered(b, t, k.boxes[b].msgs[0]), c);
    }
  }

  lemma RecvMsgBoxes(k: State, b: BoxId)
    requires Deliverable(k, b)
    ensures BoxesOkExcept(RecvMsg(k, b), -1) && !IsReceiver(RecvMsg(k, b), k.boxes[b].receiver.value)
  {
    var t, r := k.boxes[b].receiver.value, RecvMsg(k, b);
    assert Waits(k, t, b) && Blocked(k, t, b);
    assert forall u: Tid, c: BoxId :: Waits(r, u, c) <==> Waits(k, u, c) && c != b;
    forall c: BoxId, u: Tid | Waits(r, u, c)
      ensures u != t && Blocked(r, u, c)
    {
      assert Waits(k, u, c);
    }
  }

  lemma DeliverCore(k: State, b: BoxId)
    requires Deliverable(k, b)
    ensures Core(PutCurrent(RecvMsg(k.(current := k.boxes[b].receiver), b)))
  {
    var k1 := k.(current := k.boxes[b].receiver);
    assert Rest(k1);
    SameReceivers(k, k1);
    RecvMsgCore(k1, b);
    PutCurrentCore(RecvMsg(k1, b));
  }

  lemma ThreadSendCore(k: State, b: BoxId, size: int, p: int, alloc: Option<int>)
    requires Core(k) && CurrentFree(k) && (alloc.Some? ==> alloc.value !in k.heap)
    ensures ThreadSend(k, b, size, p, alloc).Up? ==> Core(ThreadSend(k, b, size, p, alloc).value.0)
  {
    PutCurrentCore(k);
    var k1 := PutCurrent(k);
    if alloc.Some? {
      SendMsgRest(k1, b, k1.current, size, p, alloc.value);
      var k2 := SendMsg(k1, b, k1.current, size, p, alloc.value);
      if k2.boxes[b].receiver.Some? {
        DeliverCore(k2, b);
      }
    }
  }

  /** The caller of a receive, taken off its queue, inside the call it made. */
  ghost predicate InRecv(k: State, b: BoxId)
  {
    CurrentFree(k) && k.current.Some? && Blocked(k, k.current.value, b)
  }

  lemma RegisterRest(k: State, b: BoxId)
    requires Core(k) && InRecv(k, b) && k.boxes[b].receiver == None
    ensures var r := k.(boxes := k.boxes[b := k.boxes[b].(receiver := k.current)]);
            Rest(r) && BoxesOkExcept(r, b)
  {
    var r := k.(boxes := k.boxes[b := k.boxes[b].(receiver := k.current)]);
    assert forall u: Tid, c: BoxId :: Waits(r, u, c) <==> Waits(k, u, c) || (c == b && Some(u) == k.current);
    forall c: BoxId, u: Tid | Waits(r, u, c)
      ensures Blocked(r, u, c)
    {
      assert Waits(k, u, c) || c == b;
    }
    assert forall c, i, a :: Stored(r.boxes, c, i, a) <==> Stored(k.boxes, c, i, a);
  }

  lemma ThreadRecvCore(k: State, b: BoxId)
    requires Core(k) && InRecv(k, b)
    ensures ThreadRecv(k, b).Up? ==> Core(ThreadRecv(k, b).value.0)
  {
    if k.boxes[b].receiver == None {
      RegisterRest(k, b);
      var k1 := k.(boxes := k.boxes[b := k.boxes[b].(receiver := k.current)]);
      if k1.boxes[b].msgs != [] {
        RecvMsgCore(k1, b);
        PutCurrentCore(RecvMsg(k1, b));
      }
    }
  }

  lemma ThreadSetIntrCore(k: State, kind: nat, h: int)
    requires Core(k) && CurrentFree(k) && 2 <= kind < SOFTVEC_TYPE_NUM
    ensures Core(ThreadSetIntr(k, kind, UserHandler(h)).0)
  {
    var r := k.(handlers := k.handlers[kind := UserHandler(h)]);
    SameReceivers(k, r);
    forall c: BoxId, u: Tid | Waits(r, u, c)
      ensures Blocked(r, u, c)
    {
      assert Waits(k, u, c);
    }
    PutCurrentCore(r);
  }

  // ---------------------------------------------------------------- calls

  /** The caller of a system call, taken off its queue. */
  ghost predicate Caller(k: State, c: Call)
  {
    && k.current.Some? && CurrentFree(k) && !Ready(k, k.current.value)
    && k.tcbs[k.current.value].call == Some(c)
    && (!c.Exit? ==> k.tcbs[k.current.value].param.Some?)
  }

  lemma CallCore(k: State, c: Call, alloc: Option<int>)
    requires Core(k) && CallLegal(k, c, alloc) && CurrentFree(k)
    requires Caller(k, c) || SrvKind(c)
    ensures CallOk(k, c)
    ensures CallFunctions(k, c, alloc).Up? ==> Core(CallFunctions(k, c, alloc).value.0)
  {
    match c
    case Run(_, _, _, _, _) => ThreadRunCore(k, c);
    case Exit => ThreadExitCore(k);
    case Wait => PutCurrentCore(k);
    case Sleep =>
    case Wakeup(id) => PutBothCore(k, id);
    case GetId => PutCurrentCore(k);
    case ChPri(priority) => ThreadChPriCore(k, priority);
    case KMalloc(_) => PutCurrentCore(k);
    case KMFree(_) => PutCurrentCore(k);
    case Send(b, size, p) => ThreadSendCore(k, b, size, p, alloc);
    case Recv(b, _, _) => ThreadRecvCore(k, b);
    case SetIntr(kind, h) => ThreadSetIntrCore(k, kind, h);
    case Unknown =>
  }

  lemma SrvCallsCore(k: State, calls: seq<SrvCall>)
    requires Core(k) && SrvLegal(k, calls)
    ensures SrvOk(k, calls)
    ensures SrvCalls(k, calls).Up? ==> Core(SrvCalls(k, calls).value)
    decreases |calls|
  {
    if calls != [] {
      var k0 := k.(current := None);
      RecurrentCore(k, None);
      SameReceivers(k, k0);
      CallCore(k0, calls[0].call, calls[0].alloc);
      var r := SrvcallProc(k, calls[0].call, calls[0].alloc);
      if r.Up? {
        SrvCallsCore(r.value.0, calls[1..]);
      }
    }
  }

  /** The running thread, just before its call is handled: live, ready, at the head of its queue. */
  lemma RunningThread(k: State)
    requires Inv(k)
    ensures k.current.Some? && Live(k, k.current.value) && Ready(k, k.current.value)
    ensures AtHead(k) && CurrentFree(k)
  {
    var p := FirstNonEmpty(k.queues, 0);
    var t := k.queues[p][0];
    assert t in k.queues[p];
    assert forall b: BoxId :: !Waits(k, t, b);
  }

  // ---------------------------------------------------------------- entries and runs

  lemma EnteredCore(k: State, e: Entry)
    requires Inv(k)
    ensures var r := Entered(k, e);
            Core(r) && r.current == k.current && CurrentFree(r) && AtHead(r) && Ready(r, k.current.value)
    ensures k.boxes == Entered(k, e).boxes && k.heap == Entered(k, e).heap && k.queues == Entered(k, e).queues
  {
    RunningThread(k);
    var t := k.current.value;
    var k1 := Prepared(k, e);
    if e.Trap? {
      OwnUpdateCore(k, k1.tcbs[t]);
    }
    OwnUpdateCore(k1, k1.tcbs[t].(sp := e.sp));
  }

  /** Taking the caller off its queue, as every system call starts. */
  lemma CallerCore(k: State, c: Call, alloc: Option<int>)
    requires Core(k) && CurrentFree(k) && AtHead(k) && k.current.Some? && k.tcbs[k.current.value].call == Some(c)
    requires CallLegal(k, c, alloc) && (!c.Exit? ==> k.tcbs[k.current.value].param.Some?)
    ensures var k1 := GetCurrent(k); Core(k1) && Caller(k1, c) && CallLegal(k1, c, alloc)
  {
    GetCurrentCore(k);
    SameReceivers(k, GetCurrent(k));
  }

  lemma SyscallCore(k: State, alloc: Option<int>)
    requires Core(k) && CurrentFree(k) && AtHead(k) && k.current.Some? && k.tcbs[k.current.value].call.Some?
    requires var c := k.tcbs[k.current.value].call.value;
             CallLegal(k, c, alloc) && (!c.Exit? ==> k.tcbs[k.current.value].param.Some?)
    ensures CallOk(GetCurrent(k), k.tcbs[k.current.value].call.value)
    ensures SyscallProc(k, alloc).Up? ==> Core(SyscallProc(k, alloc).value)
  {
    var t := k.current.value;
    var c := k.tcbs[t].call.value;
    var k1 := GetCurrent(k);
    CallerCore(k, c, alloc);
    CallCore(k1, c, alloc);
    var r := CallFunctions(k1, c, alloc);
    if r.Up? {
      SetRetCore(r.value.0, t, r.value.1);
    }
  }

  lemma SoftErrCore(k: State)
    requires Core(k) && CurrentFree(k) && AtHead(k) && k.current.Some?
    ensures Core(SoftErr(k))
  {
    GetCurrentCore(k);
    ThreadExitCore(GetCurrent(k));
  }

  lemma EntryCore(k: State, e: Entry)
    requires Inv(k) && EntryLegal(k, e)
    ensures HandlerOk(Entered(k, e), EntryKind(e), EntryCalls(e))
    ensures var r := RunHandler(Entered(k, e), EntryKind(e), EntryCalls(e), EntryAlloc(e));
            r.Up? ==> Core(r.value)
  {
    var k1 := Entered(k, e);
    EnteredCore(k, e);
    match e
    case Trap(c, _, alloc, _) =>
      SameReceivers(k, k1);
      assert CallLegal(k1, c, alloc);
      SyscallCore(k1, alloc);
    case Interrupt(kind, calls, _) =>
      if k.handlers[kind].User? {
        SrvCallsCore(k1, calls);
      } else if k.handlers[kind].SoftErrIntr? {
        SoftErrCore(k1);
      }
  }

  lemma ScheduleInv(k: State)
    requires Core(k)
    ensures Schedule(k).Up? ==> Inv(Schedule(k).value)
  {
    if Schedule(k).Up? {
      RecurrentCore(k, Schedule(k).value.current);
    }
  }

  /** Every legal entry from a state of the invariant is defined and ends in one, or goes down. */
  lemma StepInv(k: State, e: Entry)
    requires Inv(k) && EntryLegal(k, e)
    ensures EntryOk(k, e)
    ensures Step(k, e).Up? ==> Inv(Step(k, e).value)
  {
    EntryCore(k, e);
    var r := RunHandler(Entered(k, e), EntryKind(e), EntryCalls(e), EntryAlloc(e));
    if r.Up? {
      ScheduleInv(r.value);
    }
  }

  function Next(k: State, e: Entry): (r: Outcome<State>)
    requires Inv(k) && EntryLegal(k, e)
    ensures r.Up? ==> Inv(r.value)
  {
    StepInv(k, e);
    Step(k, e)
  }

  /** A run in which every entry is legal in the state it meets; nothing follows a system down. */
  ghost predicate LegalRun(k: State, es: seq<Entry>)
    requires Inv(k)
    decreases |es|
  {
    es == [] ||
    (EntryLegal(k, es[0]) && match Next(k, es[0])
                             case Down => |es| == 1
                             case Up(k1) => LegalRun(k1, es[1..]))
  }

  function Execute(k: State, es: seq<Entry>): (r: Outcome<State>)
    requires Inv(k) && LegalRun(k, es)
    ensures r.Up? ==> Inv(r.value)
    decreases |es|
  {
    if es == [] then Up(k)
    else
      match Next(k, es[0])
      case Down => Down
      case Up(k1) => Execute(k1, es[1..])
  }

  lemma ClearedCore(stackTop: int)
    ensures Core(ThreadSetIntr(ThreadSetIntr(Cleared(stackTop), SOFTVEC_TYPE_SYSCALL, SyscallIntr).0,
                               SOFTVEC_TYPE_SOFTERR, SoftErrIntr).0)
  {
    var k := Cleared(stackTop);
    assert forall b, i, a :: !Stored(k.boxes, b, i, a);
    assert forall b :: 0 <= b < |k.boxes| ==> k.boxes[b].msgs == [];
  }

  /** What `kz_start` needs of its caller: the same as `kz_run`. */
  lemma StartInv(stackTop: int, c: Call)
    requires c.Run? && c.func != 0 && 0 <= c.priority < PRIORITY_NUM && INITIAL_FRAME <= c.stacksize
    ensures Inv(Start(stackTop, c)) && Start(stackTop, c).current == Some(0)
  {
    ClearedCore(stackTop);
    var k1 := ThreadSetIntr(Cleared(stackTop), SOFTVEC_TYPE_SYSCALL, SyscallIntr).0;
    var k := ThreadSetIntr(k1, SOFTVEC_TYPE_SOFTERR, SoftErrIntr).0;
    ThreadRunCore(k, c);
    var r := Start(stackTop, c);
    assert FirstFree(k.tcbs, 0) == 0;
    assert r.queues[c.priority] == [0];
    assert forall p :: 0 <= p < PRIORITY_NUM && p != c.priority ==> r.queues[p] == [];
  }

  function Boot(stackTop: int, c: Call): (r: State)
    requires c.Run? && c.func != 0 && 0 <= c.priority < PRIORITY_NUM && INITIAL_FRAME <= c.stacksize
    ensures Inv(r)
  {
    StartInv(stackTop, c);
    Start(stackTop, c)
  }
}
