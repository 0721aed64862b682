/**
 What the mailboxes promise: exactly-once delivery in order, no lost wakeup, and that a blocked
 receive finds the message in its parameter block when its thread becomes ready.
 */
module KernelMail {
  import opened Prelude
  import opened KernelSpec
  import opened KernelInvariant
  import opened KernelScheduling

  // ---------------------------------------------------------------- the history of one call

  /** What a call adds to the history of the mailboxes. */
  function MailOf(k: State, c: Call, alloc: Option<int>): (r: seq<Event>) {
    match c
    case Send(b, size, p) =>
      if alloc == None || b >= MSGBOX_ID_NUM then []
      else
        var m := Msg(alloc.value, k.current, size, p);
        var box := k.boxes[b];
        [Sent(b, m)] + if box.receiver.Some? then [Delivered(b, box.receiver.value, (box.msgs + [m])[0])] else []
    case Recv(b, _, _) =>
      if b < MSGBOX_ID_NUM && k.boxes[b].receiver == None && k.boxes[b].msgs != [] && k.current.Some?
      then [Delivered(b, k.current.value, k.boxes[b].msgs[0])]
      else []
    case _ => []
  }

  lemma CallMail(k: State, c: Call, alloc: Option<int>)
    requires CallOk(k, c) && CallFunctions(k, c, alloc).Up?
    ensures CallFunctions(k, c, alloc).value.0.log == k.log + MailOf(k, c, alloc)
  {
  }

  /**
   The mail of one system call.  A send records one message, with the caller as its sender; it is
   handed over at once iff a receiver waits.  A receive takes the oldest message iff there is one.
   */
  lemma TrapMail(k: State, e: Entry)
    requires Inv(k) && EntryLegal(k, e) && e.Trap? && Next(k, e).Up?
    ensures Next(k, e).value.log == k.log + MailOf(k, e.call, e.alloc)
  {
    TrapEntry(k, e);
    TrapStep(k, e);
    CallMail(GetCurrent(Entered(k, e)), e.call, e.alloc);
  }

  // ---------------------------------------------------------------- FIFO over runs

  /**
   Exactly once, in order: along every run, what was sent to a box is what was delivered from it
   followed by what is still queued there, and the history is never rewritten.
   */
  lemma RunFifo(stackTop: int, c: Call, es: seq<Entry>, b: BoxId)
    requires c.Run? && c.func != 0 && 0 <= c.priority < PRIORITY_NUM && INITIAL_FRAME <= c.stacksize
    requires LegalRun(Boot(stackTop, c), es) && Execute(Boot(stackTop, c), es).Up?
    ensures var r := Execute(Boot(stackTop, c), es).value;
            SentTo(r.log, b) == DeliveredFrom(r.log, b) + r.boxes[b].msgs
  {
    hide Next, Boot;
    var r := Execute(Boot(stackTop, c), es).value;
    assert MailOk(r.boxes, r.log);
  }

  // ---------------------------------------------------------------- no lost wakeup

  /** Thread `t`'s parameter block holds message `m`. */
  ghost predicate Holds(k: State, t: Tid, c: Call, m: Msg) {
    c.Recv? && k.tcbs[t].param.Some? &&
    var blk := k.tcbs[t].param.value;
    blk.ret == SenderId(m) && (c.sizep.Some? ==> blk.size == m.size) && (c.pp.Some? ==> blk.p == m.p)
  }

  /** Handing the oldest message `m` of box `b` to its receiver `t`. */
  lemma DeliverHolds(k: State, b: BoxId, t: Tid, m: Msg)
    requires Deliverable(k, b) && Waits(k, t, b) && k.boxes[b].msgs != [] && k.boxes[b].msgs[0] == m
    ensures var r := PutCurrent(RecvMsg(k.(current := Some(t)), b));
            var c := k.tcbs[t].call.value;
            Ready(r, t) && !IsReceiver(r, t) && k.tcbs[t].call.Some? && c.Recv? && Holds(r, t, c, m)
  {
    assert Blocked(k, t, b);
    var k1 := k.(current := Some(t));
    SameReceivers(k, k1);
    RecvMsgCore(k1, b);
    SameReceivers(RecvMsg(k1, b), PutCurrent(RecvMsg(k1, b)));
  }

  /** The message of a send, appended, with the caller back on its queue. */
  function Posted(k: State, b: BoxId, size: int, p: int, addr: int): (r: State) {
    SendMsg(PutCurrent(k), b, k.current, size, p, addr)
  }

  lemma PostedDeliverable(k: State, b: BoxId, t: Tid, size: int, p: int, addr: int)
    requires Core(k) && CurrentFree(k) && addr !in k.heap && Waits(k, t, b)
    ensures var k2 := Posted(k, b, size, p, addr);
            Deliverable(k2, b) && Waits(k2, t, b) && k2.boxes[b].msgs != [] && k2.boxes[b].msgs[0] == Msg(addr, k.current, size, p)
            && k2.tcbs[t] == k.tcbs[t]
  {
    PutCurrentCore(k);
    SendMsgRest(PutCurrent(k), b, k.current, size, p, addr);
    assert Blocked(k, t, b);
  }

  /** A send to a box with a waiting receiver makes it ready, with this very message in its block. */
  lemma SendWakes(k: State, b: BoxId, t: Tid, size: int, p: int, addr: int)
    requires Core(k) && CurrentFree(k) && addr !in k.heap && Waits(k, t, b)
    ensures ThreadSend(k, b, size, p, Some(addr)).Up?
    ensures var r := ThreadSend(k, b, size, p, Some(addr)).value.0;
            var c := k.tcbs[t].call.value;
            Ready(r, t) && !IsReceiver(r, t) && k.tcbs[t].call.Some? && c.Recv? &&
            Holds(r, t, c, Msg(addr, k.current, size, p))
  {
    hide Core, Deliverable;
    PostedDeliverable(k, b, t, size, p, addr);
    DeliverHolds(Posted(k, b, size, p, addr), b, t, Msg(addr, k.current, size, p));
  }

  // ---------------------------------------------------------------- a blocked receive

  /** Nothing was sent to box `b` since `k`. */
  ghost predicate Unsent(k: State, r: State, b: BoxId) {
    k.log <= r.log && forall m :: Sent(b, m) !in r.log[|k.log|..]
  }

  lemma UnsentTrans(k: State, l: State, r: State, b: BoxId)
    requires Unsent(k, l, b) && Unsent(l, r, b)
    ensures Unsent(k, r, b)
  {
    assert r.log[|k.log|..] == l.log[|k.log|..] + r.log[|l.log|..];
  }

  /** A thread that waits at `b`, waited there at `k` with the same call and block, and missed no send. */
  ghost predicate StillWaits(k: State, r: State, t: Tid, b: BoxId) {
    Waits(k, t, b) && Waits(r, t, b) && Unsent(k, r, b)
    && r.tcbs[t].call == k.tcbs[t].call && r.tcbs[t].param == k.tcbs[t].param
  }

  /** `t` is ready, and its block holds a message delivered to it from `b` since `k`. */
  ghost predicate WasServed(k: State, r: State, t: Tid, b: BoxId)
    requires k.log <= r.log
  {
    Waits(k, t, b) && Ready(r, t) && !IsReceiver(r, t) && k.tcbs[t].call.Some? && k.tcbs[t].call.value.Recv?
    && exists m :: Delivered(b, t, m) in r.log[|k.log|..]
                   && Holds(r, t, k.tcbs[t].call.value, m)
  }

  ghost predicate Progress(k: State, r: State, t: Tid, b: BoxId) {
    k.log <= r.log && (StillWaits(k, r, t, b) || WasServed(k, r, t, b))
  }

  /** A ready thread that does not run keeps its flag, its call and its block. */
  ghost predicate Kept(k: State, r: State, t: Tid) {
    k.log <= r.log && Ready(k, t) && Ready(r, t) && !IsReceiver(r, t)
    && r.tcbs[t].call == k.tcbs[t].call && r.tcbs[t].param == k.tcbs[t].param
  }

  lemma ProgressTrans(k: State, l: State, r: State, t: Tid, b: BoxId)
    requires Progress(k, l, t, b)
    requires StillWaits(k, l, t, b) ==> Progress(l, r, t, b)
    requires WasServed(k, l, t, b) ==> Kept(l, r, t)
    ensures Progress(k, r, t, b)
  {
    if StillWaits(k, l, t, b) {
      if StillWaits(l, r, t, b) {
        UnsentTrans(k, l, r, b);
      } else {
        var m :| Delivered(b, t, m) in r.log[|l.log|..]
                 && Holds(r, t, k.tcbs[t].call.value, m);
        assert r.log[|l.log|..] == r.log[|k.log|..][|l.log| - |k.log|..];
      }
    } else {
      var m :| Delivered(b, t, m) in l.log[|k.log|..]
               && Holds(l, t, k.tcbs[t].call.value, m);
      assert l.log[|k.log|..] <= r.log[|k.log|..];
      assert Delivered(b, t, m) in r.log[|k.log|..];
    }
  }

  lemma PutKeeps(k: State, t: Tid)
    ensures PutCurrent(k).tcbs[t] == k.tcbs[t].(ready := PutCurrent(k).tcbs[t].ready)
    ensures Ready(k, t) ==> Ready(PutCurrent(k), t)
    ensures k.current != Some(t) ==> PutCurrent(k).tcbs[t] == k.tcbs[t]
  {
  }

  /** Calls of others leave the call and the block of a ready thread alone. */
  lemma CallKeeps(k: State, c: Call, alloc: Option<int>, t: Tid)
    requires CallOk(k, c) && CallFunctions(k, c, alloc).Up?
    requires Live(k, t) && Ready(k, t) && !IsReceiver(k, t) && k.current != Some(t)
    ensures Kept(k, CallFunctions(k, c, alloc).value.0, t)
  {
    var r := CallFunctions(k, c, alloc).value.0;
    CallMail(k, c, alloc);
    PutKeeps(k, t);
    match c
    case Run(_, _, _, _, _) =>
      var i := FirstFree(k.tcbs, 0);
      if i < THREAD_NUM {
        PutKeeps(InitTcb(k, c, i), t);
        PutKeeps(PutCurrent(InitTcb(k, c, i)).(current := Some(i)), t);
      }
      SameReceivers(k, r);
    case Wakeup(id) =>
      PutKeeps(PutCurrent(k).(current := Some(id)), t);
      SameReceivers(k, r);
    case Send(b, size, p) =>
      SendKeeps(k, b, size, p, alloc, t);
    case Recv(b, _, _) =>
      assert forall a: BoxId :: Waits(r, t, a) ==> Waits(k, t, a);
    case _ =>
      SameReceivers(k, r);
  }

  lemma SendKeeps(k: State, b: BoxId, size: int, p: int, alloc: Option<int>, t: Tid)
    requires ThreadSend(k, b, size, p, alloc).Up?
    requires Live(k, t) && Ready(k, t) && !IsReceiver(k, t) && k.current != Some(t)
    ensures var r := ThreadSend(k, b, size, p, alloc).value.0;
            Ready(r, t) && !IsReceiver(r, t) && r.tcbs[t].call == k.tcbs[t].call && r.tcbs[t].param == k.tcbs[t].param
  {
    PutKeeps(k, t);
    var r := ThreadSend(k, b, size, p, alloc).value.0;
    var k1 := PutCurrent(k);
    var k2 := SendMsg(k1, b, k1.current, size, p, alloc.value);
    if k2.boxes[b].receiver.Some? {
      assert !Waits(k, t, b);
      PutKeeps(RecvMsg(k2.(current := k2.boxes[b].receiver), b), t);
    }
    assert forall a: BoxId :: Waits(r, t, a) ==> Waits(k, t, a);
  }

  /** One call, as seen by a thread that waits at box `b`. */
  lemma CallProgress(k: State, c: Call, alloc: Option<int>, t: Tid, b: BoxId)
    requires Core(k) && CallLegal(k, c, alloc) && CurrentFree(k) && (Caller(k, c) || SrvKind(c))
    requires Waits(k, t, b) && CallOk(k, c) && CallFunctions(k, c, alloc).Up?
    ensures Progress(k, CallFunctions(k, c, alloc).value.0, t, b)
  {
    var r := CallFunctions(k, c, alloc).value.0;
    assert Blocked(k, t, b) && IsReceiver(k, t) && k.current != Some(t);
    hide Core;
    match c
    case Send(a, size, p) =>
      if a == b {
        SendHere(k, c, alloc, t, b);
      } else {
        SendElsewhere(k, a, size, p, alloc, t, b);
      }
    case _ =>
      CallMail(k, c, alloc);
      OtherCall(k, c, alloc, t, b);
  }

  /** Calls other than a send leave whoever waits alone. */
  lemma OtherCall(k: State, c: Call, alloc: Option<int>, t: Tid, b: BoxId)
    requires Waits(k, t, b) && Live(k, t) && k.current != Some(t) && !c.Send?
    requires CallOk(k, c) && CallFunctions(k, c, alloc).Up?
    ensures var r := CallFunctions(k, c, alloc).value.0;
            Waits(r, t, b) && r.tcbs[t].call == k.tcbs[t].call && r.tcbs[t].param == k.tcbs[t].param
  {
    PutKeeps(k, t);
    match c
    case Run(_, _, _, _, _) =>
      var i := FirstFree(k.tcbs, 0);
      if i < THREAD_NUM {
        PutKeeps(InitTcb(k, c, i), t);
        PutKeeps(PutCurrent(InitTcb(k, c, i)).(current := Some(i)), t);
      }
    case Wakeup(id) =>
      PutKeeps(PutCurrent(k).(current := Some(id)), t);
    case _ =>
  }

  lemma SendHere(k: State, c: Call, alloc: Option<int>, t: Tid, b: BoxId)
    requires Core(k) && CurrentFree(k) && Waits(k, t, b) && c.Send? && c.to == b && CallLegal(k, c, alloc)
    requires CallOk(k, c) && CallFunctions(k, c, alloc).Up?
    ensures Progress(k, CallFunctions(k, c, alloc).value.0, t, b)
  {
    var r := CallFunctions(k, c, alloc).value.0;
    var m := Msg(alloc.value, k.current, c.size, c.p);
    SendWakes(k, b, t, c.size, c.p, alloc.value);
    CallMail(k, c, alloc);
    assert Blocked(k, t, b);
    assert MailOf(k, c, alloc)[1] == Delivered(b, t, m);
    assert r.log[|k.log|..] == MailOf(k, c, alloc);
  }

  lemma SendElsewhere(k: State, a: BoxId, size: int, p: int, alloc: Option<int>, t: Tid, b: BoxId)
    requires Core(k) && CurrentFree(k) && Waits(k, t, b) && a != b && ThreadSend(k, a, size, p, alloc).Up?
    ensures StillWaits(k, ThreadSend(k, a, size, p, alloc).value.0, t, b)
  {
    assert Blocked(k, t, b) && IsReceiver(k, t) && k.current != Some(t);
    assert forall u: Tid :: Waits(k, u, a) ==> Blocked(k, u, a);
    assert !Waits(k, t, a);
    hide Core, CurrentFree, ThreadSend, Unsent, Blocked;
    SendOthers(k, a, size, p, alloc, t);
    SendUnsent(k, a, size, p, alloc, b);
  }

  /** A send is recorded for its own box only. */
  lemma SendUnsent(k: State, a: BoxId, size: int, p: int, alloc: Option<int>, b: BoxId)
    requires ThreadSend(k, a, size, p, alloc).Up? && a != b
    ensures Unsent(k, ThreadSend(k, a, size, p, alloc).value.0, b)
  {
    var r := ThreadSend(k, a, size, p, alloc).value.0;
    hide ThreadSend;
    CallMail(k, Send(a, size, p), alloc);
    assert r.log[|k.log|..] == MailOf(k, Send(a, size, p), alloc);
  }

  /** A send leaves the call and the block of a thread alone that is neither the caller nor the receiver. */
  lemma SendOthers(k: State, a: BoxId, size: int, p: int, alloc: Option<int>, t: Tid)
    requires ThreadSend(k, a, size, p, alloc).Up? && k.current != Some(t) && !Waits(k, t, a)
    ensures var r := ThreadSend(k, a, size, p, alloc).value.0;
            r.tcbs[t] == k.tcbs[t] && forall c: BoxId :: c != a ==> r.boxes[c] == k.boxes[c]
  {
    PutKeeps(k, t);
    var k1 := PutCurrent(k);
    var k2 := SendMsg(k1, a, k1.current, size, p, alloc.value);
    if k2.boxes[a].receiver.Some? {
      PutKeeps(RecvMsg(k2.(current := k2.boxes[a].receiver), a), t);
    }
  }

  /** The service calls of a handler, as seen by a thread that waits. */
  lemma SrvCallsProgress(k0: State, k: State, calls: seq<SrvCall>, t: Tid, b: BoxId)
    requires Core(k) && SrvLegal(k, calls) && SrvOk(k, calls) && SrvCalls(k, calls).Up?
    requires Progress(k0, k, t, b) && Live(k, t)
    ensures Progress(k0, SrvCalls(k, calls).value, t, b)
    decreases |calls|
  {
    if calls != [] {
      SrvCallProgress(k0, k, calls[0], t, b);
      var r := SrvcallProc(k, calls[0].call, calls[0].alloc);
      SrvCallsProgress(k0, r.value.0, calls[1..], t, b);
    }
  }

  lemma SrvCallProgress(k0: State, k: State, s: SrvCall, t: Tid, b: BoxId)
    requires Core(k) && SrvKind(s.call) && CallLegal(k, s.call, s.alloc)
    requires CallOk(k.(current := None), s.call) && SrvcallProc(k, s.call, s.alloc).Up?
    requires Progress(k0, k, t, b) && Live(k, t)
    ensures var r := SrvcallProc(k, s.call, s.alloc).value.0;
            Core(r) && Progress(k0, r, t, b) && Live(r, t)
  {
    var k1 := k.(current := None);
    var r := SrvcallProc(k, s.call, s.alloc).value.0;
    RecurrentCore(k, None);
    SameReceivers(k, k1);
    CallCore(k1, s.call, s.alloc);
    if StillWaits(k0, k, t, b) {
      CallProgress(k1, s.call, s.alloc, t, b);
    } else {
      CallKeeps(k1, s.call, s.alloc, t);
    }
    ProgressTrans(k0, k, r, t, b);
    assert Live(r, t) by {
      if StillWaits(k0, r, t, b) {
        assert Blocked(r, t, b);
      } else {
        assert t in r.queues[r.tcbs[t].priority];
      }
    }
  }

  /** One entry, as seen by a thread that waits at box `b`: it goes on waiting, or is served. */
  lemma StepProgress(k: State, e: Entry, t: Tid, b: BoxId)
    requires Inv(k) && EntryLegal(k, e) && Next(k, e).Up? && Waits(k, t, b)
    ensures Progress(k, Next(k, e).value, t, b)
  {
    RunningThread(k);
    assert Blocked(k, t, b) && k.current != Some(t);
    hide Next, Inv, Core, SrvCalls;
    var k1, r := Entered(k, e), Next(k, e).value;
    SameReceivers(k, k1);
    if e.Trap? {
      TrapProgress(k, e, t, b);
    } else {
      InterruptStep(k, e);
      if k.handlers[e.kind].User? {
        SrvCallsProgress(k, k1, e.calls, t, b);
        SameReceivers(SrvCalls(k1, e.calls).value, r);
      } else {
        assert r.log == k.log;
      }
    }
  }

  lemma TrapProgress(k: State, e: Entry, t: Tid, b: BoxId)
    requires Inv(k) && EntryLegal(k, e) && Next(k, e).Up? && Waits(k, t, b) && e.Trap?
    requires Some(t) != k.current
    ensures Progress(k, Next(k, e).value, t, b)
  {
    TrapEntry(k, e);
    TrapStep(k, e);
    var k1, r := GetCurrent(Entered(k, e)), Next(k, e).value;
    var k2 := TrapCall(k, e).value.0;
    CallProgress(k1, e.call, e.alloc, t, b);
    SameReceivers(k2, r);
    ProgressFrame(k, k1, k2, r, t, b);
  }

  /** `Progress` reads the boxes, the log and one TCB. */
  lemma ProgressFrame(k: State, k1: State, k2: State, r: State, t: Tid, b: BoxId)
    requires Progress(k1, k2, t, b)
    requires k1.boxes == k.boxes && k1.log == k.log && k1.tcbs[t] == k.tcbs[t]
    requires r.boxes == k2.boxes && r.log == k2.log && r.tcbs[t] == k2.tcbs[t]
    ensures Progress(k, r, t, b)
  {
    SameReceivers(k2, r);
  }

  lemma SrvCallsKeep(k: State, calls: seq<SrvCall>, t: Tid)
    requires Core(k) && SrvLegal(k, calls) && SrvOk(k, calls) && SrvCalls(k, calls).Up? && Ready(k, t)
    ensures Kept(k, SrvCalls(k, calls).value, t)
    decreases |calls|
  {
    ReadyIsFree(k, t);
    if calls != [] {
      var k1 := k.(current := None);
      RecurrentCore(k, None);
      SameReceivers(k, k1);
      CallCore(k1, calls[0].call, calls[0].alloc);
      CallKeeps(k1, calls[0].call, calls[0].alloc, t);
      SrvCallsKeep(SrvcallProc(k, calls[0].call, calls[0].alloc).value.0, calls[1..], t);
    }
  }

  lemma ReadyIsFree(k: State, t: Tid)
    requires Core(k) && Ready(k, t)
    ensures Live(k, t) && !IsReceiver(k, t)
  {
    assert t in k.queues[k.tcbs[t].priority];
    assert forall b: BoxId :: !Waits(k, t, b);
  }

  /** One entry, as seen by a ready thread that is not the one running. */
  lemma StepKeeps(k: State, e: Entry, t: Tid)
    requires Inv(k) && EntryLegal(k, e) && Next(k, e).Up? && Ready(k, t) && k.current != Some(t)
    ensures Kept(k, Next(k, e).value, t)
  {
    RunningThread(k);
    ReadyIsFree(k, t);
    hide Next, Inv, Core, CallFunctions, SrvCalls;
    var k1, r := Entered(k, e), Next(k, e).value;
    SameReceivers(k, k1);
    if e.Trap? {
      TrapEntry(k, e);
      TrapStep(k, e);
      SameReceivers(k, GetCurrent(k1));
      CallKeeps(GetCurrent(k1), e.call, e.alloc, t);
      SameReceivers(TrapCall(k, e).value.0, r);
    } else {
      InterruptStep(k, e);
      if k.handlers[e.kind].User? {
        SrvCallsKeep(k1, e.calls, t);
        SameReceivers(SrvCalls(k1, e.calls).value, r);
      } else {
        SameReceivers(k, r);
      }
    }
  }

  /** Thread `t` is not the running thread at any entry of the run. */
  ghost predicate NotRunning(k: State, es: seq<Entry>, t: Tid)
    requires Inv(k) && LegalRun(k, es)
    decreases |es|
  {
    es == [] ||
    (k.current != Some(t) && match Next(k, es[0]) case Down => true case Up(k1) => NotRunning(k1, es[1..], t))
  }

  /**
   A blocked receive, over any run up to the point where its thread runs again: either the thread
   still waits, its block as the call left it, or it is ready and its block holds the sender, size
   and pointer of a message delivered to it from that box.
   */
  lemma {:induction false} BlockedReceive(k: State, es: seq<Entry>, t: Tid, b: BoxId)
    requires Inv(k) && LegalRun(k, es) && Execute(k, es).Up? && NotRunning(k, es, t) && Waits(k, t, b)
    ensures Progress(k, Execute(k, es).value, t, b)
    decreases |es|
  {
    hide Next, Inv;
    if es != [] {
      var k1 := Next(k, es[0]).value;
      StepProgress(k, es[0], t, b);
      var r := Execute(k1, es[1..]).value;
      if StillWaits(k, k1, t, b) {
        BlockedReceive(k1, es[1..], t, b);
      } else {
        ServedKept(k1, es[1..], t);
      }
      ProgressTrans(k, k1, r, t, b);
    }
  }

  lemma {:induction false} ServedKept(k: State, es: seq<Entry>, t: Tid)
    requires Inv(k) && LegalRun(k, es) && Execute(k, es).Up? && NotRunning(k, es, t) && Ready(k, t)
    ensures Kept(k, Execute(k, es).value, t)
    decreases |es|
  {
    hide Next;
    if es == [] {
      ReadyIsFree(k, t);
    } else {
      StepKeeps(k, es[0], t);
      ServedKept(Next(k, es[0]).value, es[1..], t);
    }
  }

  /** In particular, when the thread is dispatched next, the receive it returns from was served. */
  lemma ReceiveReturns(k: State, es: seq<Entry>, t: Tid, b: BoxId)
    requires Inv(k) && LegalRun(k, es) && Execute(k, es).Up? && NotRunning(k, es, t) && Waits(k, t, b)
    requires Execute(k, es).value.current == Some(t)
    ensures k.log <= Execute(k, es).value.log && WasServed(k, Execute(k, es).value, t, b)
  {
    hide Next;
    BlockedReceive(k, es, t, b);
    RunningThread(Execute(k, es).value);
    assert !Waits(Execute(k, es).value, t, b);
  }

  /** A receive on an empty box registers its caller and stores -1 in its block. */
  lemma ReceiveBlocks(k: State, e: Entry)
    requires Inv(k) && EntryLegal(k, e) && e.Trap? && e.call.Recv? && Next(k, e).Up?
    requires k.boxes[e.call.from].msgs == []
    ensures var r, t := Next(k, e).value, k.current.value;
            Waits(r, t, e.call.from) && r.tcbs[t].call == Some(e.call) && r.tcbs[t].param == Some(e.blk.(ret := Num(-1)))
  {
    TrapEntry(k, e);
    TrapStep(k, e);
  }

  /** A receive with mail returns at once with the oldest message. */
  lemma ReceiveTakes(k: State, e: Entry)
    requires Inv(k) && EntryLegal(k, e) && e.Trap? && e.call.Recv? && Next(k, e).Up?
    requires k.boxes[e.call.from].msgs != []
    ensures var r, t, m := Next(k, e).value, k.current.value, k.boxes[e.call.from].msgs[0];
            Ready(r, t) && Holds(r, t, e.call, m)
            && r.boxes[e.call.from] == Box(None, k.boxes[e.call.from].msgs[1..])
  {
    TrapEntry(k, e);
    TrapStep(k, e);
  }

  // ---------------------------------------------------------------- buffers

  /** No box ever has both a waiting receiver and a message, and no thread waits at two boxes. */
  lemma BoxesExclusive(k: State, t: Tid, b: BoxId)
    requires Inv(k) && Waits(k, t, b)
    ensures k.boxes[b].msgs == [] && Live(k, t) && !Ready(k, t)
    ensures forall c: BoxId :: Waits(k, t, c) ==> c == b
  {
    assert Blocked(k, t, b);
    assert forall c: BoxId :: Waits(k, t, c) ==> Blocked(k, t, c);
  }

  /** How many messages are queued in the first `n` boxes. */
  function Queued(boxes: Boxes, n: nat): (r: nat)
    requires n <= |boxes|
  {
    if n == 0 then 0 else Queued(boxes, n - 1) + |boxes[n - 1].msgs|
  }

  /** The addresses of the first `i` messages of a box. */
  function Addresses(msgs: seq<Msg>, i: nat): (r: set<int>)
    requires i <= |msgs|
  {
    set j | 0 <= j < i :: msgs[j].addr
  }

  lemma CountAddresses(boxes: Boxes, b: BoxId, i: nat, heap: set<int>)
    requires HeapOk(boxes, heap) && i <= |boxes[b].msgs|
    ensures |Addresses(boxes[b].msgs, i)| == i
  {
    if i > 0 {
      CountAddresses(boxes, b, i - 1, heap);
      var a := boxes[b].msgs[i - 1].addr;
      assert Stored(boxes, b, i - 1, a);
      assert forall j :: 0 <= j < i - 1 ==> Stored(boxes, b, j, boxes[b].msgs[j].addr);
      assert a !in Addresses(boxes[b].msgs, i - 1);
      assert Addresses(boxes[b].msgs, i) == Addresses(boxes[b].msgs, i - 1) + {a};
    }
  }

  /** The buffers linked in the first `n` boxes. */
  function LinkedBuffers(boxes: Boxes, n: nat): (r: set<int>)
    requires n <= |boxes|
  {
    if n == 0 then {} else LinkedBuffers(boxes, n - 1) + Addresses(boxes[n - 1].msgs, |boxes[n - 1].msgs|)
  }

  lemma LinkedStored(boxes: Boxes, n: nat, a: int)
    requires n <= |boxes|
    ensures a in LinkedBuffers(boxes, n) <==> exists b, i :: b < n && Stored(boxes, b, i, a)
  {
    if n > 0 {
      LinkedStored(boxes, n - 1, a);
      if a in Addresses(boxes[n - 1].msgs, |boxes[n - 1].msgs|) {
        var j :| 0 <= j < |boxes[n - 1].msgs| && boxes[n - 1].msgs[j].addr == a;
        assert Stored(boxes, n - 1, j, a);
      }
    }
  }

  lemma LinkedDisjoint(boxes: Boxes, n: nat, heap: set<int>)
    requires HeapOk(boxes, heap) && n < |boxes|
    ensures LinkedBuffers(boxes, n) !! Addresses(boxes[n].msgs, |boxes[n].msgs|)
  {
    var last := boxes[n].msgs;
    forall a | a in LinkedBuffers(boxes, n)
      ensures a !in Addresses(last, |last|)
    {
      LinkedStored(boxes, n, a);
      assert forall j :: 0 <= j < |last| ==> Stored(boxes, n, j, last[j].addr);
    }
  }

  lemma CountLinked(boxes: Boxes, n: nat, heap: set<int>)
    requires HeapOk(boxes, heap) && n <= |boxes|
    ensures |LinkedBuffers(boxes, n)| == Queued(boxes, n)
  {
    if n > 0 {
      CountLinked(boxes, n - 1, heap);
      CountAddresses(boxes, n - 1, |boxes[n - 1].msgs|, heap);
      LinkedDisjoint(boxes, n - 1, heap);
    }
  }

  /** Conservation: the buffers in use are exactly the queued messages, one buffer for each. */
  lemma BufferConservation(k: State)
    requires Inv(k)
    ensures k.heap == LinkedBuffers(k.boxes, MSGBOX_ID_NUM) && |k.heap| == Queued(k.boxes, MSGBOX_ID_NUM)
  {
    CountLinked(k.boxes, MSGBOX_ID_NUM, k.heap);
    forall a | true
      ensures a in k.heap <==> a in LinkedBuffers(k.boxes, MSGBOX_ID_NUM)
    {
      LinkedStored(k.boxes, MSGBOX_ID_NUM, a);
    }
  }
}
