/**
 Which parameter blocks an entry writes: those of the threads that the history names as receivers,
 and that of the caller.
 */
module KernelDeliveries {
  import opened Prelude
  import opened KernelSpec
  import opened KernelInvariant
  import opened KernelScheduling
  import opened KernelLifecycle
  import opened KernelMail
  import opened KernelStacks

  // ---------------------------------------------------------------- blocks follow the history

  /** The block of thread `t` after the deliveries of `evs` to it. */
  function ParamAfter(tcb: Tcb, evs: seq<Event>, t: Tid): (p: Option<Block>) {
    if evs == [] then tcb.param
    else
      var q := ParamAfter(tcb, evs[..|evs| - 1], t);
      var e := evs[|evs| - 1];
      if e.Delivered? && e.to == t && q.Some? then Some(Fill(tcb.call, q.value, e.msg)) else q
  }

  lemma {:induction false} ParamAfterConcat(tcb: Tcb, a: seq<Event>, b: seq<Event>, t: Tid)
    ensures ParamAfter(tcb, a + b, t) == ParamAfter(tcb.(param := ParamAfter(tcb, a, t)), b, t)
    decreases |b|
  {
    if b == [] {
      assert a + b == a;
    } else {
      var n := |b| - 1;
      assert (a + b)[..|a| + n] == a + b[..n];
      ParamAfterConcat(tcb, a, b[..n], t);
    }
  }

  /** `r` is `k` with the block of `t` changed by the deliveries since, and nothing else of its call. */
  ghost predicate Delivering(k: State, r: State, t: Tid) {
    k.log <= r.log && r.tcbs[t].call == k.tcbs[t].call
    && r.tcbs[t].param == ParamAfter(k.tcbs[t], r.log[|k.log|..], t)
  }

  lemma DeliveringTrans(k: State, l: State, r: State, t: Tid)
    requires Delivering(k, l, t) && Delivering(l, r, t)
    ensures Delivering(k, r, t)
  {
    var a, b := l.log[|k.log|..], r.log[|l.log|..];
    assert r.log[|k.log|..] == a + b;
    ParamAfterConcat(k.tcbs[t], a, b, t);
    ParamAfterSame(l.tcbs[t], k.tcbs[t].(param := l.tcbs[t].param), b, t);
  }

  /** Only the call and the block matter. */
  lemma {:induction false} ParamAfterSame(x: Tcb, y: Tcb, evs: seq<Event>, t: Tid)
    requires x.call == y.call && x.param == y.param
    ensures ParamAfter(x, evs, t) == ParamAfter(y, evs, t)
    decreases |evs|
  {
    if evs != [] {
      ParamAfterSame(x, y, evs[..|evs| - 1], t);
    }
  }

  lemma ParamAfterOne(tcb: Tcb, e: Event, t: Tid)
    ensures ParamAfter(tcb, [e], t) ==
            if e.Delivered? && e.to == t && tcb.param.Some? then Some(Fill(tcb.call, tcb.param.value, e.msg)) else tcb.param
  {
    assert [e][..0] == [];
  }

  lemma ParamAfterTwo(tcb: Tcb, e: Event, f: Event, t: Tid)
    requires !e.Delivered?
    ensures ParamAfter(tcb, [e] + [f], t) == ParamAfter(tcb, [f], t)
  {
    ParamAfterOne(tcb, e, t);
    ParamAfterConcat(tcb, [e], [f], t);
  }

  /** A call writes the blocks of other threads by deliveries only. */
  lemma CallDeliveries(k: State, c: Call, alloc: Option<int>, t: Tid)
    requires CallOk(k, c) && CallFunctions(k, c, alloc).Up? && Live(k, t) && k.current != Some(t)
    ensures Delivering(k, CallFunctions(k, c, alloc).value.0, t)
  {
    hide ParamAfter;
    var r := CallFunctions(k, c, alloc).value.0;
    CallMail(k, c, alloc);
    assert r.log[|k.log|..] == MailOf(k, c, alloc);
    ParamAfterNone(k.tcbs[t], t);
    PutKeeps(k, t);
    match c
    case Run(_, _, _, _, _) =>
      var i := FirstFree(k.tcbs, 0);
      if i < THREAD_NUM {
        PutKeeps(InitTcb(k, c, i), t);
        PutKeeps(PutCurrent(InitTcb(k, c, i)).(current := Some(i)), t);
      }
    case Wakeup(id) => PutKeeps(PutCurrent(k).(current := Some(id)), t);
    case Send(b, size, p) => SendDeliveries(k, b, size, p, alloc, t);
    case Recv(b, _, _) =>
      if k.boxes[b].msgs != [] {
        ParamAfterOne(k.tcbs[t], MailOf(k, c, alloc)[0], t);
      }
    case _ =>
  }

  lemma ParamAfterNone(tcb: Tcb, t: Tid)
    ensures ParamAfter(tcb, [], t) == tcb.param
  {
  }

  lemma SendDeliveries(k: State, b: BoxId, size: int, p: int, alloc: Option<int>, t: Tid)
    requires ThreadSend(k, b, size, p, alloc).Up? && k.current != Some(t)
    ensures var r := ThreadSend(k, b, size, p, alloc).value.0;
            r.tcbs[t].call == k.tcbs[t].call
            && r.tcbs[t].param == ParamAfter(k.tcbs[t], MailOf(k, Send(b, size, p), alloc), t)
  {
    hide ParamAfter;
    var evs := MailOf(k, Send(b, size, p), alloc);
    PutKeeps(k, t);
    var k1 := PutCurrent(k);
    var k2 := SendMsg(k1, b, k1.current, size, p, alloc.value);
    ParamAfterOne(k.tcbs[t], evs[0], t);
    if k2.boxes[b].receiver == None {
      assert evs == [evs[0]];
    } else {
      assert evs == [evs[0]] + [evs[1]];
      PutKeeps(RecvMsg(k2.(current := k2.boxes[b].receiver), b), t);
      ParamAfterTwo(k.tcbs[t], evs[0], evs[1], t);
      ParamAfterOne(k.tcbs[t], evs[1], t);
    }
  }

  /** What a call does to the block of its caller, before the return value is stored. */
  lemma OwnDeliveries(k: State, c: Call, alloc: Option<int>)
    requires Core(k) && Caller(k, c) && CallOk(k, c) && CallFunctions(k, c, alloc).Up? && !c.Exit?
    ensures var t := k.current.value;
            CallFunctions(k, c, alloc).value.0.tcbs[t].param == ParamAfter(k.tcbs[t], MailOf(k, c, alloc), t)
  {
    var t := k.current.value;
    assert forall b: BoxId :: !Waits(k, t, b);
    hide ParamAfter, Core;
    ParamAfterNone(k.tcbs[t], t);
    PutKeeps(k, t);
    match c
    case Run(_, _, _, _, _) =>
      var i := FirstFree(k.tcbs, 0);
      if i < THREAD_NUM {
        PutKeeps(InitTcb(k, c, i), t);
        PutKeeps(PutCurrent(InitTcb(k, c, i)).(current := Some(i)), t);
      }
    case Wakeup(id) => PutKeeps(PutCurrent(k).(current := Some(id)), t);
    case Send(b, size, p) =>
      assert !Waits(k, t, b);
      OwnSend(k, b, size, p, alloc, t);
    case Recv(b, _, _) =>
      if k.boxes[b].msgs != [] {
        ParamAfterOne(k.tcbs[t], MailOf(k, c, alloc)[0], t);
      }
    case _ =>
  }

  lemma OwnSend(k: State, b: BoxId, size: int, p: int, alloc: Option<int>, t: Tid)
    requires ThreadSend(k, b, size, p, alloc).Up? && k.current == Some(t) && !Waits(k, t, b)
    ensures ThreadSend(k, b, size, p, alloc).value.0.tcbs[t].param
         == ParamAfter(k.tcbs[t], MailOf(k, Send(b, size, p), alloc), t)
  {
    hide ParamAfter;
    var evs := MailOf(k, Send(b, size, p), alloc);
    PutKeeps(k, t);
    var k1 := PutCurrent(k);
    var k2 := SendMsg(k1, b, k1.current, size, p, alloc.value);
    ParamAfterOne(k.tcbs[t], evs[0], t);
    if k2.boxes[b].receiver == None {
      assert evs == [evs[0]];
    } else {
      assert evs == [evs[0]] + [evs[1]];
      PutKeeps(RecvMsg(k2.(current := k2.boxes[b].receiver), b), t);
      ParamAfterTwo(k.tcbs[t], evs[0], evs[1], t);
      ParamAfterOne(k.tcbs[t], evs[1], t);
    }
  }

  /** The block of the caller after its call: what was delivered to it, and the return value. */
  lemma CallerDeliveries(k: State, e: Entry)
    requires Inv(k) && EntryLegal(k, e) && e.Trap? && StoresRet(e.call) && Next(k, e).Up?
    ensures var r, t := Next(k, e).value, k.current.value;
            k.log <= r.log &&
            var p := ParamAfter(Entered(k, e).tcbs[t], r.log[|k.log|..], t);
            p.Some? && r.tcbs[t].param == Some(p.value.(ret := TrapCall(k, e).value.1))
  {
    RunningThread(k);
    hide Next, Inv, Core, CallFunctions, ParamAfter;
    TrapEntry(k, e);
    TrapStep(k, e);
    var k1, r, t := GetCurrent(Entered(k, e)), Next(k, e).value, k.current.value;
    CallMail(k1, e.call, e.alloc);
    OwnDeliveries(k1, e.call, e.alloc);
    var evs := MailOf(k1, e.call, e.alloc);
    assert r.log[|k.log|..] == evs;
    ParamAfterSame(k1.tcbs[t], Entered(k, e).tcbs[t], evs, t);
    ParamAfterSome(k1.tcbs[t], evs, t);
  }

  lemma {:induction false} ParamAfterSome(tcb: Tcb, evs: seq<Event>, t: Tid)
    ensures ParamAfter(tcb, evs, t).Some? == tcb.param.Some?
    decreases |evs|
  {
    if evs != [] {
      ParamAfterSome(tcb, evs[..|evs| - 1], t);
    }
  }

  lemma SrvCallsDeliveries(k: State, calls: seq<SrvCall>, t: Tid)
    requires Core(k) && SrvLegal(k, calls) && SrvOk(k, calls) && SrvCalls(k, calls).Up? && Live(k, t)
    ensures Delivering(k, SrvCalls(k, calls).value, t)
    decreases |calls|
  {
    hide Core, ParamAfter;
    if calls == [] {
      ParamAfterNone(k.tcbs[t], t);
      assert k.log[|k.log|..] == [];
    } else {
      var r := SrvcallProc(k, calls[0].call, calls[0].alloc).value.0;
      SrvCallLive(k, calls[0], t);
      CallDeliveries(k.(current := None), calls[0].call, calls[0].alloc, t);
      SrvCallsDeliveries(r, calls[1..], t);
      DeliveringTrans(k, r, SrvCalls(k, calls).value, t);
    }
  }

  lemma SrvCallLive(k: State, s: SrvCall, t: Tid)
    requires Core(k) && SrvKind(s.call) && CallLegal(k, s.call, s.alloc)
    requires CallOk(k.(current := None), s.call) && SrvcallProc(k, s.call, s.alloc).Up?
    ensures Core(SrvcallProc(k, s.call, s.alloc).value.0)
    ensures Live(k, t) ==> Live(SrvcallProc(k, s.call, s.alloc).value.0, t)
  {
    hide Core;
    var k1 := k.(current := None);
    RecurrentCore(k, None);
    SameReceivers(k, k1);
    CallCore(k1, s.call, s.alloc);
    CallLive(k1, s.call, s.alloc, t);
  }

  /** An entry writes the block of a thread that is not running by deliveries to it only. */
  lemma StepDeliveries(k: State, e: Entry, t: Tid)
    requires Inv(k) && EntryLegal(k, e) && Next(k, e).Up? && Live(k, t) && k.current != Some(t)
    ensures Delivering(k, Next(k, e).value, t)
  {
    StepInv(k, e);
    RunningThread(k);
    EnteredCore(k, e);
    var k1, r := Entered(k, e), Next(k, e).value;
    hide ParamAfter;
    if e.Trap? {
      TrapEntry(k, e);
      TrapStep(k, e);
      CallDeliveries(GetCurrent(k1), e.call, e.alloc, t);
    } else if k.handlers[e.kind].User? {
      SrvCallsDeliveries(k1, e.calls, t);
    } else {
      ParamAfterNone(k.tcbs[t], t);
      assert r.log[|k.log|..] == [];
    }
  }

  // ---------------------------------------------------------------- who receives

  /** Whoever waits, or is delivered to, waited before, or is `t` with a receive on that box. */
  ghost predicate ServesWaiters(k: State, r: State, caller: Option<Tid>) {
    && k.log <= r.log
    && (forall t: Tid, b: BoxId :: Waits(r, t, b) ==> Waits(k, t, b) || caller == Some(t))
    && (forall t: Tid, b: BoxId, m: Msg :: Delivered(b, t, m) in r.log[|k.log|..] ==> Waits(k, t, b) || caller == Some(t))
  }

  lemma CallServes(k: State, c: Call, alloc: Option<int>)
    requires CallOk(k, c) && CallFunctions(k, c, alloc).Up?
    ensures ServesWaiters(k, CallFunctions(k, c, alloc).value.0, if c.Recv? then k.current else None)
  {
    var r := CallFunctions(k, c, alloc).value.0;
    CallMail(k, c, alloc);
    assert r.log[|k.log|..] == MailOf(k, c, alloc);
    forall t: Tid, b: BoxId | Waits(r, t, b)
      ensures Waits(k, t, b) || (c.Recv? && k.current == Some(t))
    {
      CallWaits(k, c, alloc, t, b);
    }
  }

  lemma CallWaits(k: State, c: Call, alloc: Option<int>, t: Tid, b: BoxId)
    requires CallOk(k, c) && CallFunctions(k, c, alloc).Up? && Waits(CallFunctions(k, c, alloc).value.0, t, b)
    ensures Waits(k, t, b) || (c.Recv? && k.current == Some(t))
  {
  }

  lemma ServesTrans(k: State, l: State, r: State)
    requires ServesWaiters(k, l, None) && ServesWaiters(l, r, None)
    ensures ServesWaiters(k, r, None)
  {
    assert r.log[|k.log|..] == l.log[|k.log|..] + r.log[|l.log|..];
  }

  lemma SrvCallsServe(k: State, calls: seq<SrvCall>)
    requires Core(k) && SrvLegal(k, calls) && SrvOk(k, calls) && SrvCalls(k, calls).Up?
    ensures ServesWaiters(k, SrvCalls(k, calls).value, None)
    decreases |calls|
  {
    hide Core;
    if calls != [] {
      var r := SrvcallProc(k, calls[0].call, calls[0].alloc).value.0;
      SrvCallLive(k, calls[0], 0);
      CallServes(k.(current := None), calls[0].call, calls[0].alloc);
      SrvCallsServe(r, calls[1..]);
      ServesTrans(k, r, SrvCalls(k, calls).value);
    }
  }

  /** An entry delivers to threads that waited, and to a running thread that receives. */
  lemma StepServes(k: State, e: Entry)
    requires Inv(k) && EntryLegal(k, e) && Next(k, e).Up?
    ensures ServesWaiters(k, Next(k, e).value, if e.Trap? && e.call.Recv? then k.current else None)
  {
    hide ServesWaiters;
    StepInv(k, e);
    RunningThread(k);
    EnteredCore(k, e);
    var k1, r := Entered(k, e), Next(k, e).value;
    if e.Trap? {
      TrapEntry(k, e);
      TrapStep(k, e);
      CallServes(GetCurrent(k1), e.call, e.alloc);
      ServesFrame(k, GetCurrent(k1), TrapCall(k, e).value.0, r, if e.call.Recv? then k.current else None);
    } else if k.handlers[e.kind].User? {
      SrvCallsServe(k1, e.calls);
      ServesFrame(k, k1, SrvCalls(k1, e.calls).value, r, None);
    } else {
      NothingServed(k, r);
    }
  }

  /** `ServesWaiters` reads the boxes and the history. */
  lemma ServesFrame(k: State, k1: State, r1: State, r: State, caller: Option<Tid>)
    requires ServesWaiters(k1, r1, caller)
    requires k1.boxes == k.boxes && k1.log == k.log && r1.boxes == r.boxes && r1.log == r.log
    ensures ServesWaiters(k, r, caller)
  {
    SameReceivers(k1, k);
    SameReceivers(r1, r);
  }

  lemma NothingServed(k: State, r: State)
    requires k.boxes == r.boxes && k.log == r.log
    ensures ServesWaiters(k, r, None)
  {
    assert r.log[|k.log|..] == [];
  }
}
