/**
 Who is ready, who is live and when the system goes down, entry by entry: exact conditions that a
 caller can read off the state before the call.
 */
module KernelLifecycle {
  import opened Prelude
  import opened KernelSpec
  import opened KernelInvariant
  import opened KernelScheduling

  /** A free TCB exists. */
  predicate HasFree(k: State) {
    FirstFree(k.tcbs, 0) < THREAD_NUM
  }

  /** Exactly the calls after which the caller is still on a ready queue. */
  predicate StaysReady(k: State, c: Call) {
    match c
    case Run(_, _, _, _, _) => HasFree(k)  // with a full table the caller is dropped
    case Exit => false
    case Sleep => false
    case Recv(b, _, _) => b < MSGBOX_ID_NUM && k.boxes[b].msgs != []
    case Unknown => false
    case _ => true
  }

  lemma PutKeepsReady(k: State, t: Tid)
    ensures Ready(k, t) ==> Ready(PutCurrent(k), t)
    ensures k.current == Some(t) ==> Ready(PutCurrent(k), t)
    ensures Some(t) != k.current ==> PutCurrent(k).tcbs[t] == k.tcbs[t]
  {
  }

  lemma PutBothReady(k: State, i: Tid, t: Tid)
    ensures Ready(k, t) ==> Ready(PutBoth(k, i), t)
    ensures k.current == Some(t) || i == t ==> Ready(PutBoth(k, i), t)
    ensures Some(t) != k.current && i != t ==> PutBoth(k, i).tcbs[t] == k.tcbs[t]
  {
    PutKeepsReady(k, t);
    PutKeepsReady(PutCurrent(k).(current := Some(i)), t);
  }

  lemma SendReady(k: State, b: BoxId, size: int, p: int, alloc: Option<int>, t: Tid)
    requires ThreadSend(k, b, size, p, alloc).Up?
    ensures Ready(k, t) || k.current == Some(t) ==> Ready(ThreadSend(k, b, size, p, alloc).value.0, t)
  {
    PutKeepsReady(k, t);
    var k1 := PutCurrent(k);
    var k2 := SendMsg(k1, b, k1.current, size, p, alloc.value);
    if k2.boxes[b].receiver.Some? {
      PutKeepsReady(RecvMsg(k2.(current := k2.boxes[b].receiver), b), t);
    }
  }

  /** The caller of a call, just taken off its queue, is back on one iff `StaysReady` says so. */
  lemma CallerBack(k: State, c: Call, alloc: Option<int>)
    requires Core(k) && Caller(k, c) && CallLegal(k, c, alloc) && CallOk(k, c) && CallFunctions(k, c, alloc).Up?
    ensures Ready(CallFunctions(k, c, alloc).value.0, k.current.value) <==> StaysReady(k, c)
  {
    var t := k.current.value;
    PutKeepsReady(k, t);
    match c
    case Run(_, _, _, _, _) =>
      var i := FirstFree(k.tcbs, 0);
      if i < THREAD_NUM {
        PutBothReady(InitTcb(k, c, i), i, t);
      }
    case Wakeup(id) => PutBothReady(k, id, t);
    case Send(b, size, p) => SendReady(k, b, size, p, alloc, t);
    case _ =>
  }

  /** After a system call the caller is ready iff the call is one that puts it back. */
  lemma TrapCallerReady(k: State, e: Entry)
    requires Inv(k) && EntryLegal(k, e) && e.Trap? && Next(k, e).Up?
    ensures Ready(Next(k, e).value, k.current.value) <==> StaysReady(k, e.call)
  {
    TrapEntry(k, e);
    TrapStep(k, e);
    var k1 := GetCurrent(Entered(k, e));
    StepInv(k, e);
    CallerBack(k1, e.call, e.alloc);
    SameFree(k, k1);
  }

  lemma SameFree(k: State, r: State)
    requires forall t: Tid :: r.tcbs[t].func == k.tcbs[t].func
    ensures FirstFree(r.tcbs, 0) == FirstFree(k.tcbs, 0)
  {
    SameFreeFrom(k.tcbs, r.tcbs, 0);
  }

  lemma SameFreeFrom(a: Tcbs, b: Tcbs, i: nat)
    requires i <= |a| && forall t: Tid :: b[t].func == a[t].func
    ensures FirstFree(b, i) == FirstFree(a, i)
    decreases |a| - i
  {
    if i < |a| {
      SameFreeFrom(a, b, i + 1);
    }
  }

  // ---------------------------------------------------------------- live threads

  /** System calls that start a thread add exactly the first free TCB; exit removes exactly the caller. */
  predicate LiveAfter(k: State, e: Entry, t: Tid)
    requires k.current.Some?
  {
    if e.Trap? && e.call.Run? && t == FirstFree(k.tcbs, 0) then true
    else if ((e.Trap? && e.call.Exit?) || (e.Interrupt? && e.kind == SOFTVEC_TYPE_SOFTERR)) && k.current == Some(t) then false
    else Live(k, t)
  }

  lemma PutLive(k: State, t: Tid)
    ensures Live(PutCurrent(k), t) == Live(k, t)
  {
  }

  lemma CallLive(k: State, c: Call, alloc: Option<int>, t: Tid)
    requires CallOk(k, c) && CallFunctions(k, c, alloc).Up?
    requires c.Run? ==> c.func != 0
    ensures var r := CallFunctions(k, c, alloc).value.0;
            Live(r, t) ==
              if c.Run? && t == FirstFree(k.tcbs, 0) then true
              else if c.Exit? && k.current == Some(t) then false
              else Live(k, t)
  {
    PutLive(k, t);
    match c
    case Run(_, _, _, _, _) =>
      var i := FirstFree(k.tcbs, 0);
      if i < THREAD_NUM {
        var k1 := InitTcb(k, c, i);
        PutLive(k1, t);
        PutLive(PutCurrent(k1).(current := Some(i)), t);
      }
    case Wakeup(id) => PutLive(PutCurrent(k).(current := Some(id)), t);
    case Send(b, size, p) =>
      var k1 := PutCurrent(k);
      var k2 := SendMsg(k1, b, k1.current, size, p, alloc.value);
      if k2.boxes[b].receiver.Some? {
        PutLive(RecvMsg(k2.(current := k2.boxes[b].receiver), b), t);
      }
    case Recv(b, _, _) =>
    case _ =>
  }

  /** No system call or soft error creates or destroys any other thread. */
  lemma StepLive(k: State, e: Entry, t: Tid)
    requires Inv(k) && EntryLegal(k, e) && TakesCurrent(e) && Next(k, e).Up?
    ensures Live(Next(k, e).value, t) == LiveAfter(k, e, t)
  {
    hide Next, Inv, Core, CallFunctions;
    RunningThread(k);
    if e.Trap? {
      TrapEntry(k, e);
      TrapStep(k, e);
      var k1 := GetCurrent(Entered(k, e));
      CallLive(k1, e.call, e.alloc, t);
      SameFree(k, k1);
    } else {
      InterruptStep(k, e);
    }
  }

  // ---------------------------------------------------------------- system down

  /** A call that the kernel answers with a system down before scheduling. */
  predicate CallDown(k: State, c: Call, alloc: Option<int>) {
    match c
    case KMalloc(_) => alloc == None
    case KMFree(_) => alloc == None
    case Send(_, _, _) => alloc == None
    case Recv(b, _, _) => b < MSGBOX_ID_NUM && k.boxes[b].receiver.Some?
    case _ => false
  }

  lemma ReadyMeansUp(k: State, t: Tid)
    requires Core(k) && Ready(k, t)
    ensures Schedule(k).Up?
  {
    assert t in k.queues[k.tcbs[t].priority];
  }

  lemma UpMeansReady(k: State) returns (t: Tid)
    requires Core(k) && Schedule(k).Up?
    ensures Ready(k, t)
  {
    var p := FirstNonEmpty(k.queues, 0);
    t := k.queues[p][0];
    assert t in k.queues[p];
  }

  /** The calls that drop their caller change the ready flag of no thread. */
  lemma DropChangesNoFlag(k: State, c: Call, alloc: Option<int>, t: Tid)
    requires Core(k) && Caller(k, c) && CallOk(k, c) && CallFunctions(k, c, alloc).Up? && !StaysReady(k, c)
    ensures Ready(CallFunctions(k, c, alloc).value.0, t) == Ready(k, t)
  {
  }

  /**
   A system call brings the system down iff it is a second receive on a box, an allocation that
   fails, or a call that drops its caller while no other thread is ready.
   */
  lemma TrapDownIff(k: State, e: Entry)
    requires Inv(k) && EntryLegal(k, e) && e.Trap?
    ensures Next(k, e).Down? <==>
              CallDown(k, e.call, e.alloc) ||
              (!StaysReady(k, e.call) && forall t: Tid :: Some(t) != k.current ==> !Ready(k, t))
  {
    hide Next, Inv, Core, CallFunctions, TrapCall;
    TrapEntry(k, e);
    var k1, t := GetCurrent(Entered(k, e)), k.current.value;
    CallCore(k1, e.call, e.alloc);
    var r := TrapCall(k, e);
    CallDownIff(k1, e.call, e.alloc);
    if r.Down? {
      TrapIsSchedule(k, e, k);
    } else {
      var k2 := if StoresRet(e.call) then SetRet(r.value.0, t, r.value.1) else r.value.0;
      SetRetCore(r.value.0, t, r.value.1);
      SameFree(k, k1);
      CalledDown(k1, e.call, e.alloc, k2);
      OthersReady(k, k1);
      TrapIsSchedule(k, e, k2);
    }
  }

  lemma CallDownIff(k: State, c: Call, alloc: Option<int>)
    requires CallOk(k, c)
    ensures CallFunctions(k, c, alloc).Down? <==> CallDown(k, c, alloc)
  {
  }

  /** After its call is handled and its return value stored, a trap ends in `schedule`. */
  lemma TrapIsSchedule(k: State, e: Entry, r: State)
    requires Inv(k) && EntryLegal(k, e) && e.Trap?
    requires TrapCall(k, e).Up? ==>
               var k1 := TrapCall(k, e).value;
               r == if StoresRet(e.call) then SetRet(k1.0, k.current.value, k1.1) else k1.0
    ensures Next(k, e) == if TrapCall(k, e).Up? then Schedule(r) else Down
  {
    StepInv(k, e);
  }

  lemma OthersReady(k: State, k1: State)
    requires k.current.Some? && forall t: Tid :: Ready(k1, t) == (Ready(k, t) && Some(t) != k.current)
    ensures (forall t: Tid :: !Ready(k1, t)) <==> (forall t: Tid :: Some(t) != k.current ==> !Ready(k, t))
  {
    if forall t: Tid :: !Ready(k1, t) {
      forall t: Tid | Some(t) != k.current
        ensures !Ready(k, t)
      {
        assert !Ready(k1, t);
      }
    }
  }

  /** The same for a caller `k.current` that is off its queue, once its call has been handled. */
  lemma CalledDown(k: State, c: Call, alloc: Option<int>, r: State)
    requires Core(k) && Caller(k, c) && CallLegal(k, c, alloc) && CallOk(k, c) && CallFunctions(k, c, alloc).Up? && Core(r)
    requires forall u: Tid :: r.tcbs[u].ready == CallFunctions(k, c, alloc).value.0.tcbs[u].ready
    ensures Schedule(r).Down? <==> !StaysReady(k, c) && forall t: Tid :: !Ready(k, t)
  {
    CallerBack(k, c, alloc);
    if StaysReady(k, c) {
      ReadyMeansUp(r, k.current.value);
    } else {
      forall u: Tid | true
        ensures r.tcbs[u].ready == k.tcbs[u].ready
      {
        DropChangesNoFlag(k, c, alloc, u);
      }
      forall t: Tid | Ready(k, t)
        ensures Schedule(r).Up?
      {
        ReadyMeansUp(r, t);
      }
      if Schedule(r).Up? {
        var t := UpMeansReady(r);
        assert Ready(k, t);
      }
    }
  }

  /** A soft error brings the system down iff no thread but the running one is ready. */
  lemma SoftErrDownIff(k: State, e: Entry)
    requires Inv(k) && EntryLegal(k, e) && e.Interrupt? && e.kind == SOFTVEC_TYPE_SOFTERR
    ensures Next(k, e).Down? <==> forall t: Tid :: Some(t) != k.current ==> !Ready(k, t)
  {
    StepInv(k, e);
    RunningThread(k);
    EnteredCore(k, e);
    var r := SoftErr(Entered(k, e));
    SoftErrCore(Entered(k, e));
    forall t: Tid | Some(t) != k.current && Ready(k, t)
      ensures Schedule(r).Up?
    {
      ReadyMeansUp(r, t);
    }
    if Schedule(r).Up? {
      var t := UpMeansReady(r);
      assert Some(t) != k.current && Ready(k, t);
    }
  }

  /** A service call that the allocator answers with a system down. */
  predicate AllocFails(s: SrvCall) {
    s.alloc == None && (s.call.Send? || s.call.KMalloc? || s.call.KMFree?)
  }

  lemma SrvCallsDownIff(k: State, calls: seq<SrvCall>)
    requires Core(k) && SrvLegal(k, calls) && SrvOk(k, calls)
    ensures SrvCalls(k, calls).Down? <==> exists i :: 0 <= i < |calls| && AllocFails(calls[i])
    decreases |calls|
  {
    hide Core;
    if calls != [] {
      var s, k1 := calls[0], k.(current := None);
      RecurrentCore(k, None);
      SameReceivers(k, k1);
      CallCore(k1, s.call, s.alloc);
      OneDownIff(k1, s);
      if SrvcallProc(k, s.call, s.alloc).Up? {
        SrvCallsDownIff(SrvcallProc(k, s.call, s.alloc).value.0, calls[1..]);
        Shifted(calls);
      }
    }
  }

  lemma OneDownIff(k: State, s: SrvCall)
    requires SrvKind(s.call) && CallOk(k, s.call)
    ensures CallFunctions(k, s.call, s.alloc).Down? <==> AllocFails(s)
  {
  }

  lemma Shifted(calls: seq<SrvCall>)
    requires calls != [] && !AllocFails(calls[0])
    ensures (exists i :: 0 <= i < |calls[1..]| && AllocFails(calls[1..][i])) <==> exists i :: 0 <= i < |calls| && AllocFails(calls[i])
  {
    if i :| 0 <= i < |calls| && AllocFails(calls[i]) {
      assert calls[1..][i - 1] == calls[i];
    }
  }

  /** Any other interrupt brings the system down iff a service call of its handler fails to allocate. */
  lemma InterruptDownIff(k: State, e: Entry)
    requires Inv(k) && EntryLegal(k, e) && !TakesCurrent(e)
    ensures Next(k, e).Down? <==> k.handlers[e.kind].User? && exists i :: 0 <= i < |e.calls| && AllocFails(e.calls[i])
  {
    StepInv(k, e);
    RunningThread(k);
    EnteredCore(k, e);
    var k1 := Entered(k, e);
    var p := k.tcbs[k.current.value].priority;
    if k.handlers[e.kind].User? {
      EntryCore(k, e);
      SrvCallsDownIff(k1, e.calls);
      SrvCallsGrow(k1, e.calls);
      assert SrvCalls(k1, e.calls).Up? ==> k.queues[p] <= SrvCalls(k1, e.calls).value.queues[p];
    }
  }

  // ---------------------------------------------------------------- what wakeup needs

  /**
   `thread_wakeup` enqueues any id it is given.  The kernel stays consistent iff the target is a live
   thread that is not the receiver of a mailbox.
   */
  lemma WakeupIff(k: State, id: Tid)
    requires Core(k) && CurrentFree(k)
    ensures Core(ThreadWakeup(k, id).0) <==> Live(k, id) && !IsReceiver(k, id)
  {
    var r := ThreadWakeup(k, id).0;
    PutBothReady(k, id, id);
    PutLive(k, id);
    PutLive(PutCurrent(k).(current := Some(id)), id);
    SameReceivers(k, r);
    if Live(k, id) && !IsReceiver(k, id) {
      PutBothCore(k, id);
    } else if !Live(k, id) {
      assert r.tcbs[id].func == 0 && r.tcbs[id].ready;
      assert !FreeOk(r);
    } else {
      var b: BoxId :| Waits(k, id, b);
      assert Waits(r, id, b) && !Blocked(r, id, b);
    }
  }
}
