/**
 What each entry does, spelled out: the whole state behind a system call, a service call or another
 interrupt, in terms of the state before it.  Only `current` is left to the scheduler, which takes the
 first thread of the lowest-numbered non-empty queue (`KernelScheduling.RunningIsUrgent`).
 */
module KernelEffects {
  import opened Prelude
  import opened KernelSpec
  import opened KernelInvariant
  import opened KernelScheduling
  import opened KernelLifecycle

  /** The caller's TCB with `v` returned in its block, on a queue iff `ready`. */
  function Returned(k: State, e: Entry, ready: bool, v: Ret): (tcb: Tcb)
    requires k.current.Some? && e.Trap?
  {
    k.tcbs[k.current.value].(ready := ready, call := Some(e.call), sp := e.sp, param := Some(e.blk.(ret := v)))
  }

  // ---------------------------------------------------------------- the frame of every system call

  /** The state in which a call is handled: the caller is off the front of its queue. */
  lemma Handled(k: State, e: Entry)
    requires Inv(k) && EntryLegal(k, e) && e.Trap?
    ensures k.current.Some?
    ensures var t := k.current.value;
            var p := k.tcbs[t].priority;
            k.queues[p] != [] && k.queues[p][0] == t && k.tcbs[t].ready && k.tcbs[t].func != 0
            && GetCurrent(Entered(k, e))
            == k.(tcbs := k.tcbs[t := k.tcbs[t].(ready := false, call := Some(e.call), sp := e.sp,
                                                 param := if e.call.Exit? then None else Some(e.blk))],
                  queues := k.queues[p := k.queues[p][1..]])
  {
    RunningThread(k);
    hide Inv, Core;
    TrapEntry(k, e);
    var t, k1 := k.current.value, GetCurrent(Entered(k, e));
    assert k1.tcbs == k.tcbs[t := k1.tcbs[t]];
  }

  /** What the handler of the call makes of that state, and the return value it stores. */
  lemma Behind(k: State, e: Entry)
    requires Inv(k) && EntryLegal(k, e) && e.Trap? && Next(k, e).Up?
    ensures var k1 := GetCurrent(Entered(k, e));
            CallOk(k1, e.call) && CallFunctions(k1, e.call, e.alloc).Up? &&
            var (k2, v) := CallFunctions(k1, e.call, e.alloc).value;
            Next(k, e).value == (if StoresRet(e.call) then SetRet(k2, k.current.value, v) else k2).(current := Next(k, e).value.current)
  {
    RunningThread(k);
    hide Inv, Core, CallFunctions;
    TrapEntry(k, e);
    TrapStep(k, e);
    var (k2, v) := CallFunctions(GetCurrent(Entered(k, e)), e.call, e.alloc).value;
    TrapIsSchedule(k, e, if StoresRet(e.call) then SetRet(k2, k.current.value, v) else k2);
  }

  /** Calls that put their caller back and do nothing else but return a value. */
  predicate Plain(c: Call) {
    c.Wait? || c.GetId? || c.KMalloc? || c.KMFree?
  }

  /**
   wait, getid, kmalloc and kmfree: the caller goes from the front of its queue to the back, and finds 0,
   its own id, the address that the allocator gave, or 0.
   */
  lemma PlainEffect(k: State, e: Entry)
    requires Inv(k) && EntryLegal(k, e) && e.Trap? && Plain(e.call) && Next(k, e).Up?
    ensures var t := k.current.value;
            var p := k.tcbs[t].priority;
            var v := if e.call.GetId? then Thread(t) else if e.call.KMalloc? && e.alloc.Some? then Num(e.alloc.value) else Num(0);
            (e.call.KMalloc? ==> e.alloc.Some?)
            && Next(k, e).value == k.(tcbs := k.tcbs[t := Returned(k, e, true, v)],
                                      queues := k.queues[p := k.queues[p][1..] + [t]],
                                      current := Next(k, e).value.current)
  {
    hide Inv, Next;
    Handled(k, e);
    Behind(k, e);
  }

  /** sleep: the caller leaves its queue, and is to find 0. */
  lemma SleepEffect(k: State, e: Entry)
    requires Inv(k) && EntryLegal(k, e) && e.Trap? && e.call.Sleep? && Next(k, e).Up?
    ensures var t := k.current.value;
            var p := k.tcbs[t].priority;
            Next(k, e).value == k.(tcbs := k.tcbs[t := Returned(k, e, false, Num(0))],
                                   queues := k.queues[p := k.queues[p][1..]],
                                   current := Next(k, e).value.current)
  {
    hide Inv, Next;
    Handled(k, e);
    Behind(k, e);
  }

  /** A call of unknown type: the caller leaves its queue, and its block is as it passed it. */
  lemma UnknownEffect(k: State, e: Entry)
    requires Inv(k) && EntryLegal(k, e) && e.Trap? && e.call.Unknown? && Next(k, e).Up?
    ensures var t := k.current.value;
            var p := k.tcbs[t].priority;
            Next(k, e).value == k.(tcbs := k.tcbs[t := Returned(k, e, false, e.blk.ret)],
                                   queues := k.queues[p := k.queues[p][1..]],
                                   current := Next(k, e).value.current)
  {
    hide Inv, Next;
    Handled(k, e);
    Behind(k, e);
  }

  /** exit: the caller leaves its queue and its TCB is all zero. */
  lemma ExitEffect(k: State, e: Entry)
    requires Inv(k) && EntryLegal(k, e) && e.Trap? && e.call.Exit? && Next(k, e).Up?
    ensures var t := k.current.value;
            var p := k.tcbs[t].priority;
            Next(k, e).value == k.(tcbs := k.tcbs[t := Tcb(0, false, 0, 0, 0, 0, 0, None, None, 0)],
                                   queues := k.queues[p := k.queues[p][1..]],
                                   current := Next(k, e).value.current)
  {
    hide Inv, Next;
    Handled(k, e);
    Behind(k, e);
  }

  /**
   chpri: the caller has the new priority, the old one if the argument is negative, stands at the back of
   the queue of that priority, and finds the old priority.
   */
  lemma ChPriEffect(k: State, e: Entry)
    requires Inv(k) && EntryLegal(k, e) && e.Trap? && e.call.ChPri? && Next(k, e).Up?
    ensures var t := k.current.value;
            var p := k.tcbs[t].priority;
            var n: Pri := if e.call.newPriority >= 0 then e.call.newPriority else p;
            var q := k.queues[p := k.queues[p][1..]];
            Next(k, e).value == k.(tcbs := k.tcbs[t := Returned(k, e, true, Num(p)).(priority := n)],
                                   queues := q[n := q[n] + [t]],
                                   current := Next(k, e).value.current)
  {
    hide Inv, Next;
    Handled(k, e);
    Behind(k, e);
  }

  /**
   wakeup: first the caller and then the thread woken go to the back of their queues; a thread that is
   ready already stays where it is.
   */
  lemma WakeupEffect(k: State, e: Entry)
    requires Inv(k) && EntryLegal(k, e) && e.Trap? && e.call.Wakeup? && Next(k, e).Up?
    ensures var t, id := k.current.value, e.call.id;
            var p, w := k.tcbs[t].priority, k.tcbs[id];
            var q := k.queues[p := k.queues[p][1..] + [t]];
            var tcbs := k.tcbs[t := Returned(k, e, true, Num(0))];
            Next(k, e).value == k.(tcbs := tcbs[id := tcbs[id].(ready := true)],
                                   queues := if w.ready then q else q[w.priority := q[w.priority] + [id]],
                                   current := Next(k, e).value.current)
  {
    hide Inv, Next;
    Handled(k, e);
    Behind(k, e);
    var t := k.current.value;
    assert k.tcbs[t].ready;
  }

  /** setintr: the vector, and no other, has the handler given, or none for a null pointer. */
  lemma SetIntrEffect(k: State, e: Entry)
    requires Inv(k) && EntryLegal(k, e) && e.Trap? && e.call.SetIntr? && Next(k, e).Up?
    ensures var t := k.current.value;
            var p := k.tcbs[t].priority;
            Next(k, e).value == k.(tcbs := k.tcbs[t := Returned(k, e, true, Num(0))],
                                   queues := k.queues[p := k.queues[p][1..] + [t]],
                                   handlers := k.handlers[e.call.kind := if e.call.handler == 0 then NoHandler else User(e.call.handler)],
                                   current := Next(k, e).value.current)
  {
    hide Inv, Next;
    Handled(k, e);
    Behind(k, e);
  }

  // ---------------------------------------------------------------- threads

  /** TCB `i` is the first free one. */
  ghost predicate FirstOfFree(k: State, i: nat) {
    i < THREAD_NUM && k.tcbs[i].func == 0 && forall j: Tid :: j < i ==> k.tcbs[j].func != 0
  }

  lemma FreeIs(k: State, i: nat)
    requires FirstOfFree(k, i)
    ensures FirstFree(k.tcbs, 0) == i
  {
    var f := FirstFree(k.tcbs, 0);
  }

  /**
   run with a free TCB: the first free one has the function, the arguments and the priority of the call, a
   stack of the size asked for above all others, and the frame at its top; first the caller and then the
   new thread go to the back of their queues; the caller finds the new thread's id.
   */
  lemma RunEffect(k: State, e: Entry, i: Tid)
    requires Inv(k) && EntryLegal(k, e) && e.Trap? && e.call.Run? && Next(k, e).Up? && FirstOfFree(k, i)
    ensures var t, c := k.current.value, e.call;
            var p := k.tcbs[t].priority;
            var n: Pri := c.priority;
            var top := k.stackTop + c.stacksize;
            var q := k.queues[p := k.queues[p][1..] + [t]];
            Next(k, e).value
            == k.(tcbs := k.tcbs[t := Returned(k, e, true, Thread(i))]
                                [i := Tcb(n, true, k.stackTop, top, c.func, c.argc, c.argv, None, None, top - 36)],
                  queues := q[n := q[n] + [i]],
                  stackTop := top,
                  current := Next(k, e).value.current)
  {
    hide Inv, Next;
    Handled(k, e);
    Behind(k, e);
    FreeIs(k, i);
    SameFree(k, GetCurrent(Entered(k, e)));
  }

  /** run with a full table: the caller leaves its queue and is to find -1. */
  lemma RunFullEffect(k: State, e: Entry)
    requires Inv(k) && EntryLegal(k, e) && e.Trap? && e.call.Run? && Next(k, e).Up?
    requires forall i: Tid :: k.tcbs[i].func != 0
    ensures var t := k.current.value;
            var p := k.tcbs[t].priority;
            Next(k, e).value == k.(tcbs := k.tcbs[t := Returned(k, e, false, Num(-1))],
                                   queues := k.queues[p := k.queues[p][1..]],
                                   current := Next(k, e).value.current)
  {
    hide Inv, Next;
    Handled(k, e);
    Behind(k, e);
    SameFree(k, GetCurrent(Entered(k, e)));
    NoneFree(k);
  }

  lemma NoneFree(k: State)
    requires forall i: Tid :: k.tcbs[i].func != 0
    ensures FirstFree(k.tcbs, 0) == THREAD_NUM
  {
    var f := FirstFree(k.tcbs, 0);
  }

  /** `kz_start`: one thread, as `kz_run` makes it, in cleared tables with the two handlers of the kernel. */
  lemma BootEffect(stackTop: int, c: Call)
    requires c.Run? && c.func != 0 && 0 <= c.priority < PRIORITY_NUM && INITIAL_FRAME <= c.stacksize
    ensures var k, top := Boot(stackTop, c), stackTop + c.stacksize;
            k.current == Some(0) && k.stackTop == top && k.heap == {} && k.log == []
            && k.tcbs[0] == Tcb(c.priority, true, stackTop, top, c.func, c.argc, c.argv, None, None, top - 36)
            && (forall t: Tid :: t != 0 ==> k.tcbs[t] == Tcb(0, false, 0, 0, 0, 0, 0, None, None, 0))
            && (forall p: Pri :: k.queues[p] == if p == c.priority then [0] else [])
            && (forall b: BoxId :: k.boxes[b] == Box(None, []))
            && k.handlers == [SoftErrIntr, SyscallIntr, NoHandler, NoHandler, NoHandler, NoHandler]
  {
    var k1 := ThreadSetIntr(Cleared(stackTop), SOFTVEC_TYPE_SYSCALL, SyscallIntr).0;
    var k2 := ThreadSetIntr(k1, SOFTVEC_TYPE_SOFTERR, SoftErrIntr).0;
    assert FirstFree(k2.tcbs, 0) == 0;
  }

  // ---------------------------------------------------------------- mail

  /** The block of a receive `c` once it has message `m` of sender `s`. */
  function Received(c: Call, blk: Block, s: Ret, m: Msg): (r: Block)
    requires c.Recv?
  {
    blk.(ret := s, size := if c.sizep.Some? then m.size else blk.size, p := if c.pp.Some? then m.p else blk.p)
  }

  /** Thread `t` has sent to box `b`: the message is the last of the box, and the caller finds its size. */
  ghost predicate MessageQueued(k: State, e: Entry, t: Tid, b: BoxId, r: State)
    requires e.Trap? && e.call.Send? && k.current == Some(t)
  {
    e.alloc.Some? &&
    var p, m := k.tcbs[t].priority, Msg(e.alloc.value, Some(t), e.call.size, e.call.p);
    k.queues[p] != []
    && r == k.(tcbs := k.tcbs[t := Returned(k, e, true, Num(e.call.size))],
               queues := k.queues[p := k.queues[p][1..] + [t]],
               boxes := k.boxes[b := Box(None, k.boxes[b].msgs + [m])],
               heap := k.heap + {m.addr},
               log := k.log + [Sent(b, m)],
               current := r.current)
  }

  /** send to a box without a receiver. */
  lemma SendEffect(k: State, e: Entry, t: Tid, b: BoxId)
    requires Inv(k) && EntryLegal(k, e) && e.Trap? && e.call.Send? && Next(k, e).Up?
    requires k.current == Some(t) && e.call.to == b && k.boxes[b].receiver == None
    ensures MessageQueued(k, e, t, b, Next(k, e).value)
  {
    hide Inv, Next;
    Handled(k, e);
    Behind(k, e);
  }

  /** A thread registered at a box. */
  lemma Receiver(k: State, b: BoxId, w: Tid)
    requires Inv(k) && Waits(k, w, b)
    ensures k.boxes[b].msgs == [] && !k.tcbs[w].ready && k.tcbs[w].param.Some? && k.current.Some? && k.current != Some(w)
    ensures k.tcbs[w].call.Some? && k.tcbs[w].call.value.Recv?
  {
    RunningThread(k);
    assert Blocked(k, w, b) && IsReceiver(k, w);
  }

  /**
   Thread `t` has sent to box `b`, where `w` waited: the box is empty and has no receiver, the message is in
   the block of the receiver, which goes to the back of its queue behind the caller, and its buffer is free.
   */
  ghost predicate HandedOver(k: State, e: Entry, t: Tid, b: BoxId, w: Tid, r: State)
    requires e.Trap? && e.call.Send? && k.current == Some(t)
  {
    var u, p := k.tcbs[w], k.tcbs[t].priority;
    e.alloc.Some? && k.queues[p] != [] && u.param.Some? && u.call.Some? && u.call.value.Recv? &&
    var m := Msg(e.alloc.value, Some(t), e.call.size, e.call.p);
    var q := k.queues[p := k.queues[p][1..] + [t]];
    r == k.(tcbs := k.tcbs[t := Returned(k, e, true, Num(e.call.size))]
                          [w := u.(ready := true, param := Some(Received(u.call.value, u.param.value, Thread(t), m)))],
            queues := q[u.priority := q[u.priority] + [w]],
            boxes := k.boxes[b := Box(None, [])],
            log := k.log + [Sent(b, m)] + [Delivered(b, w, m)],
            current := r.current)
  }

  /** send to a box with a receiver. */
  lemma SendHandsOver(k: State, e: Entry, t: Tid, b: BoxId, w: Tid)
    requires Inv(k) && EntryLegal(k, e) && e.Trap? && e.call.Send? && Next(k, e).Up?
    requires k.current == Some(t) && e.call.to == b && Waits(k, w, b)
    ensures HandedOver(k, e, t, b, w, Next(k, e).value)
  {
    Receiver(k, b, w);
    hide Inv, Next;
    Handled(k, e);
    Behind(k, e);
    assert k.heap + {e.alloc.value} - {e.alloc.value} == k.heap;
  }

  /** recv from an empty box: the caller is its receiver, off its queue, and its block says -1. */
  lemma RecvWaits(k: State, e: Entry)
    requires Inv(k) && EntryLegal(k, e) && e.Trap? && e.call.Recv? && Next(k, e).Up? && k.boxes[e.call.from].msgs == []
    ensures var t, b := k.current.value, e.call.from;
            var p := k.tcbs[t].priority;
            k.boxes[b].receiver == None
            && Next(k, e).value == k.(tcbs := k.tcbs[t := Returned(k, e, false, Num(-1))],
                                      queues := k.queues[p := k.queues[p][1..]],
                                      boxes := k.boxes[b := Box(Some(t), [])],
                                      current := Next(k, e).value.current)
  {
    hide Inv, Next;
    Handled(k, e);
    Behind(k, e);
  }

  /** recv from a box with mail: the caller has the oldest message, whose buffer is free, and the box the others. */
  lemma RecvTakes(k: State, e: Entry)
    requires Inv(k) && EntryLegal(k, e) && e.Trap? && e.call.Recv? && Next(k, e).Up? && k.boxes[e.call.from].msgs != []
    ensures var t, b := k.current.value, e.call.from;
            var p, m := k.tcbs[t].priority, k.boxes[b].msgs[0];
            var s := if m.sender.Some? then Thread(m.sender.value) else Num(0);
            k.boxes[b].receiver == None
            && Next(k, e).value
            == k.(tcbs := k.tcbs[t := Returned(k, e, true, s).(param := Some(Received(e.call, e.blk, s, m)))],
                  queues := k.queues[p := k.queues[p][1..] + [t]],
                  boxes := k.boxes[b := Box(None, k.boxes[b].msgs[1..])],
                  heap := k.heap - {m.addr},
                  log := k.log + [Delivered(b, t, m)],
                  current := Next(k, e).value.current)
  {
    hide Inv, Next;
    Handled(k, e);
    Behind(k, e);
  }

  // ---------------------------------------------------------------- service calls

  /** Nobody is put back by a service call, and a send has no sender. */
  ghost predicate SrvEffect(k: State, s: SrvCall, r: State, v: Ret) {
    match s.call
    case Wait => r == k.(current := None) && v == Num(0)
    case Sleep => r == k.(current := None) && v == Num(0)
    case GetId => r == k.(current := None) && v == Num(0)
    case Unknown => r == k.(current := None) && v == Unset
    case KMalloc(_) => r == k.(current := None) && s.alloc == Some(if v.Num? then v.n else 0) && v.Num?
    case KMFree(_) => r == k.(current := None) && v == Num(0) && s.alloc.Some?
    case SetIntr(kind, h) =>
      kind < SOFTVEC_TYPE_NUM && v == Num(0)
      && r == k.(current := None, handlers := k.handlers[kind := if h == 0 then NoHandler else User(h)])
    case Wakeup(id) => id < THREAD_NUM && v == Num(0) && SrvWoken(k, id, r)
    case Run(_, _, _, _, _) =>
      if exists i :: FirstOfFree(k, i) then v.Thread? && FirstOfFree(k, v.t) && SrvStarted(k, s.call, v.t, r)
      else r == k.(current := None) && v == Num(-1)
    case Send(b, size, p) =>
      b < MSGBOX_ID_NUM && s.alloc.Some? && v == Num(size) && SrvSent(k, b, Msg(s.alloc.value, None, size, p), r)
    case _ => false
  }

  /** The thread woken goes to the back of its queue, unless it is ready already. */
  ghost predicate SrvWoken(k: State, id: Tid, r: State) {
    var w := k.tcbs[id];
    r == k.(current := Some(id), tcbs := k.tcbs[id := w.(ready := true)],
            queues := if w.ready then k.queues else k.queues[w.priority := k.queues[w.priority] + [id]])
  }

  /** The new thread alone goes to the back of its queue. */
  ghost predicate SrvStarted(k: State, c: Call, i: Tid, r: State)
    requires c.Run?
  {
    0 <= c.priority < PRIORITY_NUM &&
    var n: Pri := c.priority;
    var top := k.stackTop + c.stacksize;
    r == k.(current := Some(i), stackTop := top, queues := k.queues[n := k.queues[n] + [i]],
            tcbs := k.tcbs[i := Tcb(n, true, k.stackTop, top, c.func, c.argc, c.argv, None, None, top - 36)])
  }

  /** The message is the last of its box, or handed over to a receiver. */
  ghost predicate SrvSent(k: State, b: BoxId, m: Msg, r: State) {
    match k.boxes[b].receiver
    case None =>
      r == k.(current := None, boxes := k.boxes[b := Box(None, k.boxes[b].msgs + [m])], heap := k.heap + {m.addr},
              log := k.log + [Sent(b, m)])
    case Some(w) => SrvHandedOver(k, b, w, m, r)
  }

  /** The receiver has the message, from nobody, and goes to the back of its queue. */
  ghost predicate SrvHandedOver(k: State, b: BoxId, w: Tid, m: Msg, r: State) {
    var u := k.tcbs[w];
    u.param.Some? && u.call.Some? && u.call.value.Recv?
    && r == k.(current := Some(w),
               tcbs := k.tcbs[w := u.(ready := true, param := Some(Received(u.call.value, u.param.value, Num(0), m)))],
               queues := k.queues[u.priority := k.queues[u.priority] + [w]],
               boxes := k.boxes[b := Box(None, [])],
               log := k.log + [Sent(b, m)] + [Delivered(b, w, m)])
  }

  lemma SrvSend(k: State, s: SrvCall)
    requires Core(k) && s.call.Send? && CallLegal(k, s.call, s.alloc) && s.alloc.Some?
    ensures SrvcallProc(k, s.call, s.alloc).Up?
    ensures SrvEffect(k, s, SrvcallProc(k, s.call, s.alloc).value.0, SrvcallProc(k, s.call, s.alloc).value.1)
  {
    var b := s.call.to;
    if k.boxes[b].receiver.Some? {
      var w := k.boxes[b].receiver.value;
      assert Waits(k, w, b) && Blocked(k, w, b) && k.boxes[b].msgs == [];
      hide Core, CallLegal;
      assert k.heap + {s.alloc.value} - {s.alloc.value} == k.heap;
      var m, u, r := Msg(s.alloc.value, None, s.call.size, s.call.p), k.tcbs[w], SrvcallProc(k, s.call, s.alloc).value.0;
      assert (k.boxes[b].msgs + [m])[1..] == [];
      assert r.boxes[b] == Box(None, []);
      assert r.tcbs[w] == u.(ready := true, param := Some(Received(u.call.value, u.param.value, Num(0), m)));
      assert r.tcbs == k.tcbs[w := r.tcbs[w]];
      assert r.queues == k.queues[u.priority := k.queues[u.priority] + [w]];
      assert r.log == k.log + [Sent(b, m)] + [Delivered(b, w, m)];
      assert SrvHandedOver(k, b, w, m, r);
    }
  }

  lemma SrvRun(k: State, s: SrvCall)
    requires s.call.Run? && CallLegal(k, s.call, s.alloc)
    ensures SrvcallProc(k, s.call, s.alloc).Up?
    ensures SrvEffect(k, s, SrvcallProc(k, s.call, s.alloc).value.0, SrvcallProc(k, s.call, s.alloc).value.1)
  {
    var i := FirstFree(k.tcbs, 0);
    if i < THREAD_NUM {
      assert FirstOfFree(k, i);
    }
  }

  /** Every service call has that effect. */
  lemma SrvCallEffect(k: State, s: SrvCall)
    requires Core(k) && SrvKind(s.call) && CallLegal(k, s.call, s.alloc)
    requires CallOk(k.(current := None), s.call) && SrvcallProc(k, s.call, s.alloc).Up?
    ensures SrvEffect(k, s, SrvcallProc(k, s.call, s.alloc).value.0, SrvcallProc(k, s.call, s.alloc).value.1)
  {
    match s.call {
      case Send(_, _, _) => SrvSend(k, s);
      case Run(_, _, _, _, _) => SrvRun(k, s);
      case _ =>
    }
  }

  /** `ks` are the states between the service calls of a handler, `vs` what they return. */
  ghost predicate SrvSteps(ks: seq<State>, vs: seq<Ret>, calls: seq<SrvCall>) {
    |ks| == |calls| + 1 && |vs| == |calls| && forall i :: 0 <= i < |calls| ==> SrvEffect(ks[i], calls[i], ks[i + 1], vs[i])
  }

  lemma SrvCallsEffect(k: State, calls: seq<SrvCall>) returns (ks: seq<State>, vs: seq<Ret>)
    requires Core(k) && SrvLegal(k, calls) && SrvOk(k, calls) && SrvCalls(k, calls).Up?
    ensures SrvSteps(ks, vs, calls) && ks[0] == k && ks[|calls|] == SrvCalls(k, calls).value
    decreases |calls|
  {
    hide Core, SrvEffect, CallFunctions;
    ks, vs := [k], [];
    if calls != [] {
      var (r, v) := SrvcallProc(k, calls[0].call, calls[0].alloc).value;
      SrvCallEffect(k, calls[0]);
      SrvCallKeeps(k, calls[0]);
      var rest, ws := SrvCallsEffect(r, calls[1..]);
      ks, vs := [k] + rest, [v] + ws;
      forall i | 0 <= i < |calls|
        ensures SrvEffect(ks[i], calls[i], ks[i + 1], vs[i])
      {
        if i > 0 {
          var j := i - 1;
          assert SrvEffect(rest[j], calls[1..][j], rest[j + 1], ws[j]);
        }
      }
    }
  }

  lemma SrvCallKeeps(k: State, s: SrvCall)
    requires Core(k) && SrvKind(s.call) && CallLegal(k, s.call, s.alloc)
    requires CallOk(k.(current := None), s.call) && SrvcallProc(k, s.call, s.alloc).Up?
    ensures Core(SrvcallProc(k, s.call, s.alloc).value.0)
  {
    hide Core;
    RecurrentCore(k, None);
    SameReceivers(k, k.(current := None));
    CallCore(k.(current := None), s.call, s.alloc);
  }

  // ---------------------------------------------------------------- other interrupts

  /** A soft error: the running thread leaves its queue and its TCB is all zero. */
  lemma SoftErrEffect(k: State, e: Entry)
    requires Inv(k) && EntryLegal(k, e) && e.Interrupt? && e.kind == SOFTVEC_TYPE_SOFTERR && Next(k, e).Up?
    ensures k.current.Some?
    ensures var t := k.current.value;
            var p := k.tcbs[t].priority;
            Next(k, e).value == k.(tcbs := k.tcbs[t := Tcb(0, false, 0, 0, 0, 0, 0, None, None, 0)],
                                   queues := k.queues[p := k.queues[p][1..]],
                                   current := Next(k, e).value.current)
  {
    RunningThread(k);
    GetCurrentPopsHead(k, Entered(k, e));
    hide Inv, Next, Core;
    InterruptStep(k, e);
    var t := k.current.value;
    assert SoftErr(Entered(k, e)).tcbs == k.tcbs[t := ZERO_TCB];
  }

  /**
   Any other interrupt: the stack pointer of the running thread is saved, and the handler's service calls
   follow one another from there, none if no handler is registered.
   */
  lemma InterruptEffect(k: State, e: Entry) returns (ks: seq<State>, vs: seq<Ret>)
    requires Inv(k) && EntryLegal(k, e) && !TakesCurrent(e) && Next(k, e).Up?
    ensures k.current.Some?
    ensures var t, calls := k.current.value, if k.handlers[e.kind].User? then e.calls else [];
            SrvSteps(ks, vs, calls) && ks[0] == k.(tcbs := k.tcbs[t := k.tcbs[t].(sp := e.sp)])
            && Next(k, e).value == ks[|calls|].(current := Next(k, e).value.current)
  {
    RunningThread(k);
    hide Inv, Next, Core, SrvCalls, SrvEffect;
    InterruptStep(k, e);
    var k1 := Entered(k, e);
    ks, vs := [k1], [];
    if k.handlers[e.kind].User? {
      ks, vs := SrvCallsEffect(k1, e.calls);
    }
  }
}
