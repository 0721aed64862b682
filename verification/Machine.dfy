/**
 The kernel together with the stacks: interrupt entries that push a frame on the stack of the running
 thread, the kernel's stores into parameter blocks and through the pointers of receives, the stacks
 that `thread_run` builds, the dispatch that pops the frame of the thread chosen next, and threads
 that write anywhere but on the stacks of others.
 */
module Machine {
  import opened Prelude
  import opened KernelSpec
  import opened KernelInvariant
  import opened KernelScheduling
  import opened KernelLifecycle
  import opened KernelStacks
  import opened KernelEffects
  import opened KernelDeliveries
  import opened Context
  import opened CallBlocks

  // ---------------------------------------------------------------- the machine

  type Saved = s: seq<Regs> | |s| == 16 witness seq(16, _ => Regs(0, 0, 0, 0, 0, 0, 0, 0, 0, 0))

  /**
   `regs` is what the running thread has in the CPU.  `saved` is history: what each other thread had
   when it last entered the kernel, or what a new thread is to start with.
   */
  datatype Machine = Machine(k: State, mem: Memory, regs: Regs, saved: Saved)

  predicate Created(k: State, r: State, t: Tid) {
    !Live(k, t) && Live(r, t)
  }

  function FirstRegs(l: Layout, r: State, t: Tid): (res: Regs) {
    StartRegs(l.tcbAddr(t), l.threadInit, r.tcbs[t].priority, r.tcbs[t].stack)
  }

  /** The stacks that the kernel built for threads below `n` on the way from `k` to `r`. */
  function BuildNew(l: Layout, k: State, r: State, m: Memory, n: nat): (res: Memory)
    requires n <= THREAD_NUM
  {
    if n == 0 then m
    else
      var m1 := BuildNew(l, k, r, m, n - 1);
      if Created(k, r, n - 1) then PushAll(m1, r.tcbs[n - 1].stack, StackWords(l.threadEnd, FirstRegs(l, r, n - 1))) else m1
  }

  /** The registers that `_dispatch` loads from the frame at `sp`. */
  function Popped(m: Memory, sp: int): (r: Regs) {
    Regs(Load(m, sp), Load(m, sp + 4), Load(m, sp + 8), Load(m, sp + 12), Load(m, sp + 16), Load(m, sp + 20),
         Load(m, sp + 24), sp + FRAME, Load(m, sp + 28) % 0x100_0000, Load(m, sp + 28) / 0x100_0000)
  }

  /** What happened on the way from `k` to `r`. */
  function Since(k: State, r: State): (evs: seq<Event>) {
    if |k.log| <= |r.log| then r.log[|k.log|..] else []
  }

  /** The kernel's stores during an entry: deliveries, the return value of the caller, new stacks. */
  function KernelStores(l: Layout, k: State, r: State, e: Entry, m: Memory): (n: Memory)
    requires k.current.Some?
  {
    var served := Deliveries(l, r.tcbs, Since(k, r), m);
    var returned := if e.Trap? then StoreReturn(l, served, r.tcbs[k.current.value]) else served;
    BuildNew(l, k, r, returned, THREAD_NUM)
  }

  /** The memory with the frame of the running thread pushed. */
  function Interrupted(m: Machine): (n: Memory) {
    PushAll(m.mem, m.regs.sp, FrameWords(m.regs))
  }

  /** From the interrupt of the running thread to the first instruction of the thread chosen next. */
  function Enter(l: Layout, m: Machine, e: Entry): (o: Outcome<Machine>)
    requires Inv(m.k) && EntryLegal(m.k, e)
  {
    match Next(m.k, e)
    case Down => Down
    case Up(r) =>
      var mem := KernelStores(l, m.k, r, e, Interrupted(m));
      var saved := seq(16, t requires 0 <= t < 16 => ResumeRegs(l, m, r, t));
      RunningThread(r);
      Up(Machine(r, mem, Popped(mem, r.tcbs[r.current.value].sp), saved))
  }

  // ---------------------------------------------------------------- what holds of the machine

  ghost predicate FrameInside(tcb: Tcb) {
    tcb.base <= tcb.sp && tcb.sp + FRAME <= tcb.stack
  }

  /** A thread that is not running has its frame on its own stack. */
  ghost predicate Suspended(m: Machine, t: Tid) {
    FrameAt(m.mem, m.k.tcbs[t].sp, m.saved[t]) && FrameInside(m.k.tcbs[t])
  }

  /** The running thread has room for a frame on its own stack. */
  ghost predicate Room(m: Machine, r: Regs) {
    m.k.current.Some? &&
    var tcb := m.k.tcbs[m.k.current.value];
    tcb.base + FRAME <= r.sp <= tcb.stack
  }

  /** `n` bytes at `a` lie on no stack that a live thread has or a later one gets. */
  ghost predicate Outside(k: State, a: int, n: nat) {
    a + n <= k.stackTop && forall u: Tid :: Live(k, u) ==> a + n <= k.tcbs[u].base || k.tcbs[u].stack <= a
  }

  /** A place that a call passes: above the call's own block on the stack of the caller, or on no stack. */
  ghost predicate PlaceClear(k: State, t: Tid, at: int, a: Option<int>, n: nat) {
    a.Some? ==> (at + BLOCK_SIZE <= a.value && a.value + n <= k.tcbs[t].stack) || Outside(k, a.value, n)
  }

  /** The block of a call lies above the frame of its caller, and what it points to clear of all frames. */
  ghost predicate CallClear(k: State, t: Tid) {
    var tcb := k.tcbs[t];
    tcb.param.Some? && tcb.call.Some? &&
    var at, c := tcb.param.value.at, tcb.call.value;
    tcb.sp + FRAME <= at && at + BLOCK_SIZE <= tcb.stack
    && (c.Recv? ==> PlaceClear(k, t, at, c.sizep, 2) && PlaceClear(k, t, at, c.pp, 4)) && PlacesApart(c)
  }

  ghost predicate WaitersClear(k: State) {
    forall t: Tid, b: BoxId :: Waits(k, t, b) ==> CallClear(k, t)
  }

  ghost predicate MachineInv(m: Machine) {
    Inv(m.k) && Placed(m.k) && WaitersClear(m.k) && Room(m, m.regs)
    && forall t: Tid :: Live(m.k, t) && m.k.current != Some(t) ==> Suspended(m, t)
  }

  lemma PoppedFrame(m: Memory, sp: int, r: Regs)
    requires FrameAt(m, sp, r)
    ensures Popped(m, sp) == r
  {
    hide Load, Status;
    StatusParts(r.pc, r.ccr);
  }

  /** What is needed of the stacks of `k` and `r` for the kernel's writes to miss each other. */
  ghost predicate StacksApart(k: State, r: State) {
    && (forall t: Tid :: Created(k, r, t) ==>
          k.stackTop <= r.tcbs[t].base && r.tcbs[t].base + INITIAL_FRAME <= r.tcbs[t].stack)
    && (forall t: Tid, u: Tid :: t != u && Created(k, r, t) && Created(k, r, u) ==>
          r.tcbs[t].stack <= r.tcbs[u].base || r.tcbs[u].stack <= r.tcbs[t].base)
  }

  /** The new stacks lie above everything that was allocated, so building them changes nothing below. */
  lemma BuildNewKeeps(l: Layout, k: State, r: State, m: Memory, n: nat, lo: int, hi: int)
    requires n <= THREAD_NUM && StacksApart(k, r) && hi <= k.stackTop
    ensures SameOn(m, BuildNew(l, k, r, m, n), lo, hi)
  {
    hide FrameAt, PushAll, StackWords;
    if n > 0 {
      BuildNewKeeps(l, k, r, m, n - 1, lo, hi);
      if Created(k, r, n - 1) {
        NewStackFrame(BuildNew(l, k, r, m, n - 1), r.tcbs[n - 1].stack, l.threadEnd, FirstRegs(l, r, n - 1));
      }
    }
  }

  /** Each new thread finds the frame of its start registers. */
  lemma BuildNewFrame(l: Layout, k: State, r: State, m: Memory, n: nat, t: Tid)
    requires n <= THREAD_NUM && StacksApart(k, r) && t < n && Created(k, r, t)
    ensures FrameAt(BuildNew(l, k, r, m, n), r.tcbs[t].stack - 36, FirstRegs(l, r, t))
  {
    hide FrameAt, PushAll, StackWords;
    var m1 := BuildNew(l, k, r, m, n - 1);
    var regs := FirstRegs(l, r, n - 1);
    var stack := r.tcbs[n - 1].stack;
    if t == n - 1 {
      NewStackFrame(m1, stack, l.threadEnd, regs);
    } else {
      BuildNewFrame(l, k, r, m, n - 1, t);
      if Created(k, r, n - 1) {
        NewStackFrame(m1, stack, l.threadEnd, regs);
        FrameSurvives(m1, PushAll(m1, stack, StackWords(l.threadEnd, regs)), stack - 36, stack,
                      r.tcbs[t].stack - 36, FirstRegs(l, r, t));
      }
    }
  }

  lemma StepApart(k: State, e: Entry)
    requires Inv(k) && EntryLegal(k, e) && Next(k, e).Up?
    ensures StacksApart(k, Next(k, e).value)
  {
    var r := Next(k, e).value;
    forall t: Tid | Created(k, r, t)
      ensures k.stackTop <= r.tcbs[t].base && r.tcbs[t].base + INITIAL_FRAME <= r.tcbs[t].stack
    {
      EntryStack(k, e, t);
    }
    assert StacksOk(r);
  }

  // ---------------------------------------------------------------- what the kernel's stores miss

  /**
   An entry of the running thread: legal for the kernel, with the frame just below the stack pointer,
   and for a call with its block above the frame; what the block's value says of `*sizep` and `*pp` is
   what memory holds there.
   */
  ghost predicate EnterLegal(m: Machine, e: Entry) {
    m.k.current.Some? && EntryLegal(m.k, e) && e.sp == m.regs.sp - FRAME
    && (e.Trap? && !e.call.Exit? ==>
          CallClear(Entered(m.k, e), m.k.current.value)
          && PlacesHold(m.mem, e.call, Some(e.blk), m.k.tcbs[m.k.current.value].stack))
  }

  /** The stores for the call of `t` miss what lies on the stack of another thread. */
  lemma ClearMisses(k: State, t: Tid, u: Tid, lo: int, hi: int)
    requires Core(k) && Live(k, t) && Live(k, u) && t != u && CallClear(k, t) && FrameInside(k.tcbs[t])
    requires k.tcbs[u].base <= lo <= hi <= k.tcbs[u].stack
    ensures Misses(k.tcbs[t], lo, hi)
  {
  }

  /** They miss its own frame. */
  lemma ClearMissesFrame(k: State, t: Tid)
    requires Live(k, t) && CallClear(k, t) && FrameInside(k.tcbs[t])
    ensures Misses(k.tcbs[t], k.tcbs[t].sp, k.tcbs[t].sp + FRAME)
  {
  }

  /** The stores through its pointers miss its own block. */
  lemma ClearMissesBlock(k: State, t: Tid)
    requires Live(k, t) && CallClear(k, t) && FrameInside(k.tcbs[t])
    ensures var at := k.tcbs[t].param.value.at; CellsMiss(k.tcbs[t].call.value, at, at + BLOCK_SIZE)
  {
  }

  /** What lies on no stack of `k` lies on none of `r`. */
  lemma ClearKept(k: State, r: State, t: Tid)
    requires CallClear(k, t) && SameStack(k, r, t)
    requires forall u: Tid :: StackStep(k, r, u)
    ensures CallClear(r, t)
  {
    assert StackStep(k, r, t);
    forall a: int, n: nat | Outside(k, a, n)
      ensures Outside(r, a, n)
    {
      OutsideKept(k, r, a, n);
    }
  }

  lemma OutsideKept(k: State, r: State, a: int, n: nat)
    requires Outside(k, a, n) && forall u: Tid :: StackStep(k, r, u)
    ensures Outside(r, a, n)
  {
    assert StackStep(k, r, 0);
    forall u: Tid | Live(r, u)
      ensures a + n <= r.tcbs[u].base || r.tcbs[u].stack <= a
    {
      assert StackStep(k, r, u);
    }
  }

  lemma MissesSame(x: Tcb, y: Tcb, lo: int, hi: int)
    requires Misses(x, lo, hi) && x.call == y.call && PlaceOf(x.param) == PlaceOf(y.param)
    ensures Misses(y, lo, hi)
  {
  }

  /** Thread `t` of the state in which the handler starts, as the handler leaves it. */
  ghost predicate Carried(k1: State, r: State, t: Tid) {
    Live(k1, t) && Live(r, t) && SameStack(k1, r, t)
  }

  lemma CarriedOver(k: State, e: Entry, t: Tid)
    requires Inv(k) && EntryLegal(k, e) && Next(k, e).Up? && Live(k, t) && Live(Next(k, e).value, t)
    ensures Carried(Entered(k, e), Next(k, e).value, t)
  {
    hide Next, Inv;
    EntryStack(k, e, t);
  }

  lemma AllStacks(k: State, e: Entry)
    requires Inv(k) && EntryLegal(k, e) && Next(k, e).Up?
    ensures forall u: Tid :: StackStep(Entered(k, e), Next(k, e).value, u)
  {
    hide Next, Inv;
    forall u: Tid | true
      ensures StackStep(Entered(k, e), Next(k, e).value, u)
    {
      EntryStack(k, e, u);
    }
  }

  /** Saving the stack pointer and the call of the running thread changes no stack and no other call. */
  lemma EnteredClear(k: State, e: Entry, t: Tid)
    requires Inv(k) && EntryLegal(k, e) && Next(k, e).Up? && k.current != Some(t) && CallClear(k, t)
    ensures CallClear(Entered(k, e), t)
  {
  }

  /** Where the frame of `t` is when the handler starts. */
  lemma EnteredFrame(m: Machine, e: Entry, t: Tid)
    requires MachineInv(m) && EnterLegal(m, e) && Live(m.k, t)
    ensures FrameInside(Entered(m.k, e).tcbs[t])
    ensures FrameAt(Interrupted(m), Entered(m.k, e).tcbs[t].sp, if m.k.current == Some(t) then m.regs else m.saved[t])
  {
    hide FrameAt, PushAll, FrameWords;
    PushedFrame(m.mem, m.regs);
    if m.k.current != Some(t) {
      RunningThread(m.k);
      assert Suspended(m, t);
      FrameSurvives(m.mem, Interrupted(m), m.regs.sp - FRAME, m.regs.sp, m.k.tcbs[t].sp, m.saved[t]);
    }
  }

  /** Whoever is delivered to during an entry has its call clear, and lives on. */
  lemma ServedClear(m: Machine, e: Entry, i: nat)
    requires MachineInv(m) && EnterLegal(m, e) && Next(m.k, e).Up?
    requires i < |Since(m.k, Next(m.k, e).value)| && Since(m.k, Next(m.k, e).value)[i].Delivered?
    ensures var t, k1 := Since(m.k, Next(m.k, e).value)[i].to, Entered(m.k, e);
            Carried(k1, Next(m.k, e).value, t) && CallClear(k1, t) && FrameInside(k1.tcbs[t]) && k1.tcbs[t].call.value.Recv?
  {
    hide Next, Inv, CallClear, FrameAt;
    var r := Next(m.k, e).value;
    var ev := Since(m.k, r)[i];
    StepServes(m.k, e);
    RunningThread(m.k);
    if Waits(m.k, ev.to, ev.box) {
      WaiterLives(m.k, e, ev.to, ev.box);
    } else {
      StepLive(m.k, e, ev.to);
    }
    CarriedOver(m.k, e, ev.to);
    EnteredFrame(m, e, ev.to);
  }

  lemma WaiterLives(k: State, e: Entry, t: Tid, b: BoxId)
    requires Inv(k) && EntryLegal(k, e) && Next(k, e).Up? && Waits(k, t, b)
    ensures k.current != Some(t) && Live(k, t) && Live(Next(k, e).value, t)
    ensures k.tcbs[t].call.Some? && k.tcbs[t].call.value.Recv? && Entered(k, e).tcbs[t].call == k.tcbs[t].call
    ensures CallClear(k, t) ==> CallClear(Entered(k, e), t)
  {
    hide CallClear;
    RunningThread(k);
    assert Blocked(k, t, b);
    assert IsReceiver(k, t);
    EntryStack(k, e, t);
    if CallClear(k, t) {
      EnteredClear(k, e, t);
    }
  }

  /** The deliveries of an entry miss whatever the calls of the receivers miss, but for those of `t`. */
  lemma DeliveriesApart(m: Machine, e: Entry, t: Option<Tid>, u: Tid, lo: int, hi: int)
    requires MachineInv(m) && EnterLegal(m, e) && Next(m.k, e).Up? && Live(m.k, u)
    requires Entered(m.k, e).tcbs[u].base <= lo <= hi <= Entered(m.k, e).tcbs[u].stack
    requires t == Some(u) || Misses(Entered(m.k, e).tcbs[u], lo, hi) || !CallClear(Entered(m.k, e), u)
    ensures AllMiss(Next(m.k, e).value.tcbs, Since(m.k, Next(m.k, e).value), t, lo, hi)
  {
    hide Next, Inv, CallClear, Misses, FrameAt, Core;
    var k1, r := Entered(m.k, e), Next(m.k, e).value;
    var evs := Since(m.k, r);
    EnteredCore(m.k, e);
    EntryStack(m.k, e, u);
    forall i | 0 <= i < |evs| && evs[i].Delivered? && Some(evs[i].to) != t
      ensures Misses(r.tcbs[evs[i].to], lo, hi)
    {
      var w := evs[i].to;
      ServedClear(m, e, i);
      if w != u {
        ClearMisses(k1, w, u, lo, hi);
      }
      MissesSame(k1.tcbs[w], r.tcbs[w], lo, hi);
    }
  }

  /** The caller's block misses what lies on the stack of another thread. */
  lemma CallerApart(m: Machine, e: Entry, u: Tid, lo: int, hi: int)
    requires MachineInv(m) && EnterLegal(m, e) && Next(m.k, e).Up? && Live(m.k, u) && e.Trap?
    requires Entered(m.k, e).tcbs[u].base <= lo <= hi <= Entered(m.k, e).tcbs[u].stack
    requires m.k.current != Some(u) || Misses(Entered(m.k, e).tcbs[u], lo, hi)
    ensures var c := Next(m.k, e).value.tcbs[m.k.current.value];
            c.param.Some? ==> Apart(c.param.value.at, BLOCK_SIZE, lo, hi)
  {
    hide Next, Inv, FrameAt, Core;
    var k1, r, t := Entered(m.k, e), Next(m.k, e).value, m.k.current.value;
    EnteredCore(m.k, e);
    RunningThread(m.k);
    EntryStack(m.k, e, u);
    StepLive(m.k, e, t);
    if e.call.Exit? {
      ExitedFree(m.k, e);
    } else {
      CarriedOver(m.k, e, t);
      if t != u {
        EnteredFrame(m, e, t);
        ClearMisses(k1, t, u, lo, hi);
      }
    }
  }

  lemma ExitedFree(k: State, e: Entry)
    requires Inv(k) && EntryLegal(k, e) && Next(k, e).Up? && e.Trap? && e.call.Exit?
    ensures Next(k, e).value.tcbs[k.current.value].param == None
  {
    hide Next;
    StepLive(k, e, k.current.value);
  }

  /** What the kernel stores during an entry misses the frame of every thread. */
  lemma StoresMissFrame(l: Layout, m: Machine, e: Entry, u: Tid)
    requires MachineInv(m) && EnterLegal(m, e) && Next(m.k, e).Up? && Live(m.k, u)
    ensures var sp := Entered(m.k, e).tcbs[u].sp;
            SameOn(Interrupted(m), KernelStores(l, m.k, Next(m.k, e).value, e, Interrupted(m)), sp, sp + FRAME)
  {
    hide Next, Inv, CallClear, Misses, FrameAt, Core, SameOn, Deliveries, StoreReturn, BuildNew, StacksApart;
    var k1, r, m0 := Entered(m.k, e), Next(m.k, e).value, Interrupted(m);
    var lo, hi := k1.tcbs[u].sp, k1.tcbs[u].sp + FRAME;
    EnteredFrame(m, e, u);
    if CallClear(k1, u) {
      EntryStack(m.k, e, u);
      ClearMissesFrame(k1, u);
    }
    DeliveriesApart(m, e, None, u, lo, hi);
    var m1 := Deliveries(l, r.tcbs, Since(m.k, r), m0);
    DeliveriesMiss(l, r.tcbs, Since(m.k, r), m0, lo, hi);
    StoresKeep(l, m, e, u, m1, lo, hi);
    SameOnTrans(m0, m1, KernelStores(l, m.k, r, e, m0), lo, hi);
  }

  /** The same for what follows the deliveries, and any part of a stack that the caller's own block misses. */
  lemma StoresKeep(l: Layout, m: Machine, e: Entry, u: Tid, m1: Memory, lo: int, hi: int)
    requires MachineInv(m) && EnterLegal(m, e) && Next(m.k, e).Up? && Live(m.k, u)
    requires Entered(m.k, e).tcbs[u].base <= lo <= hi <= Entered(m.k, e).tcbs[u].stack
    requires m.k.current == Some(u) && CallClear(Entered(m.k, e), u) ==> Misses(Entered(m.k, e).tcbs[u], lo, hi)
    ensures var r := Next(m.k, e).value;
            SameOn(m1, BuildNew(l, m.k, r, if e.Trap? then StoreReturn(l, m1, r.tcbs[m.k.current.value]) else m1, THREAD_NUM),
                   lo, hi)
  {
    hide Next, Inv, CallClear, Misses, FrameAt, Core, SameOn, StoreReturn, BuildNew, StacksApart;
    var r, c := Next(m.k, e).value, m.k.current.value;
    var m2 := if e.Trap? then StoreReturn(l, m1, r.tcbs[c]) else m1;
    SameOnSelf(m1, lo, hi);
    if e.Trap? {
      if e.call.Exit? {
        ExitedFree(m.k, e);
      } else {
        CallerApart(m, e, u, lo, hi);
      }
      ReturnMisses(l, m1, r.tcbs[c], lo, hi);
    }
    StepApart(m.k, e);
    StackBelow(m, e, u);
    BuildNewKeeps(l, m.k, r, m2, THREAD_NUM, lo, hi);
    SameOnTrans(m1, m2, BuildNew(l, m.k, r, m2, THREAD_NUM), lo, hi);
  }

  lemma StackBelow(m: Machine, e: Entry, u: Tid)
    requires MachineInv(m) && EnterLegal(m, e) && Live(m.k, u)
    ensures Entered(m.k, e).tcbs[u].stack <= m.k.stackTop
  {
    EnteredCore(m.k, e);
  }

  // ---------------------------------------------------------------- context switches

  /** What thread `t` of `r` is to resume with. */
  function ResumeRegs(l: Layout, m: Machine, r: State, t: Tid): (q: Regs) {
    if m.k.current == Some(t) then m.regs else if Created(m.k, r, t) then FirstRegs(l, r, t) else m.saved[t]
  }

  /** After an entry every live thread has its frame on its own stack, the one dispatched included. */
  lemma EnterFrames(l: Layout, m: Machine, e: Entry, t: Tid)
    requires MachineInv(m) && EnterLegal(m, e) && Enter(l, m, e).Up? && Live(Enter(l, m, e).value.k, t)
    ensures Suspended(Enter(l, m, e).value, t)
  {
    hide Next, FrameAt, PushAll, FrameWords, BuildNew, KernelStores, StacksApart, Inv;
    var r, m0 := Enter(l, m, e).value.k, Interrupted(m);
    EntryStack(m.k, e, t);
    if Live(m.k, t) {
      EnteredFrame(m, e, t);
      StoresMissFrame(l, m, e, t);
      FrameKept(m0, KernelStores(l, m.k, r, e, m0), Entered(m.k, e).tcbs[t].sp, ResumeRegs(l, m, r, t));
    } else {
      RunningThread(m.k);
      StepApart(m.k, e);
      NewFrame(l, m.k, r, e, m0, t);
    }
  }

  lemma NewFrame(l: Layout, k: State, r: State, e: Entry, m: Memory, t: Tid)
    requires k.current.Some? && StacksApart(k, r) && Created(k, r, t)
    ensures FrameAt(KernelStores(l, k, r, e, m), r.tcbs[t].stack - 36, FirstRegs(l, r, t))
  {
    hide FrameAt, BuildNew, StacksApart, Deliveries, StoreReturn;
    var served := Deliveries(l, r.tcbs, Since(k, r), m);
    BuildNewFrame(l, k, r, if e.Trap? then StoreReturn(l, served, r.tcbs[k.current.value]) else served, THREAD_NUM, t);
  }

  /** After an entry everyone who waits has a clear call. */
  lemma EnterWaiters(m: Machine, e: Entry)
    requires MachineInv(m) && EnterLegal(m, e) && Next(m.k, e).Up?
    ensures WaitersClear(Next(m.k, e).value)
  {
    hide Next, Inv, CallClear, FrameAt;
    var k1, r := Entered(m.k, e), Next(m.k, e).value;
    AllStacks(m.k, e);
    StepServes(m.k, e);
    RunningThread(m.k);
    forall t: Tid, b: BoxId | Waits(r, t, b)
      ensures CallClear(r, t)
    {
      if Waits(m.k, t, b) {
        WaiterLives(m.k, e, t, b);
      } else {
        StepLive(m.k, e, t);
      }
      CarriedOver(m.k, e, t);
      ClearKept(k1, r, t);
    }
  }

  /** The blocks of calls lie on the stacks of their threads. */
  lemma EnterPlaced(m: Machine, e: Entry)
    requires MachineInv(m) && EnterLegal(m, e) && Next(m.k, e).Up?
    ensures Placed(Next(m.k, e).value)
  {
    hide Next, Inv, FrameAt;
    PlacedStep(m.k, e);
  }

  /**
   Context switch: after an entry the machine invariant holds again, and the CPU holds exactly what
   the dispatched thread had when it last entered the kernel, or its start registers.
   */
  lemma EnterResumes(l: Layout, m: Machine, e: Entry)
    requires MachineInv(m) && EnterLegal(m, e) && Enter(l, m, e).Up?
    ensures MachineInv(Enter(l, m, e).value)
    ensures var m1 := Enter(l, m, e).value; m1.regs == m1.saved[m1.k.current.value]
  {
    hide FrameAt, KernelStores, WaitersClear, Placed, Next, Core, Load, Status;
    var m1 := Enter(l, m, e).value;
    var r := m1.k;
    RunningThread(r);
    var c := r.current.value;
    forall t: Tid | Live(r, t)
      ensures Suspended(m1, t)
    {
      EnterFrames(l, m, e, t);
    }
    EnterWaiters(m, e);
    EnterPlaced(m, e);
    PoppedFrame(m1.mem, r.tcbs[c].sp, m1.saved[c]);
  }

  // ---------------------------------------------------------------- runs of the machine

  /** What can happen next: the running thread computes, or enters the kernel. */
  datatype Action =
    | Compute(writes: map<int, Byte>, regs: Regs)
    | EnterKernel(entry: Entry)

  /** A thread writes no other live thread's stack, and leaves room for a frame on its own. */
  ghost predicate ActionLegal(m: Machine, a: Action) {
    match a
    case Compute(writes, regs) =>
      Room(m, regs) &&
      forall x, t: Tid :: x in writes && Live(m.k, t) && m.k.current != Some(t) ==>
        x < m.k.tcbs[t].base || m.k.tcbs[t].stack <= x
    case EnterKernel(e) => EnterLegal(m, e)
  }

  function Act(l: Layout, m: Machine, a: Action): (r: Outcome<Machine>)
    requires MachineInv(m) && ActionLegal(m, a)
  {
    match a
    case Compute(writes, regs) => Up(m.(mem := m.mem + writes, regs := regs))
    case EnterKernel(e) => Enter(l, m, e)
  }

  /** A computing thread changes nothing on the stacks of others. */
  lemma ComputeKeeps(m: Machine, writes: map<int, Byte>, regs: Regs, t: Tid, lo: int, hi: int)
    requires ActionLegal(m, Compute(writes, regs)) && Live(m.k, t) && m.k.current != Some(t)
    requires m.k.tcbs[t].base <= lo && hi <= m.k.tcbs[t].stack
    ensures SameOn(m.mem, m.mem + writes, lo, hi)
  {
  }

  lemma ActInv(l: Layout, m: Machine, a: Action)
    requires MachineInv(m) && ActionLegal(m, a) && Act(l, m, a).Up?
    ensures MachineInv(Act(l, m, a).value)
  {
    hide FrameAt, SameOn, Inv, WaitersClear;
    match a
    case EnterKernel(e) => EnterResumes(l, m, e);
    case Compute(writes, regs) =>
      var m1 := m.(mem := m.mem + writes, regs := regs);
      forall t: Tid | Live(m.k, t) && m.k.current != Some(t)
        ensures Suspended(m1, t)
      {
        assert Suspended(m, t);
        ComputeKeeps(m, writes, regs, t, m.k.tcbs[t].sp, m.k.tcbs[t].sp + FRAME);
        FrameKept(m.mem, m1.mem, m.k.tcbs[t].sp, m.saved[t]);
      }
  }

  ghost predicate LegalActions(l: Layout, m: Machine, acts: seq<Action>)
    requires MachineInv(m)
    decreases |acts|
  {
    acts == [] ||
    (ActionLegal(m, acts[0]) &&
     match Act(l, m, acts[0])
     case Down => |acts| == 1
     case Up(m1) => ActInv(l, m, acts[0]); LegalActions(l, m1, acts[1..]))
  }

  function RunActions(l: Layout, m: Machine, acts: seq<Action>): (r: Outcome<Machine>)
    requires MachineInv(m) && LegalActions(l, m, acts)
    ensures r.Up? ==> MachineInv(r.value)
    decreases |acts|
  {
    if acts == [] then Up(m)
    else
      match Act(l, m, acts[0])
      case Down => Down
      case Up(m1) => ActInv(l, m, acts[0]); RunActions(l, m1, acts[1..])
  }

  /** Thread `t` is live and not running in every state of the run but the last. */
  ghost predicate Away(l: Layout, m: Machine, acts: seq<Action>, t: Tid)
    requires MachineInv(m) && LegalActions(l, m, acts)
    decreases |acts|
  {
    acts == [] ||
    (m.k.current != Some(t) &&
     match Act(l, m, acts[0])
     case Down => true
     case Up(m1) => ActInv(l, m, acts[0]); Away(l, m1, acts[1..], t))
  }

  /** A step that `t` does not run keeps what `t` had; if `t` is dispatched by it, it gets that back. */
  lemma ActKeepsSaved(l: Layout, m: Machine, a: Action, t: Tid)
    requires MachineInv(m) && ActionLegal(m, a) && Act(l, m, a).Up? && Live(m.k, t) && m.k.current != Some(t)
    ensures var m1 := Act(l, m, a).value;
            MachineInv(m1) && Live(m1.k, t) && m1.saved[t] == m.saved[t]
            && (m1.k.current == Some(t) ==> m1.regs == m.saved[t])
  {
    hide Next, Inv, Suspended, WaitersClear, KernelStores, Popped;
    ActInv(l, m, a);
    if a.EnterKernel? {
      EntryStack(m.k, a.entry, t);
      EnterResumes(l, m, a.entry);
    }
  }

  /**
   A suspended thread resumes with exactly the registers, stack pointer, PC and CCR it had, however
   long the run in between and whatever the others do on their own stacks.
   */
  lemma {:induction false} ResumeExactly(l: Layout, m: Machine, acts: seq<Action>, t: Tid)
    requires MachineInv(m) && LegalActions(l, m, acts) && RunActions(l, m, acts).Up?
    requires Live(m.k, t) && m.k.current != Some(t) && acts != [] && Away(l, m, acts, t)
    ensures var r := RunActions(l, m, acts).value;
            Live(r.k, t) && r.saved[t] == m.saved[t] && (r.k.current == Some(t) ==> r.regs == m.saved[t])
    decreases |acts|
  {
    hide Act, MachineInv;
    ActKeepsSaved(l, m, acts[0], t);
    var m1 := Act(l, m, acts[0]).value;
    if acts[1..] != [] {
      ResumeExactly(l, m1, acts[1..], t);
    }
  }

  // ---------------------------------------------------------------- return values

  /**
   Thread `t` has made a call whose block stands in memory, on its own stack: the return value, and for
   a receive the size and the pointer where it wants them.
   */
  ghost predicate Parked(l: Layout, m: Machine, t: Tid) {
    Live(m.k, t) && CallClear(m.k, t) && StoresRet(m.k.tcbs[t].call.value)
    && BlockInMemory(l, m.mem, m.k.tcbs[t].call.value, m.k.tcbs[t].param, m.k.tcbs[t].stack)
  }

  ghost predicate BlockInMemory(l: Layout, mem: Memory, c: Call, p: Option<Block>, top: int) {
    InMemory(l, mem, c, p) && PlacesHold(mem, c, p, top)
  }

  /** Thread `t` is still in the same call, with the same block. */
  ghost predicate SameCall(m: Machine, n: Machine, t: Tid) {
    n.k.tcbs[t].call == m.k.tcbs[t].call && PlaceOf(n.k.tcbs[t].param) == PlaceOf(m.k.tcbs[t].param)
  }

  lemma BlockKept(l: Layout, m: Memory, n: Memory, c: Call, p: Option<Block>, top: int)
    requires BlockInMemory(l, m, c, p, top) && SameOn(m, n, p.value.at, top) && p.value.at + BLOCK_SIZE <= top
    ensures BlockInMemory(l, n, c, p, top)
  {
    var at := p.value.at;
    hide InMemory, PlacesHold, SameOn;
    SameOnWithin(m, n, at, top, at, at + BLOCK_SIZE);
    SameOnWithin(m, n, at, top, at + BLOCK_SIZE, top);
    InMemoryKept(l, m, n, c, p);
    PlacesKept(m, n, c, p, top);
  }

  /** A system call leaves its return value, and what was delivered at once, in memory for its caller. */
  lemma EnterReturns(l: Layout, m: Machine, e: Entry)
    requires MachineInv(m) && EnterLegal(m, e) && e.Trap? && StoresRet(e.call) && Enter(l, m, e).Up?
    requires Live(Enter(l, m, e).value.k, m.k.current.value)
    ensures Parked(l, Enter(l, m, e).value, m.k.current.value)
    ensures var tcb := Enter(l, m, e).value.k.tcbs[m.k.current.value];
            tcb.call == Some(e.call) && (!e.call.Exit? ==> PlaceOf(tcb.param) == Some(e.blk.at))
  {
    hide Next, Inv, FrameAt, InMemory, PlacesHold, BuildNew, StacksApart, SameOn, Deliveries, StoreReturn, Core, ParamAfter;
    var k1, r, c := Entered(m.k, e), Enter(l, m, e).value.k, m.k.current.value;
    RunningThread(m.k);
    CarriedOver(m.k, e, c);
    AllStacks(m.k, e);
    ClearKept(k1, r, c);
    var at, top := r.tcbs[c].param.value.at, r.tcbs[c].stack;
    var m1 := Deliveries(l, r.tcbs, Since(m.k, r), Interrupted(m));
    var m2 := StoreReturn(l, m1, r.tcbs[c]);
    ReturnInMemory(l, m1, r.tcbs[c]);
    CallerPlaces(l, m, e);
    StepApart(m.k, e);
    StackBelow(m, e, c);
    BuildNewKeeps(l, m.k, r, m2, THREAD_NUM, at, top);
    BlockKept(l, m2, BuildNew(l, m.k, r, m2, THREAD_NUM), e.call, r.tcbs[c].param, top);
  }

  /** What the caller's own places hold once the return value is stored. */
  lemma CallerPlaces(l: Layout, m: Machine, e: Entry)
    requires MachineInv(m) && EnterLegal(m, e) && e.Trap? && StoresRet(e.call) && Next(m.k, e).Up?
    requires Live(Next(m.k, e).value, m.k.current.value)
    ensures var r, c := Next(m.k, e).value, m.k.current.value;
            var m1 := Deliveries(l, r.tcbs, Since(m.k, r), Interrupted(m));
            PlacesHold(StoreReturn(l, m1, r.tcbs[c]), e.call, r.tcbs[c].param, r.tcbs[c].stack)
  {
    hide Next, Inv, FrameAt, PlacesHold, SameOn, Deliveries, StoreReturn, Core, ParamAfter, AllMiss, PushAll, FrameWords;
    var k1, r, c := Entered(m.k, e), Next(m.k, e).value, m.k.current.value;
    var m0, evs, at, top := Interrupted(m), Since(m.k, r), e.blk.at, k1.tcbs[c].stack;
    CallerEntered(m.k, e);
    CarriedOver(m.k, e, c);
    PushedAbove(m, at + BLOCK_SIZE, top);
    PlacesKept(m.mem, m0, e.call, Some(e.blk), top);
    EnteredFrame(m, e, c);
    DeliveriesApart(m, e, Some(c), c, at, top);
    forall i | 0 <= i < |evs| && evs[i].Delivered? && evs[i].to == c
      ensures e.call.Recv?
    {
      ServedClear(m, e, i);
    }
    DeliveriesPlaces(l, r.tcbs, evs, m0, c, k1.tcbs[c], top);
    CallerDeliveries(m.k, e);
    var p := ParamAfter(k1.tcbs[c], evs, c);
    ReturnKeepsPlaces(l, Deliveries(l, r.tcbs, evs, m0), r.tcbs[c], p, top);
    PlacesIgnoreRet(StoreReturn(l, Deliveries(l, r.tcbs, evs, m0), r.tcbs[c]), e.call, p, r.tcbs[c].param, top);
  }

  lemma CallerEntered(k: State, e: Entry)
    requires Inv(k) && EntryLegal(k, e) && e.Trap? && !e.call.Exit?
    ensures k.current.Some? && Live(k, k.current.value)
    ensures var tcb := Entered(k, e).tcbs[k.current.value];
            tcb.call == Some(e.call) && tcb.param == Some(e.blk) && tcb.stack == k.tcbs[k.current.value].stack && tcb.sp == e.sp
  {
    RunningThread(k);
  }

  lemma PushedAbove(m: Machine, lo: int, hi: int)
    requires m.regs.sp <= lo
    ensures SameOn(m.mem, Interrupted(m), lo, hi)
  {
    hide FrameAt, PushAll, FrameWords;
    PushedFrame(m.mem, m.regs);
  }

  lemma PlacesIgnoreRet(m: Memory, c: Call, p: Option<Block>, q: Option<Block>, top: int)
    requires PlacesHold(m, c, p, top) && q.Some? && q.value == p.value.(ret := q.value.ret)
    ensures PlacesHold(m, c, q, top)
  {
  }

  /** Entries of others keep it there, or replace it by what they deliver. */
  lemma EnterKeepsReturn(l: Layout, m: Machine, e: Entry, t: Tid)
    requires MachineInv(m) && EnterLegal(m, e) && Enter(l, m, e).Up? && m.k.current != Some(t) && Parked(l, m, t)
    ensures Parked(l, Enter(l, m, e).value, t)
    ensures SameCall(m, Enter(l, m, e).value, t)
  {
    hide Next, Inv, FrameAt, InMemory, PlacesHold, BuildNew, StacksApart, SameOn, Deliveries, StoreReturn, Core, CellsMiss,
         ParamAfter, AllMiss, PushAll;
    var k1, r, m0 := Entered(m.k, e), Enter(l, m, e).value.k, Interrupted(m);
    EntryStack(m.k, e, t);
    CarriedOver(m.k, e, t);
    AllStacks(m.k, e);
    EnteredClear(m.k, e, t);
    EnteredSame(m.k, e, t);
    ClearKept(k1, r, t);
    EnteredFrame(m, e, t);
    BlockInside(k1, t);
    PushKeepsBlock(l, m, t);
    ClearMissesBlock(k1, t);
    StepDeliveries(m.k, e, t);
    var at, top, evs := m.k.tcbs[t].param.value.at, m.k.tcbs[t].stack, Since(m.k, r);
    DeliveriesApart(m, e, Some(t), t, at, at + BLOCK_SIZE);
    DeliveriesApart(m, e, Some(t), t, at, top);
    forall i | 0 <= i < |evs| && evs[i].Delivered? && evs[i].to == t
      ensures m.k.tcbs[t].call.value.Recv?
    {
      ServedClear(m, e, i);
    }
    DeliveriesInMemory(l, r.tcbs, evs, m0, t, m.k.tcbs[t]);
    DeliveriesPlaces(l, r.tcbs, evs, m0, t, m.k.tcbs[t], top);
    var m1 := Deliveries(l, r.tcbs, evs, m0);
    StoresKeep(l, m, e, t, m1, at, top);
    BlockKept(l, m1, Enter(l, m, e).value.mem, m.k.tcbs[t].call.value, r.tcbs[t].param, top);
  }

  /** A call that is clear has its block on the stack of its thread. */
  lemma BlockInside(k: State, t: Tid)
    requires CallClear(k, t) && FrameInside(k.tcbs[t])
    ensures k.tcbs[t].param.Some? && OnStack(k.tcbs[t], k.tcbs[t].param.value.at)
  {
  }

  lemma EnteredSame(k: State, e: Entry, t: Tid)
    requires Inv(k) && EntryLegal(k, e) && k.current != Some(t)
    ensures Entered(k, e).tcbs[t] == k.tcbs[t]
  {
  }

  lemma PushKeepsBlock(l: Layout, m: Machine, t: Tid)
    requires MachineInv(m) && m.k.current != Some(t) && Parked(l, m, t)
    ensures BlockInMemory(l, Interrupted(m), m.k.tcbs[t].call.value, m.k.tcbs[t].param, m.k.tcbs[t].stack)
  {
    hide FrameAt, BlockInMemory, PushAll, FrameWords;
    RunningThread(m.k);
    assert Suspended(m, t);
    PushedFrame(m.mem, m.regs);
    BlockKept(l, m.mem, Interrupted(m), m.k.tcbs[t].call.value, m.k.tcbs[t].param, m.k.tcbs[t].stack);
  }

  lemma ActKeepsReturn(l: Layout, m: Machine, a: Action, t: Tid)
    requires MachineInv(m) && ActionLegal(m, a) && Act(l, m, a).Up? && m.k.current != Some(t) && Parked(l, m, t)
    ensures Parked(l, Act(l, m, a).value, t) && SameCall(m, Act(l, m, a).value, t)
  {
    hide FrameAt, BlockInMemory, SameOn, Enter;
    match a
    case EnterKernel(e) => EnterKeepsReturn(l, m, e, t);
    case Compute(writes, regs) =>
      assert Suspended(m, t);
      var at, top := m.k.tcbs[t].param.value.at, m.k.tcbs[t].stack;
      ComputeKeeps(m, writes, regs, t, at, top);
      BlockKept(l, m.mem, m.mem + writes, m.k.tcbs[t].call.value, m.k.tcbs[t].param, top);
  }

  lemma {:induction false} ReturnKept(l: Layout, m: Machine, acts: seq<Action>, t: Tid)
    requires MachineInv(m) && LegalActions(l, m, acts) && RunActions(l, m, acts).Up? && Away(l, m, acts, t)
    requires Parked(l, m, t)
    ensures Parked(l, RunActions(l, m, acts).value, t)
    ensures SameCall(m, RunActions(l, m, acts).value, t)
    decreases |acts|
  {
    hide Act, MachineInv, Parked;
    if acts != [] {
      ActInv(l, m, acts[0]);
      ActKeepsReturn(l, m, acts[0], t);
      ReturnKept(l, Act(l, m, acts[0]).value, acts[1..], t);
    }
  }

  /**
   A system call as its caller sees it: whenever it runs again, it runs with exactly the registers with
   which it trapped, and finds in memory the return value, and after a receive the size and the pointer,
   that the kernel's state says.
   */
  lemma CallReturns(l: Layout, m: Machine, e: Entry, m1: Machine, acts: seq<Action>)
    requires MachineInv(m) && EnterLegal(m, e) && e.Trap? && StoresRet(e.call) && Enter(l, m, e) == Up(m1)
    requires MachineInv(m1) && Live(m1.k, m.k.current.value)
    requires LegalActions(l, m1, acts) && RunActions(l, m1, acts).Up? && Away(l, m1, acts, m.k.current.value)
    ensures var r, t := RunActions(l, m1, acts).value, m.k.current.value;
            r.k.tcbs[t].call == Some(e.call) && PlaceOf(r.k.tcbs[t].param) == Some(e.blk.at)
            && BlockInMemory(l, r.mem, e.call, r.k.tcbs[t].param, r.k.tcbs[t].stack) && (r.k.current == Some(t) ==> r.regs == m.regs)
  {
    hide Act, MachineInv, Enter;
    var t := m.k.current.value;
    EnterReturns(l, m, e);
    EnterResumes(l, m, e);
    EnterSaves(l, m, e);
    ReturnKept(l, m1, acts, t);
    if acts != [] {
      AwayFirst(l, m1, acts, t);
      ResumeExactly(l, m1, acts, t);
    }
  }

  lemma EnterSaves(l: Layout, m: Machine, e: Entry)
    requires MachineInv(m) && EnterLegal(m, e) && Enter(l, m, e).Up?
    ensures Enter(l, m, e).value.saved[m.k.current.value] == m.regs
  {
  }

  lemma AwayFirst(l: Layout, m: Machine, acts: seq<Action>, t: Tid)
    requires MachineInv(m) && LegalActions(l, m, acts) && Away(l, m, acts, t) && acts != []
    ensures m.k.current != Some(t)
  {
  }

  /**
   The registers with which thread `t` enters `thread_init`: its TCB in ER0, zeros in ER1 to ER6, interrupts
   masked for priority 0 only, one word left on its stack.
   */
  ghost predicate Starts(l: Layout, r: Regs, t: Tid, priority: nat, stack: int) {
    r.er0 == l.tcbAddr(t) && r.er1 == 0 && r.er2 == 0 && r.er3 == 0 && r.er4 == 0 && r.er5 == 0 && r.er6 == 0
    && r.pc == l.threadInit && r.sp == stack - 4 && (r.ccr == 0xc0 || r.ccr == 0) && (r.ccr == 0xc0 <==> priority == 0)
  }

  /** What an entry notes for a thread that it creates, and leaves on its stack. */
  lemma NewThreadStarts(l: Layout, m: Machine, e: Entry, t: Tid)
    requires MachineInv(m) && EnterLegal(m, e) && Enter(l, m, e).Up? && Created(m.k, Enter(l, m, e).value.k, t)
    ensures var m1 := Enter(l, m, e).value;
            Starts(l, m1.saved[t], t, m1.k.tcbs[t].priority, m1.k.tcbs[t].stack)
            && FrameAt(m1.mem, m1.k.tcbs[t].stack - 36, m1.saved[t])
  {
    hide Next, Inv, FrameAt, KernelStores;
    RunningThread(m.k);
    EntryStack(m.k, e, t);
    EnterFrames(l, m, e, t);
  }

  /** A `kz_run` that finds a free TCB starts its thread with the priority and on the stack of the call. */
  lemma RunStarts(l: Layout, m: Machine, e: Entry, i: Tid)
    requires MachineInv(m) && EnterLegal(m, e) && Enter(l, m, e).Up? && e.Trap? && e.call.Run? && FirstOfFree(m.k, i)
    ensures Created(m.k, Enter(l, m, e).value.k, i)
    ensures Starts(l, Enter(l, m, e).value.saved[i], i, e.call.priority, m.k.stackTop + e.call.stacksize)
  {
    hide Next, Inv, FrameAt, KernelStores, Starts;
    RunEffect(m.k, e, i);
    NewThreadStarts(l, m, e, i);
  }

  /** The first dispatch of a thread that an entry creates, at once or after any run without it. */
  lemma FirstDispatch(l: Layout, m: Machine, e: Entry, m1: Machine, acts: seq<Action>, t: Tid)
    requires MachineInv(m) && EnterLegal(m, e) && Enter(l, m, e) == Up(m1) && Created(m.k, m1.k, t)
    requires MachineInv(m1) && LegalActions(l, m1, acts) && RunActions(l, m1, acts).Up? && Away(l, m1, acts, t)
    requires RunActions(l, m1, acts).value.k.current == Some(t)
    ensures Starts(l, RunActions(l, m1, acts).value.regs, t, m1.k.tcbs[t].priority, m1.k.tcbs[t].stack)
  {
    hide Act, MachineInv, Enter, Starts;
    NewThreadStarts(l, m, e, t);
    EnterResumes(l, m, e);
    if acts != [] {
      AwayFirst(l, m1, acts, t);
      ResumeExactly(l, m1, acts, t);
    }
  }

  /** `kz_start`: the stack of the first thread, built and dispatched. */
  function BootMachine(l: Layout, stackTop: int, c: Call, mem: Memory, saved: Saved): (r: Machine)
    requires c.Run? && c.func != 0 && 0 <= c.priority < PRIORITY_NUM && INITIAL_FRAME <= c.stacksize
  {
    var k := Boot(stackTop, c);
    var stack := stackTop + c.stacksize;
    var built := PushAll(mem, stack, StackWords(l.threadEnd, StartRegs(l.tcbAddr(0), l.threadInit, c.priority, stack)));
    Machine(k, built, Popped(built, k.tcbs[0].sp), saved)
  }

  /** The machine invariant holds when the first thread is dispatched. */
  lemma BootInv(l: Layout, stackTop: int, c: Call, mem: Memory, saved: Saved)
    requires c.Run? && c.func != 0 && 0 <= c.priority < PRIORITY_NUM && INITIAL_FRAME <= c.stacksize
    ensures MachineInv(BootMachine(l, stackTop, c, mem, saved))
  {
    hide PushAll, StackWords, Inv, Boot;
    BootThread(stackTop, c);
    BootPlaced(stackTop, c);
  }

  /** The first thread starts in `thread_init`, with its TCB in ER0 and zeros in ER1 to ER6. */
  lemma BootResumes(l: Layout, stackTop: int, c: Call, mem: Memory, saved: Saved)
    requires c.Run? && c.func != 0 && 0 <= c.priority < PRIORITY_NUM && INITIAL_FRAME <= c.stacksize
    ensures BootMachine(l, stackTop, c, mem, saved).regs
         == StartRegs(l.tcbAddr(0), l.threadInit, c.priority, stackTop + c.stacksize)
    ensures Starts(l, BootMachine(l, stackTop, c, mem, saved).regs, 0, c.priority, stackTop + c.stacksize)
  {
    hide PushAll, StackWords, Inv, Boot, Popped;
    var stack := stackTop + c.stacksize;
    BootThread(stackTop, c);
    BootFrame(l, mem, stack, StartRegs(l.tcbAddr(0), l.threadInit, c.priority, stack));
  }

  lemma BootFrame(l: Layout, mem: Memory, stack: int, r: Regs)
    requires r.sp == stack - 4
    ensures Popped(PushAll(mem, stack, StackWords(l.threadEnd, r)), stack - 36) == r
  {
    hide FrameAt, PushAll, StackWords;
    NewStackFrame(mem, stack, l.threadEnd, r);
    PoppedFrame(PushAll(mem, stack, StackWords(l.threadEnd, r)), stack - 36, r);
  }

  /** The only thread that `kz_start` leaves. */
  lemma BootThread(stackTop: int, c: Call)
    requires c.Run? && c.func != 0 && 0 <= c.priority < PRIORITY_NUM && INITIAL_FRAME <= c.stacksize
    ensures var k := Boot(stackTop, c);
            k.current == Some(0) && (forall t: Tid :: Live(k, t) ==> t == 0) && (forall t: Tid, b: BoxId :: !Waits(k, t, b))
            && k.tcbs[0].base == stackTop && k.tcbs[0].stack == stackTop + c.stacksize
            && k.tcbs[0].sp == stackTop + c.stacksize - INITIAL_FRAME
  {
    StartInv(stackTop, c);
    var k1 := ThreadSetIntr(Cleared(stackTop), SOFTVEC_TYPE_SYSCALL, SyscallIntr).0;
    assert FirstFree(ThreadSetIntr(k1, SOFTVEC_TYPE_SOFTERR, SoftErrIntr).0.tcbs, 0) == 0;
  }
}
