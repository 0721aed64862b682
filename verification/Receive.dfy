/** A blocking receive from the view of its thread: from the trap to the return of the library function. */
module Receive {
  import opened Prelude
  import opened KernelSpec
  import opened KernelInvariant
  import opened KernelMail
  import opened KernelStacks
  import opened Context
  import opened CallBlocks
  import opened Machine

  /** The kernel entries of a run of the machine. */
  function EntriesOf(acts: seq<Action>): (es: seq<Entry>) {
    if acts == [] then []
    else (match acts[0] case EnterKernel(e) => [e] case Compute(_, _) => []) + EntriesOf(acts[1..])
  }

  /** A run of the machine is a legal run of its kernel. */
  lemma {:induction false} MachineRun(l: Layout, m: Machine, acts: seq<Action>, t: Tid)
    requires MachineInv(m) && LegalActions(l, m, acts) && RunActions(l, m, acts).Up? && Away(l, m, acts, t)
    ensures LegalRun(m.k, EntriesOf(acts)) && Execute(m.k, EntriesOf(acts)) == Up(RunActions(l, m, acts).value.k)
    ensures NotRunning(m.k, EntriesOf(acts), t)
    decreases |acts|
  {
    hide Next, Inv, ActionLegal, Act, MachineInv;
    InvOf(m);
    if acts != [] {
      ActInv(l, m, acts[0]);
      var m1 := Act(l, m, acts[0]).value;
      InvOf(m1);
      MachineRun(l, m1, acts[1..], t);
      ActNext(l, m, acts[0]);
      if acts[0].EnterKernel? {
        assert EntriesOf(acts)[1..] == EntriesOf(acts[1..]);
      } else {
        assert EntriesOf(acts) == EntriesOf(acts[1..]);
      }
    }
  }

  lemma InvOf(m: Machine)
    requires MachineInv(m)
    ensures Inv(m.k)
  {
  }

  lemma ActNext(l: Layout, m: Machine, a: Action)
    requires MachineInv(m) && ActionLegal(m, a) && Act(l, m, a).Up?
    ensures a.EnterKernel? ==> EntryLegal(m.k, a.entry) && Next(m.k, a.entry) == Up(Act(l, m, a).value.k)
    ensures a.Compute? ==> Act(l, m, a).value.k == m.k
  {
  }

  /** Memory holds message `msg` where call `c` with its block at `at` wants it, on a stack that ends at `top`. */
  ghost predicate MessageInMemory(l: Layout, m: Memory, c: Call, at: int, msg: Msg, top: int) {
    c.Recv? && Load(m, at + 12) == (if msg.sender.Some? then l.tcbAddr(msg.sender.value) else 0)
    && (OwnPlace(c.sizep, 2, at, top) ==>
          Load8(m, c.sizep.value) * 0x100 + Load8(m, c.sizep.value + 1) == msg.size % 0x1_0000)
    && (OwnPlace(c.pp, 4, at, top) ==> Load(m, c.pp.value) == msg.p % 0x1_0000_0000)
  }

  /** Thread `t` traps for mail of box `b`, which is empty; `m1` is the machine behind its entry. */
  ghost predicate Blocking(l: Layout, m: Machine, e: Entry, m1: Machine, t: Tid, b: BoxId) {
    MachineInv(m) && EnterLegal(m, e) && e.Trap? && e.call.Recv? && e.call.from == b
    && m.k.boxes[b].msgs == [] && m.k.current == Some(t) && Enter(l, m, e) == Up(m1)
  }

  /**
   `kz_recv` on an empty mailbox: whenever its thread runs again, it has its registers back, and memory
   holds the sender, the size and the pointer of a message that was delivered to it from that mailbox.
   */
  lemma ReceiveReturnsMessage(l: Layout, m: Machine, e: Entry, m1: Machine, t: Tid, b: BoxId, acts: seq<Action>, r: Machine)
    requires Blocking(l, m, e, m1, t, b) && MachineInv(m1) && LegalActions(l, m1, acts) && Away(l, m1, acts, t)
    requires RunActions(l, m1, acts) == Up(r) && r.k.current == Some(t)
    ensures r.regs == m.regs && m1.k.log <= r.k.log
    ensures exists msg :: Delivered(b, t, msg) in r.k.log[|m1.k.log|..]
                          && MessageInMemory(l, r.mem, e.call, e.blk.at, msg, r.k.tcbs[t].stack)
  {
    Blocks(l, m, e, m1, t, b);
    hide Act, MachineInv, Enter, Next, Inv, LegalActions, LegalRun, Execute, NotRunning, Away, RunActions, BlockInMemory,
         EnterLegal, Holds, MessageInMemory, Waits;
    InvOf(m1);
    MachineRun(l, m1, acts, t);
    CallReturns(l, m, e, m1, acts);
    var msg := Served(m1.k, r.k, EntriesOf(acts), t, b, e.call);
    FromBlock(l, r, t, e.call, e.blk.at, msg);
  }

  /** The message with which a blocked receive was served. */
  lemma Served(k: State, r: State, es: seq<Entry>, t: Tid, b: BoxId, c: Call) returns (msg: Msg)
    requires Inv(k) && LegalRun(k, es) && Execute(k, es) == Up(r) && NotRunning(k, es, t)
    requires Waits(k, t, b) && k.tcbs[t].call == Some(c) && r.current == Some(t)
    ensures k.log <= r.log && Delivered(b, t, msg) in r.log[|k.log|..] && Holds(r, t, c, msg)
  {
    hide Inv, LegalRun, Execute, NotRunning, Holds;
    ReceiveReturns(k, es, t, b);
    msg :| Delivered(b, t, msg) in r.log[|k.log|..] && Holds(r, t, c, msg);
  }

  lemma Blocks(l: Layout, m: Machine, e: Entry, m1: Machine, t: Tid, b: BoxId)
    requires Blocking(l, m, e, m1, t, b)
    ensures Waits(m1.k, t, b) && m1.k.tcbs[t].call == Some(e.call)
    ensures Inv(m1.k) ==> Live(m1.k, t)
  {
    hide Next, Inv, FrameAt, KernelStores;
    ReceiveBlocks(m.k, e);
    if Inv(m1.k) {
      WaiterLive(m1.k, t, b);
    }
  }

  lemma WaiterLive(k: State, t: Tid, b: BoxId)
    requires Inv(k) && Waits(k, t, b)
    ensures Live(k, t)
  {
    assert Blocked(k, t, b);
  }

  lemma FromBlock(l: Layout, m: Machine, t: Tid, c: Call, at: int, msg: Msg)
    requires Holds(m.k, t, c, msg) && PlaceOf(m.k.tcbs[t].param) == Some(at)
    requires BlockInMemory(l, m.mem, c, m.k.tcbs[t].param, m.k.tcbs[t].stack)
    ensures MessageInMemory(l, m.mem, c, at, msg, m.k.tcbs[t].stack)
  {
    hide Load;
    if c.sizep.Some? {
      CutTwice(msg.size);
    }
  }
}
