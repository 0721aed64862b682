/**
 The register frame of an H8/300H thread: pushed by the interrupt entries of intr.S, built by hand
 for a new thread in kozos.c, and popped by `_dispatch` in startup.s.  Memory is bytes, words are
 stored high byte first.
 */
module Context {
  import opened Prelude

  type Addr24 = a: int | 0 <= a < 0x100_0000
  type Memory = map<int, Byte>

  /** A register frame: ER0 to ER6, then CCR and PC in one word. */
  const FRAME: nat := 32

  function Load8(m: Memory, a: int): (r: Byte) {
    if a in m then m[a] else 0
  }

  function Load(m: Memory, a: int): (r: Word) {
    Load8(m, a) * 0x100_0000 + Load8(m, a + 1) * 0x1_0000 + Load8(m, a + 2) * 0x100 + Load8(m, a + 3)
  }

  function Store(m: Memory, a: int, w: Word): (r: Memory) {
    m[a := w / 0x100_0000][a + 1 := w / 0x1_0000 % 0x100][a + 2 := w / 0x100 % 0x100][a + 3 := w % 0x100]
  }

  lemma LoadStore(m: Memory, a: int, w: Word)
    ensures Load(Store(m, a, w), a) == w
    ensures Load8(Store(m, a, w), a) == w / 0x100_0000 && Load8(Store(m, a, w), a + 1) == w / 0x1_0000 % 0x100
    ensures Load8(Store(m, a, w), a + 2) == w / 0x100 % 0x100 && Load8(Store(m, a, w), a + 3) == w % 0x100
  {
    FourBytes(w);
  }

  lemma FourBytes(w: Word)
    ensures w / 0x100_0000 * 0x100_0000 + w / 0x1_0000 % 0x100 * 0x1_0000 + w / 0x100 % 0x100 * 0x100 + w % 0x100 == w
  {
    assert w / 0x100 == w / 0x1_0000 * 0x100 + w / 0x100 % 0x100;
    assert w / 0x1_0000 == w / 0x100_0000 * 0x100 + w / 0x1_0000 % 0x100;
  }

  lemma LoadOther(m: Memory, a: int, w: Word, b: int)
    requires b + 4 <= a || a + 4 <= b
    ensures Load(Store(m, a, w), b) == Load(m, b)
  {
  }

  /** Every byte outside `[lo, hi)` is the same in both memories. */
  ghost predicate SameOutside(m: Memory, n: Memory, lo: int, hi: int) {
    forall a :: a < lo || hi <= a ==> Load8(n, a) == Load8(m, a)
  }

  /** What a thread has while it runs. */
  datatype Regs = Regs(er0: Word, er1: Word, er2: Word, er3: Word, er4: Word, er5: Word, er6: Word,
                       sp: int, pc: Addr24, ccr: Byte)

  function Status(pc: Addr24, ccr: Byte): (r: Word) {
    ccr * 0x100_0000 + pc
  }

  /** The frame at `sp` holds `r`, whose own stack pointer is just above the frame. */
  ghost predicate FrameAt(m: Memory, sp: int, r: Regs) {
    && r.sp == sp + FRAME
    && Load(m, sp) == r.er0 && Load(m, sp + 4) == r.er1 && Load(m, sp + 8) == r.er2 && Load(m, sp + 12) == r.er3
    && Load(m, sp + 16) == r.er4 && Load(m, sp + 20) == r.er5 && Load(m, sp + 24) == r.er6
    && Load(m, sp + 28) == Status(r.pc, r.ccr)
  }

  /** The bytes of `[lo, hi)` are the same in both memories. */
  ghost predicate SameOn(m: Memory, n: Memory, lo: int, hi: int) {
    forall a :: lo <= a < hi ==> Load8(n, a) == Load8(m, a)
  }

  lemma LoadSame(m: Memory, n: Memory, a: int)
    requires SameOn(m, n, a, a + 4)
    ensures Load(n, a) == Load(m, a)
  {
    assert Load8(n, a) == Load8(m, a) && Load8(n, a + 1) == Load8(m, a + 1);
    assert Load8(n, a + 2) == Load8(m, a + 2) && Load8(n, a + 3) == Load8(m, a + 3);
  }

  lemma SameOnPart(m: Memory, n: Memory, lo: int, hi: int, a: int)
    requires SameOn(m, n, lo, hi) && lo <= a && a + 4 <= hi
    ensures Load(n, a) == Load(m, a)
  {
    assert SameOn(m, n, a, a + 4);
    LoadSame(m, n, a);
  }

  /** A frame depends on its own bytes only. */
  lemma FrameKept(m: Memory, n: Memory, sp: int, r: Regs)
    requires FrameAt(m, sp, r) && SameOn(m, n, sp, sp + FRAME)
    ensures FrameAt(n, sp, r)
  {
    hide Load, SameOn;
    SameOnPart(m, n, sp, sp + FRAME, sp);
    SameOnPart(m, n, sp, sp + FRAME, sp + 4);
    SameOnPart(m, n, sp, sp + FRAME, sp + 8);
    SameOnPart(m, n, sp, sp + FRAME, sp + 12);
    SameOnPart(m, n, sp, sp + FRAME, sp + 16);
    SameOnPart(m, n, sp, sp + FRAME, sp + 20);
    SameOnPart(m, n, sp, sp + FRAME, sp + 24);
    SameOnPart(m, n, sp, sp + FRAME, sp + 28);
  }

  /** Writes anywhere else leave a frame as it is. */
  lemma FrameSurvives(m: Memory, n: Memory, lo: int, hi: int, sp: int, r: Regs)
    requires FrameAt(m, sp, r) && SameOutside(m, n, lo, hi) && (sp + FRAME <= lo || hi <= sp)
    ensures FrameAt(n, sp, r)
  {
    hide FrameAt;
    FrameKept(m, n, sp, r);
  }

  /** A frame holds one set of registers. */
  lemma FrameDetermines(m: Memory, sp: int, r: Regs, q: Regs)
    requires FrameAt(m, sp, r) && FrameAt(m, sp, q)
    ensures r == q
  {
  }

  // ---------------------------------------------------------------- pushing words

  /** Memory after pushing `ws` in order, starting with a stack pointer of `top`. */
  function PushAll(m: Memory, top: int, ws: seq<Word>): (r: Memory) {
    if ws == [] then m
    else Store(PushAll(m, top, ws[..|ws| - 1]), top - 4 * |ws|, ws[|ws| - 1])
  }

  lemma PushMore(m: Memory, top: int, ws: seq<Word>, w: Word)
    ensures PushAll(m, top, ws + [w]) == Store(PushAll(m, top, ws), top - 4 * (|ws| + 1), w)
  {
    assert (ws + [w])[..|ws|] == ws;
  }

  lemma StoreOutside(m: Memory, a: int, w: Word)
    ensures SameOutside(m, Store(m, a, w), a, a + 4)
  {
  }

  /** Pushed words can be read back, and nothing else changes. */
  lemma {:induction false} Pushed(m: Memory, top: int, ws: seq<Word>)
    ensures SameOutside(m, PushAll(m, top, ws), top - 4 * |ws|, top)
    ensures forall i :: 0 <= i < |ws| ==> Load(PushAll(m, top, ws), top - 4 * (i + 1)) == ws[i]
  {
    hide Load, Store;
    if ws != [] {
      var n := |ws| - 1;
      var m1 := PushAll(m, top, ws[..n]);
      Pushed(m, top, ws[..n]);
      StoreOutside(m1, top - 4 * |ws|, ws[n]);
      LoadStore(m1, top - 4 * |ws|, ws[n]);
      forall i | 0 <= i < |ws|
        ensures Load(PushAll(m, top, ws), top - 4 * (i + 1)) == ws[i]
      {
        if i < n {
          LoadOther(m1, top - 4 * |ws|, ws[n], top - 4 * (i + 1));
          assert ws[..n][i] == ws[i];
        }
      }
    }
  }

  /** The words of a frame in the order in which they are pushed. */
  function FrameWords(r: Regs): (res: seq<Word>) {
    [Status(r.pc, r.ccr), r.er6, r.er5, r.er4, r.er3, r.er2, r.er1, r.er0]
  }

  lemma PushedFrame(m: Memory, r: Regs)
    ensures var n := PushAll(m, r.sp, FrameWords(r));
            FrameAt(n, r.sp - FRAME, r) && SameOutside(m, n, r.sp - FRAME, r.sp)
  {
    hide Load, Store, Status;
    var n, ws := PushAll(m, r.sp, FrameWords(r)), FrameWords(r);
    Pushed(m, r.sp, ws);
    assert Load(n, r.sp - 4 * (0 + 1)) == ws[0] && Load(n, r.sp - 4 * (1 + 1)) == ws[1];
    assert Load(n, r.sp - 4 * (2 + 1)) == ws[2] && Load(n, r.sp - 4 * (3 + 1)) == ws[3];
    assert Load(n, r.sp - 4 * (4 + 1)) == ws[4] && Load(n, r.sp - 4 * (5 + 1)) == ws[5];
    assert Load(n, r.sp - 4 * (6 + 1)) == ws[6] && Load(n, r.sp - 4 * (7 + 1)) == ws[7];
  }

  lemma StatusParts(pc: Addr24, ccr: Byte)
    ensures Status(pc, ccr) % 0x100_0000 == pc && Status(pc, ccr) / 0x100_0000 == ccr
  {
  }

  /** The CPU and the stacks. */
  class Cpu {
    var er0: Word
    var er1: Word
    var er2: Word
    var er3: Word
    var er4: Word
    var er5: Word
    var er6: Word
    var er7: int
    var pc: Addr24
    var ccr: Byte
    var mem: Memory

    constructor (r: Regs, mem: Memory)
      ensures Running() == r && this.mem == mem
    {
      er0, er1, er2, er3, er4, er5, er6 := r.er0, r.er1, r.er2, r.er3, r.er4, r.er5, r.er6;
      er7, pc, ccr, this.mem := r.sp, r.pc, r.ccr, mem;
    }

    function Running(): (r: Regs)
      reads this
    {
      Regs(er0, er1, er2, er3, er4, er5, er6, er7, pc, ccr)
    }

    /** `mov.l w,@-er7`; the ghost arguments say what has been pushed since `er7` was `top`. */
    method PushWord(w: Word, ghost m0: Memory, ghost top: int, ghost ws: seq<Word>)
      requires er7 == top - 4 * |ws| && mem == PushAll(m0, top, ws)
      modifies `er7, `mem
      ensures er7 == top - 4 * |ws + [w]| && mem == PushAll(m0, top, ws + [w])
    {
      er7 := er7 - 4;
      mem := Store(mem, er7, w);
      PushMore(m0, top, ws, w);
    }

    /** `mov.l @er7+,erN` */
    method PopWord() returns (w: Word)
      modifies `er7
      ensures er7 == old(er7) + 4 && w == Load(mem, old(er7))
    {
      w := Load(mem, er7);
      er7 := er7 + 4;
    }

    /** The registers stand in memory, ER0 lowest, with CCR and PC in one word above ER6. */
    method PushFrame()
      modifies `er7, `mem
      ensures er7 == old(er7) - 32 && mem == PushAll(old(mem), old(er7), FrameWords(old(Running())))
      ensures SameOutside(old(mem), mem, er7, old(er7))
      ensures Load(mem, er7) == er0 && Load(mem, er7 + 4) == er1 && Load(mem, er7 + 8) == er2 && Load(mem, er7 + 12) == er3
      ensures Load(mem, er7 + 16) == er4 && Load(mem, er7 + 20) == er5 && Load(mem, er7 + 24) == er6
      ensures Load(mem, er7 + 28) == ccr * 0x100_0000 + pc
    {
      ghost var m, r := mem, Running();
      hide Load, PushAll, FrameWords, SameOutside;
      PushedFrame(m, r);
      PushRegisters();
    }

    /** Exception acceptance and the pushes of an interrupt entry. */
    method PushRegisters()
      modifies `er7, `mem
      ensures er7 == old(er7) - FRAME && mem == PushAll(old(mem), old(er7), FrameWords(old(Running())))
    {
      hide PushAll, Store, Status;
      ghost var m, t, st := mem, er7, Status(pc, ccr);
      PushNone(m, t);
      PushWord(Status(pc, ccr), m, t, []);
      PushWord(er6, m, t, [] + [st]);
      PushWord(er5, m, t, [] + [st] + [er6]);
      PushWord(er4, m, t, [] + [st] + [er6] + [er5]);
      PushLow(m, t, [] + [st] + [er6] + [er5] + [er4]);
      assert [] + [st] + [er6] + [er5] + [er4] + [er3, er2, er1, er0] == FrameWords(old(Running()));
    }

    /** The last four pushes. */
    method PushLow(ghost m: Memory, ghost t: int, ghost ws: seq<Word>)
      requires er7 == t - 4 * |ws| && mem == PushAll(m, t, ws)
      modifies `er7, `mem
      ensures er7 == old(er7) - 16 && mem == PushAll(m, t, ws + [er3, er2, er1, er0])
    {
      hide PushAll, Store;
      PushWord(er3, m, t, ws);
      PushWord(er2, m, t, ws + [er3]);
      PushWord(er1, m, t, ws + [er3] + [er2]);
      PushWord(er0, m, t, ws + [er3] + [er2] + [er1]);
      assert ws + [er3] + [er2] + [er1] + [er0] == ws + [er3, er2, er1, er0];
    }

    /** The first four loads that take a frame off the stack. */
    method PopLow()
      modifies `er0, `er1, `er2, `er3, `er7
      ensures er7 == old(er7) + 16
      ensures er0 == Load(mem, old(er7)) && er1 == Load(mem, old(er7) + 4)
      ensures er2 == Load(mem, old(er7) + 8) && er3 == Load(mem, old(er7) + 12)
    {
      hide Load;
      er0 := PopWord();
      er1 := PopWord();
      er2 := PopWord();
      er3 := PopWord();
    }

    /** The others, and `rte`. */
    method PopHigh()
      modifies `er4, `er5, `er6, `er7, `pc, `ccr
      ensures er7 == old(er7) + 16
      ensures er4 == Load(mem, old(er7)) && er5 == Load(mem, old(er7) + 4) && er6 == Load(mem, old(er7) + 8)
      ensures pc == Load(mem, old(er7) + 12) % 0x100_0000 && ccr == Load(mem, old(er7) + 12) / 0x100_0000
    {
      hide Load;
      er4 := PopWord();
      er5 := PopWord();
      er6 := PopWord();
      var w := PopWord();
      pc, ccr := w % 0x100_0000, w / 0x100_0000;
    }

    /** A frame is taken off the stack. */
    method PopFrame(ghost r: Regs)
      requires FrameAt(mem, er7, r)
      modifies `er0, `er1, `er2, `er3, `er4, `er5, `er6, `er7, `pc, `ccr
      ensures Running() == r
    {
      hide Load, Status;
      StatusParts(r.pc, r.ccr);
      PopLow();
      PopHigh();
    }

    /**
     An interrupt whose soft vector is empty, on the code of `_intr_syscall` and its siblings: the
     frame is pushed, its address is kept on the interrupt stack while the handler runs, the frame is
     popped.  The interrupt stack lies outside the stack of the thread.
     */
    method EnterAndReturn(intrstack: int)
      requires FRAME <= er7 < 0x1_0000_0000 && (intrstack <= er7 - FRAME || er7 <= intrstack - 4)
      modifies this
      ensures Running() == old(Running())
    {
      hide Load, Store, Status, FrameWords;
      ghost var r, top := Running(), er7;
      PushedFrame(mem, r);
      PushFrame();
      er1 := er7;
      er7 := intrstack;
      ghost var m := mem;
      er7 := er7 - 4;
      mem := Store(mem, er7, er1);
      StoreOutside(m, er7, er1);
      LoadStore(m, er7, er1);
      FrameSurvives(m, mem, er7, er7 + 4, top - FRAME, r);
      er1 := PopWord();
      er7 := er1;
      PopFrame(r);
    }

    /** `_dispatch`: continue with the frame at `sp`, the saved stack pointer of a thread. */
    method Dispatch(sp: int, ghost r: Regs)
      requires FrameAt(mem, sp, r)
      modifies `er0, `er1, `er2, `er3, `er4, `er5, `er6, `er7, `pc, `ccr
      ensures Running() == r
      ensures er0 == Load(mem, sp) && er1 == Load(mem, sp + 4) && er2 == Load(mem, sp + 8) && er3 == Load(mem, sp + 12)
      ensures er4 == Load(mem, sp + 16) && er5 == Load(mem, sp + 20) && er6 == Load(mem, sp + 24) && er7 == sp + 32
      ensures pc == Load(mem, sp + 28) % 0x100_0000 && ccr == Load(mem, sp + 28) / 0x100_0000
    {
      hide Load, Status;
      StatusParts(r.pc, r.ccr);
      er7 := sp;
      PopFrame(r);
    }
  }

  // ---------------------------------------------------------------- a new stack

  /** The registers with which a new thread starts: ER0 is its TCB, priority 0 masks interrupts. */
  function StartRegs(tcbAddr: Word, threadInit: Addr24, priority: nat, stack: int): (r: Regs) {
    Regs(tcbAddr, 0, 0, 0, 0, 0, 0, stack - 4, threadInit, if priority == 0 then 0xc0 else 0)
  }

  function StackWords(threadEnd: Word, r: Regs): (res: seq<Word>) {
    [threadEnd] + FrameWords(r)
  }

  /** A stack as `thread_run` leaves it holds the frame of the start registers, and the return address above it. */
  lemma NewStackFrame(m: Memory, stack: int, threadEnd: Word, r: Regs)
    requires r.sp == stack - 4
    ensures var n := PushAll(m, stack, StackWords(threadEnd, r));
            FrameAt(n, stack - 36, r) && Load(n, r.sp) == threadEnd && SameOutside(m, n, stack - 36, stack)
  {
    hide Load, Store, Status;
    var ws := StackWords(threadEnd, r);
    var n := PushAll(m, stack, ws);
    Pushed(m, stack, ws);
    assert Load(n, stack - 4 * (0 + 1)) == ws[0] && Load(n, stack - 4 * (1 + 1)) == ws[1];
    assert Load(n, stack - 4 * (2 + 1)) == ws[2] && Load(n, stack - 4 * (3 + 1)) == ws[3];
    assert Load(n, stack - 4 * (4 + 1)) == ws[4] && Load(n, stack - 4 * (5 + 1)) == ws[5];
    assert Load(n, stack - 4 * (6 + 1)) == ws[6] && Load(n, stack - 4 * (7 + 1)) == ws[7];
    assert Load(n, stack - 4 * (8 + 1)) == ws[8];
  }

  /** The stores `*(--sp) = ...` of `thread_run`. */
  method BuildStack(m: Memory, stack: int, threadEnd: Word, threadInit: Addr24, priority: nat, thp: Word)
    returns (n: Memory, sp: int)
    ensures n == PushAll(m, stack, StackWords(threadEnd, StartRegs(thp, threadInit, priority, stack)))
    ensures sp == stack - 36
    ensures FrameAt(n, sp, StartRegs(thp, threadInit, priority, stack)) && SameOutside(m, n, sp, stack)
    ensures Load(n, sp) == thp
    ensures Load(n, sp + 4) == 0 && Load(n, sp + 8) == 0 && Load(n, sp + 12) == 0
    ensures Load(n, sp + 16) == 0 && Load(n, sp + 20) == 0 && Load(n, sp + 24) == 0
    ensures Load(n, sp + 28) == threadInit + (if priority == 0 then 0xc0 else 0) * 0x100_0000
    ensures Load(n, sp + 32) == threadEnd
  {
    hide Store, Load, PushAll;
    NewStackFrame(m, stack, threadEnd, StartRegs(thp, threadInit, priority, stack));
    PushNone(m, stack);
    var entry: Word := threadInit + (if priority != 0 then 0 else 0xc0) * 0x100_0000;
    n, sp := m, stack;
    n, sp := StoreDown(n, sp, threadEnd, m, stack, []);
    n, sp := StoreDown(n, sp, entry, m, stack, [] + [threadEnd]);
    n, sp := StoreDown(n, sp, 0, m, stack, [] + [threadEnd] + [entry]);
    n, sp := StoreDown(n, sp, 0, m, stack, [] + [threadEnd] + [entry] + [0]);
    n, sp := StoreDown(n, sp, 0, m, stack, [] + [threadEnd] + [entry] + [0] + [0]);
    n, sp := StoreDown(n, sp, 0, m, stack, [] + [threadEnd] + [entry] + [0] + [0] + [0]);
    n, sp := StoreDown(n, sp, 0, m, stack, [] + [threadEnd] + [entry] + [0] + [0] + [0] + [0]);
    n, sp := StoreDown(n, sp, 0, m, stack, [] + [threadEnd] + [entry] + [0] + [0] + [0] + [0] + [0]);
    n, sp := StoreDown(n, sp, thp, m, stack, [] + [threadEnd] + [entry] + [0] + [0] + [0] + [0] + [0] + [0]);
    assert [] + [threadEnd] + [entry] + [0] + [0] + [0] + [0] + [0] + [0] + [thp]
        == StackWords(threadEnd, StartRegs(thp, threadInit, priority, stack));
  }

  lemma PushNone(m: Memory, top: int)
    ensures PushAll(m, top, []) == m
  {
  }

  /** `*(--sp) = w`; the ghost arguments say what has been stored below `top`. */
  method StoreDown(m: Memory, sp: int, w: Word, ghost m0: Memory, ghost top: int, ghost ws: seq<Word>)
    returns (n: Memory, sp': int)
    requires sp == top - 4 * |ws| && m == PushAll(m0, top, ws)
    ensures sp' == sp - 4 && n == PushAll(m0, top, ws + [w])
  {
    sp' := sp - 4;
    n := Store(m, sp', w);
    PushMore(m0, top, ws, w);
  }
}
