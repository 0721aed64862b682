/**
 The kernel of kozos.c with its pointers.  `threads`, `readyque` and `msgboxes` are the static arrays
 of structures; a pointer to a TCB is its index in `threads`, since no other TCB exists; message
 buffers and parameter blocks live at addresses of a memory that holds what is allocated, so that
 every access below is also an access to allocated memory.  Each method has the statements of the
 C function it is named after and is proved to do to `abs` what the function of `KernelSpec` does.
 */
module KernelHeap {
  import opened Prelude
  import Spec = KernelSpec
  import opened KernelSpec
  import opened KernelInvariant
  import opened KernelStacks

  /** `kz_thread`; `next` links a ready queue. */
  datatype KzThread = KzThread(
    next: Option<Tid>, priority: Pri, ready: bool, stack: int,
    func: int, argc: int, argv: int,
    call: Option<Call>, param: Option<int>,
    sp: int)

  const ZERO_THREAD := KzThread(None, 0, false, 0, 0, 0, 0, None, None, 0)

  datatype ReadyQueue = ReadyQueue(head: Option<Tid>, tail: Option<Tid>)

  /** `kz_msgbuf`; `next` links a mailbox. */
  datatype KzMsgBuf = KzMsgBuf(next: Option<int>, sender: Option<Tid>, size: int, p: int)

  datatype KzMsgBox = KzMsgBox(receiver: Option<Tid>, head: Option<int>, tail: Option<int>)

  // ---------------------------------------------------------------- representation, on values

  type Threads = s: seq<KzThread> | |s| == 16 witness seq(16, _ => ZERO_THREAD)
  type ReadyQueues = s: seq<ReadyQueue> | |s| == 16 witness seq(16, _ => ReadyQueue(None, None))
  type MsgBoxes = s: seq<KzMsgBox> | |s| == 17 witness seq(17, _ => KzMsgBox(None, None, None))

  /** `q` is the `next` chain from `r.head` to `r.tail`. */
  ghost predicate QueueLinked(threads: Threads, r: ReadyQueue, q: seq<Tid>) {
    && (q == [] ==> r == ReadyQueue(None, None))
    && (q != [] ==> r == ReadyQueue(Some(q[0]), Some(q[|q| - 1])) && threads[q[|q| - 1]].next == None)
    && (forall i, j | 0 <= i < |q| && 0 <= j < |q| :: j == i + 1 ==> threads[q[i]].next == Some(q[j]))
  }

  /** The queues are linked, hold ready threads of their priority once, and link nothing else. */
  ghost predicate QueuesRep(threads: Threads, rq: ReadyQueues, queues: Queues, tcbs: Tcbs) {
    && (forall p: Pri :: QueueLinked(threads, rq[p], queues[p]))
    && (forall p: Pri :: NoDup(queues[p]))
    && (forall p: Pri, t: Tid :: t in queues[p] ==> tcbs[t].ready && tcbs[t].priority == p)
    && (forall t: Tid :: !threads[t].ready ==> threads[t].next == None)
  }

  ghost predicate TcbRep(th: KzThread, blocks: map<int, Block>, tcb: Tcb) {
    && th.priority == tcb.priority && th.ready == tcb.ready && th.stack == tcb.stack
    && th.func == tcb.func && th.argc == tcb.argc && th.argv == tcb.argv && th.call == tcb.call && th.sp == tcb.sp
    && (th.param.Some? ==> th.param.value in blocks && blocks[th.param.value].at == th.param.value)
    && tcb.param == if th.param.Some? then Some(blocks[th.param.value]) else None
  }

  /** Each TCB holds what `tcbs` says, and no two threads pass the same parameter block. */
  ghost predicate ThreadsRep(threads: Threads, blocks: map<int, Block>, tcbs: Tcbs) {
    && (forall t: Tid :: TcbRep(threads[t], blocks, tcbs[t]))
    && (forall t: Tid, u: Tid :: t != u && threads[t].param.Some? ==> threads[t].param != threads[u].param)
  }

  ghost predicate Carries(bufs: map<int, KzMsgBuf>, m: Msg) {
    m.addr in bufs && bufs[m.addr].sender == m.sender && bufs[m.addr].size == m.size && bufs[m.addr].p == m.p
  }

  /** `msgs` are the buffers on the `next` chain from `head` to `tail`. */
  ghost predicate BoxLinked(bufs: map<int, KzMsgBuf>, x: KzMsgBox, msgs: seq<Msg>) {
    && (forall i :: 0 <= i < |msgs| ==> Carries(bufs, msgs[i]))
    && (msgs == [] ==> x.head == None && x.tail == None)
    && (msgs != [] ==> x.head == Some(msgs[0].addr) && x.tail == Some(msgs[|msgs| - 1].addr)
                       && bufs[msgs[|msgs| - 1].addr].next == None)
    && (forall i, j | 0 <= i < |msgs| && 0 <= j < |msgs| :: j == i + 1 ==> bufs[msgs[i].addr].next == Some(msgs[j].addr))
  }

  /** The mailboxes are linked, and the memory in use is exactly the linked buffers, each once. */
  ghost predicate BoxesRep(boxes: MsgBoxes, bufs: map<int, KzMsgBuf>, absBoxes: Boxes, heap: set<int>) {
    && (forall b: BoxId :: boxes[b].receiver == absBoxes[b].receiver)
    && (forall b: BoxId :: BoxLinked(bufs, boxes[b], absBoxes[b].msgs))
    && bufs.Keys == heap
    && HeapOk(absBoxes, heap)
  }

  // ---------------------------------------------------------------- ready queues, on values

  lemma AfterAt(q: seq<Tid>, i: nat)
    requires i < |q| && NoDup(q)
    ensures Successors(q, q[i]) == q[i + 1..]
  {
    if i > 0 {
      AfterAt(q[1..], i - 1);
    }
  }

  /** If the current thread is ready it stands in the queue of its priority. */
  ghost predicate InOwnQueue(k: State) {
    k.current.Some? && k.tcbs[k.current.value].ready ==>
      k.current.value in k.queues[k.tcbs[k.current.value].priority]
  }

  /** Moving the head pointer to the successor of `t`, wherever `t` stands. */
  lemma PopRep(threads: Threads, rq: ReadyQueues, k: State, t: Tid, threads': Threads, rq': ReadyQueues)
    requires QueuesRep(threads, rq, k.queues, k.tcbs) && k.current == Some(t) && k.tcbs[t].ready && InOwnQueue(k)
    requires forall u: Tid :: threads[u].ready == k.tcbs[u].ready
    requires var p := k.tcbs[t].priority;
             rq' == rq[p := ReadyQueue(threads[t].next, if threads[t].next == None then None else rq[p].tail)]
    requires threads' == threads[t := threads[t].(ready := false, next := None)]
    ensures var r := Spec.GetCurrent(k); QueuesRep(threads', rq', r.queues, r.tcbs)
  {
    var p := k.tcbs[t].priority;
    var q := k.queues[p];
    var i :| 0 <= i < |q| && q[i] == t;
    AfterAt(q, i);
    var r := Spec.GetCurrent(k);
    assert r.queues[p] == q[i + 1..];
    assert i + 1 < |q| ==> threads[t].next == Some(q[i + 1]);
    assert t !in r.queues[p];
    forall o: Pri | true
      ensures QueueLinked(threads', rq'[o], r.queues[o])
    {
      assert QueueLinked(threads, rq[o], k.queues[o]);
    }
  }

  /** Linking `t` behind the tail of its queue, or as the head of an empty one. */
  lemma PushRep(threads: Threads, rq: ReadyQueues, k: State, t: Tid, threads': Threads, rq': ReadyQueues)
    requires QueuesRep(threads, rq, k.queues, k.tcbs) && k.current == Some(t) && !k.tcbs[t].ready
    requires forall u: Tid :: threads[u].ready == k.tcbs[u].ready
    requires var p := k.tcbs[t].priority;
             rq' == rq[p := ReadyQueue(if rq[p].tail == None then Some(t) else rq[p].head, Some(t))]
    requires var p := k.tcbs[t].priority;
             var l := if rq[p].tail == None then threads
                      else threads[rq[p].tail.value := threads[rq[p].tail.value].(next := Some(t))];
             threads' == l[t := l[t].(ready := true)]
    ensures var r := Spec.PutCurrent(k); QueuesRep(threads', rq', r.queues, r.tcbs)
  {
    var p := k.tcbs[t].priority;
    var q := k.queues[p];
    var r := Spec.PutCurrent(k);
    assert QueueLinked(threads, rq[p], q);
    assert t !in q;
    forall o: Pri | true
      ensures QueueLinked(threads', rq'[o], r.queues[o])
    {
      assert QueueLinked(threads, rq[o], k.queues[o]);
    }
    assert NoDup(r.queues[p]);
  }

  // ---------------------------------------------------------------- mailboxes, on values

  /** What `sendmsg` leaves in memory: the new buffer, linked behind the tail if there is one. */
  function WithLast(bufs: map<int, KzMsgBuf>, tail: Option<int>, addr: int, mp: KzMsgBuf): (r: map<int, KzMsgBuf>)
    requires tail.Some? ==> tail.value in bufs
  {
    if tail.Some? then bufs[addr := mp][tail.value := bufs[addr := mp][tail.value].(next := Some(addr))]
    else bufs[addr := mp]
  }

  lemma TailAllocated(boxes: MsgBoxes, bufs: map<int, KzMsgBuf>, k: State, b: BoxId)
    requires BoxesRep(boxes, bufs, k.boxes, k.heap)
    ensures boxes[b].tail.Some? ==> boxes[b].tail.value in bufs
    ensures k.boxes[b].msgs == [] <==> boxes[b].tail == None
    ensures k.boxes[b].msgs == [] <==> boxes[b].head == None
  {
    assert BoxLinked(bufs, boxes[b], k.boxes[b].msgs);
  }

  /** Two messages of a box are stored at different addresses. */
  lemma Distinct(k: State, b: BoxId)
    requires HeapOk(k.boxes, k.heap)
    ensures forall i, j :: 0 <= i < j < |k.boxes[b].msgs| ==> k.boxes[b].msgs[i].addr != k.boxes[b].msgs[j].addr
  {
    var msgs := k.boxes[b].msgs;
    assert forall i :: 0 <= i < |msgs| ==> Stored(k.boxes, b, i, msgs[i].addr);
  }

  lemma SendRep(boxes: MsgBoxes, bufs: map<int, KzMsgBuf>, k: State,
                b: BoxId, sender: Option<Tid>, size: int, p: int, addr: int,
                boxes': MsgBoxes, bufs': map<int, KzMsgBuf>)
    requires BoxesRep(boxes, bufs, k.boxes, k.heap) && addr !in bufs
    requires boxes[b].tail.Some? ==> boxes[b].tail.value in bufs
    requires bufs' == WithLast(bufs, boxes[b].tail, addr, KzMsgBuf(None, sender, size, p))
    requires boxes' == boxes[b := KzMsgBox(boxes[b].receiver, if boxes[b].tail == None then Some(addr) else boxes[b].head,
                                           Some(addr))]
    ensures var r := Spec.SendMsg(k, b, sender, size, p, addr); BoxesRep(boxes', bufs', r.boxes, r.heap)
  {
    hide BoxLinked;
    var r := Spec.SendMsg(k, b, sender, size, p, addr);
    SendMsgHeap(k, b, sender, size, p, addr);
    TailAllocated(boxes, bufs, k, b);
    assert BoxLinked(bufs, boxes[b], k.boxes[b].msgs);
    Distinct(k, b);
    ChainAppend(bufs, boxes[b], k.boxes[b].msgs, addr, KzMsgBuf(None, sender, size, p));
    forall c: BoxId | c != b
      ensures BoxLinked(bufs', boxes'[c], r.boxes[c].msgs)
    {
      SendElsewhereRep(boxes, bufs, k, b, addr, KzMsgBuf(None, sender, size, p), c);
    }
  }

  /** Other boxes do not notice that a buffer is linked to `b`. */
  lemma SendElsewhereRep(boxes: MsgBoxes, bufs: map<int, KzMsgBuf>, k: State,
                         b: BoxId, addr: int, mp: KzMsgBuf, c: BoxId)
    requires BoxesRep(boxes, bufs, k.boxes, k.heap) && addr !in bufs && c != b
    requires boxes[b].tail.Some? ==> boxes[b].tail.value in bufs
    ensures BoxLinked(WithLast(bufs, boxes[b].tail, addr, mp), boxes[c], k.boxes[c].msgs)
  {
    var bufs' := WithLast(bufs, boxes[b].tail, addr, mp);
    var msgs := k.boxes[c].msgs;
    assert BoxLinked(bufs, boxes[c], msgs) && BoxLinked(bufs, boxes[b], k.boxes[b].msgs);
    forall i | 0 <= i < |msgs|
      ensures msgs[i].addr in bufs' && bufs'[msgs[i].addr] == bufs[msgs[i].addr]
    {
      assert Carries(bufs, msgs[i]) && Stored(k.boxes, c, i, msgs[i].addr);
      assert boxes[b].tail.Some? ==> Stored(k.boxes, b, |k.boxes[b].msgs| - 1, boxes[b].tail.value);
    }
    ChainFrame(bufs, boxes[c], msgs, bufs');
  }

  /** A chain whose buffers are untouched is still that chain. */
  lemma ChainFrame(bufs: map<int, KzMsgBuf>, x: KzMsgBox, msgs: seq<Msg>, bufs': map<int, KzMsgBuf>)
    requires BoxLinked(bufs, x, msgs)
    requires forall i :: 0 <= i < |msgs| ==> msgs[i].addr in bufs' && bufs'[msgs[i].addr] == bufs[msgs[i].addr]
    ensures BoxLinked(bufs', x, msgs)
  {
  }

  /** The chain of a box with one more buffer behind its last. */
  lemma ChainAppend(bufs: map<int, KzMsgBuf>, x: KzMsgBox, msgs: seq<Msg>, addr: int, mp: KzMsgBuf)
    requires BoxLinked(bufs, x, msgs) && addr !in bufs && mp.next == None
    requires forall i, j :: 0 <= i < j < |msgs| ==> msgs[i].addr != msgs[j].addr
    ensures x.tail.Some? ==> x.tail.value in bufs
    ensures BoxLinked(WithLast(bufs, x.tail, addr, mp),
                      x.(head := if x.tail == None then Some(addr) else x.head, tail := Some(addr)),
                      msgs + [Msg(addr, mp.sender, mp.size, mp.p)])
  {
    var bufs' := WithLast(bufs, x.tail, addr, mp);
    var r := msgs + [Msg(addr, mp.sender, mp.size, mp.p)];
    var n := |msgs|;
    assert r[n].addr == addr;
    forall i | 0 <= i < |r|
      ensures Carries(bufs', r[i])
    {
      assert i < n ==> r[i] == msgs[i] && Carries(bufs, msgs[i]);
    }
    forall i, j | 0 <= i < |r| && 0 <= j < |r| && j == i + 1
      ensures bufs'[r[i].addr].next == Some(r[j].addr)
    {
      if j < n {
        assert bufs[msgs[i].addr].next == Some(msgs[j].addr);
        assert msgs[i].addr != msgs[n - 1].addr;
      }
    }
  }

  /** What `recvmsg` leaves of a mailbox, and in memory once the buffer is freed. */
  lemma RecvRep(boxes: MsgBoxes, bufs: map<int, KzMsgBuf>, k: State, b: BoxId, boxes': MsgBoxes, bufs': map<int, KzMsgBuf>)
    requires BoxesRep(boxes, bufs, k.boxes, k.heap) && k.boxes[b].receiver.Some? && k.boxes[b].msgs != []
    requires boxes[b].head.Some? && boxes[b].head.value in bufs
    requires var n := bufs[boxes[b].head.value].next;
             boxes' == boxes[b := KzMsgBox(None, n, if n == None then None else boxes[b].tail)]
    requires bufs' == bufs - {boxes[b].head.value}
    ensures var r := Spec.RecvMsg(k, b); BoxesRep(boxes', bufs', r.boxes, r.heap)
  {
    hide BoxLinked;
    var r := Spec.RecvMsg(k, b);
    RecvMsgHeap(k, b);
    HeadStored(boxes, bufs, k, b);
    Distinct(k, b);
    ChainPop(bufs, boxes[b], k.boxes[b].msgs);
    forall c: BoxId | c != b
      ensures BoxLinked(bufs', boxes'[c], r.boxes[c].msgs)
    {
      RecvElsewhereRep(boxes, bufs, k, b, c);
    }
  }

  /** The chain of a box without its first buffer. */
  lemma ChainPop(bufs: map<int, KzMsgBuf>, x: KzMsgBox, msgs: seq<Msg>)
    requires BoxLinked(bufs, x, msgs) && msgs != [] && x.head.Some? && x.head.value in bufs
    requires forall i, j :: 0 <= i < j < |msgs| ==> msgs[i].addr != msgs[j].addr
    ensures var n := bufs[x.head.value].next;
            BoxLinked(bufs - {x.head.value}, KzMsgBox(None, n, if n == None then None else x.tail), msgs[1..])
  {
    var bufs', r := bufs - {x.head.value}, msgs[1..];
    forall i | 0 <= i < |r|
      ensures Carries(bufs', r[i])
    {
      assert Carries(bufs, msgs[i + 1]) && msgs[i + 1].addr != msgs[0].addr;
    }
    forall i, j | 0 <= i < |r| && 0 <= j < |r| && j == i + 1
      ensures bufs'[r[i].addr].next == Some(r[j].addr)
    {
      assert Carries(bufs', r[i]) && bufs[msgs[i + 1].addr].next == Some(msgs[j + 1].addr);
    }
    if r != [] {
      assert Carries(bufs', r[|r| - 1]);
      assert bufs[msgs[0].addr].next == Some(msgs[1].addr);
    }
  }

  /** Other boxes do not notice that the first buffer of `b` is freed. */
  lemma RecvElsewhereRep(boxes: MsgBoxes, bufs: map<int, KzMsgBuf>, k: State, b: BoxId, c: BoxId)
    requires BoxesRep(boxes, bufs, k.boxes, k.heap) && k.boxes[b].msgs != [] && c != b
    ensures BoxLinked(bufs - {k.boxes[b].msgs[0].addr}, boxes[c], k.boxes[c].msgs)
  {
    var msgs, a := k.boxes[c].msgs, k.boxes[b].msgs[0].addr;
    assert BoxLinked(bufs, boxes[c], msgs) && Stored(k.boxes, b, 0, a);
    forall i | 0 <= i < |msgs|
      ensures msgs[i].addr in bufs - {a}
    {
      assert Carries(bufs, msgs[i]) && Stored(k.boxes, c, i, msgs[i].addr);
    }
    ChainFrame(bufs, boxes[c], msgs, bufs - {a});
  }

  lemma HeadStored(boxes: MsgBoxes, bufs: map<int, KzMsgBuf>, k: State, b: BoxId)
    requires BoxesRep(boxes, bufs, k.boxes, k.heap) && k.boxes[b].msgs != []
    ensures BoxLinked(bufs, boxes[b], k.boxes[b].msgs) && boxes[b].head == Some(k.boxes[b].msgs[0].addr)
  {
    assert BoxLinked(bufs, boxes[b], k.boxes[b].msgs);
  }

  // ---------------------------------------------------------------- TCBs, on values

  lemma Fields(threads: Threads, blocks: map<int, Block>, k: State, t: Tid)
    requires ThreadsRep(threads, blocks, k.tcbs)
    ensures TcbRep(threads[t], blocks, k.tcbs[t])
    ensures forall u: Tid :: threads[u].ready == k.tcbs[u].ready
  {
  }

  /** Scheduling changes links and ready flags only. */
  lemma FlagRep(threads: Threads, blocks: map<int, Block>, k: State, t: Tid, threads': Threads, r: State)
    requires ThreadsRep(threads, blocks, k.tcbs)
    requires forall u: Tid :: threads'[u] == threads[u].(next := threads'[u].next, ready := threads'[u].ready)
    requires forall u: Tid :: threads'[u].ready == if u == t then r.tcbs[t].ready else threads[u].ready
    requires r.tcbs == k.tcbs[t := k.tcbs[t].(ready := r.tcbs[t].ready)]
    ensures ThreadsRep(threads', blocks, r.tcbs)
  {
    forall u: Tid | true
      ensures TcbRep(threads'[u], blocks, r.tcbs[u])
    {
      assert TcbRep(threads[u], blocks, k.tcbs[u]);
    }
  }

  /** A live thread keeps its parameter block, whatever calls others make. */
  ghost predicate ParamsKept(a: Threads, b: Threads) {
    forall u: Tid :: a[u].func != 0 ==> b[u].func == a[u].func && b[u].param == a[u].param
  }

  function NewThread(c: Call, stackTop: int): (r: KzThread)
    requires c.Run? && 0 <= c.priority < PRIORITY_NUM
  {
    KzThread(None, c.priority, false, stackTop + c.stacksize, c.func, c.argc, c.argv, None, None,
             stackTop + c.stacksize - INITIAL_FRAME)
  }

  /** A free TCB is in no queue and has no parameter block, so it may be overwritten. */
  lemma InitRep(threads: Threads, rq: ReadyQueues, blocks: map<int, Block>, k: State, c: Call, i: Tid)
    requires ThreadsRep(threads, blocks, k.tcbs) && QueuesRep(threads, rq, k.queues, k.tcbs)
    requires FreeOk(k) && k.tcbs[i].func == 0 && c.Run? && 0 <= c.priority < PRIORITY_NUM
    ensures var threads' := threads[i := NewThread(c, k.stackTop)];
            var r := InitTcb(k, c, i);
            ThreadsRep(threads', blocks, r.tcbs) && QueuesRep(threads', rq, r.queues, r.tcbs)
            && ParamsKept(threads, threads')
  {
    var threads' := threads[i := NewThread(c, k.stackTop)];
    var r := InitTcb(k, c, i);
    Fields(threads, blocks, k, i);
    assert forall p: Pri :: i !in k.queues[p];
    forall u: Tid | true
      ensures TcbRep(threads'[u], blocks, r.tcbs[u])
    {
      assert TcbRep(threads[u], blocks, k.tcbs[u]);
    }
    QueueFrame(threads, rq, k, i, threads', r);
  }

  /** The queues do not notice a change of a TCB that is not ready. */
  lemma QueueFrame(threads: Threads, rq: ReadyQueues, k: State, t: Tid, threads': Threads, r: State)
    requires QueuesRep(threads, rq, k.queues, k.tcbs) && !k.tcbs[t].ready && r.queues == k.queues
    requires threads' == threads[t := threads'[t]] && threads'[t].next == None
    requires r.tcbs == k.tcbs[t := r.tcbs[t]]
    ensures QueuesRep(threads', rq, r.queues, r.tcbs)
  {
    assert forall p: Pri :: t !in k.queues[p];
    forall p: Pri | true
      ensures QueueLinked(threads', rq[p], r.queues[p])
    {
      assert QueueLinked(threads, rq[p], k.queues[p]);
    }
  }

  /** What `Spec.RecvMsg` leaves alone. */
  lemma RecvQueues(threads: Threads, rq: ReadyQueues, k: State, b: BoxId)
    requires QueuesRep(threads, rq, k.queues, k.tcbs) && k.boxes[b].receiver.Some? && k.boxes[b].msgs != []
    ensures var r := Spec.RecvMsg(k, b);
            QueuesRep(threads, rq, r.queues, r.tcbs)
            && r.current == k.current && r.handlers == k.handlers && r.stackTop == k.stackTop
  {
  }

  /** One TCB and its representation change together. */
  lemma OneTcbRep(threads: Threads, blocks: map<int, Block>, k: State, t: Tid, threads': Threads, r: State)
    requires ThreadsRep(threads, blocks, k.tcbs)
    requires threads' == threads[t := threads'[t]] && r.tcbs == k.tcbs[t := r.tcbs[t]]
    requires TcbRep(threads'[t], blocks, r.tcbs[t])
    requires threads'[t].param == None || threads'[t].param == threads[t].param
    ensures ThreadsRep(threads', blocks, r.tcbs)
  {
    forall u: Tid | true
      ensures TcbRep(threads'[u], blocks, r.tcbs[u])
    {
      assert TcbRep(threads[u], blocks, k.tcbs[u]);
    }
  }

  /** One parameter block and the TCB that passes it change together. */
  lemma OneBlockRep(threads: Threads, blocks: map<int, Block>, k: State, t: Tid, blk: Block, r: State)
    requires ThreadsRep(threads, blocks, k.tcbs) && threads[t].param == Some(blk.at)
    requires r.tcbs == k.tcbs[t := k.tcbs[t].(param := Some(blk))]
    ensures ThreadsRep(threads, blocks[blk.at := blk], r.tcbs)
  {
    forall u: Tid | true
      ensures TcbRep(threads[u], blocks[blk.at := blk], r.tcbs[u])
    {
      assert TcbRep(threads[u], blocks, k.tcbs[u]);
    }
  }

  /** The stores of `sendmsg`: buffer `mp` becomes the last of the chain. */
  method LinkLast(box: KzMsgBox, bufs: map<int, KzMsgBuf>, mp: int, buf: KzMsgBuf)
    returns (x: KzMsgBox, heap: map<int, KzMsgBuf>)
    requires box.tail.Some? ==> box.tail.value in bufs
    ensures heap == WithLast(bufs, box.tail, mp, buf)
    ensures x == KzMsgBox(box.receiver, if box.tail == None then Some(mp) else box.head, Some(mp))
  {
    x, heap := box, bufs[mp := buf];
    if x.tail.Some? {
      heap := heap[x.tail.value := heap[x.tail.value].(next := Some(mp))];
    } else {
      x := x.(head := Some(mp));
    }
    x := x.(tail := Some(mp));
  }

  /** The stores of `recvmsg`: the first buffer leaves the chain and is freed, no receiver waits. */
  method UnlinkFirst(box: KzMsgBox, bufs: map<int, KzMsgBuf>) returns (x: KzMsgBox, heap: map<int, KzMsgBuf>)
    requires box.head.Some? && box.head.value in bufs
    ensures heap == bufs - {box.head.value}
    ensures var n := bufs[box.head.value].next; x == KzMsgBox(None, n, if n == None then None else box.tail)
  {
    x, heap := box, bufs;
    var mp := x.head.value;
    x := x.(head := heap[mp].next);
    if x.head == None {
      x := x.(tail := None);
    }
    heap := heap[mp := heap[mp].(next := None)];
    x := x.(receiver := None);
    heap := heap - {mp};
  }

  // ---------------------------------------------------------------- the kernel

  class Kernel {
    const threads: array<KzThread>
    const readyque: array<ReadyQueue>
    const msgboxes: array<KzMsgBox>
    const handlers: array<Handler>
    var current: Option<Tid>
    var threadStack: int
    var bufs: map<int, KzMsgBuf>
    var blocks: map<int, Block>

    ghost var abs: State

    ghost predicate Tables() {
      threads.Length == 16 && readyque.Length == 16 && msgboxes.Length == 17 && handlers.Length == 6
    }

    ghost predicate Valid()
      reads this, threads, readyque, msgboxes, handlers
    {
      && Tables()
      && ThreadsRep(threads[..], blocks, abs.tcbs)
      && QueuesRep(threads[..], readyque[..], abs.queues, abs.tcbs)
      && BoxesRep(msgboxes[..], bufs, abs.boxes, abs.heap)
      && current == abs.current && handlers[..] == abs.handlers && threadStack == abs.stackTop
    }

    /** Takes `current` off its queue by moving the head pointer to its successor. */
    method GetCurrent() returns (r: int)
      requires Valid() && InOwnQueue(abs)
      modifies `abs, threads, readyque
      ensures Valid() && abs == Spec.GetCurrent(old(abs))
      ensures r == if current == None then -1 else if old(abs).tcbs[current.value].ready then 0 else 1
      ensures ParamsKept(old(threads[..]), threads[..])
    {
      if current == None {
        return -1;
      }
      var t := current.value;
      Fields(threads[..], blocks, abs, t);
      hide ThreadsRep, QueuesRep, BoxesRep;
      if !threads[t].ready {
        return 1;
      }
      ghost var ths, rqs := threads[..], readyque[..];
      var p := threads[t].priority;
      readyque[p] := readyque[p].(head := threads[t].next);
      if readyque[p].head == None {
        readyque[p] := readyque[p].(tail := None);
      }
      threads[t] := threads[t].(ready := false);
      threads[t] := threads[t].(next := None);
      PopRep(ths, rqs, abs, t, threads[..], readyque[..]);
      FlagRep(ths, blocks, abs, t, threads[..], Spec.GetCurrent(abs));
      abs := Spec.GetCurrent(abs);
      return 0;
    }

    /** Appends `current` to the queue of its priority. */
    method PutCurrent() returns (r: int)
      requires Valid()
      modifies `abs, threads, readyque
      ensures Valid() && abs == Spec.PutCurrent(old(abs))
      ensures r == if current == None then -1 else if old(abs).tcbs[current.value].ready then 1 else 0
      ensures ParamsKept(old(threads[..]), threads[..])
    {
      if current == None {
        return -1;
      }
      var t := current.value;
      Fields(threads[..], blocks, abs, t);
      hide ThreadsRep, QueuesRep, BoxesRep;
      if threads[t].ready {
        return 1;
      }
      ghost var ths, rqs := threads[..], readyque[..];
      var p := threads[t].priority;
      if readyque[p].tail.Some? {
        var l := readyque[p].tail.value;
        threads[l] := threads[l].(next := Some(t));
      } else {
        readyque[p] := readyque[p].(head := Some(t));
      }
      readyque[p] := readyque[p].(tail := Some(t));
      threads[t] := threads[t].(ready := true);
      PushRep(ths, rqs, abs, t, threads[..], readyque[..]);
      FlagRep(ths, blocks, abs, t, threads[..], Spec.PutCurrent(abs));
      abs := Spec.PutCurrent(abs);
      return 0;
    }

    // -------------------------------------------------------------- threads

    method ThreadRun(func: int, priority: Pri, stacksize: nat, argc: int, argv: int) returns (ret: Ret)
      requires Valid() && FreeOk(abs)
      modifies this, threads, readyque
      ensures Valid() && (abs, ret) == Spec.ThreadRun(old(abs), Run(func, priority, stacksize, argc, argv))
      ensures ParamsKept(old(threads[..]), threads[..])
    {
      hide ThreadsRep, QueuesRep, BoxesRep;
      ghost var c, k, ths := Run(func, priority, stacksize, argc, argv), abs, threads[..];
      var i := 0;
      while i < 16
        invariant 0 <= i <= 16
        invariant FirstFree(abs.tcbs, 0) == FirstFree(abs.tcbs, i)
        invariant Valid() && abs == k && threads[..] == ths
      {
        Fields(threads[..], blocks, abs, i);
        if threads[i].func == 0 {
          break;
        }
        i := i + 1;
      }
      if i == 16 {
        return Num(-1);
      }
      InitRep(threads[..], readyque[..], blocks, abs, c, i);
      threads[i] := ZERO_THREAD;
      threads[i] := threads[i].(priority := priority, func := func, argc := argc, argv := argv);
      threadStack := threadStack + stacksize;
      threads[i] := threads[i].(stack := threadStack, sp := threadStack - INITIAL_FRAME);
      assert threads[..] == ths[i := NewThread(c, k.stackTop)];
      abs := InitTcb(abs, c, i);
      var _ := PutCurrent();
      current := Some(i);
      abs := abs.(current := Some(i));
      var _ := PutCurrent();
      return Spec.Thread(current.value);
    }

    method ThreadExit()
      requires Valid() && current.Some? && !abs.tcbs[current.value].ready
      modifies `abs, threads
      ensures Valid() && abs == Spec.ThreadExit(old(abs))
    {
      hide ThreadsRep, QueuesRep, BoxesRep;
      ghost var ths, k := threads[..], abs;
      threads[current.value] := ZERO_THREAD;
      abs := Spec.ThreadExit(abs);
      OneTcbRep(ths, blocks, k, current.value, threads[..], abs);
      QueueFrame(ths, readyque[..], k, current.value, threads[..], abs);
    }

    method ThreadWakeup(id: Tid) returns (ret: Ret)
      requires Valid()
      modifies this, threads, readyque
      ensures Valid() && (abs, ret) == Spec.ThreadWakeup(old(abs), id)
      ensures ParamsKept(old(threads[..]), threads[..])
    {
      hide ThreadsRep, QueuesRep, BoxesRep;
      var _ := PutCurrent();
      current := Some(id);
      abs := abs.(current := Some(id));
      var _ := PutCurrent();
      return Num(0);
    }

    method ThreadGetId() returns (ret: Ret)
      requires Valid()
      modifies `abs, threads, readyque
      ensures Valid() && (abs, ret) == Spec.ThreadGetId(old(abs))
      ensures ParamsKept(old(threads[..]), threads[..])
    {
      var _ := PutCurrent();
      return if current.Some? then Spec.Thread(current.value) else Num(0);
    }

    method ThreadChPri(priority: int) returns (ret: Ret)
      requires Valid() && current.Some? && !abs.tcbs[current.value].ready && priority < PRIORITY_NUM
      modifies `abs, threads, readyque
      ensures Valid() && (abs, ret) == Spec.ThreadChPri(old(abs), priority)
      ensures ParamsKept(old(threads[..]), threads[..])
    {
      hide ThreadsRep, QueuesRep, BoxesRep;
      var t := current.value;
      Fields(threads[..], blocks, abs, t);
      var was := threads[t].priority;
      if priority >= 0 {
        ghost var ths, k := threads[..], abs;
        IdleNext(ths, readyque[..], k, t);
        threads[t] := threads[t].(priority := priority);
        abs := abs.(tcbs := abs.tcbs[t := abs.tcbs[t].(priority := priority)]);
        OneTcbRep(ths, blocks, k, t, threads[..], abs);
        QueueFrame(ths, readyque[..], k, t, threads[..], abs);
      }
      var _ := PutCurrent();
      return Num(was);
    }

    lemma IdleNext(threads: Threads, rq: ReadyQueues, k: State, t: Tid)
      requires QueuesRep(threads, rq, k.queues, k.tcbs) && !threads[t].ready
      ensures threads[t].next == None
    {
    }

    // -------------------------------------------------------------- messages

    /** Links a new buffer at the end of mailbox `b`; `alloc` is the answer of `kzmem_alloc`. */
    method SendMsg(b: BoxId, thp: Option<Tid>, size: int, p: int, alloc: Option<int>) returns (alive: bool)
      requires Valid() && (alloc.Some? ==> alloc.value !in abs.heap)
      modifies this, msgboxes
      ensures alive <==> alloc.Some?
      ensures alive ==> Valid() && abs == Spec.SendMsg(old(abs), b, thp, size, p, alloc.value)
      ensures current == old(current)
    {
      hide ThreadsRep, QueuesRep, BoxesRep;
      if alloc == None {
        return false;
      }
      LinkMsg(b, thp, size, p, alloc.value);
      abs := Spec.SendMsg(abs, b, thp, size, p, alloc.value);
      return true;
    }

    /** The stores of `sendmsg` into the new buffer `mp`, the old last buffer and the mailbox. */
    method LinkMsg(b: BoxId, thp: Option<Tid>, size: int, p: int, mp: int)
      requires Tables() && BoxesRep(msgboxes[..], bufs, abs.boxes, abs.heap) && mp !in abs.heap
      modifies `bufs, msgboxes
      ensures var r := Spec.SendMsg(abs, b, thp, size, p, mp); BoxesRep(msgboxes[..], bufs, r.boxes, r.heap)
    {
      hide BoxesRep;
      BoxKeys(msgboxes[..], bufs, abs);
      TailAllocated(msgboxes[..], bufs, abs, b);
      var x, heap := LinkLast(msgboxes[b], bufs, mp, KzMsgBuf(None, thp, size, p));
      SendRep(msgboxes[..], bufs, abs, b, thp, size, p, mp, msgboxes[..][b := x], heap);
      StoreBox(b, x, heap);
    }

    /** Writes a mailbox and the buffers back to memory. */
    method StoreBox(b: BoxId, x: KzMsgBox, heap: map<int, KzMsgBuf>)
      requires Tables()
      modifies `bufs, msgboxes
      ensures msgboxes[..] == old(msgboxes[..])[b := x] && bufs == heap
    {
      msgboxes[b] := x;
      bufs := heap;
    }

    lemma BoxKeys(boxes: MsgBoxes, bufs: map<int, KzMsgBuf>, k: State)
      requires BoxesRep(boxes, bufs, k.boxes, k.heap)
      ensures bufs.Keys == k.heap && forall b: BoxId :: boxes[b].receiver == k.boxes[b].receiver
    {
    }

    lemma HeadOf(boxes: MsgBoxes, bufs: map<int, KzMsgBuf>, k: State, b: BoxId)
      requires BoxesRep(boxes, bufs, k.boxes, k.heap) && k.boxes[b].msgs != []
      ensures boxes[b].head.Some? && boxes[b].head.value in bufs
      ensures boxes[b].head.value == k.boxes[b].msgs[0].addr && Carries(bufs, k.boxes[b].msgs[0])
      ensures boxes[b].receiver == k.boxes[b].receiver
    {
      assert BoxLinked(bufs, boxes[b], k.boxes[b].msgs);
    }

    /** Hands the first buffer of mailbox `b` to its receiver and frees it. */
    method RecvMsg(b: BoxId)
      requires Valid() && abs.boxes[b].msgs != []
      requires abs.boxes[b].receiver.Some? && abs.tcbs[abs.boxes[b].receiver.value].param.Some?
      modifies this, msgboxes
      ensures Valid() && abs == Spec.RecvMsg(old(abs), b) && current == old(current)
    {
      hide ThreadsRep, QueuesRep, BoxesRep, Spec.RecvMsg;
      ghost var m := abs.boxes[b].msgs[0];
      HeadOf(msgboxes[..], bufs, abs, b);
      Fields(threads[..], blocks, abs, abs.boxes[b].receiver.value);
      var x := msgboxes[b];
      var t, mp := x.receiver.value, bufs[x.head.value];
      var p := threads[t].param.value;
      assert mp.sender == m.sender && mp.size == m.size && mp.p == m.p;
      RecvQueues(threads[..], readyque[..], abs, b);
      UnlinkMsg(b);
      Fill(t, p, mp, b);
      abs := Spec.RecvMsg(abs, b);
    }

    /** The stores of `recvmsg` into the mailbox and its first buffer, which is freed. */
    method UnlinkMsg(b: BoxId)
      requires Tables() && BoxesRep(msgboxes[..], bufs, abs.boxes, abs.heap)
      requires abs.boxes[b].msgs != [] && abs.boxes[b].receiver.Some?
      modifies `bufs, msgboxes
      ensures var r := Spec.RecvMsg(abs, b); BoxesRep(msgboxes[..], bufs, r.boxes, r.heap)
    {
      hide BoxesRep, Spec.RecvMsg;
      HeadOf(msgboxes[..], bufs, abs, b);
      var x, heap := UnlinkFirst(msgboxes[b], bufs);
      assert msgboxes[..][b] == msgboxes[b];
      RecvRep(msgboxes[..], bufs, abs, b, msgboxes[..][b := x], heap);
      StoreBox(b, x, heap);
    }

    /** The three stores of `recvmsg` into the receiver's parameter block. */
    method Fill(t: Tid, p: int, mp: KzMsgBuf, ghost b: BoxId)
      requires Tables() && ThreadsRep(threads[..], blocks, abs.tcbs) && threads[t].param == Some(p) && p in blocks
      requires abs.boxes[b].receiver == Some(t) && abs.boxes[b].msgs != []
      requires var m := abs.boxes[b].msgs[0]; m.sender == mp.sender && m.size == mp.size && m.p == mp.p
      modifies `blocks
      ensures ThreadsRep(threads[..], blocks, Spec.RecvMsg(abs, b).tcbs)
    {
      Fields(threads[..], blocks, abs, t);
      var blk := blocks[p];
      blk := blk.(ret := if mp.sender.Some? then Spec.Thread(mp.sender.value) else Num(0));
      var c := threads[t].call;
      if !(c.Some? && c.value.Recv? && c.value.sizep == None) {
        blk := blk.(size := mp.size);
      }
      if !(c.Some? && c.value.Recv? && c.value.pp == None) {
        blk := blk.(p := mp.p);
      }
      OneBlockRep(threads[..], blocks, abs, t, blk, Spec.RecvMsg(abs, b));
      blocks := blocks[p := blk];
    }

    /** Whoever waits at box `b` passed a parameter block. */
    ghost predicate CanDeliver(k: State, b: BoxId) {
      k.boxes[b].receiver.Some? ==> k.tcbs[k.boxes[b].receiver.value].param.Some?
    }

    method ThreadSend(b: BoxId, size: int, p: int, alloc: Option<int>) returns (alive: bool, ret: Ret)
      requires Valid() && CanDeliver(abs, b) && (alloc.Some? ==> alloc.value !in abs.heap)
      modifies this, threads, readyque, msgboxes
      ensures alive <==> Spec.ThreadSend(old(abs), b, size, p, alloc).Up?
      ensures alive ==> Valid() && Up((abs, ret)) == Spec.ThreadSend(old(abs), b, size, p, alloc)
      ensures ParamsKept(old(threads[..]), threads[..])
    {
      hide ThreadsRep, QueuesRep, BoxesRep;
      var _ := PutCurrent();
      alive := SendMsg(b, current, size, p, alloc);
      if !alive {
        return false, Unset;
      }
      BoxReceiver(msgboxes[..], bufs, abs, b);
      if msgboxes[b].receiver.Some? {
        current := msgboxes[b].receiver;
        abs := abs.(current := current);
        RecvMsg(b);
        var _ := PutCurrent();
      }
      return true, Num(size);
    }

    lemma BoxReceiver(boxes: MsgBoxes, bufs: map<int, KzMsgBuf>, k: State, b: BoxId)
      requires BoxesRep(boxes, bufs, k.boxes, k.heap)
      ensures boxes[b].receiver == k.boxes[b].receiver && (boxes[b].head == None <==> k.boxes[b].msgs == [])
    {
      TailAllocated(boxes, bufs, k, b);
    }

    method ThreadRecv(b: BoxId) returns (alive: bool, ret: Ret)
      requires Valid() && current.Some? && abs.tcbs[current.value].param.Some?
      modifies this, threads, readyque, msgboxes
      ensures alive <==> Spec.ThreadRecv(old(abs), b).Up?
      ensures alive ==> Valid() && Up((abs, ret)) == Spec.ThreadRecv(old(abs), b)
      ensures ParamsKept(old(threads[..]), threads[..])
    {
      hide ThreadsRep, QueuesRep, BoxesRep;
      BoxReceiver(msgboxes[..], bufs, abs, b);
      if msgboxes[b].receiver.Some? {
        return false, Unset;
      }
      Register(b);
      BoxReceiver(msgboxes[..], bufs, abs, b);
      if msgboxes[b].head == None {
        return true, Num(-1);
      }
      RecvMsg(b);
      var _ := PutCurrent();
      Fields(threads[..], blocks, abs, current.value);
      return true, blocks[threads[current.value].param.value].ret;
    }

    /** `mboxp->receiver = current`. */
    method Register(b: BoxId)
      requires Valid() && current.Some?
      modifies `abs, msgboxes
      ensures Valid() && abs == old(abs).(boxes := old(abs).boxes[b := old(abs).boxes[b].(receiver := current)])
    {
      hide ThreadsRep, QueuesRep, BoxesRep;
      ghost var xs, k := msgboxes[..], abs;
      msgboxes[b] := msgboxes[b].(receiver := current);
      abs := abs.(boxes := abs.boxes[b := abs.boxes[b].(receiver := current)]);
      RegisterRep(xs, bufs, k, b, current, msgboxes[..], abs);
    }

    lemma RegisterRep(boxes: MsgBoxes, bufs: map<int, KzMsgBuf>, k: State, b: BoxId, c: Option<Tid>,
                      boxes': MsgBoxes, r: State)
      requires BoxesRep(boxes, bufs, k.boxes, k.heap) && boxes' == boxes[b := boxes[b].(receiver := c)]
      requires r.boxes == k.boxes[b := k.boxes[b].(receiver := c)] && r.heap == k.heap
      ensures BoxesRep(boxes', bufs, r.boxes, r.heap)
    {
      forall x: BoxId | true
        ensures BoxLinked(bufs, boxes'[x], r.boxes[x].msgs)
      {
        assert BoxLinked(bufs, boxes[x], k.boxes[x].msgs);
      }
      assert forall x, i, a :: Stored(r.boxes, x, i, a) <==> Stored(k.boxes, x, i, a);
    }

    method ThreadSetIntr(kind: nat, h: Handler) returns (ret: Ret)
      requires Valid() && kind < SOFTVEC_TYPE_NUM
      modifies this, threads, readyque, handlers
      ensures Valid() && (abs, ret) == Spec.ThreadSetIntr(old(abs), kind, h)
      ensures ParamsKept(old(threads[..]), threads[..])
    {
      hide ThreadsRep, QueuesRep, BoxesRep;
      ghost var hs := handlers[..];
      handlers[kind] := h;
      assert handlers[..] == hs[kind := h];
      abs := abs.(handlers := abs.handlers[kind := h]);
      var _ := PutCurrent();
      return Num(0);
    }

    // -------------------------------------------------------------- kernel entries

    /** What the handlers rely on without checking it, from the invariant and the caller's obligations. */
    lemma CallNeeds(k: State, c: Call, alloc: Option<int>)
      requires Core(k) && CallLegal(k, c, alloc) && CurrentFree(k) && (Caller(k, c) || SrvKind(c))
      ensures CallOk(k, c) && FreeOk(k)
      ensures c.Exit? || c.ChPri? || c.Recv? ==> k.current.Some? && !k.tcbs[k.current.value].ready
      ensures c.Recv? ==> k.tcbs[k.current.value].param.Some?
      ensures c.Send? ==> c.to < MSGBOX_ID_NUM && CanDeliver(k, c.to) && (alloc.Some? ==> alloc.value !in k.heap)
    {
      CallCore(k, c, alloc);
      if c.Send? && k.boxes[c.to].receiver.Some? {
        var t := k.boxes[c.to].receiver.value;
        assert Waits(k, t, c.to) && Blocked(k, t, c.to);
      }
    }

    method CallFunctions(c: Call, alloc: Option<int>) returns (alive: bool, ret: Ret)
      requires Valid() && Core(abs) && CallLegal(abs, c, alloc) && CurrentFree(abs) && (Caller(abs, c) || SrvKind(c))
      modifies this, threads, readyque, msgboxes, handlers
      ensures CallOk(old(abs), c)
      ensures alive <==> Spec.CallFunctions(old(abs), c, alloc).Up?
      ensures alive ==> Valid() && Up((abs, ret)) == Spec.CallFunctions(old(abs), c, alloc)
      ensures c.Exit? || ParamsKept(old(threads[..]), threads[..])
    {
      hide ThreadsRep, QueuesRep, BoxesRep;
      CallNeeds(abs, c, alloc);
      hide Core, CurrentFree, Caller, CallLegal, CanDeliver, FreeOk;
      alive, ret := true, Unset;
      match c
      case Run(func, priority, stacksize, argc, argv) =>
        ret := ThreadRun(func, priority, stacksize, argc, argv);
      case Exit =>
        ThreadExit();
      case Wait =>
        var _ := PutCurrent();
        ret := Num(0);
      case Sleep =>
        ret := Num(0);
      case Wakeup(id) =>
        ret := ThreadWakeup(id);
      case GetId =>
        ret := ThreadGetId();
      case ChPri(priority) =>
        ret := ThreadChPri(priority);
      case KMalloc(_) =>
        var _ := PutCurrent();
        if alloc == None {
          return false, Unset;
        }
        ret := Num(alloc.value);
      case KMFree(_) =>
        if alloc == None {
          return false, Unset;
        }
        var _ := PutCurrent();
        ret := Num(0);
      case Send(b, size, p) =>
        alive, ret := ThreadSend(b, size, p, alloc);
      case Recv(b, _, _) =>
        alive, ret := ThreadRecv(b);
      case SetIntr(kind, h) =>
        ret := ThreadSetIntr(kind, UserHandler(h));
      case Unknown =>
    }

    /** Stores a return value in the parameter block that thread `t` passed. */
    method StoreRet(t: Tid, p: int, ret: Ret)
      requires Valid() && threads[t].param == Some(p)
      modifies `abs, `blocks
      ensures Valid() && abs == SetRet(old(abs), t, ret)
    {
      hide ThreadsRep, QueuesRep, BoxesRep;
      Fields(threads[..], blocks, abs, t);
      ghost var k := abs;
      OneBlockRep(threads[..], blocks, abs, t, blocks[p].(ret := ret), SetRet(abs, t, ret));
      SetRetQueues(threads[..], readyque[..], abs, t, ret);
      blocks := blocks[p := blocks[p].(ret := ret)];
      abs := SetRet(abs, t, ret);
    }

    lemma SetRetQueues(threads: Threads, rq: ReadyQueues, k: State, t: Tid, ret: Ret)
      requires QueuesRep(threads, rq, k.queues, k.tcbs)
      ensures QueuesRep(threads, rq, k.queues, SetRet(k, t, ret).tcbs)
    {
    }

    /** The obligations of a system call of the current thread, whose call and block are in its TCB. */
    ghost predicate SyscallReady(k: State, alloc: Option<int>) {
      && Core(k) && CurrentFree(k) && AtHead(k) && k.current.Some? && k.tcbs[k.current.value].call.Some?
      && CallLegal(k, k.tcbs[k.current.value].call.value, alloc)
      && (!k.tcbs[k.current.value].call.value.Exit? ==> k.tcbs[k.current.value].param.Some?)
    }

    /** What `syscall_proc` has when it calls the handler. */
    lemma SyscallNeeds(k: State, alloc: Option<int>)
      requires SyscallReady(k, alloc)
      ensures InOwnQueue(k) && Live(k, k.current.value)
      ensures var c, k1 := k.tcbs[k.current.value].call.value, Spec.GetCurrent(k);
              Core(k1) && CallLegal(k1, c, alloc) && CurrentFree(k1) && Caller(k1, c) && CallOk(k1, c)
      ensures Spec.GetCurrent(k).current == k.current
    {
      var c := k.tcbs[k.current.value].call.value;
      CallerCore(k, c, alloc);
      CallCore(Spec.GetCurrent(k), c, alloc);
    }

    method SyscallProc(alloc: Option<int>) returns (alive: bool)
      requires Valid() && SyscallReady(abs, alloc)
      modifies this, threads, readyque, msgboxes, handlers
      ensures CallOk(Spec.GetCurrent(old(abs)), old(abs).tcbs[old(abs).current.value].call.value)
      ensures alive <==> Spec.SyscallProc(old(abs), alloc).Up?
      ensures alive ==> Valid() && Up(abs) == Spec.SyscallProc(old(abs), alloc)
    {
      hide ThreadsRep, QueuesRep, BoxesRep;
      var t := current.value;
      Fields(threads[..], blocks, abs, t);
      SyscallNeeds(abs, alloc);
      hide Core, CurrentFree, CallLegal, AtHead, InOwnQueue, Caller, Spec.GetCurrent, CallOk;
      ghost var ths := threads[..];
      var c, p := threads[t].call.value, threads[t].param;
      var _ := GetCurrent();
      var ret;
      alive, ret := CallFunctions(c, alloc);
      if !alive {
        return;
      }
      if StoresRet(c) {
        assert threads[..][t].param == ths[t].param;
        StoreRet(t, p.value, ret);
      }
    }

    method SrvcallProc(c: Call, alloc: Option<int>) returns (alive: bool, ret: Ret)
      requires Valid() && Core(abs) && SrvKind(c) && CallLegal(abs, c, alloc)
      modifies this, threads, readyque, msgboxes, handlers
      ensures CallOk(old(abs).(current := None), c)
      ensures alive <==> Spec.SrvcallProc(old(abs), c, alloc).Up?
      ensures alive ==> Valid() && Up((abs, ret)) == Spec.SrvcallProc(old(abs), c, alloc) && Core(abs)
    {
      hide ThreadsRep, QueuesRep, BoxesRep;
      SrvNeeds(abs, c, alloc);
      hide Core, CurrentFree, CallLegal;
      current := None;
      abs := abs.(current := None);
      alive, ret := CallFunctions(c, alloc);
    }

    lemma SrvNeeds(k: State, c: Call, alloc: Option<int>)
      requires Core(k) && SrvKind(c) && CallLegal(k, c, alloc)
      ensures var k1 := k.(current := None);
              Core(k1) && CurrentFree(k1) && CallLegal(k1, c, alloc) && CallOk(k1, c)
              && (Spec.CallFunctions(k1, c, alloc).Up? ==> Core(Spec.CallFunctions(k1, c, alloc).value.0))
    {
      var k1 := k.(current := None);
      RecurrentCore(k, None);
      SameReceivers(k, k1);
      CallCore(k1, c, alloc);
    }

    /** The service calls that a registered handler makes. */
    method UserHandlerCalls(calls: seq<SrvCall>) returns (alive: bool)
      requires Valid() && Core(abs) && SrvLegal(abs, calls)
      modifies this, threads, readyque, msgboxes, handlers
      ensures SrvOk(old(abs), calls)
      ensures alive <==> SrvCalls(old(abs), calls).Up?
      ensures alive ==> Valid() && Up(abs) == SrvCalls(old(abs), calls)
      decreases |calls|
    {
      hide ThreadsRep, QueuesRep, BoxesRep, Core, CallLegal;
      SrvCallsCore(abs, calls);
      if calls == [] {
        return true;
      }
      var ret;
      alive, ret := SrvcallProc(calls[0].call, calls[0].alloc);
      if alive {
        alive := UserHandlerCalls(calls[1..]);
      }
    }

    /** Makes the head of the first non-empty queue the current thread. */
    method Schedule() returns (alive: bool)
      requires Valid()
      modifies `abs, `current
      ensures alive <==> Spec.Schedule(old(abs)).Up?
      ensures alive ==> Valid() && Up(abs) == Spec.Schedule(old(abs))
    {
      hide ThreadsRep, QueuesRep, BoxesRep;
      var i := 0;
      while i < 16
        invariant 0 <= i <= 16
        invariant FirstNonEmpty(abs.queues, 0) == FirstNonEmpty(abs.queues, i)
        invariant Valid() && abs == old(abs)
      {
        HeadIs(threads[..], readyque[..], abs, i);
        if readyque[i].head.Some? {
          break;
        }
        i := i + 1;
      }
      if i == 16 {
        return false;
      }
      HeadIs(threads[..], readyque[..], abs, i);
      current := readyque[i].head;
      abs := abs.(current := current);
      return true;
    }

    lemma HeadIs(threads: Threads, rq: ReadyQueues, k: State, p: Pri)
      requires QueuesRep(threads, rq, k.queues, k.tcbs)
      ensures rq[p].head == if k.queues[p] == [] then None else Some(k.queues[p][0])
    {
      assert QueueLinked(threads, rq[p], k.queues[p]);
    }

    method SoftErrIntr()
      requires Valid() && Core(abs) && CurrentFree(abs) && AtHead(abs) && abs.current.Some?
      modifies `abs, threads, readyque
      ensures Valid() && abs == SoftErr(old(abs))
    {
      hide ThreadsRep, QueuesRep, BoxesRep;
      GetCurrentCore(abs);
      HeadInQueue(abs);
      hide Core, CurrentFree, AtHead, InOwnQueue;
      var _ := GetCurrent();
      ThreadExit();
    }

    lemma HeadInQueue(k: State)
      requires AtHead(k)
      ensures InOwnQueue(k)
    {
    }

    /** What the handler of vector `kind` needs of the state in which it starts. */
    ghost predicate HandlerReady(k: State, kind: nat, calls: seq<SrvCall>, alloc: Option<int>) {
      && Core(k) && CurrentFree(k) && AtHead(k) && k.current.Some? && kind < SOFTVEC_TYPE_NUM
      && match k.handlers[kind]
         case NoHandler => true
         case SyscallIntr => SyscallReady(k, alloc)
         case SoftErrIntr => true
         case User(_) => SrvLegal(k, calls)
    }

    method CallHandler(kind: nat, calls: seq<SrvCall>, alloc: Option<int>) returns (alive: bool)
      requires Valid() && HandlerReady(abs, kind, calls, alloc)
      modifies this, threads, readyque, msgboxes, handlers
      ensures HandlerOk(old(abs), kind, calls)
      ensures alive <==> RunHandler(old(abs), kind, calls, alloc).Up?
      ensures alive ==> Valid() && Up(abs) == RunHandler(old(abs), kind, calls, alloc)
    {
      hide ThreadsRep, QueuesRep, BoxesRep, Core, CurrentFree, AtHead, SrvLegal;
      match handlers[kind]
      case NoHandler => return true;
      case SyscallIntr =>
        alive := SyscallProc(alloc);
      case SoftErrIntr() =>
        SoftErrIntr();
        return true;
      case User(_) =>
        alive := UserHandlerCalls(calls);
    }

    /** `thread_intr` up to its dispatch of `current`. */
    method ThreadIntr(kind: nat, sp: int, calls: seq<SrvCall>, alloc: Option<int>) returns (alive: bool)
      requires Valid() && abs.current.Some? && HandlerReady(SaveSp(abs, sp), kind, calls, alloc)
      modifies this, threads, readyque, msgboxes, handlers
      ensures HandlerOk(SaveSp(old(abs), sp), kind, calls)
      ensures alive <==> Spec.ThreadIntr(old(abs), kind, sp, calls, alloc).Up?
      ensures alive ==> Valid() && Up(abs) == Spec.ThreadIntr(old(abs), kind, sp, calls, alloc)
    {
      hide ThreadsRep, QueuesRep, BoxesRep, HandlerReady;
      StoreSp(sp);
      alive := CallHandler(kind, calls, alloc);
      if alive {
        alive := Schedule();
      }
    }

    /** `current->context.sp = sp`. */
    method StoreSp(sp: int)
      requires Valid() && abs.current.Some?
      modifies `abs, threads
      ensures Valid() && abs == SaveSp(old(abs), sp)
    {
      hide ThreadsRep, QueuesRep, BoxesRep;
      var t := current.value;
      Fields(threads[..], blocks, abs, t);
      ghost var ths, k := threads[..], abs;
      threads[t] := threads[t].(sp := sp);
      abs := SaveSp(abs, sp);
      OwnFieldRep(ths, readyque[..], blocks, blocks, k, t, threads[..], abs);
    }

    /** No other thread passes block `p`. */
    ghost predicate OwnBlock(threads: Threads, t: Tid, p: Option<int>) {
      forall u: Tid :: u != t && threads[u].param.Some? ==> threads[u].param != p
    }

    /** A thread's own call, block or stack pointer changes, the block to one that no other thread passes. */
    lemma OwnFieldRep(threads: Threads, rq: ReadyQueues, blocks: map<int, Block>, blocks': map<int, Block>,
                      k: State, t: Tid, threads': Threads, r: State)
      requires ThreadsRep(threads, blocks, k.tcbs) && QueuesRep(threads, rq, k.queues, k.tcbs)
      requires threads' == threads[t := threads'[t]] && r.tcbs == k.tcbs[t := r.tcbs[t]] && r.queues == k.queues
      requires threads'[t].next == threads[t].next && threads'[t].ready == threads[t].ready
      requires r.tcbs[t].priority == k.tcbs[t].priority && r.tcbs[t].ready == k.tcbs[t].ready
      requires threads'[t].param == threads[t].param || OwnBlock(threads, t, threads'[t].param)
      requires forall a :: a in blocks && Some(a) != threads'[t].param ==> a in blocks' && blocks'[a] == blocks[a]
      requires TcbRep(threads'[t], blocks', r.tcbs[t])
      ensures ThreadsRep(threads', blocks', r.tcbs) && QueuesRep(threads', rq, r.queues, r.tcbs)
    {
      forall u: Tid | true
        ensures TcbRep(threads'[u], blocks', r.tcbs[u])
      {
        assert TcbRep(threads[u], blocks, k.tcbs[u]);
        assert u != t ==> threads'[u] == threads[u] && r.tcbs[u] == k.tcbs[u];
        if u != t && threads[u].param.Some? {
          assert threads[u].param != threads[t].param;
          assert threads[u].param != threads'[t].param;
          var a := threads[u].param.value;
          assert a in blocks && Some(a) != threads'[t].param;
          assert a in blocks' && blocks'[a] == blocks[a];
        }
      }
      forall p: Pri | true
        ensures QueueLinked(threads', rq[p], r.queues[p])
      {
        assert QueueLinked(threads, rq[p], k.queues[p]);
      }
    }

    /** A block on a thread's own stack is passed by no other thread. */
    lemma OwnBlockRep(threads: Threads, blocks: map<int, Block>, k: State, t: Tid, c: Call, blk: Block)
      requires ThreadsRep(threads, blocks, k.tcbs) && Core(k) && Placed(k) && Live(k, t)
      requires c.Exit? || OnStack(k.tcbs[t], blk.at)
      ensures OwnBlock(threads, t, if c.Exit? then None else Some(blk.at))
    {
      hide Core, Placed;
      if !c.Exit? {
        forall u: Tid | u != t && threads[u].param.Some?
          ensures threads[u].param != Some(blk.at)
        {
          BlocksApart(k, t, u, blk.at);
          assert TcbRep(threads[u], blocks, k.tcbs[u]);
        }
      }
    }

    /** `kz_syscall` up to its trap: the running thread names its call and its parameter block. */
    method KzSyscall(c: Call, blk: Block)
      requires Valid() && Core(abs) && Placed(abs) && abs.current.Some? && Live(abs, abs.current.value)
      requires c.Exit? || OnStack(abs.tcbs[abs.current.value], blk.at)
      modifies `abs, `blocks, threads
      ensures Valid() && abs == SetCall(old(abs), c, blk)
    {
      hide ThreadsRep, QueuesRep, BoxesRep;
      var t := current.value;
      Fields(threads[..], blocks, abs, t);
      OwnBlockRep(threads[..], blocks, abs, t, c, blk);
      hide Core, Placed;
      ghost var ths, bs, k := threads[..], blocks, abs;
      threads[t] := threads[t].(call := Some(c), param := if c.Exit? then None else Some(blk.at));
      if !c.Exit? {
        blocks := blocks[blk.at := blk];
      }
      abs := SetCall(abs, c, blk);
      OwnFieldRep(ths, readyque[..], bs, blocks, k, t, threads[..], abs);
    }

    /** A system call of the running thread, from its trap to the next dispatch. */
    method Trap(c: Call, blk: Block, alloc: Option<int>, sp: int) returns (alive: bool)
      requires Valid() && Inv(abs) && Placed(abs)
      requires EntryLegal(abs, Spec.Trap(c, blk, alloc, sp)) && EntryPlaced(abs, Spec.Trap(c, blk, alloc, sp))
      modifies this, threads, readyque, msgboxes, handlers
      ensures alive <==> Next(old(abs), Spec.Trap(c, blk, alloc, sp)).Up?
      ensures alive ==> Valid() && Up(abs) == Next(old(abs), Spec.Trap(c, blk, alloc, sp)) && Inv(abs) && Placed(abs)
    {
      hide ThreadsRep, QueuesRep, BoxesRep;
      EntryReady(abs, Spec.Trap(c, blk, alloc, sp));
      PlacedNext(abs, Spec.Trap(c, blk, alloc, sp));
      RunningThread(abs);
      hide Inv, Core, EntryLegal, HandlerReady, Placed;
      KzSyscall(c, blk);
      alive := ThreadIntr(SOFTVEC_TYPE_SYSCALL, sp, [], alloc);
    }

    lemma PlacedNext(k: State, e: Entry)
      requires Inv(k) && Placed(k) && EntryLegal(k, e) && EntryPlaced(k, e)
      ensures Next(k, e).Up? ==> Placed(Next(k, e).value)
    {
      if Next(k, e).Up? {
        PlacedStep(k, e);
      }
    }

    /** Any other interrupt of the running thread, from its vector to the next dispatch. */
    method Interrupt(kind: nat, calls: seq<SrvCall>, sp: int) returns (alive: bool)
      requires Valid() && Inv(abs) && Placed(abs) && EntryLegal(abs, Spec.Interrupt(kind, calls, sp))
      modifies this, threads, readyque, msgboxes, handlers
      ensures alive <==> Next(old(abs), Spec.Interrupt(kind, calls, sp)).Up?
      ensures alive ==> Valid() && Up(abs) == Next(old(abs), Spec.Interrupt(kind, calls, sp)) && Inv(abs) && Placed(abs)
    {
      hide ThreadsRep, QueuesRep, BoxesRep;
      EntryReady(abs, Spec.Interrupt(kind, calls, sp));
      PlacedNext(abs, Spec.Interrupt(kind, calls, sp));
      hide Inv, EntryLegal, HandlerReady, Placed;
      alive := ThreadIntr(kind, sp, calls, None);
    }

    /** A whole run, entry by entry, up to its end or a system down. */
    method RunEntries(es: seq<Entry>) returns (alive: bool)
      requires Valid() && Inv(abs) && Placed(abs) && LegalRun(abs, es) && PlacedRun(abs, es)
      modifies this, threads, readyque, msgboxes, handlers
      ensures alive <==> Execute(old(abs), es).Up?
      ensures alive ==> Valid() && Up(abs) == Execute(old(abs), es) && Inv(abs) && Placed(abs)
    {
      hide ThreadsRep, QueuesRep, BoxesRep, Inv, EntryLegal, EntryPlaced, Placed, Next;
      var i := 0;
      while i < |es|
        invariant i <= |es| && Valid() && Inv(abs) && Placed(abs)
        invariant LegalRun(abs, es[i..]) && PlacedRun(abs, es[i..])
        invariant Execute(abs, es[i..]) == Execute(old(abs), es)
        decreases |es| - i
      {
        var e := es[i];
        assert es[i..][1..] == es[i + 1..] && es[i..][0] == e;
        match e {
          case Trap(c, blk, alloc, sp) =>
            alive := Trap(c, blk, alloc, sp);
          case Interrupt(kind, calls, sp) =>
            alive := Interrupt(kind, calls, sp);
        }
        if !alive {
          return;
        }
        i := i + 1;
      }
      return true;
    }

    /** From the invariant and a legal entry: all that the handlers rely on, and the state that `Next` means. */
    lemma EntryReady(k: State, e: Entry)
      requires Inv(k) && EntryLegal(k, e)
      ensures HandlerReady(SaveSp(Prepared(k, e), e.sp), EntryKind(e), EntryCalls(e), EntryAlloc(e))
      ensures EntryOk(k, e) && k.current.Some?
      ensures Next(k, e) == Spec.ThreadIntr(Prepared(k, e), EntryKind(e), e.sp, EntryCalls(e), EntryAlloc(e))
    {
      StepInv(k, e);
      RunningThread(k);
      EnteredCore(k, e);
      SameReceivers(k, Entered(k, e));
      if e.Trap? {
        assert CallLegal(Entered(k, e), e.call, e.alloc);
      }
    }

    /** `kz_start` up to its dispatch. */
    constructor (stackTop: int, func: int, priority: Pri, stacksize: nat, argc: int, argv: int)
      requires func != 0 && INITIAL_FRAME <= stacksize
      ensures Valid() && abs == Boot(stackTop, Run(func, priority, stacksize, argc, argv)) && Inv(abs) && Placed(abs)
      ensures fresh(threads) && fresh(readyque) && fresh(msgboxes) && fresh(handlers)
    {
      threads := new KzThread[16](_ => ZERO_THREAD);
      readyque := new ReadyQueue[16](_ => ReadyQueue(None, None));
      msgboxes := new KzMsgBox[17](_ => KzMsgBox(None, None, None));
      handlers := new Handler[6](_ => NoHandler);
      current, threadStack, bufs, blocks := None, stackTop, map[], map[];
      abs := Cleared(stackTop);
      new;
      ClearedRep(threads[..], readyque[..], msgboxes[..], stackTop);
      assert handlers[..] == abs.handlers;
      hide ThreadsRep, QueuesRep, BoxesRep, Inv, Placed;
      Start(stackTop, func, priority, stacksize, argc, argv);
    }

    /** `kz_start` on cleared tables. */
    method Start(ghost stackTop: int, func: int, priority: Pri, stacksize: nat, argc: int, argv: int)
      requires Valid() && abs == Cleared(stackTop) && func != 0 && INITIAL_FRAME <= stacksize
      modifies this, threads, readyque, handlers
      ensures Valid() && abs == Boot(stackTop, Run(func, priority, stacksize, argc, argv)) && Inv(abs) && Placed(abs)
    {
      hide ThreadsRep, QueuesRep, BoxesRep, Inv, Placed, FreeOk, Boot, Cleared, Spec.ThreadSetIntr, Spec.ThreadRun;
      StartFacts(stackTop, Run(func, priority, stacksize, argc, argv));
      var _ := ThreadSetIntr(SOFTVEC_TYPE_SYSCALL, SyscallIntr);
      var _ := ThreadSetIntr(SOFTVEC_TYPE_SOFTERR, Handler.SoftErrIntr);
      var t := ThreadRun(func, priority, stacksize, argc, argv);
      current := if t.Thread? then Some(t.t) else None;
    }

    lemma StartFacts(stackTop: int, c: Call)
      requires c.Run? && c.func != 0 && 0 <= c.priority < PRIORITY_NUM && INITIAL_FRAME <= c.stacksize
      ensures var k := Spec.ThreadSetIntr(Spec.ThreadSetIntr(Cleared(stackTop), SOFTVEC_TYPE_SYSCALL, SyscallIntr).0,
                                          SOFTVEC_TYPE_SOFTERR, Handler.SoftErrIntr).0;
              FreeOk(k) && Spec.ThreadRun(k, c) == (Boot(stackTop, c), Thread(0)) && Boot(stackTop, c).current == Some(0)
      ensures Inv(Boot(stackTop, c)) && Placed(Boot(stackTop, c))
    {
      ClearedCore(stackTop);
      StartInv(stackTop, c);
      BootPlaced(stackTop, c);
    }

    lemma ClearedRep(threads: Threads, rq: ReadyQueues, boxes: MsgBoxes, stackTop: int)
      requires forall t: Tid :: threads[t] == ZERO_THREAD
      requires forall p: Pri :: rq[p] == ReadyQueue(None, None)
      requires forall b: BoxId :: boxes[b] == KzMsgBox(None, None, None)
      ensures var k := Cleared(stackTop);
              ThreadsRep(threads, map[], k.tcbs) && QueuesRep(threads, rq, k.queues, k.tcbs)
              && BoxesRep(boxes, map[], k.boxes, k.heap)
    {
      var k := Cleared(stackTop);
      assert forall b, i, a :: !Stored(k.boxes, b, i, a);
    }
  }
}
