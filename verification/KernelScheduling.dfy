/**
 What the ready queues promise over whole runs: the running thread, fairness inside a priority, and
 who stops being ready.
 */
module KernelScheduling {
  import opened Prelude
  import opened KernelSpec
  import opened KernelInvariant

  // ---------------------------------------------------------------- one entry, opened up

  /** The result of the handler of a system call, before its return value is stored. */
  function TrapCall(k: State, e: Entry): (r: Outcome<(State, Ret)>)
    requires Inv(k) && EntryLegal(k, e) && e.Trap?
  {
    StepInv(k, e);
    CallFunctions(GetCurrent(Entered(k, e)), e.call, e.alloc)
  }

  /** Two states that differ at most in return values and in `current`. */
  ghost predicate SameButReturn(k: State, r: State) {
    && r.queues == k.queues && r.boxes == k.boxes && r.heap == k.heap && r.log == k.log
    && r.handlers == k.handlers && r.stackTop == k.stackTop && |r.tcbs| == |k.tcbs|
    && forall t :: 0 <= t < |k.tcbs| ==> r.tcbs[t] == k.tcbs[t].(param := r.tcbs[t].param)
  }

  lemma TrapStep(k: State, e: Entry)
    requires Inv(k) && EntryLegal(k, e) && e.Trap? && Next(k, e).Up?
    ensures TrapCall(k, e).Up? && SameButReturn(TrapCall(k, e).value.0, Next(k, e).value)
    ensures forall t: Tid :: Some(t) != k.current ==>
              Next(k, e).value.tcbs[t] == TrapCall(k, e).value.0.tcbs[t]
    ensures var tcb := TrapCall(k, e).value.0.tcbs[k.current.value];
            Next(k, e).value.tcbs[k.current.value].param ==
              if StoresRet(e.call) && tcb.param.Some? then Some(tcb.param.value.(ret := TrapCall(k, e).value.1)) else tcb.param
  {
    StepInv(k, e);
  }

  lemma TrapCallIs(k: State, e: Entry)
    requires Inv(k) && EntryLegal(k, e) && e.Trap?
    ensures var k1 := GetCurrent(Entered(k, e)); CallOk(k1, e.call) && TrapCall(k, e) == CallFunctions(k1, e.call, e.alloc)
  {
    hide CallFunctions;
    StepInv(k, e);
  }

  /** The state in which a system call is handled: the caller is off its queue, nothing else moved. */
  lemma TrapEntry(k: State, e: Entry)
    requires Inv(k) && EntryLegal(k, e) && e.Trap?
    ensures var k1, t := GetCurrent(Entered(k, e)), k.current.value;
            Core(k1) && Caller(k1, e.call) && CallLegal(k1, e.call, e.alloc)
            && k1.current == k.current && k1.boxes == k.boxes && k1.heap == k.heap && k1.log == k.log
            && k1.handlers == k.handlers && k1.stackTop == k.stackTop
            && (forall u: Tid :: u != t ==> k1.tcbs[u] == k.tcbs[u])
            && k1.tcbs[t] == k.tcbs[t].(ready := false, call := Some(e.call), sp := e.sp,
                                        param := if e.call.Exit? then None else Some(e.blk))
            && HeadPopped(k, k1)
            && CallOk(k1, e.call) && TrapCall(k, e) == CallFunctions(k1, e.call, e.alloc)
  {
    EnteredCore(k, e);
    SameReceivers(k, Entered(k, e));
    CallerCore(Entered(k, e), e.call, e.alloc);
    GetCurrentPopsHead(k, Entered(k, e));
    TrapCallIs(k, e);
  }

  /** What any other entry comes to: its handler on the saved state, then the choice of a thread. */
  lemma InterruptStep(k: State, e: Entry)
    requires Inv(k) && EntryLegal(k, e) && e.Interrupt? && Next(k, e).Up?
    ensures k.current.Some?
    ensures var k1, r, h := Entered(k, e), Next(k, e).value, k.handlers[e.kind];
            Core(k1) && k1 == SaveSp(k, e.sp)
            && (h.User? ==> SrvLegal(k1, e.calls) && SrvOk(k1, e.calls) && SrvCalls(k1, e.calls).Up?
                            && r == SrvCalls(k1, e.calls).value.(current := r.current))
            && (h.NoHandler? ==> r == k1.(current := r.current))
            && (e.kind == SOFTVEC_TYPE_SOFTERR ==> r == SoftErr(k1).(current := r.current))
            && (if e.kind == SOFTVEC_TYPE_SOFTERR then h.SoftErrIntr? else h.User? || h.NoHandler?)
  {
    StepInv(k, e);
    EnteredCore(k, e);
    EntryCore(k, e);
  }

  // ---------------------------------------------------------------- the unchecked pop

  /** `r` is `k` with the running thread removed from the front of its queue. */
  ghost predicate HeadPopped(k: State, r: State)
    requires k.current.Some?
  {
    var t := k.current.value;
    var p := k.tcbs[t].priority;
    && k.queues[p] != [] && k.queues[p][0] == t
    && r.queues == k.queues[p := k.queues[p][1..]]
  }

  /**
   `getcurrent` sets a queue's head to the successor of `current` without looking at the queue.  At
   every system call and soft error of every run that removes exactly the running thread.
   */
  lemma GetCurrentPopsHead(k: State, entered: State)
    requires Inv(k) && entered.queues == k.queues && entered.current == k.current
    requires forall t: Tid ::
               entered.tcbs[t].ready == k.tcbs[t].ready && entered.tcbs[t].priority == k.tcbs[t].priority
    ensures HeadPopped(k, GetCurrent(entered))
    ensures forall p :: 0 <= p < k.tcbs[k.current.value].priority ==> k.queues[p] == []
  {
    RunningThread(k);
    var p := FirstNonEmpty(k.queues, 0);
    var t := k.queues[p][0];
    assert t in k.queues[p];
    PopHead(k.queues[p], t);
  }

  // ---------------------------------------------------------------- queues only grow

  ghost predicate QueuesGrow(k: State, r: State) {
    |k.queues| == |r.queues| && forall p :: 0 <= p < |k.queues| ==> k.queues[p] <= r.queues[p]
  }

  lemma GrowTrans(k: State, l: State, r: State)
    requires QueuesGrow(k, l) && QueuesGrow(l, r)
    ensures QueuesGrow(k, r)
  {
    forall p | 0 <= p < |k.queues|
      ensures k.queues[p] <= r.queues[p]
    {
      assert k.queues[p] <= l.queues[p] <= r.queues[p];
    }
  }

  lemma PutBothGrow(k: State, i: Tid)
    ensures QueuesGrow(k, PutBoth(k, i))
  {
    GrowTrans(k, PutCurrent(k), PutBoth(k, i));
  }

  lemma ThreadSendGrow(k: State, b: BoxId, size: int, p: int, alloc: Option<int>)
    ensures ThreadSend(k, b, size, p, alloc).Up? ==> QueuesGrow(k, ThreadSend(k, b, size, p, alloc).value.0)
  {
    if alloc.Some? {
      var k1 := PutCurrent(k);
      var k2 := SendMsg(k1, b, k1.current, size, p, alloc.value);
      if k2.boxes[b].receiver.Some? {
        var k3 := RecvMsg(k2.(current := k2.boxes[b].receiver), b);
        GrowTrans(k, k3, PutCurrent(k3));
      }
    }
  }

  /** No system call or service call removes a thread from a queue or reorders one. */
  lemma CallGrow(k: State, c: Call, alloc: Option<int>)
    requires CallOk(k, c)
    ensures CallFunctions(k, c, alloc).Up? ==> QueuesGrow(k, CallFunctions(k, c, alloc).value.0)
  {
    match c
    case Run(_, _, _, _, _) =>
      var i := FirstFree(k.tcbs, 0);
      if i < THREAD_NUM {
        PutBothGrow(InitTcb(k, c, i), i);
      }
    case Wakeup(id) => PutBothGrow(k, id);
    case Send(b, size, p) => ThreadSendGrow(k, b, size, p, alloc);
    case _ =>
  }

  lemma SrvCallsGrow(k: State, calls: seq<SrvCall>)
    requires SrvOk(k, calls)
    ensures SrvCalls(k, calls).Up? ==> QueuesGrow(k, SrvCalls(k, calls).value)
    decreases |calls|
  {
    if calls != [] {
      CallGrow(k.(current := None), calls[0].call, calls[0].alloc);
      var r := SrvcallProc(k, calls[0].call, calls[0].alloc);
      if r.Up? {
        SrvCallsGrow(r.value.0, calls[1..]);
        if SrvCalls(k, calls).Up? {
          GrowTrans(k, r.value.0, SrvCalls(k, calls).value);
        }
      }
    }
  }

  /** System calls and soft errors take the running thread off its queue; other vectors do not. */
  predicate TakesCurrent(e: Entry) {
    e.Trap? || e.kind == SOFTVEC_TYPE_SOFTERR
  }

  /** The queues in which the handler of an entry starts. */
  function PoppedQueues(k: State, e: Entry): (r: seq<seq<Tid>>)
    requires Inv(k)
  {
    RunningThread(k);
    var p := k.tcbs[k.current.value].priority;
    if TakesCurrent(e) then k.queues[p := k.queues[p][1..]] else k.queues
  }

  lemma StepGrow(k: State, e: Entry)
    requires Inv(k) && EntryLegal(k, e) && Next(k, e).Up?
    ensures QueuesGrow(k.(queues := PoppedQueues(k, e)), Next(k, e).value)
  {
    var k1 := Entered(k, e);
    EnteredCore(k, e);
    GetCurrentPopsHead(k, k1);
    RunningThread(k);
    hide Next, Inv, Core, CallFunctions, SrvCalls, EntryLegal;
    if e.Trap? {
      TrapEntry(k, e);
      TrapStep(k, e);
      CallGrow(GetCurrent(k1), e.call, e.alloc);
    } else {
      InterruptStep(k, e);
      if k.handlers[e.kind].User? {
        SrvCallsGrow(k1, e.calls);
      }
    }
  }

  // ---------------------------------------------------------------- bounded bypass

  /** Thread `t` stands at place `i` of queue `p`. */
  ghost predicate At(k: State, p: Pri, i: nat, t: Tid) {
    p < |k.queues| && i < |k.queues[p]| && k.queues[p][i] == t
  }

  /** 1 if the entry takes the head off queue `p`, else 0. */
  function Pops(k: State, e: Entry, p: Pri): (r: nat)
    requires Inv(k)
  {
    RunningThread(k);
    if TakesCurrent(e) && k.tcbs[k.current.value].priority == p then 1 else 0
  }

  /** A thread behind the head moves up by exactly one when the head enters the kernel, else not at all. */
  lemma StepPosition(k: State, e: Entry, p: Pri, i: nat, t: Tid)
    requires Inv(k) && EntryLegal(k, e) && Next(k, e).Up?
    requires At(k, p, i, t) && Pops(k, e, p) <= i
    ensures At(Next(k, e).value, p, i - Pops(k, e, p), t)
  {
    hide Next, Inv;
    StepGrow(k, e);
    var q := PoppedQueues(k, e);
    assert q[p][i - Pops(k, e, p)] == t;
    assert q[p] <= Next(k, e).value.queues[p];
  }

  /** How often a run takes the head off queue `p`. */
  ghost function PopCount(k: State, es: seq<Entry>, p: Pri): (r: nat)
    requires Inv(k) && LegalRun(k, es)
    decreases |es|
  {
    if es == [] then 0
    else Pops(k, es[0], p) + match Next(k, es[0]) case Down => 0 case Up(k1) => PopCount(k1, es[1..], p)
  }

  /**
   Bounded bypass: along every run, a thread at place `i` is at place `i - n` after its queue has
   been popped `n <= i` times, whatever else happens; so it is first after exactly `i` pops.
   */
  lemma {:induction false} RunPosition(k: State, es: seq<Entry>, p: Pri, i: nat, t: Tid)
    requires Inv(k) && LegalRun(k, es) && Execute(k, es).Up?
    requires At(k, p, i, t) && PopCount(k, es, p) <= i
    ensures At(Execute(k, es).value, p, i - PopCount(k, es, p), t)
    decreases |es|
  {
    hide Next, Inv;
    if es != [] {
      var e, k1 := es[0], Next(k, es[0]).value;
      StepPosition(k, e, p, i, t);
      RunPosition(k1, es[1..], p, i - Pops(k, e, p), t);
    }
  }

  // ---------------------------------------------------------------- rotation

  function Rotated(q: seq<Tid>, j: nat): (r: seq<Tid>)
    requires j <= |q|
  {
    q[j..] + q[..j]
  }

  /** `kz_wait` moves the running thread from the front of its queue to the back, and nothing else. */
  lemma WaitRotates(k: State, e: Entry)
    requires Inv(k) && e.Trap? && e.call == Wait
    ensures EntryLegal(k, e) && Next(k, e).Up?
    ensures var p, r := k.tcbs[k.current.value].priority, Next(k, e).value;
            k.queues[p] != [] && r.queues == k.queues[p := Rotated(k.queues[p], 1)]
            && r.current == Some(r.queues[p][0]) && (forall t: Tid :: r.tcbs[t].priority == k.tcbs[t].priority)
  {
    RunningThread(k);
    StepInv(k, e);
    TrapEntry(k, e);
    var p := k.tcbs[k.current.value].priority;
    var k1 := GetCurrent(Entered(k, e));
    var q := k.queues[p];
    var k2 := PutCurrent(k1);
    assert q[1..] + [q[0]] == Rotated(q, 1);
    assert k2.queues == k.queues[p := Rotated(q, 1)];
    GetCurrentPopsHead(k, Entered(k, e));
    FirstIs(k2.queues, p);
  }

  lemma FirstIs(queues: seq<seq<Tid>>, p: Pri)
    requires p < |queues| && queues[p] != [] && forall j :: 0 <= j < p ==> queues[j] == []
    ensures FirstNonEmpty(queues, 0) == p
  {
  }

  lemma RotateOnce(q: seq<Tid>, n: nat)
    requires 1 <= n <= |q|
    ensures Rotated(Rotated(q, 1), n - 1) == Rotated(q, n)
  {
    var r := Rotated(q, 1);
    assert r[..n - 1] == q[1..n];
    assert r[n - 1..] == q[n..] + q[..1];
    assert q[..1] + q[1..n] == q[..n];
  }

  ghost predicate AllWaits(es: seq<Entry>) {
    forall i :: 0 <= i < |es| ==> es[i].Trap? && es[i].call == Wait
  }

  /** Queue `p` is the top queue, and `r` has it rotated by `n` places with the right thread running. */
  ghost predicate Rotation(k: State, r: State, p: nat, n: nat) {
    && |r.queues| == |k.queues| && p < |k.queues| && n <= |k.queues[p]| && k.queues[p] != []
    && r.queues == k.queues[p := Rotated(k.queues[p], n)]
    && r.current == Some(r.queues[p][0])
  }

  lemma RotationStep(k: State, k1: State, r: State, p: nat, n: nat)
    requires n > 0 && Rotation(k, k1, p, 1) && n <= |k.queues[p]| && Rotation(k1, r, p, n - 1)
    ensures Rotation(k, r, p, n)
  {
    RotateOnce(k.queues[p], n);
  }

  lemma ExecuteCons(k: State, es: seq<Entry>)
    requires Inv(k) && es != [] && EntryLegal(k, es[0]) && Next(k, es[0]).Up?
    requires LegalRun(Next(k, es[0]).value, es[1..])
    ensures LegalRun(k, es) && Execute(k, es) == Execute(Next(k, es[0]).value, es[1..])
  {
  }

  /** The running thread's queue is the top one. */
  lemma TopQueue(k: State, p: Pri)
    requires Inv(k) && p == FirstNonEmpty(k.queues, 0)
    ensures p < PRIORITY_NUM && Rotation(k, k, p, 0) && k.tcbs[k.current.value].priority == p
  {
    assert k.queues[p][0] in k.queues[p];
    assert Rotated(k.queues[p], 0) == k.queues[p];
  }

  lemma WaitOnce(k: State, e: Entry, p: Pri)
    requires Inv(k) && e.Trap? && e.call == Wait && p == FirstNonEmpty(k.queues, 0)
    ensures EntryLegal(k, e) && Next(k, e).Up?
    ensures Rotation(k, Next(k, e).value, p, 1) && p == FirstNonEmpty(Next(k, e).value.queues, 0)
    ensures |Next(k, e).value.queues[p]| == |k.queues[p]|
  {
    TopQueue(k, p);
    WaitRotates(k, e);
    FirstIs(Next(k, e).value.queues, p);
  }

  /** `n` consecutive `kz_wait` calls rotate the top queue by `n` places and touch no other queue. */
  lemma {:induction false} WaitRun(k: State, es: seq<Entry>, p: Pri)
    requires Inv(k) && AllWaits(es) && p == FirstNonEmpty(k.queues, 0) && |es| <= |k.queues[p]|
    ensures LegalRun(k, es) && Execute(k, es).Up? && Rotation(k, Execute(k, es).value, p, |es|)
    decreases |es|
  {
    hide Next, Inv;
    if es == [] {
      TopQueue(k, p);
    } else {
      WaitOnce(k, es[0], p);
      var k1 := Next(k, es[0]).value;
      WaitRun(k1, es[1..], p);
      ExecuteCons(k, es);
      RotationStep(k, k1, Execute(k1, es[1..]).value, p, |es|);
    }
  }

  /** A round of waits leaves everything as before ... */
  lemma RoundRobin(k: State, es: seq<Entry>, p: Pri)
    requires Inv(k) && AllWaits(es) && p == FirstNonEmpty(k.queues, 0) && |es| == |k.queues[p]|
    ensures LegalRun(k, es) && Execute(k, es).Up?
    ensures Execute(k, es).value.queues == k.queues && Execute(k, es).value.current == k.current
  {
    hide Next, Inv;
    WaitRun(k, es, p);
    TopQueue(k, p);
    assert Rotated(k.queues[p], |es|) == k.queues[p];
  }

  /** ... and in it each thread of the top queue runs once, in queue order. */
  lemma RoundRobinTurn(k: State, es: seq<Entry>, p: Pri, j: nat)
    requires Inv(k) && AllWaits(es) && p == FirstNonEmpty(k.queues, 0) && j < |es| == |k.queues[p]|
    ensures LegalRun(k, es[..j]) && Execute(k, es[..j]).Up?
    ensures Execute(k, es[..j]).value.current == Some(k.queues[p][j])
  {
    hide Next, Inv;
    WaitRun(k, es[..j], p);
  }

  // ---------------------------------------------------------------- where a thread is

  /** A ready thread stands at exactly one place; any other thread at none. */
  lemma ReadyHasOnePlace(k: State, t: Tid)
    requires Inv(k)
    ensures Ready(k, t) ==> exists i: nat :: At(k, k.tcbs[t].priority, i, t)
    ensures forall p: Pri, i: nat, q: Pri, j: nat :: At(k, p, i, t) && At(k, q, j, t) ==> p == q && i == j
    ensures !Ready(k, t) ==> forall p: Pri, i: nat :: !At(k, p, i, t)
  {
    if Ready(k, t) {
      var i :| 0 <= i < |k.queues[k.tcbs[t].priority]| && k.queues[k.tcbs[t].priority][i] == t;
      assert At(k, k.tcbs[t].priority, i, t);
    }
    forall p: Pri, i: nat, q: Pri, j: nat | At(k, p, i, t) && At(k, q, j, t)
      ensures p == q && i == j
    {
      assert t in k.queues[p] && t in k.queues[q];
      assert NoDup(k.queues[p]);
    }
  }

  ghost predicate Asleep(k: State, t: Tid) {
    Live(k, t) && !Ready(k, t) && !IsReceiver(k, t)
  }

  /** A live thread is exactly one of ready, waiting on one box, asleep; a free TCB is none of these. */
  lemma ThreadPartition(k: State, t: Tid)
    requires Inv(k)
    ensures Live(k, t) <==> Ready(k, t) || IsReceiver(k, t) || Asleep(k, t)
    ensures !(Ready(k, t) && IsReceiver(k, t))
    ensures forall b: BoxId, c: BoxId :: Waits(k, t, b) && Waits(k, t, c) ==> b == c
    ensures !Live(k, t) ==> k.tcbs[t] == ZERO_TCB && forall p: Pri, i: nat :: !At(k, p, i, t)
  {
    ReadyHasOnePlace(k, t);
    assert Ready(k, t) ==> t in k.queues[k.tcbs[t].priority];
    assert forall b: BoxId :: Waits(k, t, b) ==> Blocked(k, t, b);
  }

  /** The running thread has the smallest priority number of all ready threads. */
  lemma RunningIsUrgent(k: State, t: Tid)
    requires Inv(k) && Ready(k, t)
    ensures k.tcbs[k.current.value].priority <= k.tcbs[t].priority
    ensures k.tcbs[k.current.value].priority == k.tcbs[t].priority ==> k.queues[k.tcbs[t].priority][0] == k.current.value
  {
    var p := FirstNonEmpty(k.queues, 0);
    assert k.queues[p][0] in k.queues[p];
    assert t in k.queues[k.tcbs[t].priority];
  }

  /** An external interrupt appends to ready queues, leaves the interrupted thread first in its own. */
  lemma InterruptAppends(k: State, e: Entry)
    requires Inv(k) && EntryLegal(k, e) && !TakesCurrent(e) && Next(k, e).Up?
    ensures QueuesGrow(k, Next(k, e).value)
    ensures At(Next(k, e).value, k.tcbs[k.current.value].priority, 0, k.current.value)
    ensures forall t: Tid :: Ready(Next(k, e).value, t) ==>
              Next(k, e).value.tcbs[Next(k, e).value.current.value].priority <= Next(k, e).value.tcbs[t].priority
  {
    hide Next;
    StepGrow(k, e);
    var r := Next(k, e).value;
    RunningThread(k);
    assert k.(queues := k.queues) == k;
    assert k.queues[k.tcbs[k.current.value].priority] <= r.queues[k.tcbs[k.current.value].priority];
    forall t: Tid | Ready(r, t)
      ensures r.tcbs[r.current.value].priority <= r.tcbs[t].priority
    {
      RunningIsUrgent(r, t);
    }
  }
}
