/**
 The serial protocols of kz_h8write.c.  The port is an oracle: what each write reports, what each read
 returns; `trace` records what happened.
 */
module Link {
  import opened Prelude
  import opened Srec
  import opened Flash

  const ACK: Byte := 0x06

  /** A read returns a byte, or times out with -1. */
  type Answer = a: int | -1 <= a < 0x100

  /** One `serial_write` and whether it succeeded, or one byte read. */
  datatype Event = Out(bytes: seq<Byte>, ok: bool) | In(a: Answer)

  datatype ErrorCode = NoError | WriteEraseFail

  // ---------------------------------------------------------------- request and response frames

  function RequestHead(cmd: Byte, data: seq<Byte>): (r: seq<Byte>)
    requires |data| <= 0xff
  {
    [cmd, |data|] + data
  }

  /** The bytes of a request: command, length, data, checksum. */
  function Request(cmd: Byte, data: seq<Byte>): (r: seq<Byte>)
    requires |data| <= 0xff
    ensures |r| == |data| + 3
  {
    RequestHead(cmd, data) + [Negated(Sum(RequestHead(cmd, data)))]
  }

  /** What `read_response` makes of the bytes that arrive before the line falls silent. */
  datatype Response = Response(code: int, buf: seq<Byte>)

  function ParseResponse(s: seq<Byte>): (r: Response) {
    if |s| < 1 then Response(-1, s)
    else if |s| < 2 then Response(-2, s)
    else
      var n: nat := s[1];
      if |s| < n + 2 then Response(-3, s)
      else if |s| < n + 3 then Response(-4, s)
      else if Sum(s[..n + 3]) % 0x100 != 0 then Response(-5, s[..n + 3])
      else Response(0, s[..n + 3])
  }

  /** Each code for the bytes it stands for; fewer bytes than the length announces are never a response. */
  lemma ResponseCodes(s: seq<Byte>)
    ensures var code := ParseResponse(s).code;
            (code == -1 <==> |s| == 0) && (code == -2 <==> |s| == 1)
            && (code == -3 <==> 2 <= |s| < s[1] as int + 2) && (code == -4 <==> 2 <= |s| == s[1] as int + 2)
            && (code == -5 <==> 2 <= |s| && s[1] as int + 3 <= |s| && Sum(s[..s[1] as int + 3]) % 0x100 != 0)
            && (code == 0 <==> 2 <= |s| && s[1] as int + 3 <= |s| && Sum(s[..s[1] as int + 3]) % 0x100 == 0)
            && (code == 0 || code == -5 ==> ParseResponse(s).buf == s[..s[1] as int + 3])
  {
    hide Sum;
  }

  /** A request read as a response arrives intact. */
  lemma RequestArrives(cmd: Byte, data: seq<Byte>)
    requires |data| <= 0xff
    ensures var s := Request(cmd, data);
            ParseResponse(s) == Response(0, s) && s[0] == cmd && s[1] == |data| && s[2..|data| + 2] == data
  {
    hide Sum, Negated;
    var h := RequestHead(cmd, data);
    SumAppend(h, Negated(Sum(h)));
    assert Request(cmd, data)[..|data| + 3] == Request(cmd, data);
  }

  /** One byte changed on the way, the length byte excepted, is always noticed. */
  lemma WrongByteNoticed(cmd: Byte, data: seq<Byte>, i: nat, b: Byte)
    requires |data| <= 0xff && i < |data| + 3 && i != 1 && b != Request(cmd, data)[i]
    ensures ParseResponse(Request(cmd, data)[i := b]).code == -5
  {
    hide Negated, Sum;
    var h, s := RequestHead(cmd, data), Request(cmd, data);
    SumAppend(h, Negated(Sum(h)));
    SumOff(s, i, b);
    assert s[i := b][..|data| + 3] == s[i := b];
  }

  lemma SumOff(s: seq<Byte>, i: nat, b: Byte)
    requires i < |s| && b != s[i] && Sum(s) % 0x100 == 0
    ensures Sum(s[i := b]) % 0x100 != 0
  {
    SumUpdate(s, i, b);
    WrongByte(Sum(s) - s[i], s[i], b);
  }

  // ---------------------------------------------------------------- the grammar of a transfer

  /**
   One exchange of `program`: `bytes` are written, then an ACK has to come within `polls` reads.  With
   `must`, the result of the write is looked at.
   */
  datatype Exchange = Exchange(bytes: seq<Byte>, must: bool, polls: nat)

  const POLL_N_ERASE: nat := 80
  const POLL_N_WRITE: nat := 6

  const ERASE := Exchange([0x40], false, POLL_N_ERASE)
  const SELECT := Exchange([0x43], false, 1)

  function FrameExchanges(fs: seq<seq<Byte>>): (xs: seq<Exchange>)
    ensures |xs| == |fs|
  {
    seq(|fs|, i requires 0 <= i < |fs| => Exchange(fs[i], true, POLL_N_WRITE))
  }

  /** A whole transfer: erase, select, each frame in order, end frame. */
  function Script(fs: seq<seq<Byte>>): (xs: seq<Exchange>)
    ensures |xs| == |fs| + 3
  {
    [ERASE, SELECT] + FrameExchanges(fs) + [Exchange(EndFrame(), true, 1)]
  }

  /** The rest of a trace behind at most `n` reads of which only the last is an ACK. */
  function AfterPoll(t: seq<Event>, n: nat): (r: Option<seq<Event>>) {
    if n == 0 || t == [] || t[0].Out? then None
    else if t[0].a == ACK then Some(t[1..])
    else AfterPoll(t[1..], n - 1)
  }

  /** The rest of a trace behind one exchange. */
  function AfterExchange(t: seq<Event>, x: Exchange): (r: Option<seq<Event>>) {
    if t != [] && t[0].Out? && t[0].bytes == x.bytes && (x.must ==> t[0].ok) then AfterPoll(t[1..], x.polls)
    else None
  }

  /** The rest of a trace behind the first `k` exchanges. */
  function After(t: seq<Event>, xs: seq<Exchange>, k: nat): (r: Option<seq<Event>>)
    requires k <= |xs|
  {
    if k == 0 then Some(t)
    else
      var r := After(t, xs, k - 1);
      if r == None then None else AfterExchange(r.value, xs[k - 1])
  }

  /** The trace is that of all exchanges, in order, and nothing else. */
  predicate Complete(t: seq<Event>, xs: seq<Exchange>) {
    After(t, xs, |xs|) == Some([])
  }

  lemma {:induction false} PollMore(t: seq<Event>, n: nat, s: seq<Event>)
    requires AfterPoll(t, n).Some?
    ensures AfterPoll(t + s, n) == Some(AfterPoll(t, n).value + s)
    decreases n
  {
    assert (t + s)[1..] == t[1..] + s;
    if t[0].a != ACK {
      PollMore(t[1..], n - 1, s);
    }
  }

  /** A longer trace goes on behind the same exchanges. */
  lemma {:induction false} AfterMore(t: seq<Event>, xs: seq<Exchange>, k: nat, s: seq<Event>)
    requires k <= |xs| && After(t, xs, k).Some?
    ensures After(t + s, xs, k) == Some(After(t, xs, k).value + s)
  {
    if k > 0 {
      AfterMore(t, xs, k - 1, s);
      var u := After(t, xs, k - 1).value;
      assert (u + s)[1..] == u[1..] + s;
      PollMore(u[1..], xs[k - 1].polls, s);
    }
  }

  /** A trace that breaks off one exchange breaks off all. */
  lemma {:induction false} AfterStops(t: seq<Event>, xs: seq<Exchange>, k: nat, n: nat)
    requires k <= n <= |xs| && After(t, xs, k) == None
    ensures After(t, xs, n) == None
    decreases n
  {
    if k < n {
      AfterStops(t, xs, k, n - 1);
    }
  }

  /** As many reads without an ACK as the polls allow are no exchange, whatever follows. */
  lemma {:induction false} PollFails(t: seq<Event>, n: nat)
    requires |t| >= n && forall i :: 0 <= i < n ==> t[i].In? && t[i].a != ACK
    ensures AfterPoll(t, n) == None
    decreases n
  {
    if n > 0 {
      PollFails(t[1..], n - 1);
    }
  }

  /** Reads of which only the last is an ACK, within the polls, end the exchange. */
  lemma {:induction false} PollEnds(t: seq<Event>, n: nat)
    requires 0 < |t| <= n && t[|t| - 1] == In(ACK)
    requires forall i :: 0 <= i < |t| - 1 ==> t[i].In? && t[i].a != ACK
    ensures AfterPoll(t, n) == Some([])
    decreases n
  {
    if |t| > 1 {
      PollEnds(t[1..], n - 1);
    }
  }

  // ---------------------------------------------------------------- what a trace wrote

  /** All writes of a trace, failed ones as well. */
  function Written(t: seq<Event>): (r: seq<seq<Byte>>) {
    if t == [] then []
    else
      var e := t[|t| - 1];
      Written(t[..|t| - 1]) + if e.Out? then [e.bytes] else []
  }

  /** The frames of 134 bytes that were written successfully: what the device receives. */
  function Received(t: seq<Event>): (r: seq<seq<Byte>>) {
    if t == [] then []
    else
      var e := t[|t| - 1];
      Received(t[..|t| - 1]) + if e.Out? && e.ok && |e.bytes| == PAYLOAD + 6 then [e.bytes] else []
  }

  /** All bytes of the writes that succeeded. */
  function Sent(t: seq<Event>): (r: seq<Byte>) {
    if t == [] then []
    else
      var e := t[|t| - 1];
      Sent(t[..|t| - 1]) + if e.Out? && e.ok then e.bytes else []
  }

  lemma {:induction false} ReadsWriteNothing(t: seq<Event>, s: seq<Event>)
    requires forall i :: 0 <= i < |s| ==> s[i].In?
    ensures Written(t + s) == Written(t) && Received(t + s) == Received(t)
    decreases |s|
  {
    if s == [] {
      assert t + s == t;
    } else {
      var n := |s| - 1;
      assert (t + s)[..|t| + n] == t + s[..n];
      ReadsWriteNothing(t, s[..n]);
    }
  }

  /** One write, then reads. */
  lemma OneWritten(t: seq<Event>, e: Event, s: seq<Event>)
    requires e.Out? && forall i :: 0 <= i < |s| ==> s[i].In?
    ensures Written(t + [e] + s) == Written(t) + [e.bytes]
    ensures Received(t + [e] + s) == Received(t) + if e.ok && |e.bytes| == PAYLOAD + 6 then [e.bytes] else []
  {
    ReadsWriteNothing(t + [e], s);
    assert (t + [e])[..|t|] == t;
  }

  /** A poll consumes reads only. */
  lemma {:induction false} PollReads(t: seq<Event>, n: nat) returns (p: seq<Event>)
    requires AfterPoll(t, n).Some?
    ensures t == p + AfterPoll(t, n).value && forall i :: 0 <= i < |p| ==> p[i].In?
    decreases n
  {
    p := [];
    if t[0].a != ACK {
      p := PollReads(t[1..], n - 1);
    }
    p := [t[0]] + p;
  }

  /** One exchange writes exactly its bytes. */
  lemma ExchangeWritten(b: seq<Event>, u: seq<Event>, x: Exchange) returns (p: seq<Event>)
    requires AfterExchange(u, x).Some?
    ensures u == p + AfterExchange(u, x).value && Written(b + p) == Written(b) + [x.bytes]
    ensures |x.bytes| == PAYLOAD + 6 ==> x.must ==> Received(b + p) == Received(b) + [x.bytes]
    ensures |x.bytes| != PAYLOAD + 6 ==> Received(b + p) == Received(b)
  {
    hide Written, Received;
    p := PollReads(u[1..], x.polls);
    OneWritten(b, u[0], p);
    assert b + [u[0]] + p == b + ([u[0]] + p);
    p := [u[0]] + p;
  }

  /** The results of all writes of data frames are looked at. */
  predicate FramesChecked(xs: seq<Exchange>) {
    forall i :: 0 <= i < |xs| && |xs[i].bytes| == PAYLOAD + 6 ==> xs[i].must
  }

  /** The first `k` exchanges wrote exactly their bytes. */
  lemma {:induction false} ScriptWritten(t: seq<Event>, xs: seq<Exchange>, k: nat) returns (b: seq<Event>)
    requires k <= |xs| && After(t, xs, k).Some?
    ensures t == b + After(t, xs, k).value
    ensures Written(b) == Payloads(xs[..k])
    ensures FramesChecked(xs) ==> Received(b) == DataFrames(xs[..k])
  {
    hide AfterExchange;
    b := [];
    if k > 0 {
      b := ScriptWritten(t, xs, k - 1);
      var p := ExchangeWritten(b, After(t, xs, k - 1).value, xs[k - 1]);
      b := b + p;
      assert xs[..k][..k - 1] == xs[..k - 1];
    }
  }

  function Payloads(xs: seq<Exchange>): (r: seq<seq<Byte>>) {
    if xs == [] then [] else Payloads(xs[..|xs| - 1]) + [xs[|xs| - 1].bytes]
  }

  function DataFrames(xs: seq<Exchange>): (r: seq<seq<Byte>>) {
    if xs == [] then []
    else
      var b := xs[|xs| - 1].bytes;
      DataFrames(xs[..|xs| - 1]) + if |b| == PAYLOAD + 6 then [b] else []
  }

  lemma {:induction false} ScriptFrames(fs: seq<seq<Byte>>, k: nat)
    requires k <= |fs| && forall i :: 0 <= i < |fs| ==> |fs[i]| == PAYLOAD + 6
    ensures DataFrames(Script(fs)[..k + 2]) == fs[..k]
  {
    var xs := Script(fs);
    if k == 0 {
      assert xs[..2][1] == SELECT && xs[..1][0] == ERASE && xs[..1][..0] == [];
      assert DataFrames(xs[..1]) == [];
      assert xs[..2][..1] == xs[..1];
    } else {
      ScriptFrames(fs, k - 1);
      assert xs[..k + 2][..k + 1] == xs[..k + 1] && fs[..k] == fs[..k - 1] + [fs[k - 1]];
    }
  }

  /** A complete transfer hands exactly its frames to the device, in order. */
  lemma CompleteDelivers(t: seq<Event>, fs: seq<seq<Byte>>)
    requires Complete(t, Script(fs)) && forall i :: 0 <= i < |fs| ==> |fs[i]| == PAYLOAD + 6
    ensures Received(t) == fs
  {
    hide AfterExchange, Written, Received, Payloads, Negated, Sum;
    var xs, n := Script(fs), |fs| + 2;
    var b := ScriptWritten(t, xs, n + 1);
    ScriptFrames(fs, n - 2);
    assert xs[..n + 1] == xs && fs[..n - 2] == fs && b == t;
  }

  /**
   An exchange that fails: the write failed, or its result was not looked at or good, as many reads as
   the polls allow were no ACK, and one more was made for the error code.
   */
  predicate Failed(p: seq<Event>, x: Exchange) {
    p != [] && p[0].Out? && p[0].bytes == x.bytes &&
    if x.must && !p[0].ok then |p| == 1
    else |p| == x.polls + 2 && forall i :: 1 <= i < |p| ==> p[i].In? && (i <= x.polls ==> p[i].a != ACK)
  }

  /** A trace that ends with the failure of exchange `k`. */
  predicate Stopped(s: seq<Event>, xs: seq<Exchange>, k: nat)
    requires k < |xs|
  {
    After(s, xs, k).Some? && Failed(After(s, xs, k).value, xs[k])
  }

  lemma WriteFailed(x: Exchange)
    requires x.must
    ensures Failed([Out(x.bytes, false)], x)
  {
  }

  lemma PollFailed(x: Exchange, ok: bool, p: seq<Event>, a: Answer) returns (q: seq<Event>)
    requires (x.must ==> ok) && |p| == x.polls && forall i :: 0 <= i < |p| ==> p[i].In? && p[i].a != ACK
    ensures q == [Out(x.bytes, ok)] + (p + [In(a)]) && Failed(q, x)
  {
    q := [Out(x.bytes, ok)] + (p + [In(a)]);
    forall i | 1 <= i < |q|
      ensures q[i].In? && (i <= x.polls ==> q[i].a != ACK)
    {
      assert q[i] == (p + [In(a)])[i - 1];
    }
  }

  lemma FailedIsNone(p: seq<Event>, x: Exchange)
    requires Failed(p, x)
    ensures AfterExchange(p, x) == None
  {
    if !(x.must && !p[0].ok) {
      PollFails(p[1..], x.polls);
    }
  }

  /** A trace that stopped is not complete, nor is any continuation of it. */
  lemma StoppedIncomplete(s: seq<Event>, xs: seq<Exchange>, k: nat)
    requires k < |xs| && Stopped(s, xs, k)
    ensures !Complete(s, xs)
  {
    FailedIsNone(After(s, xs, k).value, xs[k]);
    AfterStops(s, xs, k + 1, |xs|);
  }

  /** Nothing was written behind the exchange that failed, and no data frame before it is missing. */
  lemma StoppedWrote(s: seq<Event>, xs: seq<Exchange>, k: nat)
    requires k < |xs| && Stopped(s, xs, k) && FramesChecked(xs)
    ensures Written(s) == Payloads(xs[..k + 1])
    ensures DataFrames(xs[..k]) <= Received(s) <= DataFrames(xs[..k + 1])
  {
    hide Written, Received, AfterExchange;
    var b := ScriptWritten(s, xs, k);
    var p := After(s, xs, k).value;
    OneWritten(b, p[0], p[1..]);
    assert b + [p[0]] + p[1..] == s;
    assert xs[..k + 1][..k] == xs[..k];
  }

  /** A transfer that stopped while sending the data frames left a prefix of them with the device. */
  lemma StoppedDelivers(t: seq<Event>, fs: seq<seq<Byte>>, k: nat)
    requires k < |fs| + 3 && Stopped(t, Script(fs), k) && forall i :: 0 <= i < |fs| ==> |fs[i]| == PAYLOAD + 6
    ensures Received(t) <= fs
  {
    hide Stopped, Written, Received, Payloads, DataFrames, Negated, Sum;
    var xs := Script(fs);
    StoppedWrote(t, xs, k);
    DataFramesGrow(xs, k + 1, |xs|);
    ScriptFrames(fs, |fs|);
    assert xs[..|fs| + 2] == xs[..|xs| - 1] && fs[..|fs|] == fs;
    EndIsNoData(fs);
  }

  lemma {:induction false} DataFramesGrow(xs: seq<Exchange>, k: nat, n: nat)
    requires k <= n <= |xs|
    ensures DataFrames(xs[..k]) <= DataFrames(xs[..n])
    decreases n
  {
    if k < n {
      DataFramesGrow(xs, k, n - 1);
      assert xs[..n][..n - 1] == xs[..n - 1];
    }
  }

  lemma EndIsNoData(fs: seq<seq<Byte>>)
    ensures DataFrames(Script(fs)[..|fs| + 3]) == DataFrames(Script(fs)[..|fs| + 2])
  {
    hide Negated, Sum;
    var xs := Script(fs);
    assert xs[..|fs| + 3][..|fs| + 2] == xs[..|fs| + 2];
  }

  /** One more exchange, at the end of a trace of the first `k`. */
  lemma OneMore(s: seq<Event>, xs: seq<Exchange>, k: nat, p: seq<Event>)
    requires k < |xs| && After(s, xs, k) == Some([])
    ensures After(s + p, xs, k) == Some(p)
    ensures After(s + p, xs, k + 1) == AfterExchange(p, xs[k])
    ensures Failed(p, xs[k]) ==> Stopped(s + p, xs, k)
  {
    hide AfterExchange;
    AfterMore(s, xs, k, p);
    assert [] + p == p;
  }

  // ---------------------------------------------------------------- a transfer, spelled out

  /** One write of `bytes`, and behind it at most `n` reads of which the last, and only the last, is 0x06. */
  ghost predicate Acked(s: seq<Event>, bytes: seq<Byte>, n: nat) {
    2 <= |s| <= n + 1 && s[0].Out? && s[0].bytes == bytes && s[|s| - 1] == In(0x06)
    && forall i :: 1 <= i < |s| - 1 ==> s[i].In? && s[i].a != 0x06
  }

  /** One write of `bytes` that failed; or it and `n + 1` reads, of which the first `n` are not 0x06. */
  ghost predicate NotAcked(s: seq<Event>, bytes: seq<Byte>, n: nat) {
    s != [] && s[0].Out? && s[0].bytes == bytes &&
    (s == [Out(bytes, false)] || (|s| == n + 2 && forall i :: 1 <= i < |s| ==> s[i].In? && (i <= n ==> s[i].a != 0x06)))
  }

  /** What is written in exchange `k` of a transfer: 0x40, 0x43, each frame, and the end frame with its checksum. */
  function Step(fs: seq<seq<Byte>>, k: nat): (bytes: seq<Byte>)
    requires k < |fs| + 3
  {
    if k == 0 then [0x40] else if k == 1 then [0x43] else if k < |fs| + 2 then fs[k - 2]
    else [0x50, 0xff, 0xff, 0xff, 0xff, 0xb4]
  }

  /** How many reads wait for its ACK: 80 for the erase, 6 for a data frame, 1 else. */
  function Patience(fs: seq<seq<Byte>>, k: nat): (n: nat)
    requires k < |fs| + 3
  {
    if k == 0 then 80 else if 2 <= k < |fs| + 2 then 6 else 1
  }

  lemma EndFrameIs()
    ensures EndFrame() == [0x50, 0xff, 0xff, 0xff, 0xff, 0xb4]
  {
    hide Sum;
    SumNone();
    SumAppend([], 0x50);
    SumAppend([0x50], 0xff);
    SumAppend([0x50, 0xff], 0xff);
    SumAppend([0x50, 0xff, 0xff], 0xff);
    SumAppend([0x50, 0xff, 0xff, 0xff], 0xff);
    assert [] + [0x50] == [0x50] && [0x50] + [0xff] == [0x50, 0xff] && [0x50, 0xff] + [0xff] == [0x50, 0xff, 0xff];
    assert [0x50, 0xff, 0xff] + [0xff] == [0x50, 0xff, 0xff, 0xff];
    assert [0x50, 0xff, 0xff, 0xff] + [0xff] == END_HEAD;
  }

  lemma ScriptSteps(fs: seq<seq<Byte>>, k: nat)
    requires k < |fs| + 3
    ensures Script(fs)[k].bytes == Step(fs, k) && Script(fs)[k].polls == Patience(fs, k)
    ensures Script(fs)[k].must <==> k >= 2
  {
    hide EndFrame;
    EndFrameIs();
  }

  lemma {:induction false} PollShape(t: seq<Event>, n: nat) returns (p: seq<Event>)
    requires AfterPoll(t, n).Some?
    ensures t == p + AfterPoll(t, n).value && 1 <= |p| <= n && p[|p| - 1] == In(0x06)
    ensures forall i :: 0 <= i < |p| - 1 ==> p[i].In? && p[i].a != 0x06
    decreases n
  {
    p := [t[0]];
    if t[0].a != ACK {
      var q := PollShape(t[1..], n - 1);
      p := p + q;
    }
  }

  /** The parts of the first `k` exchanges of a trace, each acknowledged, in order. */
  lemma {:induction false} Parts(t: seq<Event>, fs: seq<seq<Byte>>, k: nat) returns (ps: seq<seq<Event>>)
    requires k <= |fs| + 3 && After(t, Script(fs), k).Some?
    ensures |ps| == k && t == Joined(ps) + After(t, Script(fs), k).value
    ensures forall j :: 0 <= j < k ==> Acked(ps[j], Step(fs, j), Patience(fs, j)) && (j >= 2 ==> ps[j][0].ok)
  {
    hide Script, Step, Patience, Acked, AfterExchange;
    ps := [];
    if k > 0 {
      ps := Parts(t, fs, k - 1);
      var u, x := After(t, Script(fs), k - 1).value, Script(fs)[k - 1];
      ScriptSteps(fs, k - 1);
      var p := ExchangeShape(u, x);
      JoinedMore(ps, p);
      ps := ps + [p];
    }
  }

  lemma ExchangeShape(u: seq<Event>, x: Exchange) returns (p: seq<Event>)
    requires AfterExchange(u, x).Some?
    ensures u == p + AfterExchange(u, x).value && Acked(p, x.bytes, x.polls) && (x.must ==> p[0].ok)
  {
    hide AfterPoll;
    var q := PollShape(u[1..], x.polls);
    p := [u[0]] + q;
    assert u == [u[0]] + u[1..];
    forall i | 1 <= i < |p| - 1
      ensures p[i].In? && p[i].a != 0x06
    {
      assert p[i] == q[i - 1];
    }
  }

  function Joined(ps: seq<seq<Event>>): (t: seq<Event>) {
    if ps == [] then [] else Joined(ps[..|ps| - 1]) + ps[|ps| - 1]
  }

  lemma JoinedMore(ps: seq<seq<Event>>, p: seq<Event>)
    ensures Joined(ps + [p]) == Joined(ps) + p
  {
    assert (ps + [p])[..|ps|] == ps;
  }

  /**
   A complete transfer: 0x40, 0x43, each frame in order, the end frame; behind each write its reads, up to
   the ACK.
   */
  lemma CompleteMeans(t: seq<Event>, fs: seq<seq<Byte>>) returns (ps: seq<seq<Event>>)
    requires Complete(t, Script(fs))
    ensures |ps| == |fs| + 3 && t == Joined(ps)
    ensures forall j :: 0 <= j < |ps| ==> Acked(ps[j], Step(fs, j), Patience(fs, j)) && (j >= 2 ==> ps[j][0].ok)
    ensures Written(t) == [[0x40], [0x43]] + fs + [[0x50, 0xff, 0xff, 0xff, 0xff, 0xb4]]
  {
    hide AfterExchange, Script, Written, Step, Patience;
    ps := Parts(t, fs, |fs| + 3);
    var b := ScriptWritten(t, Script(fs), |fs| + 3);
    assert b == t && Script(fs)[..|fs| + 3] == Script(fs);
    AllPayloads(fs);
  }

  lemma AckedExchange(p: seq<Event>, x: Exchange)
    requires Acked(p, x.bytes, x.polls) && (x.must ==> p[0].ok)
    ensures AfterExchange(p, x) == Some([])
  {
    hide AfterPoll;
    var q := p[1..];
    assert forall i :: 0 <= i < |q| ==> q[i] == p[i + 1];
    PollEnds(q, x.polls);
  }

  lemma {:induction false} PartsExchanged(ps: seq<seq<Event>>, fs: seq<seq<Byte>>, k: nat)
    requires k <= |ps| == |fs| + 3
    requires forall j :: 0 <= j < |ps| ==> Acked(ps[j], Step(fs, j), Patience(fs, j)) && (j >= 2 ==> ps[j][0].ok)
    ensures After(Joined(ps[..k]), Script(fs), k) == Some([])
  {
    hide Script, Step, Patience, Acked, AfterExchange;
    if k > 0 {
      var p := ps[k - 1];
      PartsExchanged(ps, fs, k - 1);
      assert ps[..k] == ps[..k - 1] + [p];
      hide After, Joined;
      ScriptSteps(fs, k - 1);
      AckedExchange(p, Script(fs)[k - 1]);
      JoinedMore(ps[..k - 1], p);
      MoreAcked(Joined(ps[..k - 1]), Script(fs), k - 1, p);
    }
  }

  lemma MoreAcked(s: seq<Event>, xs: seq<Exchange>, k: nat, p: seq<Event>)
    requires k < |xs| && After(s, xs, k) == Some([]) && AfterExchange(p, xs[k]) == Some([])
    ensures After(s + p, xs, k + 1) == Some([])
  {
    OneMore(s, xs, k, p);
  }

  /** And every such trace is complete. */
  lemma MeansComplete(ps: seq<seq<Event>>, fs: seq<seq<Byte>>)
    requires |ps| == |fs| + 3
    requires forall j :: 0 <= j < |ps| ==> Acked(ps[j], Step(fs, j), Patience(fs, j)) && (j >= 2 ==> ps[j][0].ok)
    ensures Complete(Joined(ps), Script(fs))
  {
    hide Script, Step, Patience, Acked;
    PartsExchanged(ps, fs, |ps|);
    assert ps[..|ps|] == ps;
  }

  lemma AllPayloads(fs: seq<seq<Byte>>)
    ensures Payloads(Script(fs)) == [[0x40], [0x43]] + fs + [[0x50, 0xff, 0xff, 0xff, 0xff, 0xb4]]
  {
    hide EndFrame;
    EndFrameIs();
    var all := [[0x40], [0x43]] + fs + [[0x50, 0xff, 0xff, 0xff, 0xff, 0xb4]];
    PayloadsFirst(fs, |fs| + 3);
    assert Script(fs)[..|fs| + 3] == Script(fs) && all[..|fs| + 3] == all;
  }

  lemma {:induction false} PayloadsFirst(fs: seq<seq<Byte>>, k: nat)
    requires k <= |fs| + 3
    ensures var all := [[0x40], [0x43]] + fs + [[0x50, 0xff, 0xff, 0xff, 0xff, 0xb4]]; Payloads(Script(fs)[..k]) == all[..k]
  {
    hide Script, EndFrame;
    if k > 0 {
      var all := [[0x40], [0x43]] + fs + [[0x50, 0xff, 0xff, 0xff, 0xff, 0xb4]];
      PayloadsFirst(fs, k - 1);
      ScriptSteps(fs, k - 1);
      assert Script(fs)[..k][..k - 1] == Script(fs)[..k - 1];
      assert all[k - 1] == Step(fs, k - 1) && all[..k] == all[..k - 1] + [all[k - 1]];
    }
  }

  /** A transfer that stopped: the same up to the exchange that was not acknowledged, with which it ends. */
  lemma StoppedMeans(t: seq<Event>, fs: seq<seq<Byte>>, k: nat) returns (ps: seq<seq<Event>>, last: seq<Event>)
    requires k < |fs| + 3 && Stopped(t, Script(fs), k)
    ensures |ps| == k && t == Joined(ps) + last && NotAcked(last, Step(fs, k), Patience(fs, k))
    ensures k < 2 ==> |last| > 1
    ensures forall j :: 0 <= j < k ==> Acked(ps[j], Step(fs, j), Patience(fs, j)) && (j >= 2 ==> ps[j][0].ok)
  {
    hide AfterExchange, Script, Step, Patience;
    ps := Parts(t, fs, k);
    ScriptSteps(fs, k);
    last := After(t, Script(fs), k).value;
  }

  lemma {:induction false} FramesSize(m: Memory, n: nat)
    requires n * PAYLOAD <= IMAGE_SIZE
    ensures forall i :: 0 <= i < n ==> Frames(m, n)[i] == Frame(m, i * PAYLOAD) && |Frames(m, n)[i]| == PAYLOAD + 6
  {
    hide Frame;
    if n > 0 {
      FramesSize(m, n - 1);
    }
  }

  /**
   The flash as a file says: at each address below the bound the byte of the last record that covers it,
   0xff where none does; nothing beyond the bound, where no record reaches.
   */
  ghost predicate Flashed(lines: seq<string>, d: Device, a: nat)
    requires AllInRange(ReadLines(lines).recs)
  {
    && (a in d <==> a < Limit(ApplyAll(Blank(), ReadLines(lines).recs).last))
    && (a in d ==> d[a] == LastByte(ReadLines(lines).recs, a))
    && AllCovered(ReadLines(lines).recs, d, a)
  }

  /** If any record covers `a`, the device has it. */
  ghost predicate AllCovered(rs: seq<Record>, d: Device, a: nat) {
    forall i :: 0 <= i < |rs| && Covers(rs[i], a) ==> a in d
  }

  /** From file to flash over the link: a complete transfer of the image of a file flashes the device. */
  lemma TransferReachesFlash(lines: seq<string>, t: seq<Event>, a: nat)
    requires ReadLines(lines).ReadDone? && AllInRange(ReadLines(lines).recs)
    requires var img := ApplyAll(Blank(), ReadLines(lines).recs);
             img.last <= IMAGE_SIZE && Complete(t, TransferScript(img))
    ensures Flashed(lines, DeviceAll(Received(t)), a)
  {
    hide ReadLines, ApplyAll, Frames, DeviceAll, Limit, Script, Complete;
    var img := ApplyAll(Blank(), ReadLines(lines).recs);
    FileReachesFlash(lines, a);
    var n := Limit(img.last) / PAYLOAD;
    FramesSize(img.mem, n);
    CompleteDelivers(t, Frames(img.mem, n));
  }

  /** What `program` has to exchange for an image. */
  function TransferScript(img: Image): (r: seq<Exchange>)
    requires img.last <= IMAGE_SIZE
  {
    LimitInside(img.last);
    Script(Frames(img.mem, Limit(img.last) / PAYLOAD))
  }

  // ---------------------------------------------------------------- the far end

  function Reads(t: seq<Event>): (r: nat) {
    if t == [] then 0 else Reads(t[..|t| - 1]) + if t[|t| - 1].In? then 1 else 0
  }

  function Writes(t: seq<Event>): (r: nat) {
    if t == [] then 0 else Writes(t[..|t| - 1]) + if t[|t| - 1].Out? then 1 else 0
  }

  /** What read number `i` returns: nothing arrives after the last answer. */
  function AnswerAt(incoming: seq<Answer>, i: nat): (r: Answer) {
    if i < |incoming| then incoming[i] else -1
  }

  /** Whether write number `i` succeeds: those after the last do. */
  function AcceptAt(accepting: seq<bool>, i: nat): (r: bool) {
    i < |accepting| ==> accepting[i]
  }

  /** The trace is one that the far end gives: each read and each write has its result. */
  ghost predicate Genuine(t: seq<Event>, incoming: seq<Answer>, accepting: seq<bool>) {
    t == [] ||
    (Genuine(t[..|t| - 1], incoming, accepting) &&
     match t[|t| - 1]
     case In(a) => a == AnswerAt(incoming, Reads(t[..|t| - 1]))
     case Out(_, ok) => ok == AcceptAt(accepting, Writes(t[..|t| - 1])))
  }

  lemma Happened(t: seq<Event>, e: Event, incoming: seq<Answer>, accepting: seq<bool>)
    requires Genuine(t, incoming, accepting)
    requires match e
             case In(a) => a == AnswerAt(incoming, Reads(t))
             case Out(_, ok) => ok == AcceptAt(accepting, Writes(t))
    ensures Genuine(t + [e], incoming, accepting)
    ensures Reads(t + [e]) == Reads(t) + (if e.In? then 1 else 0)
    ensures Writes(t + [e]) == Writes(t) + (if e.Out? then 1 else 0)
    ensures Sent(t + [e]) == Sent(t) + if e.Out? && e.ok then e.bytes else []
  {
    assert (t + [e])[..|t|] == t;
  }

  /** The bytes that arrive before the next timeout. */
  function Available(answers: seq<Answer>): (r: seq<Byte>) {
    if answers == [] || answers[0] == -1 then [] else [answers[0]] + Available(answers[1..])
  }
}
