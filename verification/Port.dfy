/** The serial port, and the protocols of kz_h8write.c over it. */
module Port {
  import opened Prelude
  import opened Srec
  import opened Flash
  import opened Link
  import Writer

  lemma AddrBytes4(i: nat)
    ensures AddrBytes(4, i) == [i / 0x100_0000 % 0x100, i / 0x1_0000 % 0x100, i / 0x100 % 0x100, i % 0x100]
  {
    Shift(i, 0x100);
    Shift(i, 0x1_0000);
    assert AddrBytes(0, i / 0x100 / 0x100 / 0x100 / 0x100) == [];
    assert AddrBytes(1, i / 0x100 / 0x100 / 0x100) == [i / 0x100_0000 % 0x100];
    assert AddrBytes(2, i / 0x100 / 0x100) == [i / 0x100_0000 % 0x100, i / 0x1_0000 % 0x100];
  }

  lemma Shift(i: nat, k: nat)
    requires k == 0x100 || k == 0x1_0000
    ensures i / k / 0x100 == i / (k * 0x100)
  {
  }

  /** The order in which a request is written. */
  lemma RequestParts(cmd: Byte, n: Byte, buf: seq<Byte>)
    requires |buf| == n
    ensures var r := Request(cmd, buf);
            r[..0] == [] && r[..1] == [cmd] && r[..2] == r[..1] + [n] && r[..n + 2] == r[..2] + buf
            && r[..n + 3] == r[..n + 2] + [Negated(Sum([cmd, n] + buf))]
  {
    hide Negated, Sum;
    var r := Request(cmd, buf);
    assert r[..2] == [cmd, n];
    assert r[..n + 2] == [cmd, n] + buf;
    assert r[..n + 3] == r;
  }

  /** The writes of a request: command, length, data, checksum, up to the one that fails and gives the code. */
  function RequestWrites(cmd: Byte, buf: seq<Byte>, code: int): (s: seq<Event>)
    requires |buf| <= 0xff
  {
    var sum := Negated(Sum(RequestHead(cmd, buf)));
    if code == -1 then [Out([cmd], false)]
    else if code == -2 then [Out([cmd], true), Out([|buf|], false)]
    else if code == -3 then [Out([cmd], true), Out([|buf|], true), Out(buf, false)]
    else [Out([cmd], true), Out([|buf|], true), Out(buf, true), Out([sum], code == 0)]
  }

  /** The trace behind the writes, one by one, and the bytes that they sent. */
  lemma RequestEnds(t: seq<Event>, cmd: Byte, n: Byte, buf: seq<Byte>, code: int)
    requires |buf| == n && -4 <= code <= 0
    ensures var c := Negated(Sum([cmd, n] + buf));
            t + RequestWrites(cmd, buf, code) ==
            if code == -1 then t + [Out([cmd], false)]
            else if code == -2 then t + [Out([cmd], true)] + [Out([n], false)]
            else if code == -3 then t + [Out([cmd], true)] + [Out([n], true)] + [Out(buf, false)]
            else t + [Out([cmd], true)] + [Out([n], true)] + [Out(buf, true)] + [Out([c], code == 0)]
    ensures Sent(t + RequestWrites(cmd, buf, code)) ==
            Sent(t) + Request(cmd, buf)[..if code == 0 then |buf| + 3 else if code == -4 then |buf| + 2 else -1 - code]
  {
    hide Negated, Sum, Sent, Request;
    var r, w := Request(cmd, buf), [Out([cmd], true), Out([n], true), Out(buf, true)];
    HeadIs(cmd, n, buf);
    RequestParts(cmd, n, buf);
    SentMore(t, Out([cmd], code != -1));
    if code != -1 {
      SentMore(t + [w[0]], Out([n], code != -2));
      if code != -2 {
        SentMore(t + [w[0]] + [w[1]], Out(buf, code != -3));
        if code != -3 {
          SentMore(t + [w[0]] + [w[1]] + [w[2]], Out([Negated(Sum([cmd, n] + buf))], code == 0));
        }
      }
    }
  }

  lemma SentMore(t: seq<Event>, e: Event)
    requires e.Out?
    ensures Sent(t + [e]) == Sent(t) + if e.ok then e.bytes else []
  {
    assert (t + [e])[..|t|] == t;
  }

  lemma HeadIs(cmd: Byte, n: Byte, buf: seq<Byte>)
    requires |buf| == n
    ensures RequestHead(cmd, buf) == [cmd, n] + buf
  {
  }

  class Serial {
    /** What the reads return, and whether the writes succeed. */
    const incoming: seq<Answer>
    const accepting: seq<bool>
    var taken: nat
    var given: nat
    /** Everything that happened on the line. */
    var trace: seq<Event>

    ghost predicate Valid()
      reads this
    {
      Genuine(trace, incoming, accepting) && taken == Reads(trace) && given == Writes(trace)
    }

    /** What is still to come. */
    ghost function Coming(): (r: seq<Answer>)
      reads this
    {
      if taken <= |incoming| then incoming[taken..] else []
    }

    constructor (incoming: seq<Answer>, accepting: seq<bool>)
      ensures Valid() && this.incoming == incoming && this.accepting == accepting && trace == []
    {
      this.incoming, this.accepting, taken, given, trace := incoming, accepting, 0, 0, [];
    }

    method SerialWrite(bytes: seq<Byte>) returns (ok: bool)
      requires Valid()
      modifies this
      ensures Valid() && trace == old(trace) + [Out(bytes, ok)] && Coming() == old(Coming())
      ensures Sent(trace) == Sent(old(trace)) + if ok then bytes else []
    {
      ok := AcceptAt(accepting, given);
      Happened(trace, Out(bytes, ok), incoming, accepting);
      given := given + 1;
      trace := trace + [Out(bytes, ok)];
    }

    /** One byte of `serial_read_with_timeout`, -1 for a timeout. */
    method ReadByte() returns (a: Answer)
      requires Valid()
      modifies this
      ensures Valid() && trace == old(trace) + [In(a)] && Sent(trace) == Sent(old(trace))
      ensures a == AnswerAt(old(Coming()), 0)
      ensures Coming() == if old(Coming()) == [] then [] else old(Coming())[1..]
    {
      a := AnswerAt(incoming, taken);
      Happened(trace, In(a), incoming, accepting);
      taken := taken + 1;
      trace := trace + [In(a)];
    }

    /** `c = com_getc(serial)` with `unsigned char c`: a timeout reads as 0xff. */
    method ComGetc() returns (c: Byte, ghost a: Answer)
      requires Valid()
      modifies this
      ensures Valid() && trace == old(trace) + [In(a)] && c == a % 0x100
      ensures a == AnswerAt(old(Coming()), 0)
    {
      var b := ReadByte();
      a := b;
      c := b % 0x100;
    }

    // -------------------------------------------------------------- requests and responses

    method WriteRequest(cmd: Byte, buf: seq<Byte>) returns (code: int)
      requires Valid() && |buf| <= 0xff
      modifies this
      ensures Valid() && -4 <= code <= 0
      ensures var n := if code == 0 then |buf| + 3 else if code == -4 then |buf| + 2 else -1 - code;
              Sent(trace) == Sent(old(trace)) + Request(cmd, buf)[..n]
      ensures trace == old(trace) + RequestWrites(cmd, buf, code)
    {
      hide *;
      ghost var t := trace;
      var siz: Byte := |buf|;
      var ok := SerialWrite([cmd]);
      if !ok {
        RequestEnds(t, cmd, siz, buf, -1);
        return -1;
      }
      ok := SerialWrite([siz]);
      if !ok {
        RequestEnds(t, cmd, siz, buf, -2);
        return -2;
      }
      ok := SerialWrite(buf);
      if !ok {
        RequestEnds(t, cmd, siz, buf, -3);
        return -3;
      }
      var chksum := Accumulate([cmd, siz] + buf);
      ok := SerialWrite([chksum]);
      if !ok {
        RequestEnds(t, cmd, siz, buf, -4);
        return -4;
      }
      RequestEnds(t, cmd, siz, buf, 0);
      return 0;
    }

    /** The checksum loops: `chksum += ...` on an `unsigned char`, then `-chksum`. */
    method Accumulate(bs: seq<Byte>) returns (chksum: Byte)
      ensures chksum == Negated(Sum(bs))
    {
      SumNone();
      assert bs[..0] == [];
      hide Sum;
      chksum := 0;
      for j := 0 to |bs|
        invariant chksum == Sum(bs[..j]) % 0x100
      {
        assert bs[..j + 1] == bs[..j] + [bs[j]];
        SumAppend(bs[..j], bs[j]);
        AddModulo(Sum(bs[..j]), bs[j]);
        chksum := (chksum as int + bs[j] as int) % 0x100;
      }
      assert bs[..|bs|] == bs;
      chksum := (0x100 - chksum as int) % 0x100;
    }

    /** `serial_read_with_timeout`: reads `n` bytes to `buf[off..]`, or gives up at the first timeout. */
    method ReadBytes(buf: array<Byte>, off: nat, n: nat) returns (ok: bool)
      requires Valid() && off + n <= buf.Length
      modifies this, buf
      ensures Valid() && Sent(trace) == Sent(old(trace))
      ensures ok <==> n <= |Available(old(Coming()))|
      ensures ok ==> buf[off..off + n] == Available(old(Coming()))[..n]
      ensures ok ==> Available(Coming()) == Available(old(Coming()))[n..]
      ensures buf[..off] == old(buf[..off])
    {
      hide Genuine, Sent, Reads, Writes;
      ghost var s, head, before := Available(Coming()), buf[..off], Sent(trace);
      var i := 0;
      while i < n
        invariant Valid() && Sent(trace) == before
        invariant i <= n && i <= |s| && Available(Coming()) == s[i..]
        invariant buf[off..off + i] == s[..i] && buf[..off] == head
      {
        var a := ReadByte();
        if a == -1 {
          return false;
        }
        assert s[i..][0] == a && s[i..][1..] == s[i + 1..];
        buf[off + i] := a;
        assert buf[off..off + (i + 1)] == buf[off..off + i] + [buf[off + i]];
        i := i + 1;
      }
      return true;
    }

    /** `read_response` into a buffer of BUFSIZ bytes. */
    method ReadResponse(buf: array<Byte>) returns (code: int)
      requires Valid() && buf.Length >= 0x102
      modifies this, buf
      ensures Valid() && Sent(trace) == Sent(old(trace))
      ensures var r := ParseResponse(Available(old(Coming())));
              code == r.code && (code == 0 || code == -5 ==> |r.buf| <= buf.Length && buf[..|r.buf|] == r.buf)
    {
      hide Available, Genuine, Sent, Sum, Reads, Writes, AnswerAt;
      ghost var s := Available(Coming());
      var ok := ReadBytes(buf, 0, 1);
      if !ok {
        return -1;
      }
      ok := ReadBytes(buf, 1, 1);
      if !ok {
        return -2;
      }
      assert buf[..1][0] == buf[0];
      assert buf[0] == s[0] && buf[1] == s[1] by {
        assert buf[1..2][0] == s[1..][..1][0];
      }
      var datcnt: nat := buf[1];
      ok := ReadBytes(buf, 2, datcnt);
      if !ok {
        return -3;
      }
      assert buf[..2] == s[..2];
      assert buf[..2 + datcnt] == s[..2 + datcnt] by {
        assert buf[..2 + datcnt] == buf[..2] + buf[2..2 + datcnt];
      }
      ok := ReadBytes(buf, 2 + datcnt, 1);
      if !ok {
        return -4;
      }
      assert buf[..datcnt + 3] == s[..datcnt + 3] by {
        assert buf[..datcnt + 3] == buf[..2 + datcnt] + buf[2 + datcnt..2 + datcnt + 1];
      }
      var chksum := SumOf(buf, datcnt + 3);
      if chksum % 0x100 != 0 {
        return -5;
      }
      return 0;
    }

    method SumOf(buf: array<Byte>, n: nat) returns (chksum: int)
      requires n <= buf.Length
      ensures chksum == Sum(buf[..n])
    {
      chksum := 0;
      for i := 0 to n
        invariant chksum == Sum(buf[..i])
      {
        assert buf[..i + 1] == buf[..i] + [buf[i]];
        SumAppend(buf[..i], buf[i]);
        chksum := chksum + buf[i] as int;
      }
    }

    // -------------------------------------------------------------- programming

    /** At most `n` reads, up to the first ACK. */
    method Poll(n: nat) returns (c: Byte, ghost s: seq<Event>)
      requires Valid() && n > 0
      modifies this
      ensures Valid() && trace == old(trace) + s && forall i :: 0 <= i < |s| ==> s[i].In?
      ensures c == ACK ==> AfterPoll(s, n) == Some([])
      ensures c != ACK ==> |s| == n && forall i :: 0 <= i < n ==> s[i].a != ACK
    {
      hide Genuine, AfterPoll, Sent, Reads, Writes, AnswerAt;
      ghost var t := trace;
      s, c := [], 0;
      var i := 0;
      while i < n
        invariant Valid() && i <= n && |s| == i && trace == t + s
        invariant forall j :: 0 <= j < i ==> s[j].In? && s[j].a != ACK
        invariant i > 0 ==> c != ACK
      {
        ghost var a;
        c, a := ComGetc();
        s := s + [In(a)];
        if c == ACK {
          PollEnds(s, n);
          return;
        }
        i := i + 1;
      }
    }

    /**
     A write, then polls for the ACK; where it does not come, the error code behind it is read and
     dropped.  `t` is the trace before the transfer `xs`, of which this is exchange `k`.
     */
    method Perform(x: Exchange, ghost t: seq<Event>, ghost xs: seq<Exchange>, ghost k: nat) returns (ok: bool)
      requires k < |xs| && xs[k] == x && x.polls > 0
      requires Valid() && t <= trace && After(trace[|t|..], xs, k) == Some([])
      modifies this
      ensures Valid() && t <= trace
      ensures if ok then After(trace[|t|..], xs, k + 1) == Some([]) else Stopped(trace[|t|..], xs, k)
    {
      hide Failed, Stopped, After, AfterPoll, Genuine, Sent, Written, Received, AnswerAt;
      ghost var s := trace[|t|..];
      assert trace == t + s;
      var written := SerialWrite(x.bytes);
      ghost var e := Out(x.bytes, written);
      if x.must && !written {
        WriteFailed(x);
        OneMore(s, xs, k, [e]);
        assert trace == t + s + [e] + [] && [e] + [] == [e];
        Behind(t, s, [e], []);
        return false;
      }
      var c, p := Poll(x.polls);
      if c != ACK {
        ghost var a;
        c, a := ComGetc();
        ghost var q := PollFailed(x, written, p, a);
        OneMore(s, xs, k, q);
        assert trace == t + s + [e] + (p + [In(a)]);
        Behind(t, s, [e], p + [In(a)]);
        return false;
      }
      assert ([e] + p)[1..] == p;
      OneMore(s, xs, k, [e] + p);
      Behind(t, s, [e], p);
      return true;
    }

    lemma Behind(t: seq<Event>, s: seq<Event>, e: seq<Event>, p: seq<Event>)
      ensures t <= t + s + e + p && (t + s + e + p)[|t|..] == s + (e + p)
    {
      assert t + s + e + p == t + (s + (e + p));
    }

    /** Builds the frame of the 128 image bytes from `i` on. */
    method BuildFrame(image: array<Byte>, i: nat, buf: array<Byte>)
      requires image.Length == IMAGE_SIZE && i + PAYLOAD <= IMAGE_SIZE && buf.Length == 256 && buf != image
      modifies buf
      ensures buf[..PAYLOAD + 6] == Frame(image[..], i)
    {
      hide Sum, Negated, AddrBytes;
      ghost var m := image[..];
      buf[0] := 0x50;
      buf[1] := i / 0x100_0000 % 0x100;
      buf[2] := i / 0x1_0000 % 0x100;
      buf[3] := i / 0x100 % 0x100;
      buf[4] := i % 0x100;
      AddrBytes4(i);
      assert buf[..5] == [0x50] + AddrBytes(4, i);
      var j := 0;
      while j < PAYLOAD
        invariant j <= PAYLOAD && image[..] == m
        invariant buf[..5 + j] == [0x50] + AddrBytes(4, i) + m[i..i + j]
      {
        buf[5 + j] := image[i + j];
        assert buf[..5 + (j + 1)] == buf[..5 + j] + [buf[5 + j]];
        assert m[i..i + (j + 1)] == m[i..i + j] + [m[i + j]];
        j := j + 1;
      }
      assert buf[..PAYLOAD + 5] == FrameHead(i, m[i..i + PAYLOAD]);
      buf[PAYLOAD + 5] := Accumulate(buf[..PAYLOAD + 5]);
      assert buf[..PAYLOAD + 6] == buf[..PAYLOAD + 5] + [buf[PAYLOAD + 5]];
    }

    /** `program`, from the state of the image. */
    method Program(w: Writer.Writer) returns (code: ErrorCode)
      requires Valid() && w.Valid() && w.lastaddr <= IMAGE_SIZE
      modifies this
      ensures Valid() && old(trace) <= trace
      ensures var s, xs := trace[|old(trace)|..], TransferScript(w.Abs());
              (code == NoError <==> Complete(s, xs))
              && (code != NoError ==> exists k :: 0 <= k < |xs| && Stopped(s, xs, k))
    {
      hide After, Stopped, Failed, Frame, Limit, Frames, Genuine;
      ghost var t, img := trace, w.Abs();
      LimitInside(w.lastaddr);
      ghost var n := Limit(img.last) / PAYLOAD;
      ghost var fs := Frames(img.mem, n);
      ghost var xs := Script(fs);
      FramesSize(img.mem, n);
      StartAfter(trace[|t|..], xs);
      var ok := Perform(ERASE, t, xs, 0);
      if !ok {
        StoppedIncomplete(trace[|t|..], xs, 0);
        return WriteEraseFail;
      }
      ok := Perform(SELECT, t, xs, 1);
      if !ok {
        StoppedIncomplete(trace[|t|..], xs, 1);
        return WriteEraseFail;
      }
      var i := 0;
      ghost var k := 0;
      var buf := new Byte[256];
      while i < Limit(w.lastaddr)
        invariant i == k * PAYLOAD && 0 <= k <= n && w.Abs() == img && w.Valid() && fresh(buf)
        invariant Valid() && t <= trace && After(trace[|t|..], xs, k + 2) == Some([])
      {
        BuildFrame(w.image, i, buf);
        assert buf[..PAYLOAD + 6] == fs[k];
        ok := Perform(Exchange(buf[..PAYLOAD + 6], true, POLL_N_WRITE), t, xs, k + 2);
        if !ok {
          StoppedIncomplete(trace[|t|..], xs, k + 2);
          return WriteEraseFail;
        }
        i, k := i + 128, k + 1;
      }
      var last := [0x50, 0xff, 0xff, 0xff, 0xff];
      var chksum := Accumulate(last);
      ok := Perform(Exchange(last + [chksum], true, 1), t, xs, n + 2);
      if !ok {
        StoppedIncomplete(trace[|t|..], xs, n + 2);
        return WriteEraseFail;
      }
      return NoError;
    }

    lemma StartAfter(s: seq<Event>, xs: seq<Exchange>)
      requires s == []
      ensures After(s, xs, 0) == Some([])
    {
    }
  }

  /**
   What `main` does with a file and an open port, but for the sequences that select device, clock and
   rate: erase the image, read the file, program.
   */
  method FlashFile(lines: seq<string>, port: Serial) returns (read: Writer.ReadCode, code: ErrorCode)
    requires port.Valid() && AllInRange(ReadLines(lines).recs)
    modifies port
    ensures port.Valid() && old(port.trace) <= port.trace && read == Writer.CodeOf(ReadLines(lines))
    ensures read != Writer.Ok ==> port.trace == old(port.trace) && code != NoError
    ensures read == Writer.Ok ==>
              var img := ApplyAll(Blank(), ReadLines(lines).recs);
              img.last <= IMAGE_SIZE &&
              var s, xs := port.trace[|old(port.trace)|..], TransferScript(img);
              (code == NoError <==> Complete(s, xs)) && (code != NoError ==> exists k :: 0 <= k < |xs| && Stopped(s, xs, k))
    ensures code == NoError ==>
              forall a: nat :: Flashed(lines, DeviceAll(Received(port.trace[|old(port.trace)|..])), a)
  {
    hide ReadLines, ApplyAll, Flashed, DeviceAll, Complete, Stopped, Genuine, TransferScript;
    ghost var t := port.trace;
    var w := new Writer.Writer();
    read := w.MotRead(lines);
    if read != Writer.Ok {
      return read, WriteEraseFail;
    }
    LastInside(ReadLines(lines).recs);
    code := port.Program(w);
    if code == NoError {
      forall a: nat | true
        ensures Flashed(lines, DeviceAll(Received(port.trace[|t|..])), a)
      {
        TransferReachesFlash(lines, port.trace[|t|..], a);
      }
    }
  }
}
