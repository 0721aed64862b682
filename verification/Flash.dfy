/**
 From S-records to the flash of the device: the memory image that the records overlay, the frames in
 which it is sent, and an ideal device that stores each frame at the address it carries.
 */
module Flash {
  import opened Prelude
  import opened Srec

  /** `sizeof(memory_image)`, a multiple of the frame payload. */
  const IMAGE_SIZE: nat := 0x10_0100
  const PAYLOAD: nat := 128

  type Memory = m: seq<Byte> | |m| == 0x10_0100 witness seq(0x10_0100, _ => 0xff)

  datatype Image = Image(mem: Memory, last: Word)

  function Blank(): (img: Image) {
    Image(seq(IMAGE_SIZE, _ => 0xff), 0)
  }

  /** What `parse_record` hands to the callback. */
  datatype Record = Record(addr: nat, data: seq<Byte>, siz: int)

  /**
   The callback writes inside the image: `siz` bytes from `addr`.  A record that is one byte short has
   no data and `siz == -1`; its address is never 0 (`Srec.ShortRecordAddress`).
   */
  predicate InRange(r: Record) {
    if r.siz >= 0 then |r.data| == r.siz && r.addr + r.siz <= IMAGE_SIZE
    else r.siz == -1 && r.data == [] && 0 < r.addr <= IMAGE_SIZE
  }

  predicate Covers(r: Record, a: nat) {
    r.addr <= a < r.addr + |r.data|
  }

  function Overlay(m: Memory, r: Record): (n: Memory)
    requires InRange(r)
    ensures forall a :: 0 <= a < IMAGE_SIZE ==> n[a] == if Covers(r, a) then r.data[a - r.addr] else m[a]
  {
    m[..r.addr] + r.data + m[r.addr + |r.data|..]
  }

  /** `addr + siz` as an `unsigned int`. */
  function EndOf(r: Record): (e: Word)
    requires InRange(r)
    ensures e == r.addr + r.siz <= IMAGE_SIZE
  {
    (r.addr + r.siz) % 0x1_0000_0000
  }

  /** `mot_callback` */
  function Apply(img: Image, r: Record): (res: Image)
    requires InRange(r)
  {
    Image(Overlay(img.mem, r), if img.last < EndOf(r) then EndOf(r) else img.last)
  }

  predicate AllInRange(rs: seq<Record>) {
    forall i :: 0 <= i < |rs| ==> InRange(rs[i])
  }

  function ApplyAll(img: Image, rs: seq<Record>): (r: Image)
    requires AllInRange(rs)
  {
    if rs == [] then img else Apply(ApplyAll(img, rs[..|rs| - 1]), rs[|rs| - 1])
  }

  // ---------------------------------------------------------------- what the image is

  /** The byte of the last record that covers `a`, 0xff if there is none. */
  function LastByte(rs: seq<Record>, a: nat): (r: Byte) {
    if rs == [] then 0xff
    else
      var r := rs[|rs| - 1];
      if Covers(r, a) then r.data[a - r.addr] else LastByte(rs[..|rs| - 1], a)
  }

  /** Overlaying records from left to right leaves at each address the byte of the last that covers it. */
  lemma {:induction false} ImageByte(rs: seq<Record>, a: nat)
    requires AllInRange(rs) && a < IMAGE_SIZE
    ensures ApplyAll(Blank(), rs).mem[a] == LastByte(rs, a)
    decreases |rs|
  {
    if rs != [] {
      ImageByte(rs[..|rs| - 1], a);
    }
  }

  /** `memory_lastaddr` is the maximum of the ends of all records, and 0 without records. */
  lemma {:induction false} LastIsMax(rs: seq<Record>)
    requires AllInRange(rs)
    ensures forall i :: 0 <= i < |rs| ==> EndOf(rs[i]) <= ApplyAll(Blank(), rs).last
    ensures ApplyAll(Blank(), rs).last == 0 || exists i :: 0 <= i < |rs| && ApplyAll(Blank(), rs).last == EndOf(rs[i])
    decreases |rs|
  {
    if rs != [] {
      var n := |rs| - 1;
      LastIsMax(rs[..n]);
      var l := ApplyAll(Blank(), rs[..n]).last;
      if l < EndOf(rs[n]) {
        assert ApplyAll(Blank(), rs).last == EndOf(rs[n]);
      } else if l != 0 {
        var i :| 0 <= i < n && l == EndOf(rs[..n][i]);
        assert ApplyAll(Blank(), rs).last == EndOf(rs[i]);
      }
    }
  }

  // ---------------------------------------------------------------- order of records

  /** No address is covered by two records of the list. */
  ghost predicate Disjoint(rs: seq<Record>) {
    forall i, j, a :: 0 <= i < j < |rs| && Covers(rs[i], a) ==> !Covers(rs[j], a)
  }

  /** The byte at `a` is that of the last record of the list that covers `a`. */
  lemma {:induction false} ByteSource(rs: seq<Record>, a: nat) returns (i: int)
    ensures -1 <= i < |rs|
    ensures i == -1 ==> LastByte(rs, a) == 0xff && forall j :: 0 <= j < |rs| ==> !Covers(rs[j], a)
    ensures i >= 0 ==> rs[i].addr <= a < rs[i].addr + |rs[i].data| && LastByte(rs, a) == rs[i].data[a - rs[i].addr]
    ensures forall j :: 0 <= i < j < |rs| ==> !Covers(rs[j], a)
    decreases |rs|
  {
    if rs == [] {
      i := -1;
    } else if Covers(rs[|rs| - 1], a) {
      i := |rs| - 1;
    } else {
      i := ByteSource(rs[..|rs| - 1], a);
      assert forall j :: 0 <= j < |rs| - 1 ==> rs[..|rs| - 1][j] == rs[j];
    }
  }

  /** Records that cover disjoint addresses may be read in any order, or repeated, with the same image. */
  lemma OrderIrrelevant(rs: seq<Record>, qs: seq<Record>)
    requires AllInRange(rs) && AllInRange(qs) && Disjoint(rs) && forall r :: r in rs <==> r in qs
    ensures ApplyAll(Blank(), rs) == ApplyAll(Blank(), qs)
  {
    var x, y := ApplyAll(Blank(), rs), ApplyAll(Blank(), qs);
    forall a | 0 <= a < IMAGE_SIZE
      ensures x.mem[a] == y.mem[a]
    {
      SameByte(rs, qs, a);
      ImageByte(rs, a);
      ImageByte(qs, a);
    }
    SameLast(rs, qs);
    SameLast(qs, rs);
  }

  lemma SameByte(rs: seq<Record>, qs: seq<Record>, a: nat)
    requires Disjoint(rs) && forall r :: r in rs <==> r in qs
    ensures LastByte(rs, a) == LastByte(qs, a)
  {
    var i := ByteSource(rs, a);
    var j := ByteSource(qs, a);
    if i >= 0 {
      assert rs[i] in qs;
    }
    if j >= 0 {
      assert qs[j] in rs;
      var k :| 0 <= k < |rs| && rs[k] == qs[j];
      assert k == i;
    }
  }

  lemma SameLast(rs: seq<Record>, qs: seq<Record>)
    requires AllInRange(rs) && AllInRange(qs) && forall r :: r in rs ==> r in qs
    ensures ApplyAll(Blank(), rs).last <= ApplyAll(Blank(), qs).last
  {
    LastIsMax(rs);
    LastIsMax(qs);
    if ApplyAll(Blank(), rs).last != 0 {
      var i :| 0 <= i < |rs| && ApplyAll(Blank(), rs).last == EndOf(rs[i]);
      assert rs[i] in qs;
      var j :| 0 <= j < |qs| && qs[j] == rs[i];
      assert EndOf(qs[j]) <= ApplyAll(Blank(), qs).last;
    }
  }

  // ---------------------------------------------------------------- the loop bound of the transfer

  /** `(int)ROUND_OUT(memory_lastaddr, 128)` in the arithmetic of the source. */
  function Limit(last: Word): (r: int) {
    ToInt((last + 127) % 0x1_0000_0000 / 128 * 128)
  }

  /** For an address inside the image: the next multiple of 128, which is still inside. */
  lemma LimitInside(last: Word)
    requires last <= IMAGE_SIZE
    ensures last <= Limit(last) < last + 128 && Limit(last) % 128 == 0 && Limit(last) <= 0x10_0100
  {
  }

  /** Whatever in-range records are read, all that they cover lies below the bound, and the bound inside the image. */
  lemma AllIsSent(rs: seq<Record>, i: nat, a: nat)
    requires AllInRange(rs) && i < |rs| && Covers(rs[i], a)
    ensures a < Limit(ApplyAll(Blank(), rs).last) <= IMAGE_SIZE
  {
    LastIsMax(rs);
    assert EndOf(rs[i]) <= ApplyAll(Blank(), rs).last;
    LastInside(rs);
    LimitInside(ApplyAll(Blank(), rs).last);
  }

  lemma LastInside(rs: seq<Record>)
    requires AllInRange(rs)
    ensures ApplyAll(Blank(), rs).last <= IMAGE_SIZE
  {
    LastIsMax(rs);
  }

  // ---------------------------------------------------------------- frames

  /** The byte that brings a sum to 0 modulo 256: `-chksum` as an `unsigned char`. */
  function Negated(sum: nat): (b: Byte)
    ensures (sum + b) % 0x100 == 0
  {
    var q, r := sum / 0x100, sum % 0x100;
    assert sum == 0x100 * q + r;
    if r == 0 then 0
    else
      assert sum + (0x100 - r) == 0x100 * (q + 1);
      0x100 - r
  }

  function FrameHead(addr: nat, payload: seq<Byte>): (r: seq<Byte>) {
    [0x50] + AddrBytes(4, addr) + payload
  }

  /** The frame that carries the 128 image bytes from `addr` on. */
  function Frame(m: Memory, addr: nat): (f: seq<Byte>)
    requires addr + PAYLOAD <= IMAGE_SIZE
    ensures |f| == PAYLOAD + 6
  {
    var h := FrameHead(addr, m[addr..addr + PAYLOAD]);
    h + [Negated(Sum(h))]
  }

  /** The first `n` frames of an image. */
  function Frames(m: Memory, n: nat): (fs: seq<seq<Byte>>)
    requires n * PAYLOAD <= IMAGE_SIZE
    ensures |fs| == n
  {
    if n == 0 then [] else Frames(m, n - 1) + [Frame(m, (n - 1) * PAYLOAD)]
  }

  const END_HEAD: seq<Byte> := [0x50, 0xff, 0xff, 0xff, 0xff]

  function EndFrame(): (r: seq<Byte>) {
    END_HEAD + [Negated(Sum(END_HEAD))]
  }

  // ---------------------------------------------------------------- the ideal device

  type Device = map<nat, Byte>

  /** `d` with `bs` written from address `base` on. */
  function Write(d: Device, base: nat, bs: seq<Byte>): (r: Device) {
    if bs == [] then d else Write(d, base, bs[..|bs| - 1])[base + |bs| - 1 := bs[|bs| - 1]]
  }

  lemma {:induction false} WriteAt(d: Device, base: nat, bs: seq<Byte>, a: nat)
    ensures a in Write(d, base, bs) <==> a in d || base <= a < base + |bs|
    ensures a in Write(d, base, bs) ==>
              Write(d, base, bs)[a] == if base <= a < base + |bs| then bs[a - base] else d[a]
    decreases |bs|
  {
    if bs != [] {
      WriteAt(d, base, bs[..|bs| - 1], a);
    }
  }

  /** A device stores the payload of a well-formed frame at the address it carries, and ignores all else. */
  function DeviceStep(d: Device, f: seq<Byte>): (r: Device) {
    if |f| == PAYLOAD + 6 && f[0] == 0x50 && Sum(f) % 0x100 == 0 then
      Write(d, BigEndian(f[1..5]), f[5..5 + PAYLOAD])
    else d
  }

  function DeviceAll(fs: seq<seq<Byte>>): (r: Device) {
    if fs == [] then map[] else DeviceStep(DeviceAll(fs[..|fs| - 1]), fs[|fs| - 1])
  }

  lemma FrameParts(m: Memory, addr: nat)
    requires addr + PAYLOAD <= IMAGE_SIZE
    ensures var f := Frame(m, addr);
            |f| == 134 && f[0] == 0x50 && Sum(f) % 0x100 == 0 && BigEndian(f[1..5]) == addr
            && f[5..133] == m[addr..addr + 128]
  {
    hide Sum, BigEndian, AddrBytes, Negated;
    var p := m[addr..addr + PAYLOAD];
    var h := FrameHead(addr, p);
    var f := Frame(m, addr);
    SumAppend(h, Negated(Sum(h)));
    assert f[1..5] == AddrBytes(4, addr);
    AddressFits(addr);
    AddrRoundTrip(4, addr);
  }

  lemma AddressFits(addr: nat)
    requires addr <= IMAGE_SIZE
    ensures addr < Power256(4)
  {
    assert Power256(4) == 0x100 * (0x100 * (0x100 * (0x100 * Power256(0))));
  }

  lemma DeviceFrame(d: Device, m: Memory, addr: nat)
    requires addr + PAYLOAD <= IMAGE_SIZE
    ensures DeviceStep(d, Frame(m, addr)) == Write(d, addr, m[addr..addr + PAYLOAD])
  {
    hide Frame, BigEndian, Sum, Write;
    FrameParts(m, addr);
  }

  /** A device fed with the first `n` frames holds exactly the first `n * 128` bytes of the image. */
  lemma {:induction false} DeviceHolds(m: Memory, n: nat, a: nat)
    requires n * PAYLOAD <= IMAGE_SIZE
    ensures a in DeviceAll(Frames(m, n)) <==> a < n * PAYLOAD
    ensures a < n * PAYLOAD ==> DeviceAll(Frames(m, n))[a] == m[a]
    decreases n
  {
    hide Frame, Write, DeviceStep, BigEndian, Sum;
    if n > 0 {
      DeviceHolds(m, n - 1, a);
      NextFrame(m, n - 1, a);
    }
  }

  /** One more frame puts exactly the next 128 bytes into the device. */
  lemma NextFrame(m: Memory, n: nat, a: nat)
    requires (n + 1) * PAYLOAD <= IMAGE_SIZE
    ensures var d, e := DeviceAll(Frames(m, n)), DeviceAll(Frames(m, n + 1));
            (a in e <==> a in d || n * PAYLOAD <= a < (n + 1) * PAYLOAD)
            && (a in e ==> e[a] == if n * PAYLOAD <= a < (n + 1) * PAYLOAD then m[a] else d[a])
  {
    hide Frame, Write, DeviceStep, BigEndian, Sum;
    var d, base := DeviceAll(Frames(m, n)), n * PAYLOAD;
    assert Frames(m, n + 1)[..n] == Frames(m, n) && Frames(m, n + 1)[n] == Frame(m, base);
    DeviceFrame(d, m, base);
    WriteAt(d, base, m[base..base + PAYLOAD], a);
  }

  // ---------------------------------------------------------------- from file to flash

  /** What `mot_read` returns, with the records it handed over. */
  datatype ReadResult =
    | ReadDone(recs: seq<Record>)
    | ReadFailed(recs: seq<Record>)
    | ReadUndefined(recs: seq<Record>)

  function ReadLine(rs: seq<Record>, line: string): (r: ReadResult) {
    if CStr(line) == [] then ReadDone(rs)
    else
      match Parse(Trim(CStr(line)))
      case Fault(_) => ReadFailed(rs)
      case Ignored => ReadDone(rs)
      case Undefined => ReadUndefined(rs)
      case Delivery(addr, data, siz) => ReadDone(rs + [Record(addr, data, siz)])
  }

  /** The records of a file, given as the lines that `fgets` returns. */
  function ReadLines(lines: seq<string>): (r: ReadResult) {
    if lines == [] then ReadDone([])
    else
      var r := ReadLines(lines[..|lines| - 1]);
      if r.ReadDone? then ReadLine(r.recs, lines[|lines| - 1]) else r
  }

  /**
   End to end: when a file is read, its records are in range and the frames of its image reach an ideal
   device, the device holds at every address below the bound the byte of the last record that covers
   it, and 0xff where none does; nothing that a record covers lies beyond the bound.
   */
  lemma FileReachesFlash(lines: seq<string>, a: nat)
    requires ReadLines(lines).ReadDone? && AllInRange(ReadLines(lines).recs)
    ensures var img := ApplyAll(Blank(), ReadLines(lines).recs);
            0 <= Limit(img.last) <= IMAGE_SIZE && Limit(img.last) % PAYLOAD == 0 &&
            var d := DeviceAll(Frames(img.mem, Limit(img.last) / PAYLOAD));
            (a in d <==> a < Limit(img.last)) && (a in d ==> d[a] == LastByte(ReadLines(lines).recs, a))
    ensures forall i :: 0 <= i < |ReadLines(lines).recs| && Covers(ReadLines(lines).recs[i], a) ==>
              a < Limit(ApplyAll(Blank(), ReadLines(lines).recs).last)
  {
    hide ReadLines, Frames, DeviceAll, Limit;
    var rs := ReadLines(lines).recs;
    var img := ApplyAll(Blank(), rs);
    LastInside(rs);
    LimitInside(img.last);
    DeviceHolds(img.mem, Limit(img.last) / PAYLOAD, a);
    if a < Limit(img.last) {
      ImageByte(rs, a);
    }
    forall i | 0 <= i < |rs| && Covers(rs[i], a)
      ensures a < Limit(img.last)
    {
      AllIsSent(rs, i, a);
    }
  }

  /** A record of the kind of `Srec.Encode`, as data. */
  datatype Source = Source(kind: char, addr: nat, data: seq<Byte>, ending: string)

  predicate Printable(s: Source) {
    '1' <= s.kind <= '3' && AddrLen(s.kind) + |s.data| + 1 <= 0xff && s.addr < Power256(AddrLen(s.kind))
    && (s.ending == [] || (IsControl(s.ending[0]) && '\0' !in s.ending))
  }

  function Text(s: Source): (r: string)
    requires Printable(s)
  {
    Encode(s.kind, s.addr, s.data) + s.ending
  }

  function LinesOf(src: seq<Source>): (r: seq<string>)
    requires forall i :: 0 <= i < |src| ==> Printable(src[i])
  {
    seq(|src|, i requires 0 <= i < |src| && Printable(src[i]) => Text(src[i]))
  }

  function RecordsOf(src: seq<Source>): (r: seq<Record>) {
    seq(|src|, i requires 0 <= i < |src| => Record(src[i].addr, src[i].data, |src[i].data|))
  }

  /** A file of printed records, with any line endings, is read as exactly those records. */
  lemma {:induction false} PrintedFile(src: seq<Source>)
    requires forall i :: 0 <= i < |src| ==> Printable(src[i])
    ensures ReadLines(LinesOf(src)) == ReadDone(RecordsOf(src))
    decreases |src|
  {
    hide Text, Printable, ReadLine;
    if src != [] {
      var n := |src| - 1;
      PrintedFile(src[..n]);
      assert LinesOf(src)[..n] == LinesOf(src[..n]);
      assert RecordsOf(src) == RecordsOf(src[..n]) + [Record(src[n].addr, src[n].data, |src[n].data|)];
      PrintedLine(src[n], RecordsOf(src[..n]));
    }
  }

  lemma PrintedLine(s: Source, rs: seq<Record>)
    requires Printable(s)
    ensures ReadLine(rs, Text(s)) == ReadDone(rs + [Record(s.addr, s.data, |s.data|)])
  {
    hide Encode, Parse, Power256;
    var txt := Encode(s.kind, s.addr, s.data);
    EncodeShape(s.kind, s.addr, s.data);
    assert forall i :: 2 <= i < |txt| ==> txt[i] == txt[2..][i - 2] && IsUpperHex(txt[2..][i - 2]);
    NoNul(txt + s.ending);
    ReadPrinted(s.kind, s.addr, s.data, s.ending);
  }

  lemma NoNul(s: string)
    requires '\0' !in s
    ensures CStr(s) == s
  {
    if s != [] {
      assert s[0] in s;
      NoNul(s[1..]);
    }
  }
}
