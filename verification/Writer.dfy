/** The static state of kz_h8write.c that the S-record file fills: `memory_image` and `memory_lastaddr`. */
module Writer {
  import opened Prelude
  import opened Srec
  import opened Flash

  datatype ReadCode = Ok | Error(code: int) | UndefinedRead

  /** The return value of `mot_read` for what was read. */
  function CodeOf(r: ReadResult): (res: ReadCode) {
    match r
    case ReadDone(_) => Ok
    case ReadFailed(_) => Error(-2)
    case ReadUndefined(_) => UndefinedRead
  }

  /** Reading stops at the first line that is refused. */
  lemma {:induction false} ReadStops(lines: seq<string>, i: nat)
    requires i <= |lines| && !ReadLines(lines[..i]).ReadDone?
    ensures ReadLines(lines) == ReadLines(lines[..i])
    decreases |lines| - i
  {
    if i < |lines| {
      assert lines[..i + 1][..i] == lines[..i];
      ReadStops(lines, i + 1);
    } else {
      assert lines[..i] == lines;
    }
  }

  lemma ReadLineGrows(rs: seq<Record>, line: string)
    ensures rs <= ReadLine(rs, line).recs
  {
    hide Parse, Trim, CStr;
  }

  /** The records of the first lines are records of the file. */
  lemma {:induction false} ReadPrefix(lines: seq<string>, i: nat)
    requires i <= |lines|
    ensures ReadLines(lines[..i]).recs <= ReadLines(lines).recs
    decreases |lines| - i
  {
    hide ReadLine;
    if i < |lines| {
      assert lines[..i + 1][..i] == lines[..i] && lines[..i + 1][i] == lines[i];
      ReadPrefix(lines, i + 1);
      ReadLineGrows(ReadLines(lines[..i]).recs, lines[i]);
    } else {
      assert lines[..i] == lines;
    }
  }

  // ---------------------------------------------------------------- what reading a file comes to

  /** A line that hands over nothing: an empty one, or a record of a type without data. */
  predicate Quiet(line: string) {
    CStr(line) == [] || Parse(Trim(CStr(line))).Ignored?
  }

  predicate Delivers(line: string) {
    CStr(line) != [] && Parse(Trim(CStr(line))).Delivery?
  }

  predicate Refused(line: string) {
    CStr(line) != [] && Parse(Trim(CStr(line))).Fault?
  }

  /** The first `n` lines are all accepted. */
  predicate Accepted(lines: seq<string>, n: nat) {
    n <= |lines| && forall i :: 0 <= i < n ==> Quiet(lines[i]) || Delivers(lines[i])
  }

  /** Reading ends behind the first `n` lines: they are accepted, and the next is not or does not exist. */
  predicate EndsAt(lines: seq<string>, n: nat) {
    Accepted(lines, n) && (n == |lines| || !(Quiet(lines[n]) || Delivers(lines[n])))
  }

  /** The records that lines hand over, in order. */
  function RecordsIn(lines: seq<string>): (rs: seq<Record>) {
    if lines == [] then []
    else if Delivers(lines[0]) then
      var p := Parse(Trim(CStr(lines[0])));
      [Record(p.addr, p.data, p.siz)] + RecordsIn(lines[1..])
    else RecordsIn(lines[1..])
  }

  lemma {:induction false} RecordsMore(lines: seq<string>, line: string)
    ensures RecordsIn(lines + [line]) == RecordsIn(lines) + RecordsIn([line])
  {
    hide Delivers;
    if lines == [] {
      assert lines + [line] == [line];
    } else {
      assert (lines + [line])[1..] == lines[1..] + [line];
      RecordsMore(lines[1..], line);
    }
  }

  lemma RecordsOne(line: string)
    ensures RecordsIn([line]) == if Delivers(line) then
                                   var p := Parse(Trim(CStr(line)));
                                   [Record(p.addr, p.data, p.siz)]
                                 else []
  {
    assert [line][1..] == [];
  }

  lemma {:induction false} AcceptedRead(lines: seq<string>, n: nat)
    requires Accepted(lines, n)
    ensures ReadLines(lines[..n]) == ReadDone(RecordsIn(lines[..n]))
  {
    hide Parse, Trim, CStr;
    if n > 0 {
      AcceptedRead(lines, n - 1);
      assert lines[..n][..n - 1] == lines[..n - 1] && lines[..n] == lines[..n - 1] + [lines[n - 1]];
      RecordsMore(lines[..n - 1], lines[n - 1]);
      RecordsOne(lines[n - 1]);
    }
  }

  /** How reading ends, and with which records, for the lines that end it. */
  lemma ReadEnds(lines: seq<string>, n: nat)
    requires EndsAt(lines, n)
    ensures ReadLines(lines).recs == RecordsIn(lines[..n])
    ensures CodeOf(ReadLines(lines)) ==
            if n == |lines| then Ok else if Refused(lines[n]) then Error(-2) else UndefinedRead
  {
    hide Parse, Trim, CStr, ReadLines, RecordsIn;
    AcceptedRead(lines, n);
    if n == |lines| {
      assert lines[..n] == lines;
    } else {
      assert lines[..n + 1][..n] == lines[..n] && lines[..n + 1][n] == lines[n];
      LineEnds(lines, n);
      ReadStops(lines, n + 1);
    }
  }

  lemma LineEnds(lines: seq<string>, n: nat)
    requires n < |lines| && ReadLines(lines[..n]).ReadDone? && !(Quiet(lines[n]) || Delivers(lines[n]))
    ensures ReadLines(lines[..n + 1]) ==
            if Refused(lines[n]) then ReadFailed(ReadLines(lines[..n]).recs) else ReadUndefined(ReadLines(lines[..n]).recs)
  {
    hide Parse, Trim, CStr;
    assert lines[..n + 1][..n] == lines[..n] && lines[..n + 1][n] == lines[n];
  }

  /** Reading ends at exactly one place. */
  lemma {:induction false} EndsSomewhere(lines: seq<string>, i: nat) returns (n: nat)
    requires Accepted(lines, i)
    ensures EndsAt(lines, n) && forall m: nat :: EndsAt(lines, m) ==> m == n
    decreases |lines| - i
  {
    hide Quiet, Delivers;
    if i == |lines| || !(Quiet(lines[i]) || Delivers(lines[i])) {
      n := i;
    } else {
      n := EndsSomewhere(lines, i + 1);
    }
  }

  class Writer {
    const image: array<Byte>
    var lastaddr: Word

    ghost predicate Valid() {
      image.Length == IMAGE_SIZE
    }

    ghost function Abs(): (r: Image)
      requires Valid()
      reads this, image
    {
      Image(image[..], lastaddr)
    }

    /** The initial state that `main` sets up: every byte erased. */
    constructor ()
      ensures Valid() && Abs() == Blank() && fresh(image)
    {
      image := new Byte[IMAGE_SIZE](_ => 0xff);
      lastaddr := 0;
      new;
      assert image[..] == Blank().mem;
    }

    method MotCallback(addr: nat, buf: seq<Byte>, siz: int)
      requires Valid() && InRange(Record(addr, buf, siz))
      modifies `lastaddr, image
      ensures Abs() == Apply(old(Abs()), Record(addr, buf, siz))
    {
      ghost var m, r, l := image[..], Record(addr, buf, siz), lastaddr;
      var end: Word := (addr + siz) % 0x1_0000_0000;
      var i := 0;
      while i < siz
        invariant 0 <= i <= |buf| && lastaddr == l
        invariant forall a :: 0 <= a < IMAGE_SIZE ==> image[a] == if addr <= a < addr + i then buf[a - addr] else m[a]
      {
        image[addr + i] := buf[i];
        i := i + 1;
      }
      assert image[..] == Overlay(m, r) && end == EndOf(r);
      if lastaddr < end {
        lastaddr := end;
      }
    }

    /** `mot_read`, over the lines that `fgets` returns. */
    method MotRead(lines: seq<string>) returns (code: ReadCode)
      requires Valid() && AllInRange(ReadLines(lines).recs)
      modifies `lastaddr, image
      ensures Abs() == ApplyAll(old(Abs()), ReadLines(lines).recs)
      ensures code == CodeOf(ReadLines(lines))
      ensures code == Ok <==> Accepted(lines, |lines|)
      ensures code == Error(-2) <==> exists n :: 0 <= n < |lines| && EndsAt(lines, n) && Refused(lines[n])
      ensures forall n: nat :: EndsAt(lines, n) ==> ReadLines(lines).recs == RecordsIn(lines[..n])
    {
      ReadMeaning(lines);
      hide ReadLine, ApplyAll, Accepted, EndsAt, Refused, RecordsIn;
      ghost var img := Abs();
      NothingApplied(img);
      var buf := new Byte[0x100];
      var k := 0;
      while k < |lines|
        invariant k <= |lines| && ReadLines(lines[..k]).ReadDone? && AllInRange(ReadLines(lines[..k]).recs)
        invariant Abs() == ApplyAll(img, ReadLines(lines[..k]).recs)
        decreases |lines| - k
      {
        assert lines[..k + 1][..k] == lines[..k];
        ReadPrefix(lines, k + 1);
        code := OneLine(lines[k], buf, ReadLines(lines[..k]).recs, img);
        if code != Ok {
          ReadStops(lines, k + 1);
          return;
        }
        k := k + 1;
      }
      assert lines[..k] == lines;
      return Ok;
    }

    lemma ReadMeaning(lines: seq<string>)
      ensures CodeOf(ReadLines(lines)) == Ok <==> Accepted(lines, |lines|)
      ensures CodeOf(ReadLines(lines)) == Error(-2) <==>
                exists n :: 0 <= n < |lines| && EndsAt(lines, n) && Refused(lines[n])
      ensures forall n: nat :: EndsAt(lines, n) ==> ReadLines(lines).recs == RecordsIn(lines[..n])
    {
      hide Quiet, Delivers, Refused, ReadLines;
      var n := EndsSomewhere(lines, 0);
      ReadEnds(lines, n);
      assert Accepted(lines, |lines|) <==> EndsAt(lines, |lines|);
    }

    lemma NothingApplied(img: Image)
      ensures ApplyAll(img, []) == img
    {
    }

    /** The body of the loop of `mot_read`. */
    method OneLine(line: string, buf: array<Byte>, ghost rs: seq<Record>, ghost img: Image) returns (code: ReadCode)
      requires Valid() && buf.Length >= 0xff && AllInRange(rs) && Abs() == ApplyAll(img, rs) && buf != image
      requires AllInRange(ReadLine(rs, line).recs)
      modifies `lastaddr, image, buf
      ensures Abs() == ApplyAll(img, ReadLine(rs, line).recs) && code == CodeOf(ReadLine(rs, line))
    {
      hide Parse, Trim, CStr, Apply;
      var p := ReadOne(line, buf);
      match p {
        case None =>
          return Ok;
        case Some(Fault(_)) =>
          return Error(-2);
        case Some(Ignored) =>
          return Ok;
        case Some(Undefined) =>
          return UndefinedRead;
        case Some(Delivery(addr, data, siz)) =>
          ghost var r := Record(addr, data, siz);
          assert (rs + [r])[..|rs|] == rs && (rs + [r])[|rs|] == r;
          MotCallback(addr, data, siz);
          return Ok;
      }
    }

    /** One line: nothing for an empty one, else trimmed and parsed. */
    method ReadOne(line: string, buf: array<Byte>) returns (p: Option<Parsed>)
      requires buf.Length >= 0xff
      modifies buf
      ensures p == if CStr(line) == [] then None else Some(Parse(Trim(CStr(line))))
    {
      var txt := new char[|line| + 1](i => if 0 <= i < |line| then line[i] else '\0');
      assert txt[|line|] == '\0' && txt[..] == line + ['\0'];
      Terminated(line);
      var len := StrLen(txt);
      if len == 0 {
        return None;
      }
      TextTrim(txt);
      var q := ParseRecord(txt, buf);
      return Some(q);
    }

    /** The terminator that `fgets` stores. */
    lemma Terminated(s: string)
      ensures CStr(s + ['\0']) == CStr(s)
    {
      if s != [] {
        Terminated(s[1..]);
        assert (s + ['\0'])[1..] == s[1..] + ['\0'];
      }
    }
  }
}
