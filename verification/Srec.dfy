/**
 Motorola S-records as mot.c reads them: the functions say what a line means, the methods are the
 loops of the source.
 */
module Srec {
  import opened Prelude

  // ---------------------------------------------------------------- sums

  function Sum(bs: seq<Byte>): (r: nat) {
    if bs == [] then 0 else Sum(bs[..|bs| - 1]) + bs[|bs| - 1]
  }

  lemma SumAppend(bs: seq<Byte>, b: Byte)
    ensures Sum(bs + [b]) == Sum(bs) + b
  {
    assert (bs + [b])[..|bs|] == bs;
  }

  lemma {:induction false} SumConcat(a: seq<Byte>, b: seq<Byte>)
    ensures Sum(a + b) == Sum(a) + Sum(b)
    decreases |b|
  {
    if b == [] {
      assert a + b == a;
    } else {
      var n := |b| - 1;
      assert a + b == (a + b[..n]) + [b[n]] && b == b[..n] + [b[n]];
      SumAppend(a + b[..n], b[n]);
      SumAppend(b[..n], b[n]);
      SumConcat(a, b[..n]);
    }
  }

  /** Changing one byte changes the sum by the difference. */
  lemma SumUpdate(bs: seq<Byte>, i: nat, b: Byte)
    requires i < |bs|
    ensures Sum(bs[i := b]) == Sum(bs) - bs[i] + b
    decreases |bs|
  {
    var n := |bs| - 1;
    if i < n {
      SumUpdate(bs[..n], i, b);
      assert bs[i := b][..n] == bs[..n][i := b];
    } else {
      assert bs[i := b][..n] == bs[..n];
    }
  }

  /** Two different bytes differ modulo 256, which is why one wrong byte never cancels out. */
  lemma WrongByte(rest: int, a: Byte, b: Byte)
    requires a != b
    ensures (rest + a) % 0x100 != (rest + b) % 0x100
  {
    var x, y := (rest + a) / 0x100, (rest + b) / 0x100;
    assert rest + a == 0x100 * x + (rest + a) % 0x100;
    assert rest + b == 0x100 * y + (rest + b) % 0x100;
  }

  // ---------------------------------------------------------------- hexadecimal

  predicate IsUpperHex(c: char) {
    '0' <= c <= '9' || 'A' <= c <= 'F'
  }

  predicate UpperHex(s: string) {
    forall i :: 0 <= i < |s| ==> IsUpperHex(s[i])
  }

  /** The value of a digit; every other character counts as -1. */
  function Digit(c: char): (d: int)
    ensures -1 <= d < 16
    ensures IsUpperHex(c) <==> 0 <= d
  {
    if '0' <= c <= '9' then c as int - '0' as int
    else if 'A' <= c <= 'F' then c as int - 'A' as int + 10
    else -1
  }

  /** The value of a pair of digits as `int`, below zero only if a character is no digit. */
  function Pair(a: char, b: char): (r: int) {
    0x10 * Digit(a) + Digit(b)
  }

  /** The byte that the source stores for a pair. */
  function PairByte(a: char, b: char): (r: Byte) {
    Pair(a, b) % 0x100
  }

  const HEX_TXT := "0123456789ABCDEF"

  /** `get_hex_num`: the digit as an `unsigned int`, so that the -1 of its last line is 2^32 - 1. */
  method GetHexNum(c: char) returns (r: Word)
    ensures r == Digit(c) % 0x1_0000_0000
  {
    for i := 0 to 16
      invariant forall j :: 0 <= j < i ==> c != HEX_TXT[j]
    {
      HexText(i);
      if c == HEX_TXT[i] {
        return i;
      }
    }
    DigitText(c);
    return 0xffff_ffff;
  }

  lemma HexText(i: nat)
    requires i < 16
    ensures |HEX_TXT| == 16 && HEX_TXT == "0123456789ABCDEF" && Digit("0123456789ABCDEF"[i]) == i
  {
  }

  lemma DigitText(c: char)
    ensures |HEX_TXT| == 16 && (IsUpperHex(c) ==> HEX_TXT[Digit(c)] == c)
  {
  }

  /** The `int` that `unsigned int` arithmetic leaves. */
  function ToInt(w: Word): (r: int) {
    if w < 0x8000_0000 then w else w - 0x1_0000_0000
  }

  /** `get_hex_num(a) * 0x10 + get_hex_num(b)` in 32-bit arithmetic, as an `int` and as a byte. */
  method HexPair(a: char, b: char) returns (n: int, byte: Byte)
    ensures n == Pair(a, b) && byte == PairByte(a, b)
  {
    var x := GetHexNum(a);
    var y := GetHexNum(b);
    var w: Word := (x as int * 0x10 % 0x1_0000_0000 + y as int) % 0x1_0000_0000;
    Wrap(Digit(a), Digit(b));
    n, byte := ToInt(w), w % 0x100;
  }

  lemma Wrap(d: int, e: int)
    requires -1 <= d < 16 && -1 <= e < 16
    ensures var w := (d % 0x1_0000_0000 * 0x10 % 0x1_0000_0000 + e % 0x1_0000_0000) % 0x1_0000_0000;
            ToInt(w) == 0x10 * d + e && w % 0x100 == (0x10 * d + e) % 0x100
  {
    var x: Word := if d == -1 then 0xffff_fff0 else 0x10 * d;
    var y: Word := if e == -1 then 0xffff_ffff else e;
    assert d % 0x1_0000_0000 * 0x10 % 0x1_0000_0000 == x && e % 0x1_0000_0000 == y;
    Carry(x, y);
    LowBits(0x10 * d + e);
  }

  lemma Carry(x: Word, y: Word)
    ensures (x + y) % 0x1_0000_0000 == if x + y < 0x1_0000_0000 then x + y else x + y - 0x1_0000_0000
  {
  }

  lemma LowBits(n: int)
    ensures (n + 0x1_0000_0000) % 0x100 == n % 0x100
  {
  }

  function HexDigit(d: nat): (c: char)
    requires d < 16
    ensures IsUpperHex(c) && Digit(c) == d
  {
    if d < 10 then (d + '0' as int) as char else (d - 10 + 'A' as int) as char
  }

  lemma HexDigitOnly(c: char)
    requires IsUpperHex(c)
    ensures HexDigit(Digit(c)) == c
  {
  }

  function Hex(b: Byte): (s: string)
    ensures |s| == 2 && UpperHex(s) && Pair(s[0], s[1]) == b
  {
    [HexDigit(b / 0x10), HexDigit(b % 0x10)]
  }

  function HexAll(bs: seq<Byte>): (s: string)
    ensures |s| == 2 * |bs| && UpperHex(s)
  {
    if bs == [] then [] else HexAll(bs[..|bs| - 1]) + Hex(bs[|bs| - 1])
  }

  /** The bytes stored for the `n` pairs of `s`. */
  function Unhex(s: string, n: nat): (bs: seq<Byte>)
    requires |s| == 2 * n
    ensures |bs| == n && forall i :: 0 <= i < n ==> bs[i] == PairByte(s[2 * i], s[2 * i + 1])
  {
    seq(n, i requires 0 <= i < n => PairByte(s[2 * i], s[2 * i + 1]))
  }

  lemma {:induction false} HexAllAt(bs: seq<Byte>, i: nat)
    requires i < |bs|
    ensures HexAll(bs)[2 * i] == Hex(bs[i])[0] && HexAll(bs)[2 * i + 1] == Hex(bs[i])[1]
    decreases |bs|
  {
    var n := |bs| - 1;
    if i < n {
      HexAllAt(bs[..n], i);
    }
  }

  lemma HexByte(b: Byte)
    ensures PairByte(Hex(b)[0], Hex(b)[1]) == b
  {
  }

  /** Reading printed bytes gives the bytes ... */
  lemma UnhexHex(bs: seq<Byte>)
    ensures Unhex(HexAll(bs), |bs|) == bs
  {
    hide Digit, HexDigit, HexAll, Hex, Pair, PairByte, Unhex;
    forall i | 0 <= i < |bs|
      ensures Unhex(HexAll(bs), |bs|)[i] == bs[i]
    {
      HexAllAt(bs, i);
      HexByte(bs[i]);
    }
  }

  /** ... and printing what was read from upper-case digits gives the text. */
  lemma {:induction false} HexUnhex(s: string, n: nat)
    requires |s| == 2 * n && UpperHex(s)
    ensures HexAll(Unhex(s, n)) == s
  {
    hide PairByte, Digit, Hex, IsUpperHex;
    if n > 0 {
      var m := n - 1;
      HexUnhex(s[..2 * m], m);
      assert Unhex(s, n)[..m] == Unhex(s[..2 * m], m);
      PairPrint(s[2 * m], s[2 * m + 1]);
      assert s == s[..2 * m] + [s[2 * m], s[2 * m + 1]];
    }
  }

  lemma PairPrint(a: char, b: char)
    requires IsUpperHex(a) && IsUpperHex(b)
    ensures Hex(PairByte(a, b)) == [a, b]
  {
    HexDigitOnly(a);
    HexDigitOnly(b);
    hide Digit, HexDigit;
    Digits16(Digit(a), Digit(b));
  }

  lemma Digits16(d: nat, e: nat)
    requires d < 16 && e < 16
    ensures (0x10 * d + e) % 0x100 == 0x10 * d + e && (0x10 * d + e) / 0x10 == d && (0x10 * d + e) % 0x10 == e
  {
  }

  // ---------------------------------------------------------------- records

  /** How many address bytes a data record has; 0 for the types that carry no data. */
  function AddrLen(kind: char): (r: nat) {
    if kind == '1' then 2 else if kind == '2' then 3 else if kind == '3' then 4 else 0
  }

  /** Big-endian bytes and back. */
  function BigEndian(bs: seq<Byte>): (r: nat) {
    if bs == [] then 0 else BigEndian(bs[..|bs| - 1]) * 0x100 + bs[|bs| - 1]
  }

  function AddrBytes(n: nat, addr: nat): (bs: seq<Byte>)
    ensures |bs| == n
  {
    if n == 0 then [] else AddrBytes(n - 1, addr / 0x100) + [addr % 0x100]
  }

  function Power256(n: nat): (r: nat) {
    if n == 0 then 1 else 0x100 * Power256(n - 1)
  }

  lemma {:induction false} AddrRoundTrip(n: nat, addr: nat)
    requires addr < Power256(n)
    ensures BigEndian(AddrBytes(n, addr)) == addr
  {
    if n > 0 {
      AddrRoundTrip(n - 1, addr / 0x100);
      assert AddrBytes(n, addr)[..n - 1] == AddrBytes(n - 1, addr / 0x100);
    }
  }

  lemma LowByte(h: nat, b: Byte)
    ensures (h * 0x100 + b as int) / 0x100 == h && (h * 0x100 + b as int) % 0x100 == b
  {
  }

  lemma {:induction false} AddrParse(bs: seq<Byte>)
    ensures BigEndian(bs) < Power256(|bs|) && AddrBytes(|bs|, BigEndian(bs)) == bs
  {
    if bs != [] {
      var n := |bs| - 1;
      AddrParse(bs[..n]);
      LowByte(BigEndian(bs[..n]), bs[n]);
      AddrBytesPush(n, BigEndian(bs[..n]), bs[n]);
      assert bs == bs[..n] + [bs[n]];
    }
  }

  lemma AddrBytesPush(n: nat, h: nat, b: Byte)
    ensures AddrBytes(n + 1, h * 0x100 + b as int) == AddrBytes(n, h) + [b]
  {
    LowByte(h, b);
  }

  /**
   What `parse_record` makes of a line: a negative code; nothing to deliver; a delivery of `siz` bytes
   to `addr`; or a read of bytes that were never stored.  A delivery with `siz == -1` has no data.
   */
  datatype Parsed =
    | Fault(code: int)
    | Ignored
    | Delivery(addr: nat, data: seq<Byte>, siz: int)
    | Undefined

  /** The `n` bytes that a line announces. */
  function LineBytes(txt: string, n: nat): (bs: seq<Byte>)
    requires |txt| == 2 * n + 4
    ensures |bs| == n
  {
    Unhex(txt[4..], n)
  }

  /** The one's complement of the sum of the length and the bytes behind it. */
  function CheckByte(n: nat, sum: nat): (r: Byte) {
    0xff - (n + sum) % 0x100
  }

  function Parse(txt: string): (r: Parsed) {
    if |txt| < 4 then Fault(-1)
    else if txt[0] != 'S' then Fault(-2)
    else if !('0' <= txt[1] <= '9') then Fault(-3)
    else
      var n := Pair(txt[2], txt[3]);
      if n * 2 != |txt| - 4 then Fault(-4)
      else if n == 0 then Undefined  // the checksum is looked for before the buffer
      else
        var bs := LineBytes(txt, n);
        if bs[n - 1] != CheckByte(n, Sum(bs[..n - 1])) then Fault(-5)
        else
          var al := AddrLen(txt[1]);
          if al == 0 then Ignored
          else if n < al then Undefined  // the address is taken from bytes that were not stored
          else Delivery(BigEndian(bs[..al]), if n == al then [] else bs[al..n - 1], n - al - 1)
  }

  // ---------------------------------------------------------------- the printer and inversion

  function Checksum(body: seq<Byte>): (r: Byte) {
    CheckByte(|body| + 1, Sum(body))
  }

  /** The record of type `kind` that places `data` at `addr`, in upper-case hexadecimal. */
  function Encode(kind: char, addr: nat, data: seq<Byte>): (r: string)
    requires '1' <= kind <= '3' && AddrLen(kind) + |data| + 1 <= 0xff
  {
    var body := AddrBytes(AddrLen(kind), addr) + data;
    ['S', kind] + Hex(|body| + 1) + HexAll(body + [Checksum(body)])
  }

  lemma EncodeShape(kind: char, addr: nat, data: seq<Byte>)
    requires '1' <= kind <= '3' && AddrLen(kind) + |data| + 1 <= 0xff
    ensures var body, txt := AddrBytes(AddrLen(kind), addr) + data, Encode(kind, addr, data);
            |txt| == 4 + 2 * (|body| + 1) && txt[0] == 'S' && txt[1] == kind && UpperHex(txt[2..])
            && Pair(txt[2], txt[3]) == |body| + 1 && LineBytes(txt, |body| + 1) == body + [Checksum(body)]
  {
    hide Hex, HexAll, HexDigit, Digit, AddrBytes, Checksum, Sum, Pair, PairByte, Unhex;
    var body, txt := AddrBytes(AddrLen(kind), addr) + data, Encode(kind, addr, data);
    assert txt[4..] == HexAll(body + [Checksum(body)]);
    assert txt[2..] == Hex(|body| + 1) + HexAll(body + [Checksum(body)]);
    UnhexHex(body + [Checksum(body)]);
  }

  /** What is printed is read back: the address and the data, exactly. */
  lemma ParseEncode(kind: char, addr: nat, data: seq<Byte>)
    requires '1' <= kind <= '3' && AddrLen(kind) + |data| + 1 <= 0xff && addr < Power256(AddrLen(kind))
    ensures Parse(Encode(kind, addr, data)) == Delivery(addr, data, |data|)
  {
    hide Encode, HexAll, Hex, LineBytes, AddrBytes, BigEndian, Power256, Sum, Digit, CheckByte;
    EncodeShape(kind, addr, data);
    var al := AddrLen(kind);
    var body := AddrBytes(al, addr) + data;
    var bs := body + [Checksum(body)];
    AddrRoundTrip(al, addr);
    assert bs[..|body|] == body && bs[..al] == AddrBytes(al, addr) && bs[al..|body|] == data;
  }

  /** The parts of an accepted data line. */
  lemma DeliveryShape(txt: string)
    requires Parse(txt).Delivery? && Parse(txt).siz >= 0
    ensures var d, al, n := Parse(txt), AddrLen(txt[1]), Pair(txt[2], txt[3]);
            '1' <= txt[1] <= '3' && txt[0] == 'S' && 0 < n <= 0xff && |txt| == 2 * n + 4
            && al + |d.data| + 1 == n && d.siz == |d.data| && d.addr < Power256(al)
            && LineBytes(txt, n) == AddrBytes(al, d.addr) + d.data + [Checksum(AddrBytes(al, d.addr) + d.data)]
  {
    hide AddrBytes, BigEndian, Power256, Sum, LineBytes, Pair, CheckByte, Parse;
    DeliveryParts(txt);
    var d, al, n := Parse(txt), AddrLen(txt[1]), Pair(txt[2], txt[3]);
    var bs := LineBytes(txt, n);
    AddrParse(bs[..al]);
    SplitBytes(bs, al);
  }

  lemma DeliveryParts(txt: string)
    requires Parse(txt).Delivery? && Parse(txt).siz >= 0
    ensures var d, al, n := Parse(txt), AddrLen(txt[1]), Pair(txt[2], txt[3]);
            '1' <= txt[1] <= '3' && txt[0] == 'S' && al < n <= 0xff && |txt| == 2 * n + 4 &&
            var bs := LineBytes(txt, n);
            bs[n - 1] == CheckByte(n, Sum(bs[..n - 1])) && d == Delivery(BigEndian(bs[..al]), bs[al..n - 1], n - al - 1)
  {
    PairBound(txt[2], txt[3]);
    hide BigEndian, Sum, LineBytes, Pair, CheckByte;
  }

  lemma SplitBytes(bs: seq<Byte>, al: nat)
    requires al < |bs|
    ensures bs[..|bs| - 1] == bs[..al] + bs[al..|bs| - 1] && bs == bs[..al] + bs[al..|bs| - 1] + [bs[|bs| - 1]]
  {
  }

  /** Text with the shape of a record, printed again. */
  lemma PrintedAgain(txt: string, kind: char, addr: nat, data: seq<Byte>)
    requires '1' <= kind <= '3' && AddrLen(kind) + |data| + 1 <= 0xff
    requires var body := AddrBytes(AddrLen(kind), addr) + data;
             |txt| == 2 * (|body| + 1) + 4 && txt[0] == 'S' && txt[1] == kind && UpperHex(txt[2..])
             && LineBytes(txt, |body| + 1) == body + [Checksum(body)] && Pair(txt[2], txt[3]) == |body| + 1
    ensures txt == Encode(kind, addr, data)
  {
    hide AddrBytes, Checksum, Digit, Hex, HexAll, Unhex, Pair, PairByte, CheckByte, Sum;
    assert forall i :: 0 <= i < |txt| - 4 ==> txt[4..][i] == txt[2..][i + 2];
    HexUnhex(txt[4..], AddrLen(kind) + |data| + 1);
    assert IsUpperHex(txt[2..][0]) && IsUpperHex(txt[2..][1]);
    PairPrint(txt[2], txt[3]);
    assert txt == [txt[0], txt[1]] + [txt[2], txt[3]] + txt[4..];
  }

  /**
   A line that delivers something is the printed form of what it delivers iff all characters behind
   the type are upper-case hexadecimal digits; the source does not check that they are.
   */
  lemma EncodeParse(txt: string)
    requires Parse(txt).Delivery? && Parse(txt).siz >= 0
    ensures var d := Parse(txt);
            AddrLen(txt[1]) + |d.data| + 1 <= 0xff && d.siz == |d.data| && d.addr < Power256(AddrLen(txt[1]))
            && (txt == Encode(txt[1], d.addr, d.data) <==> UpperHex(txt[2..]))
  {
    hide Parse, LineBytes, AddrBytes, Power256, Encode, Checksum, Pair;
    var d := Parse(txt);
    DeliveryShape(txt);
    EncodeShape(txt[1], d.addr, d.data);
    if UpperHex(txt[2..]) {
      PrintedAgain(txt, txt[1], d.addr, d.data);
    }
  }

  /** A line with a character that is no digit, and yet it is accepted: `1z` is read as 0x0f. */
  lemma NonHexAccepted()
    ensures Parse("S10400001zEC") == Delivery(0, [0x0f], 1)
    ensures "S10400001zEC" != Encode('1', 0, [0x0f])
  {
    var txt := "S10400001zEC";
    NonHexBytes();
    BytesSum();
    var bs := LineBytes(txt, 4);
    assert bs[..3] == [0, 0, 0x0f] && bs[..2] == [0, 0] && bs[2..3] == [0x0f];
    assert Pair(txt[2], txt[3]) == 4;
    hide LineBytes, Sum, BigEndian, Encode, Pair;
    assert Parse(txt) == Delivery(0, [0x0f], 1);
    EncodeParse(txt);
    assert txt[2..][7] == 'z';
  }

  lemma NonHexBytes()
    ensures LineBytes("S10400001zEC", 4) == [0, 0, 0x0f, 0xec]
  {
    var txt := "S10400001zEC";
    PairAt(txt, 4, 0);
    PairAt(txt, 4, 1);
    PairAt(txt, 4, 2);
    PairAt(txt, 4, 3);
    hide LineBytes;
    assert PairByte('0', '0') == 0 && PairByte('1', 'z') == 0x0f && PairByte('E', 'C') == 0xec;
  }

  lemma BytesSum()
    ensures Sum([0, 0, 0x0f]) == 0x0f && BigEndian([0, 0]) == 0
  {
    assert Sum([]) == 0 && BigEndian([]) == 0;
    hide Sum, BigEndian;
    SumAppend([], 0);
    SumAppend([0], 0);
    SumAppend([0, 0], 0x0f);
    BigEndianPush([], 0);
    BigEndianPush([0], 0);
    assert [] + [0] == [0] && [0] + [0] == [0, 0] && [0, 0] + [0x0f] == [0, 0, 0x0f];
  }

  // ---------------------------------------------------------------- outcomes, spelled out

  /** Which line gets which of the first four codes; the fifth is `AcceptedIff`. */
  lemma ParseCodes(txt: string)
    ensures Parse(txt) == Fault(-1) <==> |txt| < 4
    ensures Parse(txt) == Fault(-2) <==> |txt| >= 4 && txt[0] != 'S'
    ensures Parse(txt) == Fault(-3) <==> |txt| >= 4 && txt[0] == 'S' && !('0' <= txt[1] <= '9')
    ensures Parse(txt) == Fault(-4) <==>
              |txt| >= 4 && txt[0] == 'S' && '0' <= txt[1] <= '9' && 2 * (0x10 * Digit(txt[2]) + Digit(txt[3])) != |txt| - 4
    ensures Parse(txt).Fault? ==> -5 <= Parse(txt).code <= -1
  {
    hide LineBytes, BigEndian, Digit, Sum, CheckByte;
  }

  /**
   What a line with a good checksum hands over: nothing for the types 0 and 4 to 9, else the address in the
   first two, three or four bytes, high byte first, and the bytes between it and the checksum.
   */
  lemma DeliveryMeaning(txt: string)
    requires |txt| > 4 && !Parse(txt).Fault?
    ensures txt[0] == 'S' && '0' <= txt[1] <= '9' && |txt| == 2 * Pair(txt[2], txt[3]) + 4
    ensures Parse(txt) == Ignored <==> !('1' <= txt[1] <= '3')
    ensures var n, p := Pair(txt[2], txt[3]), Parse(txt);
            var bs := LineBytes(txt, n);
            (p == Undefined <==> '1' <= txt[1] <= '3' && n < txt[1] as int - '0' as int + 1)
            && (p.Delivery? && txt[1] == '1' ==>
                  p.addr == bs[0] as int * 0x100 + bs[1] as int
                  && p.siz == n - 3 && p.data == if n == 2 then [] else bs[2..n - 1])
            && (p.Delivery? && txt[1] == '2' ==>
                  p.addr == bs[0] as int * 0x1_0000 + bs[1] as int * 0x100 + bs[2] as int
                  && p.siz == n - 4 && p.data == if n == 3 then [] else bs[3..n - 1])
            && (p.Delivery? && txt[1] == '3' ==>
                  p.addr == bs[0] as int * 0x100_0000 + bs[1] as int * 0x1_0000 + bs[2] as int * 0x100 + bs[3] as int
                  && p.siz == n - 5 && p.data == if n == 4 then [] else bs[4..n - 1])
  {
    var n := Pair(txt[2], txt[3]);
    hide LineBytes, BigEndian, Digit, Sum, CheckByte, Pair;
    BigEndianOf(LineBytes(txt, n));
  }

  /** Byte `i` of a line is written by the characters 2i + 4 and 2i + 5. */
  lemma ByteOfLine(txt: string, n: nat, i: nat)
    requires |txt| == 2 * n + 4 && i < n
    ensures LineBytes(txt, n)[i] == (0x10 * Digit(txt[2 * i + 4]) + Digit(txt[2 * i + 5])) % 0x100
  {
    hide LineBytes, Digit;
    PairAt(txt, n, i);
  }

  // ---------------------------------------------------------------- the checksum

  /** The check that a line of matching length passes or fails: all its bytes sum to 255 modulo 256. */
  lemma AcceptedIff(txt: string)
    requires |txt| > 4 && txt[0] == 'S' && '0' <= txt[1] <= '9' && 2 * Pair(txt[2], txt[3]) == |txt| - 4
    ensures var n := Pair(txt[2], txt[3]); Parse(txt) != Fault(-5) <==> (n + Sum(LineBytes(txt, n))) % 0x100 == 0xff
    ensures Parse(txt).Fault? ==> Parse(txt) == Fault(-5)
  {
    hide BigEndian, Pair, Unhex, LineBytes, CheckByte;
    var n := Pair(txt[2], txt[3]);
    var bs := LineBytes(txt, n);
    assert bs == bs[..n - 1] + [bs[n - 1]];
    SumAppend(bs[..n - 1], bs[n - 1]);
    SumCheck(n, Sum(bs[..n - 1]), bs[n - 1]);
  }

  lemma SumCheck(n: nat, s: nat, b: Byte)
    ensures b == CheckByte(n, s) <==> (n + s + b) % 0x100 == 0xff
  {
  }

  lemma SumWrong(n: nat, bs: seq<Byte>, i: nat, b: Byte)
    requires i < |bs| && b != bs[i] && (n + Sum(bs)) % 0x100 == 0xff
    ensures (n + Sum(bs[i := b])) % 0x100 != 0xff
  {
    SumUpdate(bs, i, b);
    WrongByte(n + Sum(bs) - bs[i], bs[i], b);
  }

  lemma AcceptedShape(txt: string)
    requires |txt| > 4 && !Parse(txt).Fault?
    ensures txt[0] == 'S' && '0' <= txt[1] <= '9' && 2 * Pair(txt[2], txt[3]) == |txt| - 4
  {
  }

  lemma OnePairChanged(txt: string, n: nat, i: nat, c: char, d: char)
    requires |txt| == 2 * n + 4 && i < n
    ensures LineBytes(txt, n)[i] == PairByte(txt[2 * i + 4], txt[2 * i + 5])
    ensures LineBytes(txt[2 * i + 4 := c][2 * i + 5 := d], n) == LineBytes(txt, n)[i := PairByte(c, d)]
  {
    var bad := txt[2 * i + 4 := c][2 * i + 5 := d];
    hide PairByte, LineBytes;
    PairAt(txt, n, i);
    forall j | 0 <= j < n
      ensures LineBytes(bad, n)[j] == LineBytes(txt, n)[i := PairByte(c, d)][j]
    {
      PairAt(txt, n, j);
      PairAt(bad, n, j);
    }
  }

  /** An accepted line in which one pair behind the length now reads as another byte is rejected with -5. */
  lemma WrongByteRejected(txt: string, i: nat, c: char, d: char)
    requires |txt| > 4 && !Parse(txt).Fault? && 2 * i + 5 < |txt|  // so pair `i` is one of the bytes behind the length
    requires PairByte(c, d) != PairByte(txt[2 * i + 4], txt[2 * i + 5])
    ensures Parse(txt[2 * i + 4 := c][2 * i + 5 := d]) == Fault(-5)
  {
    hide Sum, LineBytes, PairByte, BigEndian, Pair, Parse;
    var bad := txt[2 * i + 4 := c][2 * i + 5 := d];
    var n := Pair(txt[2], txt[3]);
    AcceptedShape(txt);
    OnePairChanged(txt, n, i, c, d);
    var bs := LineBytes(txt, n);
    AcceptedIff(txt);
    AcceptedIff(bad);
    SumWrong(n, bs, i, PairByte(c, d));
  }

  // ---------------------------------------------------------------- C strings

  predicate IsControl(c: char) {
    c == '\r' || c == '\n' || c == '\t'
  }

  /** The text up to the first control character. */
  function Trim(s: string): (r: string) {
    if s == [] || IsControl(s[0]) then [] else [s[0]] + Trim(s[1..])
  }

  /** The C string in a buffer: the text up to the first NUL. */
  function CStr(s: seq<char>): (r: string) {
    if s == [] || s[0] == '\0' then [] else [s[0]] + CStr(s[1..])
  }

  lemma TrimAt(s: string, n: nat)
    requires n <= |s| && (forall i :: 0 <= i < n ==> !IsControl(s[i])) && (n == |s| || IsControl(s[n]))
    ensures Trim(s) == s[..n]
  {
    if n > 0 {
      TrimAt(s[1..], n - 1);
      assert s[..n] == [s[0]] + s[1..][..n - 1];
    }
  }

  lemma CStrAt(s: seq<char>, n: nat)
    requires n < |s| && s[n] == '\0' && '\0' !in s[..n]
    ensures CStr(s) == s[..n]
  {
    if n > 0 {
      assert s[0] == s[..n][0];
      assert s[1..][..n - 1] == s[..n][1..];
      CStrAt(s[1..], n - 1);
      assert s[..n] == [s[0]] + s[1..][..n - 1];
    }
  }

  /** A line ends with LF, CRLF or nothing: trimming gives the record back. */
  lemma TrimEnding(rec: string, ending: string)
    requires (forall i :: 0 <= i < |rec| ==> !IsControl(rec[i])) && (ending == [] || IsControl(ending[0]))
    ensures Trim(rec + ending) == rec
  {
    TrimAt(rec + ending, |rec|);
    assert (rec + ending)[..|rec|] == rec;
  }

  /** End to end for one line: the printed record with any line ending is read back exactly. */
  lemma ReadPrinted(kind: char, addr: nat, data: seq<Byte>, ending: string)
    requires '1' <= kind <= '3' && AddrLen(kind) + |data| + 1 <= 0xff && addr < Power256(AddrLen(kind))
    requires ending == [] || IsControl(ending[0])
    ensures Parse(Trim(Encode(kind, addr, data) + ending)) == Delivery(addr, data, |data|)
  {
    hide Encode, Parse, Power256;
    var txt := Encode(kind, addr, data);
    EncodeShape(kind, addr, data);
    assert forall i :: 2 <= i < |txt| ==> txt[i] == txt[2..][i - 2] && IsUpperHex(txt[2..][i - 2]);
    TrimEnding(txt, ending);
    ParseEncode(kind, addr, data);
  }

  method StrLen(a: array<char>) returns (n: nat)
    requires '\0' in a[..]
    ensures n < a.Length && a[n] == '\0' && CStr(a[..]) == a[..n] && '\0' !in a[..n]
  {
    n := 0;
    while a[n] != '\0'
      invariant n < a.Length && '\0' !in a[..n] && '\0' in a[n..]
      decreases a.Length - n
    {
      assert a[n..] == [a[n]] + a[n + 1..];
      assert a[..n + 1] == a[..n] + [a[n]];
      n := n + 1;
    }
    CStrAt(a[..], n);
    assert a[..][..n] == a[..n];
  }

  /** `text_trim`: every control character of the text becomes NUL. */
  method TextTrim(txt: array<char>)
    requires '\0' in txt[..]
    modifies txt
    ensures CStr(txt[..]) == Trim(old(CStr(txt[..]))) && '\0' in txt[..]
    ensures forall j :: 0 <= j < txt.Length ==>
              txt[j] == if j < |old(CStr(txt[..]))| && old(txt[j]) in ['\r', '\n', '\t'] then '\0' else old(txt[j])
  {
    var len := StrLen(txt);
    ghost var s := txt[..];
    for i := 0 to len
      invariant forall j :: i <= j < txt.Length ==> txt[j] == s[j]
      invariant forall j :: 0 <= j < i ==> txt[j] == if IsControl(s[j]) then '\0' else s[j]
    {
      if txt[i] == '\r' || txt[i] == '\n' || txt[i] == '\t' {
        txt[i] := '\0';
      }
    }
    assert txt[len] == '\0';
    Trimmed(s, txt[..], len);
  }

  /** Cutting at the first control character or replacing them all by NUL leaves the same C string. */
  lemma Trimmed(s: seq<char>, r: seq<char>, len: nat)
    requires |r| == |s| && len < |s| && s[len] == '\0' && '\0' !in s[..len] && r[len] == '\0'
    requires forall j :: 0 <= j < len ==> r[j] == if IsControl(s[j]) then '\0' else s[j]
    ensures CStr(r) == Trim(CStr(s)) && '\0' in r
  {
    var t := s[..len];
    CStrAt(s, len);
    var n := 0;
    while n < len && !IsControl(s[n])
      invariant n <= len && forall j :: 0 <= j < n ==> !IsControl(s[j])
    {
      n := n + 1;
    }
    TrimAt(t, n);
    assert r[n] == '\0';
    assert forall j :: 0 <= j < n ==> r[j] == s[j] && s[j] == t[j];
    assert '\0' !in r[..n];
    CStrAt(r, n);
    assert r[..n] == t[..n];
  }

  // ---------------------------------------------------------------- parse_record

  lemma BigEndianPush(bs: seq<Byte>, b: Byte)
    ensures BigEndian(bs + [b]) == BigEndian(bs) * 0x100 + b as int
  {
    assert (bs + [b])[..|bs|] == bs;
  }

  lemma BigEndianOf(bs: seq<Byte>)
    ensures |bs| >= 2 ==> BigEndian(bs[..2]) == bs[0] as int * 0x100 + bs[1] as int
    ensures |bs| >= 3 ==> BigEndian(bs[..3]) == bs[0] as int * 0x1_0000 + bs[1] as int * 0x100 + bs[2] as int
    ensures |bs| >= 4 ==>
              BigEndian(bs[..4])
              == bs[0] as int * 0x100_0000 + bs[1] as int * 0x1_0000 + bs[2] as int * 0x100 + bs[3] as int
  {
    if |bs| >= 2 {
      assert BigEndian([]) == 0;
      hide BigEndian;
      BigEndianPush([], bs[0]);
      BigEndianPush([bs[0]], bs[1]);
      assert [] + [bs[0]] == [bs[0]] && bs[..2] == [bs[0]] + [bs[1]];
      if |bs| >= 3 {
        BigEndianPush(bs[..2], bs[2]);
        assert bs[..3] == bs[..2] + [bs[2]];
        if |bs| >= 4 {
          BigEndianPush(bs[..3], bs[3]);
          assert bs[..4] == bs[..3] + [bs[3]];
        }
      }
    }
  }

  /** An accepted record that is too short for data takes its checksum for an address byte: never address 0. */
  lemma ShortRecordAddress(txt: string)
    requires Parse(txt).Delivery? && Parse(txt).siz < 0
    ensures Parse(txt).siz == -1 && Parse(txt).data == [] && Parse(txt).addr > 0
  {
    hide BigEndian, LineBytes, Pair, CheckByte, Sum;
    var n := ShortParts(txt);
    NeverZero(LineBytes(txt, n));
  }

  lemma ShortParts(txt: string) returns (n: nat)
    requires Parse(txt).Delivery? && Parse(txt).siz < 0
    ensures 2 <= n <= 4 && |txt| == 2 * n + 4
    ensures var bs := LineBytes(txt, n);
            bs[n - 1] == CheckByte(n, Sum(bs[..n - 1])) && Parse(txt) == Delivery(BigEndian(bs), [], -1)
  {
    n := Pair(txt[2], txt[3]);
    hide BigEndian, LineBytes, CheckByte, Sum;
    var bs := LineBytes(txt, n);
    assert bs[..n] == bs;
  }

  /** Bytes that end with their own checksum are not all zero. */
  lemma NeverZero(bs: seq<Byte>)
    requires 2 <= |bs| <= 4 && bs[|bs| - 1] == CheckByte(|bs|, Sum(bs[..|bs| - 1]))
    ensures BigEndian(bs) > 0
  {
    hide BigEndian, Sum;
    BigEndianOf(bs);
    assert bs[..|bs|] == bs;
    var head := bs[..|bs| - 1];
    if forall i :: 0 <= i < |head| ==> head[i] == 0 {
      ZeroSum(head);
    }
  }

  lemma ZeroSum(bs: seq<Byte>)
    requires forall i :: 0 <= i < |bs| ==> bs[i] == 0
    ensures Sum(bs) == 0
  {
  }

  /** `buf` is the `unsigned char` array of the source, of BUFSIZ bytes. */
  method ParseRecord(txt: array<char>, buf: array<Byte>) returns (p: Parsed)
    requires '\0' in txt[..] && buf.Length >= 0xff
    modifies buf
    ensures p == Parse(CStr(txt[..]))
  {
    hide BigEndian, Unhex, Digit, PairByte, LineBytes, Sum, Pair;
    var txtlen := StrLen(txt);
    ghost var line := CStr(txt[..]);
    if txtlen < 4 {
      return Fault(-1);
    }
    if txt[0] != 'S' {
      return Fault(-2);
    }
    if !('0' <= txt[1] <= '9') {
      return Fault(-3);
    }
    var datlen, _ := HexPair(txt[2], txt[3]);
    PairBound(txt[2], txt[3]);
    if datlen * 2 != txtlen - 4 {
      return Fault(-4);
    }
    if datlen == 0 {
      return Undefined;
    }
    var chksum := FillBuffer(txt, buf, datlen, line);
    var verify: Byte := 0xff - buf[datlen - 1];
    if chksum != verify {
      return Fault(-5);
    }
    p := Deliver(txt[1], buf, datlen, line);
  }

  lemma PairBound(a: char, b: char)
    ensures -17 <= Pair(a, b) <= 0xff
  {
  }

  lemma PairAt(line: string, n: nat, i: nat)
    requires |line| == 2 * n + 4 && i < n
    ensures LineBytes(line, n)[i] == PairByte(line[4 + 2 * i], line[5 + 2 * i])
  {
  }

  lemma AddModulo(s: nat, b: Byte)
    ensures (s % 0x100 + b as int) % 0x100 == (s + b as int) % 0x100
  {
  }

  lemma SumNone()
    ensures Sum([]) == 0
  {
  }

  /** The loop that stores the bytes and accumulates the checksum. */
  method FillBuffer(txt: array<char>, buf: array<Byte>, datlen: nat, ghost line: string) returns (chksum: Byte)
    requires 0 < datlen <= 0xff <= buf.Length && |line| == 2 * datlen + 4 <= txt.Length && txt[..|line|] == line
    modifies buf
    ensures buf[..datlen] == LineBytes(line, datlen)
    ensures chksum == (datlen + Sum(LineBytes(line, datlen)[..datlen - 1])) % 0x100
  {
    hide LineBytes, Sum, PairByte, Pair, Digit, Unhex;
    ghost var bs := LineBytes(line, datlen);
    assert bs[..0] == [];
    SumNone();
    chksum := datlen;
    for i := 0 to datlen
      invariant buf[..i] == bs[..i]
      invariant chksum == (datlen + Sum(bs[..if i < datlen then i else datlen - 1])) % 0x100
    {
      assert txt[4 + 2 * i] == line[4 + 2 * i] && txt[5 + 2 * i] == line[5 + 2 * i];
      PairAt(line, datlen, i);
      var _, b := HexPair(txt[4 + 2 * i], txt[5 + 2 * i]);
      buf[i] := b;
      assert bs[i] == b && bs[..i + 1] == bs[..i] + [bs[i]] && buf[..i + 1] == buf[..i] + [b];
      if i < datlen - 1 {
        SumAppend(bs[..i], b);
        AddModulo(datlen + Sum(bs[..i]), b);
        chksum := (chksum as int + buf[i] as int) % 0x100;
      }
    }
  }

  /** The switch on the record type. */
  method Deliver(kind: char, buf: array<Byte>, datlen: nat, ghost line: string) returns (p: Parsed)
    requires 0 < datlen <= 0xff <= buf.Length && |line| == 2 * datlen + 4 && buf[..datlen] == LineBytes(line, datlen)
    requires line[1] == kind
    ensures p == var al, bs := AddrLen(kind), LineBytes(line, datlen);
                 if al == 0 then Ignored
                 else if datlen < al then Undefined
                 else Delivery(BigEndian(bs[..al]), if datlen == al then [] else bs[al..datlen - 1], datlen - al - 1)
  {
    hide BigEndian, LineBytes;
    ghost var bs := LineBytes(line, datlen);
    BigEndianOf(bs);
    assert forall i :: 0 <= i < datlen ==> buf[i] == bs[i];
    var al := AddrLen(kind);
    if al == 0 {
      return Ignored;
    }
    if datlen < al {
      return Undefined;
    }
    var addr: nat;
    if kind == '1' {
      addr := buf[0] as int * 0x100 + buf[1] as int;
    } else if kind == '2' {
      addr := buf[0] as int * 0x1_0000 + buf[1] as int * 0x100 + buf[2] as int;
    } else {
      addr := buf[0] as int * 0x100_0000 + buf[1] as int * 0x1_0000 + buf[2] as int * 0x100 + buf[3] as int;
    }
    p := Delivery(addr, if datlen == al then [] else buf[al..datlen - 1], datlen - al - 1);
    assert datlen > al ==> buf[al..datlen - 1] == bs[al..datlen - 1];
  }
}
