/**
 How one control message is laid out in bytes: the alignment arithmetic of
 sections 5 and 20.3 of RFC 3542 and the encoding of the header fields.
 The width of cmsg_len, the alignment and the two socket constants belong to
 the platform and are parameters.
 */
module CmsgLayout {

  type byte = b: int | 0 <= b < 256

  const INT32_MIN: int := -0x8000_0000
  const INT32_MAX: int := 0x7fff_ffff
  const TWO_32: int := 0x1_0000_0000

  type int32 = i: int | INT32_MIN <= i <= INT32_MAX

  // lenSize bytes of cmsg_len, then cmsg_level and cmsg_type, four bytes each.
  datatype Platform = Platform(lenSize: nat, align: nat, solSocket: int32, scmRights: int32)
  {
    predicate Valid() {
      0 < lenSize && 0 < align
    }
  }

  type Abi = p: Platform | p.Valid() witness Platform(8, 8, 1, 1)

  // One control message as its sender and its receiver see it.
  datatype Record = Record(level: int32, kind: int32, payload: seq<byte>)

  // ----- alignment -----

  // CMSG_ALIGN
  function Align(abi: Abi, n: nat): nat {
    (n + abi.align - 1) / abi.align * abi.align
  }

  // sizeof(struct cmsghdr)
  function HeaderSize(abi: Abi): nat {
    abi.lenSize + 8
  }

  // CMSG_LEN
  function CmsgLen(abi: Abi, n: nat): nat {
    Align(abi, HeaderSize(abi)) + n
  }

  // CMSG_SPACE
  function CmsgSpace(abi: Abi, n: nat): nat {
    Align(abi, HeaderSize(abi)) + Align(abi, n)
  }

  predicate Aligned(abi: Abi, n: int) {
    n % abi.align == 0
  }

  lemma ScaledBound(x: int, a: int)
    requires 0 < a
    ensures 1 <= x ==> a <= x * a
    ensures x <= -1 ==> x * a <= -a
    ensures x == 0 ==> x * a == 0
  {
  }

  lemma MultipleIsAligned(abi: Abi, q: int)
    ensures Aligned(abi, q * abi.align)
  {
    var a: int := abi.align;
    var d := (q * a) / a;
    assert (q - d) * a == q * a - d * a == (q * a) % a;
    ScaledBound(q - d, a);
  }

  // With the next lemma: Align is the one multiple of the alignment in this range.
  lemma AlignBounds(abi: Abi, n: nat)
    ensures Aligned(abi, Align(abi, n))
    ensures n <= Align(abi, n) < n + abi.align
  {
    var a: int := abi.align;
    var q := (n + a - 1) / a;
    assert n + a - 1 == q * a + (n + a - 1) % a;
    MultipleIsAligned(abi, q);
  }

  lemma AlignIsUnique(abi: Abi, n: nat, m: int)
    requires n <= m < n + abi.align && Aligned(abi, m)
    ensures m == Align(abi, n)
  {
    AlignBounds(abi, n);
    AlignedSum(abi, m, Align(abi, n));
    var a, x := abi.align as int, m - Align(abi, n);
    ScaledBound(x / a, a);
  }

  lemma AlignedSum(abi: Abi, x: int, y: int)
    requires Aligned(abi, x) && Aligned(abi, y)
    ensures Aligned(abi, x + y) && Aligned(abi, x - y)
  {
    var a := abi.align;
    var p, q := x / a, y / a;
    assert x == p * a && y == q * a;
    assert x + y == (p + q) * a && x - y == (p - q) * a;
    MultipleIsAligned(abi, p + q);
    MultipleIsAligned(abi, p - q);
  }

  // What CMSG_NXTHDR relies on: aligning the stored cmsg_len gives CMSG_SPACE.
  lemma AlignOfLenIsSpace(abi: Abi, n: nat)
    ensures Align(abi, CmsgLen(abi, n)) == CmsgSpace(abi, n)
    ensures Aligned(abi, CmsgSpace(abi, n))
    ensures HeaderSize(abi) <= CmsgLen(abi, 0) <= CmsgLen(abi, n) <= CmsgSpace(abi, n)
  {
    AlignBounds(abi, HeaderSize(abi));
    AlignBounds(abi, n);
    AlignedSum(abi, Align(abi, HeaderSize(abi)), Align(abi, n));
    AlignIsUnique(abi, CmsgLen(abi, n), CmsgSpace(abi, n));
  }

  // ----- integers as bytes, least significant first -----

  function Pow256(k: nat): (p: nat)
    ensures 0 < p
  {
    if k == 0 then 1 else 256 * Pow256(k - 1)
  }

  function Encode(n: nat, k: nat): (bs: seq<byte>)
    ensures |bs| == k
  {
    if k == 0 then [] else [n % 256] + Encode(n / 256, k - 1)
  }

  function Decode(bs: seq<byte>): nat {
    if bs == [] then 0 else bs[0] + 256 * Decode(bs[1..])
  }

  lemma {:induction false} DecodeEncode(n: nat, k: nat)
    requires n < Pow256(k)
    ensures Decode(Encode(n, k)) == n
  {
    if k != 0 {
      DecodeEncode(n / 256, k - 1);
      assert Encode(n, k)[1..] == Encode(n / 256, k - 1);
    }
  }

  lemma {:induction false} EncodeDecode(bs: seq<byte>)
    ensures Decode(bs) < Pow256(|bs|)
    ensures Encode(Decode(bs), |bs|) == bs
  {
    if bs != [] {
      EncodeDecode(bs[1..]);
      var d := Decode(bs[1..]);
      assert Decode(bs) == bs[0] + 256 * d;
      assert Decode(bs) % 256 == bs[0] && Decode(bs) / 256 == d;
      assert [bs[0]] + bs[1..] == bs;
    }
  }

  // The place of each byte.
  lemma {:induction false} EncodeAt(n: nat, k: nat, i: nat)
    requires i < k
    ensures Encode(n, k)[i] == n / Pow256(i) % 256
  {
    if i != 0 {
      EncodeAt(n / 256, k - 1, i - 1);
      DivTwice(n, Pow256(i - 1));
      assert Encode(n, k)[i] == Encode(n / 256, k - 1)[i - 1];
    }
  }

  lemma DivTwice(n: nat, b: nat)
    requires 0 < b
    ensures n / 256 / b == n / (256 * b)
  {
    var q, r := n / 256, n % 256;
    var p, s := q / b, q % b;
    var bp := b * p;
    assert q == bp + s && n == 256 * bp + (256 * s + r);
    assert 256 * b * p == 256 * bp;
    QuotientIs(n, 256 * b, p, 256 * s + r);
  }

  lemma QuotientIs(n: nat, d: nat, p: nat, rest: nat)
    requires rest < d && n == d * p + rest
    ensures n / d == p
  {
    var q := n / d;
    ScaledBound(p - q, d);
    assert (p - q) * d == d * p - d * q;
  }

  // A 32-bit two's complement integer.
  function EncodeInt32(v: int32): (bs: seq<byte>)
    ensures |bs| == 4
  {
    Encode(if v < 0 then v + TWO_32 else v, 4)
  }

  // The conversion of an unsigned value to int, keeping its low 32 bits.
  function ToInt32(n: nat): int32 {
    var low := n % TWO_32;
    if low <= INT32_MAX then low else low - TWO_32
  }

  function DecodeInt32(bs: seq<byte>): int32 {
    ToInt32(Decode(bs))
  }

  lemma Pow256Of4()
    ensures Pow256(4) == TWO_32
  {
  }

  // An int32_t in memory: the low byte first, a negative value as its complement.
  function LittleEndian(v: int): (bs: seq<byte>)
    ensures |bs| == 4
  {
    var u := v % 4294967296;
    [u % 256, u / 256 % 256, u / 65536 % 256, u / 16777216]
  }

  lemma Int32IsLittleEndian(v: int32)
    ensures EncodeInt32(v) == LittleEndian(v)
  {
    var u := v % 4294967296;
    assert u == if v < 0 then v + TWO_32 else v;
    FourBytes(u);
    assert u / 16777216 % 256 == u / 16777216;
  }

  lemma FourBytes(u: nat)
    ensures Encode(u, 4) == [u % 256, u / 256 % 256, u / 65536 % 256, u / 16777216 % 256]
  {
    var a, b, c := u / 256, u / 65536, u / 16777216;
    assert a / 256 == b && b / 256 == c;
    assert Encode(c / 256, 0) == [];
    assert Encode(c, 1) == [c % 256] + [];
    assert Encode(b, 2) == [b % 256] + Encode(c, 1);
    assert Encode(a, 3) == [a % 256] + Encode(b, 2);
    assert Encode(u, 4) == [u % 256] + Encode(a, 3);
  }

  // A conversion to int keeps the low 32 bits.
  lemma NarrowedKeepsLowBits(n: nat)
    ensures (n - ToInt32(n)) % 4294967296 == 0
    ensures n < 2147483648 ==> ToInt32(n) == n
  {
  }

  lemma DecodeEncodeInt32(v: int32)
    ensures DecodeInt32(EncodeInt32(v)) == v
  {
    Pow256Of4();
    DecodeEncode(if v < 0 then v + TWO_32 else v, 4);
  }

  lemma EncodeDecodeInt32(bs: seq<byte>)
    requires |bs| == 4
    ensures EncodeInt32(DecodeInt32(bs)) == bs
  {
    Pow256Of4();
    EncodeDecode(bs);
  }
}
