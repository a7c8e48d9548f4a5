/** Bytes, and the two conversions between a byte and its digit value. */
module Octets {

  type byte = bv8

  /** A digit below 256 survives the trip through a byte. */
  lemma ByteOfDigit(x: nat)
    requires x < 256
    ensures (x as byte) as nat == x
  {
  }

  /** A byte survives the trip through its digit. */
  lemma DigitOfByte(b: byte)
    ensures (b as nat) as byte == b
  {
  }
}

/** The part of Python's `struct` module the program relies on: native,
    little-endian, unpadded packing of 4-byte signed (`i`) and unsigned (`I`)
    integers. Each field is a run of little-endian base-256 digits. */
module Struct {
  import opened Octets

  const TWO_31: int := 0x8000_0000
  const TWO_32: int := 0x1_0000_0000

  /** 256 to the power k: the number of values a k-byte field can hold. */
  function Pow256(k: nat): (r: nat)
    ensures r >= 1
  {
    if k == 0 then 1 else 256 * Pow256(k - 1)
  }

  lemma Pow256Four()
    ensures Pow256(4) == TWO_32
  {
    assert Pow256(1) == 256;
    assert Pow256(2) == 65536;
    assert Pow256(3) == 16777216;
  }

  /** The k little-endian bytes of n. */
  function LittleEndian(n: nat, k: nat): (r: seq<byte>)
    requires n < Pow256(k)
    ensures |r| == k
  {
    if k == 0 then []
    else
      assert n / 256 < Pow256(k - 1);
      [(n % 256) as byte] + LittleEndian(n / 256, k - 1)
  }

  /** The unsigned number whose little-endian bytes are s. */
  function Unsigned(s: seq<byte>): (r: nat)
    ensures r < Pow256(|s|)
  {
    if |s| == 0 then 0
    else
      var rest := Unsigned(s[1..]);
      assert rest <= Pow256(|s| - 1) - 1;
      s[0] as nat + 256 * rest
  }

  /** Splitting off the lowest base-256 digit. */
  lemma LowDigit(d: nat, q: nat)
    requires d < 256
    ensures (d + 256 * q) % 256 == d && (d + 256 * q) / 256 == q
  {
  }

  /** Dropping the lowest digit of a k-digit number leaves a (k-1)-digit one. */
  lemma HighDigits(n: nat, k: nat)
    requires k > 0 && n < Pow256(k)
    ensures n == n % 256 + 256 * (n / 256) && n / 256 < Pow256(k - 1)
  {
  }

  lemma {:induction false} UnsignedOfLittleEndian(n: nat, k: nat)
    requires n < Pow256(k)
    ensures Unsigned(LittleEndian(n, k)) == n
  {
    if k > 0 {
      var d, q := n % 256, n / 256;
      HighDigits(n, k);
      var r := LittleEndian(n, k);
      assert r == [d as byte] + LittleEndian(q, k - 1);
      assert r[1..] == LittleEndian(q, k - 1);
      UnsignedOfLittleEndian(q, k - 1);
      ByteOfDigit(d);
      assert Unsigned(r) == r[0] as nat + 256 * Unsigned(r[1..]);
    }
  }

  lemma {:induction false} LittleEndianOfUnsigned(s: seq<byte>)
    ensures LittleEndian(Unsigned(s), |s|) == s
  {
    if |s| > 0 {
      var d, q := s[0] as nat, Unsigned(s[1..]);
      var n := Unsigned(s);
      assert n == d + 256 * q;
      LowDigit(d, q);
      LittleEndianOfUnsigned(s[1..]);
      DigitOfByte(s[0]);
      assert LittleEndian(n, |s|) == [(n % 256) as byte] + LittleEndian(n / 256, |s| - 1);
    }
  }

  predicate IsUInt32(n: int) { 0 <= n < TWO_32 }
  predicate IsInt32(i: int) { -TWO_31 <= i < TWO_31 }

  /** `pack("I", n)`: defined only where `struct` does not raise. */
  function PackU32(n: int): (r: seq<byte>)
    requires IsUInt32(n)
    ensures |r| == 4
  {
    Pow256Four();
    LittleEndian(n, 4)
  }

  /** `unpack("I", s)`. */
  function UnpackU32(s: seq<byte>): (r: nat)
    requires |s| == 4
    ensures IsUInt32(r)
  {
    Pow256Four();
    Unsigned(s)
  }

  /** `pack("i", i)`: two's complement, so a negative i is stored as i + 2^32. */
  function PackI32(i: int): (r: seq<byte>)
    requires IsInt32(i)
    ensures |r| == 4
  {
    PackU32(if i < 0 then i + TWO_32 else i)
  }

  /** `unpack("i", s)`: the top bit of the last byte carries the sign. */
  function UnpackI32(s: seq<byte>): (r: int)
    requires |s| == 4
    ensures IsInt32(r)
  {
    var u := UnpackU32(s);
    if u < TWO_31 then u else u - TWO_32
  }

  lemma U32RoundTrip(n: int)
    requires IsUInt32(n)
    ensures UnpackU32(PackU32(n)) == n
  {
    Pow256Four();
    UnsignedOfLittleEndian(n, 4);
  }

  lemma U32BytesRoundTrip(s: seq<byte>)
    requires |s| == 4
    ensures PackU32(UnpackU32(s)) == s
  {
    Pow256Four();
    LittleEndianOfUnsigned(s);
  }

  lemma I32RoundTrip(i: int)
    requires IsInt32(i)
    ensures UnpackI32(PackI32(i)) == i
  {
    U32RoundTrip(if i < 0 then i + TWO_32 else i);
  }

  lemma I32BytesRoundTrip(s: seq<byte>)
    requires |s| == 4
    ensures PackI32(UnpackI32(s)) == s
  {
    U32BytesRoundTrip(s);
  }

  /** `pack("II", a, b)`: two unsigned fields back to back, 8 bytes in all. */
  function PackPair(a: int, b: int): (r: seq<byte>)
    requires IsUInt32(a) && IsUInt32(b)
    ensures |r| == 8 && r[..4] == PackU32(a) && r[4..] == PackU32(b)
  {
    PackU32(a) + PackU32(b)
  }

  /** `unpack("II", s)` on exactly eight bytes. */
  function UnpackPair(s: seq<byte>): (r: (nat, nat))
    requires |s| == 8
    ensures IsUInt32(r.0) && IsUInt32(r.1)
  {
    (UnpackU32(s[..4]), UnpackU32(s[4..]))
  }

  lemma PairRoundTrip(a: int, b: int)
    requires IsUInt32(a) && IsUInt32(b)
    ensures UnpackPair(PackPair(a, b)) == (a, b)
  {
    U32RoundTrip(a);
    U32RoundTrip(b);
  }

  lemma PairBytesRoundTrip(s: seq<byte>)
    requires |s| == 8
    ensures PackPair(UnpackPair(s).0, UnpackPair(s).1) == s
  {
    U32BytesRoundTrip(s[..4]);
    U32BytesRoundTrip(s[4..]);
    assert s == s[..4] + s[4..];
  }
}
