/**
 * Model of int64.hh: a 64-bit unsigned integer that travels on the wire
 * as exactly eight bytes in network byte order (big-endian).
 */
module Int64 {
  import opened Wrappers

  /** 2^64: every uint64 computation of the source is reduced modulo this. */
  const TWO_TO_64: int := 0x1_0000_0000_0000_0000

  type uint64 = x: int | 0 <= x < 0x1_0000_0000_0000_0000
  type uint32 = x: int | 0 <= x < 0x1_0000_0000
  type byte = b: int | 0 <= b < 256

  /** uint64_t( -1 ), all bits set. */
  const MAX_UINT64: uint64 := 0xFFFF_FFFF_FFFF_FFFF

  /** sizeof( uint64_t ): the width of an encoded Integer64. */
  const WIDTH: nat := 8

  /** Reduction of a mathematical integer to uint64_t, as C++ unsigned arithmetic does. */
  function Wrap64(x: int): uint64
  {
    x % TWO_TO_64
  }

  /** A value already in range is left alone. */
  lemma Wrap64InRange(x: int)
    requires 0 <= x < TWO_TO_64
    ensures Wrap64(x) == x
  {
  }

  /**
   * Conversion of a size to unsigned int: the low 32 bits. Written as repeated
   * subtraction so that the solver only unfolds it when asked to.
   */
  function Truncate32(n: nat): (r: uint32)
    ensures n < 0x1_0000_0000 ==> r == n
  {
    if n < 0x1_0000_0000 then n else Truncate32(n - 0x1_0000_0000)
  }

  lemma {:induction false} Truncate32IsModulo(n: nat)
    ensures Truncate32(n) == n % 0x1_0000_0000
  {
    if n >= 0x1_0000_0000 {
      Truncate32IsModulo(n - 0x1_0000_0000);
    }
  }

  lemma {:induction false} Wrap64Add(a: int, b: int)
    ensures Wrap64(Wrap64(a) + b) == Wrap64(a + b)
  {
    var q := a / TWO_TO_64;
    assert a == TWO_TO_64 * q + Wrap64(a);
    assert a + b == TWO_TO_64 * q + (Wrap64(a) + b);
  }

  datatype Error = SizeMismatch

  function Pow256(n: nat): (r: nat)
    ensures r > 0
  {
    if n == 0 then 1 else 256 * Pow256(n - 1)
  }

  /** The number a byte string denotes when read most significant byte first. */
  function ValueOf(b: seq<byte>): nat
  {
    if b == [] then 0 else ValueOf(b[..|b| - 1]) * 256 + b[|b| - 1]
  }

  /** The n-byte big-endian representation of x. */
  function BytesOf(x: nat, n: nat): (b: seq<byte>)
    requires x < Pow256(n)
    ensures |b| == n
    ensures ValueOf(b) == x
  {
    if n == 0 then []
    else
      var b := BytesOf(x / 256, n - 1) + [x % 256];
      assert b[..|b| - 1] == BytesOf(x / 256, n - 1);
      b
  }

  /** Byte i of BytesOf(x, n) is the i-th most significant base-256 digit of x. */
  lemma {:induction false} BytesOfAt(x: nat, n: nat, i: nat)
    requires x < Pow256(n) && i < n
    ensures BytesOf(x, n)[i] == (x / Pow256(n - 1 - i)) % 256
  {
    if i < n - 1 {
      BytesOfAt(x / 256, n - 1, i);
      DivDiv(x, 256, Pow256(n - 2 - i));
    }
  }

  lemma DivDiv(x: nat, a: nat, b: nat)
    requires a > 0 && b > 0
    ensures (x / a) / b == x / (a * b)
  {
    var q, r := x / a, x % a;
    var q2, r2 := q / b, q % b;
    var ab := a * b;
    assert a * q == a * (b * q2) + a * r2 by {
      Distribute(a, b * q2, r2);
    }
    assert a * (b * q2) == ab * q2 by {
      MulAssoc(a, b, q2);
    }
    assert a * r2 <= a * (b - 1) by {
      MulMono(a, r2, b - 1);
    }
    assert a * (b - 1) == ab - a by {
      Distribute(a, b, -1);
    }
    DivUnique(x, ab, q2, a * r2 + r);
  }

  lemma Distribute(a: int, b: int, c: int)
    ensures a * (b + c) == a * b + a * c
  {
  }

  lemma MulAssoc(a: int, b: int, c: int)
    ensures a * (b * c) == (a * b) * c
  {
  }

  lemma MulMono(a: nat, b: int, c: int)
    requires b <= c
    ensures a * b <= a * c
  {
    Distribute(a, b, c - b);
  }

  lemma DivUnique(x: int, d: int, q: int, r: int)
    requires d > 0 && 0 <= r < d && x == d * q + r
    ensures x / d == q
  {
    var q' := x / d;
    var r' := x % d;
    assert x == d * q' + r';
    if q' < q {
      MulMono(d, q' + 1, q);
      Distribute(d, q', 1);
    } else if q' > q {
      MulMono(d, q + 1, q');
      Distribute(d, q, 1);
    }
  }

  lemma Pow256Eight()
    ensures Pow256(WIDTH) == TWO_TO_64
  {
  }

  /** operator std::string: the eight network-order bytes of x. */
  function Encode(x: uint64): (b: seq<byte>)
    ensures |b| == WIDTH
    ensures ValueOf(b) == x
  {
    Pow256Eight();
    BytesOf(x, WIDTH)
  }

  /** Byte i of the encoding is (x >> 8 * (7 - i)) & 0xFF. */
  lemma EncodeByte(x: uint64, i: nat)
    requires i < WIDTH
    ensures Encode(x)[i] == (x / Pow256(WIDTH - 1 - i)) % 256
  {
    Pow256Eight();
    BytesOfAt(x, WIDTH, i);
  }

  /** Integer64( const std::string & ): throws unless the string holds exactly eight bytes. */
  function Decode(b: seq<byte>): (r: Result<uint64, Error>)
    ensures r.Failure? <==> |b| != WIDTH
  {
    if |b| != WIDTH then Failure(SizeMismatch)
    else
      Pow256Eight();
      BytesOfValueOf(b);
      Success(ValueOf(b))
  }

  /** Reading a byte string and writing the number back yields the same bytes. */
  lemma {:induction false} BytesOfValueOf(b: seq<byte>)
    ensures ValueOf(b) < Pow256(|b|)
    ensures BytesOf(ValueOf(b), |b|) == b
  {
    if b != [] {
      var init := b[..|b| - 1];
      BytesOfValueOf(init);
      assert ValueOf(b) / 256 == ValueOf(init);
      assert ValueOf(b) % 256 == b[|b| - 1];
    }
  }

  /** Eight bytes 0xFF read as the largest uint64. */
  lemma {:induction false} ValueOfAllOnes(b: seq<byte>)
    requires forall i :: 0 <= i < |b| ==> b[i] == 0xFF
    ensures ValueOf(b) == Pow256(|b|) - 1
  {
    if b != [] {
      ValueOfAllOnes(b[..|b| - 1]);
    }
  }

  /** Encoding a decoded eight-byte string gives back the string. */
  lemma EncodeDecode(b: seq<byte>)
    requires |b| == WIDTH
    ensures Encode(Decode(b).value) == b
  {
    BytesOfValueOf(b);
  }

  /** Decoding an encoding gives back the number. */
  lemma DecodeEncode(x: uint64)
    ensures Decode(Encode(x)) == Success(x)
  {
  }
}
