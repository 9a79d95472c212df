/**
 * Shared vocabulary for the model: bytes, optional values, the JVM integer
 * conversions the Kotlin code relies on, big-endian byte encodings and a
 * read cursor standing for java.nio.ByteBuffer.
 */
module Base {

  /**
   * A Java byte, kept as its 8-bit pattern read unsigned (a Kotlin `-1`
   * byte is 255 here). Bit masks and shifts on bytes are written with `/`
   * and `%` by powers of two.
   */
  type byte = x: int | 0 <= x < 256

  datatype Option<T> = None | Some(value: T)
  {
    function GetOr(default: T): T
    {
      match this
      case None => default
      case Some(v) => v
    }
  }

  /** The exceptions the modelled code can raise (a Swift overflow trap included). */
  datatype Fault =
    | NullPointer
    | NegativeArraySize
    | IndexOutOfBounds
    | BufferUnderflow
    | ClassCast
    | IllegalState
    | IllegalArgument
    | UnsupportedOperation
    | ArithmeticOverflow
    | NoSuchElement

  /** A value, or the exception raised instead. */
  datatype Outcome<T> = Ok(value: T) | Threw(fault: Fault)

  const TWO_8: int := 0x100
  const TWO_16: int := 0x1_0000
  const TWO_24: int := 0x100_0000
  const TWO_32: int := 0x1_0000_0000
  const INT_MIN: int := -0x8000_0000
  const INT_MAX: int := 0x7fff_ffff

  /** Kotlin `Long.toInt()` / Java `(int)`: keep the low 32 bits, two's complement. */
  function ToInt32(x: int): (r: int)
    ensures INT_MIN <= r <= INT_MAX
    ensures (r - x) % TWO_32 == 0
    ensures INT_MIN <= x <= INT_MAX ==> r == x
  {
    var m := x % TWO_32;
    if m > INT_MAX then m - TWO_32 else m
  }

  /** Kotlin `Int.toByte()`: the low 8 bits. */
  function ToByte(x: int): (b: byte)
    ensures (b - x) % TWO_8 == 0
    ensures 0 <= x < TWO_8 ==> b == x
  {
    x % TWO_8
  }

  /** Java and Kotlin integer division, which truncates toward zero. */
  function TruncDiv(a: int, b: int): (q: int)
    requires b != 0
    ensures a >= 0 && b > 0 ==> q == a / b
    ensures b > 0 ==> q * b <= a || a < 0
  {
    if (a >= 0) == (b > 0) then Abs(a) / Abs(b) else -(Abs(a) / Abs(b))
  }

  /** Java and Kotlin `%`: the remainder takes the sign of the dividend. */
  function TruncRem(a: int, b: int): (r: int)
    requires b != 0
    ensures a == TruncDiv(a, b) * b + r
    ensures a >= 0 ==> 0 <= r < Abs(b)
    ensures a < 0 ==> -(Abs(b) as int) < r <= 0
  {
    a - TruncDiv(a, b) * b
  }

  function Abs(x: int): nat
  {
    if x < 0 then -x else x
  }

  function Max(a: int, b: int): int
  {
    if a >= b then a else b
  }

  function Min(a: int, b: int): int
  {
    if a <= b then a else b
  }

  /** 256 to the power w. */
  function Pow256(w: nat): (p: nat)
    ensures p >= 1
  {
    if w == 0 then 1 else 256 * Pow256(w - 1)
  }

  lemma Pow256Values()
    ensures Pow256(2) == TWO_16 && Pow256(3) == TWO_24 && Pow256(4) == TWO_32
  {
    assert Pow256(1) == 256;
    assert Pow256(2) == 256 * 256;
    assert Pow256(3) == 256 * 256 * 256;
  }

  /**
   * The w low-order bytes of x, most significant first: what a run of
   * `(x shr 8*k).toByte()` puts produce (an arithmetic shift is a floor
   * division, so negative x gives its two's-complement bytes).
   */
  function BigEndian(x: int, w: nat): (s: seq<byte>)
    ensures |s| == w
    decreases w
  {
    if w == 0 then [] else BigEndian(x / 256, w - 1) + [ToByte(x)]
  }

  /** Reads a big-endian unsigned number. */
  function FromBigEndian(s: seq<byte>): nat
  {
    if s == [] then 0 else FromBigEndian(s[..|s| - 1]) * 256 + s[|s| - 1]
  }

  lemma FromBigEndianBound(s: seq<byte>)
    ensures FromBigEndian(s) < Pow256(|s|)
  {
    if s != [] {
      FromBigEndianBound(s[..|s| - 1]);
    }
  }

  lemma ModUnique(n: int, d: int, q: int, r: int)
    requires d > 0 && n == d * q + r && 0 <= r < d
    ensures n % d == r && n / d == q
  {
    var q' := n / d;
    var r' := n % d;
    assert n == d * q' + r';
    assert d * (q - q') == r' - r;
    if q - q' >= 1 {
      MulMonotone(d, q - q');
    } else if q' - q >= 1 {
      MulMonotone(d, q' - q);
    }
  }

  lemma MulMonotone(d: int, k: int)
    requires d > 0 && k >= 1
    ensures d * k >= d
  {
    var i := 1;
    while i < k
      invariant 1 <= i <= k && d * i >= d
    {
      i := i + 1;
    }
  }

  /** Splitting off the last digit in base 256. */
  lemma MixedRadix(x: int, p: int)
    requires p >= 1
    ensures x % (256 * p) == 256 * ((x / 256) % p) + x % 256
  {
    var q := x / 256;
    var r := x % 256;
    var k := q / p;
    var m := q % p;
    assert x == 256 * q + r;
    assert q == p * k + m;
    assert 256 * q == (256 * p) * k + 256 * m;
    assert 0 <= 256 * m + r < 256 * p by {
      assert m <= p - 1;
      assert 256 * m <= 256 * (p - 1);
    }
    ModUnique(x, 256 * p, k, 256 * m + r);
  }

  /** Reading back w big-endian bytes recovers x modulo 256^w. */
  lemma {:induction false} BigEndianRoundTrip(x: int, w: nat)
    ensures FromBigEndian(BigEndian(x, w)) == x % Pow256(w)
    decreases w
  {
    if w > 0 {
      var s := BigEndian(x, w);
      assert s[..w - 1] == BigEndian(x / 256, w - 1);
      BigEndianRoundTrip(x / 256, w - 1);
      MixedRadix(x, Pow256(w - 1));
    }
  }

  /** For a value that fits, the round trip is exact. */
  lemma BigEndianExact(x: int, w: nat)
    requires 0 <= x < Pow256(w)
    ensures FromBigEndian(BigEndian(x, w)) == x
  {
    BigEndianRoundTrip(x, w);
    ModUnique(x, Pow256(w), 0, x);
  }

  /**
   * The read cursor of a java.nio.ByteBuffer: the bytes up to its limit and
   * the current position. Absolute reads `bb[i]` index `content`; relative
   * reads advance `position`.
   */
  class ByteBuffer {
    const content: seq<byte>
    var position: int

    ghost predicate Valid()
      reads this
    {
      0 <= position <= |content|
    }

    constructor Wrap(s: seq<byte>)
      ensures Valid() && content == s && position == 0
    {
      content := s;
      position := 0;
    }

    /** The bytes between the position and the limit (`slice()`, `remaining()`). */
    function Remaining(): seq<byte>
      reads this
      requires Valid()
    {
      content[position..]
    }

    /** Relative `get()`: the byte at the position, which then advances. */
    method Get() returns (b: byte)
      requires Valid() && position < |content|
      modifies this`position
      ensures Valid() && position == old(position) + 1
      ensures b == content[old(position)]
    {
      b := content[position];
      position := position + 1;
    }

    /** Relative bulk `get(dst, offset, n)`: the next n bytes, after which the position advances by n. */
    method GetBytes(n: int) returns (bs: seq<byte>)
      requires Valid() && 0 <= n && position + n <= |content|
      modifies this`position
      ensures Valid() && position == old(position) + n
      ensures bs == content[old(position)..old(position) + n]
    {
      bs := content[position..position + n];
      position := position + n;
    }
  }
}
