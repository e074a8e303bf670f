/** Go's fixed-width integers and byte strings, and the byte encodings the repository is built on.
    A Go `string` and a Go `[]byte` are both modelled as `Bytes`. */
module Base {
  const TWO64: int := 0x1_0000_0000_0000_0000
  const TWO63: int := 0x8000_0000_0000_0000

  type u64 = n: int | 0 <= n < 0x1_0000_0000_0000_0000
  type u32 = n: int | 0 <= n < 0x1_0000_0000
  type i32 = n: int | -0x8000_0000 <= n < 0x8000_0000
  type i64 = n: int | -0x8000_0000_0000_0000 <= n < 0x8000_0000_0000_0000
  type byte = n: int | 0 <= n < 256
  type Bytes = seq<byte>
  type Digest = d: Bytes | |d| == 32 witness seq(32, (_: nat) => 0)

  datatype Option<+T> = None | Some(value: T)

  /** Unsigned 64-bit addition, which wraps around. */
  function Add64(a: u64, b: u64): u64 {
    if a + b < 0x1_0000_0000_0000_0000 then a + b else a + b - 0x1_0000_0000_0000_0000
  }

  /** Wrap-around of signed 64-bit arithmetic (Go's int64 and time.Duration). */
  function WrapSigned(n: int): i64 {
    var m := n % 0x1_0000_0000_0000_0000;
    if m < 0x8000_0000_0000_0000 then m else m - 0x1_0000_0000_0000_0000
  }

  function Min(a: int, b: int): int { if a <= b then a else b }

  /** A multiple of p is at least p away from zero, or zero. */
  lemma Multiples(q: int, p: int)
    requires 0 < p
    ensures q < 0 ==> q * p <= -p
    ensures q >= 1 ==> q * p >= p
    ensures q >= 2 ==> q * p >= 2 * p
  {
    if q >= 2 {
      assert (q - 2) * p >= 0;
    } else if q < 0 {
      assert (-1 - q) * p >= 0;
    }
  }

  function Ascii(s: string): Bytes {
    seq(|s|, i requires 0 <= i < |s| => (s[i] as int) % 256)
  }

  // ---- Big-endian integers ------------------------------------------------------------------

  function Pow256(k: nat): (r: nat)
    ensures r > 0
  {
    if k == 0 then 1 else 256 * Pow256(k - 1)
  }

  /** The low `width` bytes of n, most significant first. */
  function BigEndian(n: nat, width: nat): (b: Bytes)
    ensures |b| == width
  {
    if width == 0 then [] else BigEndian(n / 256, width - 1) + [n % 256]
  }

  function BigEndianValue(b: Bytes): nat {
    if b == [] then 0 else BigEndianValue(b[..|b| - 1]) * 256 + b[|b| - 1]
  }

  lemma {:induction false} BigEndianRoundTrip(n: nat, width: nat)
    requires n < Pow256(width)
    ensures BigEndianValue(BigEndian(n, width)) == n
  {
    if width > 0 {
      BigEndianRoundTrip(n / 256, width - 1);
      assert BigEndian(n, width)[..width - 1] == BigEndian(n / 256, width - 1);
    }
  }

  lemma {:induction false} BigEndianBound(b: Bytes)
    ensures BigEndianValue(b) < Pow256(|b|)
  {
    if b != [] {
      BigEndianBound(b[..|b| - 1]);
    }
  }

  /** Every byte string is the encoding of its own value at its own width. */
  lemma {:induction false} BigEndianOnto(b: Bytes)
    ensures BigEndian(BigEndianValue(b), |b|) == b
  {
    if b != [] {
      BigEndianOnto(b[..|b| - 1]);
      assert b == b[..|b| - 1] + [b[|b| - 1]];
    }
  }

  // ---- Hex and decimal text -----------------------------------------------------------------

  function HexDigit(n: int): byte
    requires 0 <= n < 16
  {
    if n < 10 then 48 + n else 87 + n
  }

  function Hex(b: Bytes): (h: Bytes)
    ensures |h| == 2 * |b|
  {
    if b == [] then [] else [HexDigit(b[0] / 16), HexDigit(b[0] % 16)] + Hex(b[1..])
  }

  function HexChar(x: int): int { if x < 10 then '0' as int + x else 'a' as int + x - 10 }

  /** Each byte becomes two lower-case digits, the high one first. */
  lemma {:induction false} HexAt(b: Bytes, i: nat)
    requires i < |b|
    ensures Hex(b)[2 * i] == HexChar(b[i] / 16) && Hex(b)[2 * i + 1] == HexChar(b[i] % 16)
  {
    if i > 0 {
      HexAt(b[1..], i - 1);
      assert Hex(b)[2..] == Hex(b[1..]);
    }
  }

  lemma {:induction false} HexInjective(a: Bytes, b: Bytes)
    requires Hex(a) == Hex(b)
    ensures a == b
  {
    assert |Hex(a)| == 2 * |a| && |Hex(b)| == 2 * |b|;
    if a != [] {
      assert Hex(a)[0] == Hex(b)[0] && Hex(a)[1] == Hex(b)[1];
      assert Hex(a)[2..] == Hex(a[1..]) && Hex(b)[2..] == Hex(b[1..]);
      HexInjective(a[1..], b[1..]);
      assert a == [a[0]] + a[1..] && b == [b[0]] + b[1..];
    }
  }

  /** Decimal digits, as "%d" prints them. */
  function Decimal(n: nat): (d: Bytes)
    ensures d != []
    ensures forall i :: 0 <= i < |d| ==> 48 <= d[i] <= 57
    ensures n > 0 ==> d[0] != 48
  {
    if n < 10 then [48 + n] else Decimal(n / 10) + [48 + n % 10]
  }

  function DecimalValue(d: Bytes): int {
    if d == [] then 0 else DecimalValue(d[..|d| - 1]) * 10 + d[|d| - 1] - 48
  }

  lemma {:induction false} DecimalRoundTrip(n: nat)
    ensures DecimalValue(Decimal(n)) == n
  {
    if n >= 10 {
      DecimalRoundTrip(n / 10);
      assert Decimal(n)[..|Decimal(n)| - 1] == Decimal(n / 10);
    } else {
      assert Decimal(n)[..0] == [];
    }
  }

  // ---- Framing ------------------------------------------------------------------------------

  /** A field that does not contain its terminator is cut out of a byte string in one way only. */
  lemma TerminatedUnique(a: Bytes, x: Bytes, b: Bytes, y: Bytes, t: byte)
    requires t !in a && t !in b
    requires a + [t] + x == b + [t] + y
    ensures a == b && x == y
  {
    var s, r := a + [t] + x, b + [t] + y;
    assert s[|a|] == t && r[|b|] == t;
    assert forall i :: 0 <= i < |a| ==> s[i] == a[i];
    assert forall i :: 0 <= i < |b| ==> r[i] == b[i];
    assert |a| == |b|;
    assert a == s[..|a|] && b == r[..|b|];
    assert x == s[|a| + 1..] && y == r[|b| + 1..];
  }

  /** No two different inputs of the finite set s share a value of f.
      (A hash function cannot be injective on all inputs; what the theorems need is that no
      collision occurs among the inputs that were actually hashed.) */
  ghost predicate NoCollision(f: Bytes -> Digest, s: set<Bytes>) {
    forall x, y :: x in s && y in s && f(x) == f(y) ==> x == y
  }
}
