/** Leading-zero-bit proof of work (internal/pow/pow.go). The memory-hard hash is a parameter. */
module ProofOfWork {
  import opened Base

  function Pow2(k: nat): (r: nat)
    ensures r > 0
  {
    if k == 0 then 1 else 2 * Pow2(k - 1)
  }

  /** Number of binary digits. */
  function BitLength(v: nat): nat {
    if v == 0 then 0 else 1 + BitLength(v / 2)
  }

  /** A number fits m binary digits exactly when it is below 2^m. */
  lemma {:induction false} BitLengthIff(v: nat, m: nat)
    ensures BitLength(v) <= m <==> v < Pow2(m)
  {
    if v > 0 && m > 0 {
      BitLengthIff(v / 2, m - 1);
      assert v < 2 * Pow2(m - 1) <==> v / 2 < Pow2(m - 1);
    }
  }

  lemma {:induction false} BitLengthShift(x: nat, j: nat, y: nat)
    requires x > 0 && y < Pow2(j)
    ensures BitLength(x * Pow2(j) + y) == j + BitLength(x)
    decreases j
  {
    if j > 0 {
      var half := x * Pow2(j - 1);
      assert x * Pow2(j) == 2 * half;
      BitLengthShift(x, j - 1, y / 2);
      assert (2 * half + y) / 2 == half + y / 2;
      assert half >= 0 && x * Pow2(j) + y > 0 by { Positive(x, Pow2(j)); }
    } else {
      assert x * Pow2(0) + y == x;
    }
  }

  lemma Positive(a: nat, b: nat)
    requires a > 0 && b > 0
    ensures a * b > 0
  {
  }

  lemma Pow2PerByte(n: nat)
    ensures Pow2(n + 8) == 256 * Pow2(n)
  {
    assert Pow2(n + 2) == 4 * Pow2(n);
    assert Pow2(n + 4) == 4 * Pow2(n + 2);
    assert Pow2(n + 6) == 4 * Pow2(n + 4);
    assert Pow2(n + 8) == 4 * Pow2(n + 6);
  }

  lemma {:induction false} Pow256IsPow2(k: nat)
    ensures Pow256(k) == Pow2(8 * k)
  {
    if k > 0 {
      Pow256IsPow2(k - 1);
      Pow2PerByte(8 * (k - 1));
    }
  }

  /** The first byte is the most significant one. */
  lemma {:induction false} ValueFromFront(b: Bytes)
    requires b != []
    ensures BigEndianValue(b) == b[0] * Pow256(|b| - 1) + BigEndianValue(b[1..])
  {
    if |b| == 1 {
      assert b[..0] == [] && b[1..] == [];
    } else {
      var init, last := b[..|b| - 1], b[|b| - 1];
      ValueFromFront(init);
      assert b[1..][..|b| - 2] == init[1..] && b[1..][|b| - 2] == last;
      assert init[0] * Pow256(|b| - 2) * 256 == b[0] * Pow256(|b| - 1);
    }
  }

  // ---- Leading zeros ------------------------------------------------------------------------

  /** Zero bits before the first one bit. */
  function LeadingZeros(b: Bytes): nat {
    if b == [] then 0
    else if b[0] == 0 then 8 + LeadingZeros(b[1..])
    else ByteBits(b[0]); 8 - BitLength(b[0])
  }

  lemma ByteBits(x: byte)
    ensures BitLength(x) <= 8
  {
    BitLengthIff(x, 8);
    assert Pow2(8) == 256;
  }

  /** A first byte that is not zero decides the bit length. */
  lemma FirstByteDecides(b: Bytes)
    requires b != [] && b[0] != 0
    ensures BitLength(BigEndianValue(b)) == 8 * (|b| - 1) + BitLength(b[0])
  {
    hide BitLength, Pow2, BigEndianValue, Pow256;
    ValueFromFront(b);
    Pow256IsPow2(|b| - 1);
    BigEndianBound(b[1..]);
    BitLengthShift(b[0], 8 * (|b| - 1), BigEndianValue(b[1..]));
  }

  /** A first byte of zero adds nothing to the value. */
  lemma FirstByteIdle(b: Bytes)
    requires b != [] && b[0] == 0
    ensures BigEndianValue(b) == BigEndianValue(b[1..])
  {
    hide BigEndianValue, Pow256;
    ValueFromFront(b);
  }

  lemma {:induction false} LeadingZerosOfValue(b: Bytes)
    ensures LeadingZeros(b) + BitLength(BigEndianValue(b)) == 8 * |b|
  {
    hide BitLength;
    if b == [] {
      NoBits();
    } else if b[0] == 0 {
      hide BigEndianValue;
      FirstByteIdle(b);
      LeadingZerosOfValue(b[1..]);
    } else {
      hide BigEndianValue;
      ByteBits(b[0]);
      FirstByteDecides(b);
    }
  }

  lemma NoBits()
    ensures BitLength(0) == 0
  {
  }

  /** A hash has at least d leading zero bits exactly when, read as a big-endian number, it is below
      2^(8|b| - d). */
  lemma LeadingZerosIff(b: Bytes, d: nat)
    requires d <= 8 * |b|
    ensures LeadingZeros(b) >= d <==> BigEndianValue(b) < Pow2(8 * |b| - d)
  {
    LeadingZerosOfValue(b);
    BitLengthIff(BigEndianValue(b), 8 * |b| - d);
  }

  /** b & (1 << i) == 0 */
  predicate BitClear(b: byte, i: nat) { (b / Pow2(i)) % 2 == 0 }

  lemma BitTest(b: byte, i: nat)
    requires b < Pow2(i + 1)
    ensures BitClear(b, i) <==> b < Pow2(i)
  {
    Quotient(b, Pow2(i));
  }

  lemma Quotient(b: nat, p: nat)
    requires 0 < p && b < 2 * p
    ensures b / p == if b < p then 0 else 1
  {
    var q := b / p;
    assert b == q * p + b % p && 0 <= b % p < p;
    Multiples(q, p);
  }

  /** The two nested loops of pow.go:181-197. */
  method LeadingZeroBits(b: Bytes) returns (n: nat)
    ensures n == LeadingZeros(b)
  {
    n := 0;
    var k := 0;
    while k < |b|
      invariant 0 <= k <= |b|
      invariant n + LeadingZeros(b[k..]) == LeadingZeros(b)
    {
      assert b[k..][1..] == b[k + 1..];
      if b[k] == 0 {
        n := n + 8;
      } else {
        var zeros := LeadingZerosOfByte(b[k]);
        return n + zeros;
      }
      k := k + 1;
    }
  }

  method LeadingZerosOfByte(x: byte) returns (n: nat)
    requires x != 0
    ensures n + BitLength(x) == 8
  {
    n := 0;
    var i := 7;
    assert x < Pow2(8) by { assert Pow2(8) == 256; }
    while i >= 0
      invariant -1 <= i <= 7 && n == 7 - i && x < Pow2(i + 1)
    {
      BitTest(x, i);
      BitLengthIff(x, i);
      BitLengthIff(x, i + 1);
      if BitClear(x, i) {
        n := n + 1;
      } else {
        return n;
      }
      i := i - 1;
    }
  }

  // ---- Mining and checking ------------------------------------------------------------------

  /** The memory-hard hash of material, nonce and difficulty. */
  type Work = (Bytes, u64, int) -> Digest

  function Clamp(difficulty: int): int { if difficulty < 1 then 1 else difficulty }

  predicate Solves(work: Work, material: Bytes, nonce: u64, difficulty: int) {
    LeadingZeros(work(material, nonce, difficulty)) >= difficulty
  }

  predicate VerifyWork(work: Work, material: Bytes, nonce: u64, difficulty: int, hashHex: Bytes) {
    difficulty >= 1 && Solves(work, material, nonce, difficulty)
    && (hashHex == [] || Hex(work(material, nonce, difficulty)) == hashHex)
  }

  lemma {:induction false} ZerosAtMost(b: Bytes)
    ensures LeadingZeros(b) <= 8 * |b|
  {
    if b != [] && b[0] == 0 {
      ZerosAtMost(b[1..]);
    }
  }

  /** A proof of work is good exactly if the hash, read as a number of 256 bits, is below 2^(256 - difficulty),
      and the hash text, if there is one, is that hash in hex. */
  lemma WorkIff(work: Work, material: Bytes, nonce: u64, difficulty: int, hashHex: Bytes)
    ensures VerifyWork(work, material, nonce, difficulty, hashHex) <==>
      && 1 <= difficulty <= 256
      && BigEndianValue(work(material, nonce, difficulty)) < Pow2(256 - difficulty)
      && (hashHex == [] || hashHex == Hex(work(material, nonce, difficulty)))
  {
    hide LeadingZeros, BigEndianValue, Pow2, Hex;
    var h := work(material, nonce, difficulty);
    ZerosAtMost(h);
    if 1 <= difficulty <= 256 {
      LeadingZerosIff(h, difficulty);
    }
  }

  /** Mine, on inputs for which a solution exists (without one it does not return): the result is the
      least solution, and Verify accepts it at the clamped difficulty -- at the requested one only if
      that was positive. */
  method Mine(work: Work, material: Bytes, requested: int, ghost solution: u64) returns (nonce: u64, hashHex: Bytes)
    requires Solves(work, material, solution, Clamp(requested))
    ensures Solves(work, material, nonce, Clamp(requested)) && nonce <= solution
    ensures forall m: u64 :: m < nonce ==> !Solves(work, material, m, Clamp(requested))
    ensures VerifyWork(work, material, nonce, Clamp(requested), hashHex)
    ensures VerifyWork(work, material, nonce, requested, hashHex) <==> requested >= 1
  {
    hide LeadingZeros, Hex;
    var difficulty := requested;
    if difficulty < 1 {
      difficulty := 1;
    }
    var n: u64 := 0;
    while true
      invariant n <= solution
      invariant forall m: u64 :: m < n ==> !Solves(work, material, m, difficulty)
      decreases solution - n
    {
      var h := work(material, n, difficulty);
      var zeros := LeadingZeroBits(h);
      if zeros >= difficulty {
        return n, Hex(h);
      }
      n := n + 1;
    }
  }
}
