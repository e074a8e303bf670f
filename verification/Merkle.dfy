/** The Merkle root of a list of transaction ids (internal/chain/merkle.go). */
module Merkle {
  import opened Base
  import opened Types
  import opened ProofOfWork

  // ---- Reference tree -----------------------------------------------------------------------

  /** Number of nodes at height d above n leaves. */
  function Width(n: nat, d: nat): nat {
    if d == 0 then n else (Width(n, d - 1) + 1) / 2
  }

  /** Height of the root. */
  function Depth(n: nat): nat {
    if n <= 1 then 0 else 1 + Depth((n + 1) / 2)
  }

  function Cat(a: Bytes, b: Bytes): Bytes { a + b }

  /** The i-th node at height d, from the leaves below it: no level is ever materialised. */
  function Node(sha: Bytes -> Digest, ids: seq<Bytes>, d: nat, i: nat): Digest
    requires i < Width(|ids|, d)
    decreases d, 1
  {
    if d == 0 then sha(ids[i]) else sha(Children(sha, ids, d, i))
  }

  /** The two children of a node; a last node without a sibling is its own sibling. */
  function Children(sha: Bytes -> Digest, ids: seq<Bytes>, d: nat, i: nat): (c: Bytes)
    requires d > 0 && i < Width(|ids|, d)
    ensures |c| == 64
    decreases d, 0
  {
    Cat(Node(sha, ids, d - 1, 2 * i), Node(sha, ids, d - 1, Min(2 * i + 1, Width(|ids|, d - 1) - 1)))
  }

  lemma {:induction false} WidthAtDepth(n: nat, d: nat)
    requires n > 0 && d <= Depth(n)
    ensures Depth(n) == d + Depth(Width(n, d)) && Width(n, d) > 0
  {
    if d > 0 {
      WidthAtDepth(n, d - 1);
    }
  }

  lemma OneRoot(n: nat)
    requires n > 0
    ensures Width(n, Depth(n)) == 1
  {
    WidthAtDepth(n, Depth(n));
  }

  function Root(sha: Bytes -> Digest, ids: seq<Bytes>): Bytes {
    if ids == [] then Hex(sha([])) else
    OneRoot(|ids|);
    Hex(Node(sha, ids, Depth(|ids|), 0))
  }

  // ---- The level loop -----------------------------------------------------------------------

  ghost predicate IsLevel(sha: Bytes -> Digest, ids: seq<Bytes>, d: nat, level: seq<Digest>) {
    && |level| == Width(|ids|, d)
    && forall i :: 0 <= i < |level| ==> level[i] == Node(sha, ids, d, i)
  }

  /** The pair hashed for node j of the next height. */
  lemma PairOfLevel(sha: Bytes -> Digest, ids: seq<Bytes>, d: nat, current: seq<Digest>, level: seq<Digest>, j: nat)
    requires IsLevel(sha, ids, d, current) && |level| == |current| + |current| % 2 && 2 * j + 1 < |level|
    requires forall i :: 0 <= i < |level| ==> level[i] == current[Min(i, |current| - 1)]
    ensures j < Width(|ids|, d + 1) && sha(Cat(level[2 * j], level[2 * j + 1])) == Node(sha, ids, d + 1, j)
  {
    hide Cat;
    assert Cat(level[2 * j], level[2 * j + 1]) == Children(sha, ids, d + 1, j);
  }

  lemma NextWidth(n: nat, d: nat, width: nat)
    requires width == Width(n, d) + Width(n, d) % 2
    ensures Width(n, d + 1) * 2 == width
  {
  }

  /** One round: pads an odd level with its last node and hashes the pairs. */
  method NextLevel(sha: Bytes -> Digest, ghost ids: seq<Bytes>, ghost d: nat, current: seq<Digest>)
    returns (next: seq<Digest>)
    requires |current| > 1 && IsLevel(sha, ids, d, current)
    ensures IsLevel(sha, ids, d + 1, next)
  {
    var level := current;
    if |level| % 2 == 1 {
      level := level + [level[|level| - 1]];
    }
    NextWidth(|ids|, d, |level|);
    hide Node, Width, Cat;
    next := [];
    var i := 0;
    while i < |level|
      invariant 0 <= i <= |level| && i == 2 * |next|
      invariant forall j :: 0 <= j < |next| ==> j < Width(|ids|, d + 1) && next[j] == Node(sha, ids, d + 1, j)
    {
      PairOfLevel(sha, ids, d, current, level, |next|);
      next := next + [sha(Cat(level[i], level[i + 1]))];
      i := i + 2;
    }
  }

  /** The loop of merkle.go terminates and computes the root of the reference tree. */
  method MerkleRoot(sha: Bytes -> Digest, ids: seq<Bytes>) returns (root: Bytes)
    ensures root == Root(sha, ids)
  {
    if |ids| == 0 { return Hex(sha([])); }
    var level: seq<Digest> := [];
    var i := 0;
    while i < |ids|
      invariant 0 <= i == |level| <= |ids|
      invariant forall j :: 0 <= j < i ==> level[j] == sha(ids[j])
    {
      level := level + [sha(ids[i])];
      i := i + 1;
    }
    ghost var d := 0;
    while |level| > 1
      invariant |level| > 0 && IsLevel(sha, ids, d, level)
      invariant Depth(|ids|) == d + Depth(|level|)
      decreases |level|
    {
      level := NextLevel(sha, ids, d, level);
      d := d + 1;
    }
    root := Hex(level[0]);
  }

  function TxIDs(p: Primitives, txs: seq<Transaction>): (ids: seq<Bytes>)
    ensures |ids| == |txs| && forall i :: 0 <= i < |txs| ==> ids[i] == TxID(p, txs[i])
  {
    seq(|txs|, i requires 0 <= i < |txs| => TxID(p, txs[i]))
  }

  function RootOfTxs(p: Primitives, txs: seq<Transaction>): Bytes { Root(p.sha256, TxIDs(p, txs)) }

  // ---- The root round by round --------------------------------------------------------------

  /** What the first round hashes: the digests of neighbouring ids, the last one twice if it is alone. */
  function Paired(sha: Bytes -> Digest, ids: seq<Bytes>): (r: seq<Bytes>)
    requires ids != []
    ensures |r| == (|ids| + 1) / 2
    ensures forall j :: 0 <= j < |r| ==> r[j] == sha(ids[2 * j]) + sha(ids[Min(2 * j + 1, |ids| - 1)])
  {
    seq((|ids| + 1) / 2, j requires 0 <= j < (|ids| + 1) / 2 =>
      Cat(sha(ids[2 * j]), sha(ids[Min(2 * j + 1, |ids| - 1)])))
  }

  lemma {:induction false} WidthAfterRound(n: nat, d: nat)
    ensures Width(n, d + 1) == Width((n + 1) / 2, d)
  {
    if d > 0 {
      WidthAfterRound(n, d - 1);
    }
  }

  lemma {:induction false} NodesAfterRound(sha: Bytes -> Digest, ids: seq<Bytes>, d: nat, i: nat)
    requires ids != [] && i < Width(|ids|, d + 1)
    ensures i < Width(|Paired(sha, ids)|, d) && Node(sha, ids, d + 1, i) == Node(sha, Paired(sha, ids), d, i)
  {
    WidthAfterRound(|ids|, d);
    if d == 0 {
      assert Children(sha, ids, 1, i) == Paired(sha, ids)[i];
    } else {
      hide Paired, Cat;
      WidthAfterRound(|ids|, d - 1);
      NodesAfterRound(sha, ids, d - 1, 2 * i);
      NodesAfterRound(sha, ids, d - 1, Min(2 * i + 1, Width(|ids|, d) - 1));
    }
  }

  /** The root of nothing and of one id, and one round of the loop: these three equations determine it. */
  lemma RootByRounds(sha: Bytes -> Digest, ids: seq<Bytes>)
    ensures |ids| == 0 ==> Root(sha, ids) == Hex(sha([]))
    ensures |ids| == 1 ==> Root(sha, ids) == Hex(sha(ids[0]))
    ensures |ids| > 1 ==> Root(sha, ids) == Root(sha, Paired(sha, ids))
  {
    if |ids| > 1 {
      hide Node, Paired, Width;
      OneRoot(|ids|);
      NodesAfterRound(sha, ids, Depth(|ids|) - 1, 0);
    }
  }

  // ---- What the root commits to -------------------------------------------------------------

  /** s contains everything that is hashed to build the tree. */
  ghost predicate Covers(s: set<Bytes>, sha: Bytes -> Digest, ids: seq<Bytes>) {
    && (forall i :: 0 <= i < |ids| ==> ids[i] in s)
    && (forall d: nat, i: nat :: 0 < d <= Depth(|ids|) && i < Width(|ids|, d) ==> Children(sha, ids, d, i) in s)
  }

  ghost predicate SameNode(sha: Bytes -> Digest, a: seq<Bytes>, b: seq<Bytes>, d: nat, i: nat) {
    |a| == |b| && i < Width(|a|, d) && Node(sha, a, d, i) == Node(sha, b, d, i)
  }

  lemma HalvesOfCat(a: Bytes, b: Bytes, x: Bytes, y: Bytes)
    requires |a| == |x| && Cat(a, b) == Cat(x, y)
    ensures a == x && b == y
  {
    assert a == Cat(a, b)[..|a|] && x == Cat(x, y)[..|a|];
    assert b == Cat(a, b)[|a|..] && y == Cat(x, y)[|a|..];
  }

  lemma NodeOfChildren(sha: Bytes -> Digest, ids: seq<Bytes>, d: nat, i: nat)
    requires d > 0 && i < Width(|ids|, d)
    ensures Node(sha, ids, d, i) == sha(Children(sha, ids, d, i))
  {
    hide Children, Width;
  }

  lemma CoversChildren(s: set<Bytes>, sha: Bytes -> Digest, ids: seq<Bytes>, d: nat, i: nat)
    requires Covers(s, sha, ids) && 0 < d <= Depth(|ids|) && i < Width(|ids|, d)
    ensures Children(sha, ids, d, i) in s
  {
    hide Children, Node, Width, Depth;
  }

  lemma EqualPairs(sha: Bytes -> Digest, a: seq<Bytes>, b: seq<Bytes>, d: nat, j: nat)
    requires |a| == |b| && d > 0 && j < Width(|a|, d) && Children(sha, a, d, j) == Children(sha, b, d, j)
    ensures SameNode(sha, a, b, d - 1, 2 * j)
    ensures SameNode(sha, a, b, d - 1, Min(2 * j + 1, Width(|a|, d - 1) - 1))
  {
    hide Node, Cat;
    var r := Min(2 * j + 1, Width(|a|, d - 1) - 1);
    HalvesOfCat(Node(sha, a, d - 1, 2 * j), Node(sha, a, d - 1, r), Node(sha, b, d - 1, 2 * j), Node(sha, b, d - 1, r));
  }

  lemma SameChildren(s: set<Bytes>, sha: Bytes -> Digest, a: seq<Bytes>, b: seq<Bytes>, d: nat, j: nat)
    requires NoCollision(sha, s) && Covers(s, sha, a) && Covers(s, sha, b)
    requires 0 < d <= Depth(|a|) && SameNode(sha, a, b, d, j)
    ensures SameNode(sha, a, b, d - 1, 2 * j)
    ensures SameNode(sha, a, b, d - 1, Min(2 * j + 1, Width(|a|, d - 1) - 1))
  {
    hide Node, Children, Covers, Width, Depth;
    NodeOfChildren(sha, a, d, j);
    NodeOfChildren(sha, b, d, j);
    CoversChildren(s, sha, a, d, j);
    CoversChildren(s, sha, b, d, j);
    EqualPairs(sha, a, b, d, j);
  }

  lemma SameLeaf(s: set<Bytes>, sha: Bytes -> Digest, a: seq<Bytes>, b: seq<Bytes>, i: nat)
    requires NoCollision(sha, s) && Covers(s, sha, a) && Covers(s, sha, b)
    requires SameNode(sha, a, b, 0, i)
    ensures a[i] == b[i]
  {
    assert a[i] in s && b[i] in s;
  }

  /** Equal nodes at one height have equal children at the height below. */
  lemma SameLevelBelow(s: set<Bytes>, sha: Bytes -> Digest, a: seq<Bytes>, b: seq<Bytes>, d: nat, i: nat)
    requires NoCollision(sha, s) && Covers(s, sha, a) && Covers(s, sha, b)
    requires |a| == |b| && 0 < d <= Depth(|a|) && i < Width(|a|, d - 1)
    requires forall j: nat :: j < Width(|a|, d) ==> SameNode(sha, a, b, d, j)
    ensures SameNode(sha, a, b, d - 1, i)
  {
    hide Node, Children, Covers, NoCollision, Depth, SameNode;
    assert i / 2 < Width(|a|, d);
    SameChildren(s, sha, a, b, d, i / 2);
  }

  lemma {:induction false} SameLevelSameLeaves(
      s: set<Bytes>, sha: Bytes -> Digest, a: seq<Bytes>, b: seq<Bytes>, d: nat)
    requires NoCollision(sha, s) && Covers(s, sha, a) && Covers(s, sha, b)
    requires |a| == |b| && d <= Depth(|a|)
    requires forall i: nat :: i < Width(|a|, d) ==> SameNode(sha, a, b, d, i)
    ensures a == b
    decreases d
  {
    hide Node, Children, Covers, NoCollision, Depth, SameNode;
    if d == 0 {
      forall i | 0 <= i < |a| ensures a[i] == b[i] {
        SameLeaf(s, sha, a, b, i);
      }
    } else {
      var e := d - 1;
      forall i: nat | i < Width(|a|, e) ensures SameNode(sha, a, b, e, i) {
        SameLevelBelow(s, sha, a, b, d, i);
      }
      SameLevelSameLeaves(s, sha, a, b, e);
    }
  }

  /** Two lists of the same length with the same root are the same list, unless the hashing of the
      two trees met a collision. */
  lemma RootCommits(s: set<Bytes>, sha: Bytes -> Digest, a: seq<Bytes>, b: seq<Bytes>)
    requires NoCollision(sha, s) && Covers(s, sha, a) && Covers(s, sha, b)
    requires |a| == |b| && Root(sha, a) == Root(sha, b)
    ensures a == b
  {
    if a != [] {
      OneRoot(|a|);
      HexInjective(Node(sha, a, Depth(|a|), 0), Node(sha, b, Depth(|a|), 0));
      assert SameNode(sha, a, b, Depth(|a|), 0);
      SameLevelSameLeaves(s, sha, a, b, Depth(|a|));
    }
  }

  // ---- What it does not commit to -----------------------------------------------------------

  /** Level d of b is level d of a, which is odd, with its last node once more. */
  ghost predicate Padded(sha: Bytes -> Digest, a: seq<Bytes>, b: seq<Bytes>, d: nat) {
    var w := Width(|a|, d);
    && w % 2 == 1 && Width(|b|, d) == w + 1
    && (forall i: nat :: i < w ==> AlikeAt(sha, a, b, d, i, i))
    && AlikeAt(sha, a, b, d, w - 1, w)
  }

  predicate AlikeAt(sha: Bytes -> Digest, a: seq<Bytes>, b: seq<Bytes>, d: nat, i: nat, j: nat) {
    i < Width(|a|, d) && j < Width(|b|, d) && Node(sha, a, d, i) == Node(sha, b, d, j)
  }

  lemma {:induction false} PaddedWidth(sha: Bytes -> Digest, a: seq<Bytes>, b: seq<Bytes>, d: nat, e: nat)
    requires Padded(sha, a, b, d) && e > d
    ensures Width(|b|, e) == Width(|a|, e)
    decreases e
  {
    hide Node;
    if e > d + 1 {
      PaddedWidth(sha, a, b, d, e - 1);
    }
  }

  lemma SameChildrenSameNode(sha: Bytes -> Digest, a: seq<Bytes>, b: seq<Bytes>, e: nat, i: nat)
    requires e > 0 && i < Width(|a|, e) && i < Width(|b|, e)
    requires AlikeAt(sha, a, b, e - 1, 2 * i, 2 * i)
    requires AlikeAt(sha, a, b, e - 1, Min(2 * i + 1, Width(|a|, e - 1) - 1), Min(2 * i + 1, Width(|b|, e - 1) - 1))
    ensures AlikeAt(sha, a, b, e, i, i)
  {
    hide Cat;
    assert Children(sha, a, e, i) == Children(sha, b, e, i);
  }

  /** Above a padded level the two trees are the same. */
  lemma {:induction false} PaddedNode(sha: Bytes -> Digest, a: seq<Bytes>, b: seq<Bytes>, d: nat, e: nat, i: nat)
    requires Padded(sha, a, b, d) && e > d && i < Width(|a|, e)
    ensures AlikeAt(sha, a, b, e, i, i)
    decreases e
  {
    PaddedWidth(sha, a, b, d, e);
    hide Node;
    var w := Width(|a|, e - 1);
    if e > d + 1 {
      PaddedWidth(sha, a, b, d, e - 1);
      PaddedNode(sha, a, b, d, e - 1, 2 * i);
      PaddedNode(sha, a, b, d, e - 1, Min(2 * i + 1, w - 1));
    } else {
      assert AlikeAt(sha, a, b, d, 2 * i, 2 * i);
      assert 2 * i + 1 < w ==> AlikeAt(sha, a, b, d, 2 * i + 1, 2 * i + 1);
    }
    SameChildrenSameNode(sha, a, b, e, i);
  }

  // ---- Full levels --------------------------------------------------------------------------

  /** Nodes of a list whose length is w times 2^d. */
  lemma {:induction false} FullWidth(w: nat, d: nat, e: nat)
    requires e <= d
    ensures Width(w * Pow2(d), e) == w * Pow2(d - e)
    decreases e
  {
    if e > 0 {
      FullWidth(w, d, e - 1);
      Doubled(w, d - e);
    }
  }

  lemma Doubled(w: nat, k: nat)
    ensures w * Pow2(k + 1) == 2 * (w * Pow2(k))
  {
    assert Pow2(k + 1) == 2 * Pow2(k);
  }

  lemma {:induction false} FullDepth(w: nat, d: nat)
    requires w > 1
    ensures Depth(w * Pow2(d)) == d + Depth(w)
  {
    if d > 0 {
      FullDepth(w, d - 1);
      Doubled(w, d - 1);
      Grows(w, d - 1);
    }
  }

  lemma Grows(w: nat, k: nat)
    requires w > 1
    ensures w * Pow2(k) > 1
  {
    assert w * Pow2(k) >= w by { assert (Pow2(k) - 1) * w >= 0; }
  }

  /** The length-2^e stretch of a at x is that of b at y. */
  predicate SameRun(a: seq<Bytes>, x: nat, b: seq<Bytes>, y: nat, len: nat) {
    x + len <= |a| && y + len <= |b| && a[x..x + len] == b[y..y + len]
  }

  lemma HalvesOfRun(a: seq<Bytes>, x: nat, b: seq<Bytes>, y: nat, half: nat)
    requires SameRun(a, x, b, y, 2 * half)
    ensures SameRun(a, x, b, y, half) && SameRun(a, x + half, b, y + half, half)
  {
    assert a[x..x + half] == a[x..x + 2 * half][..half] && b[y..y + half] == b[y..y + 2 * half][..half];
    assert a[x + half..x + 2 * half] == a[x..x + 2 * half][half..];
    assert b[y + half..y + 2 * half] == b[y..y + 2 * half][half..];
  }

  lemma Halving(i: nat, e: nat)
    requires e > 0
    ensures Pow2(e) == 2 * Pow2(e - 1)
    ensures (2 * i) * Pow2(e - 1) == i * Pow2(e)
    ensures (2 * i + 1) * Pow2(e - 1) == i * Pow2(e) + Pow2(e - 1)
  {
    assert Pow2(e) == 2 * Pow2(e - 1);
    assert i * (2 * Pow2(e - 1)) == (2 * i) * Pow2(e - 1);
    assert (2 * i + 1) * Pow2(e - 1) == (2 * i) * Pow2(e - 1) + Pow2(e - 1);
  }

  lemma LeafRun(sha: Bytes -> Digest, a: seq<Bytes>, b: seq<Bytes>, i: nat, j: nat)
    requires SameRun(a, i * Pow2(0), b, j * Pow2(0), Pow2(0))
    ensures AlikeAt(sha, a, b, 0, i, j)
  {
    assert Pow2(0) == 1 && i * 1 == i && j * 1 == j;
    assert a[i..i + 1][0] == b[j..j + 1][0];
  }

  /** Nodes over equal stretches are equal, wherever the stretches are. */
  lemma {:induction false} SameRunSameNode(sha: Bytes -> Digest, a: seq<Bytes>, b: seq<Bytes>, v: nat, w: nat,
                                           d: nat, e: nat, i: nat, j: nat)
    requires |a| == v * Pow2(d) && |b| == w * Pow2(d) && e <= d && i < Width(|a|, e) && j < Width(|b|, e)
    requires SameRun(a, i * Pow2(e), b, j * Pow2(e), Pow2(e))
    ensures AlikeAt(sha, a, b, e, i, j)
    decreases e
  {
    if e == 0 {
      LeafRun(sha, a, b, i, j);
    } else {
      hide Node, AlikeAt, SameRun, Width;
      Halving(i, e);
      Halving(j, e);
      HalvesOfRun(a, i * Pow2(e), b, j * Pow2(e), Pow2(e - 1));
      EvenBelow(v, d, e);
      EvenBelow(w, d, e);
      SameRunSameNode(sha, a, b, v, w, d, e - 1, 2 * i, 2 * j);
      SameRunSameNode(sha, a, b, v, w, d, e - 1, 2 * i + 1, 2 * j + 1);
      BothChildren(sha, a, b, e, i, j);
    }
  }

  lemma EvenBelow(w: nat, d: nat, e: nat)
    requires 0 < e <= d
    ensures Width(w * Pow2(d), e - 1) == 2 * Width(w * Pow2(d), e)
  {
    FullWidth(w, d, e);
    FullWidth(w, d, e - 1);
    Doubled(w, d - e);
  }

  lemma BothChildren(sha: Bytes -> Digest, a: seq<Bytes>, b: seq<Bytes>, e: nat, i: nat, j: nat)
    requires e > 0 && i < Width(|a|, e) && j < Width(|b|, e)
    requires Width(|a|, e - 1) == 2 * Width(|a|, e) && Width(|b|, e - 1) == 2 * Width(|b|, e)
    requires AlikeAt(sha, a, b, e - 1, 2 * i, 2 * j) && AlikeAt(sha, a, b, e - 1, 2 * i + 1, 2 * j + 1)
    ensures AlikeAt(sha, a, b, e, i, j)
  {
    hide Cat;
    assert Children(sha, a, e, i) == Children(sha, b, e, j);
  }

  lemma Distributes(a: int, b: int, c: int)
    ensures (a + b) * c == a * c + b * c
  {
  }

  lemma Stretches(w: nat, run: nat, i: nat)
    requires i < w
    ensures i * run + run <= w * run && (w + 1) * run == w * run + run && (w - 1) * run == w * run - run
  {
    Distributes(i, 1, run);
    Distributes(i + 1, w - 1 - i, run);
    Distributes(w, 1, run);
    Distributes(w, -1, run);
    NotNegative(w - 1 - i, run);
  }

  lemma NotNegative(a: nat, b: nat)
    ensures a * b >= 0
  {
  }

  /** The list with its last 2^d ids once more. */
  function Repeated(ids: seq<Bytes>, run: nat): (r: seq<Bytes>)
    requires run <= |ids|
    ensures |r| == |ids| + run
  {
    ids + ids[|ids| - run..]
  }

  lemma RunsAt(ids: seq<Bytes>, run: nat, x: nat)
    requires x + run <= |ids|
    ensures SameRun(ids, x, Repeated(ids, run), x, run)
    ensures SameRun(ids, |ids| - run, Repeated(ids, run), |ids|, run)
  {
    var b := Repeated(ids, run);
    assert b[x..x + run] == ids[x..x + run];
    assert b[|ids|..|ids| + run] == ids[|ids| - run..|ids| - run + run];
  }

  lemma RunsOfRepeated(ids: seq<Bytes>, w: nat, run: nat, i: nat)
    requires |ids| == w * run && i < w
    ensures run <= |ids| && SameRun(ids, i * run, Repeated(ids, run), i * run, run)
    ensures SameRun(ids, (w - 1) * run, Repeated(ids, run), w * run, run)
  {
    hide SameRun, Repeated;
    Stretches(w, run, i);
    NotNegative(i, run);
    RunsAt(ids, run, i * run);
  }

  /** Repeating the last 2^d of a list pads its level d. */
  lemma RepeatedPads(sha: Bytes -> Digest, ids: seq<Bytes>, w: nat, d: nat)
    requires |ids| == w * Pow2(d) && w % 2 == 1
    ensures Pow2(d) <= |ids| && Padded(sha, ids, Repeated(ids, Pow2(d)), d)
  {
    hide Width, AlikeAt, SameRun, Repeated;
    Stretches(w, Pow2(d), 0);
    var b := Repeated(ids, Pow2(d));
    FullWidth(w, d, d);
    FullWidth(w + 1, d, d);
    assert Pow2(0) == 1;
    hide Pow2;
    forall i: nat | i < w ensures AlikeAt(sha, ids, b, d, i, i) {
      RunsOfRepeated(ids, w, Pow2(d), i);
      SameRunSameNode(sha, ids, b, w, w + 1, d, d, i, i);
    }
    RunsOfRepeated(ids, w, Pow2(d), 0);
    SameRunSameNode(sha, ids, b, w, w + 1, d, d, w - 1, w);
  }

  lemma OddDepth(n: nat)
    requires n % 2 == 1 && n >= 3
    ensures Depth(n + 1) == Depth(n) > 0
  {
    assert (n + 1 + 1) / 2 == (n + 1) / 2;
  }

  /** The root does not commit to the length: wherever a level is odd and has at least three full nodes,
      the ids under its last node may be repeated. */
  lemma RootIgnoresRepetition(sha: Bytes -> Digest, ids: seq<Bytes>, w: nat, d: nat)
    requires |ids| == w * Pow2(d) && w % 2 == 1 && w >= 3
    ensures Pow2(d) <= |ids| && Root(sha, Repeated(ids, Pow2(d))) == Root(sha, ids)
  {
    hide Node, Padded, Width, Pow2, Depth;
    RepeatedPads(sha, ids, w, d);
    Stretches(w, Pow2(d), 0);
    RepeatedDepth(w, d);
    PaddedRoots(sha, ids, Repeated(ids, Pow2(d)), d);
  }

  lemma RepeatedDepth(w: nat, d: nat)
    requires w % 2 == 1 && w >= 3
    ensures Depth((w + 1) * Pow2(d)) == Depth(w * Pow2(d)) > d
  {
    OddDepth(w);
    FullDepth(w, d);
    FullDepth(w + 1, d);
  }

  lemma PaddedRoots(sha: Bytes -> Digest, a: seq<Bytes>, b: seq<Bytes>, d: nat)
    requires a != [] && b != [] && Padded(sha, a, b, d) && Depth(|b|) == Depth(|a|) > d
    ensures Root(sha, a) == Root(sha, b)
  {
    hide Node, Padded, Width, Depth;
    OneRoot(|a|);
    OneRoot(|b|);
    PaddedNode(sha, a, b, d, Depth(|a|), 0);
  }

  /** In particular the last id of an odd list of at least three. */
  lemma RootIgnoresRepeatedLast(sha: Bytes -> Digest, ids: seq<Bytes>)
    requires |ids| % 2 == 1 && |ids| >= 3
    ensures Root(sha, ids + [ids[|ids| - 1]]) == Root(sha, ids)
  {
    assert Pow2(0) == 1;
    assert ids[|ids| - 1..] == [ids[|ids| - 1]];
    hide Pow2, Root;
    RootIgnoresRepetition(sha, ids, |ids|, 0);
  }
}
