/** Go's ordering of strings and the one ascending listing of a finite set of keys, which is what
    makes a result independent of the iteration order of a Go map. */
module ByteOrder {
  import opened Base

  predicate Less(a: Bytes, b: Bytes)
    decreases |a|
  {
    if b == [] then false
    else if a == [] then true
    else a[0] < b[0] || (a[0] == b[0] && Less(a[1..], b[1..]))
  }

  /** After a common beginning of n bytes, a ends before b does, or has the smaller byte. */
  predicate LessAt(a: Bytes, b: Bytes, n: nat) {
    n <= |a| && n < |b| && a[..n] == b[..n] && (n == |a| || a[n] < b[n])
  }

  lemma LessAtShift(a: Bytes, b: Bytes, n: nat)
    requires a != [] && b != [] && a[0] == b[0] && n < |a| && n < |b|
    ensures LessAt(a, b, n + 1) <==> LessAt(a[1..], b[1..], n)
  {
    assert a[..n + 1] == [a[0]] + a[1..][..n] && b[..n + 1] == [b[0]] + b[1..][..n];
  }

  lemma LessAtHead(a: Bytes, b: Bytes, n: nat)
    ensures LessAt(a, b, n) ==> n == 0 || (a != [] && b != [] && a[0] == b[0])
  {
    if 0 < n && LessAt(a, b, n) {
      assert a[0] == a[..n][0] && b[0] == b[..n][0];
    }
  }

  /** The order is the lexicographic one. */
  lemma {:induction false} LessIff(a: Bytes, b: Bytes)
    ensures Less(a, b) <==> exists n: nat :: LessAt(a, b, n)
    decreases |a|
  {
    if a != [] && b != [] && a[0] == b[0] {
      LessIff(a[1..], b[1..]);
      if Less(a, b) {
        var n: nat :| LessAt(a[1..], b[1..], n);
        LessAtShift(a, b, n);
      }
      if n: nat :| LessAt(a, b, n) {
        LessAtShift(a, b, n - 1);
      }
    } else if Less(a, b) {
      assert LessAt(a, b, 0);
    } else {
      forall n: nat ensures LessAt(a, b, n) ==> n == 0 || (a != [] && b != [] && a[0] == b[0]) {
        LessAtHead(a, b, n);
      }
    }
  }

  lemma {:induction false} LessIsStrict(a: Bytes, b: Bytes)
    ensures !(Less(a, b) && Less(b, a))
    decreases |a|
  {
    if a != [] && b != [] {
      LessIsStrict(a[1..], b[1..]);
    }
  }

  lemma {:induction false} LessIsTotal(a: Bytes, b: Bytes)
    ensures a == b || Less(a, b) || Less(b, a)
    decreases |a|
  {
    if a != [] && b != [] {
      LessIsTotal(a[1..], b[1..]);
      assert a == [a[0]] + a[1..] && b == [b[0]] + b[1..];
    }
  }

  lemma {:induction false} LessIsTransitive(a: Bytes, b: Bytes, c: Bytes)
    requires Less(a, b) && Less(b, c)
    ensures Less(a, c)
    decreases |a|
  {
    if a != [] && a[0] == b[0] == c[0] {
      LessIsTransitive(a[1..], b[1..], c[1..]);
    }
  }

  predicate Ascending(q: seq<Bytes>) {
    forall i, j :: 0 <= i < j < |q| ==> Less(q[i], q[j])
  }

  predicate Distinct<T(==)>(q: seq<T>) {
    forall i, j :: 0 <= i < j < |q| ==> q[i] != q[j]
  }

  lemma DistinctAppend<T>(q: seq<T>, x: T)
    requires Distinct(q) && x !in q
    ensures Distinct(q + [x])
  {
  }

  /** q enumerates exactly the set s, in ascending order. */
  ghost predicate Lists(q: seq<Bytes>, s: set<Bytes>) {
    Ascending(q) && forall x :: x in q <==> x in s
  }

  lemma AscendingIsDistinct(q: seq<Bytes>)
    requires Ascending(q)
    ensures Distinct(q)
  {
    forall i, j | 0 <= i < j < |q| ensures q[i] != q[j] {
      LessIsStrict(q[i], q[j]);
    }
  }

  /** The sorted order of a set of keys is unique. */
  lemma {:induction false} ListingUnique(q: seq<Bytes>, r: seq<Bytes>, s: set<Bytes>)
    requires Lists(q, s) && Lists(r, s)
    ensures q == r
    decreases |q|
  {
    assert |q| > 0 ==> q[0] in r;
    assert |r| > 0 ==> r[0] in q;
    if q != [] && r != [] {
      var i :| 0 <= i < |q| && q[i] == r[0];
      var j :| 0 <= j < |r| && r[j] == q[0];
      LessIsStrict(q[0], r[0]);
      assert q[0] == r[0];
      DropFirst(q, s);
      DropFirst(r, s);
      ListingUnique(q[1..], r[1..], s - {q[0]});
      assert q == [q[0]] + q[1..] && r == [r[0]] + r[1..];
    }
  }

  lemma DropFirst(q: seq<Bytes>, s: set<Bytes>)
    requires q != [] && Lists(q, s)
    ensures Lists(q[1..], s - {q[0]})
  {
    AscendingIsDistinct(q);
    forall x ensures x in q[1..] <==> x in s - {q[0]} {
      assert x in q <==> x == q[0] || x in q[1..];
      if x in q[1..] {
        var i :| 0 <= i < |q[1..]| && q[1..][i] == x;
        assert q[i + 1] == x;
      }
    }
  }

  function Insert(x: Bytes, q: seq<Bytes>): (r: seq<Bytes>)
    requires Ascending(q) && x !in q
    ensures Ascending(r) && |r| == |q| + 1
    ensures forall y :: y in r <==> y == x || y in q
  {
    if q == [] then [x]
    else if Less(x, q[0]) then
      assert forall j :: 0 < j < |q| ==> Less(x, q[j]) by {
        forall j | 0 < j < |q| ensures Less(x, q[j]) { LessIsTransitive(x, q[0], q[j]); }
      }
      [x] + q
    else
      LessIsTotal(x, q[0]);
      var t := Insert(x, q[1..]);
      assert forall y :: y in q <==> y == q[0] || y in q[1..];
      assert forall y :: y in t ==> Less(q[0], y);
      [q[0]] + t
  }

  /** The ascending listing of s. */
  ghost function SortedKeys(s: set<Bytes>): (q: seq<Bytes>)
    ensures Lists(q, s) && |q| == |s|
  {
    if s == {} then [] else
      var x :| x in s;
      Insert(x, SortedKeys(s - {x}))
  }

  /** sort.Strings on a slice without duplicates. */
  method Sort(keys: seq<Bytes>) returns (r: seq<Bytes>)
    requires Distinct(keys)
    ensures r == SortedKeys(set k | k in keys)
  {
    r := [];
    var i := 0;
    while i < |keys|
      invariant 0 <= i <= |keys|
      invariant Lists(r, set k | k in keys[..i])
    {
      assert keys[i] !in keys[..i];
      r := Insert(keys[i], r);
      assert forall y :: y in keys[..i + 1] <==> y == keys[i] || y in keys[..i];
      i := i + 1;
    }
    assert keys[..|keys|] == keys;
    ListingUnique(r, SortedKeys(set k | k in keys), set k | k in keys);
  }
}
