/** The pool of pending transactions: a map and a queue over one backing array
    (internal/chain/mempool.go). */
module Mempools {
  import opened Base
  import opened ByteOrder
  import opened Types

  datatype AddError = BadSignature | Duplicate

  /** The queue without the removed ids, in the same order. */
  function FilterOut(q: seq<Bytes>, rm: set<Bytes>): seq<Bytes> {
    if q == [] then [] else
    var init := FilterOut(q[..|q| - 1], rm);
    if q[|q| - 1] in rm then init else init + [q[|q| - 1]]
  }

  /** The transactions of a queue of ids. */
  function Pending(byID: map<Bytes, Transaction>, q: seq<Bytes>): (txs: seq<Transaction>)
    requires forall id :: id in q ==> id in byID
    ensures |txs| == |q| && forall i :: 0 <= i < |q| ==> txs[i] == byID[q[i]]
  {
    if q == [] then [] else Pending(byID, q[..|q| - 1]) + [byID[q[|q| - 1]]]
  }

  /** The queue after one more id: when the pool is full the oldest entry is dropped. */
  function Enqueue(q: seq<Bytes>, id: Bytes, max: nat): seq<Bytes> {
    if |q| >= max && q != [] then q[1..] + [id] else q + [id]
  }

  /** Map and queue agree: the queue has no duplicates, its ids are the keys of the map, every
      transaction is stored under its own id, and the pool is within its bound. */
  ghost predicate Agree(p: Primitives, byID: map<Bytes, Transaction>, q: seq<Bytes>, max: nat) {
    && Distinct(q) && |q| <= max
    && (forall id :: id in q <==> id in byID)
    && (forall id :: id in byID ==> TxID(p, byID[id]) == id)
  }

  class Mempool {
    const max: nat
    var byID: map<Bytes, Transaction>
    var buf: array<Bytes>
    var lo: nat
    var hi: nat

    /** The slice m.order of the backing array. */
    ghost function Order(): seq<Bytes>
      requires lo <= hi <= buf.Length
      reads this, buf
    {
      buf[lo..hi]
    }

    ghost predicate Valid(p: Primitives)
      reads this, buf
    {
      && 0 < max && lo <= hi <= buf.Length
      && Agree(p, byID, Order(), max)
    }

    constructor (p: Primitives, limit: int)
      ensures Valid(p) && fresh(buf) && Order() == []
      ensures max == if limit <= 0 then 5000 else limit
    {
      max := if limit <= 0 then 5000 else limit;
      byID, buf, lo, hi := map[], new Bytes[0], 0, 0;
    }

    /** A larger backing array, with the queue at its start. */
    method Grow()
      requires lo <= hi <= buf.Length
      modifies this
      ensures lo <= hi < buf.Length && fresh(buf)
      ensures Order() == old(Order()) && byID == old(byID)
    {
      var larger := new Bytes[2 * (hi - lo) + 1](_ => []);
      var i := lo;
      while i < hi
        invariant lo <= i <= hi
        invariant larger[..i - lo] == buf[lo..i]
        modifies larger
      {
        larger[i - lo] := buf[i];
        i := i + 1;
      }
      assert larger[..hi - lo] == buf[lo..hi];
      buf, lo, hi := larger, 0, hi - lo;
    }

    /** append(m.order, id), which moves to a larger array when the backing array is used up. */
    method Push(id: Bytes)
      requires lo <= hi <= buf.Length
      modifies this, buf
      ensures lo <= hi <= buf.Length && (buf == old(buf) || fresh(buf))
      ensures Order() == old(Order()) + [id] && byID == old(byID)
    {
      if hi == buf.Length {
        Grow();
      }
      ghost var q := Order();
      buf[hi] := id;
      assert buf[lo..hi] == q && buf[hi] == id;
      hi := hi + 1;
    }

    method Add(p: Primitives, tx: Transaction) returns (err: Option<AddError>)
      requires Valid(p)
      modifies this, buf
      ensures Valid(p) && (buf == old(buf) || fresh(buf))
      ensures var unsigned := tx.kind.InitAlert? || tx.kind.Coinbase? || tx.kind.NetworkParams?;
        err == if !unsigned && !SignedBySender(p, tx) then Some(BadSignature)
               else if TxID(p, tx) in old(byID) then Some(Duplicate) else None
      ensures err.Some? ==> Order() == old(Order()) && byID == old(byID)
      ensures err.None? ==> var full := |old(Order())| >= max;
        && Order() == (if full then old(Order())[1..] else old(Order())) + [TxID(p, tx)]
        && byID == (if full then old(byID) - {old(Order())[0]} else old(byID))[TxID(p, tx) := tx]
    {
      hide TxVerifies, TxID, SignedBySender;
      VerifiesIff(p, tx);
      if !TxVerifies(p, tx) && tx.kind != InitAlert { return Some(BadSignature); }
      assert TxVerifies(p, tx) by { AlertVerifies(p, tx); }
      var id := TxID(p, tx);
      if id in byID { return Some(Duplicate); }
      ghost var q, m := Order(), byID;
      if hi - lo >= max {
        var oldest := buf[lo];
        lo := lo + 1;
        byID := byID - {oldest};
        assert Order() == q[1..];
      }
      byID := byID[id := tx];
      Push(id);
      AgreeAfterAdd(p, m, q, max, id, tx);
      return None;
    }

    /** The first n pending transactions; all of them when n is not positive or too large. */
    method Peek(p: Primitives, n: int) returns (out: seq<Transaction>)
      requires Valid(p)
      ensures |out| == if 0 < n <= |Order()| then n else |Order()|
      ensures forall i :: 0 <= i < |out| ==> Order()[i] in byID && out[i] == byID[Order()[i]]
      ensures out == Pending(byID, Order()[..|out|])
    {
      hide TxID, Distinct;
      var count := if n <= 0 || n > hi - lo then hi - lo else n;
      out := [];
      var i := 0;
      while i < count
        invariant 0 <= i <= count <= |Order()|
        invariant out == Pending(byID, Order()[..i])
      {
        assert Order()[..i + 1][..i] == Order()[..i];
        assert buf[lo + i] == Order()[i] && Order()[i] in Order();
        out := out + [byID[buf[lo + i]]];
        i := i + 1;
      }
    }

    /** Compacts the queue over its own backing array. */
    method Remove(p: Primitives, ids: seq<Bytes>)
      requires Valid(p)
      modifies this, buf
      ensures Valid(p) && buf == old(buf)
      ensures Order() == FilterOut(old(Order()), set id | id in ids)
      ensures byID == old(byID) - (set id | id in ids)
    {
      ghost var q, m := Order(), byID;
      var rm := set id | id in ids;
      byID := byID - rm;
      hi := Compact(buf, lo, hi, rm);
      AgreeAfterRemove(p, m, q, max, rm);
    }

    method Has(id: Bytes) returns (has: bool)
      ensures has <==> id in byID
    {
      has := id in byID;
    }
  }

  lemma AlertVerifies(p: Primitives, tx: Transaction)
    requires TxVerifies(p, tx) || tx.kind == InitAlert
    ensures TxVerifies(p, tx)
  {
  }

  /** `dst := order[:0]` filled while ranging over order: the write index never overtakes the read
      index, so no entry is overwritten before it is read. */
  method Compact(a: array<Bytes>, lo: nat, hi: nat, rm: set<Bytes>) returns (w: nat)
    requires lo <= hi <= a.Length
    modifies a
    ensures lo <= w <= hi && a[lo..w] == FilterOut(old(a[lo..hi]), rm)
  {
    ghost var s := a[lo..hi];
    w := lo;
    var r := lo;
    while r < hi
      invariant lo <= w <= r <= hi
      invariant a[lo..w] == FilterOut(s[..r - lo], rm)
      invariant forall i :: r <= i < hi ==> a[i] == s[i - lo]
    {
      assert s[..r - lo + 1][..r - lo] == s[..r - lo];
      if a[r] !in rm {
        a[w] := a[r];
        assert a[lo..w + 1] == a[lo..w] + [s[r - lo]];
        w := w + 1;
      }
      r := r + 1;
    }
    assert s[..hi - lo] == s;
  }

  // ---- Map and queue stay in agreement ------------------------------------------------------

  lemma AgreeAfterAdd(p: Primitives, byID: map<Bytes, Transaction>, q: seq<Bytes>, max: nat, id: Bytes, tx: Transaction)
    requires 0 < max && Agree(p, byID, q, max) && id !in byID && TxID(p, tx) == id
    ensures var rest := if |q| >= max then byID - {q[0]} else byID;
      Agree(p, rest[id := tx], Enqueue(q, id, max), max)
  {
    hide TxID;
    var tail := if |q| >= max then q[1..] else q;
    var rest := if |q| >= max then byID - {q[0]} else byID;
    forall x ensures x in tail <==> x in rest {
      if |q| >= max {
        assert x in q <==> x == q[0] || x in q[1..];
      }
    }
    assert Enqueue(q, id, max) == tail + [id];
    DistinctAppend(tail, id);
  }

  lemma {:induction false} FilterOutMembers(q: seq<Bytes>, rm: set<Bytes>)
    ensures |FilterOut(q, rm)| <= |q|
    ensures forall x :: x in FilterOut(q, rm) <==> x in q && x !in rm
    ensures Distinct(q) ==> Distinct(FilterOut(q, rm))
  {
    if q != [] {
      var init, last := q[..|q| - 1], q[|q| - 1];
      FilterOutMembers(init, rm);
      assert forall x :: x in q <==> x in init || x == last;
      if Distinct(q) {
        assert last !in init;
        DistinctAppend(FilterOut(init, rm), last);
      }
    }
  }

  lemma AgreeAfterRemove(p: Primitives, byID: map<Bytes, Transaction>, q: seq<Bytes>, max: nat, rm: set<Bytes>)
    requires Agree(p, byID, q, max)
    ensures Agree(p, byID - rm, FilterOut(q, rm), max)
  {
    FilterOutMembers(q, rm);
  }

  ghost predicate Precedes(q: seq<Bytes>, x: Bytes, y: Bytes) {
    exists i, j :: 0 <= i < j < |q| && q[i] == x && q[j] == y
  }

  /** Two entries that stay keep their relative order. */
  lemma {:induction false} FilterOutKeepsOrder(q: seq<Bytes>, rm: set<Bytes>, x: Bytes, y: Bytes)
    requires x !in rm && y !in rm
    ensures Precedes(FilterOut(q, rm), x, y) <==> Precedes(q, x, y)
  {
    if q != [] {
      var init, last := q[..|q| - 1], q[|q| - 1];
      FilterOutKeepsOrder(init, rm, x, y);
      FilterOutMembers(init, rm);
      PrecedesAppend(init, last, x, y);
      assert q == init + [last];
      if last !in rm {
        PrecedesAppend(FilterOut(init, rm), last, x, y);
      }
    }
  }

  lemma PrecedesAppend(q: seq<Bytes>, last: Bytes, x: Bytes, y: Bytes)
    ensures Precedes(q + [last], x, y) <==> Precedes(q, x, y) || (x in q && y == last)
  {
    var r := q + [last];
    if Precedes(q, x, y) {
      var i, j :| 0 <= i < j < |q| && q[i] == x && q[j] == y;
      assert r[i] == x && r[j] == y;
    }
    if x in q && y == last {
      var i :| 0 <= i < |q| && q[i] == x;
      assert r[i] == x && r[|q|] == y;
    }
    if Precedes(r, x, y) {
      var i, j :| 0 <= i < j < |r| && r[i] == x && r[j] == y;
      assert q[i] == x;
      if j < |q| {
        assert q[j] == y;
      }
    }
  }
}
