/** A rejected transaction is a stutter, and therefore a body that was filtered on a scratch ledger
    applies without error on a fresh one (internal/chain/engine.go:428-460). */
module Stutter {
  import opened Base
  import opened Types
  import opened Ledgers

  /** The ledgers differ at most in blank accounts. */
  ghost predicate Equivalent(l: Ledger, m: Ledger) {
    && l.(accounts := m.accounts) == m
    && forall id :: Get(l, id) == Get(m, id)
  }

  /** A rejected transaction leaves the ledger alone, except that it may create its sender's account. */
  lemma FailureIsStutter(p: Primitives, l: Ledger, tx: Transaction, height: u64)
    requires ApplyTx(p, l, tx, height).err.Some?
    ensures ApplyTx(p, l, tx, height).ledger == l || ApplyTx(p, l, tx, height).ledger == Ensure(l, tx.sender)
    ensures Equivalent(l, ApplyTx(p, l, tx, height).ledger)
  {
    if UsesNonce(tx.kind) {
      SenderAnatomy(p, l, tx, height);
    }
  }

  lemma CreditRespects(l: Ledger, m: Ledger, id: Bytes, amount: u64)
    requires Equivalent(l, m)
    ensures Equivalent(Credit(l, id, amount), Credit(m, id, amount))
  {
    assert Get(l, id) == Get(m, id);
    forall k ensures Get(Credit(l, id, amount), k) == Get(Credit(m, id, amount), k) {
      assert Get(l, k) == Get(m, k);
    }
  }

  lemma SettleRespects(l: Ledger, m: Ledger, tx: Transaction, step: Step)
    requires Equivalent(l, m)
    ensures Settle(l, tx, step).err == Settle(m, tx, step).err
    ensures Equivalent(Settle(l, tx, step).ledger, Settle(m, tx, step).ledger)
  {
    assert Get(l, tx.sender) == Get(m, tx.sender);
    forall k ensures Get(Settle(l, tx, step).ledger, k) == Get(Settle(m, tx, step).ledger, k) {
      assert Get(l, k) == Get(m, k);
    }
  }

  lemma SenderTxRespects(p: Primitives, l: Ledger, m: Ledger, tx: Transaction, height: u64)
    requires Equivalent(l, m) && UsesNonce(tx.kind)
    ensures SenderTx(p, l, tx, height).err == SenderTx(p, m, tx, height).err
    ensures Equivalent(SenderTx(p, l, tx, height).ledger, SenderTx(p, m, tx, height).ledger)
  {
    if EarlyError(p, tx).None? {
      assert Get(l, tx.sender) == Get(m, tx.sender);
      var step := StepOf(p, Get(l, tx.sender), tx, height);
      SettleRespects(l, m, tx, step);
      var s, t := Settle(l, tx, step).ledger, Settle(m, tx, step).ledger;
      if tx.kind.Transfer? {
        var d := p.decodeTransfer(tx.data).value;
        CreditRespects(s, t, d.to, d.amount);
      } else {
        assert forall k :: Get(After(p, s, tx), k) == Get(s, k) && Get(After(p, t, tx), k) == Get(t, k);
      }
    }
  }

  /** Every transaction has the same outcome on equivalent ledgers and keeps them equivalent. */
  lemma ApplyTxRespects(p: Primitives, l: Ledger, m: Ledger, tx: Transaction, height: u64)
    requires Equivalent(l, m)
    ensures ApplyTx(p, l, tx, height).err == ApplyTx(p, m, tx, height).err
    ensures Equivalent(ApplyTx(p, l, tx, height).ledger, ApplyTx(p, m, tx, height).ledger)
  {
    if UsesNonce(tx.kind) {
      SenderAnatomy(p, l, tx, height);
      SenderAnatomy(p, m, tx, height);
      SenderTxRespects(p, l, m, tx, height);
    } else if tx.kind.Coinbase? {
      var want := CoinbaseDue(l, height);
      var l', m' := l.(pool := l.pool - want), m.(pool := m.pool - want);
      forall k ensures Get(l', k) == Get(m', k) {
        assert Get(l, k) == Get(m, k);
      }
      CreditRespects(l', m', tx.sender, want);
    }
  }

  // ---- Filtering a block body ---------------------------------------------------------------

  datatype Sieved = Sieved(kept: seq<Transaction>, ledger: Ledger)

  /** Tries the transactions one after the other and keeps those that apply. */
  function Sieve(p: Primitives, l: Ledger, txs: seq<Transaction>, height: u64): Sieved {
    if txs == [] then Sieved([], l) else
    var r := Sieve(p, l, txs[..|txs| - 1], height);
    var s := ApplyTx(p, r.ledger, txs[|txs| - 1], height);
    Sieved(if s.err.Some? then r.kept else r.kept + [txs[|txs| - 1]], s.ledger)
  }

  lemma ApplyTxsStep(p: Primitives, l: Ledger, txs: seq<Transaction>, tx: Transaction, height: u64)
    requires ApplyTxs(p, l, txs, height).err.None?
    ensures var s := ApplyTx(p, ApplyTxs(p, l, txs, height).ledger, tx, height);
      && ApplyTxs(p, l, txs + [tx], height).ledger == s.ledger
      && (ApplyTxs(p, l, txs + [tx], height).err.None? <==> s.err.None?)
  {
    assert (txs + [tx])[..|txs|] == txs;
  }

  lemma {:induction false} ApplyTxsAppend(
      p: Primitives, l: Ledger, a: seq<Transaction>, b: seq<Transaction>, height: u64)
    requires ApplyTxs(p, l, a, height).err.None?
    requires ApplyTxs(p, ApplyTxs(p, l, a, height).ledger, b, height).err.None?
    ensures ApplyTxs(p, l, a + b, height) == ApplyTxs(p, ApplyTxs(p, l, a, height).ledger, b, height)
    decreases |b|
  {
    if b == [] {
      assert a + b == a;
    } else {
      var init, last := b[..|b| - 1], b[|b| - 1];
      ApplyTxsAppend(p, l, a, init, height);
      ApplyTxsStep(p, l, a + init, last, height);
      assert a + b == a + init + [last];
    }
  }

  /** Transaction i succeeds on the ledger that the ones before it lead to. */
  predicate SucceedsAt(p: Primitives, l: Ledger, txs: seq<Transaction>, height: u64, i: nat)
    requires i < |txs|
  {
    ApplyTx(p, ApplyTxs(p, l, txs[..i], height).ledger, txs[i], height).err.None?
  }

  /** A body applies exactly when each transaction succeeds on what the earlier ones lead to. */
  lemma {:induction false} BodyAppliesIff(p: Primitives, l: Ledger, txs: seq<Transaction>, height: u64)
    ensures ApplyTxs(p, l, txs, height).err.None? <==> forall i :: 0 <= i < |txs| ==> SucceedsAt(p, l, txs, height, i)
  {
    hide ApplyTx;
    if txs != [] {
      var init, n := txs[..|txs| - 1], |txs| - 1;
      BodyAppliesIff(p, l, init, height);
      forall i | 0 <= i < n ensures SucceedsAt(p, l, txs, height, i) == SucceedsAt(p, l, init, height, i) {
        assert init[..i] == txs[..i];
      }
      assert ApplyTxs(p, l, txs, height).err.None? <==>
        ApplyTxs(p, l, init, height).err.None? && SucceedsAt(p, l, txs, height, n);
      assert (forall i :: 0 <= i < |init| ==> SucceedsAt(p, l, init, height, i)) <==>
        forall i :: 0 <= i < n ==> SucceedsAt(p, l, txs, height, i);
    }
  }

  /** Otherwise the error names the first one that does not succeed, and its reason. */
  lemma {:induction false} FirstFailure(
      p: Primitives, l: Ledger, txs: seq<Transaction>, height: u64, i: nat, e: TxError)
    ensures ApplyTxs(p, l, txs, height).err == Some(TxFailed(i, e)) <==>
      && i < |txs| && (forall j :: 0 <= j < i ==> SucceedsAt(p, l, txs, height, j))
      && ApplyTx(p, ApplyTxs(p, l, txs[..i], height).ledger, txs[i], height).err == Some(e)
  {
    hide ApplyTx;
    if txs != [] {
      var init, n := txs[..|txs| - 1], |txs| - 1;
      FirstFailure(p, l, init, height, i, e);
      BodyAppliesIff(p, l, init, height);
      forall j | 0 <= j < n ensures SucceedsAt(p, l, txs, height, j) == SucceedsAt(p, l, init, height, j) {
        assert init[..j] == txs[..j];
      }
      assert i < n ==> init[..i] == txs[..i];
      if i == n && ApplyTxs(p, l, init, height).err.Some? {
        OnlyTxFailures(p, l, init, height);
      }
    }
  }

  lemma {:induction false} OnlyTxFailures(p: Primitives, l: Ledger, txs: seq<Transaction>, height: u64)
    ensures var err := ApplyTxs(p, l, txs, height).err;
      err.Some? ==> err.value.TxFailed? && err.value.index < |txs|
  {
    hide ApplyTx;
    if txs != [] {
      OnlyTxFailures(p, l, txs[..|txs| - 1], height);
    }
  }

  /** What the filter kept on a scratch ledger full of leftovers applies, in order and without
      error, on any equivalent ledger. */
  lemma {:induction false} KeptApplies(p: Primitives, l: Ledger, m: Ledger, txs: seq<Transaction>, height: u64)
    requires Equivalent(l, m)
    ensures ApplyTxs(p, m, Sieve(p, l, txs, height).kept, height).err.None?
    ensures Equivalent(Sieve(p, l, txs, height).ledger, ApplyTxs(p, m, Sieve(p, l, txs, height).kept, height).ledger)
    decreases |txs|
  {
    if txs != [] {
      var r := Sieve(p, l, txs[..|txs| - 1], height);
      var tx := txs[|txs| - 1];
      KeptApplies(p, l, m, txs[..|txs| - 1], height);
      var m' := ApplyTxs(p, m, r.kept, height).ledger;
      if ApplyTx(p, r.ledger, tx, height).err.Some? {
        FailureIsStutter(p, r.ledger, tx, height);
        EquivalentTrans(ApplyTx(p, r.ledger, tx, height).ledger, r.ledger, m');
      } else {
        ApplyTxRespects(p, r.ledger, m', tx, height);
        ApplyTxsStep(p, m, r.kept, tx, height);
      }
    }
  }

  lemma EquivalentTrans(a: Ledger, b: Ledger, c: Ledger)
    requires Equivalent(b, a) && Equivalent(b, c)
    ensures Equivalent(a, c)
  {
    forall k ensures Get(a, k) == Get(c, k) {
      assert Get(b, k) == Get(a, k) && Get(b, k) == Get(c, k);
    }
  }

  /** Nothing the filter keeps was not offered. */
  lemma {:induction false} KeptWasOffered(p: Primitives, l: Ledger, txs: seq<Transaction>, height: u64)
    ensures |Sieve(p, l, txs, height).kept| <= |txs|
    ensures forall tx :: tx in Sieve(p, l, txs, height).kept ==> tx in txs
    decreases |txs|
  {
    if txs != [] {
      KeptWasOffered(p, l, txs[..|txs| - 1], height);
    }
  }
}
