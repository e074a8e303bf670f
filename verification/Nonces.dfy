/** Replay protection: along a chain of applied blocks each sender's transactions carry the nonces
    0, 1, 2, ... in order (internal/chain/state.go:171-362). */
module Nonces {
  import opened Base
  import opened Types
  import opened Ledgers

  /** The nonce-bearing transactions of `id`, in order. */
  function SentBy(txs: seq<Transaction>, id: Bytes): seq<Transaction> {
    if txs == [] then [] else
    var tx := txs[|txs| - 1];
    var init := SentBy(txs[..|txs| - 1], id);
    if UsesNonce(tx.kind) && tx.sender == id then init + [tx] else init
  }

  /** All transactions of a chain. */
  function Body(blocks: seq<Block>): seq<Transaction> {
    if blocks == [] then [] else Body(blocks[..|blocks| - 1]) + blocks[|blocks| - 1].txs
  }

  /** The k-th of the transactions carries nonce k, and the account expects the next one. */
  ghost predicate Numbered(sent: seq<Transaction>, nonce: u64) {
    && nonce == |sent| % TWO64
    && forall k :: 0 <= k < |sent| ==> sent[k].nonce == k % TWO64
  }

  lemma NumberedStep(sent: seq<Transaction>, nonce: u64, tx: Transaction)
    requires Numbered(sent, nonce) && tx.nonce == nonce
    ensures Numbered(sent + [tx], Next(nonce))
  {
  }

  lemma CreditKeepsNonce(l: Ledger, to: Bytes, amount: u64, id: Bytes)
    ensures Get(Credit(l, to, amount), id).nonce == Get(l, id).nonce
  {
  }

  /** An applied transaction carries its sender's expected nonce and moves it on by one; no other
      transaction moves anybody's nonce. */
  lemma ApplyTxNonce(p: Primitives, l: Ledger, tx: Transaction, height: u64, id: Bytes)
    requires ApplyTx(p, l, tx, height).err.None?
    ensures UsesNonce(tx.kind) && tx.sender == id ==> tx.nonce == Get(l, id).nonce
    ensures Get(ApplyTx(p, l, tx, height).ledger, id).nonce ==
      if UsesNonce(tx.kind) && tx.sender == id then Next(Get(l, id).nonce) else Get(l, id).nonce
  {
    if UsesNonce(tx.kind) {
      SenderAnatomy(p, l, tx, height);
      var step := StepOf(p, Get(l, tx.sender), tx, height);
      var s := Settle(l, tx, step).ledger;
      StepAdvances(p, Get(l, tx.sender), tx, height);
      if tx.kind.Transfer? {
        var d := p.decodeTransfer(tx.data).value;
        CreditKeepsNonce(s, d.to, d.amount, id);
      }
    } else if tx.kind.Coinbase? {
      var want := CoinbaseDue(l, height);
      CreditKeepsNonce(l.(pool := l.pool - want), tx.sender, want, id);
    }
  }

  lemma {:induction false} SentByAppend(a: seq<Transaction>, b: seq<Transaction>, id: Bytes)
    ensures SentBy(a + b, id) == SentBy(a, id) + SentBy(b, id)
    decreases |b|
  {
    if b == [] {
      assert a + b == a;
    } else {
      assert (a + b)[..|a + b| - 1] == a + b[..|b| - 1];
      SentByAppend(a, b[..|b| - 1], id);
    }
  }

  lemma {:induction false} ApplyTxsNumbers(
      p: Primitives, l: Ledger, txs: seq<Transaction>, height: u64, id: Bytes, earlier: seq<Transaction>)
    requires ApplyTxs(p, l, txs, height).err.None?
    requires Numbered(earlier, Get(l, id).nonce)
    ensures Numbered(earlier + SentBy(txs, id), Get(ApplyTxs(p, l, txs, height).ledger, id).nonce)
    decreases |txs|
  {
    if txs == [] {
      assert earlier + SentBy(txs, id) == earlier;
    } else {
      var init, tx := txs[..|txs| - 1], txs[|txs| - 1];
      ApplyTxsNumbers(p, l, init, height, id, earlier);
      var l' := ApplyTxs(p, l, init, height).ledger;
      ApplyTxNonce(p, l', tx, height, id);
      if UsesNonce(tx.kind) && tx.sender == id {
        NumberedStep(earlier + SentBy(init, id), Get(l', id).nonce, tx);
        assert earlier + SentBy(txs, id) == earlier + SentBy(init, id) + [tx];
      }
    }
  }

  /** Along every chain, the transactions of each sender are numbered from zero, and the account's
      nonce is their count (modulo 2^64). */
  lemma {:induction false} ChainIsNumbered(p: Primitives, blocks: seq<Block>, id: Bytes)
    requires Applies(p, blocks)
    ensures Numbered(SentBy(Body(blocks), id), Get(Replay(p, blocks), id).nonce)
  {
    if blocks != [] {
      var l, b := Replay(p, blocks[..|blocks| - 1]), blocks[|blocks| - 1];
      ChainIsNumbered(p, blocks[..|blocks| - 1], id);
      var l0 := l.(pending := 0);
      assert Get(l0, id) == Get(l, id);
      ApplyTxsNumbers(p, l0, b.txs, b.header.height, id, SentBy(Body(blocks[..|blocks| - 1]), id));
      SentByAppend(Body(blocks[..|blocks| - 1]), b.txs, id);
      var r := ApplyTxs(p, l0, b.txs, b.header.height).ledger;
      CreditKeepsNonce(r, FeeTaker(b.header), r.pending, id);
      assert Get(PayFees(r, b.header), id).nonce == Get(r, id).nonce;
    }
  }

  /** No transaction is applied twice: two positions of one sender's history carry different nonces,
      whether in one block or across blocks, as long as the sender has sent at most 2^64. */
  lemma NoReplay(p: Primitives, blocks: seq<Block>, id: Bytes, i: nat, j: nat)
    requires Applies(p, blocks)
    requires i < j < |SentBy(Body(blocks), id)| <= TWO64
    ensures SentBy(Body(blocks), id)[i].nonce != SentBy(Body(blocks), id)[j].nonce
    ensures SentBy(Body(blocks), id)[i] != SentBy(Body(blocks), id)[j]
  {
    hide Applies, SentBy, Body, Replay, Get;
    ChainIsNumbered(p, blocks, id);
    NumberedApart(SentBy(Body(blocks), id), Get(Replay(p, blocks), id).nonce, i, j);
  }

  lemma NumberedApart(sent: seq<Transaction>, nonce: u64, i: nat, j: nat)
    requires Numbered(sent, nonce) && i < j < |sent| <= TWO64
    ensures sent[i].nonce != sent[j].nonce
  {
    assert i % TWO64 == i && j % TWO64 == j;
    assert sent[i].nonce == i % TWO64 && sent[j].nonce == j % TWO64;
  }
}
