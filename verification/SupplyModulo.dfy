/** The supply law without any bound: once fees from second-branch unstakes have brought the total to 2^64,
    additions wrap around, and what is left of the law is its congruence modulo 2^64. */
module SupplyModulo {
  import opened Base
  import opened Types
  import opened Ledgers
  import opened Supply
  import opened Consensus
  import opened Conservation
  import Chain

  /** Equal up to multiples of 2^64. */
  predicate Congruent(a: int, b: int) { (a - b) % TWO64 == 0 }

  lemma Chained(a: int, b: int, c: int)
    requires Congruent(a, b) && Congruent(b, c)
    ensures Congruent(a, c)
  {
    Added(a - b, 0, b - c, 0);
  }

  lemma Added(a: int, b: int, c: int, d: int)
    requires Congruent(a, b) && Congruent(c, d)
    ensures Congruent(a + c, b + d) && Congruent(b + d, a + c)
  {
  }

  lemma Sum64(a: u64, b: u64)
    ensures Congruent(Add64(a, b), a + b)
  {
  }

  lemma CreditModulo(l: Ledger, id: Bytes, amount: u64)
    ensures Congruent(Total(Credit(l, id, amount)), Total(l) + amount)
  {
    hide Congruent;
    EnsureTotal(l, id);
    var l0 := Ensure(l, id);
    WealthUpdate(l0.accounts, id, Credit(l, id, amount).accounts[id]);
    var a := l0.accounts[id];
    Sum64(a.balance, amount);
    Shifted(Add64(a.balance, amount), a.balance + amount, Total(l) - a.balance);
  }

  lemma Shifted(a: int, b: int, c: int)
    requires Congruent(a, b)
    ensures Congruent(a + c, b + c)
  {
  }

  lemma SettleModulo(l: Ledger, tx: Transaction, step: Step)
    ensures Settle(l, tx, step).err.Some? ==> Total(Settle(l, tx, step).ledger) == Total(l)
    ensures Settle(l, tx, step).err.None? ==>
      step.Charge? && Congruent(Total(Settle(l, tx, step).ledger),
                                Total(l) + Worth(step.account) + step.fee - Worth(Get(l, tx.sender)))
  {
    hide Congruent;
    EnsureTotal(l, tx.sender);
    if Settle(l, tx, step).err.None? {
      WealthUpdate(Ensure(l, tx.sender).accounts, tx.sender, step.account);
      Sum64(l.pending, step.fee);
      Shifted(Add64(l.pending, step.fee), l.pending + step.fee,
              Total(l) - l.pending + Worth(step.account) - Worth(Get(l, tx.sender)));
    }
  }

  /** What a step takes from its account is paid out, up to wrap-around. */
  lemma StepModulo(rule: Rule, p: Primitives, l: Ledger, tx: Transaction, height: u64)
    requires UsesNonce(tx.kind) && EarlyError(p, tx).None?
    requires StepUnder(rule, p, Get(l, tx.sender), tx, height).Charge?
    ensures var s := StepUnder(rule, p, Get(l, tx.sender), tx, height);
      Congruent(Worth(s.account) + s.fee + Outflow(p, tx), Worth(Get(l, tx.sender)) + TxDrift(rule, p, l, tx))
  {
  }

  lemma SenderTxModulo(rule: Rule, p: Primitives, l: Ledger, tx: Transaction, height: u64)
    requires UsesNonce(tx.kind) && SenderTxUnder(rule, p, l, tx, height).err.None?
    ensures Congruent(Total(SenderTxUnder(rule, p, l, tx, height).ledger), Total(l) + TxDrift(rule, p, l, tx))
  {
    hide Congruent, StepUnder, TxDrift, Settle, Worth, Total;
    var step := StepUnder(rule, p, Get(l, tx.sender), tx, height);
    var s := Settle(l, tx, step).ledger;
    var drift := TxDrift(rule, p, l, tx);
    SettleModulo(l, tx, step);
    StepModulo(rule, p, l, tx, height);
    Shifted(Worth(step.account) + step.fee + Outflow(p, tx), Worth(Get(l, tx.sender)) + drift,
            Total(l) - Worth(Get(l, tx.sender)) - Outflow(p, tx));
    Chained(Total(s), Total(l) + Worth(step.account) + step.fee - Worth(Get(l, tx.sender)),
            Total(l) + drift - Outflow(p, tx));
    if tx.kind.Transfer? {
      CreditModulo(s, p.decodeTransfer(tx.data).value.to, Outflow(p, tx));
      Shifted(Total(s), Total(l) + drift - Outflow(p, tx), Outflow(p, tx));
      Chained(Total(After(p, s, tx)), Total(s) + Outflow(p, tx), Total(l) + drift);
    } else {
      AfterTotal(p, s, tx);
    }
  }

  lemma AfterTotal(p: Primitives, l: Ledger, tx: Transaction)
    requires EarlyError(p, tx).None? && !tx.kind.Transfer?
    ensures Total(After(p, l, tx)) == Total(l) && Outflow(p, tx) == 0
  {
    hide TxID;
  }

  lemma TxModulo(rule: Rule, p: Primitives, l: Ledger, tx: Transaction, height: u64)
    requires TxUnder(rule, p, l, tx, height).err.None?
    ensures Congruent(Total(TxUnder(rule, p, l, tx, height).ledger), Total(l) + TxDrift(rule, p, l, tx))
  {
    if UsesNonce(tx.kind) {
      hide SenderTxUnder;
      SenderTxModulo(rule, p, l, tx, height);
    } else if tx.kind.Coinbase? {
      var want := CoinbaseDue(l, height);
      assert Total(l.(pool := l.pool - want)) == Total(l) - want;
      CreditModulo(l.(pool := l.pool - want), tx.sender, want);
    }
  }

  lemma {:induction false} TxsModulo(rule: Rule, p: Primitives, l: Ledger, txs: seq<Transaction>, height: u64)
    requires TxsUnder(rule, p, l, txs, height).err.None?
    ensures Congruent(Total(TxsUnder(rule, p, l, txs, height).ledger), Total(l) + TxsDrift(rule, p, l, txs, height))
  {
    hide TxUnder, TxDrift, Total;
    if txs != [] {
      var init, tx := txs[..|txs| - 1], txs[|txs| - 1];
      var r := TxsUnder(rule, p, l, init, height).ledger;
      TxsModulo(rule, p, l, init, height);
      TxModulo(rule, p, r, tx, height);
      hide Congruent;
      Shifted(Total(r), Total(l) + TxsDrift(rule, p, l, init, height), TxDrift(rule, p, r, tx));
      Chained(Total(TxUnder(rule, p, r, tx, height).ledger), Total(r) + TxDrift(rule, p, r, tx),
              Total(l) + TxsDrift(rule, p, l, txs, height));
    }
  }

  /** Paying the fees moves them from the pending sum to an account, or loses them. */
  lemma FeesModulo(p: Primitives, r: Ledger, h: Header)
    ensures Congruent(Total(PayFees(r, h).(pending := 0)) + (if PaysFees(h) then 0 else r.pending), Total(r))
  {
    var cleared := r.(pending := 0);
    assert Total(cleared) == Total(r) - r.pending;
    if PaysFees(h) && r.pending > 0 {
      CreditModulo(cleared, FeeTaker(h), r.pending);
      assert PayFees(r, h).accounts == Credit(cleared, FeeTaker(h), r.pending).accounts;
      assert PayFees(r, h).(pending := 0) == Credit(cleared, FeeTaker(h), r.pending);
    }
  }

  lemma BlockModulo(rule: Rule, p: Primitives, l: Ledger, b: Block)
    requires l.pending == 0 && BlockUnder(rule, p, l, b).err.None?
    ensures Congruent(Total(BlockUnder(rule, p, l, b).ledger) + BlockForfeit(rule, p, l, b),
                      Total(l) + BlockDrift(rule, p, l, b))
    ensures BlockUnder(rule, p, l, b).ledger.pending == 0
  {
    hide TxsUnder, TxsDrift, PayFees, HashHex, Congruent;
    assert l.(pending := 0) == l;
    var r := TxsUnder(rule, p, l, b.txs, b.header.height).ledger;
    TxsModulo(rule, p, l, b.txs, b.header.height);
    FeesModulo(p, r, b.header);
    SameTotal(PayFees(r, b.header).(pending := 0), BlockUnder(rule, p, l, b).ledger);
    Chained(Total(BlockUnder(rule, p, l, b).ledger) + BlockForfeit(rule, p, l, b), Total(r),
            Total(l) + BlockDrift(rule, p, l, b));
  }

  lemma SameTotal(l: Ledger, m: Ledger)
    requires l.accounts == m.accounts && l.pool == m.pool && l.pending == m.pending
    ensures Total(l) == Total(m)
  {
  }

  /** The supply law under either rule on every chain whose blocks all apply, however much was created:
      pool, accounts and forfeited fees are congruent to the original pool plus the drift. */
  lemma {:induction false} LawModulo(rule: Rule, p: Primitives, blocks: seq<Block>)
    requires AllApply(rule, p, blocks)
    ensures Congruent(Total(ReplayUnder(rule, p, blocks)) + Forfeit(rule, p, blocks),
                      MINER_REWARD_POOL + Drift(rule, p, blocks))
    ensures ReplayUnder(rule, p, blocks).pending == 0
  {
    hide BlockUnder, BlockDrift, BlockForfeit, Total, Congruent, ReplayUnder, AllApply, Drift, Forfeit;
    if blocks == [] {
      Nothing(rule, p);
    } else {
      var init, b := blocks[..|blocks| - 1], blocks[|blocks| - 1];
      var l := ReplayUnder(rule, p, init);
      LastOf(rule, p, blocks);
      LawModulo(rule, p, init);
      BlockModulo(rule, p, l, b);
      OneMoreBlock(Total(l), Forfeit(rule, p, init), Drift(rule, p, init),
                   Total(BlockUnder(rule, p, l, b).ledger), BlockForfeit(rule, p, l, b), BlockDrift(rule, p, l, b));
    }
  }

  lemma Nothing(rule: Rule, p: Primitives)
    ensures ReplayUnder(rule, p, []) == NEW_LEDGER && Total(NEW_LEDGER) == MINER_REWARD_POOL
    ensures Drift(rule, p, []) == 0 && Forfeit(rule, p, []) == 0 && Congruent(MINER_REWARD_POOL, MINER_REWARD_POOL)
  {
  }

  lemma LastOf(rule: Rule, p: Primitives, blocks: seq<Block>)
    requires blocks != []
    ensures var init, b := blocks[..|blocks| - 1], blocks[|blocks| - 1];
      var l := ReplayUnder(rule, p, init);
      && ReplayUnder(rule, p, blocks) == BlockUnder(rule, p, l, b).ledger
      && (AllApply(rule, p, blocks) <==> AllApply(rule, p, init) && BlockUnder(rule, p, l, b).err.None?)
      && Drift(rule, p, blocks) == Drift(rule, p, init) + BlockDrift(rule, p, l, b)
      && Forfeit(rule, p, blocks) == Forfeit(rule, p, init) + BlockForfeit(rule, p, l, b)
  {
    hide BlockUnder, BlockDrift, BlockForfeit;
  }

  lemma OneMoreBlock(total: int, forfeit: int, drift: int, total': int, forfeit': int, drift': int)
    requires Congruent(total + forfeit, MINER_REWARD_POOL + drift)
    requires Congruent(total' + forfeit', total + drift')
    ensures Congruent(total' + (forfeit + forfeit'), MINER_REWARD_POOL + (drift + drift'))
  {
    hide Congruent;
    Shifted(total + forfeit, MINER_REWARD_POOL + drift, drift');
    Shifted(total' + forfeit', total + drift', forfeit);
    Chained(total' + forfeit' + forfeit, total + drift' + forfeit, MINER_REWARD_POOL + drift + drift');
  }

  /** On every accepted chain of ordinary proposers, without a bound: pool and accounts together are
      congruent to 4,200,000 plus the fees of second-branch unstakes, modulo 2^64. */
  lemma AcceptedSupplyModulo(p: Primitives, chain: seq<Block>)
    requires Sound(p) && AcceptedChain(p, chain) && OrdinaryProposers(chain)
    ensures var l := Replay(p, chain);
      Congruent(l.pool + Wealth(l.accounts), MINER_REWARD_POOL + Drift(AsWritten, p, chain))
  {
    hide AcceptedChain, Sound, Replay, ReplayUnder, Drift, Forfeit, AllApply, Applies, Congruent;
    Chain.ChainFacts(p, chain);
    NothingForfeited(p, chain);
    WrittenIsReplay(p, chain);
    LawModulo(AsWritten, p, chain);
  }
}
