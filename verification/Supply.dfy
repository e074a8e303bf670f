/** Where the 4,200,000 units are: the supply law for the code as written, with its exact error term,
    and for the rule that the comment at state.go:325 describes. */
module Supply {
  import opened Base
  import opened Types
  import opened Ledgers

  // ---- Wealth of a set of accounts ----------------------------------------------------------

  function Worth(a: Account): nat { a.balance + a.stake + a.burned }

  ghost function Wealth(accounts: map<Bytes, Account>): nat {
    if accounts == map[] then 0 else
      var k :| k in accounts;
      Worth(accounts[k]) + Wealth(accounts - {k})
  }

  lemma {:induction false} WealthSplit(accounts: map<Bytes, Account>, k: Bytes)
    requires k in accounts
    ensures Wealth(accounts) == Worth(accounts[k]) + Wealth(accounts - {k})
    decreases |accounts|
  {
    var j :| j in accounts && Wealth(accounts) == Worth(accounts[j]) + Wealth(accounts - {j});
    if j != k {
      WealthSplit(accounts - {j}, k);
      WealthSplit(accounts - {k}, j);
      assert accounts - {j} - {k} == accounts - {k} - {j};
    }
  }

  lemma WealthUpdate(accounts: map<Bytes, Account>, k: Bytes, a: Account)
    ensures Wealth(accounts[k := a]) ==
      Wealth(accounts) + Worth(a) - (if k in accounts then Worth(accounts[k]) else 0)
  {
    WealthSplit(accounts[k := a], k);
    if k in accounts {
      WealthSplit(accounts, k);
      assert accounts[k := a] - {k} == accounts - {k};
    } else {
      assert accounts[k := a] - {k} == accounts;
    }
  }

  /** Everything there is: the reward pool, the accounts, and the fees collected so far in the block. */
  ghost function Total(l: Ledger): nat { l.pool + Wealth(l.accounts) + l.pending }

  lemma EnsureTotal(l: Ledger, id: Bytes)
    ensures Total(Ensure(l, id)) == Total(l)
  {
    WealthUpdate(l.accounts, id, Blank(id));
  }

  lemma WorthAtMostTotal(l: Ledger, id: Bytes)
    ensures Worth(Get(l, id)) + l.pool + l.pending <= Total(l)
  {
    if id in l.accounts {
      WealthSplit(l.accounts, id);
    }
  }

  lemma CreditTotal(l: Ledger, id: Bytes, amount: u64)
    requires Total(l) + amount < TWO64
    ensures Total(Credit(l, id, amount)) == Total(l) + amount
  {
    EnsureTotal(l, id);
    var l0 := Ensure(l, id);
    WorthAtMostTotal(l0, id);
    WealthUpdate(l0.accounts, id, Credit(l, id, amount).accounts[id]);
  }

  lemma SettleTotal(l: Ledger, tx: Transaction, step: Step)
    requires Settle(l, tx, step).err.None? ==>
      Total(l) + Worth(step.account) + step.fee < TWO64 + Worth(Get(l, tx.sender))
    ensures Settle(l, tx, step).err.Some? ==> Total(Settle(l, tx, step).ledger) == Total(l)
    ensures Settle(l, tx, step).err.None? ==>
      Total(Settle(l, tx, step).ledger) + Worth(Get(l, tx.sender)) == Total(l) + Worth(step.account) + step.fee
  {
    EnsureTotal(l, tx.sender);
    if Settle(l, tx, step).err.None? {
      WorthAtMostTotal(l, tx.sender);
      WealthUpdate(Ensure(l, tx.sender).accounts, tx.sender, step.account);
    }
  }

  // ---- Two rules for unstaking --------------------------------------------------------------

  /** The code as written, or the rule its comment describes. */
  datatype Rule = AsWritten | AsCommented

  /** "fee from liquid or from unstaked amount": the whole amount leaves the stake, and what the fee
      leaves of it becomes liquid. */
  function CommentedUnstakeStep(a: Account, amount: u64, fee: u64): Step {
    if a.stake >= amount && a.balance < fee && amount > fee then
      Charge(a.(stake := a.stake - amount, balance := Add64(a.balance, amount - fee), nonce := Next(a.nonce),
                active := a.active && a.stake != amount), fee)
    else UnstakeStep(a, amount, fee)
  }

  function StepUnder(rule: Rule, p: Primitives, a: Account, tx: Transaction, height: u64): Step
    requires EarlyError(p, tx).None?
  {
    if rule.AsCommented? && tx.kind.Unstake?
    then CommentedUnstakeStep(a, p.decodeAmount(tx.data).value.amount, FeeOr(tx.fee, FEE_UNSTAKE))
    else StepOf(p, a, tx, height)
  }

  function SenderTxUnder(rule: Rule, p: Primitives, l: Ledger, tx: Transaction, height: u64): Applied<TxError> {
    if EarlyError(p, tx).Some? then Applied(l, EarlyError(p, tx)) else
    var s := Settle(l, tx, StepUnder(rule, p, Get(l, tx.sender), tx, height));
    if s.err.Some? then s else Applied(After(p, s.ledger, tx), None)
  }

  function TxUnder(rule: Rule, p: Primitives, l: Ledger, tx: Transaction, height: u64): Applied<TxError> {
    if UsesNonce(tx.kind) && TxVerifies(p, tx) then SenderTxUnder(rule, p, l, tx, height)
    else ApplyTx(p, l, tx, height)
  }

  function TxsUnder(rule: Rule, p: Primitives, l: Ledger, txs: seq<Transaction>, height: u64): Applied<BlockError> {
    if txs == [] then Applied(l, None) else
    var r := TxsUnder(rule, p, l, txs[..|txs| - 1], height);
    if r.err.Some? then r else
    var s := TxUnder(rule, p, r.ledger, txs[|txs| - 1], height);
    Applied(s.ledger, if s.err.Some? then Some(TxFailed(|txs| - 1, s.err.value)) else None)
  }

  function BlockUnder(rule: Rule, p: Primitives, l: Ledger, b: Block): Applied<BlockError> {
    var r := TxsUnder(rule, p, l.(pending := 0), b.txs, b.header.height);
    if r.err.Some? then r else
    Applied(PayFees(r.ledger, b.header).(height := b.header.height, tip := HashHex(p, b.header), pending := 0), None)
  }

  function ReplayUnder(rule: Rule, p: Primitives, blocks: seq<Block>): Ledger {
    if blocks == [] then NEW_LEDGER
    else BlockUnder(rule, p, ReplayUnder(rule, p, blocks[..|blocks| - 1]), blocks[|blocks| - 1]).ledger
  }

  /** Every block applies, without an error, on the ledger its predecessors lead to. */
  predicate AllApply(rule: Rule, p: Primitives, blocks: seq<Block>) {
    blocks == [] ||
    (AllApply(rule, p, blocks[..|blocks| - 1]) &&
     BlockUnder(rule, p, ReplayUnder(rule, p, blocks[..|blocks| - 1]), blocks[|blocks| - 1]).err.None?)
  }

  lemma {:induction false} WrittenTxs(p: Primitives, l: Ledger, txs: seq<Transaction>, height: u64)
    ensures TxsUnder(AsWritten, p, l, txs, height) == ApplyTxs(p, l, txs, height)
  {
    if txs != [] {
      var init, tx := txs[..|txs| - 1], txs[|txs| - 1];
      WrittenTxs(p, l, init, height);
      if UsesNonce(tx.kind) {
        SenderAnatomy(p, ApplyTxs(p, l, init, height).ledger, tx, height);
      }
    }
  }

  /** The rule as written is the ledger of Ledgers. */
  lemma {:induction false} WrittenIsReplay(p: Primitives, blocks: seq<Block>)
    ensures ReplayUnder(AsWritten, p, blocks) == Replay(p, blocks)
    ensures AllApply(AsWritten, p, blocks) <==> Applies(p, blocks)
  {
    if blocks != [] {
      var l, b := Replay(p, blocks[..|blocks| - 1]), blocks[|blocks| - 1];
      WrittenIsReplay(p, blocks[..|blocks| - 1]);
      WrittenTxs(p, l.(pending := 0), b.txs, b.header.height);
    }
  }

  // ---- The error term -----------------------------------------------------------------------

  /** The second branch of applyUnstake (state.go:328-329): the balance does not cover the fee. */
  predicate FeeFromStake(a: Account, amount: u64, fee: u64) {
    a.stake >= amount && a.balance < fee && amount > fee
  }

  /** One unstake conserves its sender's worth, fee included, exactly when the second branch is not
      taken; in the second branch it creates the fee. */
  lemma UnstakeConservesIff(a: Account, amount: u64, fee: u64)
    requires Worth(a) < TWO64 && fee > 0 && UnstakeStep(a, amount, fee).Charge?
    ensures var b := UnstakeStep(a, amount, fee).account;
      Worth(b) + fee == Worth(a) + (if FeeFromStake(a, amount, fee) then fee else 0)
    ensures Worth(UnstakeStep(a, amount, fee).account) + fee == Worth(a) <==> !FeeFromStake(a, amount, fee)
  {
  }

  /** Such an unstake exists: a stake of 100, nothing liquid, and a request for 50 at fee 1 leave the
      sender with 51 staked and 49 liquid, and a fee of 1 is collected on top. */
  lemma UnstakeCanCreate()
    ensures var a := Blank([1]).(stake := 100);
      UnstakeStep(a, 50, 1) == Charge(a.(stake := 51, balance := 49, nonce := 1), 1) && Worth(a) == 100
  {
  }

  /** tx is an unstake that would take the second branch on l. */
  predicate SecondBranch(p: Primitives, l: Ledger, tx: Transaction) {
    tx.kind.Unstake? && EarlyError(p, tx).None? &&
    FeeFromStake(Get(l, tx.sender), p.decodeAmount(tx.data).value.amount, FeeOr(tx.fee, FEE_UNSTAKE))
  }

  /** What a transaction adds to the total: under the rule as written, the fee of the second branch. */
  function TxDrift(rule: Rule, p: Primitives, l: Ledger, tx: Transaction): nat {
    if rule.AsWritten? && SecondBranch(p, l, tx) then FeeOr(tx.fee, FEE_UNSTAKE) else 0
  }

  function TxsDrift(rule: Rule, p: Primitives, l: Ledger, txs: seq<Transaction>, height: u64): nat {
    if txs == [] then 0 else
    TxsDrift(rule, p, l, txs[..|txs| - 1], height)
      + TxDrift(rule, p, TxsUnder(rule, p, l, txs[..|txs| - 1], height).ledger, txs[|txs| - 1])
  }

  /** What leaves the sender for the receiver. */
  function Outflow(p: Primitives, tx: Transaction): u64 {
    if tx.kind.Transfer? && EarlyError(p, tx).None? then p.decodeTransfer(tx.data).value.amount else 0
  }

  lemma StepWorth(rule: Rule, p: Primitives, l: Ledger, tx: Transaction, height: u64)
    requires UsesNonce(tx.kind) && EarlyError(p, tx).None? && Worth(Get(l, tx.sender)) < TWO64
    requires StepUnder(rule, p, Get(l, tx.sender), tx, height).Charge?
    ensures var s := StepUnder(rule, p, Get(l, tx.sender), tx, height);
      Worth(s.account) + s.fee + Outflow(p, tx) == Worth(Get(l, tx.sender)) + TxDrift(rule, p, l, tx)
  {
  }

  lemma SenderTxTotal(rule: Rule, p: Primitives, l: Ledger, tx: Transaction, height: u64)
    requires UsesNonce(tx.kind) && Total(l) + TxDrift(rule, p, l, tx) < TWO64
    requires SenderTxUnder(rule, p, l, tx, height).err.None?
    ensures Total(SenderTxUnder(rule, p, l, tx, height).ledger) == Total(l) + TxDrift(rule, p, l, tx)
  {
    var step := StepUnder(rule, p, Get(l, tx.sender), tx, height);
    WorthAtMostTotal(l, tx.sender);
    StepWorth(rule, p, l, tx, height);
    SettleTotal(l, tx, step);
    var s := Settle(l, tx, step).ledger;
    if tx.kind.Transfer? {
      CreditTotal(s, p.decodeTransfer(tx.data).value.to, Outflow(p, tx));
    } else {
      assert Total(After(p, s, tx)) == Total(s);
    }
  }

  lemma TxTotal(rule: Rule, p: Primitives, l: Ledger, tx: Transaction, height: u64)
    requires Total(l) + TxDrift(rule, p, l, tx) < TWO64
    requires TxUnder(rule, p, l, tx, height).err.None?
    ensures Total(TxUnder(rule, p, l, tx, height).ledger) == Total(l) + TxDrift(rule, p, l, tx)
  {
    if UsesNonce(tx.kind) {
      SenderTxTotal(rule, p, l, tx, height);
    } else if tx.kind.Coinbase? {
      var want := CoinbaseDue(l, height);
      assert Total(l.(pool := l.pool - want)) == Total(l) - want;
      CreditTotal(l.(pool := l.pool - want), tx.sender, want);
    }
  }

  lemma {:induction false} TxsTotal(rule: Rule, p: Primitives, l: Ledger, txs: seq<Transaction>, height: u64)
    requires Total(l) + TxsDrift(rule, p, l, txs, height) < TWO64
    requires TxsUnder(rule, p, l, txs, height).err.None?
    ensures Total(TxsUnder(rule, p, l, txs, height).ledger) == Total(l) + TxsDrift(rule, p, l, txs, height)
  {
    if txs != [] {
      TxsTotal(rule, p, l, txs[..|txs| - 1], height);
      TxTotal(rule, p, TxsUnder(rule, p, l, txs[..|txs| - 1], height).ledger, txs[|txs| - 1], height);
    }
  }

  function BlockDrift(rule: Rule, p: Primitives, l: Ledger, b: Block): nat {
    TxsDrift(rule, p, l.(pending := 0), b.txs, b.header.height)
  }

  /** Fees nobody is paid: those of a block whose proposer is "network-genesis" or empty. */
  function BlockForfeit(rule: Rule, p: Primitives, l: Ledger, b: Block): nat {
    if PaysFees(b.header) then 0 else TxsUnder(rule, p, l.(pending := 0), b.txs, b.header.height).ledger.pending
  }

  lemma BlockTotal(rule: Rule, p: Primitives, l: Ledger, b: Block)
    requires l.pending == 0 && Total(l) + BlockDrift(rule, p, l, b) < TWO64
    requires BlockUnder(rule, p, l, b).err.None?
    ensures Total(BlockUnder(rule, p, l, b).ledger) + BlockForfeit(rule, p, l, b)
         == Total(l) + BlockDrift(rule, p, l, b)
    ensures BlockUnder(rule, p, l, b).ledger.pending == 0
  {
    assert l.(pending := 0) == l;
    TxsTotal(rule, p, l, b.txs, b.header.height);
    var r := TxsUnder(rule, p, l, b.txs, b.header.height).ledger;
    var cleared := r.(pending := 0);
    if PaysFees(b.header) && r.pending > 0 {
      CreditTotal(cleared, FeeTaker(b.header), r.pending);
      assert PayFees(r, b.header).accounts == Credit(cleared, FeeTaker(b.header), r.pending).accounts;
    }
  }

  function Drift(rule: Rule, p: Primitives, blocks: seq<Block>): nat {
    if blocks == [] then 0 else
    Drift(rule, p, blocks[..|blocks| - 1])
      + BlockDrift(rule, p, ReplayUnder(rule, p, blocks[..|blocks| - 1]), blocks[|blocks| - 1])
  }

  function Forfeit(rule: Rule, p: Primitives, blocks: seq<Block>): nat {
    if blocks == [] then 0 else
    Forfeit(rule, p, blocks[..|blocks| - 1])
      + BlockForfeit(rule, p, ReplayUnder(rule, p, blocks[..|blocks| - 1]), blocks[|blocks| - 1])
  }

  /** The supply law under either rule: pool, accounts and forfeited fees together are the original
      pool plus the drift; as long as that sum fits 64 bits, no addition has wrapped around. */
  lemma {:induction false} SupplyLawUnder(rule: Rule, p: Primitives, blocks: seq<Block>)
    requires AllApply(rule, p, blocks)
    requires MINER_REWARD_POOL + Drift(rule, p, blocks) < TWO64
    ensures Total(ReplayUnder(rule, p, blocks)) + Forfeit(rule, p, blocks) == MINER_REWARD_POOL + Drift(rule, p, blocks)
    ensures ReplayUnder(rule, p, blocks).pending == 0
  {
    if blocks != [] {
      SupplyLawUnder(rule, p, blocks[..|blocks| - 1]);
      BlockTotal(rule, p, ReplayUnder(rule, p, blocks[..|blocks| - 1]), blocks[|blocks| - 1]);
    }
  }

  lemma {:induction false} CommentedRuleHasNoDrift(p: Primitives, l: Ledger, txs: seq<Transaction>, height: u64)
    ensures TxsDrift(AsCommented, p, l, txs, height) == 0
  {
    if txs != [] {
      CommentedRuleHasNoDrift(p, l, txs[..|txs| - 1], height);
    }
  }

  lemma {:induction false} CommentedChainHasNoDrift(p: Primitives, blocks: seq<Block>)
    ensures Drift(AsCommented, p, blocks) == 0
  {
    if blocks != [] {
      var l, b := ReplayUnder(AsCommented, p, blocks[..|blocks| - 1]), blocks[|blocks| - 1];
      CommentedChainHasNoDrift(p, blocks[..|blocks| - 1]);
      CommentedRuleHasNoDrift(p, l.(pending := 0), b.txs, b.header.height);
    }
  }

  /** Under the rule of the comment nothing is ever created, on any chain. */
  lemma CommentedRuleConserves(p: Primitives, blocks: seq<Block>)
    requires AllApply(AsCommented, p, blocks)
    ensures Total(ReplayUnder(AsCommented, p, blocks)) + Forfeit(AsCommented, p, blocks) == MINER_REWARD_POOL
  {
    CommentedChainHasNoDrift(p, blocks);
    SupplyLawUnder(AsCommented, p, blocks);
  }

  /** The supply law for the code as written. */
  lemma SupplyLaw(p: Primitives, blocks: seq<Block>)
    requires Applies(p, blocks)
    requires MINER_REWARD_POOL + Drift(AsWritten, p, blocks) < TWO64
    ensures var l := Replay(p, blocks);
      l.pool + Wealth(l.accounts) + Forfeit(AsWritten, p, blocks) == MINER_REWARD_POOL + Drift(AsWritten, p, blocks)
  {
    WrittenIsReplay(p, blocks);
    SupplyLawUnder(AsWritten, p, blocks);
  }

  // ---- When the supply is constant ----------------------------------------------------------

  /** None of the transactions takes the second branch on the ledger it finds. */
  predicate TxsAvoid(p: Primitives, l: Ledger, txs: seq<Transaction>, height: u64) {
    txs == [] ||
    (TxsAvoid(p, l, txs[..|txs| - 1], height) &&
     !SecondBranch(p, ApplyTxs(p, l, txs[..|txs| - 1], height).ledger, txs[|txs| - 1]))
  }

  /** No transaction on the chain takes the second branch. */
  predicate ChainAvoids(p: Primitives, blocks: seq<Block>) {
    blocks == [] ||
    (ChainAvoids(p, blocks[..|blocks| - 1]) &&
     TxsAvoid(p, Replay(p, blocks[..|blocks| - 1]).(pending := 0),
              blocks[|blocks| - 1].txs, blocks[|blocks| - 1].header.height))
  }

  lemma {:induction false} TxsDriftZeroIff(p: Primitives, l: Ledger, txs: seq<Transaction>, height: u64)
    ensures TxsDrift(AsWritten, p, l, txs, height) == 0 <==> TxsAvoid(p, l, txs, height)
  {
    if txs != [] {
      TxsDriftZeroIff(p, l, txs[..|txs| - 1], height);
      WrittenTxs(p, l, txs[..|txs| - 1], height);
    }
  }

  lemma {:induction false} DriftZeroIff(p: Primitives, blocks: seq<Block>)
    ensures Drift(AsWritten, p, blocks) == 0 <==> ChainAvoids(p, blocks)
  {
    if blocks != [] {
      var l, b := Replay(p, blocks[..|blocks| - 1]), blocks[|blocks| - 1];
      DriftZeroIff(p, blocks[..|blocks| - 1]);
      WrittenIsReplay(p, blocks[..|blocks| - 1]);
      TxsDriftZeroIff(p, l.(pending := 0), b.txs, b.header.height);
    }
  }

  /** As long as no block forfeits its fees, the supply is what it was at genesis if and only if no
      unstake on the chain took the second branch. */
  lemma SupplyConstantIff(p: Primitives, blocks: seq<Block>)
    requires Applies(p, blocks) && Forfeit(AsWritten, p, blocks) == 0
    requires MINER_REWARD_POOL + Drift(AsWritten, p, blocks) < TWO64
    ensures Replay(p, blocks).pool + Wealth(Replay(p, blocks).accounts) == MINER_REWARD_POOL
       <==> ChainAvoids(p, blocks)
  {
    SupplyLaw(p, blocks);
    DriftZeroIff(p, blocks);
  }
}
