/** The ledger as a value: what every transaction and every block does to it (internal/chain/state.go).
    The class `State` works in place and is proved against these functions. */
module Ledgers {
  import opened Base
  import opened Types

  datatype Ledger = Ledger(
    accounts: map<Bytes, Account>, pool: u64, height: u64, tip: Bytes, pending: u64, burns: set<Bytes>)

  const NEW_LEDGER: Ledger := Ledger(map[], MINER_REWARD_POOL, 0, [], 0, {})

  /** The ledger after a step, also when the step failed half-way. */
  datatype Applied<+E> = Applied(ledger: Ledger, err: Option<E>)

  function Get(l: Ledger, id: Bytes): Account {
    if id in l.accounts then l.accounts[id] else Blank(id)
  }

  function Ensure(l: Ledger, id: Bytes): Ledger {
    if id in l.accounts then l else l.(accounts := l.accounts[id := Blank(id)])
  }

  function Credit(l: Ledger, id: Bytes, amount: u64): Ledger {
    var l0 := Ensure(l, id);
    var a := l0.accounts[id];
    l0.(accounts := l0.accounts[id := a.(balance := Add64(a.balance, amount))])
  }

  // ---- Transactions that charge their sender ------------------------------------------------

  predicate UsesNonce(kind: TxKind) {
    kind.Transfer? || kind.Burn? || kind.Register? || kind.Stake? || kind.Unstake? || kind.Activate?
  }

  function FeeOr(fee: u64, default: u64): u64 { if fee == 0 then default else fee }

  function Next(nonce: u64): u64 { Add64(nonce, 1) }

  /** What a transaction asks of its sender's account. */
  datatype Step = Refuse(err: TxError) | Charge(account: Account, fee: u64)

  /** Looks the sender up (creating it), checks the nonce and carries the step out. */
  function Settle(l: Ledger, tx: Transaction, step: Step): Applied<TxError> {
    var l0 := Ensure(l, tx.sender);
    if tx.nonce != l0.accounts[tx.sender].nonce then Applied(l0, Some(BadNonce)) else
    match step
    case Refuse(e) => Applied(l0, Some(e))
    case Charge(a, fee) =>
      Applied(l0.(accounts := l0.accounts[tx.sender := a], pending := Add64(l0.pending, fee)), None)
  }

  /** The balance pays amount and fee, provided the amount is within the supply and the sum does
      not overflow. */
  function Spend(a: Account, amount: u64, fee: u64): Step {
    if amount > GENESIS_SUPPLY then Refuse(AmountTooLarge)
    else if amount + fee >= TWO64 then Refuse(AmountOverflow)
    else if a.balance < amount + fee then Refuse(Insufficient)
    else Charge(a.(balance := a.balance - (amount + fee), nonce := Next(a.nonce)), fee)
  }

  function TransferTx(p: Primitives, l: Ledger, tx: Transaction): Applied<TxError> {
    match p.decodeTransfer(tx.data)
    case None => Applied(l, Some(Malformed))
    case Some(d) =>
      var s := Settle(l, tx, Spend(Get(l, tx.sender), d.amount, FeeOr(tx.fee, FEE_TRANSFER)));
      if s.err.Some? then s else Applied(Credit(s.ledger, d.to, d.amount), None)
  }

  function BurnAmount(d: BurnData): u64 {
    if d.amount == 0 then BurnAmountForMsgType(d.msgType) else d.amount
  }

  function BurnStep(a: Account, amount: u64, fee: u64): Step {
    match Spend(a, amount, fee)
    case Refuse(e) => Refuse(e)
    case Charge(b, f) => Charge(b.(burned := Add64(b.burned, amount)), f)
  }

  function BurnTx(p: Primitives, l: Ledger, tx: Transaction): Applied<TxError> {
    match p.decodeBurn(tx.data)
    case None => Applied(l, Some(Malformed))
    case Some(d) =>
      if d.refHash == [] then Applied(l, Some(MissingRefHash)) else
      var s := Settle(l, tx, BurnStep(Get(l, tx.sender), BurnAmount(d), FeeOr(tx.fee, FEE_BURN_BASE)));
      if s.err.Some? then s else Applied(s.ledger.(burns := s.ledger.burns + {TxID(p, tx)}), None)
  }

  /** Free while the balance is short, the block is an early one and the fee is the standard one. */
  function RegisterStep(a: Account, fee: u64, d: RegisterData, height: u64): Step {
    if a.balance < fee && (height > BOOTSTRAP_SLOTS || fee != FEE_REGISTER) then Refuse(Insufficient)
    else
      var paid := if a.balance < fee then 0 else fee;
      Charge(a.(balance := a.balance - paid, nonce := Next(a.nonce),
                ed25519Pub := d.ed25519Pub, x25519Pub := d.x25519Pub,
                regHeight := if a.regHeight == 0 then height else a.regHeight), paid)
  }

  function RegisterTx(p: Primitives, l: Ledger, tx: Transaction, height: u64): Applied<TxError> {
    match p.decodeRegister(tx.data)
    case None => Applied(l, Some(Malformed))
    case Some(d) => Settle(l, tx, RegisterStep(Get(l, tx.sender), FeeOr(tx.fee, FEE_REGISTER), d, height))
  }

  function StakeStep(a: Account, amount: u64, fee: u64): Step {
    match Spend(a, amount, fee)
    case Refuse(e) => Refuse(e)
    case Charge(b, f) => Charge(b.(stake := Add64(b.stake, amount)), f)
  }

  function StakeTx(p: Primitives, l: Ledger, tx: Transaction): Applied<TxError> {
    match p.decodeAmount(tx.data)
    case None => Applied(l, Some(Malformed))
    case Some(d) =>
      if d.amount == 0 then Applied(l, Some(AmountRequired))
      else Settle(l, tx, StakeStep(Get(l, tx.sender), d.amount, FeeOr(tx.fee, FEE_STAKE)))
  }

  /** Takes `out` off the stake and adds it to the balance. */
  function Unlock(a: Account, out: u64): Account
    requires out <= a.stake
  {
    a.(stake := a.stake - out, balance := Add64(a.balance, out), nonce := Next(a.nonce),
       active := a.active && a.stake != out)
  }

  /** state.go:318-339 as written: in the second branch the fee comes off the amount before the
      amount leaves the stake, so nothing pays for the fee. */
  function UnstakeStep(a: Account, amount: u64, fee: u64): Step {
    if a.stake < amount then Refuse(Insufficient)
    else if a.balance >= fee then Charge(Unlock(a.(balance := a.balance - fee), amount), fee)
    else if amount > fee then Charge(Unlock(a, amount - fee), fee)
    else Refuse(Insufficient)
  }

  function UnstakeTx(p: Primitives, l: Ledger, tx: Transaction): Applied<TxError> {
    match p.decodeAmount(tx.data)
    case None => Applied(l, Some(Malformed))
    case Some(d) =>
      if d.amount == 0 then Applied(l, Some(AmountRequired))
      else Settle(l, tx, UnstakeStep(Get(l, tx.sender), d.amount, FeeOr(tx.fee, FEE_UNSTAKE)))
  }

  function ActivateStep(a: Account, pub: Bytes, height: u64): Step {
    if height > BOOTSTRAP_SLOTS && a.stake < MIN_STAKE then Refuse(BelowMinStake)
    else Charge(a.(ed25519Pub := if pub != [] then pub else a.ed25519Pub, active := true, nonce := Next(a.nonce)), 0)
  }

  function ActivateTx(p: Primitives, l: Ledger, tx: Transaction, height: u64): Applied<TxError> {
    match p.decodeActivate(tx.data)
    case None => Applied(l, Some(Malformed))
    case Some(d) => Settle(l, tx, ActivateStep(Get(l, tx.sender), d.ed25519Pub, height))
  }

  // ---- Transactions without a charged sender ------------------------------------------------

  function CoinbaseDue(l: Ledger, height: u64): u64 { Min(BlockReward(height), l.pool) }

  function CoinbaseTx(p: Primitives, l: Ledger, tx: Transaction, height: u64): Applied<TxError> {
    match p.decodeCoinbase(tx.data)
    case None => Applied(l, Some(Malformed))
    case Some(d) =>
      var want := CoinbaseDue(l, height);
      if d.amount != want then Applied(l, Some(CoinbaseAmount))
      else if d.height != 0 && d.height != height then Applied(l, Some(CoinbaseHeight))
      else if want == 0 then Applied(l, None)
      else Applied(Credit(l.(pool := l.pool - want), tx.sender, want), None)
  }

  function ParamsTx(p: Primitives, l: Ledger, tx: Transaction, height: u64): Applied<TxError> {
    if height != 0 then Applied(l, Some(ParamsHeight)) else
    match p.decodeParams(tx.data)
    case None => Applied(l, Some(Malformed))
    case Some(d) =>
      if d.chainId != CHAIN_ID || d.name != NETWORK_NAME then Applied(l, Some(ParamsMismatch))
      else if d.freeClaim then Applied(l, Some(FreeClaimSet))
      else Applied(l, None)
  }

  /** applyTxLocked: dispatch on the kind. */
  function DispatchTx(p: Primitives, l: Ledger, tx: Transaction, height: u64): Applied<TxError> {
    match tx.kind
    case InitAlert => Applied(l, None)
    case NetworkParams => ParamsTx(p, l, tx, height)
    case Coinbase => CoinbaseTx(p, l, tx, height)
    case GenesisClaim => Applied(l, Some(ClaimDisabled))
    case OtherKind(_) => Applied(l, Some(UnknownTx))
    case Transfer => TransferTx(p, l, tx)
    case Burn => BurnTx(p, l, tx)
    case Register => RegisterTx(p, l, tx, height)
    case Stake => StakeTx(p, l, tx)
    case Unstake => UnstakeTx(p, l, tx)
    case Activate => ActivateTx(p, l, tx, height)
  }

  /** ApplyTx. */
  function ApplyTx(p: Primitives, l: Ledger, tx: Transaction, height: u64): Applied<TxError> {
    if !TxVerifies(p, tx) then Applied(l, Some(InvalidSig)) else DispatchTx(p, l, tx, height)
  }

  // ---- Blocks -------------------------------------------------------------------------------

  /** The transactions one after the other; the first failure stops the run. */
  function ApplyTxs(p: Primitives, l: Ledger, txs: seq<Transaction>, height: u64): Applied<BlockError> {
    if txs == [] then Applied(l, None) else
    var r := ApplyTxs(p, l, txs[..|txs| - 1], height);
    if r.err.Some? then r else
    var s := ApplyTx(p, r.ledger, txs[|txs| - 1], height);
    Applied(s.ledger, if s.err.Some? then Some(TxFailed(|txs| - 1, s.err.value)) else None)
  }

  /** Who is paid the fees of a block. */
  function FeeTaker(h: Header): Bytes { if h.proposer == [] then h.minerID else h.proposer }

  predicate PaysFees(h: Header) { FeeTaker(h) != [] && FeeTaker(h) != NETWORK_GENESIS_ID }

  function PayFees(l: Ledger, h: Header): Ledger {
    if l.pending > 0 && PaysFees(h) then Credit(l, FeeTaker(h), l.pending) else l
  }

  function ApplyBlock(p: Primitives, l: Ledger, b: Block): Applied<BlockError> {
    var r := ApplyTxs(p, l.(pending := 0), b.txs, b.header.height);
    if r.err.Some? then r else
    Applied(PayFees(r.ledger, b.header).(height := b.header.height, tip := HashHex(p, b.header), pending := 0), None)
  }

  /** The ledger a sequence of blocks leads to. */
  function Replay(p: Primitives, blocks: seq<Block>): Ledger {
    if blocks == [] then NEW_LEDGER
    else ApplyBlock(p, Replay(p, blocks[..|blocks| - 1]), blocks[|blocks| - 1]).ledger
  }

  /** Every block applies, without an error, on the ledger its predecessors lead to. */
  predicate Applies(p: Primitives, blocks: seq<Block>) {
    blocks == [] ||
    (Applies(p, blocks[..|blocks| - 1]) &&
     ApplyBlock(p, Replay(p, blocks[..|blocks| - 1]), blocks[|blocks| - 1]).err.None?)
  }

  // ---- The common shape of the six sender transactions ---------------------------------------

  /** Errors found before the sender's account is looked up. */
  function EarlyError(p: Primitives, tx: Transaction): Option<TxError> {
    match tx.kind
    case Transfer => if p.decodeTransfer(tx.data).None? then Some(Malformed) else None
    case Burn =>
      if p.decodeBurn(tx.data).None? then Some(Malformed)
      else if p.decodeBurn(tx.data).value.refHash == [] then Some(MissingRefHash) else None
    case Register => if p.decodeRegister(tx.data).None? then Some(Malformed) else None
    case Activate => if p.decodeActivate(tx.data).None? then Some(Malformed) else None
    case _ =>
      if p.decodeAmount(tx.data).None? then Some(Malformed)
      else if p.decodeAmount(tx.data).value.amount == 0 then Some(AmountRequired) else None
  }

  function StepOf(p: Primitives, a: Account, tx: Transaction, height: u64): Step
    requires EarlyError(p, tx).None?
  {
    match tx.kind
    case Transfer => Spend(a, p.decodeTransfer(tx.data).value.amount, FeeOr(tx.fee, FEE_TRANSFER))
    case Burn => BurnStep(a, BurnAmount(p.decodeBurn(tx.data).value), FeeOr(tx.fee, FEE_BURN_BASE))
    case Register => RegisterStep(a, FeeOr(tx.fee, FEE_REGISTER), p.decodeRegister(tx.data).value, height)
    case Activate => ActivateStep(a, p.decodeActivate(tx.data).value.ed25519Pub, height)
    case Stake => StakeStep(a, p.decodeAmount(tx.data).value.amount, FeeOr(tx.fee, FEE_STAKE))
    case _ => UnstakeStep(a, p.decodeAmount(tx.data).value.amount, FeeOr(tx.fee, FEE_UNSTAKE))
  }

  /** What a transaction does once its sender is charged. */
  function After(p: Primitives, l: Ledger, tx: Transaction): Ledger
    requires EarlyError(p, tx).None?
  {
    match tx.kind
    case Transfer => Credit(l, p.decodeTransfer(tx.data).value.to, p.decodeTransfer(tx.data).value.amount)
    case Burn => l.(burns := l.burns + {TxID(p, tx)})
    case _ => l
  }

  function SenderTx(p: Primitives, l: Ledger, tx: Transaction, height: u64): Applied<TxError> {
    if EarlyError(p, tx).Some? then Applied(l, EarlyError(p, tx)) else
    var s := Settle(l, tx, StepOf(p, Get(l, tx.sender), tx, height));
    if s.err.Some? then s else Applied(After(p, s.ledger, tx), None)
  }

  lemma SenderAnatomy(p: Primitives, l: Ledger, tx: Transaction, height: u64)
    requires UsesNonce(tx.kind)
    ensures DispatchTx(p, l, tx, height) == SenderTx(p, l, tx, height)
  {
  }

  /** A charged account keeps its id and moves to the next nonce. */
  lemma StepAdvances(p: Primitives, a: Account, tx: Transaction, height: u64)
    requires UsesNonce(tx.kind) && EarlyError(p, tx).None?
    requires StepOf(p, a, tx, height).Charge?
    ensures StepOf(p, a, tx, height).account.nodeID == a.nodeID
    ensures StepOf(p, a, tx, height).account.nonce == Next(a.nonce)
  {
  }

  // ---- Accounts are stored under their own id ------------------------------------------------

  ghost predicate KeysAgree(l: Ledger) {
    forall k :: k in l.accounts ==> l.accounts[k].nodeID == k
  }

  lemma CreditKeepsKeys(l: Ledger, id: Bytes, amount: u64)
    requires KeysAgree(l)
    ensures KeysAgree(Credit(l, id, amount))
  {
  }

  lemma SenderTxKeepsKeys(p: Primitives, l: Ledger, tx: Transaction, height: u64)
    requires KeysAgree(l) && UsesNonce(tx.kind)
    ensures KeysAgree(SenderTx(p, l, tx, height).ledger)
  {
    if EarlyError(p, tx).None? {
      var step := StepOf(p, Get(l, tx.sender), tx, height);
      if step.Charge? {
        StepAdvances(p, Get(l, tx.sender), tx, height);
      }
      var s := Settle(l, tx, step);
      assert KeysAgree(s.ledger);
      if tx.kind.Transfer? {
        var d := p.decodeTransfer(tx.data).value;
        CreditKeepsKeys(s.ledger, d.to, d.amount);
      }
    }
  }

  lemma ApplyTxKeepsKeys(p: Primitives, l: Ledger, tx: Transaction, height: u64)
    requires KeysAgree(l)
    ensures KeysAgree(ApplyTx(p, l, tx, height).ledger)
  {
    if UsesNonce(tx.kind) {
      SenderAnatomy(p, l, tx, height);
      SenderTxKeepsKeys(p, l, tx, height);
    } else if tx.kind.Coinbase? {
      var want := CoinbaseDue(l, height);
      CreditKeepsKeys(l.(pool := l.pool - want), tx.sender, want);
    }
  }

  lemma {:induction false} ApplyTxsKeepsKeys(p: Primitives, l: Ledger, txs: seq<Transaction>, height: u64)
    requires KeysAgree(l)
    ensures KeysAgree(ApplyTxs(p, l, txs, height).ledger)
  {
    if txs != [] {
      ApplyTxsKeepsKeys(p, l, txs[..|txs| - 1], height);
      ApplyTxKeepsKeys(p, ApplyTxs(p, l, txs[..|txs| - 1], height).ledger, txs[|txs| - 1], height);
    }
  }

  lemma {:induction false} ReplayKeepsKeys(p: Primitives, blocks: seq<Block>)
    ensures KeysAgree(Replay(p, blocks))
  {
    if blocks != [] {
      var l := Replay(p, blocks[..|blocks| - 1]);
      var b := blocks[|blocks| - 1];
      ReplayKeepsKeys(p, blocks[..|blocks| - 1]);
      ApplyTxsKeepsKeys(p, l.(pending := 0), b.txs, b.header.height);
      var r := ApplyTxs(p, l.(pending := 0), b.txs, b.header.height).ledger;
      CreditKeepsKeys(r, FeeTaker(b.header), r.pending);
    }
  }
}
