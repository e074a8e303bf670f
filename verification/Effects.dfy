/** What each kind of transaction does to balances, stakes and keys, and exactly when it is let through
    (internal/chain/state.go:146-391), stated without the order of the code's checks and updates. */
module Effects {
  import opened Base
  import opened Types
  import opened Ledgers
  import opened Stutter

  /** The transaction is signed by its sender and carries the nonce the ledger expects. */
  ghost predicate Ready(p: Primitives, l: Ledger, tx: Transaction) {
    SignedBySender(p, tx) && tx.nonce == Get(l, tx.sender).nonce
  }

  predicate Succeeds(p: Primitives, l: Ledger, tx: Transaction, height: u64) {
    ApplyTx(p, l, tx, height).err.None?
  }

  /** The account of `id` after the transaction. */
  function Later(p: Primitives, l: Ledger, tx: Transaction, height: u64, id: Bytes): Account {
    Get(ApplyTx(p, l, tx, height).ledger, id)
  }

  // ---- Who is touched -----------------------------------------------------------------------

  /** Whoever neither sends a transaction nor receives its transfer keeps their account to the last
      field, and no transaction moves height or tip. */
  lemma Bystanders(p: Primitives, l: Ledger, tx: Transaction, height: u64, id: Bytes)
    requires id != tx.sender
    requires tx.kind.Transfer? && p.decodeTransfer(tx.data).Some? ==> id != p.decodeTransfer(tx.data).value.to
    ensures Later(p, l, tx, height, id) == Get(l, id)
    ensures var r := ApplyTx(p, l, tx, height).ledger;
      r.height == l.height && r.tip == l.tip && (!tx.kind.Burn? ==> r.burns == l.burns)
  {
    hide TxVerifies, TxID;
    if UsesNonce(tx.kind) {
      SenderAnatomy(p, l, tx, height);
      SenderTxSpares(p, l, tx, height, id);
      hide DispatchTx, SenderTx, Get;
    }
  }

  lemma SenderTxSpares(p: Primitives, l: Ledger, tx: Transaction, height: u64, id: Bytes)
    requires UsesNonce(tx.kind) && id != tx.sender
    requires tx.kind.Transfer? && p.decodeTransfer(tx.data).Some? ==> id != p.decodeTransfer(tx.data).value.to
    ensures var r := SenderTx(p, l, tx, height).ledger;
      Get(r, id) == Get(l, id) && r.height == l.height && r.tip == l.tip && (!tx.kind.Burn? ==> r.burns == l.burns)
  {
    hide TxID, StepOf;
  }

  /** Payment of a block's fees: the whole of them to the proposer (or, without one, the miner), and
      nothing to anybody else; nothing to anybody if that is the reserved id or nobody at all. */
  lemma FeesReachProposer(p: Primitives, l: Ledger, b: Block, id: Bytes)
    requires ApplyBlock(p, l, b).err.None?
    ensures var r := ApplyTxs(p, l.(pending := 0), b.txs, b.header.height).ledger;
      var taker := if b.header.proposer == [] then b.header.minerID else b.header.proposer;
      var paid := taker != [] && taker != Ascii("network-genesis") && id == taker;
      Get(ApplyBlock(p, l, b).ledger, id) ==
        (if paid then Get(r, id).(balance := Add64(Get(r, id).balance, r.pending)) else Get(r, id))
  {
    hide ApplyTxs, HashHex;
  }

  // ---- Transfers and burns ------------------------------------------------------------------

  /** The ledger after a charge of the sender: a new account, and the fee collected. */
  function Charged(l: Ledger, tx: Transaction, account: Account, fee: u64): Ledger {
    l.(accounts := l.accounts[tx.sender := account], pending := Add64(l.pending, fee))
  }

  lemma TransferCondition(p: Primitives, l: Ledger, tx: Transaction)
    requires p.decodeTransfer(tx.data).Some?
    ensures var d, fee := p.decodeTransfer(tx.data).value, if tx.fee == 0 then FEE_TRANSFER else tx.fee;
      var a := Get(l, tx.sender);
      TransferTx(p, l, tx).err.None? <==>
        tx.nonce == a.nonce && d.amount <= GENESIS_SUPPLY && d.amount + fee <= a.balance
  {
    hide Credit;
  }

  lemma SpenderCharged(l: Ledger, tx: Transaction, amount: u64, fee: u64)
    requires Settle(l, tx, Spend(Get(l, tx.sender), amount, fee)).err.None?
    ensures var a := Get(l, tx.sender);
      && amount + fee <= a.balance
      && Settle(l, tx, Spend(a, amount, fee)).ledger
           == Charged(l, tx, a.(balance := a.balance - amount - fee, nonce := Next(a.nonce)), fee)
  {
  }

  lemma CreditUpdates(l: Ledger, id: Bytes, amount: u64)
    ensures var a := Get(l, id);
      Credit(l, id, amount) == l.(accounts := l.accounts[id := a.(balance := Add64(a.balance, amount))])
  {
  }

  lemma TransferMoves(p: Primitives, l: Ledger, tx: Transaction)
    requires p.decodeTransfer(tx.data).Some? && TransferTx(p, l, tx).err.None?
    ensures var d, fee := p.decodeTransfer(tx.data).value, if tx.fee == 0 then FEE_TRANSFER else tx.fee;
      var a, b, r := Get(l, tx.sender), Get(l, d.to), TransferTx(p, l, tx).ledger;
      && d.amount + fee <= a.balance
      && (d.to == tx.sender ==> r == Charged(l, tx, a.(balance := a.balance - fee, nonce := Next(a.nonce)), fee))
      && (d.to != tx.sender ==>
            var paid := Charged(l, tx, a.(balance := a.balance - d.amount - fee, nonce := Next(a.nonce)), fee);
            r == paid.(accounts := paid.accounts[d.to := b.(balance := Add64(b.balance, d.amount))]))
  {
    var d, fee := p.decodeTransfer(tx.data).value, FeeOr(tx.fee, FEE_TRANSFER);
    SpenderCharged(l, tx, d.amount, fee);
    CreditUpdates(Settle(l, tx, Spend(Get(l, tx.sender), d.amount, fee)).ledger, d.to, d.amount);
    hide Settle, Spend, Credit;
  }

  /** A transfer goes through exactly when the balance covers amount and fee and the amount is within
      the supply -- the overflow check never decides -- and then moves amount and fee, and nothing else. */
  lemma TransferEffect(p: Primitives, l: Ledger, tx: Transaction, height: u64)
    requires tx.kind.Transfer? && p.decodeTransfer(tx.data).Some?
    ensures var d, fee := p.decodeTransfer(tx.data).value, if tx.fee == 0 then FEE_TRANSFER else tx.fee;
      var a, b, r := Get(l, tx.sender), Get(l, d.to), ApplyTx(p, l, tx, height).ledger;
      && (Succeeds(p, l, tx, height) <==> Ready(p, l, tx) && d.amount <= GENESIS_SUPPLY && d.amount + fee <= a.balance)
      && (Succeeds(p, l, tx, height) && d.to == tx.sender ==>
            r == Charged(l, tx, a.(balance := a.balance - fee, nonce := Next(a.nonce)), fee))
      && (Succeeds(p, l, tx, height) && d.to != tx.sender ==>
            var paid := Charged(l, tx, a.(balance := a.balance - d.amount - fee, nonce := Next(a.nonce)), fee);
            r == paid.(accounts := paid.accounts[d.to := b.(balance := Add64(b.balance, d.amount))]))
  {
    hide TxVerifies, SignedBySender;
    VerifiesIff(p, tx);
    TransferCondition(p, l, tx);
    hide Spend, Add64;
    if TransferTx(p, l, tx).err.None? {
      TransferMoves(p, l, tx);
    }
    hide TransferTx, Get, Charged;
  }

  /** A burn with a reference goes through exactly when the balance covers the price and the fee; what
      it takes out of circulation is on record in the account and under the transaction's id. */
  lemma BurnEffect(p: Primitives, l: Ledger, tx: Transaction, height: u64)
    requires tx.kind.Burn? && p.decodeBurn(tx.data).Some?
    ensures var d, fee := p.decodeBurn(tx.data).value, if tx.fee == 0 then FEE_BURN_BASE else tx.fee;
      var price := if d.amount == 0 then BurnAmountForMsgType(d.msgType) else d.amount;
      var a, r := Get(l, tx.sender), ApplyTx(p, l, tx, height).ledger;
      && (Succeeds(p, l, tx, height) <==>
            Ready(p, l, tx) && d.refHash != [] && price <= GENESIS_SUPPLY && price + fee <= a.balance)
      && (Succeeds(p, l, tx, height) ==>
            r == Charged(l, tx, a.(balance := a.balance - price - fee, burned := Add64(a.burned, price),
                                   nonce := Next(a.nonce)), fee).(burns := l.burns + {TxID(p, tx)}))
  {
    hide TxVerifies, SignedBySender, TxID, BurnAmountForMsgType;
    VerifiesIff(p, tx);
  }

  // ---- Registration and activation ----------------------------------------------------------

  /** A registration goes through when the fee is paid, or is free in the early blocks at the standard
      fee; it sets both keys and keeps the height of the first one. */
  lemma RegisterEffect(p: Primitives, l: Ledger, tx: Transaction, height: u64)
    requires tx.kind.Register? && p.decodeRegister(tx.data).Some?
    ensures var d, fee := p.decodeRegister(tx.data).value, if tx.fee == 0 then FEE_REGISTER else tx.fee;
      var a, r := Get(l, tx.sender), ApplyTx(p, l, tx, height).ledger;
      && (Succeeds(p, l, tx, height) <==>
            Ready(p, l, tx) && (fee <= a.balance || (height <= BOOTSTRAP_SLOTS && fee == FEE_REGISTER)))
      && (Succeeds(p, l, tx, height) ==>
            var paid := if fee <= a.balance then fee else 0;
            r == Charged(l, tx, a.(
              balance := a.balance - paid, nonce := Next(a.nonce), ed25519Pub := d.ed25519Pub,
              x25519Pub := d.x25519Pub, regHeight := if a.regHeight != 0 then a.regHeight else height), paid))
  {
    hide TxVerifies, SignedBySender;
    VerifiesIff(p, tx);
  }

  /** An activation costs nothing, and after the bootstrap blocks needs the minimum stake; it writes a
      key if it brings one. */
  lemma ActivateEffect(p: Primitives, l: Ledger, tx: Transaction, height: u64)
    requires tx.kind.Activate? && p.decodeActivate(tx.data).Some?
    ensures var a, key := Get(l, tx.sender), p.decodeActivate(tx.data).value.ed25519Pub;
      && (Succeeds(p, l, tx, height) <==> Ready(p, l, tx) && (height <= BOOTSTRAP_SLOTS || MIN_STAKE <= a.stake))
      && (Succeeds(p, l, tx, height) ==>
            var joined := if key == [] then a else a.(ed25519Pub := key);
            ApplyTx(p, l, tx, height).ledger == Charged(l, tx, joined.(active := true, nonce := Next(a.nonce)), 0))
  {
    hide TxVerifies, SignedBySender;
    VerifiesIff(p, tx);
  }

  // ---- Stakes -------------------------------------------------------------------------------

  /** A stake moves its amount from the balance to the stake; the fee comes off the balance. */
  lemma StakeEffect(p: Primitives, l: Ledger, tx: Transaction, height: u64)
    requires tx.kind.Stake? && p.decodeAmount(tx.data).Some?
    ensures var n, fee := p.decodeAmount(tx.data).value.amount, if tx.fee == 0 then FEE_STAKE else tx.fee;
      var a, r := Get(l, tx.sender), ApplyTx(p, l, tx, height).ledger;
      && (Succeeds(p, l, tx, height) <==> Ready(p, l, tx) && 0 < n <= GENESIS_SUPPLY && n + fee <= a.balance)
      && (Succeeds(p, l, tx, height) ==>
            var locked := a.(balance := a.balance - n - fee, stake := Add64(a.stake, n), nonce := Next(a.nonce));
            r == Charged(l, tx, locked, fee))
  {
    hide TxVerifies, SignedBySender;
    VerifiesIff(p, tx);
  }

  /** An unstake goes through exactly when the stake covers the amount and either the balance or the
      amount covers the fee; it deactivates a validator exactly when nothing stays staked. */
  lemma UnstakeEffect(p: Primitives, l: Ledger, tx: Transaction, height: u64)
    requires tx.kind.Unstake? && p.decodeAmount(tx.data).Some?
    ensures var n, fee := p.decodeAmount(tx.data).value.amount, if tx.fee == 0 then FEE_UNSTAKE else tx.fee;
      var a, r := Get(l, tx.sender), ApplyTx(p, l, tx, height).ledger;
      && (Succeeds(p, l, tx, height) <==> Ready(p, l, tx) && 0 < n <= a.stake && (fee <= a.balance || fee < n))
      && (Succeeds(p, l, tx, height) ==>
            var left := a.stake - (if fee <= a.balance then n else n - fee);
            r == Charged(l, tx, a.(balance := (a.balance + n - fee) % TWO64, stake := left,
                                   active := a.active && left > 0, nonce := Next(a.nonce)), fee))
  {
    hide TxVerifies, SignedBySender;
    VerifiesIff(p, tx);
  }

  /** Staking and taking the stake back costs the two fees. The stake is what it was if the balance
      covered the second fee; otherwise that fee, though charged, stays staked. */
  lemma StakeThenUnstake(p: Primitives, l: Ledger, s: Transaction, u: Transaction, height: u64)
    requires s.kind.Stake? && u.kind.Unstake? && s.sender == u.sender
    requires p.decodeAmount(s.data).Some? && p.decodeAmount(u.data) == p.decodeAmount(s.data)
    requires Succeeds(p, l, s, height) && Succeeds(p, ApplyTx(p, l, s, height).ledger, u, height)
    requires Get(l, s.sender).stake + p.decodeAmount(s.data).value.amount < TWO64
    ensures var a, a' := Get(l, s.sender), Later(p, ApplyTx(p, l, s, height).ledger, u, height, s.sender);
      var fee := if u.fee == 0 then FEE_UNSTAKE else u.fee;
      && a'.balance == a.balance - (if s.fee == 0 then FEE_STAKE else s.fee) - fee
      && a'.stake == a.stake + (if fee <= Later(p, l, s, height, s.sender).balance then 0 else fee)
      && a'.burned == a.burned
  {
    StakeEffect(p, l, s, height);
    UnstakeEffect(p, ApplyTx(p, l, s, height).ledger, u, height);
    hide ApplyTx, Ready;
  }

  // ---- The other kinds ----------------------------------------------------------------------

  /** A coinbase goes through exactly when it asks for what the schedule and the pool allow, at no
      height or at this one; it needs neither signature nor nonce, and moves the reward out of the pool. */
  lemma CoinbaseEffect(p: Primitives, l: Ledger, tx: Transaction, height: u64)
    requires tx.kind.Coinbase? && p.decodeCoinbase(tx.data).Some?
    ensures var d, a := p.decodeCoinbase(tx.data).value, Get(l, tx.sender);
      var due := Min(BlockReward(height), l.pool);
      && (Succeeds(p, l, tx, height) <==> d.amount == due && (d.height == 0 || d.height == height))
      && (Succeeds(p, l, tx, height) ==>
            ApplyTx(p, l, tx, height).ledger == if due == 0 then l else
              l.(pool := l.pool - due, accounts := l.accounts[tx.sender := a.(balance := Add64(a.balance, due))]))
  {
    hide TxVerifies;
    assert TxVerifies(p, tx) by { CoinbaseUnsigned(p, tx); }
  }

  /** Alerts always go through; network parameters do in the genesis block only, if they are this
      network's and hand out nothing; a genesis claim or an unknown kind never does. None of them changes
      anything. */
  lemma IdleEffect(p: Primitives, l: Ledger, tx: Transaction, height: u64)
    requires !UsesNonce(tx.kind) && !tx.kind.Coinbase?
    ensures ApplyTx(p, l, tx, height).ledger == l
    ensures Succeeds(p, l, tx, height) <==>
      || tx.kind.InitAlert?
      || (tx.kind.NetworkParams? && height == 0
          && p.decodeParams(tx.data) == Some(ParamsData(Ascii("msp-mainnet-2"), Ascii("mainnet"), false)))
  {
  }

  // ---- Why a transaction is refused ---------------------------------------------------------

  /** The text of a sender transaction decodes. */
  predicate Decodes(p: Primitives, tx: Transaction) {
    match tx.kind
    case Transfer => p.decodeTransfer(tx.data).Some?
    case Burn => p.decodeBurn(tx.data).Some?
    case Register => p.decodeRegister(tx.data).Some?
    case Activate => p.decodeActivate(tx.data).Some?
    case _ => p.decodeAmount(tx.data).Some?
  }

  /** Signature, text and nonce are looked at in this order; a burn without a reference and a stake or
      unstake of nothing are noticed before the nonce. */
  lemma RefusedEarly(p: Primitives, l: Ledger, tx: Transaction, height: u64)
    requires UsesNonce(tx.kind)
    ensures var err, signed := ApplyTx(p, l, tx, height).err, SignedBySender(p, tx);
      && (err == Some(InvalidSig) <==> !signed)
      && (err == Some(Malformed) <==> signed && !Decodes(p, tx))
      && (err == Some(MissingRefHash) <==>
            signed && Decodes(p, tx) && tx.kind.Burn? && p.decodeBurn(tx.data).value.refHash == [])
      && (err == Some(AmountRequired) <==>
            signed && Decodes(p, tx) && (tx.kind.Stake? || tx.kind.Unstake?)
            && p.decodeAmount(tx.data).value.amount == 0)
      && (err == Some(BadNonce) <==>
            && signed && Decodes(p, tx) && tx.nonce != Get(l, tx.sender).nonce
            && err != Some(MissingRefHash) && err != Some(AmountRequired))
  {
    hide TxVerifies, SignedBySender, BurnAmountForMsgType, TxID;
    VerifiesIff(p, tx);
  }

  /** What a transfer, a burn or a stake takes off the balance, besides the fee. */
  function Taken(p: Primitives, tx: Transaction): u64
    requires Decodes(p, tx)
  {
    match tx.kind
    case Transfer => p.decodeTransfer(tx.data).value.amount
    case Burn =>
      var d := p.decodeBurn(tx.data).value;
      if d.amount == 0 then BurnAmountForMsgType(d.msgType) else d.amount
    case Stake => p.decodeAmount(tx.data).value.amount
    case _ => 0
  }

  /** A spender that gets that far is refused for an amount beyond the supply, then for a sum beyond 64
      bits, then for want of balance; an unstake or registration for want of what pays it; an activation
      for want of stake. */
  lemma RefusedLate(p: Primitives, l: Ledger, tx: Transaction, height: u64)
    requires UsesNonce(tx.kind) && Ready(p, l, tx) && Decodes(p, tx)
    ensures var err, a, fee := ApplyTx(p, l, tx, height).err, Get(l, tx.sender), if tx.fee == 0 then 1 else tx.fee;
      err.Some? && err != Some(MissingRefHash) && err != Some(AmountRequired) ==>
        err == Some(
          if tx.kind.Activate? then BelowMinStake
          else if Taken(p, tx) > GENESIS_SUPPLY then AmountTooLarge
          else if Taken(p, tx) > 0 && Taken(p, tx) + fee >= TWO64 then AmountOverflow
          else Insufficient)
  {
    hide TxVerifies, SignedBySender, BurnAmountForMsgType, TxID;
    VerifiesIff(p, tx);
  }

  lemma CoinbaseUnsigned(p: Primitives, tx: Transaction)
    requires tx.kind.Coinbase?
    ensures TxVerifies(p, tx)
  {
  }

  // ---- Order does not matter between strangers ----------------------------------------------

  /** The sender of a transaction, and the receiver of its transfer. */
  predicate IsParty(p: Primitives, tx: Transaction, id: Bytes) {
    id == tx.sender ||
    (tx.kind.Transfer? && p.decodeTransfer(tx.data).Some? && id == p.decodeTransfer(tx.data).value.to)
  }

  /** The fee a transaction adds to those collected, and the burn it puts on record. */
  function Paid(p: Primitives, l: Ledger, tx: Transaction, height: u64): u64
    requires UsesNonce(tx.kind)
  {
    if !Succeeds(p, l, tx, height) || EarlyError(p, tx).Some? then 0 else
    match StepOf(p, Get(l, tx.sender), tx, height)
    case Refuse(_) => 0
    case Charge(_, fee) => fee
  }

  function Recorded(p: Primitives, l: Ledger, tx: Transaction, height: u64): set<Bytes> {
    if tx.kind.Burn? && Succeeds(p, l, tx, height) then {TxID(p, tx)} else {}
  }

  lemma SettleKeeps(l: Ledger, tx: Transaction, step: Step)
    ensures var s := Settle(l, tx, step);
      && s.ledger.pool == l.pool && s.ledger.height == l.height && s.ledger.tip == l.tip && s.ledger.burns == l.burns
      && (s.err.Some? ==> s.ledger.pending == l.pending)
      && (s.err.None? ==> step.Charge? && s.ledger.pending == Add64(l.pending, step.fee))
  {
  }

  lemma AfterRecords(p: Primitives, l: Ledger, tx: Transaction)
    requires EarlyError(p, tx).None?
    ensures var r := After(p, l, tx);
      && r.pool == l.pool && r.height == l.height && r.tip == l.tip && r.pending == l.pending
      && r.burns == l.burns + (if tx.kind.Burn? then {TxID(p, tx)} else {})
  {
    hide TxID;
  }

  lemma Remainder(p: Primitives, l: Ledger, tx: Transaction, height: u64)
    requires UsesNonce(tx.kind)
    ensures var r := ApplyTx(p, l, tx, height).ledger;
      && r.pool == l.pool && r.height == l.height && r.tip == l.tip
      && r.pending == Add64(l.pending, Paid(p, l, tx, height)) && r.burns == l.burns + Recorded(p, l, tx, height)
  {
    hide TxVerifies, TxID, DispatchTx, Settle, After, StepOf, EarlyError, Get;
    SenderAnatomy(p, l, tx, height);
    if EarlyError(p, tx).None? {
      var step := StepOf(p, Get(l, tx.sender), tx, height);
      SettleKeeps(l, tx, step);
      AfterRecords(p, Settle(l, tx, step).ledger, tx);
    }
  }

  lemma SettleIsLocal(l: Ledger, m: Ledger, tx: Transaction, step: Step, id: Bytes)
    requires Get(l, tx.sender) == Get(m, tx.sender) && Get(l, id) == Get(m, id)
    ensures Settle(l, tx, step).err == Settle(m, tx, step).err
    ensures Get(Settle(l, tx, step).ledger, id) == Get(Settle(m, tx, step).ledger, id)
  {
  }

  lemma CreditIsLocal(l: Ledger, m: Ledger, to: Bytes, amount: u64, id: Bytes)
    requires Get(l, to) == Get(m, to) && Get(l, id) == Get(m, id)
    ensures Get(Credit(l, to, amount), id) == Get(Credit(m, to, amount), id)
  {
  }

  lemma SenderTxIsLocal(p: Primitives, l: Ledger, m: Ledger, tx: Transaction, height: u64, id: Bytes)
    requires UsesNonce(tx.kind) && IsParty(p, tx, id) && forall k :: IsParty(p, tx, k) ==> Get(l, k) == Get(m, k)
    ensures SenderTx(p, l, tx, height).err == SenderTx(p, m, tx, height).err
    ensures Get(SenderTx(p, l, tx, height).ledger, id) == Get(SenderTx(p, m, tx, height).ledger, id)
  {
    hide Settle, Credit, StepOf, Get, TxID;
    assert IsParty(p, tx, tx.sender);
    if EarlyError(p, tx).None? {
      var step := StepOf(p, Get(l, tx.sender), tx, height);
      var s, t := Settle(l, tx, step).ledger, Settle(m, tx, step).ledger;
      SettleIsLocal(l, m, tx, step, id);
      if tx.kind.Transfer? {
        var d := p.decodeTransfer(tx.data).value;
        SettleIsLocal(l, m, tx, step, d.to);
        CreditIsLocal(s, t, d.to, d.amount, id);
      } else {
        AfterKeeps(p, s, tx, id);
        AfterKeeps(p, t, tx, id);
      }
    }
  }

  lemma AfterKeeps(p: Primitives, l: Ledger, tx: Transaction, id: Bytes)
    requires EarlyError(p, tx).None? && !tx.kind.Transfer?
    ensures Get(After(p, l, tx), id) == Get(l, id)
  {
  }

  /** What a transaction does to its parties, and whether it succeeds, depends on its parties alone. */
  lemma OnlyPartiesMatter(p: Primitives, l: Ledger, m: Ledger, tx: Transaction, height: u64)
    requires UsesNonce(tx.kind) && forall id :: IsParty(p, tx, id) ==> Get(l, id) == Get(m, id)
    ensures ApplyTx(p, l, tx, height).err == ApplyTx(p, m, tx, height).err
    ensures forall id :: IsParty(p, tx, id) ==> Later(p, l, tx, height, id) == Later(p, m, tx, height, id)
    ensures Paid(p, l, tx, height) == Paid(p, m, tx, height) && Recorded(p, l, tx, height) == Recorded(p, m, tx, height)
  {
    hide TxVerifies, TxID, DispatchTx, SenderTx, StepOf, Get, EarlyError;
    assert IsParty(p, tx, tx.sender);
    SenderAnatomy(p, l, tx, height);
    SenderAnatomy(p, m, tx, height);
    SenderTxIsLocal(p, l, m, tx, height, tx.sender);
    forall id | IsParty(p, tx, id) ensures Later(p, l, tx, height, id) == Later(p, m, tx, height, id) {
      SenderTxIsLocal(p, l, m, tx, height, id);
    }
  }

  /** Two transactions without a party in common have the same outcomes in either order, and lead to the
      same balances, stakes, keys, fees and burn evidence. */
  lemma StrangersCommute(p: Primitives, l: Ledger, a: Transaction, b: Transaction, height: u64)
    requires UsesNonce(a.kind) && UsesNonce(b.kind) && forall id :: !(IsParty(p, a, id) && IsParty(p, b, id))
    ensures var la, lb := ApplyTx(p, l, a, height), ApplyTx(p, l, b, height);
      var ab, ba := ApplyTx(p, la.ledger, b, height), ApplyTx(p, lb.ledger, a, height);
      && ab.err == lb.err && ba.err == la.err && Equivalent(ab.ledger, ba.ledger)
  {
    hide ApplyTx, Paid, Recorded, IsParty, Get;
    var la, lb := ApplyTx(p, l, a, height).ledger, ApplyTx(p, l, b, height).ledger;
    Unmoved(p, l, a, b, height);
    Unmoved(p, l, b, a, height);
    OnlyPartiesMatter(p, la, l, b, height);
    OnlyPartiesMatter(p, lb, l, a, height);
    Remainder(p, l, a, height);
    Remainder(p, l, b, height);
    Remainder(p, la, b, height);
    Remainder(p, lb, a, height);
    var ab, ba := ApplyTx(p, la, b, height).ledger, ApplyTx(p, lb, a, height).ledger;
    forall id ensures Get(ab, id) == Get(ba, id) {
      Touched(p, l, a, height, id);
      Touched(p, l, b, height, id);
      Touched(p, la, b, height, id);
      Touched(p, lb, a, height, id);
    }
  }

  lemma Touched(p: Primitives, l: Ledger, tx: Transaction, height: u64, id: Bytes)
    ensures IsParty(p, tx, id) || Later(p, l, tx, height, id) == Get(l, id)
  {
    hide ApplyTx;
    if !IsParty(p, tx, id) {
      Bystanders(p, l, tx, height, id);
    }
  }

  /** b's parties are not touched by a. */
  lemma Unmoved(p: Primitives, l: Ledger, a: Transaction, b: Transaction, height: u64)
    requires forall id :: !(IsParty(p, a, id) && IsParty(p, b, id))
    ensures forall id :: IsParty(p, b, id) ==> Later(p, l, a, height, id) == Get(l, id)
  {
    hide ApplyTx, IsParty;
    forall id | IsParty(p, b, id) ensures Later(p, l, a, height, id) == Get(l, id) {
      Touched(p, l, a, height, id);
    }
  }
}
