/** The account ledger as the object the node updates in place (internal/chain/state.go, pos.go). */
module States {
  import opened Base
  import opened ByteOrder
  import opened Types
  import opened Ledgers
  import opened Commitment
  import opened Election

  class State {
    var accounts: map<Bytes, Account>
    var minerPoolRemaining: u64
    var height: u64
    var tip: Bytes
    var pendingMinerFees: u64
    var burnTxSeen: set<Bytes>

    function View(): Ledger
      reads this
    {
      Ledger(accounts, minerPoolRemaining, height, tip, pendingMinerFees, burnTxSeen)
    }

    constructor ()
      ensures View() == NEW_LEDGER
    {
      accounts, minerPoolRemaining, height, tip := map[], MINER_REWARD_POOL, 0, [];
      pendingMinerFees, burnTxSeen := 0, {};
    }

    /** Copies account by account; the pending fees are not copied. */
    method Clone() returns (ns: State)
      ensures fresh(ns) && ns.View() == View().(pending := 0)
    {
      ns := new State();
      ns.minerPoolRemaining, ns.height, ns.tip := minerPoolRemaining, height, tip;
      var todo := accounts.Keys;
      while todo != {}
        invariant todo <= accounts.Keys && fresh(ns)
        invariant ns.accounts.Keys == accounts.Keys - todo
        invariant forall k :: k in ns.accounts ==> ns.accounts[k] == accounts[k]
        invariant ns.View() ==
          NEW_LEDGER.(accounts := ns.accounts, pool := minerPoolRemaining, height := height, tip := tip)
        decreases todo
      {
        var k :| k in todo;
        ns.accounts := ns.accounts[k := accounts[k]];
        todo := todo - {k};
      }
      assert ns.accounts == accounts;
      ns.burnTxSeen := burnTxSeen;
    }

    method ComputeRoot(p: Primitives) returns (root: Bytes)
      ensures root == Root(p, View())
    {
      var gathered := GatherKeys(accounts.Keys);
      var keys := Sort(gathered);
      var sums := HashAccounts(p, accounts, keys);
      root := Hex(p.sha256(Material(p, minerPoolRemaining, height, sums)));
    }

    method GetAccount(id: Bytes) returns (a: Account)
      ensures a == Get(View(), id)
    {
      if id in accounts { return accounts[id]; }
      return Blank(id);
    }

    method HasBurnTx(txHash: Bytes) returns (has: bool)
      ensures has <==> txHash in View().burns
    {
      has := txHash in burnTxSeen;
    }

    // ---- Transactions -----------------------------------------------------------------------

    method EnsureAccount(id: Bytes) returns (a: Account)
      modifies this
      ensures View() == Ensure(old(View()), id) && a == Get(old(View()), id)
    {
      if id !in accounts {
        accounts := accounts[id := Blank(id)];
      }
      a := accounts[id];
    }

    method ApplyCoinbase(p: Primitives, tx: Transaction, height: u64) returns (err: Option<TxError>)
      modifies this
      ensures Applied(View(), err) == CoinbaseTx(p, old(View()), tx, height)
    {
      var decoded := p.decodeCoinbase(tx.data);
      if decoded.None? { return Some(Malformed); }
      var d := decoded.value;
      var want := ComputeBlockReward(height);
      if want > minerPoolRemaining {
        want := minerPoolRemaining;
      }
      if d.amount != want { return Some(CoinbaseAmount); }
      if d.height != 0 && d.height != height { return Some(CoinbaseHeight); }
      if want == 0 { return None; }
      minerPoolRemaining := minerPoolRemaining - want;
      var m := EnsureAccount(tx.sender);
      accounts := accounts[tx.sender := m.(balance := Add64(m.balance, want))];
      return None;
    }

    /** Writes a charged account back and collects its fee. */
    method Commit(sender: Bytes, step: Step) returns (err: Option<TxError>)
      requires sender in accounts
      modifies this
      ensures step.Refuse? ==> View() == old(View()) && err == Some(step.err)
      ensures step.Charge? ==> err.None? && View() == old(View()).(
        accounts := old(accounts)[sender := step.account], pending := Add64(old(pendingMinerFees), step.fee))
    {
      if step.Refuse? { return Some(step.err); }
      accounts := accounts[sender := step.account];
      pendingMinerFees := Add64(pendingMinerFees, step.fee);
      return None;
    }

    method ApplyTransfer(p: Primitives, tx: Transaction) returns (err: Option<TxError>)
      modifies this
      ensures Applied(View(), err) == TransferTx(p, old(View()), tx)
    {
      var decoded := p.decodeTransfer(tx.data);
      if decoded.None? { return Some(Malformed); }
      var d := decoded.value;
      var from := EnsureAccount(tx.sender);
      if tx.nonce != from.nonce { return Some(BadNonce); }
      var step := SpendFrom(from, d.amount, tx.fee, FEE_TRANSFER);
      err := Commit(tx.sender, step);
      if err.Some? { return; }
      // The receiver may be the sender: it is looked up after the sender has been charged.
      var to := EnsureAccount(d.to);
      accounts := accounts[d.to := to.(balance := Add64(to.balance, d.amount))];
    }

    method ApplyBurn(p: Primitives, tx: Transaction) returns (err: Option<TxError>)
      modifies this
      ensures Applied(View(), err) == BurnTx(p, old(View()), tx)
    {
      var decoded := p.decodeBurn(tx.data);
      if decoded.None? { return Some(Malformed); }
      var d := decoded.value;
      if d.refHash == [] { return Some(MissingRefHash); }
      var amount := d.amount;
      if amount == 0 {
        amount := BurnAmountForMsgType(d.msgType);
      }
      var from := EnsureAccount(tx.sender);
      if tx.nonce != from.nonce { return Some(BadNonce); }
      var step := SpendFrom(from, amount, tx.fee, FEE_BURN_BASE);
      if step.Charge? {
        step := step.(account := step.account.(burned := Add64(step.account.burned, amount)));
      }
      err := Commit(tx.sender, step);
      if err.Some? { return; }
      burnTxSeen := burnTxSeen + {TxID(p, tx)};
    }

    method ApplyRegister(p: Primitives, tx: Transaction, height: u64) returns (err: Option<TxError>)
      modifies this
      ensures Applied(View(), err) == RegisterTx(p, old(View()), tx, height)
    {
      var decoded := p.decodeRegister(tx.data);
      if decoded.None? { return Some(Malformed); }
      var from := EnsureAccount(tx.sender);
      if tx.nonce != from.nonce { return Some(BadNonce); }
      var step := RegisterFrom(from, tx.fee, decoded.value, height);
      err := Commit(tx.sender, step);
    }

    method ApplyStake(p: Primitives, tx: Transaction) returns (err: Option<TxError>)
      modifies this
      ensures Applied(View(), err) == StakeTx(p, old(View()), tx)
    {
      var decoded := p.decodeAmount(tx.data);
      if decoded.None? { return Some(Malformed); }
      var d := decoded.value;
      if d.amount == 0 { return Some(AmountRequired); }
      var from := EnsureAccount(tx.sender);
      if tx.nonce != from.nonce { return Some(BadNonce); }
      var step := SpendFrom(from, d.amount, tx.fee, FEE_STAKE);
      if step.Charge? {
        step := step.(account := step.account.(stake := Add64(step.account.stake, d.amount)));
      }
      err := Commit(tx.sender, step);
    }

    method ApplyUnstake(p: Primitives, tx: Transaction) returns (err: Option<TxError>)
      modifies this
      ensures Applied(View(), err) == UnstakeTx(p, old(View()), tx)
    {
      var decoded := p.decodeAmount(tx.data);
      if decoded.None? { return Some(Malformed); }
      var d := decoded.value;
      if d.amount == 0 { return Some(AmountRequired); }
      var from := EnsureAccount(tx.sender);
      if tx.nonce != from.nonce { return Some(BadNonce); }
      var step := UnstakeFrom(from, d.amount, tx.fee);
      err := Commit(tx.sender, step);
    }

    method ApplyActivate(p: Primitives, tx: Transaction, height: u64) returns (err: Option<TxError>)
      modifies this
      ensures Applied(View(), err) == ActivateTx(p, old(View()), tx, height)
    {
      var decoded := p.decodeActivate(tx.data);
      if decoded.None? { return Some(Malformed); }
      var d := decoded.value;
      var from := EnsureAccount(tx.sender);
      if tx.nonce != from.nonce { return Some(BadNonce); }
      if height > BOOTSTRAP_SLOTS && from.stake < MIN_STAKE { return Some(BelowMinStake); }
      if d.ed25519Pub != [] {
        from := from.(ed25519Pub := d.ed25519Pub);
      }
      err := Commit(tx.sender, Charge(from.(active := true, nonce := Add64(from.nonce, 1)), 0));
    }

    method ApplyTxLocked(p: Primitives, tx: Transaction, height: u64) returns (err: Option<TxError>)
      modifies this
      ensures Applied(View(), err) == DispatchTx(p, old(View()), tx, height)
    {
      match tx.kind
      case InitAlert => return None;
      case NetworkParams =>
        if height != 0 { return Some(ParamsHeight); }
        var d := p.decodeParams(tx.data);
        if d.None? { return Some(Malformed); }
        if d.value.chainId != CHAIN_ID || d.value.name != NETWORK_NAME { return Some(ParamsMismatch); }
        if d.value.freeClaim { return Some(FreeClaimSet); }
        return None;
      case Coinbase => err := ApplyCoinbase(p, tx, height);
      case GenesisClaim => return Some(ClaimDisabled);
      case Transfer => err := ApplyTransfer(p, tx);
      case Burn => err := ApplyBurn(p, tx);
      case Register => err := ApplyRegister(p, tx, height);
      case Stake => err := ApplyStake(p, tx);
      case Unstake => err := ApplyUnstake(p, tx);
      case Activate => err := ApplyActivate(p, tx, height);
      case OtherKind(_) => return Some(UnknownTx);
    }

    method ApplyTx(p: Primitives, tx: Transaction, height: u64) returns (err: Option<TxError>)
      modifies this
      ensures Applied(View(), err) == Ledgers.ApplyTx(p, old(View()), tx, height)
      ensures !(tx.kind.InitAlert? || tx.kind.Coinbase? || tx.kind.NetworkParams?) && !SignedBySender(p, tx) ==>
        err == Some(InvalidSig) && View() == old(View())
    {
      VerifiesIff(p, tx);
      if !TxVerifies(p, tx) { return Some(InvalidSig); }
      err := ApplyTxLocked(p, tx, height);
    }

    // ---- Blocks -----------------------------------------------------------------------------

    /** The transaction loop of ApplyBlock. */
    method ApplyAll(p: Primitives, txs: seq<Transaction>, height: u64) returns (err: Option<BlockError>)
      modifies this
      ensures Applied(View(), err) == ApplyTxs(p, old(View()), txs, height)
    {
      var i := 0;
      while i < |txs|
        invariant 0 <= i <= |txs|
        invariant Applied(View(), None) == ApplyTxs(p, old(View()), txs[..i], height)
      {
        assert txs[..i + 1][..i] == txs[..i];
        var e := ApplyTx(p, txs[i], height);
        if e.Some? {
          StopsAtFailure(p, old(View()), txs, i, height);
          return Some(TxFailed(i, e.value));
        }
        i := i + 1;
      }
      assert txs[..|txs|] == txs;
      return None;
    }

    method ApplyBlock(p: Primitives, b: Block) returns (err: Option<BlockError>)
      modifies this
      ensures Applied(View(), err) == Ledgers.ApplyBlock(p, old(View()), b)
    {
      pendingMinerFees := 0;
      err := ApplyAll(p, b.txs, b.header.height);
      if err.Some? { return; }
      var proposer := b.header.proposer;
      if proposer == [] {
        proposer := b.header.minerID;
      }
      if pendingMinerFees > 0 && proposer != [] && proposer != NETWORK_GENESIS_ID {
        var m := EnsureAccount(proposer);
        accounts := accounts[proposer := m.(balance := Add64(m.balance, pendingMinerFees))];
      }
      height := b.header.height;
      tip := HashHex(p, b.header);
      pendingMinerFees := 0;
    }

    // ---- Validators -------------------------------------------------------------------------

    method ActiveValidators() returns (out: seq<ValidatorView>)
      ensures out == Validators(accounts)
    {
      out := ListValidators(accounts);
    }

    method SelectProposer(p: Primitives, prevBlockHash: Bytes, slot: u64) returns (id: Bytes)
      ensures id == Election.SelectProposer(p, View(), prevBlockHash, slot)
      ensures var vals := Validators(accounts);
        0 < SumStakes(vals) < TWO64 ==> forall k :: 0 <= k < |vals| ==>
          (id == vals[k].nodeID <==> InStretch(vals, k, SeedResidue(p, prevBlockHash, slot, SumStakes(vals))))
    {
      if 0 < SumStakes(Validators(accounts)) < TWO64 {
        ElectedByStretch(p, View(), prevBlockHash, slot);
      }
      SelectAmongActive(p, View(), prevBlockHash, slot);
      hide Validators, SumStakes, SeedResidue, Select, InStretch, Election.SelectProposer;
      var vals := ActiveValidators();
      id := SelectFrom(p, vals, prevBlockHash, slot);
    }

    method MayPropose(p: Primitives, prevHash: Bytes, nodeID: Bytes, slot: u64) returns (ok: bool)
      ensures ok <==> Election.MayPropose(p, View(), prevHash, nodeID, slot)
      ensures ok <==> nodeID != [] && Election.SelectProposer(p, View(), prevHash, slot) in [[], nodeID]
    {
      if nodeID == [] { return false; }
      var expected := SelectProposer(p, prevHash, slot);
      if expected == [] { return true; }
      return expected == nodeID;
    }
  }

  // ---- What the handlers do to the sender's account ------------------------------------------

  /** The checks and the debit shared by transfers, burns and stakes. */
  method SpendFrom(from: Account, amount: u64, txFee: u64, defaultFee: u64) returns (step: Step)
    ensures step == Spend(from, amount, FeeOr(txFee, defaultFee))
  {
    var fee := txFee;
    if fee == 0 {
      fee := defaultFee;
    }
    if amount > GENESIS_SUPPLY { return Refuse(AmountTooLarge); }
    if amount + fee >= TWO64 { return Refuse(AmountOverflow); }
    var total := amount + fee;
    if from.balance < total { return Refuse(Insufficient); }
    return Charge(from.(balance := from.balance - total, nonce := Add64(from.nonce, 1)), fee);
  }

  method RegisterFrom(account: Account, txFee: u64, d: RegisterData, height: u64) returns (step: Step)
    ensures step == RegisterStep(account, FeeOr(txFee, FEE_REGISTER), d, height)
  {
    var from, fee := account, txFee;
    if fee == 0 {
      fee := FEE_REGISTER;
    }
    if from.balance < fee {
      if height > BOOTSTRAP_SLOTS || fee != FEE_REGISTER { return Refuse(Insufficient); }
      fee := 0;
    } else {
      from := from.(balance := from.balance - fee);
    }
    from := from.(nonce := Add64(from.nonce, 1), ed25519Pub := d.ed25519Pub, x25519Pub := d.x25519Pub);
    if from.regHeight == 0 {
      from := from.(regHeight := height);
    }
    return Charge(from, fee);
  }

  method UnstakeFrom(account: Account, requested: u64, txFee: u64) returns (step: Step)
    ensures step == UnstakeStep(account, requested, FeeOr(txFee, FEE_UNSTAKE))
  {
    var from, amount, fee := account, requested, txFee;
    if from.stake < amount { return Refuse(Insufficient); }
    if fee == 0 {
      fee := FEE_UNSTAKE;
    }
    if from.balance >= fee {
      from := from.(balance := from.balance - fee);
    } else if amount > fee {
      amount := amount - fee;
    } else {
      return Refuse(Insufficient);
    }
    from := from.(stake := from.stake - amount, balance := Add64(from.balance, amount), nonce := Add64(from.nonce, 1));
    if from.stake == 0 {
      from := from.(active := false);
    }
    return Charge(from, fee);
  }

  method GatherKeys(keys: set<Bytes>) returns (out: seq<Bytes>)
    ensures Distinct(out) && (set k | k in out) == keys
  {
    var todo := keys;
    out := [];
    while todo != {}
      invariant todo <= keys && Distinct(out)
      invariant forall k :: k in out <==> k in keys - todo
      decreases todo
    {
      var k :| k in todo;
      DistinctAppend(out, k);
      out := out + [k];
      todo := todo - {k};
    }
  }

  /** Once a transaction has failed, the rest of the block is not looked at. */
  lemma {:induction false} StopsAtFailure(p: Primitives, l: Ledger, txs: seq<Transaction>, i: nat, height: u64)
    requires i < |txs| && ApplyTxs(p, l, txs[..i + 1], height).err.Some?
    ensures ApplyTxs(p, l, txs, height) == ApplyTxs(p, l, txs[..i + 1], height)
    decreases |txs|
  {
    if i + 1 == |txs| {
      assert txs[..i + 1] == txs;
    } else {
      var init := txs[..|txs| - 1];
      assert init[..i + 1] == txs[..i + 1];
      StopsAtFailure(p, l, init, i, height);
    }
  }
}
