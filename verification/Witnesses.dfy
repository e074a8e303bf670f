/** Runs that show what the code does outside the conditions of the theorems: each starts at genesis
    and uses nothing but the transactions and the producer of one ordinary node. */
module Witnesses {
  import opened Base
  import opened Types
  import opened Ledgers
  import opened Commitment
  import opened Election
  import opened Consensus
  import opened Stutter
  import opened Proposing
  import opened Acceptance
  import opened Effects
  import opened Supply
  import Bodies
  import Chain
  import Conservation
  import Merkle
  import ProofOfWork

  lemma GenesisAccepted(p: Primitives)
    requires Sound(p)
    ensures AcceptedChain(p, [Genesis(p)])
    ensures Replay(p, [Genesis(p)]) == NEW_LEDGER.(tip := HashHex(p, Genesis(p).header))
    ensures Tip([Genesis(p)]) == Some(Genesis(p).header) && Genesis(p).header.height == 0 && Genesis(p).header.slot == 0
  {
    hide ApplyBlock, Root, HashHex, Replay;
    assert Fitting(p, [Genesis(p)], 0);
    GenesisApplies(p);
  }

  /** On a ledger without validators anybody may propose. */
  lemma NobodyElected(p: Primitives, l: Ledger, prevHash: Bytes, slot: u64)
    requires l.accounts == map[]
    ensures SelectProposer(p, l, prevHash, slot) == []
  {
    assert ActiveIds(l.accounts) == {};
    assert |Validators(l.accounts)| == 0;
  }

  // ---- A coinbase from the mempool ----------------------------------------------------------

  /** The producer seals a block on genesis, whatever it is offered. */
  lemma GenesisProposal(p: Primitives, id: Identity, peeked: seq<Transaction>, force: bool, now1: int, now2: int)
    requires Sound(p) && GoodIdentity(p, id)
    ensures var g := Genesis(p).header;
      Proposal(p, id, Some(g), NEW_LEDGER.(tip := HashHex(p, g)), peeked, force, now1, now2).Sealed?
  {
    GenesisAccepted(p);
    var g := Genesis(p).header;
    var l := NEW_LEDGER.(tip := HashHex(p, g));
    var slot := ProposalSlot(0, now1);
    ProposalNeverRefused(p, id, Some(g), l, peeked, force, now1, now2);
    NobodyElected(p, l, HashHex(p, g), slot);
    FrontStartsWithReward(p, id, l, 1, slot);
    hide Genesis, HashHex, SelectProposer, ApplyTxs, Front, Sieve, ApplyBlock, Root, ProposalSlot, ProposalTime, Sound;
  }

  lemma FrontStartsWithReward(p: Primitives, id: Identity, l: Ledger, height: u64, slot: u64)
    requires BlockReward(height) > 0
    ensures Front(p, id, l, height, slot) != []
  {
    hide ApplyTxs, ApplyTx;
  }

  /** A sealed block whose only fault is its coinbase is refused for it. */
  lemma SpoiltBlock(p: Primitives, chain: seq<Block>, l: Ledger, b: Block)
    requires chain != [] && b.header.height == Add64(Tip(chain).value.height, 1) > 0
    requires b.header.prevBlock == HashHex(p, Tip(chain).value) && b.header.proposer != []
    requires b.header.merkleRoot == Merkle.RootOfTxs(p, b.txs) && p.blockSize(b) <= MAX_BLOCK_BYTES
    requires ProposerSigned(p, b.header) && InSlotWindow(b.header) && Tip(chain).value.slot <= b.header.slot
    requires MayPropose(p, l, HashHex(p, Tip(chain).value), b.header.proposer, b.header.slot)
    requires !CoinbaseOK(p, b)
    ensures Judge(p, chain, l, b) == Reject(BadCoinbase)
  {
    hide HashHex, ApplyBlock, Root, MayPropose, ProposerSigned, InSlotWindow, CoinbaseOK, Merkle.RootOfTxs, IsGenesis;
  }

  /** An unsigned coinbase spoils the node's own block: on genesis it passes the dry run that lets it
      into the mempool, the producer keeps it and seals, and the block is refused. */
  lemma PendingCoinbaseSpoils(p: Primitives, id: Identity, force: bool, now1: int, now2: int)
    requires Sound(p) && GoodIdentity(p, id)
    ensures var chain := [Genesis(p)];
      var l, slot := Replay(p, chain), ProposalSlot(0, now1);
      var cb := CoinbaseFor(p, id, l, 1, slot);
      var r := Proposal(p, id, Tip(chain), l, [cb], force, now1, now2);
      && cb.signature == [] && TxVerifies(p, cb) && ApplyTx(p, l, cb, 1).err.None?
      && r.Sealed? && |r.block.txs| > 1 && r.block.txs[0] == cb == r.block.txs[|r.block.txs| - 1]
      && (p.blockSize(r.block) <= MAX_BLOCK_BYTES ==> Judge(p, chain, l, r.block) == Reject(BadCoinbase))
  {
    GenesisAccepted(p);
    var chain := [Genesis(p)];
    var l, slot := Replay(p, chain), ProposalSlot(0, now1);
    var cb := CoinbaseFor(p, id, l, 1, slot);
    CoinbaseDecodes(p, id, l, 1, slot);
    hide HashHex, Genesis, AcceptedChain;
    ClaimsApply(p, l, cb, 1);
    KeptCoinbase(p, id, l, slot);
    GenesisProposal(p, id, [cb], force, now1, now2);
    var r := Proposal(p, id, Tip(chain), l, [cb], force, now1, now2);
    SealedAnatomy(p, id, Tip(chain), l, [cb], force, now1, now2);
    SealedPasses(p, id, Tip(chain), l, [cb], force, now1, now2);
    SlotFollows(now1);
    FrontFirst(p, id, l, slot);
    hide Proposal, Front, Kept, ProposalSlot, ApplyTx, ApplyTxs, Judge;
    hide MayPropose, ProposerSigned, InSlotWindow, Denied, Merkle.RootOfTxs;
    hide ApplyBlock, Root;
    BodyCoinbase(p, id, l, r.block, [cb]);
    assert cb in [cb];
    if p.blockSize(r.block) <= MAX_BLOCK_BYTES {
      hide CoinbaseOK;
      SpoiltBlock(p, chain, l, r.block);
    }
  }

  lemma SlotFollows(now: int)
    ensures ProposalSlot(0, now) >= 0
  {
  }

  lemma CoinbaseDecodes(p: Primitives, id: Identity, l: Ledger, height: u64, slot: u64)
    requires Sound(p)
    ensures var cb := CoinbaseFor(p, id, l, height, slot);
      p.decodeCoinbase(cb.data) == Some(CoinbaseData(CoinbaseDue(l, height), height, slot))
      && cb.kind.Coinbase? && cb.signature == [] && TxVerifies(p, cb)
  {
  }

  lemma FrontFirst(p: Primitives, id: Identity, l: Ledger, slot: u64)
    ensures Front(p, id, l, 1, slot) != [] && Front(p, id, l, 1, slot)[0] == CoinbaseFor(p, id, l, 1, slot)
  {
    hide ApplyTxs, ApplyTx;
  }

  lemma KeptCoinbase(p: Primitives, id: Identity, l: Ledger, slot: u64)
    requires Sound(p) && l.pool == MINER_REWARD_POOL
    ensures Kept(p, id, l, [CoinbaseFor(p, id, l, 1, slot)], 1, slot) == [CoinbaseFor(p, id, l, 1, slot)]
  {
    var cb := CoinbaseFor(p, id, l, 1, slot);
    CoinbaseDecodes(p, id, l, 1, slot);
    FrontPool(p, id, l, 1, slot);
    var after := ApplyTxs(p, l, Front(p, id, l, 1, slot), 1).ledger;
    hide ApplyTxs, Front, ApplyTx;
    assert BlockReward(1) == 50;
    assert Claims(p, cb, CoinbaseDue(after, 1), 1);
    ClaimsApply(p, after, cb, 1);
    KeepsOne(p, after, cb, 1);
  }

  lemma KeepsOne(p: Primitives, l: Ledger, tx: Transaction, height: u64)
    requires ApplyTx(p, l, tx, height).err.None?
    ensures Sieve(p, l, [tx], height) == Sieved([tx], ApplyTx(p, l, tx, height).ledger)
  {
    hide ApplyTx;
    assert [tx][..0] == [];
    assert Sieve(p, l, [], height) == Sieved([], l);
  }

  // ---- An unstake that creates a unit -------------------------------------------------------

  /** A transaction that the node signs. */
  function Authored(p: Primitives, id: Identity, kind: TxKind, nonce: u64, data: Bytes): Transaction {
    var tx := Transaction(kind, id.nodeID, id.edPub, nonce, 0, data, []);
    tx.(signature := p.base64(p.edSign(id.priv, p.txJson(tx.Core()))))
  }

  lemma AuthoredVerifies(p: Primitives, id: Identity, kind: TxKind, nonce: u64, data: Bytes)
    requires Sound(p) && GoodIdentity(p, id)
    ensures TxVerifies(p, Authored(p, id, kind, nonce, data))
  {
    var tx := Authored(p, id, kind, nonce, data);
    var m := p.txJson(tx.Core());
    assert |p.edPublic(id.priv)| == 32 && p.edVerify(p.edPublic(id.priv), m, p.edSign(id.priv, m));
    assert p.base64Decode(tx.senderPub) == Some(p.edPublic(id.priv));
    assert p.base64Decode(tx.signature) == Some(p.edSign(id.priv, m));
  }

  /** What the node offers: stake 49 of its first reward, and take it back. */
  function InAndOut(p: Primitives, id: Identity, data: Bytes): seq<Transaction> {
    [Authored(p, id, Stake, 1, data), Authored(p, id, Unstake, 2, data)]
  }

  /** The node's account after its coinbase and activation in the first block. */
  predicate Funded(id: Identity, l: Ledger) {
    && Get(l, id.nodeID).balance == 50 && Get(l, id.nodeID).stake == 0 && Get(l, id.nodeID).nonce == 1
  }

  /** On a funded account the stake applies, and then the unstake takes the second branch and applies. */
  lemma InAndOutSteps(p: Primitives, id: Identity, l: Ledger, data: Bytes)
    requires Sound(p) && GoodIdentity(p, id) && p.decodeAmount(data) == Some(AmountData(49)) && Funded(id, l)
    ensures var txs := InAndOut(p, id, data);
      var staked := ApplyTx(p, l, txs[0], 1);
      && staked.err.None? && SecondBranch(p, staked.ledger, txs[1])
      && ApplyTx(p, staked.ledger, txs[1], 1).err.None?
      && Get(ApplyTx(p, staked.ledger, txs[1], 1).ledger, id.nodeID).stake == 1
  {
    var s, u := Authored(p, id, Stake, 1, data), Authored(p, id, Unstake, 2, data);
    AuthoredVerifies(p, id, Stake, 1, data);
    AuthoredVerifies(p, id, Unstake, 2, data);
    hide TxVerifies, Sound, GoodIdentity;
    StakeEffect(p, l, s, 1);
    assert Ready(p, l, s);
    var staked := ApplyTx(p, l, s, 1).ledger;
    UnstakeEffect(p, staked, u, 1);
    assert Get(staked, id.nodeID).nonce == 2;
  }

  /** On a fresh ledger the producer's own transactions are the reward and its activation, and fund it. */
  lemma FrontFunds(p: Primitives, id: Identity, l: Ledger, slot: u64)
    requires Sound(p) && GoodIdentity(p, id) && l.accounts == map[] && l.pool == MINER_REWARD_POOL
    ensures Front(p, id, l, 1, slot) == [CoinbaseFor(p, id, l, 1, slot), ActivationFor(p, id, 0)]
    ensures Funded(id, ApplyTxs(p, l, Front(p, id, l, 1, slot), 1).ledger)
  {
    var cb, act := CoinbaseFor(p, id, l, 1, slot), ActivationFor(p, id, 0);
    CoinbaseDecodes(p, id, l, 1, slot);
    ActivationVerifies(p, id, 0);
    ActivationIs(p, id);
    assert BlockReward(1) == 50;
    hide TxVerifies, GoodIdentity, Sound, ActivationFor;
    CoinbaseEffect(p, l, cb, 1);
    var paid := ApplyTx(p, l, cb, 1).ledger;
    assert Get(paid, id.nodeID) == Blank(id.nodeID).(balance := 50);
    ActivateEffect(p, paid, act, 1);
    hide ApplyTx;
    OneByOne(p, l, cb, act, 1);
    assert Get(ApplyTx(p, paid, act, 1).ledger, id.nodeID).nonce == 1 by { NonceMoves(p, paid, act); }
  }

  lemma NonceMoves(p: Primitives, l: Ledger, act: Transaction)
    requires act.kind.Activate? && ApplyTx(p, l, act, 1).err.None? && Get(l, act.sender).nonce == 0
    ensures Get(ApplyTx(p, l, act, 1).ledger, act.sender).nonce == 1
  {
    hide TxVerifies;
  }

  lemma ActivationIs(p: Primitives, id: Identity)
    requires Sound(p)
    ensures var act := ActivationFor(p, id, 0);
      act.kind.Activate? && act.sender == id.nodeID && act.nonce == 0 && p.decodeActivate(act.data).Some?
  {
  }

  lemma OneByOne(p: Primitives, l: Ledger, a: Transaction, b: Transaction, height: u64)
    requires ApplyTx(p, l, a, height).err.None?
    ensures ApplyTxs(p, l, [a], height) == Applied(ApplyTx(p, l, a, height).ledger, None)
    ensures ApplyTx(p, ApplyTx(p, l, a, height).ledger, b, height).err.None? ==>
      ApplyTxs(p, l, [a, b], height) == Applied(ApplyTx(p, ApplyTx(p, l, a, height).ledger, b, height).ledger, None)
  {
    hide ApplyTx;
    assert [a][..0] == [] && [a, b][..1] == [a];
    assert ApplyTxs(p, l, [], height) == Applied(l, None);
  }

  lemma KeepsTwo(p: Primitives, l: Ledger, a: Transaction, b: Transaction, height: u64)
    requires ApplyTx(p, l, a, height).err.None? && ApplyTx(p, ApplyTx(p, l, a, height).ledger, b, height).err.None?
    ensures Sieve(p, l, [a, b], height).kept == [a, b]
  {
    hide ApplyTx;
    KeepsOne(p, l, a, height);
    assert [a, b][..1] == [a];
  }

  lemma {:induction false} NoUnstakeNoDrift(p: Primitives, l: Ledger, txs: seq<Transaction>, height: u64)
    requires forall tx :: tx in txs ==> !tx.kind.Unstake?
    ensures TxsDrift(AsWritten, p, l, txs, height) == 0
  {
    if txs != [] {
      NoUnstakeNoDrift(p, l, txs[..|txs| - 1], height);
    }
  }

  /** The drift of a body whose last transaction, an unstake at the standard fee, takes the second branch. */
  lemma LastDrifts(p: Primitives, l: Ledger, init: seq<Transaction>, u: Transaction, height: u64)
    requires (forall tx :: tx in init ==> !tx.kind.Unstake?) && u.fee == 0
    requires SecondBranch(p, ApplyTxs(p, l, init, height).ledger, u)
    ensures TxsDrift(AsWritten, p, l, init + [u], height) == 1
    ensures !TxsAvoid(p, l, init + [u], height)
  {
    hide SecondBranch, ApplyTxs, TxsUnder;
    assert (init + [u])[..|init|] == init;
    NoUnstakeNoDrift(p, l, init, height);
    WrittenTxs(p, l, init, height);
    SecondIsUnstake(p, ApplyTxs(p, l, init, height).ledger, u);
  }

  lemma SecondIsUnstake(p: Primitives, l: Ledger, u: Transaction)
    requires SecondBranch(p, l, u)
    ensures u.kind.Unstake?
  {
  }

  /** The block that the node seals on genesis when it offers to stake its reward and take it back. */
  ghost function FirstBlock(p: Primitives, id: Identity, data: Bytes, now1: int, now2: int): Proposed {
    Proposal(p, id, Tip([Genesis(p)]), Replay(p, [Genesis(p)]), InAndOut(p, id, data), false, now1, now2)
  }

  lemma FirstBody(p: Primitives, id: Identity, data: Bytes, now1: int, now2: int)
    requires Sound(p) && GoodIdentity(p, id) && p.decodeAmount(data) == Some(AmountData(49))
    ensures FirstBlock(p, id, data, now1, now2).Sealed?
    ensures var b, l := FirstBlock(p, id, data, now1, now2).block, Replay(p, [Genesis(p)]);
      var txs := InAndOut(p, id, data);
      && b.header.height == 1 && b.header.proposer == id.nodeID
      && b.txs == Front(p, id, l, 1, b.header.slot) + [txs[0]] + [txs[1]]
      && (forall tx :: tx in Front(p, id, l, 1, b.header.slot) ==> !tx.kind.Unstake?)
      && ApplyTxs(p, l, Front(p, id, l, 1, b.header.slot) + [txs[0]], 1).err.None?
      && SecondBranch(p, ApplyTxs(p, l, Front(p, id, l, 1, b.header.slot) + [txs[0]], 1).ledger, txs[1])
  {
    hide Genesis, Replay, AcceptedChain, HashHex, Merkle.Root, ProposalTime, ProposalSlot, Denied, Proposal;
    GenesisAccepted(p);
    var chain, txs := [Genesis(p)], InAndOut(p, id, data);
    var l := Replay(p, chain);
    GenesisProposal(p, id, txs, false, now1, now2);
    SealedAnatomy(p, id, Tip(chain), l, txs, false, now1, now2);
    var b := FirstBlock(p, id, data, now1, now2).block;
    hide FirstBlock;
    var front := Front(p, id, l, 1, b.header.slot);
    FrontFunds(p, id, l, b.header.slot);
    FrontApplies(p, id, l, 1, b.header.slot);
    ActivationIs(p, id);
    hide Front, ApplyTxs, ApplyTx, Funded, SecondBranch, Sound, GoodIdentity, ActivationFor;
    var funded := ApplyTxs(p, l, front, 1).ledger;
    InAndOutSteps(p, id, funded, data);
    KeepsTwo(p, funded, txs[0], txs[1], 1);
    assert txs == [txs[0], txs[1]];
    ApplyTxsStep(p, l, front, txs[0], 1);
    assert front + txs == front + [txs[0]] + [txs[1]];
  }

  /** Genesis drifts nothing, so the drift of a chain of two blocks is that of the second. */
  lemma DriftOfTwo(p: Primitives, b: Block)
    requires Sound(p) && b.header.height == 1
    ensures var l, chain := Replay(p, [Genesis(p)]), [Genesis(p), b];
      && Drift(AsWritten, p, chain) == TxsDrift(AsWritten, p, l, b.txs, 1)
      && (ChainAvoids(p, chain) ==> TxsAvoid(p, l, b.txs, 1))
  {
    GenesisAccepted(p);
    GenesisKinds(p);
    hide Genesis, HashHex, TxsDrift, TxsAvoid, ApplyBlock, TxsUnder, Sound, AcceptedChain;
    var g, chain := [Genesis(p)], [Genesis(p), b];
    var l := Replay(p, g);
    assert chain[..1] == g && g[..0] == [];
    assert l.(pending := 0) == l;
    NoUnstakeNoDrift(p, NEW_LEDGER.(pending := 0), Genesis(p).txs, 0);
    WrittenIsReplay(p, g);
    assert Drift(AsWritten, p, g) == 0;
  }

  lemma GenesisKinds(p: Primitives)
    ensures Genesis(p).header.height == 0 && forall tx :: tx in Genesis(p).txs ==> !tx.kind.Unstake?
  {
    hide ApplyBlock, Root;
  }

  lemma FirstAccepted(p: Primitives, id: Identity, data: Bytes, now1: int, now2: int)
    requires Sound(p) && GoodIdentity(p, id) && FirstBlock(p, id, data, now1, now2).Sealed?
    requires p.blockSize(FirstBlock(p, id, data, now1, now2).block) <= MAX_BLOCK_BYTES
    ensures AcceptedChain(p, [Genesis(p), FirstBlock(p, id, data, now1, now2).block])
  {
    hide Genesis, AcceptedChain, Judge, HashHex, Replay, Proposal;
    GenesisAccepted(p);
    var g, r := [Genesis(p)], FirstBlock(p, id, data, now1, now2);
    var txs := InAndOut(p, id, data);
    SelfAcceptance(p, id, g, Replay(p, g), txs, false, now1, now2);
    assert Harmless(p, id, Replay(p, g), txs, 1);
    AcceptedThenExtended(p, g, r.block);
    assert g + [r.block] == [Genesis(p), r.block];
  }

  lemma FirstDrifts(p: Primitives, id: Identity, data: Bytes, now1: int, now2: int)
    requires Sound(p) && GoodIdentity(p, id) && p.decodeAmount(data) == Some(AmountData(49))
    ensures var r := FirstBlock(p, id, data, now1, now2);
      && r.Sealed? && r.block.header.height == 1 && r.block.header.proposer == id.nodeID
      && Drift(AsWritten, p, [Genesis(p), r.block]) == 1 && !ChainAvoids(p, [Genesis(p), r.block])
  {
    hide Genesis, HashHex, SecondBranch, Front, ApplyTxs, Replay, Proposal, Sound, GoodIdentity;
    hide FirstBlock, Drift, ChainAvoids, TxsDrift, TxsAvoid;
    FirstBody(p, id, data, now1, now2);
    var b, l, txs := FirstBlock(p, id, data, now1, now2).block, Replay(p, [Genesis(p)]), InAndOut(p, id, data);
    LastDrifts(p, l, Front(p, id, l, 1, b.header.slot) + [txs[0]], txs[1], 1);
    DriftOfTwo(p, b);
  }

  /** An accepted chain on which the supply is 4,200,001: the first block of an ordinary node that
      stakes its reward and, with nothing liquid left, takes it back. */
  lemma AcceptedChainCreates(p: Primitives, id: Identity, data: Bytes, now1: int, now2: int)
    requires Sound(p) && GoodIdentity(p, id) && id.nodeID != NETWORK_GENESIS_ID
    requires p.decodeAmount(data) == Some(AmountData(49))
    ensures var r := FirstBlock(p, id, data, now1, now2);
      r.Sealed? &&
      (p.blockSize(r.block) <= MAX_BLOCK_BYTES ==>
        var chain := [Genesis(p), r.block];
        && AcceptedChain(p, chain) && !ChainAvoids(p, chain) && Drift(AsWritten, p, chain) == 1
        && Replay(p, chain).pool + Wealth(Replay(p, chain).accounts) == MINER_REWARD_POOL + 1)
  {
    hide Genesis, AcceptedChain, Replay, Sound, GoodIdentity, FirstBlock, Drift, ChainAvoids;
    FirstDrifts(p, id, data, now1, now2);
    var r := FirstBlock(p, id, data, now1, now2);
    if p.blockSize(r.block) <= MAX_BLOCK_BYTES {
      FirstAccepted(p, id, data, now1, now2);
      Conservation.AcceptedSupply(p, [Genesis(p), r.block]);
    }
  }

  // ---- One tip hash, two chains -------------------------------------------------------------

  /** An alert announcement; nobody has to sign it. */
  function Announcement(data: Bytes): Transaction { Transaction(InitAlert, [], [], 0, 0, data, []) }

  ghost function AnnouncingBlock(p: Primitives, id: Identity, data: Bytes, now1: int, now2: int): Proposed {
    Proposal(p, id, Tip([Genesis(p)]), Replay(p, [Genesis(p)]), [Announcement(data)], false, now1, now2)
  }

  lemma AnnouncingBody(p: Primitives, id: Identity, data: Bytes, now1: int, now2: int)
    requires Sound(p) && GoodIdentity(p, id)
    ensures var r := AnnouncingBlock(p, id, data, now1, now2);
      r.Sealed? && |r.block.txs| == 3 && r.block.txs[2] == Announcement(data)
  {
    hide Genesis, Replay, AcceptedChain, HashHex, Merkle.Root, ProposalTime, ProposalSlot, Denied, Proposal;
    GenesisAccepted(p);
    var chain, tx := [Genesis(p)], Announcement(data);
    var l := Replay(p, chain);
    GenesisProposal(p, id, [tx], false, now1, now2);
    SealedAnatomy(p, id, Tip(chain), l, [tx], false, now1, now2);
    var b := AnnouncingBlock(p, id, data, now1, now2).block;
    FrontFunds(p, id, l, b.header.slot);
    hide AnnouncingBlock, Front, ApplyTxs, ApplyTx, Funded, Sound, GoodIdentity, ActivationFor;
    var after := ApplyTxs(p, l, Front(p, id, l, 1, b.header.slot), 1).ledger;
    Bodies.AlertIsIdle(p, after, tx, 1);
    KeepsOne(p, after, tx, 1);
  }

  /** Two accepted chains with the same tip hash and different blocks. */
  lemma SameTipOtherBlock(p: Primitives, id: Identity, data: Bytes, now1: int, now2: int)
    requires Sound(p) && GoodIdentity(p, id)
    ensures var r := AnnouncingBlock(p, id, data, now1, now2);
      r.Sealed? && r.block.txs != [] &&
      (p.blockSize(r.block) <= MAX_BLOCK_BYTES && p.blockSize(Bodies.Twin(r.block, 1)) <= MAX_BLOCK_BYTES ==>
        var a, b := [Genesis(p), r.block], [Genesis(p), Bodies.Twin(r.block, 1)];
        && AcceptedChain(p, a) && AcceptedChain(p, b) && a != b
        && HashHex(p, a[1].header) == HashHex(p, b[1].header))
  {
    hide Genesis, AcceptedChain, Judge, HashHex, Replay, Proposal;
    GenesisAccepted(p);
    AnnouncingBody(p, id, data, now1, now2);
    var g, r := [Genesis(p)], AnnouncingBlock(p, id, data, now1, now2);
    if p.blockSize(r.block) <= MAX_BLOCK_BYTES && p.blockSize(Bodies.Twin(r.block, 1)) <= MAX_BLOCK_BYTES {
      SelfAcceptance(p, id, g, Replay(p, g), [Announcement(data)], false, now1, now2);
      assert Harmless(p, id, Replay(p, g), [Announcement(data)], 1);
      hide AnnouncingBlock;
      assert ProofOfWork.Pow2(0) == 1;
      Bodies.TwinIsAccepted(p, g, Replay(p, g), r.block, 3, 0);
      AcceptedThenExtended(p, g, r.block);
      AcceptedThenExtended(p, g, Bodies.Twin(r.block, 1));
      assert g + [r.block] == [Genesis(p), r.block];
      assert g + [Bodies.Twin(r.block, 1)] == [Genesis(p), Bodies.Twin(r.block, 1)];
    }
  }

  // ---- A block in another's name ------------------------------------------------------------

  ghost function PlainBlock(p: Primitives, id: Identity, now1: int, now2: int): Proposed {
    Proposal(p, id, Tip([Genesis(p)]), Replay(p, [Genesis(p)]), [], false, now1, now2)
  }

  /** An accepted chain whose block names one node as its proposer and is signed with another's key. */
  lemma SignedByAnother(p: Primitives, id: Identity, priv: Bytes, now1: int, now2: int)
    requires Sound(p) && GoodIdentity(p, id) && p.nodeID(p.edPublic(priv)) != id.nodeID
    ensures var r := PlainBlock(p, id, now1, now2);
      r.Sealed? &&
      var b := r.block.(header := Bodies.SignedBy(p, r.block.header, priv));
      (p.blockSize(r.block) <= MAX_BLOCK_BYTES && p.blockSize(b) <= MAX_BLOCK_BYTES ==>
        && AcceptedChain(p, [Genesis(p), b]) && b.header.proposer == id.nodeID
        && !Bodies.NamesItsSigner(p, b.header))
  {
    hide Genesis, AcceptedChain, Judge, HashHex, Replay, Proposal, Bodies.SignedBy, Bodies.NamesItsSigner;
    GenesisAccepted(p);
    GenesisProposal(p, id, [], false, now1, now2);
    var g, r := [Genesis(p)], PlainBlock(p, id, now1, now2);
    ProposerOf(p, id, now1, now2);
    var h := r.block.header;
    assert h.(txCount := h.txCount) == h;
    var b := r.block.(header := Bodies.SignedBy(p, h, priv));
    if p.blockSize(r.block) <= MAX_BLOCK_BYTES && p.blockSize(b) <= MAX_BLOCK_BYTES {
      SelfAcceptance(p, id, g, Replay(p, g), [], false, now1, now2);
      assert Harmless(p, id, Replay(p, g), [], 1);
      hide PlainBlock;
      Bodies.AnySignerIsAccepted(p, g, Replay(p, g), r.block, h.txCount, priv);
      AcceptedThenExtended(p, g, b);
      assert g + [b] == [Genesis(p), b];
    }
  }

  lemma ProposerOf(p: Primitives, id: Identity, now1: int, now2: int)
    ensures PlainBlock(p, id, now1, now2).Sealed? ==>
      PlainBlock(p, id, now1, now2).block.header.proposer == id.nodeID
  {
    hide Proposal, Genesis, Replay, Front, Kept, Denied, HashHex, ProposalSlot, ProposalTime, Merkle.Root;
    SealedAnatomy(p, id, Tip([Genesis(p)]), Replay(p, [Genesis(p)]), [], false, now1, now2);
  }
}
