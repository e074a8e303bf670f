/** Which of its own blocks a node accepts (internal/chain/engine.go:352-476 against
    internal/chain/consensus.go:9-93): the exact condition on the mempool, at every height. */
module Acceptance {
  import opened Base
  import opened Types
  import opened Ledgers
  import opened Consensus
  import opened Stutter
  import opened Proposing
  import Chain
  import Merkle

  // ---- Coinbases in the mempool -------------------------------------------------------------

  /** A coinbase transaction that asks for `due` at this height or at none. */
  predicate Claims(p: Primitives, tx: Transaction, due: int, height: u64) {
    tx.kind.Coinbase? && p.decodeCoinbase(tx.data).Some? &&
    var d := p.decodeCoinbase(tx.data).value;
    d.amount == due && (d.height == 0 || d.height == height)
  }

  /** What is due once the proposer's own coinbase has been paid out. */
  function DueAgain(l: Ledger, height: u64): int { Min(BlockReward(height), l.pool - CoinbaseDue(l, height)) }

  predicate AllRefused(p: Primitives, l: Ledger, txs: seq<Transaction>, height: u64) {
    forall j :: 0 <= j < |txs| ==> ApplyTx(p, l, txs[j], height).err.Some?
  }

  /** The proposer puts an activation of its own into a block past the bootstrap. */
  predicate ActivatesLate(id: Identity, l: Ledger) {
    !Get(l, id.nodeID).active && Get(l, id.nodeID).stake >= MIN_STAKE
  }

  /** Entry i of the mempool would be the first transaction of the block, and pays the proposer. */
  predicate Leads(p: Primitives, id: Identity, l: Ledger, peeked: seq<Transaction>, height: u64, i: nat)
    requires i < |peeked|
  {
    !ActivatesLate(id, l) && peeked[i].sender == id.nodeID && AllRefused(p, l, peeked[..i], height)
  }

  /** The mempool holds no coinbase that would get into the block and spoil it. While rewards are paid
      none may ask for what is due after the proposer's own; later one may ask for nothing, if it leads. */
  predicate Harmless(p: Primitives, id: Identity, l: Ledger, peeked: seq<Transaction>, height: u64) {
    if BlockReward(height) > 0 then forall tx :: tx in peeked ==> !Claims(p, tx, DueAgain(l, height), height)
    else forall i :: 0 <= i < |peeked| && Claims(p, peeked[i], 0, height) ==> Leads(p, id, l, peeked, height, i)
  }

  lemma ClaimsApply(p: Primitives, l: Ledger, tx: Transaction, height: u64)
    requires tx.kind.Coinbase?
    ensures ApplyTx(p, l, tx, height).err.None? <==> Claims(p, tx, CoinbaseDue(l, height), height)
  {
  }

  lemma PoolMoves(p: Primitives, l: Ledger, tx: Transaction, height: u64)
    ensures !(tx.kind.Coinbase? && ApplyTx(p, l, tx, height).err.None?) ==>
      ApplyTx(p, l, tx, height).ledger.pool == l.pool
  {
    hide ApplyTx;
    if ApplyTx(p, l, tx, height).err.Some? {
      FailureIsStutter(p, l, tx, height);
    } else {
      Chain.ApplyTxPool(p, l, tx, height);
    }
  }

  ghost predicate HasCoinbase(txs: seq<Transaction>) { exists tx :: tx in txs && tx.kind.Coinbase? }

  ghost predicate HasClaim(p: Primitives, txs: seq<Transaction>, due: int, height: u64) {
    exists tx :: tx in txs && Claims(p, tx, due, height)
  }

  /** The filter keeps a coinbase exactly when one of those offered asks for what is due at its start. */
  lemma {:induction false} SieveCoinbase(p: Primitives, l: Ledger, txs: seq<Transaction>, height: u64)
    ensures HasCoinbase(Sieve(p, l, txs, height).kept) <==> HasClaim(p, txs, CoinbaseDue(l, height), height)
    ensures !HasCoinbase(Sieve(p, l, txs, height).kept) ==> Sieve(p, l, txs, height).ledger.pool == l.pool
  {
    hide ApplyTx, Claims;
    if txs != [] {
      var init, tx := txs[..|txs| - 1], txs[|txs| - 1];
      var r := Sieve(p, l, init, height);
      SieveCoinbase(p, l, init, height);
      assert txs == init + [tx];
      PoolMoves(p, r.ledger, tx, height);
      if tx.kind.Coinbase? {
        ClaimsApply(p, r.ledger, tx, height);
      } else {
        NotClaims(p, tx, CoinbaseDue(l, height), height);
      }
    }
  }

  lemma NotClaims(p: Primitives, tx: Transaction, due: int, height: u64)
    requires !tx.kind.Coinbase?
    ensures !Claims(p, tx, due, height)
  {
  }

  lemma FrontPool(p: Primitives, id: Identity, l: Ledger, height: u64, slot: u64)
    requires Sound(p)
    ensures ApplyTxs(p, l, Front(p, id, l, height, slot), height).ledger.pool == l.pool - CoinbaseDue(l, height)
  {
    FrontApplies(p, id, l, height, slot);
    hide ApplyTxs, ApplyTx, Sound, ActivationFor;
    ActivationKind(p, id, Get(l, id.nodeID).nonce);
    Chain.ApplyTxsPool(p, l, Front(p, id, l, height, slot), height);
  }

  lemma ActivationKind(p: Primitives, id: Identity, nonce: u64)
    ensures ActivationFor(p, id, nonce).kind.Activate?
  {
  }

  // ---- Where a transaction ends up ----------------------------------------------------------

  /** What the filter kept of a prefix stays in front, and an entry that applies comes next. */
  lemma {:induction false} SievePlaces(p: Primitives, l: Ledger, txs: seq<Transaction>, height: u64, i: nat)
    requires i < |txs|
    ensures var before, all := Sieve(p, l, txs[..i], height), Sieve(p, l, txs, height).kept;
      && |before.kept| <= |all|
      && (ApplyTx(p, before.ledger, txs[i], height).err.None? ==> |before.kept| < |all| && all[|before.kept|] == txs[i])
    decreases |txs|
  {
    hide ApplyTx;
    var n := |txs| - 1;
    if i < n {
      SievePlaces(p, l, txs[..n], height, i);
      assert txs[..n][..i] == txs[..i];
    }
  }

  /** Every kept transaction comes from an entry that applied where the filter met it. */
  lemma {:induction false} SieveOrigin(p: Primitives, l: Ledger, txs: seq<Transaction>, height: u64, m: nat)
    returns (i: nat)
    requires m < |Sieve(p, l, txs, height).kept|
    ensures i < |txs| && Sieve(p, l, txs, height).kept[m] == txs[i]
    ensures |Sieve(p, l, txs[..i], height).kept| == m
    ensures ApplyTx(p, Sieve(p, l, txs[..i], height).ledger, txs[i], height).err.None?
    decreases |txs|
  {
    hide ApplyTx;
    var n := |txs| - 1;
    var init := txs[..n];
    if m < |Sieve(p, l, init, height).kept| {
      i := SieveOrigin(p, l, init, height, m);
      assert init[..i] == txs[..i];
    } else {
      i := n;
    }
  }

  /** The filter keeps nothing exactly when every entry is refused on the ledger it starts from. */
  lemma {:induction false} SieveEmpty(p: Primitives, l: Ledger, txs: seq<Transaction>, height: u64)
    ensures Sieve(p, l, txs, height).kept == [] <==> AllRefused(p, l, txs, height)
    ensures AllRefused(p, l, txs, height) ==> Equivalent(l, Sieve(p, l, txs, height).ledger)
    decreases |txs|
  {
    hide ApplyTx, Equivalent;
    if txs == [] {
      EquivalentSelf(l);
    } else {
      var n := |txs| - 1;
      var init, tx := txs[..n], txs[n];
      var r := Sieve(p, l, init, height).ledger;
      SieveEmpty(p, l, init, height);
      assert AllRefused(p, l, txs, height) <==> AllRefused(p, l, init, height) && ApplyTx(p, l, tx, height).err.Some?;
      if AllRefused(p, l, init, height) {
        ApplyTxRespects(p, l, r, tx, height);
        if ApplyTx(p, l, tx, height).err.Some? {
          FailureIsStutter(p, r, tx, height);
          EquivalentChain(l, r, ApplyTx(p, r, tx, height).ledger);
        }
      }
    }
  }

  lemma EquivalentSelf(l: Ledger)
    ensures Equivalent(l, l)
  {
  }

  lemma EquivalentChain(a: Ledger, b: Ledger, c: Ledger)
    requires Equivalent(a, b) && Equivalent(b, c)
    ensures Equivalent(a, c)
  {
    forall k ensures Get(a, k) == Get(c, k) {
      assert Get(a, k) == Get(b, k) && Get(b, k) == Get(c, k);
    }
  }

  // ---- The coinbase rule on a proposal ------------------------------------------------------

  lemma ActivationVerifies(p: Primitives, id: Identity, nonce: u64)
    requires Sound(p) && GoodIdentity(p, id)
    ensures TxVerifies(p, ActivationFor(p, id, nonce))
  {
    var tx := ActivationFor(p, id, nonce);
    var m := p.txJson(tx.Core());
    assert |p.edPublic(id.priv)| == 32 && p.edVerify(p.edPublic(id.priv), m, p.edSign(id.priv, m));
    assert p.base64Decode(tx.senderPub) == Some(p.edPublic(id.priv));
    assert p.base64Decode(tx.signature) == Some(p.edSign(id.priv, m));
  }

  /** Past the bootstrap the producer's activation succeeds exactly when it is needed and the stake is there. */
  lemma LateFront(p: Primitives, id: Identity, l: Ledger, height: u64, slot: u64)
    requires Sound(p) && GoodIdentity(p, id) && height > BOOTSTRAP_SLOTS && BlockReward(height) == 0
    ensures Front(p, id, l, height, slot) == [] <==> !ActivatesLate(id, l)
  {
    hide TxVerifies, GoodIdentity;
    var act := ActivationFor(p, id, Get(l, id.nodeID).nonce);
    ActivationVerifies(p, id, Get(l, id.nodeID).nonce);
    assert p.decodeActivate(act.data) == Some(ActivateData(id.edPub));
    assert ApplyTxs(p, l, Reward(p, id, l, height, slot), height).ledger == l;
  }

  lemma UnrewardedIsLate(height: u64)
    requires height > 0 && BlockReward(height) == 0
    ensures height > BOOTSTRAP_SLOTS
  {
  }

  /** While rewards are paid: the body obeys the coinbase rule exactly when the mempool is harmless. */
  lemma RewardedBody(p: Primitives, id: Identity, l: Ledger, b: Block, peeked: seq<Transaction>)
    requires Sound(p) && BlockReward(b.header.height) > 0 && b.header.proposer == id.nodeID
    requires b.txs == Front(p, id, l, b.header.height, b.header.slot)
      + Kept(p, id, l, peeked, b.header.height, b.header.slot)
    ensures CoinbaseOK(p, b) <==> Harmless(p, id, l, peeked, b.header.height)
  {
    hide CoinbaseOK, Front, ApplyTxs, Sound, Claims, BlockReward;
    var h := b.header.height;
    var front := Front(p, id, l, h, b.header.slot);
    var after := ApplyTxs(p, l, front, h).ledger;
    BodyCoinbase(p, id, l, b, Kept(p, id, l, peeked, h, b.header.slot));
    FrontPool(p, id, l, h, b.header.slot);
    SieveCoinbase(p, after, peeked, h);
    assert CoinbaseDue(after, h) == DueAgain(l, h);
  }

  lemma LateClaim(p: Primitives, l: Ledger, tx: Transaction, height: u64)
    requires BlockReward(height) == 0 && tx.kind.Coinbase?
    ensures ApplyTx(p, l, tx, height).err.None? <==> Claims(p, tx, 0, height)
  {
    hide ApplyTx, BlockReward;
    ClaimsApply(p, l, tx, height);
  }

  /** Past the last reward: a coinbase in the body is in order exactly where it leads. */
  lemma LateBody(p: Primitives, id: Identity, l: Ledger, b: Block, peeked: seq<Transaction>)
    requires Sound(p) && GoodIdentity(p, id) && b.header.height > 0 && BlockReward(b.header.height) == 0
    requires b.header.proposer == id.nodeID
    requires b.txs == Front(p, id, l, b.header.height, b.header.slot)
      + Kept(p, id, l, peeked, b.header.height, b.header.slot)
    ensures CoinbaseOK(p, b) <==> Harmless(p, id, l, peeked, b.header.height)
  {
    if CoinbaseOK(p, b) {
      LateBodyOnlyIf(p, id, l, b, peeked);
    }
    if Harmless(p, id, l, peeked, b.header.height) {
      LateBodyIf(p, id, l, b, peeked);
    }
  }

  lemma LateBodyOnlyIf(p: Primitives, id: Identity, l: Ledger, b: Block, peeked: seq<Transaction>)
    requires Sound(p) && GoodIdentity(p, id) && b.header.height > 0 && BlockReward(b.header.height) == 0
    requires b.header.proposer == id.nodeID && CoinbaseOK(p, b)
    requires b.txs == Front(p, id, l, b.header.height, b.header.slot)
      + Kept(p, id, l, peeked, b.header.height, b.header.slot)
    ensures Harmless(p, id, l, peeked, b.header.height)
  {
    var h := b.header.height;
    UnrewardedIsLate(h);
    LateFront(p, id, l, h, b.header.slot);
    hide Front, ApplyTxs, ApplyTx, Sound, BlockReward, Claims;
    var front := Front(p, id, l, h, b.header.slot);
    var after := ApplyTxs(p, l, front, h).ledger;
    forall i | 0 <= i < |peeked| && Claims(p, peeked[i], 0, h) ensures Leads(p, id, l, peeked, h, i) {
      var before := Sieve(p, after, peeked[..i], h);
      ClaimKind(p, peeked[i], h);
      LateClaim(p, before.ledger, peeked[i], h);
      SievePlaces(p, after, peeked, h, i);
      assert b.txs[|front| + |before.kept|] == peeked[i];
      assert front == [] && before.kept == [];
      FrontNothing(p, l, h);
      SieveEmpty(p, l, peeked[..i], h);
    }
  }

  lemma ClaimKind(p: Primitives, tx: Transaction, height: u64)
    requires Claims(p, tx, 0, height)
    ensures tx.kind.Coinbase? && p.decodeCoinbase(tx.data).Some? && p.decodeCoinbase(tx.data).value.amount == 0
  {
  }

  lemma FrontNothing(p: Primitives, l: Ledger, height: u64)
    ensures ApplyTxs(p, l, [], height).ledger == l
  {
  }

  /** A coinbase in such a body is its first transaction, pays the proposer and asks for nothing. */
  lemma LateCoinbaseLeads(p: Primitives, id: Identity, l: Ledger, b: Block, peeked: seq<Transaction>, m: nat)
    requires Sound(p) && GoodIdentity(p, id) && b.header.height > 0 && BlockReward(b.header.height) == 0
    requires b.header.proposer == id.nodeID && Harmless(p, id, l, peeked, b.header.height)
    requires b.txs == Front(p, id, l, b.header.height, b.header.slot)
      + Kept(p, id, l, peeked, b.header.height, b.header.slot)
    requires m < |b.txs| && b.txs[m].kind.Coinbase?
    ensures m == 0 && FirstCoinbaseOK(p, b, b.txs[m])
  {
    hide Front, ApplyTxs, ApplyTx, Sound, Claims, GoodIdentity, BlockReward;
    var h := b.header.height;
    UnrewardedIsLate(h);
    LateFront(p, id, l, h, b.header.slot);
    LateFrontKinds(p, id, l, h, b.header.slot);
    var front := Front(p, id, l, h, b.header.slot);
    var after := ApplyTxs(p, l, front, h).ledger;
    assert m >= |front|;
    var i := SieveOrigin(p, after, peeked, h, m - |front|);
    LateClaim(p, Sieve(p, after, peeked[..i], h).ledger, peeked[i], h);
    ClaimKind(p, peeked[i], h);
    assert Leads(p, id, l, peeked, h, i);
    FrontNothing(p, l, h);
    SieveEmpty(p, l, peeked[..i], h);
  }

  lemma LateBodyIf(p: Primitives, id: Identity, l: Ledger, b: Block, peeked: seq<Transaction>)
    requires Sound(p) && GoodIdentity(p, id) && b.header.height > 0 && BlockReward(b.header.height) == 0
    requires b.header.proposer == id.nodeID && Harmless(p, id, l, peeked, b.header.height)
    requires b.txs == Front(p, id, l, b.header.height, b.header.slot)
      + Kept(p, id, l, peeked, b.header.height, b.header.slot)
    ensures CoinbaseOK(p, b)
  {
    hide Front, Kept, Sound, GoodIdentity, Harmless, FirstCoinbaseOK, BlockReward;
    forall m | 0 <= m < |b.txs| && b.txs[m].kind.Coinbase? ensures m == 0 && FirstCoinbaseOK(p, b, b.txs[m]) {
      LateCoinbaseLeads(p, id, l, b, peeked, m);
    }
  }

  lemma LateFrontKinds(p: Primitives, id: Identity, l: Ledger, height: u64, slot: u64)
    requires BlockReward(height) == 0
    ensures forall tx :: tx in Front(p, id, l, height, slot) ==> !tx.kind.Coinbase?
  {
    hide ApplyTxs, ApplyTx;
  }

  // ---- Self-acceptance ----------------------------------------------------------------------

  /** A node accepts the block it sealed if and only if the block is small enough, the mempool held no
      coinbase that spoils it, and neither slot nor height number ran out -- whatever the wall clock
      reads, at every height. */
  lemma SelfAcceptance(p: Primitives, id: Identity, chain: seq<Block>, l: Ledger, peeked: seq<Transaction>,
                       force: bool, now1: int, now2: int)
    requires Sound(p) && GoodIdentity(p, id) && chain != []
    ensures var r := Proposal(p, id, Tip(chain), l, peeked, force, now1, now2);
      r.Sealed? ==>
        (Judge(p, chain, l, r.block).Extend? <==>
          && p.blockSize(r.block) <= MAX_BLOCK_BYTES
          && Harmless(p, id, l, peeked, NextHeight(Tip(chain)))
          && Tip(chain).value.slot < TWO64 - 1 && Tip(chain).value.height < TWO64 - 1)
  {
    hide Proposal, SlotAtTime, Harmless;
    SealedAnatomy(p, id, Tip(chain), l, peeked, force, now1, now2);
    hide Sound, GoodIdentity, HashHex, Front, Kept, Judge, CoinbaseOK, Denied, ProposalSlot, BlockReward;
    var r := Proposal(p, id, Tip(chain), l, peeked, force, now1, now2);
    if r.Sealed? {
      if NextHeight(Tip(chain)) > 0 {
        JudgeOfSealed(p, id, chain, l, peeked, force, now1, now2);
        if BlockReward(r.block.header.height) > 0 {
          RewardedBody(p, id, l, r.block, peeked);
        } else {
          RewardsAreNatural(r.block.header.height);
          LateBody(p, id, l, r.block, peeked);
        }
      } else {
        BelowTip(p, chain, l, r.block);
      }
    }
  }

  lemma RewardsAreNatural(height: u64)
    ensures BlockReward(height) >= 0
  {
  }

  /** A block that is not above the tip never extends a chain. */
  lemma BelowTip(p: Primitives, chain: seq<Block>, l: Ledger, b: Block)
    requires chain != [] && b.header.height <= Tip(chain).value.height
    ensures !Judge(p, chain, l, b).Extend?
  {
    hide ApplyBlock, HashHex, CoinbaseOK;
  }

  /** The gap between building and accepting. A block sealed on an accepted chain extends whatever
      accepted chain has grown out of it in the meantime exactly when nothing was added, and the block
      would have been accepted at once. */
  lemma GapTheorem(p: Primitives, id: Identity, chain: seq<Block>, grown: seq<Block>, peeked: seq<Transaction>,
                   force: bool, now1: int, now2: int)
    requires Sound(p) && GoodIdentity(p, id) && AcceptedChain(p, chain) && AcceptedChain(p, grown) && chain <= grown
    ensures var r := Proposal(p, id, Tip(chain), Replay(p, chain), peeked, force, now1, now2);
      r.Sealed? ==>
        (Judge(p, grown, Replay(p, grown), r.block).Extend? <==>
          && grown == chain
          && p.blockSize(r.block) <= MAX_BLOCK_BYTES
          && Harmless(p, id, Replay(p, chain), peeked, NextHeight(Tip(chain)))
          && Tip(chain).value.slot < TWO64 - 1 && Tip(chain).value.height < TWO64 - 1)
  {
    hide Proposal, SlotAtTime, Harmless, Judge, Replay, HashHex, GoodIdentity, Sound, AcceptedChain;
    TipHeight(p, chain);
    TipHeight(p, grown);
    var l := Replay(p, chain);
    var r := Proposal(p, id, Tip(chain), l, peeked, force, now1, now2);
    SelfAcceptance(p, id, chain, l, peeked, force, now1, now2);
    if r.Sealed? && grown != chain {
      SealedHeight(p, id, Tip(chain), l, peeked, force, now1, now2);
      BelowTip(p, grown, Replay(p, grown), r.block);
    }
  }

  /** The chain has moved past the block, or already ends in it -- or the heights have run out. */
  predicate PassedOver(p: Primitives, chain: seq<Block>, grown: seq<Block>, h: Header) {
    || |grown| > |chain| + 1
    || (|grown| == |chain| + 1 && HashHex(p, h) == HashHex(p, grown[|chain|].header))
    || |chain| == TWO64
  }

  /** When a proposal that has not made it onto the chain is passed over without an error. */
  lemma GapIgnores(p: Primitives, id: Identity, chain: seq<Block>, grown: seq<Block>, peeked: seq<Transaction>,
                   force: bool, now1: int, now2: int)
    requires Sound(p) && GoodIdentity(p, id) && AcceptedChain(p, chain) && AcceptedChain(p, grown) && chain <= grown
    ensures var r := Proposal(p, id, Tip(chain), Replay(p, chain), peeked, force, now1, now2);
      r.Sealed? ==>
        (Judge(p, grown, Replay(p, grown), r.block).Ignore? <==> PassedOver(p, chain, grown, r.block.header))
  {
    hide Proposal, Judge, Replay, HashHex, GoodIdentity, Sound, AcceptedChain;
    TipHeight(p, chain);
    TipHeight(p, grown);
    var r := Proposal(p, id, Tip(chain), Replay(p, chain), peeked, force, now1, now2);
    if r.Sealed? {
      SealedHeight(p, id, Tip(chain), Replay(p, chain), peeked, force, now1, now2);
      IgnoredIffStale(p, grown, Replay(p, grown), r.block);
    }
  }

  /** Both for a block that was sealed. */
  lemma GapVerdict(p: Primitives, id: Identity, chain: seq<Block>, grown: seq<Block>, peeked: seq<Transaction>,
                   force: bool, now1: int, now2: int, b: Block)
    requires Sound(p) && GoodIdentity(p, id) && AcceptedChain(p, chain) && AcceptedChain(p, grown) && chain <= grown
    requires Proposal(p, id, Tip(chain), Replay(p, chain), peeked, force, now1, now2) == Sealed(b)
    ensures chain != [] && grown != []
    ensures Judge(p, grown, Replay(p, grown), b).Extend? <==>
      && grown == chain
      && p.blockSize(b) <= MAX_BLOCK_BYTES
      && Harmless(p, id, Replay(p, chain), peeked, NextHeight(Tip(chain)))
      && Tip(chain).value.slot < TWO64 - 1 && Tip(chain).value.height < TWO64 - 1
    ensures Judge(p, grown, Replay(p, grown), b).Ignore? <==> PassedOver(p, chain, grown, b.header)
  {
    hide Proposal, Judge, Replay, Harmless, PassedOver, GoodIdentity, Sound, AcceptedChain;
    GapTheorem(p, id, chain, grown, peeked, force, now1, now2);
    GapIgnores(p, id, chain, grown, peeked, force, now1, now2);
    TipHeight(p, chain);
    TipHeight(p, grown);
  }

  lemma IgnoredIffStale(p: Primitives, chain: seq<Block>, l: Ledger, b: Block)
    requires chain != []
    ensures Judge(p, chain, l, b).Ignore? <==> Stale(p, Tip(chain).value, b)
  {
    hide ApplyBlock, HashHex, CoinbaseOK, Validate;
  }

  lemma TipHeight(p: Primitives, chain: seq<Block>)
    requires Sound(p) && AcceptedChain(p, chain)
    ensures chain != [] && Tip(chain).value.height == |chain| - 1
  {
    Chain.ChainIsLinked(p, chain);
    hide AcceptedChain, HashHex, Sound;
    assert chain[|chain| - 1].header.height == |chain| - 1;
  }

  lemma SealedHeight(p: Primitives, id: Identity, tip: Option<Header>, l: Ledger, peeked: seq<Transaction>,
                     force: bool, now1: int, now2: int)
    ensures var r := Proposal(p, id, tip, l, peeked, force, now1, now2);
      r.Sealed? ==> r.block.header.height == NextHeight(tip)
  {
    hide Proposal;
    SealedAnatomy(p, id, tip, l, peeked, force, now1, now2);
    hide Front, Kept, Denied, HashHex, ProposalSlot, ProposalTime, Merkle.Root;
  }
}
