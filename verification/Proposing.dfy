/** The block producer (internal/chain/engine.go:352-476): what it builds, and that what it builds is
    exactly what the acceptance rules let through. */
module Proposing {
  import opened Base
  import opened Types
  import opened Ledgers
  import opened Commitment
  import opened Election
  import opened Consensus
  import opened Stutter
  import Merkle

  datatype Proposed =
    | Sealed(block: Block) | NotElected | Nothing | FrontRefused(error: BlockError) | BodyRefused(error: BlockError)

  // ---- Slot and timestamp -------------------------------------------------------------------

  /** The slot of the wall clock, or the one after the tip's when the clock is not past it. */
  function ProposalSlot(prevSlot: u64, now: int): u64 {
    if SlotAtTime(now) <= prevSlot then Add64(prevSlot, 1) else SlotAtTime(now)
  }

  /** An instant inside the slot: the clock if it is there, one second into the slot if the clock is
      early, the middle of the slot if it is late. */
  function ProposalTime(slot: u64, now: int): int {
    var start := SlotStartTime(slot);
    var t := if now < start then start + SECOND_NS else now;
    if t < start + SLOT_NS then t else start + SLOT_NS / 2
  }

  function UnixMicro(t: int): i64 { WrapSigned(t / 1000) }

  // ---- Body ---------------------------------------------------------------------------------

  function CoinbaseFor(p: Primitives, id: Identity, l: Ledger, height: u64, slot: u64): Transaction {
    Transaction(Coinbase, id.nodeID, id.edPub, 0, 0,
                p.encodeCoinbase(CoinbaseData(CoinbaseDue(l, height), height, slot)), [])
  }

  function ActivationFor(p: Primitives, id: Identity, nonce: u64): Transaction {
    var tx := Transaction(Activate, id.nodeID, id.edPub, nonce, 0, p.encodeActivate(ActivateData(id.edPub)), []);
    tx.(signature := p.base64(p.edSign(id.priv, p.txJson(tx.Core()))))
  }

  function Reward(p: Primitives, id: Identity, l: Ledger, height: u64, slot: u64): seq<Transaction> {
    if BlockReward(height) > 0 then [CoinbaseFor(p, id, l, height, slot)] else []
  }

  /** The proposer's own transactions: the coinbase, and an activation if it is not active yet and the
      activation would succeed. */
  function Front(p: Primitives, id: Identity, l: Ledger, height: u64, slot: u64): seq<Transaction> {
    var front := Reward(p, id, l, height, slot);
    var act := ActivationFor(p, id, Get(l, id.nodeID).nonce);
    if !Get(l, id.nodeID).active && ApplyTx(p, ApplyTxs(p, l, front, height).ledger, act, height).err.None?
    then front + [act] else front
  }

  /** What is kept of the mempool. */
  function Kept(p: Primitives, id: Identity, l: Ledger, peeked: seq<Transaction>, height: u64, slot: u64)
    : seq<Transaction>
  {
    Sieve(p, ApplyTxs(p, l, Front(p, id, l, height, slot), height).ledger, peeked, height).kept
  }

  // ---- Block --------------------------------------------------------------------------------

  function Draft(p: Primitives, id: Identity, prevHash: Bytes, height: u64, slot: u64, time: int,
                 body: seq<Transaction>): Block
  {
    Block(Header(PROTOCOL_VERSION, prevHash, Merkle.RootOfTxs(p, body), [], UnixMicro(time), height, slot,
                 id.nodeID, id.edPub, |body| % 0x1_0000_0000, [], [], id.nodeID),
          body)
  }

  /** Fills in the state root and signs. The signature is made before the public key is written again. */
  function Seal(p: Primitives, id: Identity, b: Block, root: Bytes): Block {
    var h := b.header.(stateRoot := root);
    var sig := p.edSign(id.priv, p.sha256(p.headerJson(h.Core())));
    b.(header := h.(proposerSig := p.base64(sig), proposerPub := p.base64(p.edPublic(id.priv)), minerID := h.proposer))
  }

  predicate Denied(force: bool, expected: Bytes, nodeID: Bytes) {
    !Allowed(expected, nodeID) && (force ==> expected != [] && expected != nodeID)
  }

  function NextHeight(tip: Option<Header>): u64 { if tip.None? then 1 else Add64(tip.value.height, 1) }

  function PrevSlot(tip: Option<Header>): u64 { if tip.None? then 0 else tip.value.slot }

  function PrevHash(p: Primitives, tip: Option<Header>): Bytes {
    if tip.None? then ZERO_HASH else HashHex(p, tip.value)
  }

  /** ProposeOnce up to the release of the lock, for two readings of the wall clock. */
  ghost function Proposal(p: Primitives, id: Identity, tip: Option<Header>, l: Ledger, peeked: seq<Transaction>,
                          force: bool, now1: int, now2: int): Proposed
  {
    var height := NextHeight(tip);
    var slot := ProposalSlot(PrevSlot(tip), now1);
    if Denied(force, SelectProposer(p, l, PrevHash(p, tip), slot), id.nodeID) then NotElected else
    var front := Front(p, id, l, height, slot);
    var applied := ApplyTxs(p, l, front, height);
    if applied.err.Some? then FrontRefused(applied.err.value) else
    var body := front + Sieve(p, applied.ledger, peeked, height).kept;
    if body == [] then Nothing else
    var draft := Draft(p, id, PrevHash(p, tip), height, slot, ProposalTime(slot, now2), body);
    var r := ApplyBlock(p, l, draft);
    if r.err.Some? then BodyRefused(r.err.value) else
    Sealed(Seal(p, id, draft, Root(p, r.ledger)))
  }

  // ---- The body always applies --------------------------------------------------------------

  lemma RewardApplies(p: Primitives, id: Identity, l: Ledger, height: u64, slot: u64)
    requires Sound(p)
    ensures ApplyTxs(p, l, Reward(p, id, l, height, slot), height).err.None?
  {
    if BlockReward(height) > 0 {
      var cb := CoinbaseFor(p, id, l, height, slot);
      var d := CoinbaseData(CoinbaseDue(l, height), height, slot);
      assert p.decodeCoinbase(cb.data) == Some(d);
      assert ApplyTx(p, l, cb, height).err.None?;
      assert [cb][..0] == [];
    }
  }

  lemma FrontApplies(p: Primitives, id: Identity, l: Ledger, height: u64, slot: u64)
    requires Sound(p)
    ensures ApplyTxs(p, l, Front(p, id, l, height, slot), height).err.None?
  {
    RewardApplies(p, id, l, height, slot);
    hide ApplyTx, Reward, Sound, ActivationFor;
    var act := ActivationFor(p, id, Get(l, id.nodeID).nonce);
    ApplyTxsStep(p, l, Reward(p, id, l, height, slot), act, height);
  }

  /** The body filtered on the scratch ledger applies, without error, on a fresh copy. */
  lemma BodyApplies(p: Primitives, id: Identity, l: Ledger, peeked: seq<Transaction>, height: u64, slot: u64)
    requires Sound(p)
    ensures ApplyTxs(p, l, Front(p, id, l, height, slot) + Kept(p, id, l, peeked, height, slot), height).err.None?
  {
    FrontApplies(p, id, l, height, slot);
    hide ApplyTx, Front, Sound;
    var front := Front(p, id, l, height, slot);
    var l' := ApplyTxs(p, l, front, height).ledger;
    KeptApplies(p, l', l', peeked, height);
    ApplyTxsAppend(p, l, front, Kept(p, id, l, peeked, height, slot), height);
  }

  /** The two error returns of ProposeOnce after the election check are never taken. */
  lemma ProposalNeverRefused(p: Primitives, id: Identity, tip: Option<Header>, l: Ledger, peeked: seq<Transaction>,
                             force: bool, now1: int, now2: int)
    requires Sound(p) && l.pending == 0
    ensures var r := Proposal(p, id, tip, l, peeked, force, now1, now2);
      !r.FrontRefused? && !r.BodyRefused?
  {
    var height := NextHeight(tip);
    var slot := ProposalSlot(PrevSlot(tip), now1);
    FrontApplies(p, id, l, height, slot);
    BodyApplies(p, id, l, peeked, height, slot);
    hide ApplyTxs, Front, Sieve, Sound, SelectProposer, Root, Seal;
    assert l.(pending := 0) == l;
  }

  // ---- Clock --------------------------------------------------------------------------------

  /** Whatever the clock reads, the timestamp lies in the window of the slot. */
  lemma ProposalTimeInWindow(slot: u64, now: int)
    ensures var micro := UnixMicro(ProposalTime(slot, now));
      SlotStartTime(slot) - SLOT_NS <= micro * 1000 <= SlotStartTime(slot) + 2 * SLOT_NS
  {
    var start := SlotStartTime(slot);
    var t := ProposalTime(slot, now);
    assert start <= t < start + SLOT_NS;
    TimeFits(t);
    assert t == (t / 1000) * 1000 + t % 1000;
  }

  lemma TimeFits(t: int)
    requires NETWORK_GENESIS_NS - TWO63 <= t <= NETWORK_GENESIS_NS + TWO63 + SLOT_NS
    ensures UnixMicro(t) == t / 1000
  {
    var q := t / 1000;
    assert -TWO63 <= q < TWO63;
  }

  // ---- The sealed block meets every rule ----------------------------------------------------

  lemma SealedIsSigned(p: Primitives, id: Identity, b: Block, root: Bytes)
    requires Sound(p) && GoodIdentity(p, id) && b.header.proposerPub == id.edPub
    ensures ProposerSigned(p, Seal(p, id, b, root).header)
  {
    var h := b.header.(stateRoot := root);
    var m := p.sha256(p.headerJson(h.Core()));
    var sig := p.edSign(id.priv, m);
    var sealed := Seal(p, id, b, root).header;
    assert sealed.Core() == h.Core();
    assert |p.edPublic(id.priv)| == 32 && |sig| == 64;
    assert p.base64Decode(sealed.proposerPub) == Some(p.edPublic(id.priv));
    assert p.base64Decode(sealed.proposerSig) == Some(sig);
    assert p.edVerify(p.edPublic(id.priv), m, sig);
  }

  /** Sealing changes neither what the block does nor the root of the ledger it leads to. */
  lemma SealedRoot(p: Primitives, id: Identity, l: Ledger, b: Block)
    requires ApplyBlock(p, l, b).err.None? && b.header.minerID == b.header.proposer
    ensures var s := Seal(p, id, b, Root(p, ApplyBlock(p, l, b).ledger));
      ApplyBlock(p, l, s).err.None? && Root(p, ApplyBlock(p, l, s).ledger) == s.header.stateRoot
  {
    hide ApplyTxs, HashHex, Root;
    var s := Seal(p, id, b, Root(p, ApplyBlock(p, l, b).ledger));
    RootIgnoresTip(p, ApplyBlock(p, l, b).ledger, ApplyBlock(p, l, s).ledger);
  }

  /** The body of a proposal obeys the coinbase rule exactly when the filter kept no coinbase. */
  lemma BodyCoinbase(p: Primitives, id: Identity, l: Ledger, b: Block, kept: seq<Transaction>)
    requires Sound(p) && BlockReward(b.header.height) > 0 && b.header.proposer == id.nodeID
    requires b.txs == Front(p, id, l, b.header.height, b.header.slot) + kept
    ensures CoinbaseOK(p, b) <==> forall tx :: tx in kept ==> !tx.kind.Coinbase?
  {
    hide ApplyTxs, ApplyTx;
    var front := Front(p, id, l, b.header.height, b.header.slot);
    var cb := CoinbaseFor(p, id, l, b.header.height, b.header.slot);
    assert b.txs[0] == front[0] == cb && 1 <= |front| <= 2;
    var data := CoinbaseData(CoinbaseDue(l, b.header.height), b.header.height, b.header.slot);
    assert p.decodeCoinbase(cb.data) == Some(data);
    assert FirstCoinbaseOK(p, b, cb);
    forall tx | tx in kept ensures exists i :: 1 <= i < |b.txs| && b.txs[i] == tx {
      var j :| 0 <= j < |kept| && kept[j] == tx;
      assert b.txs[|front| + j] == tx;
    }
    forall i | 0 < i < |b.txs| ensures b.txs[i].kind.Coinbase? ==> b.txs[i] in kept {
      if i >= |front| {
        assert b.txs[i] == kept[i - |front|];
      }
    }
  }

  /** What a sealed proposal is made of. */
  lemma SealedAnatomy(p: Primitives, id: Identity, tip: Option<Header>, l: Ledger, peeked: seq<Transaction>,
                      force: bool, now1: int, now2: int)
    ensures var r := Proposal(p, id, tip, l, peeked, force, now1, now2);
      r.Sealed? ==> var b := r.block;
      && b.header.height == NextHeight(tip) && b.header.slot == ProposalSlot(PrevSlot(tip), now1)
      && b.header.prevBlock == PrevHash(p, tip) && b.header.proposer == id.nodeID
      && b.header.merkleRoot == Merkle.RootOfTxs(p, b.txs)
      && b.header.timestamp == UnixMicro(ProposalTime(b.header.slot, now2))
      && b.txs == Front(p, id, l, b.header.height, b.header.slot)
                + Kept(p, id, l, peeked, b.header.height, b.header.slot)
      && !Denied(force, SelectProposer(p, l, PrevHash(p, tip), b.header.slot), id.nodeID)
  {
    hide ApplyTxs, Front, Sieve, SelectProposer, Root, ApplyBlock, ProposalSlot, ProposalTime;
  }

  /** Whatever the producer seals is signed, in its slot's window, by an allowed proposer, applies, and
      carries the root of its result. */
  lemma SealedPasses(p: Primitives, id: Identity, tip: Option<Header>, l: Ledger, peeked: seq<Transaction>,
                     force: bool, now1: int, now2: int)
    requires Sound(p) && GoodIdentity(p, id)
    ensures var r := Proposal(p, id, tip, l, peeked, force, now1, now2);
      r.Sealed? ==>
        && ProposerSigned(p, r.block.header) && InSlotWindow(r.block.header)
        && MayPropose(p, l, PrevHash(p, tip), r.block.header.proposer, r.block.header.slot)
        && ApplyBlock(p, l, r.block).err.None? && Root(p, ApplyBlock(p, l, r.block).ledger) == r.block.header.stateRoot
  {
    hide SlotAtTime, SelectProposer, Root;
    if Proposal(p, id, tip, l, peeked, force, now1, now2).Sealed? {
      SealedAnatomy(p, id, tip, l, peeked, force, now1, now2);
      hide ApplyTxs, Front, Sieve, ApplyBlock, ProposalSlot, Sound, SlotStartTime, ProposerSigned, Seal, HashHex;
      var height := NextHeight(tip);
      var slot := ProposalSlot(PrevSlot(tip), now1);
      var body := Front(p, id, l, height, slot) + Kept(p, id, l, peeked, height, slot);
      var draft := Draft(p, id, PrevHash(p, tip), height, slot, ProposalTime(slot, now2), body);
      SealedIsSigned(p, id, draft, Root(p, ApplyBlock(p, l, draft).ledger));
      SealedRoot(p, id, l, draft);
      ProposalTimeInWindow(slot, now2);
    }
  }

  /** A block that passes everything else stands or falls with its size, its coinbase and its slot. */
  lemma JudgeOfPassingBlock(p: Primitives, chain: seq<Block>, l: Ledger, b: Block)
    requires chain != [] && b.header.height == Add64(Tip(chain).value.height, 1) > 0
    requires b.header.prevBlock == HashHex(p, Tip(chain).value) && b.header.proposer != []
    requires b.header.merkleRoot == Merkle.RootOfTxs(p, b.txs)
    requires ProposerSigned(p, b.header) && InSlotWindow(b.header)
    requires MayPropose(p, l, HashHex(p, Tip(chain).value), b.header.proposer, b.header.slot)
    requires ApplyBlock(p, l, b).err.None? && Root(p, ApplyBlock(p, l, b).ledger) == b.header.stateRoot
    ensures Judge(p, chain, l, b).Extend? <==>
      p.blockSize(b) <= MAX_BLOCK_BYTES && CoinbaseOK(p, b) && Tip(chain).value.slot <= b.header.slot
  {
    hide HashHex, ApplyBlock, Root, MayPropose, ProposerSigned, InSlotWindow, CoinbaseOK, Merkle.RootOfTxs, IsGenesis;
  }

  lemma SlotMovesOn(prevSlot: u64, now: int)
    ensures prevSlot <= ProposalSlot(prevSlot, now) <==> prevSlot < TWO64 - 1
  {
  }

  lemma JudgeOfSealed(p: Primitives, id: Identity, chain: seq<Block>, l: Ledger, peeked: seq<Transaction>,
                      force: bool, now1: int, now2: int)
    requires Sound(p) && GoodIdentity(p, id) && chain != [] && NextHeight(Tip(chain)) > 0
    ensures var r := Proposal(p, id, Tip(chain), l, peeked, force, now1, now2);
      r.Sealed? ==>
        (Judge(p, chain, l, r.block).Extend? <==>
          p.blockSize(r.block) <= MAX_BLOCK_BYTES && CoinbaseOK(p, r.block) && Tip(chain).value.slot < TWO64 - 1)
  {
    SealedAnatomy(p, id, Tip(chain), l, peeked, force, now1, now2);
    SealedPasses(p, id, Tip(chain), l, peeked, force, now1, now2);
    hide Proposal, Sound, HashHex, ApplyBlock, Root, ProposerSigned, InSlotWindow, Front, Kept, MayPropose, Judge;
    hide CoinbaseOK, Merkle.RootOfTxs, ProposalSlot, Denied;
    var r := Proposal(p, id, Tip(chain), l, peeked, force, now1, now2);
    if r.Sealed? {
      JudgeOfPassingBlock(p, chain, l, r.block);
      SlotMovesOn(Tip(chain).value.slot, now1);
    }
  }

  /** In the ordinary case nothing but the size is left to check: if no coinbase transaction is
      pending, the proposal is accepted. */
  lemma SelfAcceptanceWithoutPendingCoinbase(
      p: Primitives, id: Identity, chain: seq<Block>, l: Ledger, peeked: seq<Transaction>,
      force: bool, now1: int, now2: int)
    requires Sound(p) && GoodIdentity(p, id) && chain != []
    requires forall tx :: tx in peeked ==> !tx.kind.Coinbase?
    requires Tip(chain).value.slot < TWO64 - 1 && Tip(chain).value.height < TWO64 - 1
    ensures var r := Proposal(p, id, Tip(chain), l, peeked, force, now1, now2);
      r.Sealed? ==> (Judge(p, chain, l, r.block).Extend? <==> p.blockSize(r.block) <= MAX_BLOCK_BYTES)
  {
    hide Proposal, SelectProposer, SlotAtTime;
    SealedAnatomy(p, id, Tip(chain), l, peeked, force, now1, now2);
    JudgeOfSealed(p, id, chain, l, peeked, force, now1, now2);
    hide Sound, GoodIdentity, HashHex, Front, Kept, Judge, CoinbaseOK, Merkle.RootOfTxs, Denied, ProposalSlot;
    var r := Proposal(p, id, Tip(chain), l, peeked, force, now1, now2);
    if r.Sealed? {
      var b := r.block;
      NoCoinbaseKept(p, id, l, peeked, b.header.height, b.header.slot);
      PlainBodyCoinbase(p, id, l, b, Kept(p, id, l, peeked, b.header.height, b.header.slot));
    }
  }

  /** A body without a coinbase from the mempool obeys the coinbase rule, at every height. */
  lemma PlainBodyCoinbase(p: Primitives, id: Identity, l: Ledger, b: Block, kept: seq<Transaction>)
    requires Sound(p) && b.header.proposer == id.nodeID && forall tx :: tx in kept ==> !tx.kind.Coinbase?
    requires b.txs == Front(p, id, l, b.header.height, b.header.slot) + kept
    ensures CoinbaseOK(p, b)
  {
    hide Sound, Front, CoinbaseOK;
    if BlockReward(b.header.height) > 0 {
      BodyCoinbase(p, id, l, b, kept);
    } else {
      LateBodyCoinbase(p, id, l, b, kept);
    }
  }

  lemma NoCoinbaseKept(p: Primitives, id: Identity, l: Ledger, peeked: seq<Transaction>, height: u64, slot: u64)
    requires forall tx :: tx in peeked ==> !tx.kind.Coinbase?
    ensures forall tx :: tx in Kept(p, id, l, peeked, height, slot) ==> !tx.kind.Coinbase?
  {
    hide ApplyTxs, Front;
    KeptWasOffered(p, ApplyTxs(p, l, Front(p, id, l, height, slot), height).ledger, peeked, height);
  }

  /** Past the last rewarded height a proposal has no coinbase of its own. */
  lemma LateBodyCoinbase(p: Primitives, id: Identity, l: Ledger, b: Block, kept: seq<Transaction>)
    requires BlockReward(b.header.height) == 0 && forall tx :: tx in kept ==> !tx.kind.Coinbase?
    requires b.txs == Front(p, id, l, b.header.height, b.header.slot) + kept
    ensures CoinbaseOK(p, b)
  {
    hide ApplyTxs, ApplyTx;
    var front := Front(p, id, l, b.header.height, b.header.slot);
    forall i | 0 <= i < |b.txs| ensures !b.txs[i].kind.Coinbase? {
      if i >= |front| {
        assert b.txs[i] == kept[i - |front|];
      }
    }
  }

  /** A pending coinbase that asks for what is still due after the proposer's own one is kept by the
      filter. */
  lemma PendingCoinbaseIsKept(p: Primitives, id: Identity, l: Ledger, height: u64, slot: u64)
    requires Sound(p)
    ensures var after := ApplyTxs(p, l, Front(p, id, l, height, slot), height).ledger;
      var cb := CoinbaseFor(p, id, after, height, slot);
      Kept(p, id, l, [cb], height, slot) == [cb]
  {
    var after := ApplyTxs(p, l, Front(p, id, l, height, slot), height).ledger;
    hide ApplyTxs, Front;
    var cb := CoinbaseFor(p, id, after, height, slot);
    assert p.decodeCoinbase(cb.data) == Some(CoinbaseData(CoinbaseDue(after, height), height, slot));
    assert ApplyTx(p, after, cb, height).err.None?;
    assert [cb][..0] == [];
    assert Sieve(p, after, [cb], height).kept == [cb];
  }
}
