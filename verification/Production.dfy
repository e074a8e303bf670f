/** What is in a block that a node seals, spelled out on its inputs: who may seal, the slot and the time,
    the producer's own transactions, and which of the pending ones (internal/chain/engine.go:354-463). */
module Production {
  import opened Base
  import opened Types
  import opened Ledgers
  import opened Commitment
  import opened Election
  import opened Consensus
  import opened Stutter
  import opened Proposing
  import opened Acceptance
  import Effects
  import Merkle

  // ---- Slot and time ------------------------------------------------------------------------

  /** The slot of the clock if that is past the tip's, otherwise the one after the tip's. */
  lemma SlotOfProposal(prevSlot: u64, now: int)
    requires prevSlot < TWO64 - 1
    ensures SlotAtTime(now) > prevSlot ==> ProposalSlot(prevSlot, now) == SlotAtTime(now)
    ensures SlotAtTime(now) <= prevSlot ==> ProposalSlot(prevSlot, now) == prevSlot + 1
    ensures ProposalSlot(prevSlot, now) > prevSlot
  {
    hide SlotAtTime;
  }

  /** The clock itself while it is in the slot, a second into the slot before it, five minutes into the slot
      after it. */
  lemma TimeOfProposal(slot: u64, now: int)
    ensures var start, micro := SlotStartTime(slot), UnixMicro(ProposalTime(slot, now));
      && (start <= now < start + 600_000_000_000 ==> micro == now / 1000)
      && (now < start ==> micro == (start + 1_000_000_000) / 1000)
      && (now >= start + 600_000_000_000 ==> micro == (start + 300_000_000_000) / 1000)
  {
    TimeFits(ProposalTime(slot, now));
    hide UnixMicro;
  }

  // ---- The producer's own transactions ------------------------------------------------------

  /** The activation that a node signs for itself. */
  function OwnActivation(p: Primitives, id: Identity, nonce: u64): Transaction {
    var data := p.encodeActivate(ActivateData(id.edPub));
    Transaction(Activate, id.nodeID, id.edPub, nonce, 0, data,
                p.base64(p.edSign(id.priv, p.txJson(TxCore(Activate, id.nodeID, id.edPub, nonce, 0, data)))))
  }

  lemma RewardLedger(p: Primitives, id: Identity, l: Ledger, height: u64, slot: u64)
    requires Sound(p)
    ensures var r := ApplyTxs(p, l, Reward(p, id, l, height, slot), height);
      r.err.None? && Get(r.ledger, id.nodeID) == Get(l, id.nodeID).(balance := Get(r.ledger, id.nodeID).balance)
  {
    if BlockReward(height) > 0 {
      var cb := CoinbaseFor(p, id, l, height, slot);
      assert p.decodeCoinbase(cb.data) == Some(CoinbaseData(CoinbaseDue(l, height), height, slot));
      hide BlockReward;
      Effects.CoinbaseEffect(p, l, cb, height);
      assert [cb][..0] == [];
    }
  }

  lemma ActivationSucceeds(p: Primitives, id: Identity, l: Ledger, m: Ledger, height: u64)
    requires Sound(p) && GoodIdentity(p, id)
    requires Get(m, id.nodeID) == Get(l, id.nodeID).(balance := Get(m, id.nodeID).balance)
    ensures var act := ActivationFor(p, id, Get(l, id.nodeID).nonce);
      && act == OwnActivation(p, id, Get(l, id.nodeID).nonce)
      && (ApplyTx(p, m, act, height).err.None? <==> height <= 32 || Get(l, id.nodeID).stake >= 50)
  {
    var act := ActivationFor(p, id, Get(l, id.nodeID).nonce);
    assert p.decodeActivate(act.data) == Some(ActivateData(id.edPub));
    ActivationVerifies(p, id, Get(l, id.nodeID).nonce);
    VerifiesIff(p, act);
    hide Sound, GoodIdentity, SignedBySender, TxVerifies, ApplyTx;
    Effects.ActivateEffect(p, m, act, height);
  }

  /** While the schedule pays anything, a coinbase for what is due, to the producer; then, if the producer
      is not a validator yet and the block is an early one or its stake suffices, its activation. */
  lemma FrontIs(p: Primitives, id: Identity, l: Ledger, height: u64, slot: u64)
    requires Sound(p) && GoodIdentity(p, id)
    ensures var me := Get(l, id.nodeID);
      var data := p.encodeCoinbase(CoinbaseData(Min(BlockReward(height), l.pool), height, slot));
      Front(p, id, l, height, slot) ==
        (if BlockReward(height) > 0 then [Transaction(Coinbase, id.nodeID, id.edPub, 0, 0, data, [])] else [])
        + (if !me.active && (height <= 32 || me.stake >= 50) then [OwnActivation(p, id, me.nonce)] else [])
  {
    RewardLedger(p, id, l, height, slot);
    var m := ApplyTxs(p, l, Reward(p, id, l, height, slot), height).ledger;
    ActivationSucceeds(p, id, l, m, height);
    hide Sound, GoodIdentity, ApplyTx, ApplyTxs, ActivationFor, OwnActivation, BlockReward;
  }

  // ---- Which pending transactions get in ----------------------------------------------------

  /** Pending transaction i meets the ledger that the first at[i] transactions of the body lead to: if it
      applies there, it is the next one of the body, otherwise it is left out. */
  predicate Decided(p: Primitives, l: Ledger, body: seq<Transaction>, peeked: seq<Transaction>, height: u64,
                    at: seq<nat>, i: nat)
    requires i < |peeked| && |at| == |peeked| + 1
  {
    at[i] <= |body| &&
    if ApplyTx(p, ApplyTxs(p, l, body[..at[i]], height).ledger, peeked[i], height).err.None?
    then at[i] < |body| && body[at[i]] == peeked[i] && at[i + 1] == at[i] + 1
    else at[i + 1] == at[i]
  }

  lemma DecidedStays(p: Primitives, l: Ledger, body: seq<Transaction>, more: seq<Transaction>,
                     peeked: seq<Transaction>, tx: Transaction, height: u64, at: seq<nat>, last: nat, i: nat)
    requires i < |peeked| && |at| == |peeked| + 1 && Decided(p, l, body, peeked, height, at, i)
    ensures Decided(p, l, body + more, peeked + [tx], height, at + [last], i)
  {
    hide ApplyTx, ApplyTxs;
    assert (body + more)[..at[i]] == body[..at[i]];
  }

  /** The scratch ledger decides like the ledger that the body so far leads to. */
  lemma SameDecision(p: Primitives, l: Ledger, front: seq<Transaction>, m: Ledger, init: seq<Transaction>,
                     tx: Transaction, height: u64)
    requires ApplyTxs(p, l, front, height).err.None? && Equivalent(m, ApplyTxs(p, l, front, height).ledger)
    ensures var r := Sieve(p, m, init, height);
      ApplyTx(p, ApplyTxs(p, l, front + r.kept, height).ledger, tx, height).err == ApplyTx(p, r.ledger, tx, height).err
  {
    hide ApplyTx, ApplyTxs, Equivalent, Sieve;
    var r := Sieve(p, m, init, height);
    var l' := ApplyTxs(p, l, front, height).ledger;
    KeptApplies(p, m, l', init, height);
    ApplyTxsAppend(p, l, front, r.kept, height);
    ApplyTxRespects(p, r.ledger, ApplyTxs(p, l', r.kept, height).ledger, tx, height);
  }

  /** Filtering on an equivalent scratch ledger decides in this way. */
  lemma {:induction false} SieveDecides(p: Primitives, l: Ledger, front: seq<Transaction>, m: Ledger,
                                        peeked: seq<Transaction>, height: u64) returns (at: seq<nat>)
    requires ApplyTxs(p, l, front, height).err.None? && Equivalent(m, ApplyTxs(p, l, front, height).ledger)
    ensures var body := front + Sieve(p, m, peeked, height).kept;
      && |at| == |peeked| + 1 && at[0] == |front| && at[|peeked|] == |body|
      && forall i :: 0 <= i < |peeked| ==> Decided(p, l, body, peeked, height, at, i)
    decreases |peeked|
  {
    hide ApplyTx, ApplyTxs, Equivalent;
    if peeked == [] {
      at := [|front|];
    } else {
      var n := |peeked| - 1;
      var init, tx := peeked[..n], peeked[n];
      var before := SieveDecides(p, l, front, m, init, height);
      SameDecision(p, l, front, m, init, tx, height);
      var body := front + Sieve(p, m, init, height).kept;
      var more := if ApplyTx(p, Sieve(p, m, init, height).ledger, tx, height).err.None? then [tx] else [];
      assert front + Sieve(p, m, peeked, height).kept == body + more && peeked == init + [tx];
      hide Sieve;
      at := before + [|body + more|];
      forall i | 0 <= i < n ensures Decided(p, l, body + more, peeked, height, at, i) {
        DecidedStays(p, l, body, more, init, tx, height, before, |body + more|, i);
      }
      assert (body + more)[..|body|] == body;
      assert Decided(p, l, body + more, peeked, height, at, n);
    }
  }

  // ---- The sealed block ---------------------------------------------------------------------

  /** Its header, field by field. */
  lemma SealedHeader(p: Primitives, id: Identity, tip: Option<Header>, l: Ledger, peeked: seq<Transaction>,
                     force: bool, now1: int, now2: int)
    ensures var r := Proposal(p, id, tip, l, peeked, force, now1, now2);
      r.Sealed? ==> var h := r.block.header;
      && h.version == 3
      && h.prevBlock == (if tip.None? then ZERO_HASH else HashHex(p, tip.value))
      && h.height == (if tip.None? then 1 else Add64(tip.value.height, 1))
      && h.slot == ProposalSlot(if tip.None? then 0 else tip.value.slot, now1)
      && h.timestamp == UnixMicro(ProposalTime(h.slot, now2))
      && h.merkleRoot == Merkle.RootOfTxs(p, r.block.txs) && h.txCount == |r.block.txs| % 0x1_0000_0000
      && h.proposer == id.nodeID && h.minerID == id.nodeID && h.powHash == []
      && h.proposerPub == p.base64(p.edPublic(id.priv))
      && h.proposerSig == p.base64(p.edSign(id.priv, p.sha256(p.headerJson(HeaderCore(
           h.version, h.prevBlock, h.merkleRoot, h.stateRoot, h.timestamp, h.height, h.slot, h.proposer, id.edPub,
           h.txCount)))))
  {
    hide ApplyTxs, Front, Sieve, SelectProposer, Root, ApplyBlock, ProposalSlot, ProposalTime, HashHex, UnixMicro;
    hide Merkle.RootOfTxs, Denied;
  }

  /** Its body: the producer's own transactions, then, of the pending ones in their order, exactly those that
      apply on what comes before them in the block. */
  lemma SealedBody(p: Primitives, id: Identity, tip: Option<Header>, l: Ledger, peeked: seq<Transaction>,
                   force: bool, now1: int, now2: int) returns (at: seq<nat>)
    requires Sound(p) && GoodIdentity(p, id) && Proposal(p, id, tip, l, peeked, force, now1, now2).Sealed?
    ensures var b, me := Proposal(p, id, tip, l, peeked, force, now1, now2).block, Get(l, id.nodeID);
      var height, slot := b.header.height, b.header.slot;
      var data := p.encodeCoinbase(CoinbaseData(Min(BlockReward(height), l.pool), height, slot));
      var front :=
        (if BlockReward(height) > 0 then [Transaction(Coinbase, id.nodeID, id.edPub, 0, 0, data, [])] else [])
        + (if !me.active && (height <= 32 || me.stake >= 50) then [OwnActivation(p, id, me.nonce)] else []);
      && |at| == |peeked| + 1 && at[0] == |front| <= |b.txs| == at[|peeked|] && b.txs[..|front|] == front
      && forall i :: 0 <= i < |peeked| ==> Decided(p, l, b.txs, peeked, height, at, i)
  {
    hide Proposal;
    SealedAnatomy(p, id, tip, l, peeked, force, now1, now2);
    hide ApplyTx, ApplyTxs, Sieve, Denied, HashHex, ProposalSlot, ProposalTime, Sound, GoodIdentity, BlockReward;
    hide OwnActivation, Equivalent, Merkle.RootOfTxs, UnixMicro, SelectProposer, Decided;
    var b := Proposal(p, id, tip, l, peeked, force, now1, now2).block;
    FrontIs(p, id, l, b.header.height, b.header.slot);
    FrontApplies(p, id, l, b.header.height, b.header.slot);
    hide Front;
    var front := Front(p, id, l, b.header.height, b.header.slot);
    var l' := ApplyTxs(p, l, front, b.header.height).ledger;
    EquivalentSelf(l');
    at := SieveDecides(p, l, front, l', peeked, b.header.height);
  }

  // ---- What comes of an attempt -------------------------------------------------------------

  /** Force changes nothing for a node with an id: it is turned away exactly while somebody else is elected. */
  lemma DeniedIff(force: bool, expected: Bytes, nodeID: Bytes)
    requires nodeID != []
    ensures Denied(force, expected, nodeID) <==> expected != [] && expected != nodeID
  {
  }

  /** An attempt fails for the election exactly if somebody else is elected for the slot; otherwise there is
      nothing to propose exactly if the schedule pays nothing, no activation is due, and no pending
      transaction applies; otherwise a block is sealed. */
  lemma OutcomeOf(p: Primitives, id: Identity, tip: Option<Header>, l: Ledger, peeked: seq<Transaction>,
                  force: bool, now1: int, now2: int)
    requires Sound(p) && GoodIdentity(p, id) && l.pending == 0
    ensures var r, me := Proposal(p, id, tip, l, peeked, force, now1, now2), Get(l, id.nodeID);
      var height := if tip.None? then 1 else Add64(tip.value.height, 1);
      var slot := ProposalSlot(if tip.None? then 0 else tip.value.slot, now1);
      var elected := SelectProposer(p, l, if tip.None? then ZERO_HASH else HashHex(p, tip.value), slot);
      && (r == NotElected <==> elected != [] && elected != id.nodeID)
      && (r == Nothing <==>
            && r != NotElected && BlockReward(height) == 0
            && (me.active || (height > 32 && me.stake < 50))
            && forall i :: 0 <= i < |peeked| ==> ApplyTx(p, l, peeked[i], height).err.Some?)
      && (r.Sealed? <==> r != NotElected && r != Nothing)
  {
    var height, slot := NextHeight(tip), ProposalSlot(PrevSlot(tip), now1);
    var elected := SelectProposer(p, l, PrevHash(p, tip), slot);
    ProposalNeverRefused(p, id, tip, l, peeked, force, now1, now2);
    DeniedIff(force, elected, id.nodeID);
    FrontIs(p, id, l, height, slot);
    RewardsAreNatural(height);
    FrontNothing(p, l, height);
    SieveEmpty(p, l, peeked, height);
    hide ApplyTx, ApplyTxs, Sieve, Denied, HashHex, Sound, GoodIdentity, BlockReward, Front, SelectProposer;
    hide OwnActivation, Equivalent, ApplyBlock, Root, Draft, Seal, ProposalSlot, ProposalTime;
  }
}
