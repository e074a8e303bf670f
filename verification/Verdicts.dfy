/** The verdict on a block, spelled out on the block, the tip and the tip's ledger
    (internal/chain/engine.go:307-333, consensus.go:9-93, pos.go:57-98). */
module Verdicts {
  import opened Base
  import opened Types
  import opened Ledgers
  import opened Commitment
  import opened Election
  import opened Consensus
  import Chain
  import Merkle

  // ---- The single checks --------------------------------------------------------------------

  /** The ten hashed fields of a header, as the hash and the signature take them. */
  function HashedFields(h: Header): HeaderCore {
    HeaderCore(h.version, h.prevBlock, h.merkleRoot, h.stateRoot, h.timestamp, h.height, h.slot, h.proposer,
               h.proposerPub, h.txCount)
  }

  /** A header is signed if the 32-byte key it carries verifies the signature it carries over the hash of
      its ten fields. */
  lemma SignedIff(p: Primitives, h: Header)
    ensures ProposerSigned(p, h) <==>
      && h.proposerPub != [] && h.proposerSig != []
      && exists pub, sig ::
           && p.base64Decode(h.proposerPub) == Some(pub) && |pub| == 32
           && p.base64Decode(h.proposerSig) == Some(sig)
           && p.edVerify(pub, p.sha256(p.headerJson(HashedFields(h))), sig)
  {
  }

  /** The timestamp is at most ten minutes before the slot and at most ten minutes after its end. */
  lemma WindowIff(h: Header)
    ensures InSlotWindow(h) <==>
      SlotStartTime(h.slot) - 600_000_000_000 <= h.timestamp * 1000 <= SlotStartTime(h.slot) + 1_200_000_000_000
    ensures h.slot <= 15_372_286 ==>
      (InSlotWindow(h) <==>
        NETWORK_GENESIS_NS + 600_000_000_000 * (h.slot - 1) <= h.timestamp * 1000
          <= NETWORK_GENESIS_NS + 600_000_000_000 * (h.slot + 2))
  {
    SlotsFromGenesis(0, h.slot);
  }

  /** The header carries a good signature under the key it carries, and a timestamp in its slot's window. */
  ghost predicate SealedInTime(p: Primitives, h: Header) {
    && SlotStartTime(h.slot) - SLOT_NS <= h.timestamp * 1000 <= SlotStartTime(h.slot) + 2 * SLOT_NS
    && exists pub, sig ::
         && p.base64Decode(h.proposerPub) == Some(pub) && |pub| == 32 && p.base64Decode(h.proposerSig) == Some(sig)
         && p.edVerify(pub, p.sha256(p.headerJson(HashedFields(h))), sig)
  }

  /** A coinbase is the first transaction, decodes, asks for no more than the schedule and pays the
      proposer; it is there whenever the schedule pays something. */
  lemma CoinbaseIff(p: Primitives, b: Block)
    requires b.header.height > 0 && b.header.proposer != []
    ensures CoinbaseOK(p, b) <==>
      && (BlockReward(b.header.height) > 0 ==> exists i :: 0 <= i < |b.txs| && b.txs[i].kind.Coinbase?)
      && (forall i :: 0 <= i < |b.txs| && b.txs[i].kind.Coinbase? ==>
            && i == 0 && p.decodeCoinbase(b.txs[i].data).Some?
            && p.decodeCoinbase(b.txs[i].data).value.amount <= BlockReward(b.header.height)
            && b.txs[i].sender == b.header.proposer)
  {
    hide BlockReward;
  }

  // ---- The whole verdict --------------------------------------------------------------------

  /** A block is passed over if it is below the tip or is the tip. Otherwise the first of these that is not
      so decides what it is refused for: its size, its Merkle root, its link, its height, its slot and
      timestamp, its signature, its proposer, its coinbase, its transactions, its state root. */
  lemma VerdictOf(p: Primitives, chain: seq<Block>, l: Ledger, b: Block)
    requires chain != []
    ensures var h, tip := b.header, chain[|chain| - 1].header;
      var tipHash := Hex(p.sha256(p.headerJson(HashedFields(tip))));
      var elected := SelectProposer(p, l, tipHash, h.slot);
      var start, r := SlotStartTime(h.slot), ApplyBlock(p, l, b);
      Judge(p, chain, l, b) ==
        if h.height < tip.height
           || (h.height == tip.height && Hex(p.sha256(p.headerJson(HashedFields(h)))) == tipHash) then Ignore
        else if p.blockSize(b) > 1_048_576 then Reject(BlockTooLarge)
        else if h.merkleRoot != Merkle.RootOfTxs(p, b.txs) then Reject(BadMerkle)
        else if h.prevBlock != tipHash then Reject(BadPrev)
        else if h.height != tip.height + 1 then Reject(BadHeight)
        else if h.slot < tip.slot then Reject(BadSlot)
        else if h.timestamp * 1000 < start - SLOT_NS || h.timestamp * 1000 > start + 2 * SLOT_NS then Reject(BadSlot)
        else if h.proposerPub == [] || h.proposerSig == [] || !exists pub, sig ::
                  && p.base64Decode(h.proposerPub) == Some(pub) && |pub| == 32
                  && p.base64Decode(h.proposerSig) == Some(sig)
                  && p.edVerify(pub, p.sha256(p.headerJson(HashedFields(h))), sig) then Reject(BadProposer)
        else if h.proposer == [] || (elected != [] && elected != h.proposer) then Reject(BadProposer)
        else if !CoinbaseOK(p, b) then Reject(BadCoinbase)
        else if r.err.Some? then Reject(r.err.value)
        else if h.stateRoot != Root(p, r.ledger) then Reject(BadState)
        else Extend
  {
    hide ApplyBlock, Root, CoinbaseOK, ProposerSigned, SelectProposer, SlotStartTime, Merkle.RootOfTxs, IsGenesis;
    SignedIff(p, b.header);
    hide Hex;
  }

  lemma NamedVerdict(p: Primitives, chain: seq<Block>, l: Ledger, b: Block)
    requires chain != []
    ensures var h, tip := b.header, chain[|chain| - 1].header;
      Judge(p, chain, l, b).Extend? <==>
        && p.blockSize(b) <= MAX_BLOCK_BYTES
        && h.merkleRoot == Merkle.RootOfTxs(p, b.txs)
        && h.prevBlock == HashHex(p, tip) && h.height == tip.height + 1 && h.slot >= tip.slot
        && InSlotWindow(h) && ProposerSigned(p, h)
        && h.proposer != [] && SelectProposer(p, l, HashHex(p, tip), h.slot) in [[], h.proposer]
        && CoinbaseOK(p, b) && ApplyBlock(p, l, b).err.None? && h.stateRoot == Root(p, ApplyBlock(p, l, b).ledger)
  {
    hide ApplyBlock, Root, CoinbaseOK, ProposerSigned, SelectProposer, InSlotWindow, Merkle.RootOfTxs, IsGenesis;
    hide HashHex;
  }

  /** A block extends a chain exactly if all of it is in order. */
  lemma ExtendIff(p: Primitives, chain: seq<Block>, l: Ledger, b: Block)
    requires chain != []
    ensures var h, tip := b.header, chain[|chain| - 1].header;
      var tipHash := Hex(p.sha256(p.headerJson(HashedFields(tip))));
      Judge(p, chain, l, b).Extend? <==>
        && p.blockSize(b) <= 1_048_576
        && h.merkleRoot == Merkle.RootOfTxs(p, b.txs)
        && h.prevBlock == tipHash && h.height == tip.height + 1 && h.slot >= tip.slot
        && SlotStartTime(h.slot) - SLOT_NS <= h.timestamp * 1000 <= SlotStartTime(h.slot) + 2 * SLOT_NS
        && h.proposerPub != [] && h.proposerSig != []
        && (exists pub, sig ::
              && p.base64Decode(h.proposerPub) == Some(pub) && |pub| == 32
              && p.base64Decode(h.proposerSig) == Some(sig)
              && p.edVerify(pub, p.sha256(p.headerJson(HashedFields(h))), sig))
        && h.proposer != [] && SelectProposer(p, l, tipHash, h.slot) in [[], h.proposer]
        && (BlockReward(h.height) > 0 ==> exists i :: 0 <= i < |b.txs| && b.txs[i].kind.Coinbase?)
        && (forall i :: 0 <= i < |b.txs| && b.txs[i].kind.Coinbase? ==>
              && i == 0 && p.decodeCoinbase(b.txs[i].data).Some?
              && p.decodeCoinbase(b.txs[i].data).value.amount <= BlockReward(h.height)
              && b.txs[i].sender == h.proposer)
        && ApplyBlock(p, l, b).err.None?
        && h.stateRoot == Root(p, ApplyBlock(p, l, b).ledger)
  {
    NamedVerdict(p, chain, l, b);
    SignedIff(p, b.header);
    hide Judge, ApplyBlock, Root, CoinbaseOK, SelectProposer, SlotStartTime, Merkle.RootOfTxs, Hex, BlockReward;
    hide ProposerSigned;
    if b.header.height > 0 && b.header.proposer != [] {
      CoinbaseIff(p, b);
    }
  }

  // ---- Genesis ------------------------------------------------------------------------------

  /** The first block: version 3, no predecessor, the birth of the network, slot and height zero, proposed
      by nobody, with the parameters and the alert key as its two transactions, and the root of a ledger
      with the whole pool and no accounts. */
  lemma GenesisFields(p: Primitives)
    requires Sound(p)
    ensures var g := Genesis(p);
      && HashedFields(g.header) == HeaderCore(
           3, Ascii("0000000000000000000000000000000000000000000000000000000000000000"), Merkle.RootOfTxs(p, g.txs),
           Root(p, Ledger(map[], 4_200_000, 0, [], 0, {})), NETWORK_GENESIS_NS / 1000, 0, 0,
           Ascii("network-genesis"), [], 2)
      && |g.txs| == 2 && g.txs[0].kind.NetworkParams? && g.txs[1].kind.InitAlert? && g.txs[1].data == p.alertKeyData
      && p.decodeParams(g.txs[0].data) == Some(ParamsData(Ascii("msp-mainnet-2"), Ascii("mainnet"), false))
  {
    hide ApplyBlock, Root, HashHex;
    GenesisBodyApplies(p, GenesisDraft(p));
    RootIgnoresTip(p, ApplyBlock(p, NEW_LEDGER, GenesisDraft(p)).ledger, Ledger(map[], 4_200_000, 0, [], 0, {}));
  }

  /** A block passes for genesis exactly if its ten hashed fields are those of genesis, barring a collision. */
  lemma GenesisIff(p: Primitives, b: Block)
    requires JsonInjective(p)
    requires var g := Genesis(p).header;
      NoCollision(p.sha256, {p.headerJson(HashedFields(b.header)), p.headerJson(HashedFields(g))})
    ensures IsGenesis(p, b) <==> HashedFields(b.header) == HashedFields(Genesis(p).header)
  {
    var g := Genesis(p).header;
    assert g.height == 0;
    hide Genesis;
    var s := {p.headerJson(HashedFields(b.header)), p.headerJson(HashedFields(g))};
    assert HashedFields(b.header) == b.header.Core() && HashedFields(g) == g.Core();
    if HashHex(p, b.header) == HashHex(p, g) {
      Chain.SameHashSameCore(s, p, b.header, g);
    }
  }

  // ---- Along chains -------------------------------------------------------------------------

  lemma Extends(p: Primitives, chain: seq<Block>, i: nat)
    requires AcceptedChain(p, chain) && 0 < i < |chain|
    ensures Judge(p, chain[..i], Replay(p, chain[..i]), chain[i]).Extend? && chain[..i] != []
  {
    assert Fitting(p, chain, i);
    hide Judge, Replay, AcceptedChain;
  }

  /** Every block of an accepted chain after genesis carries a key and a signature of its hash that is good
      under that key, has its timestamp within ten minutes of its slot, and names as proposer whoever the
      ledger before it elects -- or anybody, if that elects nobody. */
  lemma BlocksAreSealed(p: Primitives, chain: seq<Block>, i: nat) returns (pub: Bytes, sig: Bytes)
    requires AcceptedChain(p, chain) && 0 < i < |chain|
    ensures var h := chain[i].header;
      && p.base64Decode(h.proposerPub) == Some(pub) && |pub| == 32 && p.base64Decode(h.proposerSig) == Some(sig)
      && p.edVerify(pub, p.sha256(p.headerJson(HashedFields(h))), sig)
      && SlotStartTime(h.slot) - SLOT_NS <= h.timestamp * 1000 <= SlotStartTime(h.slot) + 2 * SLOT_NS
      && h.proposer != []
      && SelectProposer(p, Replay(p, chain[..i]), HashHex(p, chain[i - 1].header), h.slot) in [[], h.proposer]
  {
    Extends(p, chain, i);
    var h := chain[i].header;
    NamedVerdict(p, chain[..i], Replay(p, chain[..i]), chain[i]);
    SignedIff(p, h);
    hide AcceptedChain, Judge, ApplyBlock, Root, SelectProposer, SlotStartTime, Merkle.RootOfTxs, Hex, HashHex;
    hide Replay, ProposerSigned, CoinbaseOK;
    assert chain[..i][i - 1] == chain[i - 1];
    pub, sig :| p.base64Decode(h.proposerPub) == Some(pub) && |pub| == 32 && p.base64Decode(h.proposerSig) == Some(sig)
      && p.edVerify(pub, p.sha256(p.headerJson(HashedFields(h))), sig);
  }
}
