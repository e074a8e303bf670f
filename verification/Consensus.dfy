/** Which block may follow which chain (internal/chain/consensus.go, engine.go:307-333, genesis.go). */
module Consensus {
  import opened Base
  import opened Types
  import opened Ledgers
  import opened Commitment
  import opened Election
  import Merkle

  // ---- Genesis ------------------------------------------------------------------------------

  function GenesisTxs(p: Primitives): seq<Transaction> {
    [Transaction(NetworkParams, NETWORK_GENESIS_ID, [], 0, 0,
                 p.encodeParams(ParamsData(CHAIN_ID, NETWORK_NAME, false)), []),
     Transaction(InitAlert, NETWORK_GENESIS_ID, [], 0, 0, p.alertKeyData, [])]
  }

  /** The genesis block before its state root is filled in. */
  function GenesisDraft(p: Primitives): Block {
    Block(Header(PROTOCOL_VERSION, ZERO_HASH, Merkle.RootOfTxs(p, GenesisTxs(p)), [], NETWORK_GENESIS_NS / 1000,
                 0, 0, NETWORK_GENESIS_ID, [], 2, [], GENESIS_LABEL, NETWORK_GENESIS_ID),
          GenesisTxs(p))
  }

  ghost function Genesis(p: Primitives): Block {
    var draft := GenesisDraft(p);
    draft.(header := draft.header.(stateRoot := Root(p, ApplyBlock(p, NEW_LEDGER, draft).ledger)))
  }

  /** The frozen fingerprints are those of the block that BuildGenesis builds, as genesis.go:119 demands. */
  ghost predicate IsGenesis(p: Primitives, b: Block) {
    && b.header.height == 0
    && HashHex(p, b.header) == HashHex(p, Genesis(p).header)
    && b.header.stateRoot == Genesis(p).header.stateRoot
    && b.header.merkleRoot == Genesis(p).header.merkleRoot
  }

  lemma GenesisTxsApply(p: Primitives)
    requires Sound(p)
    ensures ApplyTxs(p, NEW_LEDGER, GenesisTxs(p), 0) == Applied(NEW_LEDGER, None)
  {
    var params, alert := GenesisTxs(p)[0], GenesisTxs(p)[1];
    assert params.data == p.encodeParams(ParamsData(CHAIN_ID, NETWORK_NAME, false));
    assert ApplyTx(p, NEW_LEDGER, params, 0) == Applied(NEW_LEDGER, None);
    assert ApplyTx(p, NEW_LEDGER, alert, 0) == Applied(NEW_LEDGER, None);
    assert [params][..0] == [];
    assert ApplyTxs(p, NEW_LEDGER, [params], 0) == Applied(NEW_LEDGER, None);
    assert GenesisTxs(p)[..1] == [params];
  }

  lemma GenesisBodyApplies(p: Primitives, b: Block)
    requires Sound(p) && b.txs == GenesisTxs(p) && b.header.height == 0
    ensures ApplyBlock(p, NEW_LEDGER, b) == Applied(NEW_LEDGER.(tip := HashHex(p, b.header)), None)
  {
    GenesisTxsApply(p);
    assert NEW_LEDGER.(pending := 0) == NEW_LEDGER;
  }

  /** The genesis block applies, changes nothing but the tip, and carries the root of what it leads to. */
  lemma GenesisApplies(p: Primitives)
    requires Sound(p)
    ensures ApplyBlock(p, NEW_LEDGER, Genesis(p)).err.None?
    ensures Replay(p, [Genesis(p)]) == NEW_LEDGER.(tip := HashHex(p, Genesis(p).header))
    ensures Genesis(p).header.stateRoot == Root(p, Replay(p, [Genesis(p)])) && Genesis(p).header.height == 0
  {
    hide ApplyBlock, Root, GenesisTxs, HashHex;
    GenesisBodyApplies(p, GenesisDraft(p));
    GenesisBodyApplies(p, Genesis(p));
    var chain := [Genesis(p)];
    assert chain[..0] == [] && Replay(p, chain[..0]) == NEW_LEDGER;
    assert Replay(p, chain) == ApplyBlock(p, NEW_LEDGER, Genesis(p)).ledger;
    RootIgnoresTip(p, ApplyBlock(p, NEW_LEDGER, GenesisDraft(p)).ledger, Replay(p, chain));
  }

  // ---- Block validation ---------------------------------------------------------------------

  /** VerifyProposerSig: the signature over the header hash is good under the header's own key. */
  predicate ProposerSigned(p: Primitives, h: Header) {
    h.proposerSig != [] && h.proposerPub != [] &&
    match DecodeKey(p, h.proposerPub)
    case None => false
    case Some(pub) =>
      match p.base64Decode(h.proposerSig)
      case None => false
      case Some(sig) => p.edVerify(pub, p.sha256(p.headerJson(h.Core())), sig)
  }

  /** The timestamp lies in the slot of the header, one slot of skew allowed on either side. */
  predicate InSlotWindow(h: Header) {
    SlotStartTime(h.slot) - SLOT_NS <= h.timestamp * 1000 <= SlotStartTime(h.slot) + 2 * SLOT_NS
  }

  /** A coinbase stands first or nowhere, is there when a reward is due, asks for no more than the
      schedule, and pays the proposer. */
  predicate CoinbaseOK(p: Primitives, b: Block) {
    b.header.height == 0 ||
    ((forall i :: 0 <= i < |b.txs| && b.txs[i].kind.Coinbase? ==> i == 0 && FirstCoinbaseOK(p, b, b.txs[i])) &&
     (BlockReward(b.header.height) > 0 ==> b.txs != [] && b.txs[0].kind.Coinbase?))
  }

  predicate FirstCoinbaseOK(p: Primitives, b: Block, tx: Transaction) {
    && p.decodeCoinbase(tx.data).Some?
    && p.decodeCoinbase(tx.data).value.amount <= BlockReward(b.header.height)
    && (tx.sender == b.header.proposer || b.header.proposer == [])
  }

  /** The counting loop of consensus.go:60-93. */
  method ValidateCoinbase(p: Primitives, b: Block) returns (ok: bool)
    ensures ok <==> CoinbaseOK(p, b)
  {
    if b.header.height == 0 { return true; }
    var want := ComputeBlockReward(b.header.height);
    var seen := 0;
    var i := 0;
    while i < |b.txs|
      invariant 0 <= i <= |b.txs|
      invariant seen == if i > 0 && b.txs[0].kind.Coinbase? then 1 else 0
      invariant forall j :: 0 <= j < i && b.txs[j].kind.Coinbase? ==> j == 0 && FirstCoinbaseOK(p, b, b.txs[j])
    {
      var tx := b.txs[i];
      if tx.kind.Coinbase? {
        seen := seen + 1;
        if seen > 1 { return false; }
        if i != 0 { return false; }
        var d := p.decodeCoinbase(tx.data);
        if d.None? { return false; }
        if d.value.amount > want { return false; }
        if tx.sender != b.header.proposer && b.header.proposer != [] { return false; }
      }
      i := i + 1;
    }
    if want > 0 && seen == 0 { return false; }
    return true;
  }

  /** ValidateBlock against the tip header and the tip ledger. */
  ghost function Validate(p: Primitives, b: Block, prev: Option<Header>, l: Ledger): Option<BlockError> {
    var h := b.header;
    if p.blockSize(b) > MAX_BLOCK_BYTES then Some(BlockTooLarge)
    else if Merkle.RootOfTxs(p, b.txs) != h.merkleRoot then Some(BadMerkle)
    else if prev.None? then
      if h.height != 0 then Some(BadHeight) else if !IsGenesis(p, b) then Some(BadGenesis) else None
    else if h.prevBlock != HashHex(p, prev.value) then Some(BadPrev)
    else if h.height != Add64(prev.value.height, 1) then Some(BadHeight)
    else if h.slot < prev.value.slot && h.height > 0 then Some(BadSlot)
    else if !InSlotWindow(h) then Some(BadSlot)
    else if !ProposerSigned(p, h) || h.proposer == [] then Some(BadProposer)
    else if !MayPropose(p, l, HashHex(p, prev.value), h.proposer, h.slot) then Some(BadProposer)
    else if !CoinbaseOK(p, b) then Some(BadCoinbase)
    else None
  }

  // ---- Chains -------------------------------------------------------------------------------

  datatype Verdict = Extend | Ignore | Reject(err: BlockError)

  function Tip(chain: seq<Block>): Option<Header> {
    if chain == [] then None else Some(chain[|chain| - 1].header)
  }

  /** A block below the tip, or the tip itself, is passed over without an error. */
  predicate Stale(p: Primitives, tip: Header, b: Block) {
    b.header.height < tip.height || (b.header.height == tip.height && HashHex(p, b.header) == HashHex(p, tip))
  }

  /** What acceptLocked decides about a block, given the chain and the tip ledger. */
  ghost function Judge(p: Primitives, chain: seq<Block>, l: Ledger, b: Block): Verdict {
    if chain != [] && Stale(p, Tip(chain).value, b) then Ignore
    else if Validate(p, b, Tip(chain), l).Some? then Reject(Validate(p, b, Tip(chain), l).value)
    else
      var r := ApplyBlock(p, l, b);
      if r.err.Some? then Reject(r.err.value)
      else if Root(p, r.ledger) != b.header.stateRoot then Reject(BadState)
      else Extend
  }

  /** Block n of the chain is genesis, or extends the blocks before it. */
  ghost predicate Fitting(p: Primitives, chain: seq<Block>, n: nat)
    requires n < |chain|
  {
    if n == 0 then chain[0] == Genesis(p)
    else Judge(p, chain[..n], Replay(p, chain[..n]), chain[n]).Extend?
  }

  /** A chain that starts with genesis and in which every later block was accepted on its prefix. */
  ghost predicate AcceptedChain(p: Primitives, chain: seq<Block>) {
    chain != [] && forall n: nat {:trigger Fitting(p, chain, n)} :: n < |chain| ==> Fitting(p, chain, n)
  }

  lemma PrefixAccepted(p: Primitives, chain: seq<Block>, n: nat)
    requires AcceptedChain(p, chain) && 0 < n <= |chain|
    ensures AcceptedChain(p, chain[..n])
  {
    hide Judge, Replay, Genesis;
    forall i: nat | i < n ensures Fitting(p, chain[..n], i) {
      assert Fitting(p, chain, i);
      assert chain[..n][..i] == chain[..i];
    }
  }

  /** The last block of an accepted chain. */
  lemma LastAccepted(p: Primitives, chain: seq<Block>)
    requires AcceptedChain(p, chain)
    ensures chain != [] && (|chain| == 1 ==> chain == [Genesis(p)])
    ensures |chain| > 1 ==>
      var init := chain[..|chain| - 1];
      AcceptedChain(p, init) && Judge(p, init, Replay(p, init), chain[|chain| - 1]).Extend?
  {
    assert Fitting(p, chain, |chain| - 1);
    hide Judge, Replay, Genesis;
    if |chain| > 1 {
      PrefixAccepted(p, chain, |chain| - 1);
    }
  }

  lemma AcceptedThenExtended(p: Primitives, chain: seq<Block>, b: Block)
    requires AcceptedChain(p, chain) && Judge(p, chain, Replay(p, chain), b).Extend?
    ensures AcceptedChain(p, chain + [b])
  {
    hide Judge, Replay, Genesis;
    forall i: nat | i < |chain + [b]| ensures Fitting(p, chain + [b], i) {
      assert (chain + [b])[..i] == chain[..i];
      if i < |chain| {
        assert Fitting(p, chain, i);
      } else {
        assert chain[..i] == chain;
      }
    }
  }
}
