/** What a header hash fixes about a block and what it leaves open: the body, the transaction count,
    and who signed (internal/chain/consensus.go:9-58, pos.go:82-98, merkle.go). */
module Bodies {
  import opened Base
  import opened Types
  import opened Ledgers
  import opened Commitment
  import opened Election
  import opened Consensus
  import opened Stutter
  import opened Chain
  import opened Nonces
  import opened ProofOfWork
  import Evidence
  import Merkle

  // ---- Two bodies for one header ------------------------------------------------------------

  /** The block with its last `run` transactions once more. */
  function Twin(b: Block, run: nat): Block
    requires run <= |b.txs|
  {
    b.(txs := b.txs + b.txs[|b.txs| - run..])
  }

  /** The last 2^d of its w times 2^d transactions are alerts, and w is odd. */
  predicate EndsInAlerts(b: Block, w: nat, d: nat) {
    && w % 2 == 1 && w >= 3 && |b.txs| == w * Pow2(d) && 0 < Pow2(d) < |b.txs|
    && forall tx :: tx in b.txs[|b.txs| - Pow2(d)..] ==> tx.kind.InitAlert?
  }

  lemma TwinRoot(p: Primitives, b: Block, w: nat, d: nat)
    requires EndsInAlerts(b, w, d)
    ensures Merkle.RootOfTxs(p, Twin(b, Pow2(d)).txs) == Merkle.RootOfTxs(p, b.txs)
  {
    hide TxID, Merkle.Root, Pow2;
    var ids := Merkle.TxIDs(p, b.txs);
    Merkle.RootIgnoresRepetition(p.sha256, ids, w, d);
    assert Merkle.TxIDs(p, Twin(b, Pow2(d)).txs) == Merkle.Repeated(ids, Pow2(d));
  }

  /** Alerts do nothing, however many there are. */
  lemma {:induction false} AlertsAreIdle(p: Primitives, l: Ledger, txs: seq<Transaction>, height: u64)
    requires forall tx :: tx in txs ==> tx.kind.InitAlert?
    ensures ApplyTxs(p, l, txs, height) == Applied(l, None)
  {
    hide ApplyTx;
    if txs != [] {
      AlertsAreIdle(p, l, txs[..|txs| - 1], height);
      AlertIsIdle(p, l, txs[|txs| - 1], height);
    }
  }

  lemma AlertIsIdle(p: Primitives, l: Ledger, tx: Transaction, height: u64)
    requires tx.kind.InitAlert?
    ensures ApplyTx(p, l, tx, height) == Applied(l, None)
  {
  }

  lemma TwinApplies(p: Primitives, l: Ledger, b: Block, run: nat)
    requires run <= |b.txs| && ApplyBlock(p, l, b).err.None?
    requires forall tx :: tx in b.txs[|b.txs| - run..] ==> tx.kind.InitAlert?
    ensures ApplyBlock(p, l, Twin(b, run)) == ApplyBlock(p, l, b)
  {
    hide ApplyTxs, HashHex;
    var tail := b.txs[|b.txs| - run..];
    AlertsAreIdle(p, ApplyTxs(p, l.(pending := 0), b.txs, b.header.height).ledger, tail, b.header.height);
    ApplyTxsAppend(p, l.(pending := 0), b.txs, tail, b.header.height);
  }

  lemma TwinCoinbase(p: Primitives, b: Block, run: nat)
    requires run < |b.txs| && forall tx :: tx in b.txs[|b.txs| - run..] ==> !tx.kind.Coinbase?
    ensures CoinbaseOK(p, Twin(b, run)) <==> CoinbaseOK(p, b)
  {
    hide FirstCoinbaseOK;
    var t, tail := Twin(b, run), b.txs[|b.txs| - run..];
    assert forall i :: 0 <= i < |b.txs| ==> t.txs[i] == b.txs[i];
    assert forall i :: |b.txs| <= i < |t.txs| ==> t.txs[i] == tail[i - |b.txs|];
    SameFirst(p, b, t);
  }

  lemma SameFirst(p: Primitives, b: Block, t: Block)
    requires b.header == t.header
    ensures forall tx :: FirstCoinbaseOK(p, b, tx) == FirstCoinbaseOK(p, t, tx)
  {
  }

  /** A tip hash does not determine the block: where a level of the Merkle tree is odd, the transactions
      under its last node may be repeated if they are alerts. Both blocks have the same header, are
      accepted, and lead to the same ledger; the transaction count of the header can be right for one of
      them only. */
  lemma TwinIsAccepted(p: Primitives, chain: seq<Block>, l: Ledger, b: Block, w: nat, d: nat)
    requires Judge(p, chain, l, b).Extend? && EndsInAlerts(b, w, d)
    requires p.blockSize(Twin(b, Pow2(d))) <= MAX_BLOCK_BYTES
    ensures Judge(p, chain, l, Twin(b, Pow2(d))).Extend?
    ensures Twin(b, Pow2(d)).header == b.header && |Twin(b, Pow2(d)).txs| == |b.txs| + Pow2(d)
    ensures ApplyBlock(p, l, Twin(b, Pow2(d))) == ApplyBlock(p, l, b)
  {
    hide ApplyBlock, Root, HashHex, CoinbaseOK, InSlotWindow, ProposerSigned, MayPropose, Merkle.RootOfTxs, Genesis;
    hide Pow2;
    TwinRoot(p, b, w, d);
    ExtendApplies(p, chain, l, b);
    TwinApplies(p, l, b, Pow2(d));
    TwinCoinbase(p, b, Pow2(d));
    SameVerdictButBody(p, chain, l, b, Twin(b, Pow2(d)));
  }

  lemma ExtendApplies(p: Primitives, chain: seq<Block>, l: Ledger, b: Block)
    requires Judge(p, chain, l, b).Extend?
    ensures ApplyBlock(p, l, b).err.None?
  {
    hide ApplyBlock, Root, HashHex, Validate;
  }

  /** Blocks with the same header, root, coinbase verdict and effect meet the same verdict. */
  lemma SameVerdictButBody(p: Primitives, chain: seq<Block>, l: Ledger, b: Block, t: Block)
    requires Judge(p, chain, l, b).Extend? && t.header == b.header && p.blockSize(t) <= MAX_BLOCK_BYTES
    requires Merkle.RootOfTxs(p, t.txs) == Merkle.RootOfTxs(p, b.txs) && (CoinbaseOK(p, t) <==> CoinbaseOK(p, b))
    requires ApplyBlock(p, l, t) == ApplyBlock(p, l, b)
    ensures Judge(p, chain, l, t).Extend?
  {
    hide ApplyBlock, Root, HashHex, CoinbaseOK, InSlotWindow, ProposerSigned, MayPropose, Merkle.RootOfTxs, Genesis;
  }

  // ---- Count and signer ---------------------------------------------------------------------

  /** The ledger a block leads to does not depend on how it counts or signs itself, but for the tip. */
  lemma SameEffect(p: Primitives, l: Ledger, b: Block, h: Header)
    requires b.header.proposer != []
    requires h == b.header.(txCount := h.txCount, proposerPub := h.proposerPub, proposerSig := h.proposerSig)
    ensures ApplyBlock(p, l, b.(header := h)).err == ApplyBlock(p, l, b).err
    ensures ApplyBlock(p, l, b).err.None? ==>
      ApplyBlock(p, l, b.(header := h)).ledger == ApplyBlock(p, l, b).ledger.(tip := HashHex(p, h))
  {
    hide ApplyTxs, HashHex;
  }

  /** The verdict on a block looks at neither its transaction count nor whose key signed it. */
  lemma VerdictIgnores(p: Primitives, chain: seq<Block>, l: Ledger, b: Block, h: Header)
    requires chain != [] && Judge(p, chain, l, b).Extend?
    requires h == b.header.(txCount := h.txCount, proposerPub := h.proposerPub, proposerSig := h.proposerSig)
    requires ProposerSigned(p, h) && p.blockSize(b.(header := h)) <= MAX_BLOCK_BYTES
    ensures Judge(p, chain, l, b.(header := h)).Extend?
  {
    ExtendFacts(p, chain, l, b);
    SameEffect(p, l, b, h);
    hide ApplyBlock, Root, HashHex, CoinbaseOK, InSlotWindow, ProposerSigned, MayPropose, Merkle.RootOfTxs, Judge;
    RootIgnoresTip(p, ApplyBlock(p, l, b).ledger, ApplyBlock(p, l, b.(header := h)).ledger);
    SameCoinbase(p, b, h);
    SameWindow(b.header, h);
    Accepting(p, chain, l, b.(header := h));
  }

  lemma SameWindow(g: Header, h: Header)
    requires g.slot == h.slot && g.timestamp == h.timestamp
    ensures InSlotWindow(g) == InSlotWindow(h)
  {
  }

  lemma SameCoinbase(p: Primitives, b: Block, h: Header)
    requires h.height == b.header.height && h.proposer == b.header.proposer
    ensures CoinbaseOK(p, b.(header := h)) == CoinbaseOK(p, b)
  {
    var t := b.(header := h);
    assert forall tx :: FirstCoinbaseOK(p, b, tx) == FirstCoinbaseOK(p, t, tx);
  }

  /** The converse of ExtendFacts. */
  lemma Accepting(p: Primitives, chain: seq<Block>, l: Ledger, b: Block)
    requires chain != []
    requires var tip := chain[|chain| - 1].header;
      && p.blockSize(b) <= MAX_BLOCK_BYTES
      && b.header.merkleRoot == Merkle.RootOfTxs(p, b.txs)
      && b.header.prevBlock == HashHex(p, tip)
      && b.header.height == tip.height + 1
      && b.header.slot >= tip.slot && InSlotWindow(b.header)
      && ProposerSigned(p, b.header)
      && b.header.proposer != [] && MayPropose(p, l, HashHex(p, tip), b.header.proposer, b.header.slot)
      && CoinbaseOK(p, b)
      && ApplyBlock(p, l, b).err.None?
      && b.header.stateRoot == Root(p, ApplyBlock(p, l, b).ledger)
    ensures Judge(p, chain, l, b).Extend?
  {
    hide ApplyBlock, Root, HashHex, CoinbaseOK, InSlotWindow, ProposerSigned, MayPropose, Merkle.RootOfTxs, IsGenesis;
  }

  /** A header signed with some private key, whoever its proposer is. */
  function SignedBy(p: Primitives, h: Header, priv: Bytes): Header {
    var g := h.(proposerPub := p.base64(p.edPublic(priv)));
    g.(proposerSig := p.base64(p.edSign(priv, p.sha256(p.headerJson(g.Core())))))
  }

  lemma SignedByIsSigned(p: Primitives, h: Header, priv: Bytes)
    requires Sound(p)
    ensures ProposerSigned(p, SignedBy(p, h, priv))
    ensures DecodeKey(p, SignedBy(p, h, priv).proposerPub) == Some(p.edPublic(priv))
  {
    var s := SignedBy(p, h, priv);
    var m := p.sha256(p.headerJson(s.Core()));
    assert s.Core() == h.(proposerPub := p.base64(p.edPublic(priv))).Core();
    assert |p.edPublic(priv)| == 32 && |p.edSign(priv, m)| == 64;
    assert p.base64Decode(s.proposerPub) == Some(p.edPublic(priv));
    assert p.base64Decode(s.proposerSig) == Some(p.edSign(priv, m));
  }

  /** The key in the header is the one the proposer's id is derived from. */
  predicate NamesItsSigner(p: Primitives, h: Header) {
    DecodeKey(p, h.proposerPub).Some? && p.nodeID(DecodeKey(p, h.proposerPub).value) == h.proposer
  }

  /** Any count and any key will do: an accepted block stays acceptable when its count is replaced and
      it is signed anew with an arbitrary key. It names its signer only if that key belongs to the
      proposer. */
  lemma AnySignerIsAccepted(p: Primitives, chain: seq<Block>, l: Ledger, b: Block, count: u32, priv: Bytes)
    requires Sound(p) && chain != [] && Judge(p, chain, l, b).Extend?
    requires p.blockSize(b.(header := SignedBy(p, b.header.(txCount := count), priv))) <= MAX_BLOCK_BYTES
    ensures var h := SignedBy(p, b.header.(txCount := count), priv);
      && Judge(p, chain, l, b.(header := h)).Extend? && h.txCount == count && h.proposer == b.header.proposer
      && (NamesItsSigner(p, h) <==> p.nodeID(p.edPublic(priv)) == b.header.proposer)
  {
    SignedByIsSigned(p, b.header.(txCount := count), priv);
    hide Judge, ProposerSigned, Sound, DecodeKey;
    VerdictIgnores(p, chain, l, b, SignedBy(p, b.header.(txCount := count), priv));
  }

  // ---- What equal tips say about bodies -----------------------------------------------------

  /** s contains every input hashed for the Merkle root and the transaction ids of the body. */
  ghost predicate CoversBody(s: set<Bytes>, p: Primitives, txs: seq<Transaction>) {
    Merkle.Covers(s, p.sha256, Merkle.TxIDs(p, txs)) && forall tx :: tx in txs ==> TxText(p, tx) in s
  }

  ghost predicate CoversBodies(s: set<Bytes>, p: Primitives, chain: seq<Block>) {
    forall i :: 0 <= i < |chain| ==> CoversBody(s, p, chain[i].txs)
  }

  lemma RootOfBlock(p: Primitives, chain: seq<Block>, i: nat)
    requires AcceptedChain(p, chain) && i < |chain|
    ensures chain[i].header.merkleRoot == Merkle.RootOfTxs(p, chain[i].txs)
  {
    hide Root, ApplyBlock, Replay, Merkle.Root;
    assert Fitting(p, chain, i);
    if i > 0 {
      hide Judge;
      ExtendFacts(p, chain[..i], Replay(p, chain[..i]), chain[i]);
    }
  }

  /** Two bodies under one Merkle root are the same if and only if they are equally long. */
  lemma BodyUnique(s: set<Bytes>, p: Primitives, x: seq<Transaction>, y: seq<Transaction>)
    requires NoCollision(p.sha256, s) && CoversBody(s, p, x) && CoversBody(s, p, y) && TxTextInjective(p)
    requires Merkle.RootOfTxs(p, x) == Merkle.RootOfTxs(p, y)
    ensures Merkle.TxIDs(p, x) == Merkle.TxIDs(p, y) <==> |x| == |y|
    ensures x == y <==> |x| == |y|
  {
    hide TxTextInjective, NoCollision, TxID, TxText, Merkle.Root, Merkle.Covers;
    if |x| == |y| {
      Merkle.RootCommits(s, p.sha256, Merkle.TxIDs(p, x), Merkle.TxIDs(p, y));
      forall i | 0 <= i < |x| ensures x[i] == y[i] {
        assert Merkle.TxIDs(p, x)[i] == Merkle.TxIDs(p, y)[i];
        assert x[i] in x && y[i] in y;
        SameIdSameTx(s, p, x[i], y[i]);
      }
    }
  }

  /** Everything hashed along a chain: headers, bodies, and the ledger it ends in. */
  ghost predicate CoversChain(s: set<Bytes>, p: Primitives, chain: seq<Block>) {
    CoversHeaders(s, p, chain) && CoversBodies(s, p, chain) && RootInputs(p, Replay(p, chain)) <= s
  }

  /** Full agreement. Nodes with the same tip hash have the same block at every height at which their
      blocks are equally long -- and only there; if that is everywhere, their ledgers are the same down
      to the burn evidence. All this barring collisions among what the two chains hash. */
  lemma FullAgreement(s: set<Bytes>, p: Primitives, a: seq<Block>, b: seq<Block>)
    requires Sound(p) && JsonInjective(p) && TxTextInjective(p) && NoCollision(p.sha256, s)
    requires AcceptedChain(p, a) && AcceptedChain(p, b) && CoversChain(s, p, a) && CoversChain(s, p, b)
    requires HashHex(p, a[|a| - 1].header) == HashHex(p, b[|b| - 1].header)
    ensures |a| == |b|
    ensures forall i :: 0 <= i < |a| ==>
      (Merkle.TxIDs(p, a[i].txs) == Merkle.TxIDs(p, b[i].txs) <==> |a[i].txs| == |b[i].txs|)
      && (a[i].txs == b[i].txs <==> |a[i].txs| == |b[i].txs|)
    ensures (forall i :: 0 <= i < |a| ==> |a[i].txs| == |b[i].txs|) ==> Replay(p, a) == Replay(p, b)
  {
    hide AcceptedChain, HashHex, Replay, Root, RootInputs, Sound, JsonInjective, NoCollision, TxTextInjective;
    hide CoversBody, Merkle.TxIDs, Merkle.Root;
    Agreement(s, p, a, b);
    forall i | 0 <= i < |a|
      ensures (Merkle.TxIDs(p, a[i].txs) == Merkle.TxIDs(p, b[i].txs) <==> |a[i].txs| == |b[i].txs|)
        && (a[i].txs == b[i].txs <==> |a[i].txs| == |b[i].txs|)
    {
      RootOfBlock(p, a, i);
      RootOfBlock(p, b, i);
      assert a[i].header.Core().merkleRoot == b[i].header.Core().merkleRoot;
      BodyUnique(s, p, a[i].txs, b[i].txs);
    }
    if forall i :: 0 <= i < |a| ==> |a[i].txs| == |b[i].txs| {
      SameBodies(a, b);
      RestOfLedger(p, a);
      RestOfLedger(p, b);
    }
  }

  lemma {:induction false} SameBodies(a: seq<Block>, b: seq<Block>)
    requires |a| == |b| && forall i :: 0 <= i < |a| ==> a[i].txs == b[i].txs
    ensures Body(a) == Body(b)
  {
    if a != [] {
      SameBodies(a[..|a| - 1], b[..|b| - 1]);
    }
  }

  lemma RestOfLedger(p: Primitives, chain: seq<Block>)
    requires Sound(p) && AcceptedChain(p, chain)
    ensures var l := Replay(p, chain);
      chain != [] && l.tip == HashHex(p, chain[|chain| - 1].header) && l.pending == 0
      && l.burns == Evidence.BurnsOf(p, Body(chain))
  {
    hide Replay, HashHex;
    ChainLedger(p, chain);
    ChainFacts(p, chain);
    Evidence.ReplayBurns(p, chain);
  }
}
