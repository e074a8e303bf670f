/** What holds along every accepted chain: links, heights, slots, state roots, the reward pool, and
    agreement between two nodes that see the same tip. */
module Chain {
  import opened Base
  import opened Types
  import opened Ledgers
  import opened Commitment
  import opened Consensus
  import opened Election
  import Merkle

  // ---- One block ----------------------------------------------------------------------------

  lemma ApplyBlockSets(p: Primitives, l: Ledger, b: Block)
    requires ApplyBlock(p, l, b).err.None?
    ensures var r := ApplyBlock(p, l, b).ledger;
      r.height == b.header.height && r.tip == HashHex(p, b.header) && r.pending == 0
  {
  }

  /** A block that extends a chain is small enough, commits to its body, links to its tip, is one
      higher, not in an earlier slot and within its slot's window, is signed, comes from whoever may
      propose, keeps the coinbase rule, and carries the root of the ledger it leads to. */
  lemma ExtendFacts(p: Primitives, chain: seq<Block>, l: Ledger, b: Block)
    requires chain != [] && Judge(p, chain, l, b).Extend?
    ensures var tip := chain[|chain| - 1].header;
      && p.blockSize(b) <= MAX_BLOCK_BYTES
      && b.header.merkleRoot == Merkle.RootOfTxs(p, b.txs)
      && b.header.prevBlock == HashHex(p, tip)
      && b.header.height == tip.height + 1
      && b.header.slot >= tip.slot && InSlotWindow(b.header)
      && ProposerSigned(p, b.header)
      && b.header.proposer != [] && MayPropose(p, l, HashHex(p, tip), b.header.proposer, b.header.slot)
      && CoinbaseOK(p, b)
      && ApplyBlock(p, l, b).err.None?
      && b.header.stateRoot == Root(p, ApplyBlock(p, l, b).ledger)
  {
    hide ApplyBlock, Root, HashHex, CoinbaseOK, InSlotWindow, ProposerSigned, MayPropose, Merkle.RootOfTxs;
  }

  // ---- Whole chains -------------------------------------------------------------------------

  /** Header i of the chain is well placed. */
  ghost predicate Placed(p: Primitives, chain: seq<Block>, i: nat)
    requires i < |chain|
  {
    && chain[i].header.height == i
    && chain[i].header.stateRoot == Root(p, Replay(p, chain[..i + 1]))
    && (i > 0 ==>
          && chain[i].header.prevBlock == HashHex(p, chain[i - 1].header)
          && chain[i].header.slot >= chain[i - 1].header.slot)
  }

  /** Along an accepted chain every block applies, heights count up from zero, every block links to
      its predecessor, slots never decrease, and every state root is the root of its prefix. */
  lemma {:induction false} ChainFacts(p: Primitives, chain: seq<Block>)
    requires Sound(p) && AcceptedChain(p, chain)
    ensures Applies(p, chain)
    ensures forall i :: 0 <= i < |chain| ==> Placed(p, chain, i)
  {
    hide ApplyBlock, Root, Judge, HashHex, CoinbaseOK, Sound, AcceptedChain;
    hide InSlotWindow, ProposerSigned, MayPropose, Merkle.RootOfTxs, Genesis;
    LastAccepted(p, chain);
    var n := |chain| - 1;
    var init := chain[..n];
    if n == 0 {
      GenesisApplies(p);
      assert chain[..1] == chain;
      assert Placed(p, chain, 0);
    } else {
      ChainFacts(p, init);
      ExtendFacts(p, init, Replay(p, init), chain[n]);
      assert chain[..n + 1] == chain;
      assert Placed(p, init, n - 1);
      forall i | 0 <= i < |chain| ensures Placed(p, chain, i) {
        if i < n {
          assert Placed(p, init, i);
          assert init[..i + 1] == chain[..i + 1];
        }
      }
    }
  }

  /** The ledger of an accepted chain is at its last block, with no fees pending. */
  lemma ChainLedger(p: Primitives, chain: seq<Block>)
    requires Sound(p) && AcceptedChain(p, chain)
    ensures var l := Replay(p, chain);
      l.height == |chain| - 1 && l.tip == HashHex(p, chain[|chain| - 1].header) && l.pending == 0
  {
    ChainFacts(p, chain);
    assert Placed(p, chain, |chain| - 1);
    ApplyBlockSets(p, Replay(p, chain[..|chain| - 1]), chain[|chain| - 1]);
  }

  // ---- The reward pool ----------------------------------------------------------------------

  lemma ApplyTxPool(p: Primitives, l: Ledger, tx: Transaction, height: u64)
    requires ApplyTx(p, l, tx, height).err.None?
    ensures ApplyTx(p, l, tx, height).ledger.pool ==
      if tx.kind.Coinbase? then l.pool - CoinbaseDue(l, height) else l.pool
  {
    if UsesNonce(tx.kind) {
      SenderAnatomy(p, l, tx, height);
    }
  }

  lemma {:induction false} ApplyTxsPool(p: Primitives, l: Ledger, txs: seq<Transaction>, height: u64)
    requires ApplyTxs(p, l, txs, height).err.None?
    requires forall i :: 0 <= i < |txs| && txs[i].kind.Coinbase? ==> i == 0
    ensures ApplyTxs(p, l, txs, height).ledger.pool ==
      if txs != [] && txs[0].kind.Coinbase? then l.pool - CoinbaseDue(l, height) else l.pool
  {
    if txs != [] {
      ApplyTxsPool(p, l, txs[..|txs| - 1], height);
      ApplyTxPool(p, ApplyTxs(p, l, txs[..|txs| - 1], height).ledger, txs[|txs| - 1], height);
    }
  }

  /** The pool after `height` blocks: 50 a block until it is empty. */
  function PoolAt(height: nat): int {
    MINER_REWARD_POOL - Min(MINER_REWARD_POOL, 50 * height)
  }

  /** What the pool still has is paid out by the next block, 50 at a time: the first halving comes at
      height 210,241, long after the pool is empty. */
  lemma RewardEmptiesPool(height: u64)
    requires height > 0
    ensures PoolAt(height) == PoolAt(height - 1) - Min(BlockReward(height), PoolAt(height - 1))
  {
    if height <= 210_240 {
      assert (height - 1) / HALVING_INTERVAL == 0;
    }
  }

  lemma CoinbaseLeads(p: Primitives, b: Block)
    requires CoinbaseOK(p, b) && b.header.height > 0
    ensures forall i :: 0 <= i < |b.txs| && b.txs[i].kind.Coinbase? ==> i == 0
    ensures BlockReward(b.header.height) > 0 ==> b.txs != [] && b.txs[0].kind.Coinbase?
  {
  }

  /** After any accepted chain the pool is exactly what the closed form says; it is empty from height
      84,000 on. */
  lemma {:induction false} PoolClosedForm(p: Primitives, chain: seq<Block>)
    requires Sound(p) && AcceptedChain(p, chain)
    ensures Replay(p, chain).pool == PoolAt(|chain| - 1)
    ensures Replay(p, chain).pool == 0 <==> |chain| - 1 >= 84_000
  {
    hide ApplyTxs, Root, RootInputs, Judge, HashHex, CoinbaseOK, Sound, JsonInjective, AcceptedChain;
    hide InSlotWindow, ProposerSigned, MayPropose, Merkle.RootOfTxs;
    LastAccepted(p, chain);
    var n := |chain| - 1;
    if n == 0 {
      GenesisApplies(p);
    } else {
      var init, b := chain[..n], chain[n];
      PoolClosedForm(p, init);
      ChainFacts(p, chain);
      assert Placed(p, chain, n);
      var l := Replay(p, init);
      ExtendFacts(p, init, l, b);
      CoinbaseLeads(p, b);
      ApplyTxsPool(p, l.(pending := 0), b.txs, b.header.height);
      RewardEmptiesPool(b.header.height);
    }
  }

  // ---- Agreement ----------------------------------------------------------------------------

  /** s contains every header encoding hashed along the chain. */
  ghost predicate CoversHeaders(s: set<Bytes>, p: Primitives, chain: seq<Block>) {
    forall i :: 0 <= i < |chain| ==> p.headerJson(chain[i].header.Core()) in s
  }

  lemma SameHashSameCore(s: set<Bytes>, p: Primitives, g: Header, h: Header)
    requires JsonInjective(p) && NoCollision(p.sha256, s)
    requires p.headerJson(g.Core()) in s && p.headerJson(h.Core()) in s
    requires HashHex(p, g) == HashHex(p, h)
    ensures g.Core() == h.Core()
  {
    HexInjective(p.sha256(p.headerJson(g.Core())), p.sha256(p.headerJson(h.Core())));
  }

  /** Heights count up from zero and every block links to its predecessor. */
  ghost predicate Linked(p: Primitives, chain: seq<Block>) {
    && (forall i :: 0 <= i < |chain| ==> chain[i].header.height == i)
    && (forall i :: 0 < i < |chain| ==> chain[i].header.prevBlock == HashHex(p, chain[i - 1].header))
  }

  lemma ChainIsLinked(p: Primitives, chain: seq<Block>)
    requires Sound(p) && AcceptedChain(p, chain)
    ensures chain != [] && Linked(p, chain)
  {
    ChainFacts(p, chain);
    hide AcceptedChain, Root, Replay, HashHex, Sound, Applies;
    forall i | 0 <= i < |chain|
      ensures chain[i].header.height == i
      ensures i > 0 ==> chain[i].header.prevBlock == HashHex(p, chain[i - 1].header)
    {
      assert Placed(p, chain, i);
    }
  }

  /** Two linked chains whose tips have the same hash consist of the same headers. */
  lemma {:induction false} SameTipSameHeaders(s: set<Bytes>, p: Primitives, a: seq<Block>, b: seq<Block>)
    requires JsonInjective(p) && NoCollision(p.sha256, s)
    requires a != [] && b != [] && Linked(p, a) && Linked(p, b)
    requires CoversHeaders(s, p, a) && CoversHeaders(s, p, b)
    requires HashHex(p, a[|a| - 1].header) == HashHex(p, b[|b| - 1].header)
    ensures |a| == |b| && forall i :: 0 <= i < |a| ==> a[i].header.Core() == b[i].header.Core()
    decreases |a|
  {
    hide HashHex, JsonInjective, NoCollision;
    var n := |a| - 1;
    SameHashSameCore(s, p, a[n].header, b[|b| - 1].header);
    assert a[n].header.Core().height == b[|b| - 1].header.Core().height;
    assert a[n].header.Core().prevBlock == b[n].header.Core().prevBlock;
    if n > 0 {
      SameTipSameHeaders(s, p, a[..n], b[..n]);
      forall i | 0 <= i < |a| ensures a[i].header.Core() == b[i].header.Core() {
        assert i < n ==> a[..n][i] == a[i] && b[..n][i] == b[i];
      }
    }
  }

  /** Agreement: nodes whose tips have the same hash have the same headers, pool, height and accounts,
      unless the hashing of the two chains and of their two ledgers met a collision. */
  lemma Agreement(s: set<Bytes>, p: Primitives, a: seq<Block>, b: seq<Block>)
    requires Sound(p) && JsonInjective(p) && NoCollision(p.sha256, s)
    requires AcceptedChain(p, a) && AcceptedChain(p, b)
    requires CoversHeaders(s, p, a) && CoversHeaders(s, p, b)
    requires RootInputs(p, Replay(p, a)) <= s && RootInputs(p, Replay(p, b)) <= s
    requires HashHex(p, a[|a| - 1].header) == HashHex(p, b[|b| - 1].header)
    ensures |a| == |b| && forall i :: 0 <= i < |a| ==> a[i].header.Core() == b[i].header.Core()
    ensures Replay(p, a).accounts == Replay(p, b).accounts
    ensures Replay(p, a).pool == Replay(p, b).pool && Replay(p, a).height == Replay(p, b).height
  {
    hide ApplyTxs, Root, RootInputs, Judge, HashHex, CoinbaseOK, Sound, JsonInjective;
    ChainIsLinked(p, a);
    ChainIsLinked(p, b);
    SameTipSameHeaders(s, p, a, b);
    ChainFacts(p, a);
    ChainFacts(p, b);
    var n := |a| - 1;
    assert Placed(p, a, n) && Placed(p, b, n);
    assert a[..n + 1] == a && b[..n + 1] == b;
    assert a[n].header.Core().stateRoot == b[n].header.Core().stateRoot;
    ReplayKeepsKeys(p, a);
    ReplayKeepsKeys(p, b);
    RootCommits(p, Replay(p, a), Replay(p, b));
  }
}
