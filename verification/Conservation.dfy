/** The supply law on the chains that the acceptance rules admit. */
module Conservation {
  import opened Base
  import opened Types
  import opened Ledgers
  import opened Consensus
  import opened Chain
  import opened Supply

  /** No block but genesis was proposed under the reserved id "network-genesis". */
  predicate OrdinaryProposers(chain: seq<Block>) {
    forall i :: 0 < i < |chain| ==> chain[i].header.proposer != NETWORK_GENESIS_ID
  }

  lemma GenesisForfeitsNothing(p: Primitives)
    requires Sound(p)
    ensures BlockForfeit(AsWritten, p, NEW_LEDGER, Genesis(p)) == 0
  {
    hide TxsUnder, GenesisTxs;
    GenesisTxsApply(p);
    WrittenTxs(p, NEW_LEDGER, GenesisTxs(p), 0);
    assert NEW_LEDGER.(pending := 0) == NEW_LEDGER;
  }

  lemma AcceptedPays(p: Primitives, chain: seq<Block>, l: Ledger, b: Block)
    requires chain != [] && Judge(p, chain, l, b).Extend? && b.header.proposer != NETWORK_GENESIS_ID
    ensures PaysFees(b.header)
  {
    ExtendFacts(p, chain, l, b);
    hide Judge, ApplyBlock;
  }

  lemma PaidBlock(p: Primitives, l: Ledger, b: Block)
    requires PaysFees(b.header)
    ensures BlockForfeit(AsWritten, p, l, b) == 0
  {
  }

  /** A block that was accepted names its proposer, so its fees are paid unless that is the reserved id. */
  lemma {:induction false} NothingForfeited(p: Primitives, chain: seq<Block>)
    requires Sound(p) && AcceptedChain(p, chain) && OrdinaryProposers(chain)
    ensures Forfeit(AsWritten, p, chain) == 0
  {
    hide Judge, BlockUnder, Genesis, Replay, Sound, AcceptedChain, BlockForfeit;
    LastAccepted(p, chain);
    var n := |chain| - 1;
    var init := chain[..n];
    if n == 0 {
      GenesisForfeitsNothing(p);
      assert init == [];
    } else {
      NothingForfeited(p, init);
      AcceptedPays(p, init, Replay(p, init), chain[n]);
      PaidBlock(p, ReplayUnder(AsWritten, p, init), chain[n]);
    }
  }

  /** On every accepted chain whose proposers are ordinary, pool and accounts together hold 4,200,000
      plus exactly the fees charged by second-branch unstakes; they hold 4,200,000 exactly when there
      was no such unstake. */
  lemma AcceptedSupply(p: Primitives, chain: seq<Block>)
    requires Sound(p) && AcceptedChain(p, chain) && OrdinaryProposers(chain)
    requires MINER_REWARD_POOL + Drift(AsWritten, p, chain) < TWO64
    ensures var l := Replay(p, chain);
      && l.pool + Wealth(l.accounts) == MINER_REWARD_POOL + Drift(AsWritten, p, chain)
      && (l.pool + Wealth(l.accounts) == MINER_REWARD_POOL <==> ChainAvoids(p, chain))
  {
    hide AcceptedChain, Sound, Replay, Drift, Forfeit, ChainAvoids, Applies;
    ChainFacts(p, chain);
    NothingForfeited(p, chain);
    SupplyLaw(p, chain);
    SupplyConstantIff(p, chain);
  }
}
