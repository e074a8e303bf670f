/** On a chain obeying the supply law the stakes cannot overflow, so the election is proportional there. */
module Fairness {
  import opened Base
  import opened ByteOrder
  import opened Types
  import opened Ledgers
  import opened Election
  import opened Supply

  lemma {:induction false} StakesWithinWealth(accounts: map<Bytes, Account>, ids: seq<Bytes>)
    requires Distinct(ids) && forall k :: k in ids ==> k in accounts
    ensures SumStakes(Views(accounts, ids)) <= Wealth(accounts)
    decreases |ids|
  {
    if ids != [] {
      var init, last := ids[..|ids| - 1], ids[|ids| - 1];
      var rest := accounts - {last};
      WealthSplit(accounts, last);
      assert forall k :: k in init ==> k in rest;
      StakesWithinWealth(rest, init);
      SameViews(accounts, rest, init);
      assert Views(accounts, ids)[..|ids| - 1] == Views(accounts, init);
    }
  }

  lemma SameViews(a: map<Bytes, Account>, b: map<Bytes, Account>, ids: seq<Bytes>)
    requires forall k :: k in ids ==> k in a && k in b && a[k] == b[k]
    ensures Views(a, ids) == Views(b, ids)
  {
    assert forall i :: 0 <= i < |ids| ==> ids[i] in ids;
  }

  /** On every applied chain whose drift is within 64 bits, each validator is elected by exactly as
      many seed residues as it has stake. */
  lemma ChainElectionIsProportional(p: Primitives, blocks: seq<Block>, k: nat)
    requires Applies(p, blocks) && MINER_REWARD_POOL + Drift(AsWritten, p, blocks) < TWO64
    requires k < |Validators(Replay(p, blocks).accounts)|
    ensures var vals := Validators(Replay(p, blocks).accounts);
      SumStakes(vals) < TWO64 && TotalStake(vals) == SumStakes(vals)
      && |Residues(vals, vals[k].nodeID)| == vals[k].stake
  {
    var accounts := Replay(p, blocks).accounts;
    var ids := SortedKeys(ActiveIds(accounts));
    SupplyLaw(p, blocks);
    AscendingIsDistinct(ids);
    StakesWithinWealth(accounts, ids);
    TotalStakeExact(Validators(accounts));
    ElectionIsProportional(Validators(accounts), k);
  }
}
