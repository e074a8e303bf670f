/** Which stores a node opens, and with which ledger (internal/chain/engine.go:54-70). */
module Reopening {
  import opened Base
  import opened Types
  import opened Ledgers
  import opened Engines

  /** The blocks at heights below n, if there is one at each. */
  function Below(byH: map<u64, Block>, n: nat): (blocks: seq<Block>)
    requires n <= TWO64 && forall h :: 0 <= h < n ==> h in byH
    ensures |blocks| == n && forall h :: 0 <= h < n ==> blocks[h] == byH[h]
  {
    if n == 0 then [] else Below(byH, n - 1) + [byH[n - 1]]
  }

  lemma BelowStep(p: Primitives, byH: map<u64, Block>, n: nat)
    requires 0 < n <= TWO64 && forall h :: 0 <= h < n ==> h in byH
    ensures var l := Replay(p, Below(byH, n - 1));
      && (Applies(p, Below(byH, n)) <==>
            Applies(p, Below(byH, n - 1)) && ApplyBlock(p, l, byH[n - 1]).err.None?)
      && Replay(p, Below(byH, n)) == ApplyBlock(p, l, byH[n - 1]).ledger
  {
    hide ApplyBlock;
    assert Below(byH, n)[..n - 1] == Below(byH, n - 1);
  }

  lemma NothingStored(p: Primitives, byH: map<u64, Block>)
    ensures ReplayStored(p, byH, 0) == OpenedAt(NEW_LEDGER)
    ensures Applies(p, Below(byH, 0)) && Replay(p, Below(byH, 0)) == NEW_LEDGER
  {
    hide ApplyBlock;
  }

  lemma StoredStep(p: Primitives, byH: map<u64, Block>, n: nat)
    requires 0 < n <= TWO64 && ReplayStored(p, byH, n).OpenedAt?
    ensures ReplayStored(p, byH, n - 1).OpenedAt? && n - 1 in byH
    ensures ApplyBlock(p, ReplayStored(p, byH, n - 1).ledger, byH[n - 1])
         == Applied(ReplayStored(p, byH, n).ledger, None)
  {
    hide ApplyBlock;
  }

  lemma StoredOpens(p: Primitives, byH: map<u64, Block>, n: nat, l: Ledger)
    requires 0 < n <= TWO64 && ReplayStored(p, byH, n - 1) == OpenedAt(l) && n - 1 in byH
    requires ApplyBlock(p, l, byH[n - 1]).err.None?
    ensures ReplayStored(p, byH, n) == OpenedAt(ApplyBlock(p, l, byH[n - 1]).ledger)
  {
    hide ApplyBlock;
  }

  lemma {:induction false} OpenedReplays(p: Primitives, byH: map<u64, Block>, n: nat)
    requires n <= TWO64 && ReplayStored(p, byH, n).OpenedAt?
    ensures forall h :: 0 <= h < n ==> h in byH
    ensures Applies(p, Below(byH, n)) && Replay(p, Below(byH, n)) == ReplayStored(p, byH, n).ledger
  {
    hide ApplyBlock, Applies, Replay, Below, ReplayStored;
    if n == 0 {
      NothingStored(p, byH);
    } else {
      StoredStep(p, byH, n);
      OpenedReplays(p, byH, n - 1);
      BelowStep(p, byH, n);
    }
  }

  lemma {:induction false} ReplayedOpens(p: Primitives, byH: map<u64, Block>, n: nat)
    requires n <= TWO64 && (forall h :: 0 <= h < n ==> h in byH) && Applies(p, Below(byH, n))
    ensures ReplayStored(p, byH, n) == OpenedAt(Replay(p, Below(byH, n)))
  {
    hide ApplyBlock, Applies, Replay, Below, ReplayStored;
    if n == 0 {
      NothingStored(p, byH);
    } else {
      BelowStep(p, byH, n);
      ReplayedOpens(p, byH, n - 1);
      StoredOpens(p, byH, n, Replay(p, Below(byH, n - 1)));
    }
  }

  /** A store opens with a ledger exactly if no height up to its tip is missing, every block applies on what
      the ones below it lead to, and the ledger is where they all lead. */
  lemma OpensIff(p: Primitives, byH: map<u64, Block>, n: nat, l: Ledger)
    requires n <= TWO64
    ensures ReplayStored(p, byH, n) == OpenedAt(l) <==>
      && (forall h :: 0 <= h < n ==> h in byH)
      && Applies(p, Below(byH, n)) && Replay(p, Below(byH, n)) == l
  {
    hide ReplayStored, Applies, Replay, Below;
    if ReplayStored(p, byH, n).OpenedAt? {
      OpenedReplays(p, byH, n);
    }
    if (forall h :: 0 <= h < n ==> h in byH) && Applies(p, Below(byH, n)) {
      ReplayedOpens(p, byH, n);
    }
  }

  /** Otherwise the first height at which something is wrong is reported: a missing block, or one that does
      not apply and why. */
  lemma {:induction false} ReplayErrors(p: Primitives, byH: map<u64, Block>, n: nat, h: nat, l: Ledger, e: BlockError)
    requires h < n <= TWO64 && ReplayStored(p, byH, h) == OpenedAt(l)
    ensures h !in byH ==> ReplayStored(p, byH, n) == MissingBlock(h)
    ensures h in byH && ApplyBlock(p, l, byH[h]).err == Some(e) ==>
      ReplayStored(p, byH, n) == ReplayFailed(h, e)
  {
    hide ApplyBlock;
    if !ReplayStored(p, byH, h + 1).OpenedAt? {
      ReplayStops(p, byH, h + 1, n);
    }
  }
}
