/** Who may propose a block (internal/chain/pos.go). */
module Election {
  import opened Base
  import opened ByteOrder
  import opened Types
  import opened Ledgers

  datatype ValidatorView = ValidatorView(nodeID: Bytes, stake: u64)

  ghost function ActiveIds(accounts: map<Bytes, Account>): set<Bytes> {
    set k | k in accounts.Keys && accounts[k].active
  }

  /** The validator set, in ascending order of node id. */
  ghost function Validators(accounts: map<Bytes, Account>): (vals: seq<ValidatorView>)
    ensures |vals| == |ActiveIds(accounts)|
    ensures forall i, j :: 0 <= i < j < |vals| ==> vals[i].nodeID != vals[j].nodeID
  {
    var ids := SortedKeys(ActiveIds(accounts));
    AscendingIsDistinct(ids);
    Views(accounts, ids)
  }

  function Views(accounts: map<Bytes, Account>, ids: seq<Bytes>): (vals: seq<ValidatorView>)
    requires forall k :: k in ids ==> k in accounts
    ensures |vals| == |ids|
    ensures forall i :: 0 <= i < |ids| ==> vals[i] == ValidatorView(ids[i], accounts[ids[i]].stake)
  {
    if ids == [] then [] else
    Views(accounts, ids[..|ids| - 1]) + [ValidatorView(ids[|ids| - 1], accounts[ids[|ids| - 1]].stake)]
  }

  function SumStakes(vals: seq<ValidatorView>): nat {
    if vals == [] then 0 else SumStakes(vals[..|vals| - 1]) + vals[|vals| - 1].stake
  }

  /** The total as the code adds it up, wrapping around. */
  function TotalStake(vals: seq<ValidatorView>): u64 {
    if vals == [] then 0 else Add64(TotalStake(vals[..|vals| - 1]), vals[|vals| - 1].stake)
  }

  lemma {:induction false} TotalStakeExact(vals: seq<ValidatorView>)
    requires SumStakes(vals) < TWO64
    ensures TotalStake(vals) == SumStakes(vals)
  {
    if vals != [] {
      TotalStakeExact(vals[..|vals| - 1]);
    }
  }

  function Seed(p: Primitives, prevHash: Bytes, slot: u64): Digest {
    p.sha256(prevHash + BigEndian(slot, 8))
  }

  /** The cumulative-stake walk of pos.go:39-45, from position i with `acc` stake passed;
      the last line is the fallback return. */
  function PickFrom(vals: seq<ValidatorView>, i: nat, acc: u64, r: u64): Bytes
    requires i <= |vals| && vals != []
    decreases |vals| - i
  {
    if i == |vals| then vals[|vals| - 1].nodeID
    else if r < Add64(acc, vals[i].stake) then vals[i].nodeID
    else PickFrom(vals, i + 1, Add64(acc, vals[i].stake), r)
  }

  function Select(p: Primitives, vals: seq<ValidatorView>, prevHash: Bytes, slot: u64): Bytes {
    if vals == [] then [] else
    var seed := Seed(p, prevHash, slot);
    var total := TotalStake(vals);
    if total == 0 then vals[BigEndianValue(seed[..8]) % |vals|].nodeID
    else PickFrom(vals, 0, 0, BigEndianValue(seed[8..16]) % total)
  }

  ghost function SelectProposer(p: Primitives, l: Ledger, prevHash: Bytes, slot: u64): Bytes {
    Select(p, Validators(l.accounts), prevHash, slot)
  }

  lemma SelectAmongActive(p: Primitives, l: Ledger, prevHash: Bytes, slot: u64)
    ensures SelectProposer(p, l, prevHash, slot) == Select(p, Validators(l.accounts), prevHash, slot)
  {
    hide Select, Validators;
  }

  /** Both bootstrap branches of pos.go:67-71 allow any proposer while nobody is elected. */
  predicate Allowed(expected: Bytes, nodeID: Bytes) {
    nodeID != [] && (expected == [] || expected == nodeID)
  }

  ghost predicate MayPropose(p: Primitives, l: Ledger, prevHash: Bytes, nodeID: Bytes, slot: u64) {
    Allowed(SelectProposer(p, l, prevHash, slot), nodeID)
  }

  // ---- The loops of pos.go -------------------------------------------------------------------

  method AddStakes(vals: seq<ValidatorView>) returns (total: u64)
    ensures total == TotalStake(vals)
  {
    total := 0;
    var i := 0;
    while i < |vals|
      invariant 0 <= i <= |vals| && total == TotalStake(vals[..i])
    {
      assert vals[..i + 1][..i] == vals[..i];
      total := Add64(total, vals[i].stake);
      i := i + 1;
    }
    assert vals[..|vals|] == vals;
  }

  method WalkStakes(vals: seq<ValidatorView>, r: u64) returns (id: Bytes)
    requires vals != []
    ensures id == PickFrom(vals, 0, 0, r)
  {
    var acc: u64 := 0;
    var i := 0;
    while i < |vals|
      invariant 0 <= i <= |vals|
      invariant PickFrom(vals, i, acc, r) == PickFrom(vals, 0, 0, r)
    {
      acc := Add64(acc, vals[i].stake);
      if r < acc { return vals[i].nodeID; }
      i := i + 1;
    }
    return vals[|vals| - 1].nodeID;
  }

  method SelectFrom(p: Primitives, vals: seq<ValidatorView>, prevHash: Bytes, slot: u64) returns (id: Bytes)
    ensures id == Select(p, vals, prevHash, slot)
    ensures vals == [] ==> id == []
    ensures var word := BigEndianValue(p.sha256(prevHash + BigEndian(slot, 8))[8..16]);
      0 < SumStakes(vals) < TWO64 ==> vals != [] && id == PickFrom(vals, 0, 0, word % SumStakes(vals))
  {
    if 0 < SumStakes(vals) < TWO64 {
      SelectWeighted(p, vals, prevHash, slot);
    }
    if |vals| == 0 { return []; }
    var seed := Seed(p, prevHash, slot);
    var total := AddStakes(vals);
    if total == 0 {
      return vals[BigEndianValue(seed[..8]) % |vals|].nodeID;
    }
    id := WalkStakes(vals, BigEndianValue(seed[8..16]) % total);
  }

  /** Walks the accounts in whatever order the map yields them. */
  method GatherActive(accounts: map<Bytes, Account>) returns (ids: seq<Bytes>)
    ensures Distinct(ids) && (set k | k in ids) == ActiveIds(accounts)
  {
    var todo := accounts.Keys;
    ids := [];
    while todo != {}
      invariant todo <= accounts.Keys && Distinct(ids)
      invariant forall k :: k in ids <==> k in accounts.Keys - todo && accounts[k].active
      decreases todo
    {
      var k :| k in todo;
      if accounts[k].active {
        DistinctAppend(ids, k);
        ids := ids + [k];
      }
      todo := todo - {k};
    }
  }

  method BuildViews(accounts: map<Bytes, Account>, ids: seq<Bytes>) returns (out: seq<ValidatorView>)
    requires forall k :: k in ids ==> k in accounts
    ensures out == Views(accounts, ids)
  {
    out := [];
    var i := 0;
    while i < |ids|
      invariant 0 <= i <= |ids|
      invariant out == Views(accounts, ids[..i])
    {
      assert ids[..i + 1][..i] == ids[..i];
      out := out + [ValidatorView(ids[i], accounts[ids[i]].stake)];
      i := i + 1;
    }
    assert ids[..|ids|] == ids;
  }

  method ListValidators(accounts: map<Bytes, Account>) returns (out: seq<ValidatorView>)
    ensures out == Validators(accounts)
  {
    var found := GatherActive(accounts);
    var ids := Sort(found);
    out := BuildViews(accounts, ids);
  }

  // ---- Stake-weighted election is exactly proportional --------------------------------------

  lemma {:induction false} SumStakesMonotone(vals: seq<ValidatorView>, i: nat, j: nat)
    requires i <= j <= |vals|
    ensures SumStakes(vals[..i]) <= SumStakes(vals[..j])
    decreases j
  {
    if i < j {
      assert vals[..j][..j - 1] == vals[..j - 1];
      SumStakesMonotone(vals, i, j - 1);
    }
  }

  lemma SumStakesStep(vals: seq<ValidatorView>, i: nat)
    requires i < |vals|
    ensures SumStakes(vals[..i + 1]) == SumStakes(vals[..i]) + vals[i].stake
    ensures SumStakes(vals[..i + 1]) <= SumStakes(vals)
  {
    assert vals[..i + 1][..i] == vals[..i];
    SumStakesMonotone(vals, i + 1, |vals|);
    assert vals[..|vals|] == vals;
  }

  /** The walk stops at the validator whose stretch of cumulative stake contains r: the fallback
      return is never reached. */
  lemma {:induction false} PickFindsStretch(vals: seq<ValidatorView>, i: nat, r: u64, k: nat)
    requires SumStakes(vals) < TWO64 && i <= k < |vals|
    requires SumStakes(vals[..k]) <= r < SumStakes(vals[..k + 1])
    ensures SumStakes(vals[..i]) < TWO64
    ensures PickFrom(vals, i, SumStakes(vals[..i]), r) == vals[k].nodeID
    decreases k - i
  {
    SumStakesStep(vals, i);
    if i < k {
      SumStakesMonotone(vals, i + 1, k);
      PickFindsStretch(vals, i + 1, r, k);
    }
  }

  /** Every residue below the total lies in the stretch of one validator. */
  lemma {:induction false} StretchExists(vals: seq<ValidatorView>, n: nat, r: nat) returns (k: nat)
    requires n <= |vals| && r < SumStakes(vals[..n])
    ensures k < n && SumStakes(vals[..k]) <= r < SumStakes(vals[..k + 1])
  {
    SumStakesStep(vals, n - 1);
    if r < SumStakes(vals[..n - 1]) {
      k := StretchExists(vals, n - 1, r);
    } else {
      k := n - 1;
    }
  }

  /** The residues of the seed that elect `id`. */
  ghost function Residues(vals: seq<ValidatorView>, id: Bytes): set<int>
    requires vals != [] && SumStakes(vals) < TWO64
  {
    set r: int | 0 <= r < SumStakes(vals) && PickFrom(vals, 0, 0, r) == id
  }

  ghost function Interval(lo: int, hi: int): (s: set<int>)
    requires lo <= hi
    ensures |s| == hi - lo && forall r :: r in s <==> lo <= r < hi
    decreases hi - lo
  {
    if lo == hi then {} else Interval(lo, hi - 1) + {hi - 1}
  }

  lemma ElectedExactlyOnStretch(vals: seq<ValidatorView>, k: nat, r: u64)
    requires k < |vals| && r < SumStakes(vals) < TWO64
    requires forall i, j :: 0 <= i < j < |vals| ==> vals[i].nodeID != vals[j].nodeID
    ensures PickFrom(vals, 0, 0, r) == vals[k].nodeID
       <==> SumStakes(vals[..k]) <= r < SumStakes(vals[..k + 1])
  {
    assert vals[..|vals|] == vals && vals[..0] == [];
    var j := StretchExists(vals, |vals|, r);
    PickFindsStretch(vals, 0, r, j);
    if SumStakes(vals[..k]) <= r < SumStakes(vals[..k + 1]) {
      PickFindsStretch(vals, 0, r, k);
    }
  }

  /** Out of the possible residues, a validator is elected by exactly as many as it has stake;
      in particular a validator without stake is never elected. */
  lemma ElectionIsProportional(vals: seq<ValidatorView>, k: nat)
    requires k < |vals| && SumStakes(vals) < TWO64
    requires forall i, j :: 0 <= i < j < |vals| ==> vals[i].nodeID != vals[j].nodeID
    ensures |Residues(vals, vals[k].nodeID)| == vals[k].stake
  {
    SumStakesStep(vals, k);
    var stretch := Interval(SumStakes(vals[..k]), SumStakes(vals[..k + 1]));
    forall r ensures r in Residues(vals, vals[k].nodeID) <==> r in stretch {
      if 0 <= r < SumStakes(vals) {
        ElectedExactlyOnStretch(vals, k, r);
      }
    }
    assert Residues(vals, vals[k].nodeID) == stretch;
  }

  /** The walk always elects a validator with stake. */
  lemma ElectedHasStake(vals: seq<ValidatorView>, r: u64) returns (k: nat)
    requires r < SumStakes(vals) < TWO64
    ensures k < |vals| && PickFrom(vals, 0, 0, r) == vals[k].nodeID && vals[k].stake > 0
  {
    assert vals[..|vals|] == vals && vals[..0] == [];
    k := StretchExists(vals, |vals|, r);
    PickFindsStretch(vals, 0, r, k);
    SumStakesStep(vals, k);
  }

  // ---- From residues to seed words ----------------------------------------------------------

  predicate Leaves(x: int, total: int, r: int)
    requires total > 0
  {
    x % total == r
  }

  /** The words below n that leave the residue r. */
  ghost function WordsFor(n: nat, total: int, r: int): set<int>
    requires total > 0
  {
    set x: int | 0 <= x < n && Leaves(x, total, r)
  }

  lemma NextQuotient(n: nat, total: int)
    requires n > 0 && total > 0
    ensures n % total == 0 ==> n / total == (n - 1) / total + 1 && (n - 1) % total == total - 1
    ensures n % total > 0 ==> n / total == (n - 1) / total && (n - 1) % total == n % total - 1
  {
    var q, r := (n - 1) / total, (n - 1) % total;
    if r == total - 1 {
      Quotient(n, total, q + 1, 0);
    } else {
      Quotient(n, total, q, r + 1);
    }
  }

  lemma Quotient(n: int, total: int, q: int, r: int)
    requires total > 0 && n == q * total + r && 0 <= r < total
    ensures n / total == q && n % total == r
  {
    var d := n / total - q;
    assert d * total == r - n % total by {
      assert n == (n / total) * total + n % total;
      assert (n / total) * total - q * total == d * total;
    }
    Multiples(d, total);
  }

  /** Each residue is left by the quotient of the words, and those below the rest by one more. */
  lemma {:induction false} WordsPerResidue(n: nat, total: int, r: int)
    requires 0 <= r < total
    ensures |WordsFor(n, total, r)| == n / total + (if r < n % total then 1 else 0)
  {
    if n == 0 {
      Quotient(0, total, 0, 0);
      assert WordsFor(0, total, r) == {};
    } else {
      WordsPerResidue(n - 1, total, r);
      NextQuotient(n, total);
      var before := WordsFor(n - 1, total, r);
      if Leaves(n - 1, total, r) {
        assert WordsFor(n, total, r) == before + {n - 1};
      } else {
        assert WordsFor(n, total, r) == before;
      }
    }
  }

  predicate LeavesWithin(x: int, total: int, lo: int, hi: int)
    requires total > 0
  {
    lo <= x % total < hi
  }

  ghost function WordsWithin(n: nat, total: int, lo: int, hi: int): set<int>
    requires total > 0
  {
    set x: int | 0 <= x < n && LeavesWithin(x, total, lo, hi)
  }

  /** How many of the residues from lo up to hi are below the rest. */
  function Extra(lo: int, hi: int, rest: int): int { if rest <= lo then 0 else Min(hi, rest) - lo }

  lemma LastResidue(n: nat, total: int, lo: int, hi: int)
    requires total > 0 && lo < hi
    ensures WordsWithin(n, total, lo, hi) == WordsWithin(n, total, lo, hi - 1) + WordsFor(n, total, hi - 1)
    ensures WordsWithin(n, total, lo, hi - 1) !! WordsFor(n, total, hi - 1)
  {
  }

  lemma LastExtra(lo: int, hi: int, rest: int)
    requires lo < hi
    ensures Extra(lo, hi, rest) == Extra(lo, hi - 1, rest) + (if hi - 1 < rest then 1 else 0)
  {
  }

  lemma OneMore(a: int, b: int)
    ensures a * b == (a - 1) * b + b
  {
  }

  predicate Division(n: nat, total: int, q: int, rest: int)
    requires total > 0
  {
    q == n / total && rest == n % total
  }

  lemma WordsForResidue(n: nat, total: int, q: int, rest: int, r: int)
    requires 0 <= r < total && Division(n, total, q, rest)
    ensures |WordsFor(n, total, r)| == q + (if r < rest then 1 else 0)
  {
    hide WordsFor;
    WordsPerResidue(n, total, r);
  }

  lemma NoStretch(n: nat, total: int, lo: int, rest: int)
    requires total > 0
    ensures WordsWithin(n, total, lo, lo) == {} && Extra(lo, lo, rest) == 0
  {
  }

  lemma {:induction false} WordsPerStretch(n: nat, total: int, q: int, rest: int, lo: int, hi: int)
    requires 0 <= lo <= hi <= total && total > 0 && Division(n, total, q, rest)
    ensures |WordsWithin(n, total, lo, hi)| == (hi - lo) * q + Extra(lo, hi, rest)
    decreases hi - lo
  {
    hide WordsWithin, WordsFor, Extra, Division;
    if lo == hi {
      NoStretch(n, total, lo, rest);
    } else {
      WordsPerStretch(n, total, q, rest, lo, hi - 1);
      WordsForResidue(n, total, q, rest, hi - 1);
      LastResidue(n, total, lo, hi);
      LastExtra(lo, hi, rest);
      OneMore(hi - lo, q);
    }
  }

  /** The seed words, 64 bits wide, that elect `id`. */
  ghost function ElectingWords(vals: seq<ValidatorView>, id: Bytes): set<int>
    requires vals != [] && 0 < SumStakes(vals) < TWO64
  {
    set x: int | 0 <= x < TWO64 && PickFrom(vals, 0, 0, x % SumStakes(vals)) == id
  }

  lemma ElectingWordIff(vals: seq<ValidatorView>, k: nat, x: int)
    requires k < |vals| && 0 < SumStakes(vals) < TWO64 && 0 <= x < TWO64
    requires forall i, j :: 0 <= i < j < |vals| ==> vals[i].nodeID != vals[j].nodeID
    ensures PickFrom(vals, 0, 0, x % SumStakes(vals)) == vals[k].nodeID
       <==> LeavesWithin(x, SumStakes(vals), SumStakes(vals[..k]), SumStakes(vals[..k + 1]))
  {
    hide SumStakes, PickFrom;
    Remains(x, SumStakes(vals));
    ElectedExactlyOnStretch(vals, k, x % SumStakes(vals));
  }

  lemma WordsOfStretch(vals: seq<ValidatorView>, k: nat)
    requires k < |vals| && 0 < SumStakes(vals) < TWO64
    requires forall i, j :: 0 <= i < j < |vals| ==> vals[i].nodeID != vals[j].nodeID
    ensures ElectingWords(vals, vals[k].nodeID)
         == WordsWithin(TWO64, SumStakes(vals), SumStakes(vals[..k]), SumStakes(vals[..k + 1]))
  {
    hide SumStakes, PickFrom, LeavesWithin;
    forall x | 0 <= x < TWO64
      ensures PickFrom(vals, 0, 0, x % SumStakes(vals)) == vals[k].nodeID
         <==> LeavesWithin(x, SumStakes(vals), SumStakes(vals[..k]), SumStakes(vals[..k + 1]))
    {
      ElectingWordIff(vals, k, x);
    }
  }

  /** The seed word is reduced modulo the total stake, so the election is as even as that allows: a
      validator is elected by stake times the quotient of the words, plus as many words as residues of
      its stretch are below the rest -- at most one for each unit of stake. */
  lemma WordsAreSpread(vals: seq<ValidatorView>, k: nat)
    requires k < |vals| && 0 < SumStakes(vals) < TWO64
    requires forall i, j :: 0 <= i < j < |vals| ==> vals[i].nodeID != vals[j].nodeID
    ensures var total, elected := SumStakes(vals), |ElectingWords(vals, vals[k].nodeID)|;
      && elected == vals[k].stake * (TWO64 / total)
           + Extra(SumStakes(vals[..k]), SumStakes(vals[..k + 1]), TWO64 % total)
      && vals[k].stake * (TWO64 / total) <= elected <= vals[k].stake * ((TWO64 + total - 1) / total)
  {
    hide SumStakes, ElectingWords, WordsWithin;
    var total, lo, hi := SumStakes(vals), SumStakes(vals[..k]), SumStakes(vals[..k + 1]);
    SumStakesStep(vals, k);
    WordsPerStretch(TWO64, total, TWO64 / total, TWO64 % total, lo, hi);
    WordsOfStretch(vals, k);
    ExtraBounds(lo, hi, TWO64 % total);
    RoundedUp(vals[k].stake, total, Extra(lo, hi, TWO64 % total));
  }

  lemma ExtraBounds(lo: nat, hi: nat, rest: nat)
    requires lo <= hi
    ensures 0 <= Extra(lo, hi, rest) <= hi - lo && (rest == 0 ==> Extra(lo, hi, rest) == 0)
  {
  }

  lemma Remains(x: int, total: int)
    requires 0 < total < TWO64 && 0 <= x < TWO64
    ensures 0 <= x % total < total
  {
  }

  lemma RoundedUp(stake: nat, total: int, extra: int)
    requires 0 < total < TWO64 && 0 <= extra <= stake && (TWO64 % total == 0 ==> extra == 0)
    ensures stake * (TWO64 / total) + extra <= stake * ((TWO64 + total - 1) / total)
  {
    var q, r := TWO64 / total, TWO64 % total;
    assert TWO64 == q * total + r;
    if r == 0 {
      Quotient(TWO64 + total - 1, total, q, total - 1);
    } else {
      assert (q + 1) * total == q * total + total;
      Quotient(TWO64 + total - 1, total, q + 1, r - 1);
      assert stake * (q + 1) == stake * q + stake;
    }
  }

  // ---- The election on its inputs -----------------------------------------------------------

  /** Eight bytes hold a 64-bit word. */
  lemma WordBound(b: Bytes)
    requires |b| == 8
    ensures 0 <= BigEndianValue(b) < TWO64
  {
    hide BigEndianValue;
    BigEndianBound(b);
    assert Pow256(8) == 0x1_0000_0000 * Pow256(4);
  }

  /** The validators are exactly the active accounts with their stakes, in ascending order of id. */
  lemma ValidatorsAreActive(accounts: map<Bytes, Account>)
    ensures var vals := Validators(accounts);
      && (forall v :: v in vals <==>
            v.nodeID in accounts && accounts[v.nodeID].active && v.stake == accounts[v.nodeID].stake)
      && (forall i, j :: 0 <= i < j < |vals| ==> Less(vals[i].nodeID, vals[j].nodeID))
  {
    var ids, vals := SortedKeys(ActiveIds(accounts)), Validators(accounts);
    hide Less;
    forall v ensures v in vals <==>
      v.nodeID in accounts && accounts[v.nodeID].active && v.stake == accounts[v.nodeID].stake
    {
      if v.nodeID in ids {
        var i :| 0 <= i < |ids| && ids[i] == v.nodeID;
        assert vals[i] == ValidatorView(ids[i], accounts[ids[i]].stake);
      }
      if v in vals {
        var i :| 0 <= i < |vals| && vals[i] == v;
        assert ids[i] in ids;
      }
    }
  }

  lemma SelectWeighted(p: Primitives, vals: seq<ValidatorView>, prevHash: Bytes, slot: u64)
    requires 0 < SumStakes(vals) < TWO64
    ensures var word := BigEndianValue(p.sha256(prevHash + BigEndian(slot, 8))[8..16]);
      0 <= word % SumStakes(vals) < SumStakes(vals) && vals != []
      && Select(p, vals, prevHash, slot) == PickFrom(vals, 0, 0, word % SumStakes(vals))
  {
    hide BigEndianValue, PickFrom, BigEndian;
    TotalStakeExact(vals);
    WordBound(p.sha256(prevHash + BigEndian(slot, 8))[8..16]);
    Remains(BigEndianValue(p.sha256(prevHash + BigEndian(slot, 8))[8..16]), SumStakes(vals));
  }

  /** With stake: the second word of the seed, reduced modulo the total stake, falls into the stretch of
      the elected validator; the words that elect it are those counted by WordsAreSpread. */
  lemma ElectedByWord(p: Primitives, l: Ledger, prevHash: Bytes, slot: u64, k: nat)
    requires k < |Validators(l.accounts)| && 0 < SumStakes(Validators(l.accounts)) < TWO64
    ensures var vals, word := Validators(l.accounts), BigEndianValue(p.sha256(prevHash + BigEndian(slot, 8))[8..16]);
      var elected := SelectProposer(p, l, prevHash, slot) == vals[k].nodeID;
      && (elected <==> SumStakes(vals[..k]) <= word % SumStakes(vals) < SumStakes(vals[..k + 1]))
      && (elected <==> word in ElectingWords(vals, vals[k].nodeID))
  {
    hide BigEndian, BigEndianValue, PickFrom, Select, SumStakes, Validators;
    var vals, word := Validators(l.accounts), BigEndianValue(p.sha256(prevHash + BigEndian(slot, 8))[8..16]);
    SelectWeighted(p, vals, prevHash, slot);
    WordBound(p.sha256(prevHash + BigEndian(slot, 8))[8..16]);
    ElectedExactlyOnStretch(vals, k, word % SumStakes(vals));
  }

  /** The second word of the seed, reduced modulo the total. */
  function SeedResidue(p: Primitives, prevHash: Bytes, slot: u64, total: int): int
    requires total > 0
  {
    BigEndianValue(p.sha256(prevHash + BigEndian(slot, 8))[8..16]) % total
  }

  /** The residue lies among those that belong to validator k. */
  predicate InStretch(vals: seq<ValidatorView>, k: nat, residue: int)
    requires k < |vals|
  {
    SumStakes(vals[..k]) <= residue < SumStakes(vals[..k + 1])
  }

  lemma ElectedByStretch(p: Primitives, l: Ledger, prevHash: Bytes, slot: u64)
    requires 0 < SumStakes(Validators(l.accounts)) < TWO64
    ensures var vals := Validators(l.accounts);
      var residue := SeedResidue(p, prevHash, slot, SumStakes(vals));
      forall k :: 0 <= k < |vals| ==>
        (SelectProposer(p, l, prevHash, slot) == vals[k].nodeID <==> InStretch(vals, k, residue))
  {
    var vals := Validators(l.accounts);
    var residue := SeedResidue(p, prevHash, slot, SumStakes(vals));
    hide SelectProposer, InStretch, SeedResidue;
    forall k | 0 <= k < |vals|
      ensures SelectProposer(p, l, prevHash, slot) == vals[k].nodeID <==> InStretch(vals, k, residue)
    {
      ElectedInStretch(p, l, prevHash, slot, k);
    }
  }

  lemma ElectedInStretch(p: Primitives, l: Ledger, prevHash: Bytes, slot: u64, k: nat)
    requires k < |Validators(l.accounts)| && 0 < SumStakes(Validators(l.accounts)) < TWO64
    ensures var vals := Validators(l.accounts);
      var residue := SeedResidue(p, prevHash, slot, SumStakes(vals));
      SelectProposer(p, l, prevHash, slot) == vals[k].nodeID <==> InStretch(vals, k, residue)
  {
    hide SelectProposer, BigEndian, BigEndianValue, SumStakes, Validators, PickFrom;
    ElectedByWord(p, l, prevHash, slot, k);
  }

  lemma {:induction false} NoStakeNoTotal(vals: seq<ValidatorView>)
    requires forall v :: v in vals ==> v.stake == 0
    ensures TotalStake(vals) == 0 && SumStakes(vals) == 0
  {
    if vals != [] {
      NoStakeNoTotal(vals[..|vals| - 1]);
    }
  }

  /** Without stake: the first word of the seed, reduced modulo their number, is the position of the elected
      validator; of the 2^64 words each position has the same number, or one more. */
  lemma ElectedByPosition(p: Primitives, l: Ledger, prevHash: Bytes, slot: u64, k: nat)
    requires k < |Validators(l.accounts)| && forall v :: v in Validators(l.accounts) ==> v.stake == 0
    ensures var vals, word := Validators(l.accounts), BigEndianValue(p.sha256(prevHash + BigEndian(slot, 8))[..8]);
      && (SelectProposer(p, l, prevHash, slot) == vals[k].nodeID <==> word % |vals| == k)
      && |WordsFor(TWO64, |vals|, k)| == TWO64 / |vals| + (if k < TWO64 % |vals| then 1 else 0)
  {
    hide BigEndian, BigEndianValue, Validators, WordsFor;
    var vals, word := Validators(l.accounts), BigEndianValue(p.sha256(prevHash + BigEndian(slot, 8))[..8]);
    NoStakeNoTotal(vals);
    var j := word % |vals|;
    assert 0 <= j < |vals|;
    assert j < k ==> vals[j].nodeID != vals[k].nodeID;
    assert k < j ==> vals[k].nodeID != vals[j].nodeID;
    WordsPerResidue(TWO64, |vals|, k);
  }

  lemma {:induction false} PickIsListed(vals: seq<ValidatorView>, i: nat, acc: u64, r: u64)
    requires i <= |vals| && vals != []
    ensures exists k :: 0 <= k < |vals| && vals[k].nodeID == PickFrom(vals, i, acc, r)
    decreases |vals| - i
  {
    if i == |vals| {
      assert vals[|vals| - 1].nodeID == PickFrom(vals, i, acc, r);
    } else if r < Add64(acc, vals[i].stake) {
      assert vals[i].nodeID == PickFrom(vals, i, acc, r);
    } else {
      PickIsListed(vals, i + 1, Add64(acc, vals[i].stake), r);
    }
  }

  /** Whatever the stakes: whoever is elected is an active account, and nobody is elected exactly when no
      account is active (unless one without an id is). */
  lemma ElectedIsActive(p: Primitives, l: Ledger, prevHash: Bytes, slot: u64)
    ensures var id := SelectProposer(p, l, prevHash, slot);
      && ((forall k :: k in l.accounts ==> !l.accounts[k].active) ==> id == [])
      && (id == [] || (id in l.accounts && l.accounts[id].active))
      && (([] in l.accounts ==> !l.accounts[[]].active) ==>
            (id == [] <==> forall k :: k in l.accounts ==> !l.accounts[k].active))
  {
    hide BigEndian, BigEndianValue, PickFrom, TotalStake;
    var vals, id := Validators(l.accounts), SelectProposer(p, l, prevHash, slot);
    ValidatorsAreActive(l.accounts);
    hide Validators;
    if vals == [] {
      forall k | k in l.accounts ensures !l.accounts[k].active {
        assert ValidatorView(k, l.accounts[k].stake) !in vals;
      }
    } else {
      if TotalStake(vals) != 0 {
        PickIsListed(vals, 0, 0, BigEndianValue(Seed(p, prevHash, slot)[8..16]) % TotalStake(vals));
      }
      var k :| 0 <= k < |vals| && vals[k].nodeID == id;
      assert vals[k] in vals;
    }
  }

  /** A node may propose exactly if it has an id, and nobody or it is elected. */
  lemma MayProposeIff(p: Primitives, l: Ledger, prevHash: Bytes, nodeID: Bytes, slot: u64)
    requires [] in l.accounts ==> !l.accounts[[]].active
    ensures MayPropose(p, l, prevHash, nodeID, slot) <==>
      && nodeID != []
      && ((forall k :: k in l.accounts ==> !l.accounts[k].active) || SelectProposer(p, l, prevHash, slot) == nodeID)
  {
    hide SelectProposer;
    ElectedIsActive(p, l, prevHash, slot);
  }
}
