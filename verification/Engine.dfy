/** The chain engine: store, ledger and mempool moving together (internal/chain/engine.go). */
module Engines {
  import opened Base
  import opened ByteOrder
  import opened Types
  import opened Ledgers
  import opened Commitment
  import opened Consensus
  import opened States
  import opened Stores
  import opened Mempools
  import opened Acceptance
  import opened Proposing
  import opened Stutter
  import opened Chain
  import opened Tickets
  import Merkle
  import Election
  import Evidence
  import Nonces
  import Verdicts

  // ---- Genesis and validation ---------------------------------------------------------------

  method BuildGenesis(p: Primitives) returns (b: Block)
    ensures b == Genesis(p)
  {
    b := GenesisDraft(p);
    hide Ledgers.ApplyBlock, Root, GenesisDraft;
    var st := new State();
    var e := st.ApplyBlock(p, b);
    var root := st.ComputeRoot(p);
    b := b.(header := b.header.(stateRoot := root));
  }

  method ValidateMainnetGenesis(p: Primitives, b: Block) returns (ok: bool)
    ensures ok <==> IsGenesis(p, b)
  {
    hide HashHex, Genesis;
    if b.header.height != 0 { return false; }
    var g := BuildGenesis(p);
    return HashHex(p, b.header) == HashHex(p, g.header)
        && b.header.stateRoot == g.header.stateRoot && b.header.merkleRoot == g.header.merkleRoot;
  }

  /** The checks of consensus.go:9-58, in their order. */
  method ValidateBlock(p: Primitives, b: Block, prev: Option<Header>, st: State) returns (err: Option<BlockError>)
    ensures err == Validate(p, b, prev, st.View())
    ensures prev.Some? && err.None? ==> Verdicts.SealedInTime(p, b.header)
  {
    Verdicts.SignedIff(p, b.header);
    Verdicts.WindowIff(b.header);
    hide HashHex, ProposerSigned, InSlotWindow, CoinbaseOK, IsGenesis, Merkle.Root, Election.MayPropose;
    if p.blockSize(b) > MAX_BLOCK_BYTES { return Some(BlockTooLarge); }
    var root := Merkle.MerkleRoot(p.sha256, Merkle.TxIDs(p, b.txs));
    if root != b.header.merkleRoot { return Some(BadMerkle); }
    if prev.None? {
      if b.header.height != 0 { return Some(BadHeight); }
      var ok := ValidateMainnetGenesis(p, b);
      return if ok then None else Some(BadGenesis);
    }
    if b.header.prevBlock != HashHex(p, prev.value) { return Some(BadPrev); }
    if b.header.height != Add64(prev.value.height, 1) { return Some(BadHeight); }
    if b.header.slot <= prev.value.slot && b.header.height > 0 {
      if b.header.slot < prev.value.slot { return Some(BadSlot); }
    }
    if !InSlotWindow(b.header) { return Some(BadSlot); }
    if !ProposerSigned(p, b.header) { return Some(BadProposer); }
    if b.header.proposer == [] { return Some(BadProposer); }
    var may := st.MayPropose(p, HashHex(p, prev.value), b.header.proposer, b.header.slot);
    if !may { return Some(BadProposer); }
    var paid := ValidateCoinbase(p, b);
    if !paid { return Some(BadCoinbase); }
    return None;
  }

  // ---- Reopening ----------------------------------------------------------------------------

  datatype Opened =
    | OpenedAt(ledger: Ledger) | MissingGenesis | NotGenesis | MissingBlock(height: nat)
    | ReplayFailed(at: nat, err: BlockError)

  /** Replays the blocks below height n from an empty ledger. */
  function ReplayStored(p: Primitives, byH: map<u64, Block>, n: nat): Opened
    requires n <= TWO64
  {
    if n == 0 then OpenedAt(NEW_LEDGER) else
    var r := ReplayStored(p, byH, n - 1);
    if !r.OpenedAt? then r
    else if n - 1 !in byH then MissingBlock(n - 1)
    else
      var s := Ledgers.ApplyBlock(p, r.ledger, byH[n - 1]);
      if s.err.Some? then ReplayFailed(n - 1, s.err.value) else OpenedAt(s.ledger)
  }

  /** OpenEngine on a non-empty store: nothing but genesis is validated, everything is replayed. */
  ghost function OpenStored(p: Primitives, v: Indexes): Opened
    requires v.tip.Some?
  {
    if 0 !in v.byH then MissingGenesis
    else if !IsGenesis(p, v.byH[0]) then NotGenesis
    else ReplayStored(p, v.byH, v.tip.value.header.height + 1)
  }

  lemma {:induction false} ReplayStops(p: Primitives, byH: map<u64, Block>, h: nat, n: nat)
    requires h <= n <= TWO64 && !ReplayStored(p, byH, h).OpenedAt?
    ensures ReplayStored(p, byH, n) == ReplayStored(p, byH, h)
    decreases n
  {
    hide Ledgers.ApplyBlock;
    if h < n {
      ReplayStops(p, byH, h, n - 1);
    }
  }

  method ReplayLoop(p: Primitives, store: Store, state: State) returns (r: Opened)
    requires store.tip.Some? && state.View() == NEW_LEDGER
    modifies state
    ensures r == ReplayStored(p, store.byH, store.tip.value.header.height + 1)
    ensures r.OpenedAt? ==> state.View() == r.ledger
  {
    hide Ledgers.ApplyBlock;
    var n := store.tip.value.header.height + 1;
    var h := 0;
    while h < n
      invariant 0 <= h <= n
      invariant ReplayStored(p, store.byH, h) == OpenedAt(state.View())
    {
      if h !in store.byH {
        ReplayStops(p, store.byH, h + 1, n);
        return MissingBlock(h);
      }
      var e := state.ApplyBlock(p, store.byH[h]);
      if e.Some? {
        ReplayStops(p, store.byH, h + 1, n);
        return ReplayFailed(h, e.value);
      }
      h := h + 1;
    }
    return OpenedAt(state.View());
  }

  /** OpenEngine on a store read from disk. */
  method Reopen(p: Primitives, id: Identity, stored: seq<Block>) returns (r: Opened, e: Engine?)
    requires Sound(p) && IndexAll(p, stored).tip.Some?
    ensures r == OpenStored(p, IndexAll(p, stored))
    ensures r.OpenedAt? <==> e != null
    ensures e != null ==> fresh(e) && fresh(e.store) && fresh(e.state) && fresh(e.mempool) && fresh(e.mempool.buf)
    ensures e != null ==> e.store.View() == IndexAll(p, stored) && e.state.View() == r.ledger
    ensures AcceptedChain(p, stored) ==> e != null && e.Valid() && e.chain == stored && e.mempool.Order() == []
  {
    if AcceptedChain(p, stored) {
      ReopenRestores(p, stored);
    }
    hide AcceptedChain, IndexAll, Replay, OpenStored, IsGenesis, Sound, ReplayStored;
    e := null;
    var store := new Store.Open(p, stored);
    var state := new State();
    var mempool := new Mempool(p, 5000);
    r := OpenOutcome(p, store, state);
    if r.OpenedAt? {
      e := new Engine.Resume(p, id, store, state, mempool, stored);
    }
  }

  method OpenOutcome(p: Primitives, store: Store, state: State) returns (r: Opened)
    requires store.tip.Some? && state.View() == NEW_LEDGER
    modifies state
    ensures r == OpenStored(p, store.View())
    ensures r.OpenedAt? ==> state.View() == r.ledger
  {
    hide IsGenesis, ReplayStored;
    var g := store.GetByHeight(0);
    if g.None? { return MissingGenesis; }
    var ok := ValidateMainnetGenesis(p, g.value);
    if !ok { return NotGenesis; }
    r := ReplayLoop(p, store, state);
  }

  lemma {:induction false} ReplayStoredChain(p: Primitives, chain: seq<Block>, n: nat)
    requires n <= |chain| <= TWO64 && Contiguous(chain) && Applies(p, chain[..n])
    ensures ReplayStored(p, IndexAll(p, chain).byH, n) == OpenedAt(Replay(p, chain[..n]))
    decreases n
  {
    hide Ledgers.ApplyBlock, IndexAll;
    if n > 0 {
      assert chain[..n][..n - 1] == chain[..n - 1];
      ReplayStoredChain(p, chain, n - 1);
      ChainIndexes(p, chain);
    }
  }

  /** Reopening a store that holds an accepted chain succeeds and rebuilds the very ledger the engine
      had when it closed. */
  lemma ReopenRestores(p: Primitives, chain: seq<Block>)
    requires Sound(p) && AcceptedChain(p, chain)
    ensures IndexAll(p, chain).tip.Some?
    ensures OpenStored(p, IndexAll(p, chain)) == OpenedAt(Replay(p, chain))
  {
    ChainIsLinked(p, chain);
    ChainFacts(p, chain);
    assert Fitting(p, chain, 0);
    ChainIndexes(p, chain);
    hide Replay, Applies, HashHex, Judge, Sound, Genesis, IndexAll;
    assert chain[|chain| - 1].header.height == |chain| - 1;
    assert chain[..|chain|] == chain;
    ReplayStoredChain(p, chain, |chain|);
  }

  // ---- The engine ---------------------------------------------------------------------------

  datatype SubmitError = Refused(tx: TxError) | NotAdded(add: AddError)

  /** The first block of an empty store and an empty ledger. */
  method InstallGenesis(p: Primitives, store: Store, state: State)
    requires Sound(p) && store.p == p && store.View() == IndexAll(p, []) && state.View() == NEW_LEDGER
    modifies store, state
    ensures AcceptedChain(p, [Genesis(p)])
    ensures store.View() == IndexAll(p, [Genesis(p)]) && state.View() == Replay(p, [Genesis(p)])
  {
    GenesisChain(p);
    hide Ledgers.ApplyBlock, Replay, Root, Genesis, AcceptedChain, IndexAll, IndexBlock, Listing, Sound, HashHex;
    var g := BuildGenesis(p);
    var e := state.ApplyBlock(p, g);
    var saved := store.Append(g);
  }

  class Engine {
    const p: Primitives
    const id: Identity
    const store: Store
    const state: State
    const mempool: Mempool
    var mining: bool
    /** The blocks accepted so far, genesis first. */
    ghost var chain: seq<Block>

    /** Store and ledger are both functions of the chain of accepted blocks, and the mempool's map and
        queue agree. */
    ghost predicate Valid()
      reads `chain, store, state, mempool, mempool.buf
    {
      && Sound(p) && AcceptedChain(p, chain)
      && store.p == p && store.View() == IndexAll(p, chain)
      && state.View() == Replay(p, chain)
      && mempool.Valid(p)
    }

    /** OpenEngine on an empty directory: installs the genesis block. */
    constructor Create(p: Primitives, id: Identity)
      requires Sound(p)
      ensures Valid() && this.p == p && this.id == id && chain == [Genesis(p)]
      ensures fresh(store) && fresh(state) && fresh(mempool) && fresh(mempool.buf) && mempool.Order() == []
    {
      this.p, this.id, mining := p, id, false;
      store := new Store.Open(p, []);
      state := new State();
      mempool := new Mempool(p, 5000);
      chain := [Genesis(p)];
      new;
      hide Replay, Genesis, AcceptedChain, IndexAll, Agree, Sound;
      InstallGenesis(p, store, state);
    }

    /** The ledger, the store and the mempool are as they were. */
    twostate predicate Unchanged()
      reads `chain, store, state, mempool, mempool.buf
    {
      && chain == old(chain) && state.View() == old(state.View()) && store.View() == old(store.View())
      && mempool.byID == old(mempool.byID) && mempool.buf == old(mempool.buf)
      && mempool.lo == old(mempool.lo) && mempool.hi == old(mempool.hi) && mempool.buf[..] == old(mempool.buf[..])
    }

    /** The block on a clone of the ledger: does it apply, and does it lead to the root it carries? */
    method DryRun(b: Block) returns (v: Verdict)
      requires state.View().pending == 0
      ensures var r := Ledgers.ApplyBlock(p, state.View(), b);
        v == if r.err.Some? then Reject(r.err.value)
             else if Root(p, r.ledger) != b.header.stateRoot then Reject(BadState) else Extend
    {
      hide Ledgers.ApplyBlock, Root;
      var clone := state.Clone();
      var err := clone.ApplyBlock(p, b);
      if err.Some? { return Reject(err.value); }
      var root := clone.ComputeRoot(p);
      if root != b.header.stateRoot { return Reject(BadState); }
      return Extend;
    }

    /** The part of acceptLocked that only looks: stale blocks, ValidateBlock, and a dry run on a clone. */
    method Check(b: Block) returns (v: Verdict)
      requires Valid()
      ensures v == Judge(p, chain, state.View(), b)
    {
      TipOfStore();
      hide Ledgers.ApplyBlock, Replay, Root, Validate, HashHex, Sound, AcceptedChain, IndexAll, Mempool.Valid;
      hide Verdicts.SealedInTime;
      var tip := store.tip;
      var prev: Option<Header> := None;
      var parentState := state.Clone();
      if tip.Some? {
        prev := Some(tip.value.header);
        if b.header.height <= tip.value.header.height {
          if HashHex(p, b.header) == HashHex(p, tip.value.header) { return Ignore; }
          if b.header.height < tip.value.header.height { return Ignore; }
        }
      }
      var err := ValidateBlock(p, b, prev, parentState);
      if err.Some? { return Reject(err.value); }
      v := DryRun(b);
    }

    /** AcceptBlock is atomic: it either extends the chain by the block and drops the block's
        transactions from the mempool, or changes nothing at all. Once the dry run has succeeded the
        real one cannot fail. */
    method AcceptLocked(b: Block) returns (err: Option<BlockError>)
      requires Valid()
      modifies store, state, mempool, mempool.buf, `chain
      ensures Valid() && mempool.buf == old(mempool.buf)
      ensures match Judge(p, old(chain), old(state.View()), b)
        case Extend =>
          && err.None? && chain == old(chain) + [b]
          && mempool.Order() == FilterOut(old(mempool.Order()), set x | x in Merkle.TxIDs(p, b.txs))
          && mempool.byID == old(mempool.byID) - (set x | x in Merkle.TxIDs(p, b.txs))
        case Ignore => err.None? && Unchanged()
        case Reject(e) => err == Some(e) && Unchanged()
    {
      hide Judge, Agree, FilterOut, Merkle.TxIDs, Valid;
      var v := Check(b);
      if v.Ignore? { return None; }
      if v.Reject? { return Some(v.err); }
      err := ExtendBy(b);
    }

    /** AcceptBlock: acceptLocked under the lock. HasTxHash never turns from yes to no for a burn, as long
        as no two of the transaction texts in s collide. */
    method AcceptBlock(b: Block, ghost s: set<Bytes>) returns (err: Option<BlockError>)
      requires Valid()
      modifies store, state, mempool, mempool.buf, `chain
      ensures Valid() && mempool.buf == old(mempool.buf)
      ensures match Judge(p, old(chain), old(state.View()), b)
        case Extend => err.None? && chain == old(chain) + [b]
        case Ignore => err.None? && Unchanged()
        case Reject(e) => err == Some(e) && Unchanged()
      ensures Evidence.Apart(s, p, b.txs, old(mempool.byID)) ==> forall hash ::
        old(hash in state.View().burns || (hash in mempool.byID && mempool.byID[hash].kind.Burn?)) ==>
          Evidence.Known(state.View(), mempool.byID, hash)
    {
      hide Judge, Agree, FilterOut, Merkle.TxIDs, Valid, Evidence.Apart;
      ghost var l, byID, before := state.View(), mempool.byID, chain;
      LedgerOfChain();
      err := AcceptLocked(b);
      LedgerOfChain();
      if Judge(p, before, l, b).Extend? {
        ExtendedLedger(p, before, b);
        if Evidence.Apart(s, p, b.txs, byID) {
          forall hash | hash in l.burns || (hash in byID && byID[hash].kind.Burn?)
            ensures Evidence.Known(state.View(), mempool.byID, hash)
          {
            Evidence.AcceptKeepsEvidence(s, p, l, b, byID, hash);
          }
        }
      }
    }

    lemma LedgerOfChain()
      requires Valid()
      ensures Sound(p) && AcceptedChain(p, chain) && state.View() == Replay(p, chain)
    {
    }

    /** Ledger and store move to the chain extended by the block. */
    method WriteBlock(b: Block) returns (err: Option<BlockError>)
      requires AcceptedChain(p, chain) && state.View() == Replay(p, chain)
      requires store.p == p && store.View() == IndexAll(p, chain)
      requires Judge(p, chain, state.View(), b).Extend?
      modifies store, state
      ensures err.None? && AcceptedChain(p, chain + [b])
      ensures state.View() == Replay(p, chain + [b]) && store.View() == IndexAll(p, chain + [b])
    {
      ExtendedChain(p, chain, b);
      hide Ledgers.ApplyBlock, Replay, Root, Judge, AcceptedChain, IndexAll, IndexBlock, Listing;
      err := state.ApplyBlock(p, b);
      if err.Some? { return; }
      var saved := store.Append(b);
    }

    /** The part of acceptLocked that writes: ledger, store, mempool. */
    method ExtendBy(b: Block) returns (err: Option<BlockError>)
      requires Valid() && Judge(p, chain, state.View(), b).Extend?
      modifies store, state, mempool, mempool.buf, `chain
      ensures Valid() && mempool.buf == old(mempool.buf)
      ensures err.None? && chain == old(chain) + [b]
      ensures mempool.Order() == FilterOut(old(mempool.Order()), set x | x in Merkle.TxIDs(p, b.txs))
      ensures mempool.byID == old(mempool.byID) - (set x | x in Merkle.TxIDs(p, b.txs))
    {
      hide Replay, Root, Judge, Sound, AcceptedChain, IndexAll, Agree, FilterOut, Merkle.TxIDs;
      err := WriteBlock(b);
      mempool.Remove(p, Merkle.TxIDs(p, b.txs));
      chain := chain + [b];
    }

    /** An engine put together by OpenEngine from a store and the ledger replayed from it. */
    constructor Resume(p: Primitives, id: Identity, store: Store, state: State, mempool: Mempool,
                       ghost chain: seq<Block>)
      ensures this.p == p && this.id == id && this.store == store && this.state == state && this.mempool == mempool
      ensures this.chain == chain
    {
      this.p, this.id, this.store, this.state, this.mempool := p, id, store, state, mempool;
      mining, this.chain := false, chain;
    }

    /** Lets a transaction into the mempool if it applies on a copy of the ledger. */
    method SubmitTx(tx: Transaction) returns (err: Option<SubmitError>)
      requires Valid()
      modifies mempool, mempool.buf
      ensures Valid() && (mempool.buf == old(mempool.buf) || fresh(mempool.buf))
      ensures state.View() == old(state.View()) && store.View() == old(store.View())
      ensures var dry := Ledgers.ApplyTx(p, state.View(), tx, NextHeight(Tip(chain)));
        err == if dry.err.Some? then Some(Refused(dry.err.value))
               else if TxID(p, tx) in old(mempool.byID) then Some(NotAdded(Duplicate)) else None
      ensures err.Some? ==> mempool.Order() == old(mempool.Order()) && mempool.byID == old(mempool.byID)
      ensures err.None? ==> var full := |old(mempool.Order())| >= mempool.max;
        && mempool.Order() == (if full then old(mempool.Order())[1..] else old(mempool.Order())) + [TxID(p, tx)]
        && TxID(p, tx) in mempool.byID && mempool.byID[TxID(p, tx)] == tx
    {
      TipOfStore();
      hide Replay, Root, Sound, AcceptedChain, IndexAll, TxID, Ledgers.ApplyTx, SignedBySender, Agree;
      var clone := state.Clone();
      var height := store.Height();
      var e := clone.ApplyTx(p, tx, Add64(height, 1));
      if e.Some? { return Some(Refused(e.value)); }
      DryRunVerifies(p, state.View(), tx, NextHeight(Tip(chain)));
      var added := mempool.Add(p, tx);
      if added.Some? { return Some(NotAdded(added.value)); }
      return None;
    }

    method HasTxHash(hash: Bytes) returns (has: bool)
      requires Valid()
      ensures has <==> Evidence.Known(state.View(), mempool.byID, hash)
    {
      has := mempool.Has(hash);
      if has { return; }
      has := state.HasBurnTx(hash);
    }

    /** A ticket is issued only for a burn that is pending or confirmed here. */
    method IssueTicketForBurn(tx: Transaction, nonce: u64, nowUs: i64) returns (t: Option<BurnTicket>)
      requires Valid()
      ensures t == if tx.kind == Burn && (TxID(p, tx) in mempool.byID || TxID(p, tx) in state.View().burns)
                   then IssueBurnTicket(p, tx, id.nodeID, id.priv, NextHeight(Tip(chain)), nonce, nowUs) else None
    {
      TipOfStore();
      hide Valid, TxID, IssueBurnTicket;
      if tx.kind != Burn { return None; }
      var txid := TxID(p, tx);
      var pending := mempool.Has(txid);
      var confirmed := state.HasBurnTx(txid);
      if !pending && !confirmed { return None; }
      var height := store.Height();
      return IssueBurnTicket(p, tx, id.nodeID, id.priv, Add64(height, 1), nonce, nowUs);
    }

    // ---- Proposing --------------------------------------------------------------------------

    /** What Peek(200) offers to the producer. */
    ghost function Offered(): seq<Transaction>
      requires mempool.Valid(p)
      reads mempool, mempool.buf
    {
      Pending(mempool.byID, mempool.Order()[..Min(200, |mempool.Order()|)])
    }

    /** The proposer's own transactions (engine.go:394-426). */
    method BuildFront(height: u64, slot: u64) returns (body: seq<Transaction>)
      requires state.View().pending == 0
      ensures body == Front(p, id, state.View(), height, slot)
    {
      hide Ledgers.ApplyTx, TxVerifies, ActivationFor;
      body := [];
      var scheduled := ComputeBlockReward(height);
      var reward := scheduled;
      if reward > state.minerPoolRemaining {
        reward := state.minerPoolRemaining;
      }
      if height > 0 && scheduled > 0 {
        var data := p.encodeCoinbase(CoinbaseData(reward, height, slot));
        body := [Transaction(Coinbase, id.nodeID, id.edPub, 0, 0, data, [])];
      }
      assert body == Reward(p, id, state.View(), height, slot);
      var me := state.GetAccount(id.nodeID);
      if !me.active {
        var act := ActivationFor(p, id, me.nonce);
        var dry := state.Clone();
        var e := dry.ApplyAll(p, body, height);
        var refused := dry.ApplyTx(p, act, height);
        if refused.None? {
          body := body + [act];
        }
      }
    }

    /** Keeps those offered transactions that apply on the scratch ledger (engine.go:435-440). */
    method KeepApplicable(scratch: State, txs: seq<Transaction>, height: u64) returns (kept: seq<Transaction>)
      modifies scratch
      ensures Sieved(kept, scratch.View()) == Sieve(p, old(scratch.View()), txs, height)
    {
      hide Ledgers.ApplyTx;
      kept := [];
      var i := 0;
      while i < |txs|
        invariant 0 <= i <= |txs|
        invariant Sieved(kept, scratch.View()) == Sieve(p, old(scratch.View()), txs[..i], height)
      {
        assert txs[..i + 1][..i] == txs[..i];
        var e := scratch.ApplyTx(p, txs[i], height);
        if e.None? {
          kept := kept + [txs[i]];
        }
        i := i + 1;
      }
      assert txs[..|txs|] == txs;
    }

    /** Applies the draft on a fresh copy, fills in the root and signs (engine.go:446-463). */
    method SealDraft(prevHash: Bytes, height: u64, slot: u64, time: int, body: seq<Transaction>) returns (r: Proposed)
      requires state.View().pending == 0
      ensures var draft := Draft(p, id, prevHash, height, slot, time, body);
        var a := Ledgers.ApplyBlock(p, state.View(), draft);
        r == if a.err.Some? then BodyRefused(a.err.value) else Sealed(Seal(p, id, draft, Root(p, a.ledger)))
    {
      hide Ledgers.ApplyBlock, Root, Seal, Draft;
      var b := Draft(p, id, prevHash, height, slot, time, body);
      var fresh_copy := state.Clone();
      var e := fresh_copy.ApplyBlock(p, b);
      if e.Some? { return BodyRefused(e.value); }
      var root := fresh_copy.ComputeRoot(p);
      return Sealed(Seal(p, id, b, root));
    }

    /** The election check; force overrides it only while nobody is elected (engine.go:381-392). */
    method MayBuild(force: bool, prevHash: Bytes, slot: u64) returns (ok: bool)
      ensures ok <==> !Denied(force, Election.SelectProposer(p, state.View(), prevHash, slot), id.nodeID)
    {
      hide Election.SelectProposer;
      var may := state.MayPropose(p, prevHash, id.nodeID, slot);
      if may { return true; }
      if !force { return false; }
      var elected := state.SelectProposer(p, prevHash, slot);
      return elected == [] || elected == id.nodeID;
    }

    /** The body: the proposer's own transactions, then what applies of the offered ones. */
    method BuildBody(txs: seq<Transaction>, height: u64, slot: u64)
      returns (err: Option<BlockError>, body: seq<Transaction>)
      requires state.View().pending == 0
      ensures var front := Front(p, id, state.View(), height, slot);
        var applied := ApplyTxs(p, state.View(), front, height);
        && err == applied.err
        && (err.None? ==> body == front + Sieve(p, applied.ledger, txs, height).kept)
    {
      hide ApplyTxs, Front, Sieve;
      body := BuildFront(height, slot);
      var scratch := state.Clone();
      err := scratch.ApplyAll(p, body, height);
      if err.Some? { return; }
      var kept := KeepApplicable(scratch, txs, height);
      body := body + kept;
    }

    method BuildOn(tip: Option<Header>, txs: seq<Transaction>, force: bool, now1: int, now2: int) returns (r: Proposed)
      requires state.View().pending == 0
      ensures r == Proposal(p, id, tip, state.View(), txs, force, now1, now2)
    {
      hide Root, ApplyTxs, Ledgers.ApplyBlock, Front, Sieve, Seal, Draft, HashHex;
      hide ProposalTime, SlotAtTime, Election.SelectProposer, Denied;
      var prevHash, height, prevSlot := ZERO_HASH, 1, 0;
      if tip.Some? {
        prevHash := HashHex(p, tip.value);
        height := Add64(tip.value.height, 1);
        prevSlot := tip.value.slot;
      }
      var slot := SlotAtTime(now1);
      if slot <= prevSlot {
        slot := Add64(prevSlot, 1);
      }
      var ok := MayBuild(force, prevHash, slot);
      if !ok { return NotElected; }
      var err, body := BuildBody(txs, height, slot);
      if err.Some? { return FrontRefused(err.value); }
      if |body| == 0 { return Nothing; }
      r := SealDraft(prevHash, height, slot, ProposalTime(slot, now2), body);
    }

    /** What the producer starts from: the tip, and the first 200 transactions of the mempool. */
    method Survey() returns (tip: Option<Header>, txs: seq<Transaction>)
      requires Valid() && mempool.Valid(p)
      ensures tip == Tip(chain) && txs == Offered()
    {
      hide Valid;
      TipOfStore();
      hide Mempool.Valid, Mempool.Order, Pending;
      txs := mempool.Peek(p, 200);
      tip := if store.tip.None? then None else Some(store.tip.value.header);
    }

    /** ProposeOnce up to the point where the lock is released; now1 and now2 are the two readings of
        the wall clock. */
    method Build(force: bool, now1: int, now2: int) returns (r: Proposed)
      requires Valid()
      modifies `mining
      ensures Valid() && mining == (old(mining) || r.Sealed?)
      ensures r == Proposal(p, id, Tip(chain), state.View(), Offered(), force, now1, now2)
    {
      hide Valid, Proposal;
      TipOfStore();
      hide Mempool.Valid, Offered;
      var tip, txs := Survey();
      r := BuildOn(tip, txs, force, now1, now2);
      if r.Sealed? {
        mining := true;
      }
    }

    /** Blocks from peers, one after the other. */
    method AcceptAll(arrivals: seq<Block>)
      requires Valid()
      modifies store, state, mempool, mempool.buf, `chain
      ensures Valid() && mempool.buf == old(mempool.buf) && old(chain) <= chain
      ensures arrivals == [] ==> Unchanged()
    {
      hide Valid, Judge, Evidence.Apart;
      var i := 0;
      while i < |arrivals|
        invariant 0 <= i <= |arrivals|
        invariant Valid() && mempool.buf == old(mempool.buf) && old(chain) <= chain
        invariant i == 0 ==> Unchanged()
      {
        var err := AcceptBlock(arrivals[i], {});
        i := i + 1;
      }
    }

    /** AcceptLocked on a block that was sealed on an earlier chain. */
    method AcceptSealed(b: Block, ghost before: seq<Block>, ghost offered: seq<Transaction>, ghost force: bool,
                        ghost now1: int, ghost now2: int) returns (err: Option<BlockError>)
      requires Valid() && GoodIdentity(p, id) && AcceptedChain(p, before) && before <= chain
      requires Proposal(p, id, Tip(before), Replay(p, before), offered, force, now1, now2) == Sealed(b)
      modifies this`chain, store, state, mempool, mempool.buf
      ensures Valid() && (chain == old(chain) || chain == old(chain) + [b]) && (chain == old(chain) ==> Unchanged())
      ensures chain == old(chain) + [b] <==>
        && old(chain) == before
        && p.blockSize(b) <= MAX_BLOCK_BYTES
        && Harmless(p, id, Replay(p, before), offered, NextHeight(Tip(before)))
        && Tip(before).Some? && Tip(before).value.slot < TWO64 - 1 && Tip(before).value.height < TWO64 - 1
      ensures err.None? <==> chain == old(chain) + [b] || PassedOver(p, before, old(chain), b.header)
    {
      LedgerOfChain();
      hide Proposal, Judge, Valid, GoodIdentity, Sound, AcceptedChain, Replay, Harmless, Mempool.Valid;
      hide FilterOut, Merkle.TxIDs, IndexAll, PassedOver, NextHeight;
      GapVerdict(p, id, before, chain, offered, force, now1, now2, b);
      err := AcceptLocked(b);
    }

    /** The second critical section, after whatever arrives before it. */
    method OfferSealed(b: Block, force: bool, now1: int, now2: int, arrivals: seq<Block>)
      returns (err: Option<BlockError>, ghost grown: seq<Block>)
      requires Valid() && mempool.Valid(p) && GoodIdentity(p, id)
      requires Proposal(p, id, Tip(chain), state.View(), Offered(), force, now1, now2) == Sealed(b)
      modifies this`chain, store, state, mempool, mempool.buf
      ensures Valid() && old(chain) <= grown && (arrivals == [] ==> grown == old(chain))
      ensures chain == grown || chain == grown + [b]
      ensures chain == grown + [b] <==>
        && grown == old(chain)
        && p.blockSize(b) <= MAX_BLOCK_BYTES
        && Harmless(p, id, old(state.View()), old(Offered()), NextHeight(Tip(grown)))
        && Tip(grown).Some? && Tip(grown).value.slot < TWO64 - 1 && Tip(grown).value.height < TWO64 - 1
      ensures err.None? <==> chain == grown + [b] || PassedOver(p, old(chain), grown, b.header)
      ensures arrivals == [] && chain == grown ==> Unchanged()
    {
      TipOfStore();
      LedgerOfChain();
      hide Proposal, Judge, Valid, GoodIdentity, Sound, AcceptedChain, Replay, Harmless, Evidence.Apart, Mempool.Valid;
      hide Offered, FilterOut, Merkle.TxIDs, IndexAll, PassedOver, NextHeight;
      ghost var before, offered := chain, Offered();
      AcceptAll(arrivals);
      grown := chain;
      err := AcceptSealed(b, before, offered, force, now1, now2);
    }

    /** ProposeOnce, with the blocks that arrive from others between its two critical sections; `grown` is
        the chain they leave. The sealed block then extends it exactly if they added nothing and the
        block would have been accepted at once. Success is reported for it, and also for a block that was
        passed over. */
    method ProposeOnce(force: bool, now1: int, now2: int, arrivals: seq<Block>)
      returns (r: Proposed, err: Option<BlockError>, ghost grown: seq<Block>)
      requires Valid() && GoodIdentity(p, id)
      modifies this`mining, this`chain, store, state, mempool, mempool.buf
      ensures Valid() && old(chain) <= grown && (arrivals == [] ==> grown == old(chain))
      ensures r == Proposal(p, id, Tip(old(chain)), old(state.View()), old(Offered()), force, now1, now2)
      ensures !r.FrontRefused? && !r.BodyRefused?
      ensures !r.Sealed? ==> Unchanged() && grown == old(chain)
      ensures r.Sealed? ==> !mining && (chain == grown || chain == grown + [r.block])
      ensures r.Sealed? ==> (chain == grown + [r.block] <==>
        && grown == old(chain)
        && p.blockSize(r.block) <= MAX_BLOCK_BYTES
        && Harmless(p, id, old(state.View()), old(Offered()), NextHeight(Tip(grown)))
        && Tip(grown).value.slot < TWO64 - 1 && Tip(grown).value.height < TWO64 - 1)
      ensures r.Sealed? ==>
        (err.None? <==> chain == grown + [r.block] || PassedOver(p, old(chain), grown, r.block.header))
      ensures arrivals == [] && chain == grown ==> Unchanged()
    {
      hide Proposal, Judge, Valid, GoodIdentity, Sound, AcceptedChain, Replay, Harmless, Evidence.Apart, Mempool.Valid;
      hide Offered, FilterOut, Merkle.TxIDs, IndexAll, PassedOver, NextHeight;
      TipOfStore();
      LedgerOfChain();
      ProposalNeverRefused(p, id, Tip(chain), state.View(), Offered(), force, now1, now2);
      err, grown := None, chain;
      r := Build(force, now1, now2);
      if !r.Sealed? { return; }
      mining := false;
      err, grown := OfferSealed(r.block, force, now1, now2, arrivals);
    }

    /** In a valid engine the store is the chain: block h at height h, the last block as tip; and the
        ledger remembers exactly the burns on it. */
    lemma Accessors(h: u64, hash: Bytes)
      requires Valid()
      ensures h in store.byH <==> h < |chain|
      ensures h < |chain| ==> store.byH[h] == chain[h]
      ensures chain != [] && store.tip == Some(chain[|chain| - 1]) && store.tip.value.header.height == |chain| - 1
      ensures hash in state.View().burns <==> Evidence.BurnAmong(p, Nonces.Body(chain), hash)
    {
      hide TxID, HashHex, Replay, Evidence.BurnAmong;
      ChainIsLinked(p, chain);
      ChainFacts(p, chain);
      ChainIndexes(p, chain);
      Evidence.HasBurnTxExactly(p, chain, hash);
    }

    lemma TipOfStore()
      requires Valid()
      ensures chain != [] && store.tip == Some(chain[|chain| - 1])
      ensures state.View().pending == 0 && mempool.Valid(p)
    {
      ChainLedger(p, chain);
      ChainIsLinked(p, chain);
      ChainIndexes(p, chain);
    }
  }

  lemma GenesisChain(p: Primitives)
    requires Sound(p)
    ensures AcceptedChain(p, [Genesis(p)])
    ensures Replay(p, [Genesis(p)]) == Ledgers.ApplyBlock(p, NEW_LEDGER, Genesis(p)).ledger
    ensures IndexAll(p, [Genesis(p)]) == IndexBlock(p, IndexAll(p, []), Genesis(p))
  {
    hide Genesis, Ledgers.ApplyBlock, IndexBlock;
    assert [Genesis(p)][..0] == [];
    assert Fitting(p, [Genesis(p)], 0);
  }

  lemma ExtendedChain(p: Primitives, chain: seq<Block>, b: Block)
    requires AcceptedChain(p, chain) && Judge(p, chain, Replay(p, chain), b).Extend?
    ensures AcceptedChain(p, chain + [b])
    ensures Ledgers.ApplyBlock(p, Replay(p, chain), b) == Applied(Replay(p, chain + [b]), None)
    ensures IndexAll(p, chain + [b]) == IndexBlock(p, IndexAll(p, chain), b)
  {
    AcceptedThenExtended(p, chain, b);
    hide Ledgers.ApplyBlock, IndexBlock, Validate, Root, HashHex, AcceptedChain;
    assert (chain + [b])[..|chain|] == chain;
  }

  lemma DryRunVerifies(p: Primitives, l: Ledger, tx: Transaction, height: u64)
    requires Ledgers.ApplyTx(p, l.(pending := 0), tx, height).err.None?
    ensures tx.kind.InitAlert? || tx.kind.Coinbase? || tx.kind.NetworkParams? || SignedBySender(p, tx)
  {
    VerifiesIff(p, tx);
    hide DispatchTx, TxVerifies;
  }

  lemma ExtendedLedger(p: Primitives, chain: seq<Block>, b: Block)
    requires AcceptedChain(p, chain) && Judge(p, chain, Replay(p, chain), b).Extend?
    ensures Ledgers.ApplyBlock(p, Replay(p, chain), b) == Applied(Replay(p, chain + [b]), None)
  {
    ExtendedChain(p, chain, b);
  }
}
