/** Burn evidence: which burns the ledger remembers, and that a burn is never out of sight while it
    moves from the mempool to the chain (internal/chain/engine.go:210-217, 340-344). */
module Evidence {
  import opened Base
  import opened Types
  import opened Ledgers
  import opened Nonces
  import Tickets
  import Merkle

  /** The ids of the burns among the transactions. */
  function BurnsOf(p: Primitives, txs: seq<Transaction>): set<Bytes> {
    if txs == [] then {} else
    var init := BurnsOf(p, txs[..|txs| - 1]);
    if txs[|txs| - 1].kind.Burn? then init + {TxID(p, txs[|txs| - 1])} else init
  }

  /** One of the transactions is a burn with this id. */
  ghost predicate BurnAmong(p: Primitives, txs: seq<Transaction>, id: Bytes) {
    exists i :: 0 <= i < |txs| && txs[i].kind.Burn? && TxID(p, txs[i]) == id
  }

  lemma {:induction false} BurnsOfMembers(p: Primitives, txs: seq<Transaction>, id: Bytes)
    ensures id in BurnsOf(p, txs) <==> BurnAmong(p, txs, id)
  {
    hide TxID;
    if txs != [] {
      var n := |txs| - 1;
      BurnsOfMembers(p, txs[..n], id);
      if i :| 0 <= i < n && txs[..n][i].kind.Burn? && TxID(p, txs[..n][i]) == id {
        assert txs[i].kind.Burn? && TxID(p, txs[i]) == id;
      }
      if i :| 0 <= i < |txs| && txs[i].kind.Burn? && TxID(p, txs[i]) == id {
        assert i < n ==> txs[..n][i] == txs[i];
      }
    }
  }

  lemma {:induction false} BurnsOfAppend(p: Primitives, a: seq<Transaction>, b: seq<Transaction>)
    ensures BurnsOf(p, a + b) == BurnsOf(p, a) + BurnsOf(p, b)
    decreases |b|
  {
    hide TxID;
    if b == [] {
      assert a + b == a;
    } else {
      assert (a + b)[..|a + b| - 1] == a + b[..|b| - 1];
      BurnsOfAppend(p, a, b[..|b| - 1]);
    }
  }

  lemma ApplyTxBurns(p: Primitives, l: Ledger, tx: Transaction, height: u64)
    requires ApplyTx(p, l, tx, height).err.None?
    ensures ApplyTx(p, l, tx, height).ledger.burns == l.burns + (if tx.kind.Burn? then {TxID(p, tx)} else {})
  {
    hide TxID, TxVerifies;
    if UsesNonce(tx.kind) {
      SenderAnatomy(p, l, tx, height);
    }
  }

  lemma {:induction false} ApplyTxsBurns(p: Primitives, l: Ledger, txs: seq<Transaction>, height: u64)
    requires ApplyTxs(p, l, txs, height).err.None?
    ensures ApplyTxs(p, l, txs, height).ledger.burns == l.burns + BurnsOf(p, txs)
  {
    hide TxID;
    if txs != [] {
      ApplyTxsBurns(p, l, txs[..|txs| - 1], height);
      ApplyTxBurns(p, ApplyTxs(p, l, txs[..|txs| - 1], height).ledger, txs[|txs| - 1], height);
    }
  }

  lemma ApplyBlockBurns(p: Primitives, l: Ledger, b: Block)
    requires ApplyBlock(p, l, b).err.None?
    ensures ApplyBlock(p, l, b).ledger.burns == l.burns + BurnsOf(p, b.txs)
  {
    hide TxID, HashHex, ApplyTxs;
    ApplyTxsBurns(p, l.(pending := 0), b.txs, b.header.height);
  }

  lemma {:induction false} ReplayBurns(p: Primitives, blocks: seq<Block>)
    requires Applies(p, blocks)
    ensures Replay(p, blocks).burns == BurnsOf(p, Body(blocks))
  {
    hide ApplyBlock, TxID;
    if blocks != [] {
      var l, b := Replay(p, blocks[..|blocks| - 1]), blocks[|blocks| - 1];
      ReplayBurns(p, blocks[..|blocks| - 1]);
      ApplyBlockBurns(p, l, b);
      BurnsOfAppend(p, Body(blocks[..|blocks| - 1]), b.txs);
    }
  }

  /** HasBurnTx answers yes for the ids of the burns on the chain, and for nothing else. */
  lemma HasBurnTxExactly(p: Primitives, blocks: seq<Block>, id: Bytes)
    requires Applies(p, blocks)
    ensures id in Replay(p, blocks).burns <==> BurnAmong(p, Body(blocks), id)
  {
    hide Replay, Body, Applies, BurnAmong, BurnsOf;
    ReplayBurns(p, blocks);
    BurnsOfMembers(p, Body(blocks), id);
  }

  /** The ids of the texts in s are told apart, and s has the text of every transaction of the pool. */
  ghost predicate Apart(s: set<Bytes>, p: Primitives, txs: seq<Transaction>, byID: map<Bytes, Transaction>) {
    && TxTextInjective(p) && NoCollision(p.sha256, s)
    && (forall tx :: tx in txs ==> TxText(p, tx) in s)
    && (forall id :: id in byID ==> TxText(p, byID[id]) in s && TxID(p, byID[id]) == id)
  }

  /** Accepting a block never hides a burn: one that was known stays known, because what leaves the
      mempool with the block is remembered by the ledger. */
  lemma AcceptKeepsEvidence(s: set<Bytes>, p: Primitives, l: Ledger, b: Block, byID: map<Bytes, Transaction>, id: Bytes)
    requires ApplyBlock(p, l, b).err.None? && Apart(s, p, b.txs, byID)
    requires id in l.burns || (id in byID && byID[id].kind.Burn?)
    ensures id in ApplyBlock(p, l, b).ledger.burns || id in byID - (set x | x in Merkle.TxIDs(p, b.txs))
  {
    hide ApplyBlock, TxID, TxText, TxTextInjective, NoCollision;
    ApplyBlockBurns(p, l, b);
    var ids := Merkle.TxIDs(p, b.txs);
    if id !in l.burns && id in ids {
      var i :| 0 <= i < |ids| && ids[i] == id;
      assert b.txs[i] in b.txs;
      SameIdSameTx(s, p, b.txs[i], byID[id]);
      assert b.txs[i].kind.Burn? && TxID(p, b.txs[i]) == id;
      BurnsOfMembers(p, b.txs, id);
    }
  }

  // ---- What a ticket stands for -------------------------------------------------------------

  /** The transaction ids a node knows: those in its mempool and those of burns on its chain. */
  ghost predicate Known(l: Ledger, byID: map<Bytes, Transaction>, id: Bytes) { id in byID || id in l.burns }

  /** A pending transaction has this id; and one that is a burn. */
  ghost predicate Pending(p: Primitives, byID: map<Bytes, Transaction>, hash: Bytes) {
    exists id :: id in byID && TxID(p, byID[id]) == hash
  }

  ghost predicate BurnPending(p: Primitives, byID: map<Bytes, Transaction>, hash: Bytes) {
    exists id :: id in byID && byID[id].kind.Burn? && TxID(p, byID[id]) == hash
  }

  /** A burn with this id is on the chain or pending. */
  ghost predicate StandsForBurn(p: Primitives, blocks: seq<Block>, byID: map<Bytes, Transaction>, hash: Bytes) {
    BurnAmong(p, Body(blocks), hash) || BurnPending(p, byID, hash)
  }

  /** A pool that files transactions under their ids finds them there. */
  lemma PendingUnderItsId(p: Primitives, byID: map<Bytes, Transaction>, hash: Bytes)
    requires forall id :: id in byID ==> TxID(p, byID[id]) == id
    ensures Pending(p, byID, hash) <==> hash in byID
    ensures BurnPending(p, byID, hash) <==> hash in byID && byID[hash].kind.Burn?
  {
    hide TxID;
    if hash in byID {
      assert TxID(p, byID[hash]) == hash;
    }
  }

  /** What a validated ticket guarantees: it is signed with the key it carries, is in time, names the
      payload and claims at least the price; and its id belongs to a burn on the chain or to some
      transaction, of whatever kind, that is pending. It stands for a burn exactly if the ledger
      remembers the id or the pending transaction is a burn. */
  lemma TicketGuarantees(p: Primitives, blocks: seq<Block>, byID: map<Bytes, Transaction>, hasTx: Bytes -> bool,
                         t: BurnTicket, payload: Bytes, now: int)
    requires Applies(p, blocks) && forall id :: id in byID ==> TxID(p, byID[id]) == id
    requires hasTx(t.core.burnTxHash) == Known(Replay(p, blocks), byID, t.core.burnTxHash)
    requires Tickets.ValidateBurnTicket(p, t, payload, hasTx, now).None?
    ensures Tickets.TicketSigned(p, t) && !Tickets.IsExpired(t, now) && Tickets.RefMatches(p, t.core.refHash, payload)
    ensures t.core.amount >= BurnAmountForMsgType(t.core.msgType)
    ensures BurnAmong(p, Body(blocks), t.core.burnTxHash) || Pending(p, byID, t.core.burnTxHash)
    ensures StandsForBurn(p, blocks, byID, t.core.burnTxHash) <==>
      t.core.burnTxHash in Replay(p, blocks).burns || byID[t.core.burnTxHash].kind.Burn?
  {
    hide TxID, Replay, Applies, Body, BurnAmong, Pending, BurnPending;
    hide Tickets.TicketSigned, Tickets.IsExpired, Tickets.RefMatches, BurnAmountForMsgType;
    HasBurnTxExactly(p, blocks, t.core.burnTxHash);
    PendingUnderItsId(p, byID, t.core.burnTxHash);
  }

  /** It need not stand for a burn: any key can sign a ticket over any pending transaction, a transfer
      say, that claims any sufficient amount, and the ticket validates. */
  lemma TransferBacksTicket(p: Primitives, l: Ledger, byID: map<Bytes, Transaction>, hasTx: Bytes -> bool, id: Bytes,
                            priv: Bytes, amount: u64, payload: Bytes, nowUs: i64)
    requires Sound(p) && id in byID && byID[id].kind.Transfer? && hasTx(id) == Known(l, byID, id)
    requires amount >= BurnAmountForMsgType(MSG_DIRECT) && nowUs != 0
    ensures var core := TicketCore(id, MSG_DIRECT, payload, amount, 0, nowUs, [], [], 0);
      Tickets.ValidateBurnTicket(p, Tickets.SignTicket(p, core, priv), payload, hasTx, nowUs * 1000).None?
  {
    hide BurnAmountForMsgType;
    var core := TicketCore(id, MSG_DIRECT, payload, amount, 0, nowUs, [], [], 0);
    Tickets.SignTicketKeeps(p, core, priv);
    Tickets.AnyKeyValidates(p, core, priv, payload, hasTx, nowUs * 1000);
  }
}
