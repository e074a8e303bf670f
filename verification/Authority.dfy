/** Who can move an account: along every chain, only transactions signed with a key that the account's id
    is derived from do more than credit it (internal/chain/types.go:174-194, state.go:88-391). */
module Authority {
  import opened Base
  import opened Types
  import opened Ledgers
  import opened Stutter
  import opened Supply
  import opened Nonces
  import opened Consensus
  import Chain
  import Effects

  /** b is a but for the balance; where sums are exact, that has not fallen. */
  predicate Untouched(exact: bool, a: Account, b: Account) {
    b == a.(balance := b.balance) && (exact ==> b.balance >= a.balance)
  }

  predicate Spends(tx: Transaction, id: Bytes) { UsesNonce(tx.kind) && tx.sender == id }

  ghost predicate NobodySpends(txs: seq<Transaction>, id: Bytes) { forall tx :: tx in txs ==> !Spends(tx, id) }

  // ---- One transaction ----------------------------------------------------------------------

  /** Whoever sends a transaction that goes through has signed it: it carries a key that its sender's id
      is derived from, and a good signature under that key over kind, sender, key, nonce, fee and data. */
  lemma OnlySigned(p: Primitives, l: Ledger, tx: Transaction, height: u64)
    requires UsesNonce(tx.kind) && ApplyTx(p, l, tx, height).err.None?
    ensures exists pub, sig ::
      && p.base64Decode(tx.senderPub) == Some(pub) && |pub| == 32 && p.nodeID(pub) == tx.sender
      && p.base64Decode(tx.signature) == Some(sig)
      && p.edVerify(pub, p.txJson(TxCore(tx.kind, tx.sender, tx.senderPub, tx.nonce, tx.fee, tx.data)), sig)
  {
    VerifiesIff(p, tx);
    hide DispatchTx, TxVerifies;
  }

  /** Two accounts are together worth no more than there is. */
  lemma PairWithinTotal(l: Ledger, x: Bytes, y: Bytes)
    requires x != y
    ensures Worth(Get(l, x)) + Worth(Get(l, y)) <= Total(l)
  {
    if x in l.accounts {
      WealthSplit(l.accounts, x);
      if y in l.accounts {
        WealthSplit(l.accounts - {x}, y);
      }
    } else if y in l.accounts {
      WealthSplit(l.accounts, y);
    }
  }

  /** A transaction that `id` does not send at most credits it; credits do not wrap around as long as there
      are fewer than 2^64 units. */
  lemma TxSpares(exact: bool, p: Primitives, l: Ledger, tx: Transaction, height: u64, id: Bytes)
    requires exact ==> Total(l) < TWO64
    requires ApplyTx(p, l, tx, height).err.None? && !Spends(tx, id)
    ensures Untouched(exact, Get(l, id), Get(ApplyTx(p, l, tx, height).ledger, id))
  {
    hide ApplyTx, Total, Wealth, Effects.Ready;
    if tx.kind.Transfer? && p.decodeTransfer(tx.data).Some? && p.decodeTransfer(tx.data).value.to == id {
      PairWithinTotal(l, tx.sender, id);
      Effects.TransferEffect(p, l, tx, height);
    } else if tx.kind.Coinbase? && tx.sender == id {
      WorthAtMostTotal(l, id);
      CoinbaseDecodes(p, l, tx, height);
      Effects.CoinbaseEffect(p, l, tx, height);
    } else if tx.sender == id {
      Effects.IdleEffect(p, l, tx, height);
    } else {
      Effects.Bystanders(p, l, tx, height, id);
    }
  }

  lemma CoinbaseDecodes(p: Primitives, l: Ledger, tx: Transaction, height: u64)
    requires tx.kind.Coinbase? && ApplyTx(p, l, tx, height).err.None?
    ensures p.decodeCoinbase(tx.data).Some?
  {
  }

  lemma UntouchedChain(exact: bool, a: Account, b: Account, c: Account)
    requires Untouched(exact, a, b) && Untouched(exact, b, c)
    ensures Untouched(exact, a, c)
  {
  }

  // ---- Bodies and blocks --------------------------------------------------------------------

  lemma PrefixTotal(p: Primitives, l: Ledger, txs: seq<Transaction>, height: u64)
    requires ApplyTxs(p, l, txs, height).err.None? && Total(l) + TxsDrift(AsWritten, p, l, txs, height) < TWO64
    ensures Total(ApplyTxs(p, l, txs, height).ledger) < TWO64
  {
    hide Total, ApplyTxs, TxsDrift, TxsUnder;
    WrittenTxs(p, l, txs, height);
    TxsTotal(AsWritten, p, l, txs, height);
  }

  lemma {:induction false} TxsSpare(exact: bool, p: Primitives, l: Ledger, txs: seq<Transaction>, height: u64,
                                         id: Bytes)
    requires ApplyTxs(p, l, txs, height).err.None? && NobodySpends(txs, id)
    requires exact ==> Total(l) + TxsDrift(AsWritten, p, l, txs, height) < TWO64
    ensures Untouched(exact, Get(l, id), Get(ApplyTxs(p, l, txs, height).ledger, id))
  {
    hide ApplyTx, Total, Get, Spends, TxDrift;
    if txs != [] {
      var init, tx := txs[..|txs| - 1], txs[|txs| - 1];
      TxsSpare(exact, p, l, init, height, id);
      if exact {
        PrefixTotal(p, l, init, height);
      }
      var m := ApplyTxs(p, l, init, height).ledger;
      TxSpares(exact, p, m, tx, height, id);
      UntouchedChain(exact, Get(l, id), Get(m, id), Get(ApplyTx(p, m, tx, height).ledger, id));
    }
  }

  lemma FeesSpare(exact: bool, p: Primitives, l: Ledger, b: Block, id: Bytes)
    requires ApplyBlock(p, l, b).err.None?
    requires exact ==> Total(ApplyTxs(p, l.(pending := 0), b.txs, b.header.height).ledger) < TWO64
    ensures Untouched(exact, Get(ApplyTxs(p, l.(pending := 0), b.txs, b.header.height).ledger, id),
                      Get(ApplyBlock(p, l, b).ledger, id))
  {
    hide ApplyBlock, ApplyTxs, Total;
    Effects.FeesReachProposer(p, l, b, id);
    WorthAtMostTotal(ApplyTxs(p, l.(pending := 0), b.txs, b.header.height).ledger, id);
  }

  lemma BlockSpares(exact: bool, p: Primitives, l: Ledger, b: Block, id: Bytes)
    requires ApplyBlock(p, l, b).err.None? && NobodySpends(b.txs, id)
    requires exact ==> l.pending == 0 && Total(l) + BlockDrift(AsWritten, p, l, b) < TWO64
    ensures Untouched(exact, Get(l, id), Get(ApplyBlock(p, l, b).ledger, id))
  {
    BlockApplies(p, l, b);
    hide ApplyBlock, ApplyTxs, Total, TxsDrift, NobodySpends;
    var m := l.(pending := 0);
    assert exact ==> m == l;
    assert Get(m, id) == Get(l, id);
    hide Get;
    if exact {
      PrefixTotal(p, l, b.txs, b.header.height);
    }
    TxsSpare(exact, p, m, b.txs, b.header.height, id);
    FeesSpare(exact, p, l, b, id);
    UntouchedChain(exact, Get(l, id), Get(ApplyTxs(p, m, b.txs, b.header.height).ledger, id),
                   Get(ApplyBlock(p, l, b).ledger, id));
  }

  lemma BlockApplies(p: Primitives, l: Ledger, b: Block)
    requires ApplyBlock(p, l, b).err.None?
    ensures ApplyTxs(p, l.(pending := 0), b.txs, b.header.height).err.None?
  {
    hide ApplyTxs;
  }

  // ---- Chains -------------------------------------------------------------------------------

  /** No block from n on has a transaction that `id` sends. */
  ghost predicate Silent(blocks: seq<Block>, n: nat, id: Bytes) {
    forall i :: n <= i < |blocks| ==> NobodySpends(blocks[i].txs, id)
  }

  lemma LastTotal(p: Primitives, blocks: seq<Block>)
    requires blocks != [] && Applies(p, blocks) && MINER_REWARD_POOL + Drift(AsWritten, p, blocks) < TWO64
    ensures var l, b := Replay(p, blocks[..|blocks| - 1]), blocks[|blocks| - 1];
      && l.pending == 0 && Total(l) + BlockDrift(AsWritten, p, l, b) < TWO64
      && MINER_REWARD_POOL + Drift(AsWritten, p, blocks[..|blocks| - 1]) < TWO64
  {
    hide Total, BlockDrift, BlockForfeit, ApplyBlock, BlockUnder;
    var init := blocks[..|blocks| - 1];
    WrittenIsReplay(p, init);
    SupplyLawUnder(AsWritten, p, init);
  }

  /** While nobody signs for an id, its account keeps its nonce, stake, keys and standing, and its balance
      does not fall -- that last as long as the supply law keeps all sums within 64 bits. */
  lemma {:induction false} ChainSpares(exact: bool, p: Primitives, blocks: seq<Block>, n: nat, id: Bytes)
    requires Applies(p, blocks) && n <= |blocks| && Silent(blocks, n, id)
    requires exact ==> MINER_REWARD_POOL + Drift(AsWritten, p, blocks) < TWO64
    ensures Untouched(exact, Get(Replay(p, blocks[..n]), id), Get(Replay(p, blocks), id))
    decreases |blocks|
  {
    if n == |blocks| {
      assert blocks[..n] == blocks;
    } else {
      var m := |blocks| - 1;
      if exact {
        LastTotal(p, blocks);
      }
      hide ApplyBlock, Drift, BlockDrift, Total, Get, NobodySpends;
      assert blocks[..m][..n] == blocks[..n];
      ChainSpares(exact, p, blocks[..m], n, id);
      var l := Replay(p, blocks[..m]);
      BlockSpares(exact, p, l, blocks[m], id);
      UntouchedChain(exact, Get(Replay(p, blocks[..n]), id), Get(l, id), Get(Replay(p, blocks), id));
    }
  }

  lemma {:induction false} EveryBlockApplies(p: Primitives, blocks: seq<Block>, i: nat)
    requires Applies(p, blocks) && i < |blocks|
    ensures ApplyBlock(p, Replay(p, blocks[..i]), blocks[i]).err.None?
    decreases |blocks|
  {
    hide ApplyBlock;
    if i < |blocks| - 1 {
      EveryBlockApplies(p, blocks[..|blocks| - 1], i);
      assert blocks[..|blocks| - 1][..i] == blocks[..i];
    }
  }

  /** Every transaction of a chain that carries a nonce is signed by its sender. */
  lemma TxOnChainIsSigned(p: Primitives, blocks: seq<Block>, i: nat, j: nat)
    requires Applies(p, blocks) && i < |blocks| && j < |blocks[i].txs| && UsesNonce(blocks[i].txs[j].kind)
    ensures SignedBySender(p, blocks[i].txs[j])
  {
    hide ApplyBlock, ApplyTxs, ApplyTx, Replay, Applies;
    var l, b := Replay(p, blocks[..i]), blocks[i];
    EveryBlockApplies(p, blocks, i);
    BlockApplies(p, l, b);
    BodyAppliesIff(p, l.(pending := 0), b.txs, b.header.height);
    assert SucceedsAt(p, l.(pending := 0), b.txs, b.header.height, j);
    OnlySigned(p, ApplyTxs(p, l.(pending := 0), b.txs[..j], b.header.height).ledger, b.txs[j], b.header.height);
  }

  /** Nobody else can move an account. Whatever happens to it between two heights of an accepted chain,
      other than being credited, was signed for in between: some transaction names it as sender, carries a
      key the id is derived from, and a good signature of all its other fields under that key. */
  lemma MovedBySignature(p: Primitives, chain: seq<Block>, n: nat, id: Bytes)
    returns (i: nat, j: nat, pub: Bytes, sig: Bytes)
    requires Sound(p) && AcceptedChain(p, chain) && n <= |chain|
    requires var a, b := Get(Replay(p, chain[..n]), id), Get(Replay(p, chain), id);
      (MINER_REWARD_POOL + Drift(AsWritten, p, chain) < TWO64 && b.balance < a.balance)
      || b.nonce != a.nonce || b.stake != a.stake || b.burned != a.burned || b.active != a.active
      || b.ed25519Pub != a.ed25519Pub || b.x25519Pub != a.x25519Pub || b.regHeight != a.regHeight
    ensures n <= i < |chain| && j < |chain[i].txs|
    ensures var tx := chain[i].txs[j];
      && UsesNonce(tx.kind) && tx.sender == id
      && p.base64Decode(tx.senderPub) == Some(pub) && |pub| == 32 && p.nodeID(pub) == id
      && p.base64Decode(tx.signature) == Some(sig)
      && p.edVerify(pub, p.txJson(TxCore(tx.kind, id, tx.senderPub, tx.nonce, tx.fee, tx.data)), sig)
  {
    hide Replay, Get, Applies, AcceptedChain, Sound, Drift;
    Chain.ChainFacts(p, chain);
    if Silent(chain, n, id) {
      ChainSpares(MINER_REWARD_POOL + Drift(AsWritten, p, chain) < TWO64, p, chain, n, id);
      assert false;
    }
    i :| n <= i < |chain| && !NobodySpends(chain[i].txs, id);
    var tx :| tx in chain[i].txs && Spends(tx, id);
    j :| 0 <= j < |chain[i].txs| && chain[i].txs[j] == tx;
    TxOnChainIsSigned(p, chain, i, j);
    pub, sig :| p.base64Decode(tx.senderPub) == Some(pub) && |pub| == 32 && p.nodeID(pub) == tx.sender
      && p.base64Decode(tx.signature) == Some(sig)
      && p.edVerify(pub, p.txJson(TxCore(tx.kind, tx.sender, tx.senderPub, tx.nonce, tx.fee, tx.data)), sig);
  }

  lemma {:induction false} SentBySound(txs: seq<Transaction>, id: Bytes, tx: Transaction)
    ensures tx in SentBy(txs, id) <==> tx in txs && Spends(tx, id)
  {
    if txs != [] {
      SentBySound(txs[..|txs| - 1], id, tx);
      assert txs == txs[..|txs| - 1] + [txs[|txs| - 1]];
    }
  }

  lemma {:induction false} FoundInBlock(blocks: seq<Block>, tx: Transaction) returns (i: nat, j: nat)
    requires tx in Body(blocks)
    ensures i < |blocks| && j < |blocks[i].txs| && blocks[i].txs[j] == tx
  {
    var n := |blocks| - 1;
    if tx in Body(blocks[..n]) {
      i, j := FoundInBlock(blocks[..n], tx);
    } else {
      i := n;
      j :| 0 <= j < |blocks[n].txs| && blocks[n].txs[j] == tx;
    }
  }

  /** The nonce of an account counts what it signed: along every chain, whatever its supply, each unit of
      the nonce stands for one transaction signed with a key of the id (modulo 2^64). */
  lemma NonceCountsSignatures(p: Primitives, blocks: seq<Block>, id: Bytes)
    requires Applies(p, blocks)
    ensures var sent := SentBy(Body(blocks), id);
      && Get(Replay(p, blocks), id).nonce == |sent| % TWO64
      && forall k :: 0 <= k < |sent| ==>
           sent[k].sender == id && sent[k].nonce == k % TWO64 && SignedBySender(p, sent[k])
  {
    hide Applies, Replay, SentBy, Body, Get, SignedBySender;
    ChainIsNumbered(p, blocks, id);
    var sent := SentBy(Body(blocks), id);
    forall k | 0 <= k < |sent| ensures sent[k].sender == id && SignedBySender(p, sent[k]) {
      SentBySound(Body(blocks), id, sent[k]);
      var i, j := FoundInBlock(blocks, sent[k]);
      TxOnChainIsSigned(p, blocks, i, j);
    }
  }

  /** An id that nobody has signed for has nothing but what it was credited with. */
  lemma NeverSigned(p: Primitives, blocks: seq<Block>, id: Bytes)
    requires Applies(p, blocks) && Silent(blocks, 0, id)
    ensures var a := Get(Replay(p, blocks), id);
      a == Account(id, a.balance, 0, 0, 0, 0, [], [], false)
  {
    ChainSpares(false, p, blocks, 0, id);
    hide Applies, Silent, ApplyBlock;
    assert blocks[..0] == [];
  }
}
