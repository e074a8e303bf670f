/** The block store: two indexes and a tip (internal/chain/store.go). */
module Stores {
  import opened Base
  import opened Types

  datatype Indexes = Indexes(byH: map<u64, Block>, byHash: map<Bytes, Block>, tip: Option<Block>)

  const EMPTY: Indexes := Indexes(map[], map[], None)

  /** Store.index: later blocks win, and the tip moves to any block that is not lower. */
  function IndexBlock(p: Primitives, v: Indexes, b: Block): Indexes {
    Indexes(v.byH[b.header.height := b], v.byHash[HashHex(p, b.header) := b],
            if v.tip.None? || b.header.height >= v.tip.value.header.height then Some(b) else v.tip)
  }

  function IndexAll(p: Primitives, blocks: seq<Block>): Indexes {
    if blocks == [] then EMPTY
    else IndexBlock(p, IndexAll(p, blocks[..|blocks| - 1]), blocks[|blocks| - 1])
  }

  /** The blocks present at heights below n, in order of height. */
  function Listing(byH: map<u64, Block>, n: nat): seq<Block>
    requires n <= TWO64
  {
    if n == 0 then []
    else if n - 1 in byH then Listing(byH, n - 1) + [byH[n - 1]]
    else Listing(byH, n - 1)
  }

  class Store {
    const p: Primitives
    var byH: map<u64, Block>
    var byHash: map<Bytes, Block>
    var tip: Option<Block>

    ghost function View(): Indexes
      reads this
    {
      Indexes(byH, byHash, tip)
    }

    /** OpenStore: indexes the blocks read from disk one after the other. */
    constructor Open(p: Primitives, blocks: seq<Block>)
      ensures this.p == p && View() == IndexAll(p, blocks)
    {
      this.p := p;
      byH, byHash, tip := map[], map[], None;
      new;
      var i := 0;
      while i < |blocks|
        invariant 0 <= i <= |blocks| && View() == IndexAll(p, blocks[..i])
      {
        assert blocks[..i + 1][..i] == blocks[..i];
        Index(blocks[i]);
        i := i + 1;
      }
      assert blocks[..|blocks|] == blocks;
    }

    method Index(b: Block)
      modifies this
      ensures View() == IndexBlock(p, old(View()), b)
    {
      var h := HashHex(p, b.header);
      byH := byH[b.header.height := b];
      byHash := byHash[h := b];
      if tip.None? || b.header.height >= tip.value.header.height {
        tip := Some(b);
      }
    }

    /** Append: indexes the block and returns what is written to disk. */
    method Append(b: Block) returns (saved: seq<Block>)
      modifies this
      ensures View() == IndexBlock(p, old(View()), b)
      ensures saved == Listing(byH, tip.value.header.height + 1)
    {
      Index(b);
      saved := SaveList();
    }

    /** The loop of saveLocked and, up to the projection to headers, of Headers. */
    method SaveList() returns (list: seq<Block>)
      requires tip.Some?
      ensures list == Listing(byH, tip.value.header.height + 1)
    {
      list := [];
      var h := 0;
      while h <= tip.value.header.height
        invariant 0 <= h <= tip.value.header.height + 1
        invariant list == Listing(byH, h)
      {
        if h in byH {
          list := list + [byH[h]];
        }
        h := h + 1;
      }
    }

    method Headers() returns (out: seq<Header>)
      ensures tip.None? ==> out == []
      ensures tip.Some? ==> out == HeadersOf(Listing(byH, tip.value.header.height + 1))
    {
      if tip.None? { return []; }
      var list := SaveList();
      out := [];
      var i := 0;
      while i < |list|
        invariant 0 <= i <= |list| && out == HeadersOf(list[..i])
      {
        assert list[..i + 1][..i] == list[..i];
        out := out + [list[i].header];
        i := i + 1;
      }
      assert list[..|list|] == list;
    }

    method GetByHeight(h: u64) returns (b: Option<Block>)
      ensures b == if h in byH then Some(byH[h]) else None
    {
      if h in byH { return Some(byH[h]); }
      return None;
    }

    method Height() returns (h: u64)
      ensures h == if tip.None? then 0 else tip.value.header.height
    {
      if tip.None? { return 0; }
      return tip.value.header.height;
    }
  }

  function HeadersOf(blocks: seq<Block>): (hs: seq<Header>)
    ensures |hs| == |blocks| && forall i :: 0 <= i < |hs| ==> hs[i] == blocks[i].header
  {
    if blocks == [] then [] else HeadersOf(blocks[..|blocks| - 1]) + [blocks[|blocks| - 1].header]
  }

  // ---- Any list of blocks in the store ------------------------------------------------------

  /** No later block has the height of block i. */
  ghost predicate LastOfHeight(blocks: seq<Block>, i: nat)
    requires i < |blocks|
  {
    forall j :: i < j < |blocks| ==> blocks[j].header.height != blocks[i].header.height
  }

  ghost predicate LastOfHash(p: Primitives, blocks: seq<Block>, i: nat)
    requires i < |blocks|
  {
    forall j :: i < j < |blocks| ==> HashHex(p, blocks[j].header) != HashHex(p, blocks[i].header)
  }

  /** Later blocks win: a block is found at its height unless a later one has that height. */
  lemma {:induction false} FoundAtHeight(p: Primitives, blocks: seq<Block>, i: nat)
    requires i < |blocks|
    ensures var v, b := IndexAll(p, blocks), blocks[i];
      b.header.height in v.byH && (LastOfHeight(blocks, i) ==> v.byH[b.header.height] == b)
  {
    hide HashHex;
    var n := |blocks| - 1;
    if i < n {
      FoundAtHeight(p, blocks[..n], i);
    }
  }

  /** It is found under its hash unless a later one has that hash. */
  lemma {:induction false} FoundByHash(p: Primitives, blocks: seq<Block>, i: nat)
    requires i < |blocks|
    ensures var v, b := IndexAll(p, blocks), blocks[i];
      HashHex(p, b.header) in v.byHash && (LastOfHash(p, blocks, i) ==> v.byHash[HashHex(p, b.header)] == b)
  {
    hide HashHex;
    var n := |blocks| - 1;
    if i < n {
      FoundByHash(p, blocks[..n], i);
    }
  }

  /** Nothing else is stored. */
  lemma {:induction false} TipIsStored(p: Primitives, blocks: seq<Block>)
    ensures var v := IndexAll(p, blocks);
      && (v.tip.Some? ==> v.tip.value in blocks)
      && (forall h :: h in v.byH ==> v.byH[h] in blocks && v.byH[h].header.height == h)
      && (forall x :: x in v.byHash ==> v.byHash[x] in blocks && HashHex(p, v.byHash[x].header) == x)
  {
    hide HashHex;
    if blocks != [] {
      var n := |blocks| - 1;
      TipIsStored(p, blocks[..n]);
      assert blocks == blocks[..n] + [blocks[n]];
    }
  }

  /** The tip is the last of the highest blocks. */
  lemma {:induction false} TipIsHighest(p: Primitives, blocks: seq<Block>, i: nat)
    requires i < |blocks|
    ensures var v := IndexAll(p, blocks);
      && v.tip.Some? && v.tip.value.header.height >= blocks[i].header.height
      && (v.tip.value.header.height == blocks[i].header.height && LastOfHeight(blocks, i) ==> v.tip == Some(blocks[i]))
  {
    hide HashHex;
    var n := |blocks| - 1;
    if i < n {
      TipIsHighest(p, blocks[..n], i);
    } else {
      TipIsStored(p, blocks[..n]);
      if n > 0 {
        TipIsHighest(p, blocks[..n], 0);
      }
    }
  }

  /** The list that is written holds exactly the blocks found at heights below n, by ascending height. */
  lemma {:induction false} ListingIs(byH: map<u64, Block>, n: nat)
    requires n <= TWO64 && forall h :: h in byH ==> byH[h].header.height == h
    ensures var list := Listing(byH, n);
      && (forall b :: b in list <==> b.header.height < n && b.header.height in byH && byH[b.header.height] == b)
      && (forall i, j :: 0 <= i < j < |list| ==> list[i].header.height < list[j].header.height)
  {
    if n > 0 {
      ListingIs(byH, n - 1);
      var init := Listing(byH, n - 1);
      assert forall i :: 0 <= i < |init| ==> init[i] in init;
    }
  }

  // ---- A chain in the store -----------------------------------------------------------------

  ghost predicate Contiguous(blocks: seq<Block>) {
    forall i :: 0 <= i < |blocks| ==> blocks[i].header.height == i
  }

  /** In a store filled with a chain, the height index is the chain, the tip is its last block, and a
      hash leads to the chain's last block with that hash. */
  lemma {:induction false} ChainIndexes(p: Primitives, blocks: seq<Block>)
    requires Contiguous(blocks)
    ensures var v := IndexAll(p, blocks);
      && (forall h: u64 :: h in v.byH <==> h < |blocks|)
      && (forall i :: 0 <= i < |blocks| ==> v.byH[i] == blocks[i])
      && v.tip == (if blocks == [] then None else Some(blocks[|blocks| - 1]))
  {
    hide HashHex;
    if blocks != [] {
      var n := |blocks| - 1;
      ChainIndexes(p, blocks[..n]);
      assert blocks[n].header.height == n;
      forall i | 0 <= i < |blocks| ensures IndexAll(p, blocks).byH[i] == blocks[i] {
        if i < n {
          assert blocks[..n][i] == blocks[i];
        }
      }
    }
  }

  lemma {:induction false} HashLookup(p: Primitives, blocks: seq<Block>, hash: Bytes)
    ensures hash in IndexAll(p, blocks).byHash <==>
      exists i :: 0 <= i < |blocks| && HashHex(p, blocks[i].header) == hash
    ensures hash in IndexAll(p, blocks).byHash ==> HashHex(p, IndexAll(p, blocks).byHash[hash].header) == hash
  {
    hide HashHex;
    if blocks != [] {
      var n := |blocks| - 1;
      HashLookup(p, blocks[..n], hash);
      if hash in IndexAll(p, blocks[..n]).byHash {
        var i :| 0 <= i < n && HashHex(p, blocks[..n][i].header) == hash;
        assert HashHex(p, blocks[i].header) == hash;
      }
      if i :| 0 <= i < |blocks| && HashHex(p, blocks[i].header) == hash {
        assert i < n ==> blocks[..n][i] == blocks[i];
      }
    }
  }

  lemma {:induction false} ListingOfChain(p: Primitives, blocks: seq<Block>, n: nat)
    requires Contiguous(blocks) && n <= |blocks| <= TWO64
    ensures Listing(IndexAll(p, blocks).byH, n) == blocks[..n]
  {
    if n > 0 {
      ListingOfChain(p, blocks, n - 1);
      ChainIndexes(p, blocks);
      assert IndexAll(p, blocks).byH[n - 1] == blocks[n - 1];
    }
  }

  /** Saving and reopening: what saveLocked writes is the chain itself, so a store opened from it has
      the same indexes and the same tip. */
  lemma SaveOpenRoundTrip(p: Primitives, blocks: seq<Block>)
    requires Contiguous(blocks) && blocks != []
    ensures var v := IndexAll(p, blocks);
      v.tip.Some? && Listing(v.byH, v.tip.value.header.height + 1) == blocks
      && IndexAll(p, Listing(v.byH, v.tip.value.header.height + 1)) == v
  {
    ChainIndexes(p, blocks);
    assert blocks[|blocks| - 1].header.height == |blocks| - 1;
    ListingOfChain(p, blocks, |blocks|);
    assert blocks[..|blocks|] == blocks;
  }
}
