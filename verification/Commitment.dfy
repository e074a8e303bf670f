/** The state root: which bytes are hashed, and why equal roots mean equal ledgers
    (internal/chain/state.go:51-68). */
module Commitment {
  import opened Base
  import opened ByteOrder
  import opened Types
  import opened Ledgers

  const BAR: byte := 124

  /** The account digests, in the order of `keys`. */
  function Sums(p: Primitives, accounts: map<Bytes, Account>, keys: seq<Bytes>): (s: Bytes)
    requires forall k :: k in keys ==> k in accounts
    ensures |s| == 32 * |keys|
  {
    if keys == [] then [] else
    Sums(p, accounts, keys[..|keys| - 1]) + p.sha256(p.accountJson(accounts[keys[|keys| - 1]]))
  }

  /** "pool:%d|height:%d|pos:v2|" followed by the digests of the accounts. */
  function Material(p: Primitives, pool: u64, height: u64, sums: Bytes): Bytes {
    Ascii("pool:") + (Decimal(pool) + [BAR] +
      (Ascii("height:") + (Decimal(height) + [BAR] + (Ascii("pos:v2|") + sums))))
  }

  ghost function RootMaterial(p: Primitives, l: Ledger): Bytes {
    Material(p, l.pool, l.height, Sums(p, l.accounts, SortedKeys(l.accounts.Keys)))
  }

  ghost function Root(p: Primitives, l: Ledger): Bytes {
    Hex(p.sha256(RootMaterial(p, l)))
  }

  /** Digest i of the text is that of the account with the i-th smallest id. */
  lemma {:induction false} SumsAt(p: Primitives, accounts: map<Bytes, Account>, keys: seq<Bytes>, i: nat)
    requires (forall k :: k in keys ==> k in accounts) && i < |keys|
    ensures Sums(p, accounts, keys)[32 * i..32 * i + 32] == p.sha256(p.accountJson(accounts[keys[i]]))
  {
    var n := |keys| - 1;
    var init := Sums(p, accounts, keys[..n]);
    assert Sums(p, accounts, keys) == init + p.sha256(p.accountJson(accounts[keys[n]]));
    if i < n {
      SumsAt(p, accounts, keys[..n], i);
      assert Sums(p, accounts, keys)[32 * i..32 * i + 32] == init[32 * i..32 * i + 32];
    }
  }

  lemma MaterialText(p: Primitives, pool: u64, height: u64, sums: Bytes)
    ensures Material(p, pool, height, sums)
         == Ascii("pool:") + Decimal(pool) + Ascii("|height:") + Decimal(height) + Ascii("|pos:v2|") + sums
  {
    assert Ascii("|height:") == [BAR] + Ascii("height:") && Ascii("|pos:v2|") == [BAR] + Ascii("pos:v2|");
    hide Ascii, Decimal;
    Regrouped(Ascii("pool:"), Decimal(pool), [BAR], Ascii("height:"), Decimal(height), Ascii("pos:v2|"), sums);
  }

  lemma Regrouped(a: Bytes, b: Bytes, bar: Bytes, c: Bytes, d: Bytes, e: Bytes, f: Bytes)
    ensures a + (b + bar + (c + (d + bar + (e + f)))) == a + b + (bar + c) + d + (bar + e) + f
  {
  }

  /** The text that is hashed, byte by byte: pool and height in decimal, a marker, and 32 bytes for each
      account in ascending order of id. */
  lemma RootText(p: Primitives, l: Ledger, ids: seq<Bytes>)
    requires Lists(ids, l.accounts.Keys)
    ensures var text := Ascii("pool:") + Decimal(l.pool) + Ascii("|height:") + Decimal(l.height) + Ascii("|pos:v2|");
      var sums := Sums(p, l.accounts, ids);
      && Root(p, l) == Hex(p.sha256(text + sums)) && |sums| == 32 * |ids|
      && forall i :: 0 <= i < |ids| ==> sums[32 * i..32 * i + 32] == p.sha256(p.accountJson(l.accounts[ids[i]]))
  {
    ListingUnique(ids, SortedKeys(l.accounts.Keys), l.accounts.Keys);
    hide SortedKeys, Decimal, Hex;
    var sums := Sums(p, l.accounts, ids);
    forall i | 0 <= i < |ids| ensures sums[32 * i..32 * i + 32] == p.sha256(p.accountJson(l.accounts[ids[i]])) {
      SumsAt(p, l.accounts, ids, i);
    }
    hide Ascii;
    MaterialText(p, l.pool, l.height, sums);
  }

  /** The root looks at nothing but accounts, pool and height: not at the tip, so sealing a header
      cannot change the root it carries. */
  lemma RootIgnoresTip(p: Primitives, l: Ledger, m: Ledger)
    requires l.accounts == m.accounts && l.pool == m.pool && l.height == m.height
    ensures Root(p, l) == Root(p, m)
  {
    ListingUnique(SortedKeys(l.accounts.Keys), SortedKeys(m.accounts.Keys), l.accounts.Keys);
  }

  /** The hashing loop of state.go:62-66. */
  method HashAccounts(p: Primitives, accounts: map<Bytes, Account>, keys: seq<Bytes>) returns (sums: Bytes)
    requires forall k :: k in keys ==> k in accounts
    ensures sums == Sums(p, accounts, keys)
  {
    sums := [];
    var i := 0;
    while i < |keys|
      invariant 0 <= i <= |keys|
      invariant sums == Sums(p, accounts, keys[..i])
    {
      assert keys[..i + 1][..i] == keys[..i];
      sums := sums + p.sha256(p.accountJson(accounts[keys[i]]));
      i := i + 1;
    }
    assert keys[..|keys|] == keys;
  }

  // ---- Unique decoding ----------------------------------------------------------------------

  /** Everything hashed while computing the root of l. */
  ghost function RootInputs(p: Primitives, l: Ledger): set<Bytes> {
    {RootMaterial(p, l)} + set k | k in l.accounts.Keys :: p.accountJson(l.accounts[k])
  }

  lemma DropPrefix(prefix: Bytes, x: Bytes, y: Bytes)
    requires prefix + x == prefix + y
    ensures x == y
  {
    assert x == (prefix + x)[|prefix|..] && y == (prefix + y)[|prefix|..];
  }

  lemma DecimalUnique(m: nat, x: Bytes, n: nat, y: Bytes)
    requires Decimal(m) + [BAR] + x == Decimal(n) + [BAR] + y
    ensures m == n && x == y
  {
    TerminatedUnique(Decimal(m), x, Decimal(n), y, BAR);
    DecimalRoundTrip(m);
    DecimalRoundTrip(n);
  }

  lemma MaterialUnique(p: Primitives, pool: u64, height: u64, sums: Bytes, pool': u64, height': u64, sums': Bytes)
    requires Material(p, pool, height, sums) == Material(p, pool', height', sums')
    ensures pool == pool' && height == height' && sums == sums'
  {
    var s := Ascii("pos:v2|") + sums;
    var s' := Ascii("pos:v2|") + sums';
    var t := Ascii("height:") + (Decimal(height) + [BAR] + s);
    var t' := Ascii("height:") + (Decimal(height') + [BAR] + s');
    DropPrefix(Ascii("pool:"), Decimal(pool) + [BAR] + t, Decimal(pool') + [BAR] + t');
    DecimalUnique(pool, t, pool', t');
    DropPrefix(Ascii("height:"), Decimal(height) + [BAR] + s, Decimal(height') + [BAR] + s');
    DecimalUnique(height, s, height', s');
    DropPrefix(Ascii("pos:v2|"), sums, sums');
  }

  function AccountDigest(p: Primitives, accounts: map<Bytes, Account>, k: Bytes): Digest
    requires k in accounts
  {
    p.sha256(p.accountJson(accounts[k]))
  }

  lemma LastSum(p: Primitives, a: map<Bytes, Account>, ks: seq<Bytes>)
    requires ks != [] && forall k :: k in ks ==> k in a
    ensures Sums(p, a, ks)[..32 * (|ks| - 1)] == Sums(p, a, ks[..|ks| - 1])
    ensures Sums(p, a, ks)[32 * (|ks| - 1)..] == AccountDigest(p, a, ks[|ks| - 1])
  {
  }

  lemma {:induction false} SumsUnique(
      p: Primitives, a: map<Bytes, Account>, ks: seq<Bytes>, b: map<Bytes, Account>, js: seq<Bytes>)
    requires (forall k :: k in ks ==> k in a) && (forall j :: j in js ==> j in b)
    requires Sums(p, a, ks) == Sums(p, b, js)
    ensures |ks| == |js|
    ensures forall i :: 0 <= i < |ks| ==> AccountDigest(p, a, ks[i]) == AccountDigest(p, b, js[i])
    decreases |ks|
  {
    hide AccountDigest;
    assert |Sums(p, a, ks)| == 32 * |ks| && |Sums(p, b, js)| == 32 * |js|;
    if ks != [] {
      LastSum(p, a, ks);
      LastSum(p, b, js);
      SumsUnique(p, a, ks[..|ks| - 1], b, js[..|js| - 1]);
    }
  }

  /** Two ledgers whose accounts have the same digest, entry by entry, have the same accounts. */
  lemma SameDigestSameAccount(p: Primitives, l: Ledger, m: Ledger, k: Bytes, j: Bytes)
    requires JsonInjective(p) && NoCollision(p.sha256, RootInputs(p, l) + RootInputs(p, m))
    requires k in l.accounts && j in m.accounts
    requires AccountDigest(p, l.accounts, k) == AccountDigest(p, m.accounts, j)
    ensures l.accounts[k] == m.accounts[j]
  {
    var x, y := p.accountJson(l.accounts[k]), p.accountJson(m.accounts[j]);
    assert x in RootInputs(p, l) && y in RootInputs(p, m);
    assert x == y;
  }

  lemma SameEntriesSameMap(l: Ledger, m: Ledger, ks: seq<Bytes>, js: seq<Bytes>)
    requires KeysAgree(l) && KeysAgree(m)
    requires Lists(ks, l.accounts.Keys) && Lists(js, m.accounts.Keys) && |ks| == |js|
    requires forall i :: 0 <= i < |ks| ==> ks[i] in l.accounts && js[i] in m.accounts
    requires forall i :: 0 <= i < |ks| ==> l.accounts[ks[i]] == m.accounts[js[i]]
    ensures l.accounts == m.accounts
  {
    forall i | 0 <= i < |ks| ensures ks[i] == js[i] {
      assert l.accounts[ks[i]].nodeID == ks[i] && m.accounts[js[i]].nodeID == js[i];
    }
    assert ks == js;
    assert l.accounts.Keys == m.accounts.Keys;
    forall k | k in l.accounts ensures l.accounts[k] == m.accounts[k] {
      assert k in ks;
      var i :| 0 <= i < |ks| && ks[i] == k;
    }
  }

  /** The root commits to pool, height and every account, whatever order a map is walked in. */
  lemma RootCommits(p: Primitives, l: Ledger, m: Ledger)
    requires KeysAgree(l) && KeysAgree(m)
    requires JsonInjective(p) && NoCollision(p.sha256, RootInputs(p, l) + RootInputs(p, m))
    requires Root(p, l) == Root(p, m)
    ensures l.pool == m.pool && l.height == m.height && l.accounts == m.accounts
  {
    var ks, js := SortedKeys(l.accounts.Keys), SortedKeys(m.accounts.Keys);
    assert RootMaterial(p, l) == RootMaterial(p, m) by {
      HexInjective(p.sha256(RootMaterial(p, l)), p.sha256(RootMaterial(p, m)));
      assert RootMaterial(p, l) in RootInputs(p, l) && RootMaterial(p, m) in RootInputs(p, m);
    }
    MaterialUnique(p, l.pool, l.height, Sums(p, l.accounts, ks), m.pool, m.height, Sums(p, m.accounts, js));
    SumsUnique(p, l.accounts, ks, m.accounts, js);
    forall i | 0 <= i < |ks|
      ensures ks[i] in l.accounts && js[i] in m.accounts && l.accounts[ks[i]] == m.accounts[js[i]]
    {
      assert ks[i] in ks && js[i] in js;
      SameDigestSameAccount(p, l, m, ks[i], js[i]);
    }
    SameEntriesSameMap(l, m, ks, js);
  }
}
