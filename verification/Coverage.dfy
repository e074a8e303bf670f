/** A flood that loses nothing reaches every node it can reach, on meshes of at most one node more than
    the hop limit. */
module Coverages {
  import opened Base
  import opened Packets
  import opened Nodes
  import opened Floods
  import Rings
  import ProofOfWork

  // ---- The invariant of a flood -------------------------------------------------------------

  /** d[v] is the number of hops after which v learned the packet: zero at its origin, and one more
      than that of some other node everywhere else. */
  ghost predicate Levels(s: State, c: Bytes, o: nat, d: seq<nat>) {
    && |d| == |s.locals| && o < |d| && Knows(s.locals[o], c) && d[o] == 0
    && forall v :: 0 <= v < |d| && v != o && Knows(s.locals[v], c) ==> HasParent(s, c, d, v)
  }

  ghost predicate HasParent(s: State, c: Bytes, d: seq<nat>, v: nat)
    requires |d| == |s.locals| && v < |d|
  {
    exists u :: 0 <= u < |d| && Knows(s.locals[u], c) && d[u] + 1 == d[v]
  }

  /** A copy comes from a node that knows the packet, with that node's hop count. */
  predicate CopyAtLevel(s: State, c: Bytes, d: seq<nat>, m: Copy) {
    Named(m.packet, c) ==>
      m.sender < |s.locals| == |d| && Knows(s.locals[m.sender], c) && m.packet.hops == d[m.sender]
  }

  predicate PendingAtLevel(s: State, c: Bytes, d: seq<nat>, v: nat, f: Pending)
    requires v < |s.locals| == |d|
  {
    Named(f.packet, c) ==>
      Knows(s.locals[v], c) && f.packet.hops == d[v] && f.via < |s.locals| && Knows(s.locals[f.via], c)
  }

  ghost predicate InFlight(s: State, c: Bytes, w: nat) {
    exists m :: m in s.net && Named(m.packet, c) && m.to == w
  }

  ghost predicate Waiting(l: Local, c: Bytes, w: nat) {
    exists f :: f in l.queue && Named(f.packet, c) && f.via != w
  }

  /** Whoever knows the packet has passed it on, is about to, or need not. */
  ghost predicate Passed(s: State, c: Bytes, v: nat, w: nat)
    requires v < |s.locals| && w < |s.locals|
  {
    Knows(s.locals[w], c) || InFlight(s, c, w) || Waiting(s.locals[v], c, w)
  }

  ghost predicate Frontier(mesh: Mesh, s: State, c: Bytes)
    requires IsMesh(mesh) && |s.locals| == |mesh|
  {
    forall v, i :: 0 <= v < |mesh| && Knows(s.locals[v], c) && 0 <= i < |mesh[v]| ==> Passed(s, c, v, mesh[v][i])
  }

  ghost predicate Spreading(mesh: Mesh, s: State, c: Bytes, o: nat, d: seq<nat>) {
    && IsMesh(mesh) && |s.locals| == |mesh| == |d|
    && Levels(s, c, o, d)
    && (forall m :: m in s.net ==> CopyAtLevel(s, c, d, m))
    && (forall v, f :: 0 <= v < |mesh| && f in s.locals[v].queue ==> PendingAtLevel(s, c, d, v, f))
    && Frontier(mesh, s, c)
  }

  // ---- Levels are bounded by the number of nodes --------------------------------------------

  ghost function Within(s: State, c: Bytes, d: seq<nat>, k: nat): set<nat>
    requires |d| == |s.locals|
  {
    set v | 0 <= v < |d| && Knows(s.locals[v], c) && d[v] <= k
  }

  /** Below every inhabited level all levels are inhabited, by different nodes. */
  lemma {:induction false} LevelsFill(s: State, c: Bytes, o: nat, d: seq<nat>, v: nat)
    requires Levels(s, c, o, d) && v < |d| && Knows(s.locals[v], c)
    ensures |Within(s, c, d, d[v])| > d[v]
    decreases d[v]
  {
    hide Knows;
    var all := Within(s, c, d, d[v]);
    assert v in all;
    if d[v] > 0 {
      assert HasParent(s, c, d, v);
      var u :| 0 <= u < |d| && Knows(s.locals[u], c) && d[u] + 1 == d[v];
      LevelsFill(s, c, o, d, u);
      var below := Within(s, c, d, d[u]);
      assert v !in below && below <= all && below + {v} <= all;
      Subset(below + {v}, all);
    }
  }

  lemma Subset<T>(a: set<T>, b: set<T>)
    requires a <= b
    ensures |a| <= |b|
  {
    assert b == a + (b - a);
  }

  lemma {:induction false} Bounded(a: set<int>, n: nat)
    requires forall v :: v in a ==> 0 <= v < n
    ensures |a| <= n
  {
    if n == 0 {
      assert forall v :: v !in a;
    } else {
      Bounded(a - {n - 1}, n - 1);
      Subset(a, (a - {n - 1}) + {n - 1});
    }
  }

  lemma LevelBound(s: State, c: Bytes, o: nat, d: seq<nat>, v: nat)
    requires Levels(s, c, o, d) && v < |d| && Knows(s.locals[v], c)
    ensures d[v] < |d|
  {
    hide Knows;
    LevelsFill(s, c, o, d, v);
    Bounded(Within(s, c, d, d[v]), |d|);
  }

  // ---- Steps that are not about the packet --------------------------------------------------

  /** Two states that look the same to whoever only watches one packet. */
  ghost predicate SameView(s: State, t: State, c: Bytes) {
    && |s.locals| == |t.locals|
    && (forall v :: 0 <= v < |s.locals| ==> SameNode(s.locals[v], t.locals[v], c))
    && (forall m: Copy :: Named(m.packet, c) ==> (m in s.net <==> m in t.net))
  }

  ghost predicate SameNode(l: Local, k: Local, c: Bytes) {
    && Knows(l, c) == Knows(k, c)
    && forall f: Pending :: Named(f.packet, c) ==> (f in l.queue <==> f in k.queue)
  }

  lemma ViewKeeps(mesh: Mesh, s: State, t: State, c: Bytes, o: nat, d: seq<nat>)
    requires Spreading(mesh, s, c, o, d) && SameView(s, t, c)
    ensures Spreading(mesh, t, c, o, d)
  {
    hide Knows, Named;
    forall v | 0 <= v < |d| && v != o && Knows(t.locals[v], c) ensures HasParent(t, c, d, v) {
      assert SameNode(s.locals[v], t.locals[v], c) && HasParent(s, c, d, v);
      var u :| 0 <= u < |d| && Knows(s.locals[u], c) && d[u] + 1 == d[v];
      assert SameNode(s.locals[u], t.locals[u], c);
    }
    assert SameNode(s.locals[o], t.locals[o], c);
    forall m | m in t.net ensures CopyAtLevel(t, c, d, m) {
      if Named(m.packet, c) {
        assert CopyAtLevel(s, c, d, m) && SameNode(s.locals[m.sender], t.locals[m.sender], c);
      }
    }
    forall v, f | 0 <= v < |mesh| && f in t.locals[v].queue ensures PendingAtLevel(t, c, d, v, f) {
      if Named(f.packet, c) {
        assert SameNode(s.locals[v], t.locals[v], c) && PendingAtLevel(s, c, d, v, f);
        assert SameNode(s.locals[f.via], t.locals[f.via], c);
      }
    }
    forall v, i | 0 <= v < |mesh| && Knows(t.locals[v], c) && 0 <= i < |mesh[v]| ensures Passed(t, c, v, mesh[v][i]) {
      PassedSame(s, t, c, v, mesh[v][i]);
    }
  }

  lemma PassedSame(s: State, t: State, c: Bytes, v: nat, w: nat)
    requires v < |s.locals| && w < |s.locals| && SameView(s, t, c) && (Knows(s.locals[v], c) ==> Passed(s, c, v, w))
    ensures Knows(t.locals[v], c) ==> Passed(t, c, v, w)
  {
    hide Knows, Named;
    assert SameNode(s.locals[v], t.locals[v], c) && SameNode(s.locals[w], t.locals[w], c);
  }

  lemma Removed<T>(s: seq<T>, i: nat)
    requires i < |s|
    ensures forall x :: x in Without(s, i) ==> x in s
    ensures forall x :: x in s && x != s[i] ==> x in Without(s, i)
  {
    assert s == s[..i] + [s[i]] + s[i + 1..];
  }

  /** A reaction to another packet changes nothing a watcher of this one can see. */
  lemma OtherReceipt(x: Context, l: Local, copy: Copy, c: Bytes)
    requires !Named(copy.packet, c)
    ensures SameNode(l, Receive(x, l, copy), c)
  {
    hide React;
    ReactionShape(x, l.history, copy.packet);
    CountAppend(l.history, [copy.packet.Key()], KeyIs(c));
    CountOne(copy.packet.Key(), KeyIs(c));
    assert l.history + [] == l.history;
  }

  /** Steps about other packets, and duplications of this one. */
  lemma OtherSteps(mesh: Mesh, s: State, step: Step, c: Bytes)
    requires Enabled(mesh, s, step) && (!Active(mesh, s, step, c) || step.Duplicate?)
    ensures SameView(s, Next(mesh, s, step), c)
  {
    hide Receive, Rings.SeenIn;
    match step
    case Originate(at, p, recorded) =>
      CountAppend(s.locals[at].history, [p.Key()], KeyIs(c));
      CountOne(p.Key(), KeyIs(c));
    case Deliver(i, x) =>
      OtherReceipt(x, s.locals[s.net[i].to], s.net[i], c);
      Removed(s.net, i);
    case Forward(at, i) => Removed(s.locals[at].queue, i);
    case Drop(i) => Removed(s.net, i);
    case Duplicate(i) =>
  }

  // ---- Steps about the packet ---------------------------------------------------------------

  /** The node's checks pass a packet, whatever its hop count. */
  predicate Welcome(x: Context, p: Packet) {
    var q := p.(hops := 0);
    && ProofOfWork.VerifyWork(x.work, PoWMaterial(q), q.powNonce, q.powDifficulty, q.powHash)
    && Verify(x.c, q, x.nowNs, x.policy.enforceClock && x.synced).None?
    && Cleared(x, q)
  }

  lemma WelcomePasses(x: Context, p: Packet, hops: i64)
    requires Welcome(x, p) && 0 <= hops <= p.ttlMaxHops
    ensures Passes(x, p.(hops := hops)) && Cleared(x, p.(hops := hops))
  {
    hide Verify, PoWMaterial, ProofOfWork.VerifyWork;
    var z := p.(hops := 0);
    assert p.(hops := hops) == z.(hops := hops);
    ForwardingKeeps(x.c, z, hops, x.nowNs, x.policy.enforceClock && x.synced);
  }

  /** A node that welcomes a packet it has not seen accepts it, and passes it on below the limit. */
  lemma WelcomeReaction(x: Context, history: seq<Rings.Key>, p: Packet)
    requires Welcome(x, p) && 0 <= p.hops < p.ttlMaxHops <= MAX_HOPS && p.kind != [] && p.kind != KIND_TIME_SYNC
    requires !Rings.SeenIn(history, p.Key())
    ensures var r := React(x, history, p);
      r.accepted && r.forward == if p.hops + 1 < p.ttlMaxHops then Some(p.(hops := p.hops + 1)) else None
  {
    hide Rings.SeenIn, Welcome, Passes, Cleared, InboxEntry, Sample;
    WelcomePasses(x, p, p.hops + 1);
    assert Received(p) == p.(hops := p.hops + 1);
  }

  lemma KnownReceipt(x: Context, l: Local, copy: Copy, c: Bytes)
    requires Knows(l, c) && Named(copy.packet, c) && InWindow(l.history, c)
    ensures Receive(x, l, copy) == l
  {
    hide InWindow;
    KnownIsSeen(l.history, copy.packet.Key());
    assert l.history + [] == l.history && l.queue + [] == l.queue && l.inbox + [] == l.inbox;
  }

  /** A copy that reaches a node which knows the packet is not missed. */
  lemma DeliverKnown(mesh: Mesh, s: State, i: nat, x: Context, c: Bytes, o: nat, d: seq<nat>)
    requires Enabled(mesh, s, Deliver(i, x)) && Named(s.net[i].packet, c)
    requires Spreading(mesh, s, c, o, d) && Knows(s.locals[s.net[i].to], c) && AllInWindow(s, c)
    ensures Spreading(mesh, Next(mesh, s, Deliver(i, x)), c, o, d)
  {
    hide Knows, Named, Receive, Levels, InWindow;
    var t, w := Next(mesh, s, Deliver(i, x)), s.net[i].to;
    KnownReceipt(x, s.locals[w], s.net[i], c);
    Removed(s.net, i);
    assert t.locals == s.locals;
    SameLevels(s, t, c, o, d);
    forall v, j | 0 <= v < |mesh| && Knows(t.locals[v], c) && 0 <= j < |mesh[v]| ensures Passed(t, c, v, mesh[v][j]) {
      assert Passed(s, c, v, mesh[v][j]);
    }
  }

  lemma SameLevels(s: State, t: State, c: Bytes, o: nat, d: seq<nat>)
    requires s.locals == t.locals && Levels(s, c, o, d)
    ensures Levels(t, c, o, d)
  {
    hide Knows;
    forall v | 0 <= v < |d| && v != o && Knows(t.locals[v], c) ensures HasParent(t, c, d, v) {
      assert HasParent(s, c, d, v);
    }
  }

  /** A node that learns the packet, and passes it on unless its hops are used up. */
  predicate Learned(l: Local, k: Local, copy: Copy) {
    && k.history == l.history + [copy.packet.Key()]
    && Received(copy.packet).hops == copy.packet.hops + 1
    && k.queue == l.queue + (if PassesOn(copy) then [Pending(Received(copy.packet), copy.sender)] else [])
  }

  predicate PassesOn(copy: Copy) { copy.packet.hops + 1 < copy.packet.ttlMaxHops }

  lemma LearnerKnows(l: Local, k: Local, key: Rings.Key, c: Bytes)
    requires k.history == l.history + [key] && Rings.Composite(key) == c
    ensures Knows(k, c)
  {
    hide Rings.Composite;
    CountAppend(l.history, [key], KeyIs(c));
    CountOne(key, KeyIs(c));
  }

  /** The learner's level is one more than its teacher's, and others keep theirs. */
  lemma LearnerLevel(s: State, t: State, c: Bytes, o: nat, d: seq<nat>, u: nat, w: nat)
    requires Levels(s, c, o, d) && u < |d| && w < |d| && Knows(s.locals[u], c) && !Knows(s.locals[w], c)
    requires |t.locals| == |d| && Knows(t.locals[w], c)
    requires forall v :: 0 <= v < |d| && v != w ==> t.locals[v] == s.locals[v]
    ensures Levels(t, c, o, d[w := d[u] + 1]) && d[u] + 1 < |d|
  {
    hide Knows;
    var e := d[w := d[u] + 1];
    forall v | 0 <= v < |e| && v != o && Knows(t.locals[v], c) ensures HasParent(t, c, e, v) {
      if v == w {
        assert Knows(t.locals[u], c) && e[u] + 1 == e[v];
      } else {
        assert HasParent(s, c, d, v);
        var p :| 0 <= p < |d| && Knows(s.locals[p], c) && d[p] + 1 == d[v];
        assert Knows(t.locals[p], c) && e[p] + 1 == e[v];
      }
    }
    LevelBound(t, c, o, e, w);
  }

  /** Copies and waiting forwards stay at the level of the node they come from when another node learns. */
  lemma LearnerItems(mesh: Mesh, s: State, i: nat, k: Local, c: Bytes, o: nat, d: seq<nat>)
    requires Spreading(mesh, s, c, o, d) && i < |s.net| && Named(s.net[i].packet, c) && s.net[i].to < |mesh|
    requires !Knows(s.locals[s.net[i].to], c) && Knows(k, c) && Learned(s.locals[s.net[i].to], k, s.net[i])
    ensures var w, u := s.net[i].to, s.net[i].sender;
      && u < |mesh|
      && var t, e := s.(locals := s.locals[w := k], net := Without(s.net, i)), d[w := d[u] + 1];
      && (forall m :: m in t.net ==> CopyAtLevel(t, c, e, m))
      && (forall v, f :: 0 <= v < |mesh| && f in t.locals[v].queue ==> PendingAtLevel(t, c, e, v, f))
  {
    hide Knows, Levels, Frontier;
    var copy := s.net[i];
    var w := copy.to;
    assert copy in s.net && CopyAtLevel(s, c, d, copy);
    var u := copy.sender;
    var t, e := s.(locals := s.locals[w := k], net := Without(s.net, i)), d[w := d[u] + 1];
    Removed(s.net, i);
    forall m | m in t.net ensures CopyAtLevel(t, c, e, m) {
      assert CopyAtLevel(s, c, d, m);
    }
    forall v, f | 0 <= v < |mesh| && f in t.locals[v].queue ensures PendingAtLevel(t, c, e, v, f) {
      if f in s.locals[v].queue {
        assert PendingAtLevel(s, c, d, v, f);
      }
    }
  }

  lemma LearnerFrontier(mesh: Mesh, s: State, i: nat, k: Local, c: Bytes)
    requires IsMesh(mesh) && |s.locals| == |mesh| && Frontier(mesh, s, c)
    requires i < |s.net| && Named(s.net[i].packet, c) && s.net[i].to < |mesh| && s.net[i].sender < |mesh|
    requires Knows(s.locals[s.net[i].sender], c) && !Knows(s.locals[s.net[i].to], c)
    requires Knows(k, c) && Learned(s.locals[s.net[i].to], k, s.net[i]) && PassesOn(s.net[i])
    ensures Frontier(mesh, s.(locals := s.locals[s.net[i].to := k], net := Without(s.net, i)), c)
  {
    hide Knows;
    var copy := s.net[i];
    var w := copy.to;
    var t := s.(locals := s.locals[w := k], net := Without(s.net, i));
    Removed(s.net, i);
    forall v, j | 0 <= v < |mesh| && Knows(t.locals[v], c) && 0 <= j < |mesh[v]| ensures Passed(t, c, v, mesh[v][j]) {
      if v == w {
        assert Pending(Received(copy.packet), copy.sender) in k.queue;
        assert Named(Received(copy.packet), c);
      } else {
        assert Passed(s, c, v, mesh[v][j]);
      }
    }
  }

  /** A node that learns the packet at the last level of a mesh no other level is missing from: by then
      everybody knows it, and nobody has to pass it on. */
  lemma LastLearner(mesh: Mesh, s: State, c: Bytes, o: nat, d: seq<nat>, w: nat)
    requires IsMesh(mesh) && |s.locals| == |mesh| && Levels(s, c, o, d) && w < |d| && Knows(s.locals[w], c)
    requires d[w] + 1 == |mesh|
    ensures Frontier(mesh, s, c)
  {
    hide Knows;
    LevelsFill(s, c, o, d, w);
    var known := Within(s, c, d, d[w]);
    forall v | 0 <= v < |mesh| ensures Knows(s.locals[v], c) {
      if v !in known {
        Bounded(known + {v}, |mesh|);
      }
    }
  }

  /** Either way, whoever knows the packet has passed it on, is about to, or need not. */
  lemma LearnerReaches(mesh: Mesh, s: State, t: State, i: nat, k: Local, c: Bytes, o: nat, e: seq<nat>)
    requires IsMesh(mesh) && |s.locals| == |mesh| && Frontier(mesh, s, c)
    requires i < |s.net| && Named(s.net[i].packet, c) && s.net[i].to < |mesh| && s.net[i].sender < |mesh|
    requires Knows(s.locals[s.net[i].sender], c) && !Knows(s.locals[s.net[i].to], c)
    requires Knows(k, c) && Learned(s.locals[s.net[i].to], k, s.net[i])
    requires t == s.(locals := s.locals[s.net[i].to := k], net := Without(s.net, i)) && Levels(t, c, o, e)
    requires |mesh| == |e| <= s.net[i].packet.ttlMaxHops + 1 && e[s.net[i].to] == s.net[i].packet.hops + 1 < |mesh|
    ensures Frontier(mesh, t, c)
  {
    hide Knows, Levels, Frontier, Named, Learned;
    if PassesOn(s.net[i]) {
      LearnerFrontier(mesh, s, i, k, c);
    } else {
      LastLearner(mesh, t, c, o, e, s.net[i].to);
    }
  }

  /** What receiving a welcome, new packet makes of a node. */
  lemma NewReceipt(x: Context, l: Local, copy: Copy, c: Bytes)
    requires Named(copy.packet, c) && Welcome(x, copy.packet) && !Knows(l, c)
    requires 0 <= copy.packet.hops < copy.packet.ttlMaxHops <= MAX_HOPS
    requires copy.packet.kind != [] && copy.packet.kind != KIND_TIME_SYNC
    ensures Learned(l, Receive(x, l, copy), copy) && Knows(Receive(x, l, copy), c)
  {
    hide Knows, Welcome, React, Rings.SeenIn;
    if Rings.SeenIn(l.history, copy.packet.Key()) { NotSeen(l, copy.packet, c); }
    WelcomeReaction(x, l.history, copy.packet);
    LearnerKnows(l, Receive(x, l, copy), copy.packet.Key(), c);
    assert Received(copy.packet) == copy.packet.(hops := copy.packet.hops + 1);
  }

  lemma CopyIsGenuine(mesh: Mesh, s: State, i: nat)
    requires Inv(mesh, s) && i < |s.net|
    ensures var p := s.net[i].packet; 0 <= p.hops < p.ttlMaxHops <= MAX_HOPS && p.kind != []
  {
    hide LocalOk;
    assert Genuine(s, s.net[i].packet);
  }

  /** A copy that reaches a node which does not know the packet takes the flood one level further. */
  lemma DeliverNew(mesh: Mesh, s: State, i: nat, x: Context, c: Bytes, o: nat, d: seq<nat>) returns (e: seq<nat>)
    requires Enabled(mesh, s, Deliver(i, x)) && Named(s.net[i].packet, c) && Welcome(x, s.net[i].packet)
    requires Inv(mesh, s) && Spreading(mesh, s, c, o, d) && !Knows(s.locals[s.net[i].to], c)
    requires |mesh| <= s.net[i].packet.ttlMaxHops + 1 && s.net[i].packet.kind != KIND_TIME_SYNC
    ensures Spreading(mesh, Next(mesh, s, Deliver(i, x)), c, o, e)
  {
    hide Knows, Levels, Frontier, Inv, Welcome, Receive, HasParent, Named, Learned;
    var copy := s.net[i];
    CopyIsGenuine(mesh, s, i);
    assert copy in s.net && CopyAtLevel(s, c, d, copy);
    var w, u := copy.to, copy.sender;
    var k := Receive(x, s.locals[w], copy);
    NewReceipt(x, s.locals[w], copy, c);
    e := d[w := d[u] + 1];
    var t := Next(mesh, s, Deliver(i, x));
    LearnerLevel(s, t, c, o, d, u, w);
    LearnerItems(mesh, s, i, k, c, o, d);
    LearnerReaches(mesh, s, t, i, k, c, o, e);
  }

  lemma NotSeen(l: Local, p: Packet, c: Bytes)
    requires Named(p, c) && Rings.SeenIn(l.history, p.Key())
    ensures Knows(l, c)
  {
    SeenIsKnown(l.history, p.Key());
  }

  /** A waiting forward turns into copies to everyone it was waiting for. */
  lemma ForwardSpreads(mesh: Mesh, s: State, at: nat, i: nat, c: Bytes, o: nat, d: seq<nat>)
    requires Enabled(mesh, s, Forward(at, i)) && Named(s.locals[at].queue[i].packet, c)
    requires Spreading(mesh, s, c, o, d)
    ensures Spreading(mesh, Next(mesh, s, Forward(at, i)), c, o, d)
  {
    hide Named, Levels;
    var t, l := Next(mesh, s, Forward(at, i)), s.locals[at];
    var f := l.queue[i];
    var to := Others(mesh[at], f.via);
    var copies := Copies(at, to, f.packet);
    assert f in l.queue && PendingAtLevel(s, c, d, at, f);
    Removed(l.queue, i);
    SameKnowledge(s, t, c, o, d);
    forall m | m in t.net ensures CopyAtLevel(t, c, d, m) {
      if m in s.net {
        assert CopyAtLevel(s, c, d, m);
      }
    }
    forall v, g | 0 <= v < |mesh| && g in t.locals[v].queue ensures PendingAtLevel(t, c, d, v, g) {
      assert g in s.locals[v].queue;
      assert PendingAtLevel(s, c, d, v, g);
    }
    forall v, j | 0 <= v < |mesh| && Knows(t.locals[v], c) && 0 <= j < |mesh[v]| ensures Passed(t, c, v, mesh[v][j]) {
      var w := mesh[v][j];
      assert Passed(s, c, v, w);
      if v == at && w != f.via {
        assert w in to;
        var n :| 0 <= n < |to| && to[n] == w;
        assert copies[n] in t.net;
      }
    }
  }

  lemma SameKnowledge(s: State, t: State, c: Bytes, o: nat, d: seq<nat>)
    requires |s.locals| == |t.locals| && Levels(s, c, o, d)
    requires forall v :: 0 <= v < |s.locals| ==> t.locals[v].history == s.locals[v].history
    ensures Levels(t, c, o, d)
  {
    forall v | 0 <= v < |d| && v != o && Knows(t.locals[v], c) ensures HasParent(t, c, d, v) {
      assert HasParent(s, c, d, v);
    }
  }

  // ---- Whole runs ---------------------------------------------------------------------------

  /** The packet is not lost, and every node that does not know it yet lets it pass. */
  predicate Kept(mesh: Mesh, s: State, step: Step, c: Bytes)
    requires Enabled(mesh, s, step)
  {
    Active(mesh, s, step, c) ==>
      && !step.Drop? && !step.Originate?
      && (step.Deliver? && !Knows(s.locals[s.net[step.index].to], c) ==>
            Welcome(step.context, s.net[step.index].packet))
  }

  predicate KeptRun(mesh: Mesh, s: State, steps: seq<Step>, c: Bytes)
    requires Run(mesh, s, steps).Some?
  {
    steps == [] ||
      (KeptRun(mesh, s, steps[..|steps| - 1], c)
       && Kept(mesh, Run(mesh, s, steps[..|steps| - 1]).value, steps[|steps| - 1], c))
  }

  /** The packet may make as many hops as there are other nodes. */
  predicate LongLived(s: State, c: Bytes, n: nat) {
    forall p :: p in s.origins && Named(p, c) ==> n <= p.ttlMaxHops + 1 && p.kind != KIND_TIME_SYNC
  }

  lemma CopyLongLived(mesh: Mesh, s: State, c: Bytes, m: Copy)
    requires Inv(mesh, s) && m in s.net && Named(m.packet, c) && LongLived(s, c, |mesh|)
    ensures |mesh| <= m.packet.ttlMaxHops + 1 && m.packet.kind != KIND_TIME_SYNC
  {
    hide LocalOk;
    assert Genuine(s, m.packet);
    assert Named(m.packet.(hops := 0), c);
  }

  lemma StepSpreads(mesh: Mesh, s: State, step: Step, c: Bytes, o: nat, d: seq<nat>) returns (e: seq<nat>)
    requires Inv(mesh, s) && Spreading(mesh, s, c, o, d) && LongLived(s, c, |mesh|) && AllInWindow(s, c)
    requires Enabled(mesh, s, step) && Kept(mesh, s, step, c)
    ensures Spreading(mesh, Next(mesh, s, step), c, o, e) && LongLived(Next(mesh, s, step), c, |mesh|)
  {
    hide Inv, Spreading, Welcome, Knows, Named, Receive, AllInWindow;
    e := d;
    if !Active(mesh, s, step, c) || step.Duplicate? {
      OtherSteps(mesh, s, step, c);
      ViewKeeps(mesh, s, Next(mesh, s, step), c, o, d);
    } else if step.Forward? {
      ForwardSpreads(mesh, s, step.at, step.position, c, o, d);
    } else if Knows(s.locals[s.net[step.index].to], c) {
      DeliverKnown(mesh, s, step.index, step.context, c, o, d);
    } else {
      CopyLongLived(mesh, s, c, s.net[step.index]);
      e := DeliverNew(mesh, s, step.index, step.context, c, o, d);
    }
  }

  lemma {:induction false} RunSpreads(mesh: Mesh, s: State, steps: seq<Step>, t: State, c: Bytes, o: nat, d: seq<nat>)
    returns (e: seq<nat>)
    requires Inv(mesh, s) && Spreading(mesh, s, c, o, d) && LongLived(s, c, |mesh|)
    requires Run(mesh, s, steps) == Some(t) && KeptRun(mesh, s, steps, c) && AllInWindow(t, c)
    ensures Inv(mesh, t) && Spreading(mesh, t, c, o, e) && LongLived(t, c, |mesh|)
  {
    hide Inv, Spreading, LongLived, AllInWindow, Kept, Next, Enabled;
    if steps == [] {
      e := d;
    } else {
      var before, step := Run(mesh, s, steps[..|steps| - 1]).value, steps[|steps| - 1];
      EarlierInWindow(mesh, before, step, c);
      e := RunSpreads(mesh, s, steps[..|steps| - 1], before, c, o, d);
      e := StepSpreads(mesh, before, step, c, o, e);
      StepKeeps(mesh, before, step);
    }
  }

  /** Right after its origin nothing else is about the packet. */
  lemma OriginItems(mesh: Mesh, s: State, o: nat, p: Packet, c: Bytes, d: seq<nat>)
    requires IsMesh(mesh) && Enabled(mesh, s, Originate(o, p, true)) && Unheard(s, c) && |d| == |mesh| && d[o] == 0
    requires Knows(Next(mesh, s, Originate(o, p, true)).locals[o], c)
    ensures var t := Next(mesh, s, Originate(o, p, true));
      && |t.locals| == |mesh|
      && (forall m :: m in t.net ==> CopyAtLevel(t, c, d, m))
      && (forall v, f :: 0 <= v < |mesh| && f in t.locals[v].queue ==> PendingAtLevel(t, c, d, v, f))
  {
    hide Rings.SeenIn, Knows, Named, Count;
    var t := Next(mesh, s, Originate(o, p, true));
    CountZero(s.net, CopyIs(c));
    forall v, f | 0 <= v < |mesh| && f in t.locals[v].queue ensures PendingAtLevel(t, c, d, v, f) {
      CountZero(s.locals[v].queue, PendingIs(c));
    }
  }

  lemma OriginFrontier(mesh: Mesh, s: State, o: nat, p: Packet, c: Bytes)
    requires IsMesh(mesh) && Enabled(mesh, s, Originate(o, p, true)) && Named(p, c) && Unheard(s, c)
    ensures var t := Next(mesh, s, Originate(o, p, true)); |t.locals| == |mesh| && Frontier(mesh, t, c)
  {
    hide Rings.SeenIn, Knows, Named, Count;
    var t, copies := Next(mesh, s, Originate(o, p, true)), Copies(o, mesh[o], p);
    forall v, i | 0 <= v < |mesh| && Knows(t.locals[v], c) && 0 <= i < |mesh[v]| ensures Passed(t, c, v, mesh[v][i]) {
      assert v == o && copies[i] in t.net;
    }
  }

  lemma OriginSpreads(mesh: Mesh, s: State, o: nat, p: Packet, c: Bytes) returns (d: seq<nat>)
    requires IsMesh(mesh) && Enabled(mesh, s, Originate(o, p, true)) && Named(p, c) && Unheard(s, c)
    ensures Spreading(mesh, Next(mesh, s, Originate(o, p, true)), c, o, d)
  {
    hide Rings.SeenIn, Rings.Composite, Frontier;
    var t, l := Next(mesh, s, Originate(o, p, true)), s.locals[o];
    if Rings.SeenIn(l.history, p.Key()) { NotSeen(l, p, c); }
    LearnerKnows(l, t.locals[o], p.Key(), c);
    d := seq(|mesh|, _ => 0);
    hide Knows, Named, CopyAtLevel, PendingAtLevel;
    OriginItems(mesh, s, o, p, c, d);
    OriginFrontier(mesh, s, o, p, c);
  }

  /** A path along the links. */
  predicate IsPath(mesh: Mesh, path: seq<nat>) {
    var n := |path|;
    n > 0 && if n == 1 then path[0] < |mesh|
             else path[n - 2] < |mesh| && path[n - 1] in mesh[path[n - 2]] && IsPath(mesh, path[..n - 1])
  }

  /** Nothing about the packet is on its way or waiting. */
  predicate Settled(s: State, c: Bytes) {
    && Count(s.net, CopyIs(c)) == 0
    && forall v :: 0 <= v < |s.locals| ==> Count(s.locals[v].queue, PendingIs(c)) == 0
  }

  lemma {:induction false} PathKnows(mesh: Mesh, t: State, c: Bytes, o: nat, d: seq<nat>, path: seq<nat>)
    requires Spreading(mesh, t, c, o, d) && Settled(t, c) && IsPath(mesh, path) && path[0] == o
    ensures path[|path| - 1] < |mesh| && Knows(t.locals[path[|path| - 1]], c)
  {
    hide Knows, Named, Count;
    if |path| > 1 {
      var v, w := path[|path| - 2], path[|path| - 1];
      PathKnows(mesh, t, c, o, d, path[..|path| - 1]);
      var i :| 0 <= i < |mesh[v]| && mesh[v][i] == w;
      assert Passed(t, c, v, mesh[v][i]);
      CountZero(t.net, CopyIs(c));
      CountZero(t.locals[v].queue, PendingIs(c));
    } else {
      assert path[|path| - 1] == o;
    }
  }

  /** A chat packet is originated, never lost, welcomed wherever it is new, and allowed as many hops as
      there are other nodes. However copies are delayed, reordered and duplicated, once the flood has settled every
      node the origin has a path to has accepted the packet exactly once. */
  lemma EveryoneIsReached(mesh: Mesh, s: State, o: nat, p: Packet, steps: seq<Step>, t: State, c: Bytes, path: seq<nat>)
    requires IsMesh(mesh) && Inv(mesh, s) && Unheard(s, c) && forall q :: q in s.origins ==> !Named(q, c)
    requires Enabled(mesh, s, Originate(o, p, true)) && Named(p, c)
    requires |mesh| <= p.ttlMaxHops + 1 && p.kind != KIND_TIME_SYNC
    requires var first := Next(mesh, s, Originate(o, p, true));
      Run(mesh, first, steps) == Some(t) && KeptRun(mesh, first, steps, c)
    requires AllInWindow(t, c) && Settled(t, c)
    requires path != [] && path[0] == o && IsPath(mesh, path)
    ensures path[|path| - 1] < |t.locals| && Count(t.locals[path[|path| - 1]].history, KeyIs(c)) == 1
  {
    hide Run, KeptRun, Spreading, Settled, Inv, InWindow, Unheard, Next, Enabled;
    hide Knows, Named, IsPath, Count, LongLived;
    var first := Next(mesh, s, Originate(o, p, true));
    var d := OriginSpreads(mesh, s, o, p, c);
    StepKeeps(mesh, s, Originate(o, p, true));
    OriginLives(mesh, s, o, p, c);
    var e := RunSpreads(mesh, first, steps, t, c, o, d);
    SpreadingNodes(mesh, t, c, o, e);
    PathKnows(mesh, t, c, o, e, path);
    AcceptedOnce(mesh, t, path[|path| - 1], c);
  }

  lemma OriginLives(mesh: Mesh, s: State, o: nat, p: Packet, c: Bytes)
    requires Enabled(mesh, s, Originate(o, p, true)) && forall q :: q in s.origins ==> !Named(q, c)
    requires |mesh| <= p.ttlMaxHops + 1 && p.kind != KIND_TIME_SYNC
    ensures LongLived(Next(mesh, s, Originate(o, p, true)), c, |mesh|)
  {
    hide Named, Rings.SeenIn;
  }

  lemma SpreadingNodes(mesh: Mesh, t: State, c: Bytes, o: nat, d: seq<nat>)
    requires Spreading(mesh, t, c, o, d)
    ensures |t.locals| == |mesh|
  {
  }

  lemma AcceptedOnce(mesh: Mesh, t: State, v: nat, c: Bytes)
    requires Inv(mesh, t) && v < |mesh| == |t.locals| && AllInWindow(t, c) && Knows(t.locals[v], c)
    ensures Count(t.locals[v].history, KeyIs(c)) == 1
  {
    hide Count, InWindow;
    OnceInWindow(t.locals[v].history, c);
  }

  // ---- The addressee ------------------------------------------------------------------------

  /** The node listens to the packet's sender, need not ask it for a better ticket, is meant by it and can
      read it. */
  ghost predicate Shows(x: Context, p: Packet) {
    && p.senderID !in x.policy.blocked && x.answers.trusted
    && (p.alert ==> !x.policy.blockAlert && x.answers.alertSender)
    && p.kind != Ascii("key_flood") && p.kind != Ascii("time_sync") && p.kind != Ascii("diff_hint")
    && Paid(x, p)
    && (p.broadcast || p.targetID == x.policy.nodeID)
    && x.answers.text.Some?
  }

  lemma AcceptedIsShown(x: Context, history: seq<Rings.Key>, p: Packet)
    requires React(x, history, p).accepted && Shows(x, p)
    ensures React(x, history, p).message.Some? && React(x, history, p).message.value.packet == Received(p)
  {
    hide React, InOrder, Repeats, Paid;
    AcceptedIff(x, history, p);
    ShownIff(x, history, p);
    ReactionShape(x, history, p);
  }

  /** Node v shows the packet if the step is what it learns it from. */
  ghost predicate ShownAt(mesh: Mesh, s: State, step: Step, c: Bytes, v: nat)
    requires Enabled(mesh, s, step) && v < |s.locals|
  {
    Active(mesh, s, step, c) && step.Deliver? && s.net[step.index].to == v && !Knows(s.locals[v], c) ==>
      Shows(step.context, s.net[step.index].packet)
  }

  ghost predicate ShowingRun(mesh: Mesh, s: State, steps: seq<Step>, c: Bytes, v: nat)
    requires |s.locals| == |mesh| && v < |mesh| && Run(mesh, s, steps).Some?
  {
    steps == [] ||
      (SameSize(mesh, s, steps[..|steps| - 1]);
       ShowingRun(mesh, s, steps[..|steps| - 1], c, v)
       && ShownAt(mesh, Run(mesh, s, steps[..|steps| - 1]).value, steps[|steps| - 1], c, v))
  }

  lemma {:induction false} SameSize(mesh: Mesh, s: State, steps: seq<Step>)
    requires |s.locals| == |mesh| && Run(mesh, s, steps).Some?
    ensures |Run(mesh, s, steps).value.locals| == |mesh|
  {
    if steps != [] {
      hide Next, Enabled;
      SameSize(mesh, s, steps[..|steps| - 1]);
      SameNodes(mesh, Run(mesh, s, steps[..|steps| - 1]).value, steps[|steps| - 1]);
    }
  }

  /** If the node knows the packet, the packet is in its inbox. */
  predicate Showing(l: Local, c: Bytes) { Knows(l, c) ==> Count(l.inbox, PacketIs(c)) >= 1 }

  lemma ReceiptShows(x: Context, l: Local, copy: Copy, c: Bytes)
    requires Showing(l, c) && (Named(copy.packet, c) && !Knows(l, c) ==> Shows(x, copy.packet))
    ensures Showing(Receive(x, l, copy), c)
  {
    hide React, Shows, Rings.Composite;
    var r, k := React(x, l.history, copy.packet), Receive(x, l, copy);
    ReactionShape(x, l.history, copy.packet);
    var shown := if r.message.Some? then [r.message.value.packet] else [];
    var keys := if r.accepted then [copy.packet.Key()] else [];
    CountAppend(l.inbox, shown, PacketIs(c));
    CountAppend(l.history, keys, KeyIs(c));
    CountOne(copy.packet.Key(), KeyIs(c));
    if r.accepted && Named(copy.packet, c) && !Knows(l, c) {
      AcceptedIsShown(x, l.history, copy.packet);
      CountOne(Received(copy.packet), PacketIs(c));
    }
  }

  lemma StepShows(mesh: Mesh, s: State, step: Step, c: Bytes, v: nat)
    requires Enabled(mesh, s, step) && v < |mesh| == |s.locals| && Showing(s.locals[v], c)
    requires Kept(mesh, s, step, c) && ShownAt(mesh, s, step, c, v)
    ensures v < |Next(mesh, s, step).locals| && Showing(Next(mesh, s, step).locals[v], c)
  {
    hide Receive, Welcome, Shows, Rings.SeenIn, Rings.Composite;
    match step
    case Deliver(i, x) =>
      if s.net[i].to == v {
        ReceiptShows(x, s.locals[v], s.net[i], c);
      }
    case Originate(at, p, recorded) =>
      CountAppend(s.locals[at].history, [p.Key()], KeyIs(c));
      CountOne(p.Key(), KeyIs(c));
    case Forward(_, _) =>
    case Drop(_) =>
    case Duplicate(_) =>
  }

  lemma {:induction false} RunShows(mesh: Mesh, s: State, steps: seq<Step>, t: State, c: Bytes, v: nat)
    requires v < |mesh| == |s.locals| && Showing(s.locals[v], c) && Run(mesh, s, steps) == Some(t)
    requires KeptRun(mesh, s, steps, c) && ShowingRun(mesh, s, steps, c, v)
    ensures v < |t.locals| && Showing(t.locals[v], c)
  {
    hide Showing, Kept, ShownAt, Next, Enabled;
    if steps != [] {
      var before := Run(mesh, s, steps[..|steps| - 1]).value;
      RunShows(mesh, s, steps[..|steps| - 1], before, c, v);
      SameSize(mesh, s, steps[..|steps| - 1]);
      StepShows(mesh, before, steps[|steps| - 1], c, v);
    }
  }

  lemma NotOriginShows(mesh: Mesh, s: State, o: nat, p: Packet, c: Bytes, v: nat)
    requires Enabled(mesh, s, Originate(o, p, true)) && Unheard(s, c) && v < |mesh| && v != o
    ensures var first := Next(mesh, s, Originate(o, p, true));
      |first.locals| == |mesh| && Showing(first.locals[v], c)
  {
    hide Rings.SeenIn, Knows, Named;
  }

  lemma ShownOnce(mesh: Mesh, t: State, v: nat, c: Bytes)
    requires Inv(mesh, t) && v < |mesh| == |t.locals| && Showing(t.locals[v], c)
    requires Count(t.locals[v].history, KeyIs(c)) == 1
    ensures Count(t.locals[v].inbox, PacketIs(c)) == 1
  {
    hide Count;
    assert LocalOk(t.locals[v]);
  }

  /** A message arrives. In a flood that loses nothing, a node other than the origin that the origin has a path
      to, and that shows the packet when it first meets it -- because the packet is for it or for everybody,
      from somebody it listens to, paid for and readable -- has it in its inbox exactly once in the end. */
  lemma AddresseeIsShown(mesh: Mesh, s: State, o: nat, p: Packet, steps: seq<Step>, t: State, c: Bytes, path: seq<nat>)
    requires IsMesh(mesh) && Inv(mesh, s) && Unheard(s, c) && forall q :: q in s.origins ==> !Named(q, c)
    requires Enabled(mesh, s, Originate(o, p, true)) && Named(p, c)
    requires |mesh| <= p.ttlMaxHops + 1 && p.kind != KIND_TIME_SYNC
    requires path != [] && path[0] == o && IsPath(mesh, path) && path[|path| - 1] != o
    requires var first := Next(mesh, s, Originate(o, p, true));
      && Run(mesh, first, steps) == Some(t) && KeptRun(mesh, first, steps, c)
      && path[|path| - 1] < |mesh| == |first.locals| && ShowingRun(mesh, first, steps, c, path[|path| - 1])
    requires AllInWindow(t, c) && Settled(t, c)
    ensures path[|path| - 1] < |t.locals| && Count(t.locals[path[|path| - 1]].inbox, PacketIs(c)) == 1
  {
    hide Run, KeptRun, ShowingRun, Settled, Inv, InWindow, Unheard, Next, Enabled, Showing;
    hide Knows, Named, IsPath, Count, LongLived, LocalOk;
    var first, v := Next(mesh, s, Originate(o, p, true)), path[|path| - 1];
    EveryoneIsReached(mesh, s, o, p, steps, t, c, path);
    NotOriginShows(mesh, s, o, p, c, v);
    RunShows(mesh, first, steps, t, c, v);
    StepKeeps(mesh, s, Originate(o, p, true));
    RunKeeps(mesh, first, steps);
    SameSize(mesh, first, steps);
    ShownOnce(mesh, t, v, c);
  }
}
