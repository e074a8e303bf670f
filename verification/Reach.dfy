/** The size in `Coverages.EveryoneIsReached` is exact: on a line of one node more, a flood that loses
    nothing and is welcome everywhere settles before it reaches the far end. */
module Reach {
  import opened Base
  import opened Packets
  import opened Nodes
  import opened Floods
  import opened Coverages
  import Rings

  /** Nodes 0 to n - 1, each linked to its neighbours on either side. */
  function Line(n: nat): (mesh: Mesh)
    requires n >= 2
    ensures |mesh| == n && IsMesh(mesh)
    ensures forall v :: 0 < v < n - 1 ==> mesh[v] == [v - 1, v + 1]
    ensures mesh[0] == [1]
  {
    seq(n, v requires 0 <= v < n => if v == 0 then [1] else if v == n - 1 then [n - 2] else [v - 1, v + 1])
  }

  /** The packet has come as far as node k, which has just sent it on. */
  ghost predicate Stage(n: nat, s: State, p: Packet, k: nat) {
    && |s.locals| == n && k <= MAX_HOPS
    && s.net == [Copy(k, k + 1, p.(hops := k))]
    && (forall v :: 0 <= v < n ==> s.locals[v].queue == [] && s.locals[v].history == if v <= k then [p.Key()] else [])
  }

  lemma Onward(v: nat)
    requires v > 0
    ensures Others([v - 1, v + 1], v - 1) == [v + 1]
  {
    assert [v - 1, v + 1][..1] == [v - 1] && [v - 1][..0] == [];
    assert Others([], v - 1) == [];
    assert Others([v - 1], v - 1) == [];
  }

  lemma {:induction false} Extends(mesh: Mesh, s: State, steps: seq<Step>, t: State, step: Step, c: Bytes)
    requires Run(mesh, s, steps) == Some(t) && KeptRun(mesh, s, steps, c)
    requires Enabled(mesh, t, step) && Kept(mesh, t, step, c)
    ensures Run(mesh, s, steps + [step]) == Some(Next(mesh, t, step)) && KeptRun(mesh, s, steps + [step], c)
  {
    hide Enabled, Next, Kept;
    assert (steps + [step])[..|steps|] == steps;
  }

  lemma SameWelcome(x: Context, p: Packet, hops: i64)
    requires Welcome(x, p)
    ensures Welcome(x, p.(hops := hops))
  {
    assert p.(hops := hops).(hops := 0) == p.(hops := 0);
  }

  lemma ReceivedNext(p: Packet, k: nat)
    requires Honest(p) && k < p.ttlMaxHops
    ensures Received(p.(hops := k)) == p.(hops := k + 1) && p.(hops := k).Key() == p.Key()
  {
  }

  /** What a blank node becomes. */
  lemma BlankLearns(p: Packet, k: nat, to: nat, l: Local, x: Context)
    requires k < p.ttlMaxHops && Honest(p) && p.kind != KIND_TIME_SYNC && Welcome(x, p)
    requires l.history == [] && l.queue == []
    ensures var r := Receive(x, l, Copy(k, to, p.(hops := k)));
      && r.history == [p.Key()]
      && r.queue == if k + 1 < p.ttlMaxHops then [Pending(p.(hops := k + 1), k)] else []
  {
    SameWelcome(x, p, k);
    ReceivedNext(p, k);
    hide Welcome, Receive, Received, Rings.Composite;
    var copy := Copy(k, to, p.(hops := k));
    assert !Knows(l, Rings.Composite(p.Key()));
    NewReceipt(x, l, copy, Rings.Composite(p.Key()));
    assert [] + [p.Key()] == [p.Key()];
  }

  lemma DeliverKept(n: nat, s: State, p: Packet, k: nat, x: Context)
    requires Stage(n, s, p, k) && k + 1 < n && Welcome(x, p)
    ensures Enabled(Line(n), s, Deliver(0, x)) && Kept(Line(n), s, Deliver(0, x), Rings.Composite(p.Key()))
  {
    SameWelcome(x, p, k);
    hide Welcome, Rings.Composite, Knows, Named;
  }

  /** The next node learns the packet; it passes it on if hops are left. */
  lemma Learns(n: nat, s: State, p: Packet, k: nat, x: Context)
    requires Stage(n, s, p, k) && k + 1 < n - 1 && k < p.ttlMaxHops
    requires Honest(p) && p.kind != KIND_TIME_SYNC && Welcome(x, p)
    ensures Enabled(Line(n), s, Deliver(0, x)) && Kept(Line(n), s, Deliver(0, x), Rings.Composite(p.Key()))
    ensures var t := Next(Line(n), s, Deliver(0, x));
      && t.net == [] && |t.locals| == n
      && t.locals[k + 1].history == [p.Key()]
      && t.locals[k + 1].queue == (if k + 1 < p.ttlMaxHops then [Pending(p.(hops := k + 1), k)] else [])
      && forall v :: 0 <= v < n && v != k + 1 ==> t.locals[v] == s.locals[v]
  {
    hide Welcome, Receive, Rings.Composite, Knows, Honest, Kept;
    DeliverKept(n, s, p, k, x);
    BlankLearns(p, k, k + 1, s.locals[k + 1], x);
    assert Without(s.net, 0) == [];
  }

  /** Node k + 1 has just learned the packet and is about to pass it on. */
  ghost predicate Midway(n: nat, s: State, p: Packet, k: nat) {
    && |s.locals| == n && s.net == [] && k + 1 < MAX_HOPS
    && (forall v :: 0 <= v < n ==> s.locals[v].history == if v <= k + 1 then [p.Key()] else [])
    && (forall v :: 0 <= v < n ==> s.locals[v].queue == if v == k + 1 then [Pending(p.(hops := k + 1), k)] else [])
  }

  lemma LearnsMidway(n: nat, s: State, p: Packet, k: nat, x: Context)
    requires Stage(n, s, p, k) && k + 1 < n - 1 && k + 1 < p.ttlMaxHops
    requires Honest(p) && p.kind != KIND_TIME_SYNC && Welcome(x, p)
    ensures Enabled(Line(n), s, Deliver(0, x)) && Midway(n, Next(Line(n), s, Deliver(0, x)), p, k)
  {
    hide Welcome, Next;
    Learns(n, s, p, k, x);
  }

  lemma SendsOn(n: nat, s: State, p: Packet, k: nat)
    requires Midway(n, s, p, k) && k + 1 < n - 1
    ensures Enabled(Line(n), s, Forward(k + 1, 0))
    ensures Stage(n, Next(Line(n), s, Forward(k + 1, 0)), p, k + 1)
  {
    hide Others, Rings.Composite;
    Onward(k + 1);
    assert Copies(k + 1, [k + 2], p.(hops := k + 1)) == [Copy(k + 1, k + 2, p.(hops := k + 1))];
    assert Without(s.locals[k + 1].queue, 0) == [];
  }

  lemma Advances(n: nat, s: State, p: Packet, k: nat, x: Context) returns (t: State)
    requires Stage(n, s, p, k) && k + 1 < n - 1 && k + 1 < p.ttlMaxHops
    requires Honest(p) && p.kind != KIND_TIME_SYNC && Welcome(x, p)
    ensures var c, mid := Rings.Composite(p.Key()), Next(Line(n), s, Deliver(0, x));
      && Enabled(Line(n), s, Deliver(0, x)) && Kept(Line(n), s, Deliver(0, x), c)
      && Enabled(Line(n), mid, Forward(k + 1, 0)) && Kept(Line(n), mid, Forward(k + 1, 0), c)
      && t == Next(Line(n), mid, Forward(k + 1, 0)) && Stage(n, t, p, k + 1)
  {
    hide Welcome, Rings.Composite, Kept, Stage, Midway, Enabled, Next;
    Learns(n, s, p, k, x);
    LearnsMidway(n, s, p, k, x);
    var mid := Next(Line(n), s, Deliver(0, x));
    SendsOn(n, mid, p, k);
    KeptForward(n, mid, k + 1, Rings.Composite(p.Key()));
    t := Next(Line(n), mid, Forward(k + 1, 0));
  }

  lemma KeptForward(n: nat, s: State, at: nat, c: Bytes)
    requires n >= 2 && Enabled(Line(n), s, Forward(at, 0))
    ensures Kept(Line(n), s, Forward(at, 0), c)
  {
  }

  /** The packet marches down the line. */
  lemma {:induction false} Marches(n: nat, first: State, p: Packet, k: nat, x: Context)
    returns (steps: seq<Step>, t: State)
    requires Stage(n, first, p, 0) && k + 1 < n && k < p.ttlMaxHops
    requires Honest(p) && p.kind != KIND_TIME_SYNC && Welcome(x, p)
    ensures Run(Line(n), first, steps) == Some(t) && KeptRun(Line(n), first, steps, Rings.Composite(p.Key()))
    ensures Stage(n, t, p, k)
    decreases k
  {
    if k == 0 {
      steps, t := [], first;
    } else {
      var before: State;
      steps, before := Marches(n, first, p, k - 1, x);
      t := Advances(n, before, p, k - 1, x);
      hide Stage, Next, Enabled, Kept, KeptRun, Run, Welcome, Rings.Composite;
      var c := Rings.Composite(p.Key());
      Extends(Line(n), first, steps, before, Deliver(0, x), c);
      Extends(Line(n), first, steps + [Deliver(0, x)], Next(Line(n), before, Deliver(0, x)), Forward(k, 0), c);
      steps := steps + [Deliver(0, x)] + [Forward(k, 0)];
    }
  }

  lemma NothingSeen(key: Rings.Key)
    ensures !Rings.SeenIn([], key)
  {
  }

  lemma Starts(n: nat, p: Packet)
    requires n >= 2 && Honest(p)
    ensures var s := Initial(Line(n));
      Enabled(Line(n), s, Originate(0, p, true)) && Stage(n, Next(Line(n), s, Originate(0, p, true)), p, 0)
  {
    NothingSeen(p.Key());
    hide Rings.SeenIn, Rings.Composite;
    assert p.(hops := 0) == p;
    assert Copies(0, [1], p) == [Copy(0, 1, p)];
  }

  function Walk(n: nat): (path: seq<nat>)
    ensures |path| == n && forall i :: 0 <= i < n ==> path[i] == i
  {
    seq(n, i => i)
  }

  lemma {:induction false} WalkIsPath(n: nat, m: nat)
    requires n >= 2 && 0 < m <= n
    ensures IsPath(Line(n), Walk(m))
  {
    if m > 1 {
      WalkIsPath(n, m - 1);
      assert Walk(m)[..m - 1] == Walk(m - 1);
    }
  }

  lemma BlankIsUnheard(n: nat, c: Bytes)
    requires n >= 2
    ensures Inv(Line(n), Initial(Line(n))) && Unheard(Initial(Line(n)), c)
  {
    InitialOk(Line(n));
    hide Inv;
  }

  /** The last delivery settles the flood, one node short. */
  lemma Ends(n: nat, s: State, p: Packet, x: Context)
    requires n == p.ttlMaxHops + 2 && Honest(p) && p.kind != KIND_TIME_SYNC && Welcome(x, p)
    requires Stage(n, s, p, p.ttlMaxHops - 1)
    ensures var c := Rings.Composite(p.Key());
      && Enabled(Line(n), s, Deliver(0, x)) && Kept(Line(n), s, Deliver(0, x), c)
      && var t := Next(Line(n), s, Deliver(0, x));
        AllInWindow(t, c) && Settled(t, c) && |t.locals| == n && !Knows(t.locals[n - 1], c)
  {
    hide Welcome, Rings.Composite, Enabled, Kept, Next, AllInWindow, Settled, Knows;
    Learns(n, s, p, p.ttlMaxHops - 1, x);
    Over(n, Next(Line(n), s, Deliver(0, x)), Rings.Composite(p.Key()));
  }

  lemma Over(n: nat, t: State, c: Bytes)
    requires n > 0 && t.net == [] && |t.locals| == n && t.locals[n - 1].history == []
    requires forall v :: 0 <= v < n ==> |t.locals[v].history| <= 1 && t.locals[v].queue == []
    ensures AllInWindow(t, c) && Settled(t, c) && !Knows(t.locals[n - 1], c)
  {
  }

  /** On a line of ttl + 2 nodes a lossless, everywhere welcome flood settles, and the last node, to
      which the origin has a path, never hears of the packet. */
  lemma OneNodeTooMany(p: Packet, x: Context) returns (steps: seq<Step>, t: State)
    requires Honest(p) && p.kind != KIND_TIME_SYNC && Welcome(x, p)
    ensures var n, c := p.ttlMaxHops + 2, Rings.Composite(p.Key());
      var s := Initial(Line(n));
      && Inv(Line(n), s) && Unheard(s, c) && Enabled(Line(n), s, Originate(0, p, true))
      && Run(Line(n), Next(Line(n), s, Originate(0, p, true)), steps) == Some(t)
      && KeptRun(Line(n), Next(Line(n), s, Originate(0, p, true)), steps, c)
      && AllInWindow(t, c) && Settled(t, c)
      && IsPath(Line(n), Walk(n)) && |t.locals| == n && !Knows(t.locals[n - 1], c)
  {
    var n, c := p.ttlMaxHops + 2, Rings.Composite(p.Key());
    hide Stage, Next, Enabled, Kept, KeptRun, Run, Welcome, Rings.Composite;
    hide Inv, Unheard, AllInWindow, Settled, IsPath, Knows;
    BlankIsUnheard(n, c);
    Starts(n, p);
    WalkIsPath(n, n);
    var first := Next(Line(n), Initial(Line(n)), Originate(0, p, true));
    var before: State;
    steps, before := Marches(n, first, p, p.ttlMaxHops - 1, x);
    Ends(n, before, p, x);
    t := Next(Line(n), before, Deliver(0, x));
    Extends(Line(n), first, steps, before, Deliver(0, x), c);
    steps := steps + [Deliver(0, x)];
  }
}
