/** The flood over a finite mesh as a state machine: packets are originated, delivered, forwarded
    (at once or later), lost and duplicated. What a node does with a delivered packet is
    `Nodes.React`, in whatever context the step chooses. */
module Floods {
  import opened Base
  import opened Packets
  import opened Nodes
  import Rings

  // ---- Counting -----------------------------------------------------------------------------

  function Count<T>(s: seq<T>, f: T -> bool): nat {
    if s == [] then 0 else Count(s[..|s| - 1], f) + (if f(s[|s| - 1]) then 1 else 0)
  }

  function Without<T>(s: seq<T>, i: nat): (r: seq<T>)
    requires i < |s|
    ensures |r| == |s| - 1
  {
    s[..i] + s[i + 1..]
  }

  lemma {:induction false} CountAppend<T>(a: seq<T>, b: seq<T>, f: T -> bool)
    ensures Count(a + b, f) == Count(a, f) + Count(b, f)
  {
    if b == [] {
      assert a + b == a;
    } else {
      CountAppend(a, b[..|b| - 1], f);
      assert (a + b)[..|a + b| - 1] == a + b[..|b| - 1];
    }
  }

  lemma CountOne<T>(x: T, f: T -> bool)
    ensures Count([x], f) == if f(x) then 1 else 0
  {
    assert [x][..0] == [];
  }

  lemma {:induction false} CountWithout<T>(s: seq<T>, i: nat, f: T -> bool)
    requires i < |s|
    ensures Count(Without(s, i), f) == Count(s, f) - (if f(s[i]) then 1 else 0)
  {
    var n := |s| - 1;
    if i == n {
      assert Without(s, i) == s[..n];
    } else {
      CountWithout(s[..n], i, f);
      assert Without(s, i)[..n - 1] == Without(s[..n], i);
      assert Without(s, i)[n - 1] == s[n];
    }
  }

  lemma {:induction false} CountZero<T>(s: seq<T>, f: T -> bool)
    ensures Count(s, f) == 0 <==> forall x :: x in s ==> !f(x)
  {
    if s != [] {
      CountZero(s[..|s| - 1], f);
      assert s == s[..|s| - 1] + [s[|s| - 1]];
    }
  }

  lemma {:induction false} CountAll<T>(s: seq<T>, f: T -> bool)
    requires forall x :: x in s ==> f(x)
    ensures Count(s, f) == |s|
  {
    if s != [] {
      CountAll(s[..|s| - 1], f);
    }
  }

  // ---- States -------------------------------------------------------------------------------

  /** A forward that waits to be sent to every neighbour but `via`. */
  datatype Pending = Pending(packet: Packet, via: nat)

  /** A copy on its way. */
  datatype Copy = Copy(sender: nat, to: nat, packet: Packet)

  /** A node: keys accepted so far, forwards that wait, packets forwarded and packets put in the inbox. */
  datatype Local = Local(history: seq<Rings.Key>, queue: seq<Pending>, forwarded: seq<Packet>, inbox: seq<Packet>)

  /** `origins` are the packets as their senders built them; `sent` is every copy ever sent. */
  datatype State = State(locals: seq<Local>, net: seq<Copy>, sent: seq<Copy>, origins: set<Packet>)

  /** links[v] are the neighbours of node v. */
  type Mesh = seq<seq<nat>>

  predicate IsMesh(mesh: Mesh) {
    forall v, i :: 0 <= v < |mesh| && 0 <= i < |mesh[v]| ==> mesh[v][i] < |mesh|
  }

  /** A chat send records its packet in the sender's own filter; key and clock floods do not. */
  datatype Step =
    | Originate(at: nat, packet: Packet, recorded: bool)
    | Deliver(index: nat, context: Context)
    | Forward(at: nat, position: nat)
    | Drop(index: nat)
    | Duplicate(index: nat)

  function Copies(from: nat, to: seq<nat>, packet: Packet): (c: seq<Copy>)
    ensures |c| == |to| && forall i :: 0 <= i < |c| ==> c[i] == Copy(from, to[i], packet)
  {
    seq(|to|, i requires 0 <= i < |to| => Copy(from, to[i], packet))
  }

  /** Every neighbour but one (udp.go:295-306). */
  function Others(links: seq<nat>, except: nat): (r: seq<nat>)
    ensures |r| <= |links|
    ensures forall w :: w in r <==> w in links && w != except
  {
    if links == [] then [] else
    var r := Others(links[..|links| - 1], except);
    assert links == links[..|links| - 1] + [links[|links| - 1]];
    if links[|links| - 1] == except then r else r + [links[|links| - 1]]
  }

  /** A packet as an honest node originates it. */
  predicate Honest(p: Packet) { p.kind != [] && p.hops == 0 && 0 < p.ttlMaxHops <= MAX_HOPS }

  predicate Enabled(mesh: Mesh, s: State, step: Step) {
    |s.locals| == |mesh| &&
    match step
    case Originate(at, p, _) => at < |mesh| && Honest(p)
    case Deliver(i, _) => i < |s.net| && s.net[i].to < |mesh|
    case Forward(at, i) => at < |mesh| && i < |s.locals[at].queue|
    case Drop(i) => i < |s.net|
    case Duplicate(i) => i < |s.net|
  }

  /** What a delivery does to a node. */
  function Receive(x: Context, l: Local, copy: Copy): Local {
    var r := React(x, l.history, copy.packet);
    Local(
      l.history + (if r.accepted then [copy.packet.Key()] else []),
      l.queue + (if r.forward.Some? then [Pending(r.forward.value, copy.sender)] else []),
      l.forwarded,
      l.inbox + (if r.message.Some? then [r.message.value.packet] else []))
  }

  function Send(s: State, copies: seq<Copy>): State { s.(net := s.net + copies, sent := s.sent + copies) }

  function Next(mesh: Mesh, s: State, step: Step): State
    requires Enabled(mesh, s, step)
  {
    match step
    case Originate(at, p, recorded) =>
      var l := s.locals[at];
      var h := if recorded then Rings.Accept(l.history, p.Key()) else l.history;
      Send(s.(locals := s.locals[at := l.(history := h)], origins := s.origins + {p}), Copies(at, mesh[at], p))
    case Deliver(i, x) =>
      var to := s.net[i].to;
      s.(locals := s.locals[to := Receive(x, s.locals[to], s.net[i])], net := Without(s.net, i))
    case Forward(at, i) =>
      var l := s.locals[at];
      var f := l.queue[i];
      Send(s.(locals := s.locals[at := l.(queue := Without(l.queue, i), forwarded := l.forwarded + [f.packet])]),
           Copies(at, Others(mesh[at], f.via), f.packet))
    case Drop(i) => s.(net := Without(s.net, i))
    case Duplicate(i) => s.(net := s.net + [s.net[i]])
  }

  /** The state after a run, if every step of it was enabled. */
  function Run(mesh: Mesh, s: State, steps: seq<Step>): Option<State> {
    if steps == [] then Some(s) else
    match Run(mesh, s, steps[..|steps| - 1])
    case None => None
    case Some(t) =>
      if Enabled(mesh, t, steps[|steps| - 1]) then Some(Next(mesh, t, steps[|steps| - 1])) else None
  }

  function Initial(mesh: Mesh): State { State(seq(|mesh|, _ => Local([], [], [], [])), [], [], {}) }

  // ---- Keys ---------------------------------------------------------------------------------

  predicate Named(p: Packet, c: Bytes) { Rings.Composite(p.Key()) == c }

  function KeyIs(c: Bytes): Rings.Key -> bool { k => Rings.Composite(k) == c }
  function PacketIs(c: Bytes): Packet -> bool { p => Named(p, c) }
  function PendingIs(c: Bytes): Pending -> bool { (f: Pending) => Named(f.packet, c) }
  function CopyIs(c: Bytes): Copy -> bool { (m: Copy) => Named(m.packet, c) }

  // ---- Every step keeps this ----------------------------------------------------------------

  /** A packet some node originated, unaltered but for its hop count, which is below its limit. */
  predicate Genuine(s: State, p: Packet) {
    p.(hops := 0) in s.origins && 0 <= p.hops < p.ttlMaxHops <= MAX_HOPS && p.kind != []
  }

  /** One node: keys are accepted again only after the filter forgot them, and whatever was forwarded,
      is to be forwarded or reached the inbox was accepted that often. */
  ghost predicate LocalOk(l: Local) {
    && Rings.Spaced(l.history)
    && (forall c :: Count(l.forwarded, PacketIs(c)) + Count(l.queue, PendingIs(c)) <= Count(l.history, KeyIs(c)))
    && (forall c :: Count(l.inbox, PacketIs(c)) <= Count(l.history, KeyIs(c)))
  }

  ghost predicate Inv(mesh: Mesh, s: State) {
    && |s.locals| == |mesh|
    && (forall v :: 0 <= v < |mesh| ==> LocalOk(s.locals[v]))
    && (forall m :: m in s.net ==> Genuine(s, m.packet))
    && (forall v, f :: 0 <= v < |mesh| && f in s.locals[v].queue ==> Genuine(s, f.packet) && f.packet.hops > 0)
    && (forall v, p :: 0 <= v < |mesh| && p in s.locals[v].inbox ==> p.(hops := 0) in s.origins)
  }

  lemma InitialOk(mesh: Mesh)
    ensures Inv(mesh, Initial(mesh))
  {
  }

  lemma ReactionKeeps(x: Context, l: Local, copy: Copy)
    requires LocalOk(l)
    ensures LocalOk(Receive(x, l, copy))
  {
    hide Rings.SeenIn, Rings.Spaced, Rings.Composite, Passes, Handle;
    var r, t := React(x, l.history, copy.packet), Receive(x, l, copy);
    ReactionShape(x, l.history, copy.packet);
    if r.accepted {
      Rings.AcceptKeepsSpaced(l.history, copy.packet.Key());
      forall c
        ensures Count(t.forwarded, PacketIs(c)) + Count(t.queue, PendingIs(c)) <= Count(t.history, KeyIs(c))
        ensures Count(t.inbox, PacketIs(c)) <= Count(t.history, KeyIs(c))
      {
        CountAppend(l.history, [copy.packet.Key()], KeyIs(c));
        CountOne(copy.packet.Key(), KeyIs(c));
        if r.forward.Some? {
          CountAppend(l.queue, [Pending(r.forward.value, copy.sender)], PendingIs(c));
          CountOne(Pending(r.forward.value, copy.sender), PendingIs(c));
        } else {
          assert t.queue == l.queue;
        }
        if r.message.Some? {
          CountAppend(l.inbox, [r.message.value.packet], PacketIs(c));
          CountOne(r.message.value.packet, PacketIs(c));
        } else {
          assert t.inbox == l.inbox;
        }
      }
    } else {
      assert t == l;
    }
  }

  /** What a reaction passes on is the received packet, and only if it was accepted. */
  lemma ReactionShape(x: Context, history: seq<Rings.Key>, p: Packet)
    ensures var r := React(x, history, p);
      && (r.accepted <==> !Rings.SeenIn(history, p.Key()) && Passes(x, Received(p)))
      && (!r.accepted ==> r == IGNORED)
      && (r.forward.Some? ==> r.accepted && r.forward.value == Received(p) && Spreads(Received(p)))
      && (r.message.Some? ==> r.accepted && r.message.value.packet == Received(p))
      && Received(p).Key() == p.Key()
  {
    hide Rings.SeenIn, Passes, Cleared;
  }

  lemma ReceivedIsGenuine(s: State, x: Context, l: Local, p: Packet)
    requires Genuine(s, p)
    ensures var r := React(x, l.history, p);
      && (r.forward.Some? ==> Genuine(s, r.forward.value) && r.forward.value.hops == p.hops + 1)
      && (r.message.Some? ==> r.message.value.packet.(hops := 0) in s.origins)
  {
    hide React;
    ReactionShape(x, l.history, p);
    var q := Received(p);
    assert q == p.(hops := p.hops + 1);
    assert q.(hops := 0) == p.(hops := 0);
  }

  lemma OriginateKeeps(mesh: Mesh, s: State, at: nat, p: Packet, recorded: bool)
    requires Inv(mesh, s) && Enabled(mesh, s, Originate(at, p, recorded))
    ensures Inv(mesh, Next(mesh, s, Originate(at, p, recorded)))
  {
    hide Rings.SeenIn, Rings.Spaced, Rings.Composite;
    var t, l := Next(mesh, s, Originate(at, p, recorded)), s.locals[at];
    assert p.(hops := 0) == p;
    Rings.AcceptKeepsSpaced(l.history, p.Key());
    forall c ensures Count(t.locals[at].history, KeyIs(c)) >= Count(l.history, KeyIs(c)) {
      CountAppend(l.history, [p.Key()], KeyIs(c));
    }
    assert LocalOk(t.locals[at]);
  }

  lemma DeliverKeeps(mesh: Mesh, s: State, i: nat, x: Context)
    requires Inv(mesh, s) && Enabled(mesh, s, Deliver(i, x))
    ensures Inv(mesh, Next(mesh, s, Deliver(i, x)))
  {
    hide LocalOk, React, Genuine;
    var copy := s.net[i];
    var l := s.locals[copy.to];
    assert copy in s.net;
    ReactionKeeps(x, l, copy);
    ReceivedIsGenuine(s, x, l, copy.packet);
    GenuineHops(s, copy.packet);
    GenuineIn(s, Next(mesh, s, Deliver(i, x)));
  }

  lemma GenuineHops(s: State, p: Packet)
    ensures Genuine(s, p) ==> p.hops >= 0
  {
  }

  lemma GenuineIn(s: State, t: State)
    requires s.origins <= t.origins
    ensures forall p :: Genuine(s, p) ==> Genuine(t, p)
  {
  }

  lemma ForwardKeeps(mesh: Mesh, s: State, at: nat, i: nat)
    requires Inv(mesh, s) && Enabled(mesh, s, Forward(at, i))
    ensures Inv(mesh, Next(mesh, s, Forward(at, i)))
  {
    hide Rings.Spaced, Rings.Composite, Genuine;
    var t, l := Next(mesh, s, Forward(at, i)), s.locals[at];
    assert l.queue[i] in l.queue;
    GenuineIn(s, t);
    forall c ensures Count(t.locals[at].forwarded, PacketIs(c)) + Count(t.locals[at].queue, PendingIs(c))
                  == Count(l.forwarded, PacketIs(c)) + Count(l.queue, PendingIs(c)) {
      CountWithout(l.queue, i, PendingIs(c));
      CountAppend(l.forwarded, [l.queue[i].packet], PacketIs(c));
      CountOne(l.queue[i].packet, PacketIs(c));
    }
    assert LocalOk(t.locals[at]);
  }

  /** Every step, loss and duplication included, keeps the invariant. */
  lemma StepKeeps(mesh: Mesh, s: State, step: Step)
    requires Inv(mesh, s) && Enabled(mesh, s, step)
    ensures Inv(mesh, Next(mesh, s, step))
  {
    match step
    case Originate(at, p, recorded) => OriginateKeeps(mesh, s, at, p, recorded);
    case Deliver(i, x) => DeliverKeeps(mesh, s, i, x);
    case Forward(at, i) => ForwardKeeps(mesh, s, at, i);
    case Drop(i) => GenuineIn(s, Next(mesh, s, step));
    case Duplicate(i) =>
      hide LocalOk, Genuine;
      assert s.net[i] in s.net;
      GenuineIn(s, Next(mesh, s, step));
  }

  lemma {:induction false} RunKeeps(mesh: Mesh, s: State, steps: seq<Step>)
    requires Inv(mesh, s) && Run(mesh, s, steps).Some?
    ensures Inv(mesh, Run(mesh, s, steps).value)
  {
    if steps != [] {
      hide Inv, Next, Enabled;
      RunKeeps(mesh, s, steps[..|steps| - 1]);
      StepKeeps(mesh, Run(mesh, s, steps[..|steps| - 1]).value, steps[|steps| - 1]);
    }
  }

  // ---- Safety -------------------------------------------------------------------------------

  /** Fewer than 65536 keys were accepted after any acceptance of the key. */
  ghost predicate InWindow(history: seq<Rings.Key>, c: Bytes) {
    forall i :: 0 <= i < |history| && Rings.Composite(history[i]) == c ==> |history| - i <= Rings.CAPACITY
  }

  lemma {:induction false} OnceInWindow(history: seq<Rings.Key>, c: Bytes)
    requires Rings.Spaced(history) && InWindow(history, c)
    ensures Count(history, KeyIs(c)) <= 1
  {
    hide Rings.Composite;
    if history != [] {
      var n := |history| - 1;
      if Rings.Composite(history[n]) == c {
        CountZero(history[..n], KeyIs(c));
      } else {
        OnceInWindow(history[..n], c);
      }
    }
  }

  /** In every run, lossy and duplicating as it may be: while fewer than 65536 later keys were
      accepted at a node, it has accepted, forwarded and put in its inbox a packet at most once each. */
  lemma AtMostOnce(mesh: Mesh, steps: seq<Step>, t: State, v: nat, c: Bytes)
    requires Run(mesh, Initial(mesh), steps) == Some(t) && v < |mesh| && InWindow(t.locals[v].history, c)
    ensures var l := t.locals[v];
      && Count(l.history, KeyIs(c)) <= 1
      && Count(l.forwarded, PacketIs(c)) + Count(l.queue, PendingIs(c)) <= 1
      && Count(l.inbox, PacketIs(c)) <= 1
  {
    hide InWindow, Count, Run, Initial;
    InitialOk(mesh);
    RunKeeps(mesh, Initial(mesh), steps);
    OnceInWindow(t.locals[v].history, c);
  }

  /** In every run every copy on its way is a packet as its sender built it, but for a hop count that
      is below its limit. */
  lemma CopiesAreGenuine(mesh: Mesh, steps: seq<Step>, t: State, m: Copy)
    requires Run(mesh, Initial(mesh), steps) == Some(t) && m in t.net
    ensures m.packet.(hops := 0) in t.origins && 0 <= m.packet.hops < m.packet.ttlMaxHops <= MAX_HOPS
  {
    hide LocalOk, Run, Initial;
    InitialOk(mesh);
    RunKeeps(mesh, Initial(mesh), steps);
  }

  // ---- Termination --------------------------------------------------------------------------

  predicate Knows(l: Local, c: Bytes) { Count(l.history, KeyIs(c)) > 0 }

  /** How often a node may still send a packet: once if it does not know it, and once per waiting forward. */
  function Credits(l: Local, c: Bytes): nat {
    (if Knows(l, c) then 0 else 1) + Count(l.queue, PendingIs(c))
  }

  /** Credits weighted by the number of neighbours, plus `extra`. */
  function Weighted(mesh: Mesh, locals: seq<Local>, extra: nat, c: Bytes): (w: nat)
    requires |locals| <= |mesh|
  {
    if locals == [] then 0 else
    var n := |locals| - 1;
    Weighted(mesh, locals[..n], extra, c) + Credits(locals[n], c) * (|mesh[n]| + extra)
  }

  /** Copies that may still be sent. */
  function Budget(mesh: Mesh, s: State, c: Bytes): nat
    requires |s.locals| == |mesh|
  {
    Weighted(mesh, s.locals, 0, c)
  }

  /** Steps about the packet that may still happen. */
  function Energy(mesh: Mesh, s: State, c: Bytes): nat
    requires |s.locals| == |mesh|
  {
    Weighted(mesh, s.locals, 1, c) + Count(s.net, CopyIs(c))
  }

  function Sends(s: State, c: Bytes): nat { Count(s.sent, CopyIs(c)) }

  /** The packet that a step is about. */
  function Subject(mesh: Mesh, s: State, step: Step): Packet
    requires Enabled(mesh, s, step)
  {
    match step
    case Originate(_, p, _) => p
    case Deliver(i, _) => s.net[i].packet
    case Forward(at, i) => s.locals[at].queue[i].packet
    case Drop(i) => s.net[i].packet
    case Duplicate(i) => s.net[i].packet
  }

  predicate Active(mesh: Mesh, s: State, step: Step, c: Bytes)
    requires Enabled(mesh, s, step)
  {
    Named(Subject(mesh, s, step), c)
  }

  /** No duplication, and a packet is originated once, by a node that records it. */
  predicate Quiet(mesh: Mesh, s: State, step: Step, c: Bytes)
    requires Enabled(mesh, s, step)
  {
    Active(mesh, s, step, c) ==>
      !step.Duplicate? && (step.Originate? ==> step.recorded && !Knows(s.locals[step.at], c))
  }

  predicate QuietRun(mesh: Mesh, s: State, steps: seq<Step>, c: Bytes)
    requires Run(mesh, s, steps).Some?
  {
    steps == [] ||
      (QuietRun(mesh, s, steps[..|steps| - 1], c)
       && Quiet(mesh, Run(mesh, s, steps[..|steps| - 1]).value, steps[|steps| - 1], c))
  }

  function ActiveSteps(mesh: Mesh, s: State, steps: seq<Step>, c: Bytes): nat
    requires Run(mesh, s, steps).Some?
  {
    if steps == [] then 0 else
    ActiveSteps(mesh, s, steps[..|steps| - 1], c)
    + (if Active(mesh, Run(mesh, s, steps[..|steps| - 1]).value, steps[|steps| - 1], c) then 1 else 0)
  }

  ghost predicate AllInWindow(s: State, c: Bytes) {
    forall v :: 0 <= v < |s.locals| ==> InWindow(s.locals[v].history, c)
  }

  lemma {:induction false} WeightedUpdate(mesh: Mesh, locals: seq<Local>, extra: nat, c: Bytes, v: nat, l: Local)
    requires v < |locals| <= |mesh|
    ensures Weighted(mesh, locals[v := l], extra, c)
         == Weighted(mesh, locals, extra, c) + (Credits(l, c) - Credits(locals[v], c)) * (|mesh[v]| + extra)
  {
    hide Credits;
    var n := |locals| - 1;
    var w := |mesh[v]| + extra;
    if v == n {
      assert locals[v := l][..n] == locals[..n];
      assert (Credits(l, c) - Credits(locals[v], c)) * w == Credits(l, c) * w - Credits(locals[v], c) * w;
    } else {
      WeightedUpdate(mesh, locals[..n], extra, c, v, l);
      assert locals[v := l][..n] == locals[..n][v := l];
    }
  }

  /** A node whose credits do not grow adds nothing to the sums; one that spends a credit gives its
      weight back. */
  lemma WeightedSpends(mesh: Mesh, locals: seq<Local>, c: Bytes, v: nat, l: Local, spent: nat)
    requires v < |locals| <= |mesh| && spent <= 1
    requires Credits(l, c) + spent <= Credits(locals[v], c)
    ensures Weighted(mesh, locals[v := l], 0, c) + spent * |mesh[v]| <= Weighted(mesh, locals, 0, c)
    ensures Weighted(mesh, locals[v := l], 1, c) + spent * (|mesh[v]| + 1) <= Weighted(mesh, locals, 1, c)
  {
    hide Credits, Weighted;
    WeightedUpdate(mesh, locals, 0, c, v, l);
    WeightedUpdate(mesh, locals, 1, c, v, l);
    Product(Credits(l, c), Credits(locals[v], c), spent, |mesh[v]|);
    Product(Credits(l, c), Credits(locals[v], c), spent, |mesh[v]| + 1);
  }

  lemma Product(a: nat, b: nat, spent: nat, w: nat)
    requires a + spent <= b
    ensures (a - b) * w + spent * w <= 0
  {
    assert (b - a - spent) * w >= 0;
  }

  lemma KnownIsSeen(history: seq<Rings.Key>, k: Rings.Key)
    requires Count(history, KeyIs(Rings.Composite(k))) > 0 && InWindow(history, Rings.Composite(k))
    ensures Rings.SeenIn(history, k)
  {
    hide Rings.Composite;
    var c := Rings.Composite(k);
    CountZero(history, KeyIs(c));
    var i :| 0 <= i < |history| && Rings.Composite(history[i]) == c;
    assert Rings.Window(history)[i - Rings.Start(|history|)] == history[i];
  }

  lemma ShorterInWindow(a: seq<Rings.Key>, b: seq<Rings.Key>, c: Bytes)
    requires InWindow(a + b, c)
    ensures InWindow(a, c)
  {
    hide Rings.Composite;
    forall i | 0 <= i < |a| && Rings.Composite(a[i]) == c ensures |a| - i <= Rings.CAPACITY {
      assert (a + b)[i] == a[i];
    }
  }

  /** Receiving never adds credits: a forward that is scheduled is paid for by learning the packet. */
  lemma ReceiveSpends(x: Context, l: Local, copy: Copy, c: Bytes)
    requires InWindow(l.history, c)
    ensures Credits(Receive(x, l, copy), c) <= Credits(l, c)
  {
    hide Rings.SeenIn, Rings.Composite, React, InWindow, Passes;
    var r, k, t := React(x, l.history, copy.packet), copy.packet.Key(), Receive(x, l, copy);
    ReactionShape(x, l.history, copy.packet);
    if r.accepted {
      CountAppend(l.history, [k], KeyIs(c));
      CountOne(k, KeyIs(c));
      if r.forward.Some? {
        CountAppend(l.queue, [Pending(r.forward.value, copy.sender)], PendingIs(c));
        CountOne(Pending(r.forward.value, copy.sender), PendingIs(c));
      } else {
        assert t.queue == l.queue;
      }
      if Rings.Composite(k) == c && Knows(l, c) {
        KnownIsSeen(l.history, k);
      }
    } else {
      assert t.history == l.history && t.queue == l.queue;
    }
  }

  lemma CopiesCount(from: nat, to: seq<nat>, p: Packet, c: Bytes)
    ensures Count(Copies(from, to, p), CopyIs(c)) == if Named(p, c) then |to| else 0
  {
    var m := Copies(from, to, p);
    if Named(p, c) {
      CountAll(m, CopyIs(c));
    } else {
      CountZero(m, CopyIs(c));
    }
  }

  /** Sending to at most all neighbours is paid for by the credit the node gives up. */
  lemma SendSpends(mesh: Mesh, s: State, v: nat, l: Local, to: seq<nat>, p: Packet, c: Bytes)
    requires |s.locals| == |mesh| && v < |mesh| && |to| <= |mesh[v]|
    requires Credits(l, c) + (if Named(p, c) then 1 else 0) <= Credits(s.locals[v], c)
    ensures var t := Send(s.(locals := s.locals[v := l]), Copies(v, to, p));
      && Sends(t, c) + Budget(mesh, t, c) <= Sends(s, c) + Budget(mesh, s, c)
      && Energy(mesh, t, c) + (if Named(p, c) then 1 else 0) <= Energy(mesh, s, c)
  {
    hide Credits, Weighted, Named, Count;
    var m := Copies(v, to, p);
    CopiesCount(v, to, p, c);
    CountAppend(s.net, m, CopyIs(c));
    CountAppend(s.sent, m, CopyIs(c));
    WeightedSpends(mesh, s.locals, c, v, l, if Named(p, c) then 1 else 0);
  }

  lemma OriginateSpends(mesh: Mesh, s: State, at: nat, p: Packet, recorded: bool, c: Bytes)
    requires Enabled(mesh, s, Originate(at, p, recorded)) && Quiet(mesh, s, Originate(at, p, recorded), c)
    ensures var t := Next(mesh, s, Originate(at, p, recorded));
      && Sends(t, c) + Budget(mesh, t, c) <= Sends(s, c) + Budget(mesh, s, c)
      && Energy(mesh, t, c) + (if Named(p, c) then 1 else 0) <= Energy(mesh, s, c)
  {
    hide Weighted, Rings.SeenIn, Rings.Composite;
    var l := s.locals[at];
    var h := if recorded then Rings.Accept(l.history, p.Key()) else l.history;
    CountAppend(l.history, [p.Key()], KeyIs(c));
    CountOne(p.Key(), KeyIs(c));
    if Named(p, c) {
      CountZero(l.history, KeyIs(c));
      if Rings.SeenIn(l.history, p.Key()) { SeenIsKnown(l.history, p.Key()); }
    }
    SendSpends(mesh, s, at, l.(history := h), mesh[at], p, c);
  }

  lemma SeenIsKnown(history: seq<Rings.Key>, k: Rings.Key)
    requires Rings.SeenIn(history, k)
    ensures Count(history, KeyIs(Rings.Composite(k))) > 0
  {
    hide Rings.Composite;
    var w := Rings.Window(history);
    var i :| 0 <= i < |w| && Rings.Composite(w[i]) == Rings.Composite(k);
    assert w[i] == history[Rings.Start(|history|) + i];
    CountZero(history, KeyIs(Rings.Composite(k)));
  }

  lemma ForwardSpends(mesh: Mesh, s: State, at: nat, i: nat, c: Bytes)
    requires Enabled(mesh, s, Forward(at, i))
    ensures var t := Next(mesh, s, Forward(at, i));
      && Sends(t, c) + Budget(mesh, t, c) <= Sends(s, c) + Budget(mesh, s, c)
      && Energy(mesh, t, c) + (if Named(s.locals[at].queue[i].packet, c) then 1 else 0) <= Energy(mesh, s, c)
  {
    hide Weighted, Named;
    var l := s.locals[at];
    var f := l.queue[i];
    CountWithout(l.queue, i, PendingIs(c));
    SendSpends(mesh, s, at, l.(queue := Without(l.queue, i), forwarded := l.forwarded + [f.packet]),
               Others(mesh[at], f.via), f.packet, c);
  }

  /** One step: sends plus what may still be sent never grows, and a step about the packet uses energy up. */
  lemma StepSpends(mesh: Mesh, s: State, step: Step, c: Bytes)
    requires Enabled(mesh, s, step) && Quiet(mesh, s, step, c) && AllInWindow(s, c)
    ensures var t := Next(mesh, s, step);
      && Sends(t, c) + Budget(mesh, t, c) <= Sends(s, c) + Budget(mesh, s, c)
      && Energy(mesh, t, c) + (if Active(mesh, s, step, c) then 1 else 0) <= Energy(mesh, s, c)
  {
    hide Weighted, Credits, Named, Receive, InWindow;
    match step
    case Originate(at, p, recorded) => OriginateSpends(mesh, s, at, p, recorded, c);
    case Forward(at, i) => ForwardSpends(mesh, s, at, i, c);
    case Deliver(i, x) =>
      var v := s.net[i].to;
      ReceiveSpends(x, s.locals[v], s.net[i], c);
      WeightedSpends(mesh, s.locals, c, v, Receive(x, s.locals[v], s.net[i]), 0);
      CountWithout(s.net, i, CopyIs(c));
    case Drop(i) => CountWithout(s.net, i, CopyIs(c));
    case Duplicate(i) =>
      CountAppend(s.net, [s.net[i]], CopyIs(c));
      CountOne(s.net[i], CopyIs(c));
  }

  lemma EarlierInWindow(mesh: Mesh, s: State, step: Step, c: Bytes)
    requires Enabled(mesh, s, step) && AllInWindow(Next(mesh, s, step), c)
    ensures AllInWindow(s, c)
  {
    hide InWindow, Rings.SeenIn, React;
    var t := Next(mesh, s, step);
    forall v | 0 <= v < |s.locals| ensures InWindow(s.locals[v].history, c) {
      var a, b := s.locals[v].history, t.locals[v].history;
      assert b == a + b[|a|..];
      assert InWindow(b, c);
      ShorterInWindow(a, b[|a|..], c);
    }
  }

  /** Over a whole run without duplication, in which no node forgets the packet: the copies sent are
      bounded by the initial budget and the steps about the packet by the initial energy. */
  lemma {:induction false} RunSpends(mesh: Mesh, s: State, steps: seq<Step>, t: State, c: Bytes)
    requires |s.locals| == |mesh| && Run(mesh, s, steps) == Some(t) && QuietRun(mesh, s, steps, c) && AllInWindow(t, c)
    ensures |t.locals| == |mesh|
    ensures Sends(t, c) + Budget(mesh, t, c) <= Sends(s, c) + Budget(mesh, s, c)
    ensures ActiveSteps(mesh, s, steps, c) + Energy(mesh, t, c) <= Energy(mesh, s, c)
  {
    if steps != [] {
      hide AllInWindow, Next, Budget, Energy, Active, Quiet, Sends;
      var before, step := Run(mesh, s, steps[..|steps| - 1]).value, steps[|steps| - 1];
      SameNodes(mesh, before, step);
      EarlierInWindow(mesh, before, step, c);
      RunSpends(mesh, s, steps[..|steps| - 1], before, c);
      StepSpends(mesh, before, step, c);
    }
  }

  lemma SameNodes(mesh: Mesh, s: State, step: Step)
    requires Enabled(mesh, s, step)
    ensures |Next(mesh, s, step).locals| == |mesh|
  {
  }

  /** Nobody has heard of the packet. */
  predicate Unheard(s: State, c: Bytes) {
    && (forall v :: 0 <= v < |s.locals| ==> !Knows(s.locals[v], c) && Count(s.locals[v].queue, PendingIs(c)) == 0)
    && Count(s.net, CopyIs(c)) == 0 && Sends(s, c) == 0
  }

  function TotalDegree(mesh: Mesh): nat {
    if mesh == [] then 0 else TotalDegree(mesh[..|mesh| - 1]) + |mesh[|mesh| - 1]|
  }

  lemma {:induction false} UnheardWeight(mesh: Mesh, locals: seq<Local>, extra: nat, c: Bytes)
    requires |locals| == |mesh| && forall v :: 0 <= v < |locals| ==> Credits(locals[v], c) == 1
    ensures Weighted(mesh, locals, extra, c) == TotalDegree(mesh) + |mesh| * extra
  {
    hide Credits;
    if locals != [] {
      var n := |locals| - 1;
      UnheardWeight(mesh[..n], locals[..n], extra, c);
      WeightedPrefix(mesh, locals[..n], n, extra, c);
    }
  }

  lemma {:induction false} WeightedPrefix(mesh: Mesh, locals: seq<Local>, n: nat, extra: nat, c: Bytes)
    requires |locals| <= n <= |mesh|
    ensures Weighted(mesh[..n], locals, extra, c) == Weighted(mesh, locals, extra, c)
  {
    hide Credits;
    if locals != [] {
      WeightedPrefix(mesh, locals[..|locals| - 1], n, extra, c);
    }
  }

  lemma UnheardBudget(mesh: Mesh, s: State, c: Bytes)
    requires |s.locals| == |mesh| && Unheard(s, c)
    ensures Budget(mesh, s, c) == TotalDegree(mesh) && Energy(mesh, s, c) == TotalDegree(mesh) + |mesh|
  {
    UnheardWeight(mesh, s.locals, 0, c);
    UnheardWeight(mesh, s.locals, 1, c);
  }

  /** Without duplication the flood of a chat packet ends: it takes at most one send per link end, and
      at most one further step per node. */
  lemma ChatFloodEnds(mesh: Mesh, s: State, steps: seq<Step>, t: State, c: Bytes)
    requires |s.locals| == |mesh| && Unheard(s, c)
    requires Run(mesh, s, steps) == Some(t) && QuietRun(mesh, s, steps, c) && AllInWindow(t, c)
    ensures Sends(t, c) <= TotalDegree(mesh) && ActiveSteps(mesh, s, steps, c) <= TotalDegree(mesh) + |mesh|
  {
    hide Run, QuietRun, ActiveSteps, Budget, Energy;
    UnheardBudget(mesh, s, c);
    RunSpends(mesh, s, steps, t, c);
  }

  /** A key flood, which its sender does not record, may pass through its sender once more: its bounds
      are larger by the sender's own neighbours. */
  lemma KeyFloodEnds(mesh: Mesh, s: State, at: nat, p: Packet, steps: seq<Step>, t: State, c: Bytes)
    requires |s.locals| == |mesh| && Unheard(s, c) && Enabled(mesh, s, Originate(at, p, false)) && Named(p, c)
    requires var first := Next(mesh, s, Originate(at, p, false));
      Run(mesh, first, steps) == Some(t) && QuietRun(mesh, first, steps, c) && AllInWindow(t, c)
    ensures Sends(t, c) <= TotalDegree(mesh) + |mesh[at]|
    ensures ActiveSteps(mesh, Next(mesh, s, Originate(at, p, false)), steps, c)
      <= TotalDegree(mesh) + |mesh| + |mesh[at]|
  {
    hide Run, QuietRun, ActiveSteps, Credits, Named, Weighted;
    var first := Next(mesh, s, Originate(at, p, false));
    UnheardBudget(mesh, s, c);
    assert first.locals == s.locals;
    CopiesCount(at, mesh[at], p, c);
    CountAppend(s.sent, Copies(at, mesh[at], p), CopyIs(c));
    CountAppend(s.net, Copies(at, mesh[at], p), CopyIs(c));
    RunSpends(mesh, first, steps, t, c);
  }
}
