/** The duplicate filter: a fixed-size ring of the keys accepted last (internal/dedup/ring.go). */
module Rings {
  import opened Base

  const CAPACITY: nat := 65536
  const BAR: byte := 124

  datatype Key = Key(sha1: Bytes, sha512: Bytes)

  function Composite(k: Key): Bytes { k.sha1 + [BAR] + k.sha512 }

  /** Keys whose first hash is bar-free, as every verified packet's is, are told apart by their composite. */
  lemma CompositeInjective(a: Key, b: Key)
    requires BAR !in a.sha1 && BAR !in b.sha1 && Composite(a) == Composite(b)
    ensures a == b
  {
    TerminatedUnique(a.sha1, a.sha512, b.sha1, b.sha512, BAR);
  }

  // ---- The window ---------------------------------------------------------------------------

  function Start(n: nat): nat { if n <= CAPACITY then 0 else n - CAPACITY }

  /** The last CAPACITY keys of a history of accepted keys, or all of them. */
  function Window(history: seq<Key>): (w: seq<Key>)
    ensures |w| == Min(|history|, CAPACITY)
  {
    history[Start(|history|)..]
  }

  function Composites(w: seq<Key>): set<Bytes> { set i | 0 <= i < |w| :: Composite(w[i]) }

  predicate SeenIn(history: seq<Key>, k: Key) { Composite(k) in Composites(Window(history)) }

  /** A key is seen exactly if one of the last 65536 accepted keys has the same two hashes, written one after
      the other with a bar in between. */
  lemma SeenIff(history: seq<Key>, k: Key)
    ensures SeenIn(history, k) <==>
      exists i :: 0 <= i < |history| && |history| - i <= 65536 &&
        history[i].sha1 + Ascii("|") + history[i].sha512 == k.sha1 + Ascii("|") + k.sha512
  {
    assert Ascii("|") == [BAR];
    hide Ascii;
    var w, s := Window(history), Start(|history|);
    if SeenIn(history, k) {
      var j :| 0 <= j < |w| && Composite(w[j]) == Composite(k);
      assert w[j] == history[s + j];
    }
    forall i | 0 <= i < |history| && |history| - i <= 65536 && Composite(history[i]) == Composite(k)
      ensures SeenIn(history, k)
    {
      assert w[i - s] == history[i];
    }
  }

  /** The history after one more Add: a key that is still in the window is refused. */
  function Accept(history: seq<Key>, k: Key): seq<Key> {
    if SeenIn(history, k) then history else history + [k]
  }

  /** The history after a run of Adds. */
  function AcceptAll(keys: seq<Key>): seq<Key> {
    if keys == [] then [] else Accept(AcceptAll(keys[..|keys| - 1]), keys[|keys| - 1])
  }

  /** Equal keys in a history are more than CAPACITY positions apart. */
  ghost predicate Spaced(history: seq<Key>) {
    forall i, j :: 0 <= i < j < |history| && Composite(history[i]) == Composite(history[j]) ==> j - i > CAPACITY
  }

  lemma AcceptKeepsSpaced(history: seq<Key>, k: Key)
    requires Spaced(history)
    ensures Spaced(Accept(history, k))
  {
    var next := Accept(history, k);
    var n := |history|;
    if !SeenIn(history, k) {
      forall i | Start(n) <= i < n ensures Composite(history[i]) != Composite(k) {
        assert Window(history)[i - Start(n)] == history[i];
      }
    }
  }

  /** After any run of Adds a key has been accepted again only if at least CAPACITY other keys were
      accepted in between. */
  lemma {:induction false} AcceptedApart(keys: seq<Key>)
    ensures Spaced(AcceptAll(keys))
  {
    if keys != [] {
      AcceptedApart(keys[..|keys| - 1]);
      AcceptKeepsSpaced(AcceptAll(keys[..|keys| - 1]), keys[|keys| - 1]);
    }
  }

  /** Accepting a key pushes out the oldest entry of a full window and nothing else. */
  lemma WindowSlides(history: seq<Key>, k: Key)
    requires !SeenIn(history, k)
    ensures var w := Window(history);
      Window(Accept(history, k)) == (if |w| == CAPACITY then w[1..] else w) + [k]
  {
  }

  lemma SpacedWindow(history: seq<Key>)
    requires Spaced(history)
    ensures var w := Window(history);
      forall i, j :: 0 <= i < j < |w| ==> Composite(w[i]) != Composite(w[j])
  {
    var w, s := Window(history), Start(|history|);
    forall i, j | 0 <= i < j < |w| ensures Composite(w[i]) != Composite(w[j]) {
      assert w[i] == history[s + i] && w[j] == history[s + j];
    }
  }

  // ---- The ring -----------------------------------------------------------------------------

  class Ring {
    var order: array<Key>
    var live: set<Bytes>
    var head: nat
    var full: bool
    /** Every key accepted so far, in order. */
    ghost var history: seq<Key>

    /** The array, the set, the head and the full flag all describe the window of the history. */
    ghost predicate Valid()
      reads this, order
    {
      && order.Length == CAPACITY
      && head == |history| % CAPACITY
      && (full <==> |history| >= CAPACITY)
      && (forall i :: Start(|history|) <= i < |history| ==> order[i % CAPACITY] == history[i])
      && live == Composites(Window(history))
      && Spaced(history)
    }

    constructor ()
      ensures Valid() && fresh(order) && history == []
    {
      order := new Key[CAPACITY](_ => Key([], []));
      live, head, full, history := {}, 0, false, [];
    }

    method Seen(k: Key) returns (seen: bool)
      requires Valid()
      ensures seen <==> SeenIn(history, k)
    {
      seen := Composite(k) in live;
    }

    method Add(k: Key) returns (added: bool)
      requires Valid()
      modifies this, order
      ensures Valid() && order == old(order)
      ensures history == Accept(old(history), k)
      ensures added <==> !SeenIn(old(history), k)
    {
      hide Composite, Composites, Window, Spaced;
      var c := Composite(k);
      if c in live { return false; }
      ghost var n := |history|;
      AcceptKeepsSpaced(history, k);
      LiveAfter(history, k);
      SlotsKept(n);
      HeadMoves(n);
      if full {
        assert order[(n - CAPACITY) % CAPACITY] == history[n - CAPACITY];
        live := live - {Composite(order[head])};
      }
      order[head] := k;
      live := live + {c};
      history := history + [k];
      head := (head + 1) % CAPACITY;
      if head == 0 {
        full := true;
      }
      return true;
    }

    method Len() returns (n: nat)
      requires Valid()
      ensures n == |Window(history)|
    {
      if full { return CAPACITY; }
      return head;
    }
  }

  /** The set that describes the window after one more key. */
  lemma LiveAfter(history: seq<Key>, k: Key)
    requires Spaced(history) && !SeenIn(history, k)
    ensures var n := |history|;
      Composites(Window(history + [k])) == {Composite(k)} +
        (if n >= CAPACITY then Composites(Window(history)) - {Composite(history[n - CAPACITY])}
         else Composites(Window(history)))
  {
    hide Composite;
    var w := Window(history);
    SpacedWindow(history);
    WindowSlides(history, k);
    if |history| >= CAPACITY {
      DropOldest(w);
      AddNewest(w[1..], k);
    } else {
      AddNewest(w, k);
    }
  }

  lemma DropOldest(w: seq<Key>)
    requires w != [] && forall i, j :: 0 <= i < j < |w| ==> Composite(w[i]) != Composite(w[j])
    ensures Composites(w[1..]) == Composites(w) - {Composite(w[0])}
  {
    forall c ensures c in Composites(w[1..]) <==> c in Composites(w) - {Composite(w[0])} {
      if c in Composites(w) - {Composite(w[0])} {
        var i :| 0 <= i < |w| && Composite(w[i]) == c;
        assert w[1..][i - 1] == w[i];
      }
      if c in Composites(w[1..]) {
        var i :| 0 <= i < |w[1..]| && Composite(w[1..][i]) == c;
        assert w[i + 1] == w[1..][i];
      }
    }
  }

  lemma AddNewest(w: seq<Key>, k: Key)
    ensures Composites(w + [k]) == Composites(w) + {Composite(k)}
  {
    var v := w + [k];
    forall c ensures c in Composites(v) <==> c in Composites(w) + {Composite(k)} {
      if c in Composites(w) {
        var i :| 0 <= i < |w| && Composite(w[i]) == c;
        assert v[i] == w[i];
      }
      if c in Composites(v) {
        var i :| 0 <= i < |v| && Composite(v[i]) == c;
        assert i < |w| ==> w[i] == v[i];
      }
      assert v[|w|] == k;
    }
  }

  lemma HeadMoves(n: nat)
    ensures (n % CAPACITY + 1) % CAPACITY == (n + 1) % CAPACITY
    ensures n >= CAPACITY ==> (n - CAPACITY) % CAPACITY == n % CAPACITY
    ensures n < CAPACITY ==> ((n + 1) % CAPACITY == 0 <==> n + 1 == CAPACITY)
  {
  }

  /** The slot written next holds no key that stays in the window. */
  lemma SlotsKept(n: nat)
    ensures forall i :: Start(n + 1) <= i < n ==> i % CAPACITY != n % CAPACITY
  {
  }
}
