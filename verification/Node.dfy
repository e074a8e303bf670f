/** A peer of the message network: what it does with a packet it receives and with a text it sends
    (internal/node/node.go). Packet handling is one atomic step. */
module Nodes {
  import opened Base
  import opened Types
  import opened Packets
  import Rings
  import ProofOfWork
  import Tickets

  const ALGO_NAME: Bytes := Ascii("msp-mh-v1")
  const DAY_NS: int := 86_400_000_000_000
  const TEN_MINUTES_US: int := 600_000_000

  datatype Message = Message(
    receivedAt: i64, packet: Packet, text: Bytes, fromID: Bytes, toID: Bytes, broadcast: bool, alert: bool, via: Bytes)

  /** The settings of a node that decide about packets. */
  datatype Policy = Policy(
    nodeID: Bytes, blocked: set<Bytes>, blockAlert: bool, enforceClock: bool, requireTicket: bool)

  /** What other components answer about one packet: the trust store, the alert key, the bundle parser
      and decryption. */
  datatype Answers = Answers(trusted: bool, alertSender: bool, bundle: Option<Bytes>, text: Option<Bytes>)

  /** The chain a node runs, as far as tickets need it: its HasTxHash, and the wall clock. */
  datatype ChainView = ChainView(hasTx: Bytes -> bool, wallNs: int)

  /** Everything but the packet and the filter that a node's reaction depends on. */
  datatype Context = Context(
    c: Primitives, work: ProofOfWork.Work, policy: Policy, nowNs: i64, wallUs: i64, synced: bool, via: Bytes,
    answers: Answers, chain: Option<ChainView>)

  /** What a node does with one packet. */
  datatype Reaction = Reaction(
    accepted: bool, sample: Option<i64>, bundle: Option<Bytes>, forward: Option<Packet>, message: Option<Message>)

  const IGNORED := Reaction(false, None, None, None, None)

  /** The packet as decoded: a missing kind means chat, and the hop counter has advanced. */
  function Received(p: Packet): Packet {
    p.(kind := if p.kind == [] then KIND_CHAT else p.kind, hops := WrapSigned(p.hops + 1))
  }

  /** Proof of work and signature checks (node.go:671-677). */
  predicate Passes(x: Context, q: Packet) {
    && ProofOfWork.VerifyWork(x.work, PoWMaterial(q), q.powNonce, q.powDifficulty, q.powHash)
    && Verify(x.c, q, x.nowNs, x.policy.enforceClock && x.synced).None?
  }

  /** The clock sample an admitted packet contributes: a positive one within ten minutes of the local wall
      clock, in wrapping arithmetic (node.go:678-689). */
  function Sample(x: Context, q: Packet): (s: Option<i64>)
    ensures s.Some? ==> s.value == q.clockSampleUs
  {
    var delta := WrapSigned(q.clockSampleUs - x.wallUs);
    var size: int := if delta < 0 then WrapSigned(-(delta as int)) else delta;
    if q.clockSampleUs > 0 && size <= TEN_MINUTES_US then Some(q.clockSampleUs) else None
  }

  lemma NoWrap(n: int)
    requires -TWO63 <= n < TWO63
    ensures WrapSigned(n) == n
  {
  }

  /** For readings of this era the arithmetic does not wrap: exactly the samples within ten minutes count. */
  lemma SampleWindow(x: Context, q: Packet)
    requires x.wallUs >= 0
    ensures Sample(x, q).Some? <==>
      q.clockSampleUs > 0 && -TEN_MINUTES_US <= q.clockSampleUs - x.wallUs <= TEN_MINUTES_US
  {
    var d := q.clockSampleUs - x.wallUs;
    hide WrapSigned;
    if q.clockSampleUs > 0 {
      NoWrap(d);
      NoWrap(-d);
    }
  }

  /** Not blocked, trusted, and an alert only from the alert key (node.go:693-708). */
  predicate Cleared(x: Context, q: Packet) {
    && q.senderID !in x.policy.blocked
    && !(q.alert && x.policy.blockAlert)
    && x.answers.trusted
    && (q.alert ==> x.answers.alertSender)
  }

  /** A chat message has a valid ticket: always where tickets are required, and wherever a chain is
      there to check the ticket it brings. */
  predicate TicketOk(x: Context, q: Packet) {
    (q.kind == KIND_CHAT || q.kind == []) && (x.policy.requireTicket || q.burnTicket != []) ==>
      match x.chain
      case None => !x.policy.requireTicket
      case Some(v) => Tickets.TicketAdmits(x.c, v.hasTx, q.burnTicket, q.payloadCipher, v.wallNs)
  }

  predicate ForInbox(x: Context, q: Packet) {
    && q.kind != KIND_KEY_FLOOD && q.kind != KIND_TIME_SYNC && q.kind != KIND_DIFF_HINT
    && TicketOk(x, q)
    && (q.broadcast || q.targetID == x.policy.nodeID)
    && x.answers.text.Some?
  }

  function InboxEntry(x: Context, q: Packet): Option<Message> {
    if ForInbox(x, q)
    then Some(Message(x.nowNs, q, x.answers.text.value, q.senderID, q.targetID, q.broadcast, q.alert, x.via))
    else None
  }

  predicate Spreads(q: Packet) { q.hops < q.ttlMaxHops && q.kind != KIND_TIME_SYNC }

  /** What a node does with a packet it has admitted. */
  function Handle(x: Context, q: Packet): Reaction {
    if !Cleared(x, q) then Reaction(true, Sample(x, q), None, None, None)
    else Reaction(
      true,
      Sample(x, q),
      if q.kind == KIND_KEY_FLOOD && q.keyBundle != [] then x.answers.bundle else None,
      if Spreads(q) then Some(q) else None,
      InboxEntry(x, q))
  }

  function React(x: Context, history: seq<Rings.Key>, p: Packet): Reaction {
    var q := Received(p);
    if Rings.SeenIn(history, q.Key()) || !Passes(x, q) then IGNORED else Handle(x, q)
  }

  /** Whatever a node forwards, shows or learns a key bundle from carries a proof of work and was signed,
      as it stands, by the key its sender id is derived from, and that sender is not blocked. What it
      shows is for everybody or for itself, and has a valid ticket where tickets are required. */
  lemma OnlyAuthentic(x: Context, history: seq<Rings.Key>, p: Packet)
    ensures var q, r := Received(p), React(x, history, p);
      r.forward.Some? || r.message.Some? || r.bundle.Some? ==>
        && q.senderID !in x.policy.blocked
        && ProofOfWork.Solves(x.work, PoWMaterial(q), q.powNonce, q.powDifficulty)
        && (exists pub, sig :: DecodeKey(x.c, q.senderPubKey) == Some(pub) && x.c.nodeID(pub) == q.senderID
                               && x.c.base64Decode(q.signature) == Some(sig) && x.c.edVerify(pub, SignMaterial(q), sig))
    ensures React(x, history, p).forward.Some? ==> Received(p).hops < Received(p).ttlMaxHops
    ensures var r := React(x, history, p);
      r.message.Some? ==>
        && (r.message.value.broadcast || r.message.value.toID == x.policy.nodeID)
        && r.message.value.fromID == p.senderID
        && (x.policy.requireTicket && Received(p).kind == KIND_CHAT ==>
              x.chain.Some? &&
              var v := x.chain.value;
              Tickets.TicketAdmits(x.c, v.hasTx, p.burnTicket, p.payloadCipher, v.wallNs))
  {
    hide Tickets.TicketAdmits, Rings.SeenIn, PoWMaterial, SignMaterial, DecodeKey, ProofOfWork.Solves;
    var q, r := Received(p), React(x, history, p);
    if r.forward.Some? || r.message.Some? || r.bundle.Some? {
      var pub := DecodeKey(x.c, q.senderPubKey).value;
      var sig := x.c.base64Decode(q.signature).value;
      assert x.c.edVerify(pub, SignMaterial(q), sig);
    }
  }

  // ---- Reactions, from the packet as it arrives ---------------------------------------------

  /** Proof of work, version, hops, key, signature, hashes, clock and expiry of the packet, with one more hop
      than it came with. */
  ghost predicate InOrder(x: Context, p: Packet) {
    var q := p.(kind := if p.kind == [] then Ascii("chat") else p.kind, hops := WrapSigned(p.hops + 1));
    var base := SignMaterial(q.(powNonce := 0, powHash := []));
    var d := x.nowNs - p.timestampUs * 1000;
    && 1 <= p.powDifficulty <= 256
    && BigEndianValue(x.work(base, p.powNonce, p.powDifficulty)) < ProofOfWork.Pow2(256 - p.powDifficulty)
    && (p.powHash == [] || p.powHash == Hex(x.work(base, p.powNonce, p.powDifficulty)))
    && (p.version == 1 || p.version == 2) && q.hops <= p.ttlMaxHops
    && (exists pub, sig ::
          && x.c.base64Decode(p.senderPubKey) == Some(pub) && |pub| == 32 && x.c.nodeID(pub) == p.senderID
          && x.c.base64Decode(p.signature) == Some(sig) && x.c.edVerify(pub, SignMaterial(q), sig))
    && p.sha1 == Hex(x.c.sha1(SignMaterial(q) + p.signature))
    && p.sha512 == Hex(x.c.sha512(SignMaterial(q) + p.signature))
    && (x.policy.enforceClock && x.synced ==> -500_000_000 <= d <= 500_000_000 || d <= -TWO63)
    && (p.expireAtUs <= 0 || x.nowNs / 1000 <= p.expireAtUs)
  }

  lemma BaseMaterial(q: Packet)
    ensures PoWMaterial(q) == SignMaterial(q.(powNonce := 0, powHash := []))
  {
    hide SignMaterial;
    MaterialIgnores(q.(powNonce := 0, powHash := [], signature := [], sha1 := [], sha512 := []),
                    q.(powNonce := 0, powHash := []));
  }

  lemma PassesIff(x: Context, p: Packet)
    ensures Passes(x, Received(p)) <==> InOrder(x, p)
  {
    hide SignMaterial, Verify, ProofOfWork.VerifyWork, Hex, BigEndianValue, ProofOfWork.Pow2;
    var q := Received(p);
    BaseMaterial(q);
    hide PoWMaterial;
    ProofOfWork.WorkIff(x.work, PoWMaterial(q), q.powNonce, q.powDifficulty, q.powHash);
    VerifyIff(x.c, q, x.nowNs, x.policy.enforceClock && x.synced);
  }

  /** One of the last 65536 accepted packets had the same two hashes. */
  ghost predicate Repeats(history: seq<Rings.Key>, p: Packet) {
    exists i :: 0 <= i < |history| && |history| - i <= 65536 &&
      history[i].sha1 + Ascii("|") + history[i].sha512 == p.sha1 + Ascii("|") + p.sha512
  }

  lemma UnseenIff(history: seq<Rings.Key>, p: Packet)
    ensures Rings.SeenIn(history, Received(p).Key()) <==> Repeats(history, p)
  {
    hide Rings.SeenIn, Ascii;
    Rings.SeenIff(history, p.Key());
  }

  /** The first half of a reaction: exactly new packets that are in order are accepted, and of those, the
      clock sample is used if it is positive and within ten minutes of the wall clock. */
  lemma AcceptedIff(x: Context, history: seq<Rings.Key>, p: Packet)
    ensures var r := React(x, history, p);
      && (r.accepted <==> !Repeats(history, p) && InOrder(x, p))
      && (x.wallUs >= 0 ==>
            var counts := p.clockSampleUs > 0 && -600_000_000 <= p.clockSampleUs - x.wallUs <= 600_000_000;
            r.sample == if r.accepted && counts then Some(p.clockSampleUs) else None)
  {
    hide Rings.SeenIn, Passes, InOrder, Repeats, Cleared, InboxEntry, Sample, WrapSigned;
    UnseenIff(history, p);
    PassesIff(x, p);
    if x.wallUs >= 0 {
      SampleWindow(x, Received(p));
    }
  }

  /** Whose packets are listened to: senders that are not blocked and are trusted; alerts only where they are
      not blocked, and only from the alert key. */
  predicate Heard(x: Context, p: Packet) {
    p.senderID !in x.policy.blocked && x.answers.trusted
    && (p.alert ==> !x.policy.blockAlert && x.answers.alertSender)
  }

  /** A packet is passed on exactly if it is new, in order and heard, has hops left after this one, and is no
      clock flood; with one more hop and nothing else changed, but that a missing kind is filled in. */
  lemma ForwardedIff(x: Context, history: seq<Rings.Key>, p: Packet)
    ensures React(x, history, p).forward ==
      if !Repeats(history, p) && InOrder(x, p) && Heard(x, p)
         && WrapSigned(p.hops + 1) < p.ttlMaxHops && p.kind != Ascii("time_sync")
      then Some(p.(kind := if p.kind == [] then Ascii("chat") else p.kind, hops := WrapSigned(p.hops + 1)))
      else None
  {
    hide Rings.SeenIn, Passes, InOrder, Repeats, Sample, InboxEntry, WrapSigned;
    UnseenIff(history, p);
    PassesIff(x, p);
  }

  /** Keys are learned exactly from a new key flood that is in order and heard and brings a bundle that
      parses. */
  lemma LearnedIff(x: Context, history: seq<Rings.Key>, p: Packet)
    ensures React(x, history, p).bundle ==
      if !Repeats(history, p) && InOrder(x, p) && Heard(x, p) && p.kind == Ascii("key_flood") && p.keyBundle != []
      then x.answers.bundle else None
  {
    hide Rings.SeenIn, Passes, InOrder, Repeats, Sample, InboxEntry, WrapSigned;
    UnseenIff(history, p);
    PassesIff(x, p);
    assert Ascii("key_flood") != [];
  }

  /** A chat packet brings a ticket that the chain validates, where one is required or brought and there is a
      chain to validate it; without a chain, a requirement cannot be met. */
  ghost predicate Paid(x: Context, p: Packet) {
    p.kind == [] || p.kind == Ascii("chat") ==>
      if x.chain.None? then !x.policy.requireTicket
      else (x.policy.requireTicket || p.burnTicket != []) ==>
        exists raw, t ::
          && p.burnTicket != [] && x.c.base64Decode(p.burnTicket) == Some(raw) && x.c.parseTicket(raw) == Some(t)
          && Tickets.ValidateBurnTicket(x.c, t, p.payloadCipher, x.chain.value.hasTx, x.chain.value.wallNs).None?
  }

  lemma TicketIff(x: Context, q: Packet)
    ensures TicketOk(x, q) <==> Paid(x, q)
  {
    hide Tickets.TicketAdmits, Tickets.ValidateBurnTicket;
    if x.chain.Some? {
      var v := x.chain.value;
      Tickets.AdmitsIff(x.c, v.hasTx, q.burnTicket, q.payloadCipher, v.wallNs);
    }
  }

  /** A packet is shown exactly if it is new, in order and heard; is no key flood, clock flood or difficulty
      hint; is paid for; is for everybody or for this node; and decrypts. What is shown is its text, under its
      own sender, addressee and flags. */
  lemma ShownIff(x: Context, history: seq<Rings.Key>, p: Packet)
    ensures React(x, history, p).message.Some? <==>
      && !Repeats(history, p) && InOrder(x, p)
      && p.senderID !in x.policy.blocked && x.answers.trusted
      && (p.alert ==> !x.policy.blockAlert && x.answers.alertSender)
      && p.kind != Ascii("key_flood") && p.kind != Ascii("time_sync") && p.kind != Ascii("diff_hint")
      && Paid(x, p)
      && (p.broadcast || p.targetID == x.policy.nodeID)
      && x.answers.text.Some?
    ensures React(x, history, p).message.Some? ==>
      var q := p.(kind := if p.kind == [] then Ascii("chat") else p.kind, hops := WrapSigned(p.hops + 1));
      React(x, history, p).message.value ==
        Message(x.nowNs, q, x.answers.text.value, p.senderID, p.targetID, p.broadcast, p.alert, x.via)
  {
    hide Rings.SeenIn, Passes, InOrder, Repeats, Sample, WrapSigned, TicketOk;
    UnseenIff(history, p);
    PassesIff(x, p);
    KindsDiffer();
    TicketIff(x, Received(p));
    SamePrice(x, p);
    hide Paid;
  }

  lemma SamePrice(x: Context, p: Packet)
    ensures Paid(x, Received(p)) <==> Paid(x, p)
  {
    hide Tickets.ValidateBurnTicket;
    KindsDiffer();
  }

  lemma KindsDiffer()
    ensures Ascii("chat") != [] && Ascii("key_flood") != [] && Ascii("time_sync") != [] && Ascii("diff_hint") != []
    ensures Ascii("chat") !in [Ascii("key_flood"), Ascii("time_sync"), Ascii("diff_hint")]
  {
    assert |Ascii("chat")| == 4 && |Ascii("key_flood")| == |Ascii("time_sync")| == |Ascii("diff_hint")| == 9;
  }

  // ---- Origin -------------------------------------------------------------------------------

  datatype Sealed = Sealed(nonce: Bytes, cipher: Bytes, mac: Bytes)
  datatype SendError = PayloadTooLarge | SealFailed | TicketFailed | WorkFailed
  datatype SendResult = Sent(packet: Packet) | Failed(error: SendError)

  /** The three clock readings of one send. */
  datatype Clock = Clock(expiryNs: i64, stampNs: i64, sampleNs: i64)

  /** A text to send, with what sealing it and issuing its ticket produced. */
  datatype Outgoing = Outgoing(
    targetID: Bytes, broadcast: bool, alert: bool, text: Bytes, ttlNs: i64, ephemeral: Bytes, bits: i64, burn: u64,
    sealed: Option<Sealed>, ticket: Option<Bytes>)

  function Expiry(clock: Clock, ttlNs: i64): i64 {
    (clock.expiryNs + if ttlNs <= 0 then DAY_NS else ttlNs) / 1000
  }

  /** The packet before mining and signing (node.go:599-622). */
  function Unmined(id: Identity, xPub: Bytes, opkUsed: Bytes, clock: Clock, m: Outgoing): Packet
    requires m.sealed.Some? && m.ticket.Some?
  {
    var s := m.sealed.value;
    Packet(PACKET_VERSION, KIND_CHAT, [], [], clock.stampNs / 1000, id.nodeID, m.targetID,
           m.broadcast, m.alert, ALGO_NAME, m.bits, 0, [],
           MAX_HOPS, 0, id.edPub, xPub, m.ephemeral, opkUsed,
           [], clock.sampleNs / 1000, m.bits, s.mac, [],
           s.nonce, s.cipher, Expiry(clock, m.ttlNs), m.burn, m.ticket.value)
  }

  function SendFailure(m: Outgoing): Option<SendError> {
    if |m.text| > MAX_PAYLOAD_BYTES then Some(PayloadTooLarge)
    else if m.sealed.None? then Some(SealFailed)
    else if m.ticket.None? then Some(TicketFailed)
    else None
  }

  /** p is the draft, mined at the requested difficulty and signed. */
  predicate MinedFrom(c: Primitives, work: ProofOfWork.Work, priv: Bytes, draft: Packet, p: Packet) {
    && ProofOfWork.VerifyWork(work, PoWMaterial(draft), p.powNonce, draft.powDifficulty, p.powHash)
    && p == Sign(c, draft.(powNonce := p.powNonce, powHash := p.powHash), priv)
  }

  class Node {
    var id: Identity
    var xPub: Bytes
    var dedup: Rings.Ring
    var inbox: seq<Message>
    /** The samples handed to clock synchronisation, in order. */
    var samples: seq<i64>
    var bundles: map<Bytes, Bytes>
    var blocked: set<Bytes>
    var blockAlert: bool
    var enforceClock: bool
    var requireTicket: bool
    var pendingOPKUsed: Bytes

    ghost predicate Valid()
      reads this, dedup, dedup.order
    {
      dedup.Valid()
    }

    function CurrentPolicy(): Policy
      reads this
    {
      Policy(id.nodeID, blocked, blockAlert, enforceClock, requireTicket)
    }

    constructor (id: Identity, xPub: Bytes, enforceClock: bool, blockAlert: bool)
      ensures Valid() && fresh(dedup) && fresh(dedup.order)
      ensures dedup.history == [] && inbox == []
      ensures this.id == id && CurrentPolicy() == Policy(id.nodeID, {}, blockAlert, enforceClock, false)
    {
      this.id, this.xPub, this.enforceClock, this.blockAlert := id, xPub, enforceClock, blockAlert;
      inbox, samples, bundles, blocked, requireTicket, pendingOPKUsed := [], [], map[], {}, false, [];
      dedup := new Rings.Ring();
    }

    /** Handles one received packet; `forward` is what goes out to every neighbour but the one it came from. */
    method OnP2PPacket(x: Context, p: Packet) returns (forward: Option<Packet>)
      requires Valid() && x.policy == CurrentPolicy()
      modifies this`inbox, this`samples, this`bundles, dedup, dedup.order
      ensures Valid()
      ensures var r := React(x, old(dedup.history), p);
        && dedup.history == old(dedup.history) + (if r.accepted then [p.Key()] else [])
        && samples == old(samples) + (if r.sample.Some? then [r.sample.value] else [])
        && inbox == old(inbox) + (if r.message.Some? then [r.message.value] else [])
        && bundles == (if r.bundle.Some? then old(bundles)[p.senderID := r.bundle.value] else old(bundles))
        && forward == r.forward
    {
      hide Passes, Rings.SeenIn, Handle, Sample;
      var q := Received(p);
      var admitted := Admit(x, q);
      if !admitted { return None; }
      forward := Process(x, q);
    }

    /** The head of the handler (node.go:666-692): duplicate filter, proof of work, signature, clock. */
    method Admit(x: Context, q: Packet) returns (admitted: bool)
      requires Valid() && x.policy == CurrentPolicy()
      modifies this`samples, dedup, dedup.order
      ensures Valid()
      ensures admitted <==> !Rings.SeenIn(old(dedup.history), q.Key()) && Passes(x, q)
      ensures dedup.history == old(dedup.history) + (if admitted then [q.Key()] else [])
      ensures samples == old(samples) + (if admitted && Sample(x, q).Some? then [q.clockSampleUs] else [])
    {
      hide Verify, ProofOfWork.VerifyWork, PoWMaterial, Rings.SeenIn;
      var seen := dedup.Seen(q.Key());
      if seen { return false; }
      if !ProofOfWork.VerifyWork(x.work, PoWMaterial(q), q.powNonce, q.powDifficulty, q.powHash) { return false; }
      var checkClock := enforceClock && x.synced;
      if Verify(x.c, q, x.nowNs, checkClock).Some? { return false; }
      if q.clockSampleUs > 0 {
        var delta := WrapSigned(q.clockSampleUs - x.wallUs);
        if delta < 0 {
          delta := WrapSigned(-(delta as int));
        }
        if delta <= TEN_MINUTES_US {
          samples := samples + [q.clockSampleUs];
        }
      }
      admitted := dedup.Add(q.Key());
    }

    /** What follows admission (node.go:693-745). */
    method Process(x: Context, q: Packet) returns (forward: Option<Packet>)
      requires x.policy == CurrentPolicy()
      modifies this`inbox, this`bundles
      ensures var r := Handle(x, q);
        && r.accepted && forward == r.forward && r.sample == Sample(x, q)
        && inbox == old(inbox) + (if r.message.Some? then [r.message.value] else [])
        && bundles == (if r.bundle.Some? then old(bundles)[q.senderID := r.bundle.value] else old(bundles))
    {
      hide InboxEntry, Sample;
      forward := None;
      if q.senderID in blocked { return; }
      if q.alert && blockAlert { return; }
      if !x.answers.trusted { return; }
      if q.alert && !x.answers.alertSender { return; }
      if q.kind == KIND_KEY_FLOOD && q.keyBundle != [] && x.answers.bundle.Some? {
        bundles := bundles[q.senderID := x.answers.bundle.value];
      }
      if q.hops < q.ttlMaxHops && q.kind != KIND_TIME_SYNC {
        forward := Some(q);
      }
      Deliver(x, q);
    }

    /** The tail of the handler (node.go:747-778): ticket, addressee, decryption, inbox. */
    method Deliver(x: Context, q: Packet)
      requires x.policy == CurrentPolicy()
      modifies this`inbox
      ensures inbox == old(inbox) + (if InboxEntry(x, q).Some? then [InboxEntry(x, q).value] else [])
      ensures var shown := q.kind !in [Ascii("key_flood"), Ascii("time_sync"), Ascii("diff_hint")]
          && Paid(x, q) && (q.broadcast || q.targetID == id.nodeID) && x.answers.text.Some?;
        inbox == old(inbox) + if shown
          then [Message(x.nowNs, q, x.answers.text.value, q.senderID, q.targetID, q.broadcast, q.alert, x.via)] else []
    {
      TicketIff(x, q);
      hide Tickets.TicketAdmits, Paid;
      if q.kind == KIND_KEY_FLOOD || q.kind == KIND_TIME_SYNC || q.kind == KIND_DIFF_HINT { return; }
      if (q.kind == KIND_CHAT || q.kind == []) && (requireTicket || q.burnTicket != []) {
        if x.chain.Some? {
          var v := x.chain.value;
          if !Tickets.TicketAdmits(x.c, v.hasTx, q.burnTicket, q.payloadCipher, v.wallNs) { return; }
        } else if requireTicket {
          return;
        }
      }
      if !(q.broadcast || q.targetID == id.nodeID) { return; }
      if x.answers.text.None? { return; }
      var text := x.answers.text.value;
      inbox := inbox + [Message(x.nowNs, q, text, q.senderID, q.targetID, q.broadcast, q.alert, x.via)];
    }

    /** Builds, mines, signs and records a chat packet. `solution` witnesses that mining ends. */
    method BuildPacket(c: Primitives, work: ProofOfWork.Work, m: Outgoing, clock: Clock, ghost solution: u64)
      returns (r: SendResult)
      requires Valid()
      requires SendFailure(m).None? ==> ProofOfWork.Solves(
        work, PoWMaterial(Unmined(id, xPub, pendingOPKUsed, clock, m)), solution, ProofOfWork.Clamp(m.bits))
      modifies this`pendingOPKUsed, dedup, dedup.order
      ensures Valid()
      ensures SendFailure(m).Some? ==> r == Failed(SendFailure(m).value)
      ensures SendFailure(m).None? && m.bits < 1 ==> r == Failed(WorkFailed)
      ensures SendFailure(m).None? && m.bits >= 1 ==> r.Sent?
      ensures pendingOPKUsed == if SendFailure(m).Some? then old(pendingOPKUsed) else []
      ensures r.Sent? ==> MinedFrom(c, work, id.priv, Unmined(id, xPub, old(pendingOPKUsed), clock, m), r.packet)
      ensures dedup.history == if r.Sent? then Rings.Accept(old(dedup.history), r.packet.Key()) else old(dedup.history)
    {
      hide ProofOfWork.VerifyWork, ProofOfWork.Solves, PoWMaterial, SignMaterial, Rings.SeenIn;
      if |m.text| > MAX_PAYLOAD_BYTES { return Failed(PayloadTooLarge); }
      if m.sealed.None? { return Failed(SealFailed); }
      if m.ticket.None? { return Failed(TicketFailed); }
      var opkUsed := pendingOPKUsed;
      pendingOPKUsed := [];
      var p := Unmined(id, xPub, opkUsed, clock, m);
      var material := PoWMaterial(p);
      var nonce, hashHex := ProofOfWork.Mine(work, material, m.bits, solution);
      if !ProofOfWork.VerifyWork(work, material, nonce, m.bits, hashHex) { return Failed(WorkFailed); }
      p := p.(powNonce := nonce, powHash := hashHex);
      p := Sign(c, p, id.priv);
      var _ := dedup.Add(p.Key());
      return Sent(p);
    }

    /** A whole send. A packet that was built is never lost on the way out: it goes to every neighbour
        that can be reached, or, if there is none, it is queued. */
    method BuildAndSend(c: Primitives, work: ProofOfWork.Work, m: Outgoing, clock: Clock, links: seq<Bytes>,
                        oversize: bool, reaches: Bytes -> bool, ghost solution: u64)
      returns (r: SendResult, sent: seq<Bytes>, queued: bool)
      requires Valid()
      requires SendFailure(m).None? ==> ProofOfWork.Solves(
        work, PoWMaterial(Unmined(id, xPub, pendingOPKUsed, clock, m)), solution, ProofOfWork.Clamp(m.bits))
      modifies this`pendingOPKUsed, dedup, dedup.order
      ensures Valid()
      ensures r.Sent? <==> |m.text| <= 32768 && m.sealed.Some? && m.ticket.Some? && m.bits >= 1
      ensures r.Failed? ==> r == Failed(
        if |m.text| > 32768 then PayloadTooLarge else if m.sealed.None? then SealFailed
        else if m.ticket.None? then TicketFailed else WorkFailed)
      ensures r.Sent? ==> MinedFrom(c, work, id.priv, Unmined(id, xPub, old(pendingOPKUsed), clock, m), r.packet)
      ensures dedup.history == if r.Sent? then Rings.Accept(old(dedup.history), r.packet.Key()) else old(dedup.history)
      ensures forall w :: w in sent <==> r.Sent? && !oversize && w in links && reaches(w)
      ensures queued <==> r.Sent? && sent == []
    {
      hide Valid, MinedFrom, ProofOfWork.Solves, Unmined;
      sent, queued := [], false;
      r := BuildPacket(c, work, m, clock, solution);
      if r.Failed? { return; }
      if |links| == 0 { return r, [], true; }
      sent := SendPacket(links, oversize, reaches);
      queued := |sent| == 0;
    }
  }

  /** The send loop of udp.go:262-292: the neighbours reached, none if the datagram is too large. */
  method SendPacket(links: seq<Bytes>, oversize: bool, reaches: Bytes -> bool) returns (sent: seq<Bytes>)
    ensures forall w :: w in sent <==> !oversize && w in links && reaches(w)
  {
    sent := [];
    if oversize { return; }
    var i := 0;
    while i < |links|
      invariant 0 <= i <= |links|
      invariant forall w :: w in sent <==> w in links[..i] && reaches(w)
    {
      assert links[..i + 1] == links[..i] + [links[i]];
      if reaches(links[i]) {
        sent := sent + [links[i]];
      }
      i := i + 1;
    }
    assert links[..|links|] == links;
  }

  /** The proof of a packet is no part of what it is mined over. */
  lemma MaterialBase(p: Packet, q: Packet)
    requires p.Signed().(powNonce := 0, powHash := []) == q.Signed().(powNonce := 0, powHash := [])
    ensures PoWMaterial(p) == PoWMaterial(q)
  {
    hide SignMaterial;
    MaterialIgnores(p.(powNonce := 0, powHash := [], signature := [], sha1 := [], sha512 := []),
                    q.(powNonce := 0, powHash := [], signature := [], sha1 := [], sha512 := []));
  }

  /** A sent packet, field by field: who sends what to whom, with which keys, when it expires, and a proof of
      work, a signature and two hashes over all that. */
  lemma SentFields(c: Primitives, work: ProofOfWork.Work, id: Identity, xPub: Bytes, opkUsed: Bytes, clock: Clock,
                   m: Outgoing, p: Packet)
    requires m.sealed.Some? && m.ticket.Some? && MinedFrom(c, work, id.priv, Unmined(id, xPub, opkUsed, clock, m), p)
    ensures p.version == 2 && p.kind == Ascii("chat") && p.hops == 0 && p.ttlMaxHops == 30 && p.keyBundle == []
    ensures p.senderID == id.nodeID && p.targetID == m.targetID && p.broadcast == m.broadcast && p.alert == m.alert
    ensures p.senderPubKey == id.edPub && p.senderX25519 == xPub && p.ephemeralX == m.ephemeral && p.opkUsed == opkUsed
    ensures p.payloadNonce == m.sealed.value.nonce && p.payloadCipher == m.sealed.value.cipher
    ensures p.payloadMAC == m.sealed.value.mac && p.burnTicket == m.ticket.value && p.mstBurn == m.burn
    ensures p.timestampUs == clock.stampNs / 1000 && p.clockSampleUs == clock.sampleNs / 1000
    ensures p.expireAtUs == (clock.expiryNs + (if m.ttlNs <= 0 then 86_400_000_000_000 else m.ttlNs)) / 1000
    ensures p.powAlgo == Ascii("msp-mh-v1") && p.powDifficulty == m.bits && p.diffHintBits == m.bits
    ensures var base := SignMaterial(p.(powNonce := 0, powHash := []));
      1 <= m.bits <= 256 && BigEndianValue(work(base, p.powNonce, m.bits)) < ProofOfWork.Pow2(256 - m.bits)
    ensures p.signature == c.base64(c.edSign(id.priv, SignMaterial(p)))
    ensures p.sha1 == Hex(c.sha1(SignMaterial(p) + p.signature))
    ensures p.sha512 == Hex(c.sha512(SignMaterial(p) + p.signature))
  {
    hide SignMaterial, ProofOfWork.VerifyWork, Hex, BigEndianValue, ProofOfWork.Pow2, PoWMaterial;
    var draft := Unmined(id, xPub, opkUsed, clock, m);
    var mined := draft.(powNonce := p.powNonce, powHash := p.powHash);
    MaterialIgnores(p, mined);
    MaterialIgnores(p, mined.(signature := p.signature));
    BaseMaterial(p);
    MaterialBase(p, draft);
    ProofOfWork.WorkIff(work, PoWMaterial(draft), p.powNonce, draft.powDifficulty, p.powHash);
  }

  /** The packet of a send passes every other node's checks, after any number of hops up to the
      limit, until it expires -- and, where the clock is enforced, while it is in the clock window. */
  lemma SentPacketPasses(x: Context, id: Identity, xPub: Bytes, opkUsed: Bytes, clock: Clock, m: Outgoing, p: Packet,
                         hops: nat)
    requires Sound(x.c) && GoodIdentity(x.c, id) && m.sealed.Some? && m.ticket.Some?
    requires MinedFrom(x.c, x.work, id.priv, Unmined(id, xPub, opkUsed, clock, m), p)
    requires hops < MAX_HOPS
    ensures Passes(x, Received(p.(hops := hops))) <==>
      && (p.expireAtUs <= 0 || x.nowNs / 1000 <= p.expireAtUs)
      && (x.policy.enforceClock && x.synced ==> Skew(x.nowNs, p.timestampUs) <= TIME_SKEW_MAX_NS)
  {
    hide ProofOfWork.VerifyWork, SignMaterial, PoWMaterial, Skew, Verify, Sign, GoodIdentity, Sound;
    var draft := Unmined(id, xPub, opkUsed, clock, m);
    var mined := draft.(powNonce := p.powNonce, powHash := p.powHash);
    var q := Received(p.(hops := hops));
    var check := x.policy.enforceClock && x.synced;
    SentAnatomy(x, id, draft, p);
    assert q == p.(hops := hops + 1);
    IdentityKeys(x.c, id);
    SignedVerifies(x.c, mined, id.priv, x.nowNs, check);
    ForwardingKeeps(x.c, p, hops + 1, x.nowNs, check);
    MaterialBase(q, draft);
  }

  lemma IdentityKeys(c: Primitives, id: Identity)
    requires GoodIdentity(c, id)
    ensures id.edPub == c.base64(c.edPublic(id.priv)) && id.nodeID == c.nodeID(c.edPublic(id.priv))
  {
  }

  /** Mining and signing keep what was drafted. */
  lemma SentAnatomy(x: Context, id: Identity, draft: Packet, p: Packet)
    requires MinedFrom(x.c, x.work, id.priv, draft, p)
    ensures p.Signed() == draft.Signed().(powNonce := p.powNonce, powHash := p.powHash)
    ensures p.hops == draft.hops
  {
    hide ProofOfWork.VerifyWork, SignMaterial, PoWMaterial, Hex;
  }
}
