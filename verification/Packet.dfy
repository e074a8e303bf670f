/** The wire packet: its signed byte layout, its hashes and its checks (internal/protocol/packet.go). */
module Packets {
  import opened Base
  import opened Types
  import Rings

  const MAX_HOPS: int := 30
  const TIME_SKEW_MAX_NS: int := 500_000_000
  const PACKET_VERSION: int := 2
  const MAX_PAYLOAD_BYTES: nat := 32768
  const KIND_CHAT: Bytes := Ascii("chat")
  const KIND_KEY_FLOOD: Bytes := Ascii("key_flood")
  const KIND_TIME_SYNC: Bytes := Ascii("time_sync")
  const KIND_DIFF_HINT: Bytes := Ascii("diff_hint")
  /** 2^56: expiry times below it are written with a zero first byte. */
  const EXPIRY_LIMIT: int := 0x100_0000_0000_0000

  datatype Packet = Packet(
    version: i64, kind: Bytes, sha1: Bytes, sha512: Bytes, timestampUs: i64, senderID: Bytes, targetID: Bytes,
    broadcast: bool, alert: bool, powAlgo: Bytes, powDifficulty: i64, powNonce: u64, powHash: Bytes,
    ttlMaxHops: i64, hops: i64, senderPubKey: Bytes, senderX25519: Bytes, ephemeralX: Bytes, opkUsed: Bytes,
    keyBundle: Bytes, clockSampleUs: i64, diffHintBits: i64, payloadMAC: Bytes, signature: Bytes,
    payloadNonce: Bytes, payloadCipher: Bytes, expireAtUs: i64, mstBurn: u64, burnTicket: Bytes)
  {
    /** What a signature covers: everything but hops, clock sample, difficulty hint and the proof itself. */
    function Signed(): Packet {
      this.(sha1 := [], sha512 := [], signature := [], hops := 0, clockSampleUs := 0, diffHintBits := 0)
    }

    function Key(): Rings.Key { Rings.Key(sha1, sha512) }
  }

  // ---- The signed layout --------------------------------------------------------------------

  /** A field of fixed width, or one that a zero byte ends. */
  datatype Field = Fixed(bytes: Bytes) | Text(bytes: Bytes)

  function Written(f: Field): Bytes { if f.Text? then f.bytes + [0] else f.bytes }

  function Join(fields: seq<Field>): Bytes {
    if fields == [] then [] else Written(fields[0]) + Join(fields[1..])
  }

  function Int32(x: int): (b: Bytes) ensures |b| == 4 { BigEndian(x % 0x1_0000_0000, 4) }
  function Int64(x: int): (b: Bytes) ensures |b| == 8 { BigEndian(x % 0x1_0000_0000_0000_0000, 8) }
  function Flag(b: bool): (f: Bytes) ensures |f| == 1 { if b then [1] else [0] }

  function HeaderFields(p: Packet): seq<Field> {
    [Fixed(Int32(p.version)), Text(p.kind), Fixed(Int64(p.timestampUs)), Text(p.senderID), Text(p.targetID),
     Fixed(Flag(p.broadcast)), Fixed(Flag(p.alert))]
  }

  function WorkFields(p: Packet): seq<Field> {
    [Text(p.powAlgo), Fixed(Int32(p.powDifficulty)), Fixed(Int64(p.powNonce)), Text(p.powHash),
     Fixed(Int32(p.ttlMaxHops))]
  }

  function KeyFields(p: Packet): seq<Field> {
    [Text(p.senderPubKey), Text(p.senderX25519), Text(p.ephemeralX), Text(p.opkUsed), Text(p.keyBundle),
     Text(p.payloadNonce), Text(p.payloadCipher)]
  }

  function DelimitedFields(p: Packet): seq<Field> { HeaderFields(p) + WorkFields(p) + KeyFields(p) }

  /** The bytes that are signed. Nothing ends the payload MAC (packet.go:137-138). */
  function SignMaterial(p: Packet): Bytes {
    Join(DelimitedFields(p)) + p.payloadMAC + Int64(p.expireAtUs) + Int64(p.mstBurn) + p.burnTicket
  }

  /** The bytes the proof of work is mined over. */
  function PoWMaterial(p: Packet): Bytes {
    SignMaterial(p.(powNonce := 0, powHash := [], signature := [], sha1 := [], sha512 := []))
  }

  function HashBody(p: Packet): Bytes { SignMaterial(p) + p.signature }

  class Buffer {
    var bytes: Bytes
    ghost var fields: seq<Field>

    ghost predicate Valid() reads this { bytes == Join(fields) }

    constructor ()
      ensures Valid() && fields == []
    {
      bytes, fields := [], [];
    }

    method Write(b: Bytes)
      requires Valid()
      modifies this
      ensures Valid() && fields == old(fields) + [Fixed(b)]
    {
      JoinAppend(fields, [Fixed(b)]);
      JoinOne(Fixed(b));
      bytes, fields := bytes + b, fields + [Fixed(b)];
    }

    method WriteText(s: Bytes)
      requires Valid()
      modifies this
      ensures Valid() && fields == old(fields) + [Text(s)]
    {
      JoinAppend(fields, [Text(s)]);
      JoinOne(Text(s));
      bytes, fields := bytes + (s + [0]), fields + [Text(s)];
    }

    method WriteFlag(b: bool)
      requires Valid()
      modifies this
      ensures Valid() && fields == old(fields) + [Fixed(Flag(b))]
    {
      if b {
        Write([1]);
      } else {
        Write([0]);
      }
    }
  }

  /** The writes of packet.go:96-144, in order. */
  method WriteSignMaterial(p: Packet) returns (m: Bytes)
    ensures m == SignMaterial(p)
  {
    hide Join, Int32, Int64, Flag;
    var b := new Buffer();
    WriteHeader(b, p);
    WriteWork(b, p);
    b.WriteText(p.senderPubKey);
    b.WriteText(p.senderX25519);
    b.WriteText(p.ephemeralX);
    b.WriteText(p.opkUsed);
    b.WriteText(p.keyBundle);
    b.WriteText(p.payloadNonce);
    b.WriteText(p.payloadCipher);
    assert b.fields == DelimitedFields(p);
    m := b.bytes + p.payloadMAC + Int64(p.expireAtUs) + Int64(p.mstBurn) + p.burnTicket;
  }

  method WriteHeader(b: Buffer, p: Packet)
    requires b.Valid()
    modifies b
    ensures b.Valid() && b.fields == old(b.fields) + HeaderFields(p)
  {
    hide Join, Int32, Int64, Flag;
    b.Write(Int32(p.version));
    b.WriteText(p.kind);
    b.Write(Int64(p.timestampUs));
    b.WriteText(p.senderID);
    b.WriteText(p.targetID);
    b.WriteFlag(p.broadcast);
    b.WriteFlag(p.alert);
  }

  method WriteWork(b: Buffer, p: Packet)
    requires b.Valid()
    modifies b
    ensures b.Valid() && b.fields == old(b.fields) + WorkFields(p)
  {
    hide Join, Int32, Int64, Flag;
    b.WriteText(p.powAlgo);
    b.Write(Int32(p.powDifficulty));
    b.Write(Int64(p.powNonce));
    b.WriteText(p.powHash);
    b.Write(Int32(p.ttlMaxHops));
  }

  lemma {:induction false} JoinAppend(a: seq<Field>, b: seq<Field>)
    ensures Join(a + b) == Join(a) + Join(b)
  {
    hide Written;
    if a == [] {
      assert a + b == b;
    } else {
      hide Join;
      JoinAppend(a[1..], b);
      assert (a + b)[1..] == a[1..] + b && (a + b)[0] == a[0];
      JoinHead(a);
      JoinHead(a + b);
    }
  }

  lemma JoinHead(a: seq<Field>)
    requires a != []
    ensures Join(a) == Written(a[0]) + Join(a[1..])
  {
    hide Written;
  }

  lemma JoinOne(f: Field)
    ensures Join([f]) == Written(f)
  {
    assert [f][1..] == [];
  }

  function Ended(s: Bytes): Bytes { s + [0] }

  lemma JoinSeven(a: Field, b: Field, c: Field, d: Field, e: Field, f: Field, g: Field)
    ensures Join([a, b, c, d, e, f, g])
         == Written(a) + Written(b) + Written(c) + Written(d) + Written(e) + Written(f) + Written(g)
  {
    hide Written;
    JoinFive(c, d, e, f, g);
    JoinOne(a);
    JoinOne(b);
    JoinAppend([a], [b]);
    JoinAppend([a, b], [c, d, e, f, g]);
    hide Join;
    assert [a] + [b] == [a, b] && [a, b] + [c, d, e, f, g] == [a, b, c, d, e, f, g];
  }

  lemma JoinFive(a: Field, b: Field, c: Field, d: Field, e: Field)
    ensures Join([a, b, c, d, e]) == Written(a) + Written(b) + Written(c) + Written(d) + Written(e)
  {
    hide Written;
    JoinOne(a);
    JoinOne(b);
    JoinOne(c);
    JoinOne(d);
    JoinOne(e);
    JoinAppend([a], [b]);
    JoinAppend([a, b], [c]);
    JoinAppend([a, b, c], [d]);
    JoinAppend([a, b, c, d], [e]);
    hide Join;
    assert [a] + [b] == [a, b] && [a, b] + [c] == [a, b, c] && [a, b, c] + [d] == [a, b, c, d];
    assert [a, b, c, d] + [e] == [a, b, c, d, e];
  }

  /** The signed bytes in their order on the wire: big-endian integers of 4 and 8 bytes, one byte for each
      flag, and texts each ended by a zero byte, except the payload MAC and the burn ticket. */
  lemma MaterialLayout(p: Packet)
    ensures var head := BigEndian(p.version % 0x1_0000_0000, 4) + Ended(p.kind)
        + BigEndian(p.timestampUs % 0x1_0000_0000_0000_0000, 8) + Ended(p.senderID) + Ended(p.targetID)
        + (if p.broadcast then [1] else [0]) + (if p.alert then [1] else [0]);
      var work := Ended(p.powAlgo) + BigEndian(p.powDifficulty % 0x1_0000_0000, 4) + BigEndian(p.powNonce, 8)
        + Ended(p.powHash) + BigEndian(p.ttlMaxHops % 0x1_0000_0000, 4);
      var keys := Ended(p.senderPubKey) + Ended(p.senderX25519) + Ended(p.ephemeralX) + Ended(p.opkUsed)
        + Ended(p.keyBundle) + Ended(p.payloadNonce) + Ended(p.payloadCipher);
      SignMaterial(p) == head + work + keys + p.payloadMAC
        + BigEndian(p.expireAtUs % 0x1_0000_0000_0000_0000, 8) + BigEndian(p.mstBurn, 8) + p.burnTicket
  {
    hide Join, BigEndian;
    var h, w, k := HeaderFields(p), WorkFields(p), KeyFields(p);
    JoinSeven(h[0], h[1], h[2], h[3], h[4], h[5], h[6]);
    JoinFive(w[0], w[1], w[2], w[3], w[4]);
    JoinSeven(k[0], k[1], k[2], k[3], k[4], k[5], k[6]);
    JoinAppend(h + w, k);
    JoinAppend(h, w);
    assert p.powNonce % 0x1_0000_0000_0000_0000 == p.powNonce && p.mstBurn % 0x1_0000_0000_0000_0000 == p.mstBurn;
  }

  // ---- A parser for the layout --------------------------------------------------------------

  datatype Shape = Width(n: nat) | Terminated

  function ShapeOf(f: Field): Shape { if f.Text? then Terminated else Width(|f.bytes|) }

  function ShapesOf(fields: seq<Field>): (s: seq<Shape>)
    ensures |s| == |fields| && forall i :: 0 <= i < |s| ==> s[i] == ShapeOf(fields[i])
  {
    seq(|fields|, i requires 0 <= i < |fields| => ShapeOf(fields[i]))
  }

  function ValuesOf(fields: seq<Field>): (v: seq<Bytes>)
    ensures |v| == |fields| && forall i :: 0 <= i < |v| ==> v[i] == fields[i].bytes
  {
    seq(|fields|, i requires 0 <= i < |fields| => fields[i].bytes)
  }

  /** Position of the first zero byte, or the length. */
  function FirstZero(b: Bytes): (n: nat)
    ensures n <= |b| && 0 !in b[..n] && (n < |b| ==> b[n] == 0)
  {
    if b == [] || b[0] == 0 then 0
    else
      var n := FirstZero(b[1..]) + 1;
      assert b[..n] == [b[0]] + b[1..][..n - 1];
      n
  }

  function Cut(shape: Shape, b: Bytes): Option<(Bytes, Bytes)> {
    match shape
    case Width(n) => if |b| < n then None else Some((b[..n], b[n..]))
    case Terminated =>
      var n := FirstZero(b);
      if n == |b| then None else Some((b[..n], b[n + 1..]))
  }

  /** The values of a run of fields, and what follows them. */
  function CutAll(shapes: seq<Shape>, b: Bytes): (r: Option<(seq<Bytes>, Bytes)>)
    ensures r.Some? ==> |r.value.0| == |shapes|
    ensures r.Some? ==> forall i :: 0 <= i < |shapes| ==> Fits(shapes[i], r.value.0[i])
  {
    if shapes == [] then Some(([], b)) else
    match Cut(shapes[0], b)
    case None => None
    case Some(head) =>
      match CutAll(shapes[1..], head.1)
      case None => None
      case Some(tail) => Some(([head.0] + tail.0, tail.1))
  }

  predicate Fits(shape: Shape, v: Bytes) {
    match shape
    case Width(n) => |v| == n
    case Terminated => 0 !in v
  }

  predicate Delimited(f: Field) { f.Text? ==> 0 !in f.bytes }

  lemma {:induction false} FirstZeroAfter(a: Bytes, rest: Bytes)
    requires 0 !in a
    ensures FirstZero(a + [0] + rest) == |a|
  {
    if a != [] {
      assert (a + [0] + rest)[1..] == a[1..] + [0] + rest;
      FirstZeroAfter(a[1..], rest);
    }
  }

  lemma CutWritten(f: Field, rest: Bytes)
    requires Delimited(f)
    ensures Cut(ShapeOf(f), Written(f) + rest) == Some((f.bytes, rest))
  {
    var b, n := Written(f) + rest, |f.bytes|;
    assert b[..n] == f.bytes;
    if f.Text? {
      FirstZeroAfter(f.bytes, rest);
      assert b[n + 1..] == rest;
    } else {
      assert b[n..] == rest;
    }
  }

  lemma CutAllStep(shapes: seq<Shape>, b: Bytes, head: (Bytes, Bytes), tail: (seq<Bytes>, Bytes))
    requires shapes != [] && Cut(shapes[0], b) == Some(head) && CutAll(shapes[1..], head.1) == Some(tail)
    ensures CutAll(shapes, b) == Some(([head.0] + tail.0, tail.1))
  {
    hide Cut;
  }

  /** The parser undoes the writer, whatever the fields are and whatever follows them. */
  lemma {:induction false} CutAllUndoesJoin(fields: seq<Field>, rest: Bytes)
    requires forall f :: f in fields ==> Delimited(f)
    ensures CutAll(ShapesOf(fields), Join(fields) + rest) == Some((ValuesOf(fields), rest))
  {
    hide Cut, Written, Delimited, ShapeOf;
    if fields == [] {
      assert Join(fields) + rest == rest;
    } else {
      hide CutAll;
      var f, more := fields[0], fields[1..];
      var after := Join(more) + rest;
      assert Join(fields) + rest == Written(f) + after;
      CutWritten(f, after);
      CutAllUndoesJoin(more, rest);
      assert ShapesOf(fields)[1..] == ShapesOf(more);
      CutAllStep(ShapesOf(fields), Written(f) + after, (f.bytes, after), (ValuesOf(more), rest));
      assert ValuesOf(fields) == [f.bytes] + ValuesOf(more);
    }
  }

  function ReadUnsigned(b: Bytes): (n: nat)
    ensures |b| == 4 ==> n < 0x1_0000_0000
    ensures |b| == 7 ==> n < EXPIRY_LIMIT
    ensures |b| == 8 ==> n < TWO64
  {
    BigEndianBound(b);
    Powers();
    BigEndianValue(b)
  }

  function ReadInt32(b: Bytes): (x: int)
    requires |b| == 4
    ensures -0x8000_0000 <= x < 0x8000_0000
  {
    var n := ReadUnsigned(b);
    if n < 0x8000_0000 then n else n - 0x1_0000_0000
  }

  function ReadInt64(b: Bytes): (x: int)
    requires |b| == 8
    ensures -TWO63 <= x < TWO63
  {
    var n := ReadUnsigned(b);
    if n < TWO63 then n else n - TWO64
  }

  lemma Powers()
    ensures Pow256(4) == 0x1_0000_0000 && Pow256(7) == EXPIRY_LIMIT && Pow256(8) == TWO64
  {
    assert Pow256(7) == 0x1_00_0000 * Pow256(4);
    assert Pow256(8) == 0x1_0000_0000 * Pow256(4);
  }

  lemma Int32ReadsBack(x: int)
    requires IsInt32(x)
    ensures ReadInt32(Int32(x)) == x
  {
    hide BigEndian, BigEndianValue, Pow256;
    Powers();
    BigEndianRoundTrip(x % 0x1_0000_0000, 4);
  }

  lemma Int64ReadsBack(x: i64)
    ensures ReadInt64(Int64(x)) == x
  {
    hide BigEndian, BigEndianValue, Pow256;
    Powers();
    BigEndianRoundTrip(x % TWO64, 8);
  }

  lemma U64ReadsBack(x: u64)
    ensures ReadUnsigned(Int64(x)) == x
  {
    hide BigEndian, BigEndianValue, Pow256;
    Powers();
    BigEndianRoundTrip(x, 8);
  }

  /** The layout as a reader sees it: the payload MAC ends at the first byte of the expiry time,
      which is zero, and the other seven bytes of the expiry time follow. */
  const LAYOUT: seq<Shape> :=
    [Width(4), Terminated, Width(8), Terminated, Terminated, Width(1), Width(1),
     Terminated, Width(4), Width(8), Terminated, Width(4),
     Terminated, Terminated, Terminated, Terminated, Terminated, Terminated, Terminated,
     Terminated, Width(7), Width(8)]

  predicate AllFit(v: seq<Bytes>) {
    |v| == 22 && forall i :: 0 <= i < 22 ==> Fits(LAYOUT[i], v[i])
  }

  function Interpret(v: seq<Bytes>, ticket: Bytes): Packet
    requires AllFit(v)
  {
    hide BigEndianValue;
    assert |v[0]| == 4 && |v[2]| == 8 && |v[8]| == 4 && |v[9]| == 8 && |v[11]| == 4 && |v[20]| == 7 && |v[21]| == 8 by {
      assert Fits(LAYOUT[0], v[0]) && Fits(LAYOUT[2], v[2]) && Fits(LAYOUT[8], v[8]) && Fits(LAYOUT[9], v[9]);
      assert Fits(LAYOUT[11], v[11]) && Fits(LAYOUT[20], v[20]) && Fits(LAYOUT[21], v[21]);
    }
    Packet(
      ReadInt32(v[0]), v[1], [], [], ReadInt64(v[2]), v[3], v[4],
      v[5] == [1], v[6] == [1], v[7], ReadInt32(v[8]), ReadUnsigned(v[9]), v[10],
      ReadInt32(v[11]), 0, v[12], v[13], v[14], v[15],
      v[16], 0, 0, v[19], [],
      v[17], v[18], ReadUnsigned(v[20]), ReadUnsigned(v[21]), ticket)
  }

  /** Reads a packet's signed fields back out of its sign material. */
  function ParseMaterial(m: Bytes): Option<Packet> {
    match CutAll(LAYOUT, m)
    case None => None
    case Some(r) => Some(Interpret(r.0, r.1))
  }

  // ---- The material determines the signed fields --------------------------------------------

  predicate IsInt32(x: int) { -0x8000_0000 <= x < 0x8000_0000 }

  /** What a packet must satisfy to be read back: text without zero bytes, `int`s that fit the 32 bits
      they are written in, and an expiry time from 0 to 2^56 - 1. */
  predicate WellFormed(p: Packet) {
    && IsInt32(p.version) && IsInt32(p.powDifficulty) && IsInt32(p.ttlMaxHops)
    && 0 <= p.expireAtUs < EXPIRY_LIMIT
    && 0 !in p.kind && 0 !in p.senderID && 0 !in p.targetID && 0 !in p.powAlgo && 0 !in p.powHash
    && 0 !in p.senderPubKey && 0 !in p.senderX25519 && 0 !in p.ephemeralX && 0 !in p.opkUsed && 0 !in p.keyBundle
    && 0 !in p.payloadNonce && 0 !in p.payloadCipher && 0 !in p.payloadMAC
  }

  /** The same bytes, seen as delimited fields only. */
  function ReaderFields(p: Packet): seq<Field> {
    DelimitedFields(p) + [Text(p.payloadMAC), Fixed(BigEndian(p.expireAtUs % EXPIRY_LIMIT, 7)), Fixed(Int64(p.mstBurn))]
  }

  lemma {:induction false} LeadingByte(n: nat, width: nat)
    requires n < Pow256(width)
    ensures BigEndian(n, width + 1) == [0] + BigEndian(n, width)
  {
    if width > 0 {
      LeadingByte(n / 256, width - 1);
    } else {
      assert BigEndian(0, 1) == [0];
    }
  }

  lemma JoinThree(f: Field, g: Field, h: Field)
    ensures Join([f, g, h]) == Written(f) + Written(g) + Written(h)
  {
    hide Written;
    assert [f, g, h][1..] == [g, h] && [g, h][1..] == [h];
    assert Join([h]) == Written(h);
    assert Join([g, h]) == Written(g) + Written(h);
  }

  lemma ExpiryWritten(e: int)
    requires 0 <= e < EXPIRY_LIMIT
    ensures Int64(e) == [0] + BigEndian(e % EXPIRY_LIMIT, 7)
  {
    hide BigEndian, Pow256;
    Powers();
    LeadingByte(e, 7);
  }

  lemma ReaderView(p: Packet)
    requires 0 <= p.expireAtUs < EXPIRY_LIMIT
    ensures SignMaterial(p) == Join(ReaderFields(p)) + p.burnTicket
  {
    hide DelimitedFields, Join, Int64, BigEndian;
    var mac, e, burn := p.payloadMAC, BigEndian(p.expireAtUs % EXPIRY_LIMIT, 7), Int64(p.mstBurn);
    JoinAppend(DelimitedFields(p), [Text(mac), Fixed(e), Fixed(burn)]);
    JoinThree(Text(mac), Fixed(e), Fixed(burn));
    ExpiryWritten(p.expireAtUs);
    var d := Join(DelimitedFields(p));
    assert d + mac + ([0] + e) + burn + p.burnTicket == d + (mac + [0] + e + burn) + p.burnTicket;
  }

  lemma ReaderShapes(p: Packet)
    ensures ShapesOf(ReaderFields(p)) == LAYOUT
  {
    hide Int64, Int32, Flag, BigEndian;
  }

  lemma ReaderDelimited(p: Packet)
    requires WellFormed(p)
    ensures forall f :: f in ReaderFields(p) ==> Delimited(f)
  {
    hide Int64, Int32, Flag, BigEndian;
  }

  /** The parser recovers every signed field of a packet exactly when the packet is well formed. */
  lemma ParserRecovers(p: Packet)
    ensures ParseMaterial(SignMaterial(p)) == Some(p.Signed()) <==> WellFormed(p)
  {
    hide SignMaterial, ReaderFields, Join, CutAll;
    if WellFormed(p) {
      ReaderView(p);
      ReaderDelimited(p);
      CutAllUndoesJoin(ReaderFields(p), p.burnTicket);
      ReaderShapes(p);
      InterpretReader(p);
    } else if ParseMaterial(SignMaterial(p)) == Some(p.Signed()) {
      var r := CutAll(LAYOUT, SignMaterial(p)).value;
      InterpretedIsWellFormed(r.0, r.1);
    }
  }

  lemma InterpretReader(p: Packet)
    requires WellFormed(p) && AllFit(ValuesOf(ReaderFields(p)))
    ensures Interpret(ValuesOf(ReaderFields(p)), p.burnTicket) == p.Signed()
  {
    hide Int64, Int32, Flag, BigEndian, ReadInt32, ReadInt64, ReadUnsigned;
    Int32ReadsBack(p.version);
    Int32ReadsBack(p.powDifficulty);
    Int32ReadsBack(p.ttlMaxHops);
    Int64ReadsBack(p.timestampUs);
    U64ReadsBack(p.powNonce);
    U64ReadsBack(p.mstBurn);
    ExpiryReadsBack(p.expireAtUs);
    var v := ValuesOf(ReaderFields(p));
    assert v[5] == Flag(p.broadcast) && v[6] == Flag(p.alert);
    FlagReadsBack(p.broadcast);
    FlagReadsBack(p.alert);
  }

  lemma FlagReadsBack(b: bool)
    ensures (Flag(b) == [1]) == b
  {
  }

  lemma ExpiryReadsBack(e: int)
    requires 0 <= e < EXPIRY_LIMIT
    ensures ReadUnsigned(BigEndian(e % EXPIRY_LIMIT, 7)) == e
  {
    hide BigEndian, BigEndianValue, Pow256;
    Powers();
    BigEndianRoundTrip(e, 7);
  }

  lemma InterpretedIsWellFormed(v: seq<Bytes>, ticket: Bytes)
    requires AllFit(v)
    ensures WellFormed(Interpret(v, ticket))
  {
    hide ReadInt32, ReadInt64, ReadUnsigned;
  }

  /** Two well-formed packets with the same sign material carry the same signed fields. */
  lemma MaterialUnique(p: Packet, q: Packet)
    requires WellFormed(p) && WellFormed(q) && SignMaterial(p) == SignMaterial(q)
    ensures p.Signed() == q.Signed()
  {
    hide SignMaterial, ParseMaterial, WellFormed;
    ParserRecovers(p);
    ParserRecovers(q);
  }

  // ---- The parser accepts nothing else ------------------------------------------------------

  function FieldsOf(shapes: seq<Shape>, v: seq<Bytes>): (f: seq<Field>)
    requires |shapes| == |v|
    ensures |f| == |v| && forall i :: 0 <= i < |v| ==> f[i] == if shapes[i].Terminated? then Text(v[i]) else Fixed(v[i])
  {
    seq(|v|, i requires 0 <= i < |v| => if shapes[i].Terminated? then Text(v[i]) else Fixed(v[i]))
  }

  lemma WrittenCut(shape: Shape, b: Bytes)
    ensures Cut(shape, b).Some? ==>
      var (v, rest) := Cut(shape, b).value;
      b == Written(if shape.Terminated? then Text(v) else Fixed(v)) + rest
  {
  }

  lemma {:induction false} JoinUndoesCutAll(shapes: seq<Shape>, b: Bytes)
    ensures CutAll(shapes, b).Some? ==>
      b == Join(FieldsOf(shapes, CutAll(shapes, b).value.0)) + CutAll(shapes, b).value.1
  {
    hide Cut, Written;
    if shapes != [] && CutAll(shapes, b).Some? {
      var head := Cut(shapes[0], b).value;
      WrittenCut(shapes[0], b);
      JoinUndoesCutAll(shapes[1..], head.1);
      var v := CutAll(shapes, b).value.0;
      assert v[1..] == CutAll(shapes[1..], head.1).value.0;
      assert FieldsOf(shapes, v)[1..] == FieldsOf(shapes[1..], v[1..]);
    }
  }

  lemma Int32WritesBack(b: Bytes)
    requires |b| == 4
    ensures Int32(ReadInt32(b)) == b
  {
    hide BigEndian, BigEndianValue;
    BigEndianOnto(b);
  }

  lemma Int64WritesBack(b: Bytes)
    requires |b| == 8
    ensures Int64(ReadInt64(b)) == b && Int64(ReadUnsigned(b)) == b
  {
    hide BigEndian, BigEndianValue;
    BigEndianOnto(b);
  }

  lemma ExpiryWritesBack(b: Bytes)
    requires |b| == 7
    ensures BigEndian(ReadUnsigned(b) % EXPIRY_LIMIT, 7) == b
  {
    hide BigEndian, BigEndianValue;
    BigEndianOnto(b);
  }

  predicate ProperFlag(b: Bytes) { b == [0] || b == [1] }

  lemma FieldsWriteBack(v: seq<Bytes>, ticket: Bytes)
    requires AllFit(v) && ProperFlag(v[5]) && ProperFlag(v[6])
    ensures ReaderFields(Interpret(v, ticket)) == FieldsOf(LAYOUT, v)
  {
    hide Int32, Int64, ReadInt32, ReadInt64, ReadUnsigned, BigEndian;
    assert Fits(LAYOUT[0], v[0]) && Fits(LAYOUT[2], v[2]) && Fits(LAYOUT[8], v[8]) && Fits(LAYOUT[9], v[9]);
    assert Fits(LAYOUT[11], v[11]) && Fits(LAYOUT[20], v[20]) && Fits(LAYOUT[21], v[21]);
    Int32WritesBack(v[0]);
    Int32WritesBack(v[8]);
    Int32WritesBack(v[11]);
    Int64WritesBack(v[2]);
    Int64WritesBack(v[9]);
    Int64WritesBack(v[21]);
    ExpiryWritesBack(v[20]);
  }

  /** The byte strings that are the sign material of a well-formed packet are exactly those that can be
      cut along the layout with both flags 0 or 1; the parser finds that packet. */
  lemma MaterialsAreParsed(m: Bytes)
    ensures (exists p :: WellFormed(p) && SignMaterial(p) == m) <==>
      && CutAll(LAYOUT, m).Some?
      && ProperFlag(CutAll(LAYOUT, m).value.0[5]) && ProperFlag(CutAll(LAYOUT, m).value.0[6])
  {
    hide SignMaterial, WellFormed, ReaderFields, CutAll, Interpret;
    if CutAll(LAYOUT, m).Some? && ProperFlag(CutAll(LAYOUT, m).value.0[5]) && ProperFlag(CutAll(LAYOUT, m).value.0[6]) {
      var r := CutAll(LAYOUT, m).value;
      var q := Interpret(r.0, r.1);
      JoinUndoesCutAll(LAYOUT, m);
      FieldsWriteBack(r.0, r.1);
      InterpretedIsWellFormed(r.0, r.1);
      InterpretedTail(r.0, r.1);
      ReaderView(q);
      assert WellFormed(q) && SignMaterial(q) == m;
    }
    forall p | WellFormed(p) && SignMaterial(p) == m
      ensures CutAll(LAYOUT, m).Some?
      ensures ProperFlag(CutAll(LAYOUT, m).value.0[5]) && ProperFlag(CutAll(LAYOUT, m).value.0[6])
    {
      CutOfMaterial(p);
    }
  }

  lemma InterpretedTail(v: seq<Bytes>, ticket: Bytes)
    requires AllFit(v)
    ensures Interpret(v, ticket).burnTicket == ticket && 0 <= Interpret(v, ticket).expireAtUs < EXPIRY_LIMIT
  {
    hide ReadInt32, ReadInt64, ReadUnsigned;
    assert Fits(LAYOUT[20], v[20]);
  }

  lemma CutOfMaterial(p: Packet)
    requires WellFormed(p)
    ensures CutAll(LAYOUT, SignMaterial(p)) == Some((ValuesOf(ReaderFields(p)), p.burnTicket))
    ensures var v := ValuesOf(ReaderFields(p)); |v| == |LAYOUT| && ProperFlag(v[5]) && ProperFlag(v[6])
  {
    hide SignMaterial, Join, CutAll;
    ReaderView(p);
    ReaderDelimited(p);
    ReaderShapes(p);
    CutAllUndoesJoin(ReaderFields(p), p.burnTicket);
    hide Int32, Int64, BigEndian;
    var v := ValuesOf(ReaderFields(p));
    assert v[5] == Flag(p.broadcast) && v[6] == Flag(p.alert);
  }

  /** Without the bound on the expiry time the material is ambiguous: these two packets differ in MAC,
      expiry time, burn and ticket, and are signed by the same bytes. */
  lemma AmbiguousBeyondLimit(base: Packet)
    ensures var p := base.(payloadMAC := [], expireAtUs := EXPIRY_LIMIT, mstBurn := 0, burnTicket := [5]);
      var q := base.(payloadMAC := [1], expireAtUs := 0, mstBurn := 5, burnTicket := []);
      SignMaterial(p) == SignMaterial(q) && p.Signed() != q.Signed()
  {
    hide Join, BigEndian;
    var p := base.(payloadMAC := [], expireAtUs := EXPIRY_LIMIT, mstBurn := 0, burnTicket := [5]);
    var q := base.(payloadMAC := [1], expireAtUs := 0, mstBurn := 5, burnTicket := []);
    var d := Join(DelimitedFields(base));
    assert DelimitedFields(p) == DelimitedFields(base) == DelimitedFields(q);
    SmallWords();
    assert d + [] + [1, 0, 0, 0, 0, 0, 0, 0] + [0, 0, 0, 0, 0, 0, 0, 0] + [5]
        == d + [1] + [0, 0, 0, 0, 0, 0, 0, 0] + [0, 0, 0, 0, 0, 0, 0, 5] + [];
  }

  lemma SmallWords()
    ensures Int64(EXPIRY_LIMIT) == [1, 0, 0, 0, 0, 0, 0, 0]
    ensures Int64(0) == [0, 0, 0, 0, 0, 0, 0, 0]
    ensures Int64(5) == [0, 0, 0, 0, 0, 0, 0, 5]
  {
    hide BigEndian;
    Digits(1, 0); Digits(0x100, 1); Digits(0x1_0000, 2); Digits(0x100_0000, 3); Digits(0x1_0000_0000, 4);
    Digits(0x100_0000_0000, 5); Digits(0x1_0000_0000_0000, 6); Digits(EXPIRY_LIMIT, 7);
    Digits(0, 0); Digits(0, 1); Digits(0, 2); Digits(0, 3); Digits(0, 4); Digits(0, 5); Digits(0, 6); Digits(0, 7);
    Digits(5, 7);
  }

  lemma Digits(n: nat, width: nat)
    ensures BigEndian(n, width + 1) == BigEndian(n / 256, width) + [n % 256]
    ensures BigEndian(n, 0) == []
  {
  }

  /** The base a proof of work is mined over fixes everything signed but the proof itself. */
  lemma WorkMaterialUnique(p: Packet, q: Packet)
    requires WellFormed(p) && WellFormed(q) && PoWMaterial(p) == PoWMaterial(q)
    ensures p.Signed() == q.Signed().(powNonce := p.powNonce, powHash := p.powHash)
  {
    hide SignMaterial;
    MaterialUnique(p.(powNonce := 0, powHash := [], signature := [], sha1 := [], sha512 := []),
                   q.(powNonce := 0, powHash := [], signature := [], sha1 := [], sha512 := []));
  }

  /** The hashed body is material and signature without a separator: equal bodies mean equal packets, but
      for where the burn ticket ends and the signature begins. */
  lemma HashBodyUnique(p: Packet, q: Packet)
    requires WellFormed(p) && WellFormed(q)
    ensures HashBody(p) == HashBody(q) <==>
      && p.Signed().(burnTicket := []) == q.Signed().(burnTicket := [])
      && p.burnTicket + p.signature == q.burnTicket + q.signature
    ensures HashBody(p) == HashBody(q) ==>
      ((p.Signed() == q.Signed() && p.signature == q.signature) <==> |p.signature| == |q.signature|)
  {
    hide Join, Int64, DelimitedFields;
    var p', q' := p.(burnTicket := p.burnTicket + p.signature), q.(burnTicket := q.burnTicket + q.signature);
    BodyAsMaterial(p);
    BodyAsMaterial(q);
    if HashBody(p) == HashBody(q) {
      MaterialUnique(p', q');
      assert p'.Signed() == q'.Signed();
      if |p.signature| == |q.signature| {
        var n := |p.burnTicket|;
        assert p.burnTicket == p'.burnTicket[..n] && q.burnTicket == q'.burnTicket[..n];
        assert p.signature == p'.burnTicket[n..] && q.signature == q'.burnTicket[n..];
      }
    }
    if p'.Signed() == q'.Signed() {
      MaterialIgnores(p', q');
    }
  }

  /** A body reads like the material of a packet whose ticket runs on into the signature. */
  lemma BodyAsMaterial(p: Packet)
    ensures HashBody(p) == SignMaterial(p.(burnTicket := p.burnTicket + p.signature))
  {
    hide Join, Int64;
    var d := Join(DelimitedFields(p)) + p.payloadMAC + Int64(p.expireAtUs) + Int64(p.mstBurn);
    assert DelimitedFields(p.(burnTicket := p.burnTicket + p.signature)) == DelimitedFields(p);
    assert (d + p.burnTicket) + p.signature == d + (p.burnTicket + p.signature);
  }

  // ---- Signing and checking -----------------------------------------------------------------

  datatype PacketError =
    | UnsupportedVersion | HopLimit | BadSenderKey | BadSignatureText | BadSignature | HashMismatch
    | SenderMismatch | ClockSkew | PacketExpired

  function WithHashes(c: Primitives, p: Packet): Packet {
    p.(sha1 := Hex(c.sha1(HashBody(p))), sha512 := Hex(c.sha512(HashBody(p))))
  }

  function Sign(c: Primitives, p: Packet, priv: Bytes): Packet {
    WithHashes(c, p.(signature := c.base64(c.edSign(priv, SignMaterial(p)))))
  }

  /** time.Sub saturates, and negating the least Duration leaves it negative (packet.go:207-215). */
  function Skew(nowNs: i64, timestampUs: i64): i64 {
    var d := nowNs - timestampUs * 1000;
    var s := if d < -TWO63 then -TWO63 else if d >= TWO63 then TWO63 - 1 else d;
    if s < 0 then WrapSigned(-s) else s
  }

  predicate IsExpired(p: Packet, nowNs: i64) { p.expireAtUs > 0 && nowNs / 1000 > p.expireAtUs }

  function Verify(c: Primitives, p: Packet, nowNs: i64, checkClock: bool): Option<PacketError> {
    if p.version != PACKET_VERSION && p.version != 1 then Some(UnsupportedVersion)
    else if p.hops > p.ttlMaxHops then Some(HopLimit)
    else match DecodeKey(c, p.senderPubKey)
    case None => Some(BadSenderKey)
    case Some(pub) =>
      match c.base64Decode(p.signature)
      case None => Some(BadSignatureText)
      case Some(sig) =>
        if !c.edVerify(pub, SignMaterial(p), sig) then Some(BadSignature)
        else if WithHashes(c, p) != p then Some(HashMismatch)
        else if c.nodeID(pub) != p.senderID then Some(SenderMismatch)
        else if checkClock && Skew(nowNs, p.timestampUs) > TIME_SKEW_MAX_NS then Some(ClockSkew)
        else if IsExpired(p, nowNs) then Some(PacketExpired)
        else None
  }

  /** The clock check admits the half-second window, and also every timestamp so far in the future
      (2^63 ns, some 292 years) that the subtraction saturates. */
  lemma ClockWindow(nowNs: i64, timestampUs: i64)
    ensures Skew(nowNs, timestampUs) <= TIME_SKEW_MAX_NS <==>
      var d := nowNs - timestampUs * 1000;
      -TIME_SKEW_MAX_NS <= d <= TIME_SKEW_MAX_NS || d <= -TWO63
  {
  }

  /** Such a timestamp. */
  lemma FarFutureAdmitted()
    ensures Skew(0, 9_223_372_036_854_776) <= TIME_SKEW_MAX_NS
  {
  }

  /** Everything a packet is checked for, on its own fields: version, hops, a 32-byte key that the sender's
      id is derived from, a good signature of the material, both hashes over material and signature, the
      clock where it is checked, and the expiry time where there is one. */
  lemma VerifyIff(c: Primitives, p: Packet, nowNs: i64, checkClock: bool)
    ensures Verify(c, p, nowNs, checkClock).None? <==>
      && (p.version == 1 || p.version == 2) && p.hops <= p.ttlMaxHops
      && (exists pub, sig ::
            && c.base64Decode(p.senderPubKey) == Some(pub) && |pub| == 32 && c.nodeID(pub) == p.senderID
            && c.base64Decode(p.signature) == Some(sig) && c.edVerify(pub, SignMaterial(p), sig))
      && p.sha1 == Hex(c.sha1(SignMaterial(p) + p.signature))
      && p.sha512 == Hex(c.sha512(SignMaterial(p) + p.signature))
      && (checkClock ==> var d := nowNs - p.timestampUs * 1000; -500_000_000 <= d <= 500_000_000 || d <= -TWO63)
      && (p.expireAtUs <= 0 || nowNs / 1000 <= p.expireAtUs)
  {
    hide SignMaterial, Hex, Skew;
    ClockWindow(nowNs, p.timestampUs);
  }

  /** A packet signed by its own sender verifies exactly as long as its version is known, its hops are
      within its limit, its clock is in the window and it has not expired. */
  lemma SignedVerifies(c: Primitives, p: Packet, priv: Bytes, nowNs: i64, checkClock: bool)
    requires Sound(c) && p.senderPubKey == c.base64(c.edPublic(priv)) && p.senderID == c.nodeID(c.edPublic(priv))
    ensures Verify(c, Sign(c, p, priv), nowNs, checkClock).None? <==>
      && (p.version == 2 || p.version == 1) && p.hops <= p.ttlMaxHops
      && (p.expireAtUs <= 0 || nowNs / 1000 <= p.expireAtUs)
      && (checkClock ==> Skew(nowNs, p.timestampUs) <= TIME_SKEW_MAX_NS)
  {
    hide Skew;
    var s := Sign(c, p, priv);
    MaterialIgnores(s, p);
    MaterialIgnores(s, p.(signature := s.signature));
    assert c.base64Decode(s.senderPubKey) == Some(c.edPublic(priv)) && |c.edPublic(priv)| == 32;
    assert c.base64Decode(s.signature) == Some(c.edSign(priv, SignMaterial(p)));
  }

  lemma MaterialIgnores(p: Packet, q: Packet)
    requires p.Signed() == q.Signed()
    ensures SignMaterial(p) == SignMaterial(q) && PoWMaterial(p) == PoWMaterial(q)
  {
  }

  /** A node changes nothing but the hop count of a packet it forwards: identity, mining base and,
      up to the hop limit, the verdict stay what they were. */
  lemma ForwardingKeeps(c: Primitives, p: Packet, hops: i64, nowNs: i64, checkClock: bool)
    requires p.hops <= p.ttlMaxHops && hops <= p.ttlMaxHops
    ensures var q := p.(hops := hops);
      && q.Key() == p.Key() && SignMaterial(q) == SignMaterial(p) && PoWMaterial(q) == PoWMaterial(p)
      && HashBody(q) == HashBody(p)
      && Verify(c, q, nowNs, checkClock) == Verify(c, p, nowNs, checkClock)
  {
    hide Skew, SignMaterial;
    var q := p.(hops := hops);
    MaterialIgnores(p, q);
    assert WithHashes(c, q) == WithHashes(c, p).(hops := hops);
  }

  // ---- Packet identity ----------------------------------------------------------------------

  lemma {:induction false} HexHasNoBar(b: Bytes)
    ensures Rings.BAR !in Hex(b)
  {
    if b != [] {
      HexHasNoBar(b[1..]);
    }
  }

  /** Two verified packets that the duplicate filter takes for the same are the same, up to what no
      signature covers -- hops, clock sample and difficulty hint -- and to where the burn ticket ends and
      the signature begins; with signatures of the same length there is no such doubt. */
  lemma SameKeySamePacket(c: Primitives, p: Packet, q: Packet, t: i64, u: i64, check: bool)
    requires Verify(c, p, t, check).None? && Verify(c, q, u, check).None? && WellFormed(p) && WellFormed(q)
    requires c.sha512(HashBody(p)) == c.sha512(HashBody(q)) ==> HashBody(p) == HashBody(q)
    requires Rings.Composite(p.Key()) == Rings.Composite(q.Key())
    ensures p.burnTicket + p.signature == q.burnTicket + q.signature
    ensures var same := p.(hops := q.hops, clockSampleUs := q.clockSampleUs, diffHintBits := q.diffHintBits);
      && q == same.(burnTicket := q.burnTicket, signature := q.signature)
      && (q == same <==> |p.signature| == |q.signature|)
  {
    hide Hex, HashBody, WellFormed, Skew, Rings.Composite;
    HexHasNoBar(c.sha1(HashBody(p)));
    HexHasNoBar(c.sha1(HashBody(q)));
    assert WithHashes(c, p) == p && WithHashes(c, q) == q;
    Rings.CompositeInjective(p.Key(), q.Key());
    HexInjective(c.sha512(HashBody(p)), c.sha512(HashBody(q)));
    HashBodyUnique(p, q);
  }
}
