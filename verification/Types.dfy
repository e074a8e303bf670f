/** Constants, entities and the primitives the ledger rests on (internal/chain/types.go). */
module Types {
  import opened Base

  // ---- Constants (types.go:14-77) -----------------------------------------------------------

  const PROTOCOL_VERSION: i32 := 3
  const SLOT_NS: int := 600_000_000_000
  const SECOND_NS: int := 1_000_000_000
  const NETWORK_GENESIS_NS: int := 1_783_900_800_000_000_000
  const BOOTSTRAP_SLOTS: u64 := 32
  const MIN_STAKE: u64 := 50
  const MINER_REWARD_POOL: u64 := 4_200_000
  const GENESIS_SUPPLY: u64 := 4_200_000
  const HALVING_INTERVAL: u64 := 210_240
  const MAX_BLOCK_BYTES: nat := 1_048_576
  const FEE_TRANSFER: u64 := 1
  const FEE_REGISTER: u64 := 1
  const FEE_STAKE: u64 := 1
  const FEE_UNSTAKE: u64 := 1
  const FEE_BURN_BASE: u64 := 1
  const CHAIN_ID: Bytes := Ascii("msp-mainnet-2")
  const NETWORK_NAME: Bytes := Ascii("mainnet")
  const NETWORK_GENESIS_ID: Bytes := Ascii("network-genesis")
  const GENESIS_LABEL: Bytes := Ascii("genesis")
  const MSG_DIRECT: Bytes := Ascii("direct")
  const MSG_DTN: Bytes := Ascii("dtn")
  const MSG_BROADCAST: Bytes := Ascii("broadcast")
  const MSG_ALERT: Bytes := Ascii("alert")
  const ZERO_HASH: Bytes := Ascii("0000000000000000000000000000000000000000000000000000000000000000")

  // ---- Entities -----------------------------------------------------------------------------

  datatype TxKind =
    | Transfer | Burn | Register | Stake | Unstake | Activate
    | InitAlert | NetworkParams | Coinbase | GenesisClaim | OtherKind(name: Bytes)

  /** The signed part of a transaction. */
  datatype TxCore = TxCore(kind: TxKind, sender: Bytes, senderPub: Bytes, nonce: u64, fee: u64, data: Bytes)

  datatype Transaction = Transaction(
    kind: TxKind, sender: Bytes, senderPub: Bytes, nonce: u64, fee: u64, data: Bytes, signature: Bytes)
  {
    function Core(): TxCore { TxCore(kind, sender, senderPub, nonce, fee, data) }
  }

  datatype TransferData = TransferData(to: Bytes, amount: u64)
  datatype BurnData = BurnData(msgType: Bytes, refHash: Bytes, timestamp: i64, amount: u64)
  datatype RegisterData = RegisterData(ed25519Pub: Bytes, x25519Pub: Bytes)
  datatype CoinbaseData = CoinbaseData(amount: u64, height: u64, slot: u64)
  datatype AmountData = AmountData(amount: u64)
  datatype ActivateData = ActivateData(ed25519Pub: Bytes)
  datatype ParamsData = ParamsData(chainId: Bytes, name: Bytes, freeClaim: bool)

  datatype Account = Account(
    nodeID: Bytes, balance: u64, stake: u64, nonce: u64, burned: u64, regHeight: u64,
    ed25519Pub: Bytes, x25519Pub: Bytes, active: bool)

  function Blank(id: Bytes): Account { Account(id, 0, 0, 0, 0, 0, [], [], false) }

  /** The ten header fields covered by the header hash (types.go:100-117). */
  datatype HeaderCore = HeaderCore(
    version: i32, prevBlock: Bytes, merkleRoot: Bytes, stateRoot: Bytes, timestamp: i64,
    height: u64, slot: u64, proposer: Bytes, proposerPub: Bytes, txCount: u32)

  /** The always-empty difficulty and nonce of the wire header are dropped. */
  datatype Header = Header(
    version: i32, prevBlock: Bytes, merkleRoot: Bytes, stateRoot: Bytes, timestamp: i64,
    height: u64, slot: u64, proposer: Bytes, proposerPub: Bytes, txCount: u32,
    proposerSig: Bytes, powHash: Bytes, minerID: Bytes)
  {
    function Core(): HeaderCore {
      HeaderCore(version, prevBlock, merkleRoot, stateRoot, timestamp, height, slot, proposer, proposerPub, txCount)
    }
  }

  datatype Block = Block(header: Header, txs: seq<Transaction>)

  datatype Identity = Identity(nodeID: Bytes, edPub: Bytes, priv: Bytes)

  /** The signed part of a burn ticket (ticket.go:35-51). */
  datatype TicketCore = TicketCore(
    burnTxHash: Bytes, msgType: Bytes, refHash: Bytes, amount: u64, nonce: u64, timestamp: i64,
    minerID: Bytes, minerPub: Bytes, blockHint: u64)

  datatype BurnTicket = BurnTicket(core: TicketCore, minerSig: Bytes)

  datatype TxError =
    | InvalidSig | Insufficient | BadNonce | ClaimDisabled | UnknownTx | Malformed
    | ParamsHeight | ParamsMismatch | FreeClaimSet | CoinbaseAmount | CoinbaseHeight
    | MissingRefHash | AmountRequired | AmountTooLarge | AmountOverflow | BelowMinStake

  datatype BlockError =
    | BlockTooLarge | BadMerkle | BadHeight | BadPrev | BadSlot | BadProposer | BadCoinbase
    | BadState | BadGenesis | TxFailed(index: nat, error: TxError)

  // ---- Primitives ---------------------------------------------------------------------------

  /** Hashing, signatures and JSON, as functions about which nothing is known. What a theorem needs
      of them it takes as a hypothesis: `Sound`, `JsonInjective`, `NoCollision`. */
  datatype Primitives = Primitives(
    sha256: Bytes -> Digest,
    sha1: Bytes -> Bytes,
    sha512: Bytes -> Bytes,
    nodeID: Bytes -> Bytes,
    base64: Bytes -> Bytes,
    base64Decode: Bytes -> Option<Bytes>,
    edPublic: Bytes -> Bytes,
    edSign: (Bytes, Bytes) -> Bytes,
    edVerify: (Bytes, Bytes, Bytes) -> bool,
    headerJson: HeaderCore -> Bytes,
    accountJson: Account -> Bytes,
    txJson: TxCore -> Bytes,
    ticketJson: TicketCore -> Bytes,
    parseTicket: Bytes -> Option<BurnTicket>,
    blockSize: Block -> nat,
    alertKeyData: Bytes,
    encodeCoinbase: CoinbaseData -> Bytes,
    encodeActivate: ActivateData -> Bytes,
    encodeParams: ParamsData -> Bytes,
    decodeTransfer: Bytes -> Option<TransferData>,
    decodeBurn: Bytes -> Option<BurnData>,
    decodeRegister: Bytes -> Option<RegisterData>,
    decodeCoinbase: Bytes -> Option<CoinbaseData>,
    decodeAmount: Bytes -> Option<AmountData>,
    decodeActivate: Bytes -> Option<ActivateData>,
    decodeParams: Bytes -> Option<ParamsData>)

  /** Decoding undoes encoding, and a signature verifies under its own key. */
  ghost predicate Sound(p: Primitives) {
    && (forall d :: p.decodeCoinbase(p.encodeCoinbase(d)) == Some(d))
    && (forall d :: p.decodeActivate(p.encodeActivate(d)) == Some(d))
    && (forall d :: p.decodeParams(p.encodeParams(d)) == Some(d))
    && (forall b :: p.base64Decode(p.base64(b)) == Some(b))
    && (forall b :: p.base64(b) == [] ==> b == [])
    && (forall k :: |p.edPublic(k)| == 32)
    && (forall k, m :: |p.edSign(k, m)| == 64 && p.edVerify(p.edPublic(k), m, p.edSign(k, m)))
  }

  ghost predicate JsonInjective(p: Primitives) {
    && (forall a, b :: p.headerJson(a) == p.headerJson(b) ==> a == b)
    && (forall a, b :: p.accountJson(a) == p.accountJson(b) ==> a == b)
  }

  /** An identity whose node id and public key are those of its private key (identity.go:80-93). */
  ghost predicate GoodIdentity(p: Primitives, id: Identity) {
    && id.edPub == p.base64(p.edPublic(id.priv))
    && id.nodeID == p.nodeID(p.edPublic(id.priv))
    && id.nodeID != []
  }

  // ---- Hashes and signatures ----------------------------------------------------------------

  function HashHex(p: Primitives, h: Header): Bytes { Hex(p.sha256(p.headerJson(h.Core()))) }

  /** The bytes a transaction id hashes: the signed part, directly followed by the signature. */
  function TxText(p: Primitives, tx: Transaction): Bytes { p.txJson(tx.Core()) + tx.signature }

  function TxID(p: Primitives, tx: Transaction): Bytes { Hex(p.sha256(TxText(p, tx))) }

  /** A JSON object ends where it ends, so it can be told apart from what follows it. */
  ghost predicate TxTextInjective(p: Primitives) {
    forall a, b, x, y :: p.txJson(a) + x == p.txJson(b) + y ==> a == b && x == y
  }

  /** Transactions with the same id are the same, unless their texts collide. */
  lemma SameIdSameTx(s: set<Bytes>, p: Primitives, t: Transaction, u: Transaction)
    requires TxTextInjective(p) && NoCollision(p.sha256, s) && TxText(p, t) in s && TxText(p, u) in s
    requires TxID(p, t) == TxID(p, u)
    ensures t == u
  {
    HexInjective(p.sha256(TxText(p, t)), p.sha256(TxText(p, u)));
    assert p.txJson(t.Core()) + t.signature == p.txJson(u.Core()) + u.signature;
  }

  /** A base64 Ed25519 public key, as every signature check decodes it. */
  function DecodeKey(p: Primitives, s: Bytes): (r: Option<Bytes>)
    ensures r.Some? ==> |r.value| == 32
  {
    match p.base64Decode(s)
    case None => None
    case Some(k) => if |k| == 32 then Some(k) else None
  }

  /** Transaction.Verify: the signature is good and the sender is the signer (types.go:174-194). */
  predicate TxVerifies(p: Primitives, tx: Transaction) {
    tx.kind.InitAlert? || tx.kind.Coinbase? || tx.kind.NetworkParams? ||
    (match DecodeKey(p, tx.senderPub)
     case None => false
     case Some(pub) =>
       p.nodeID(pub) == tx.sender &&
       match p.base64Decode(tx.signature)
       case None => false
       case Some(sig) => p.edVerify(pub, p.txJson(tx.Core()), sig))
  }

  /** The sender's id is derived from the 32-byte key that the transaction carries, and the signature
      over its six signed fields is good under that key. */
  ghost predicate SignedBySender(p: Primitives, tx: Transaction) {
    exists pub, sig ::
      && p.base64Decode(tx.senderPub) == Some(pub) && |pub| == 32 && p.nodeID(pub) == tx.sender
      && p.base64Decode(tx.signature) == Some(sig)
      && p.edVerify(pub, p.txJson(TxCore(tx.kind, tx.sender, tx.senderPub, tx.nonce, tx.fee, tx.data)), sig)
  }

  /** Alerts, coinbases and network parameters need no signature; everything else needs its sender's. */
  lemma VerifiesIff(p: Primitives, tx: Transaction)
    ensures TxVerifies(p, tx) <==>
      tx.kind.InitAlert? || tx.kind.Coinbase? || tx.kind.NetworkParams? || SignedBySender(p, tx)
  {
  }

  // ---- Rewards, burns and slots -------------------------------------------------------------

  /** Fifty, halved (rounding down) once for every completed interval, four intervals in all. */
  function BlockReward(height: u64): (r: u64) {
    if height == 0 || (height - 1) / HALVING_INTERVAL >= 4 then 0
    else [50, 25, 12, 6][(height - 1) / HALVING_INTERVAL]
  }

  /** Nothing for genesis, 50 for the first 210,240 blocks, half of what it was an interval earlier until
      four intervals are over, and nothing from then on. */
  lemma RewardSchedule(height: u64)
    ensures height == 0 || height > 840_960 ==> BlockReward(height) == 0
    ensures 0 < height <= 210_240 ==> BlockReward(height) == 50
    ensures 210_240 < height <= 840_960 ==> BlockReward(height) == BlockReward(height - 210_240) / 2
  {
  }

  /** The halving loop of types.go:284-297. */
  method ComputeBlockReward(height: u64) returns (base: u64)
    ensures base == BlockReward(height)
  {
    if height == 0 { return 0; }
    var halvings := (height - 1) / HALVING_INTERVAL;
    if halvings >= 4 { return 0; }
    base := 50;
    var i := 0;
    while i < halvings
      invariant 0 <= i <= halvings < 4
      invariant base == [50, 25, 12, 6][i]
    {
      base := base / 2;
      i := i + 1;
    }
  }

  function BurnAmountForMsgType(msgType: Bytes): u64 {
    if msgType == MSG_DIRECT then 2
    else if msgType == MSG_DTN then 10
    else if msgType == MSG_BROADCAST then 5
    else if msgType == MSG_ALERT then 20
    else 10
  }

  /** The prices by message type; an unknown type costs what a delay-tolerant message costs. */
  lemma BurnPrices(msgType: Bytes)
    ensures BurnAmountForMsgType(Ascii("direct")) == 2 && BurnAmountForMsgType(Ascii("dtn")) == 10
    ensures BurnAmountForMsgType(Ascii("broadcast")) == 5 && BurnAmountForMsgType(Ascii("alert")) == 20
    ensures msgType !in [Ascii("direct"), Ascii("dtn"), Ascii("broadcast"), Ascii("alert")] ==>
      BurnAmountForMsgType(msgType) == 10
  {
    assert |MSG_DIRECT| == 6 && |MSG_DTN| == 3 && |MSG_BROADCAST| == 9 && |MSG_ALERT| == 5;
  }

  /** Slot of an instant given in nanoseconds; time.Sub saturates (types.go:322-327). */
  function SlotAtTime(t: int): u64 {
    if t < NETWORK_GENESIS_NS then 0
    else Min(t - NETWORK_GENESIS_NS, TWO63 - 1) / SLOT_NS
  }

  /** Start of a slot; the conversion and the product wrap as time.Duration does (types.go:330-332). */
  function SlotStartTime(slot: u64): int {
    NETWORK_GENESIS_NS + WrapSigned(WrapSigned(slot) * SLOT_NS)
  }

  /** Slots are ten minutes long and counted from genesis; instants before it are in slot 0, and those
      292 years after it in the last slot that a Duration reaches. */
  lemma SlotsFromGenesis(t: int, slot: nat)
    ensures NETWORK_GENESIS_NS <= t < NETWORK_GENESIS_NS + TWO63 ==>
      (SlotAtTime(t) == slot <==>
        NETWORK_GENESIS_NS + 600_000_000_000 * slot <= t < NETWORK_GENESIS_NS + 600_000_000_000 * (slot + 1))
    ensures t < NETWORK_GENESIS_NS ==> SlotAtTime(t) == 0
    ensures t >= NETWORK_GENESIS_NS + TWO63 ==> SlotAtTime(t) == 15_372_286
    ensures slot <= 15_372_286 ==> SlotStartTime(slot) == NETWORK_GENESIS_NS + 600_000_000_000 * slot
  {
  }

  /** The slot of an instant starts at or before it and ends after it, as long as the offset from
      genesis fits a Duration. */
  lemma SlotContainsTime(t: int)
    requires NETWORK_GENESIS_NS <= t < NETWORK_GENESIS_NS + TWO63
    ensures SlotStartTime(SlotAtTime(t)) <= t < SlotStartTime(SlotAtTime(t)) + SLOT_NS
  {
    var d := t - NETWORK_GENESIS_NS;
    assert d == (d / SLOT_NS) * SLOT_NS + d % SLOT_NS;
  }
}
