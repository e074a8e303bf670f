/** Burn tickets: issued for a burn before it is confirmed, checked by the receiver of the message
    (internal/chain/ticket.go). */
module Tickets {
  import opened Base
  import opened Types
  import opened Ledgers

  const BURN_TICKET_TTL_NS: int := 86_400_000_000_000
  const MINUTE_NS: int := 60_000_000_000

  datatype TicketError = NotABurn | BadData | BadMinerSig | Expired | RefHashMismatch | InsufficientBurn | TxNotFound

  // ---- Issuing ------------------------------------------------------------------------------

  /** Burn amount plus fee, added with wrap-around (ticket.go:115-122). */
  function TicketAmount(d: BurnData, fee: u64): u64 {
    var amount := Add64(BurnAmount(d), fee);
    if fee == 0 then Add64(amount, FEE_BURN_BASE) else amount
  }

  function SignTicket(p: Primitives, core: TicketCore, priv: Bytes): BurnTicket {
    var c := core.(minerPub := p.base64(p.edPublic(priv)));
    BurnTicket(c, p.base64(p.edSign(priv, p.ticketJson(c))))
  }

  function TicketFor(p: Primitives, tx: Transaction, d: BurnData, minerID: Bytes, hint: u64, nonce: u64, nowUs: i64)
    : TicketCore
  {
    TicketCore(TxID(p, tx), d.msgType, d.refHash, TicketAmount(d, tx.fee), nonce, nowUs, minerID, [], hint)
  }

  /** A ticket for a burn transaction; nonce and time are inputs. */
  function IssueBurnTicket(p: Primitives, tx: Transaction, minerID: Bytes, priv: Bytes, hint: u64, nonce: u64,
                           nowUs: i64)
    : Option<BurnTicket>
  {
    if tx.kind != Burn then None else
    match p.decodeBurn(tx.data)
    case None => None
    case Some(d) =>
      Some(SignTicket(p, TicketFor(p, tx, d, minerID, hint, nonce, nowUs), priv))
  }

  /** What is on a ticket, field by field: the id, kind and reference of the burn, what it costs its sender,
      the given nonce, time and block, the issuer and its key, and a signature of all that with that key. */
  lemma TicketFields(p: Primitives, tx: Transaction, minerID: Bytes, priv: Bytes, hint: u64, nonce: u64, nowUs: i64)
    ensures IssueBurnTicket(p, tx, minerID, priv, hint, nonce, nowUs).Some? <==>
      tx.kind.Burn? && p.decodeBurn(tx.data).Some?
    ensures tx.kind.Burn? && p.decodeBurn(tx.data).Some? ==>
      var t, d := IssueBurnTicket(p, tx, minerID, priv, hint, nonce, nowUs).value, p.decodeBurn(tx.data).value;
      var price := if d.amount == 0 then BurnAmountForMsgType(d.msgType) else d.amount;
      var cost := Add64(price, if tx.fee == 0 then 1 else tx.fee);
      var pub := p.base64(p.edPublic(priv));
      && t.core == TicketCore(TxID(p, tx), d.msgType, d.refHash, cost, nonce, nowUs, minerID, pub, hint)
      && t.minerSig == p.base64(p.edSign(priv, p.ticketJson(t.core)))
  {
    hide TxID, BurnAmountForMsgType;
  }

  /** The amount on a ticket is the debit the burn makes when it is applied, to the unit. */
  lemma TicketMatchesDebit(p: Primitives, l: Ledger, tx: Transaction, height: u64,
                           minerID: Bytes, priv: Bytes, hint: u64, nonce: u64, nowUs: i64)
    requires tx.kind.Burn? && ApplyTx(p, l, tx, height).err.None?
    ensures IssueBurnTicket(p, tx, minerID, priv, hint, nonce, nowUs).Some?
    ensures var t := IssueBurnTicket(p, tx, minerID, priv, hint, nonce, nowUs).value;
      var after := ApplyTx(p, l, tx, height).ledger;
      && Get(l, tx.sender).balance - Get(after, tx.sender).balance == t.core.amount
      && t.core.burnTxHash in after.burns
  {
    hide TxVerifies, TxID, SignTicket, BurnAmountForMsgType;
    var d := p.decodeBurn(tx.data).value;
    var step := BurnStep(Get(l, tx.sender), BurnAmount(d), FeeOr(tx.fee, FEE_BURN_BASE));
    assert step.Charge? && step.fee == FeeOr(tx.fee, FEE_BURN_BASE);
    assert Settle(l, tx, step).err.None?;
    SignTicketKeeps(p, TicketFor(p, tx, d, minerID, hint, nonce, nowUs), priv);
  }

  lemma SignTicketKeeps(p: Primitives, core: TicketCore, priv: Bytes)
    ensures SignTicket(p, core, priv).core == core.(minerPub := p.base64(p.edPublic(priv)))
  {
  }

  // ---- Checking -----------------------------------------------------------------------------

  predicate TicketSigned(p: Primitives, t: BurnTicket) {
    match DecodeKey(p, t.core.minerPub)
    case None => false
    case Some(pub) =>
      match p.base64Decode(t.minerSig)
      case None => false
      case Some(sig) => p.edVerify(pub, p.ticketJson(t.core), sig)
  }

  /** More than a day old, more than a minute ahead, or without a timestamp. */
  predicate IsExpired(t: BurnTicket, now: int) {
    t.core.timestamp == 0
    || now - t.core.timestamp * 1000 > BURN_TICKET_TTL_NS
    || t.core.timestamp * 1000 > now + MINUTE_NS
  }

  function RefHashPayloadCipher(p: Primitives, payload: Bytes): Bytes {
    match p.base64Decode(payload)
    case None => Hex(p.sha256(payload))
    case Some(raw) => Hex(p.sha256(raw))
  }

  /** The reference hash may be of the decoded payload, of its text, or the text itself. */
  predicate RefMatches(p: Primitives, ref: Bytes, payload: Bytes) {
    payload == [] || ref == RefHashPayloadCipher(p, payload) || ref == Hex(p.sha256(payload)) || ref == payload
  }

  function ValidateBurnTicket(p: Primitives, t: BurnTicket, payload: Bytes, hasTx: Bytes -> bool, now: int)
    : Option<TicketError>
  {
    if !TicketSigned(p, t) then Some(BadMinerSig)
    else if IsExpired(t, now) then Some(Expired)
    else if !RefMatches(p, t.core.refHash, payload) then Some(RefHashMismatch)
    else if t.core.amount < BurnAmountForMsgType(t.core.msgType) then Some(InsufficientBurn)
    else if !hasTx(t.core.burnTxHash) then Some(TxNotFound)
    else None
  }

  /** A ticket is validated exactly if it is signed with the 32-byte key it carries; bears a time at most a
      day ago and at most a minute ahead; names the payload by the hash of what it decodes to, by the hash
      of its text, or by its text -- unless there is no payload; claims at least the price of its message
      type; and names a transaction that is known. */
  lemma ValidatesIff(p: Primitives, t: BurnTicket, payload: Bytes, hasTx: Bytes -> bool, now: int)
    ensures ValidateBurnTicket(p, t, payload, hasTx, now).None? <==>
      && (exists pub, sig ::
            && p.base64Decode(t.core.minerPub) == Some(pub) && |pub| == 32
            && p.base64Decode(t.minerSig) == Some(sig)
            && p.edVerify(pub, p.ticketJson(t.core), sig))
      && t.core.timestamp != 0
      && t.core.timestamp * 1000 - 60_000_000_000 <= now <= t.core.timestamp * 1000 + 86_400_000_000_000
      && (payload != [] ==>
            || t.core.refHash == payload
            || t.core.refHash == Hex(p.sha256(payload))
            || (p.base64Decode(payload).Some? && t.core.refHash == Hex(p.sha256(p.base64Decode(payload).value))))
      && t.core.amount >= BurnAmountForMsgType(t.core.msgType)
      && hasTx(t.core.burnTxHash)
  {
    hide BurnAmountForMsgType, Hex;
  }

  /** Otherwise the first of these that fails, in this order, is the error. */
  lemma TicketVerdict(p: Primitives, t: BurnTicket, payload: Bytes, hasTx: Bytes -> bool, now: int)
    ensures var raw := p.base64Decode(payload);
      ValidateBurnTicket(p, t, payload, hasTx, now) ==
        if !exists pub, sig ::
             && p.base64Decode(t.core.minerPub) == Some(pub) && |pub| == 32
             && p.base64Decode(t.minerSig) == Some(sig)
             && p.edVerify(pub, p.ticketJson(t.core), sig) then Some(BadMinerSig)
        else if t.core.timestamp == 0 || now < t.core.timestamp * 1000 - 60_000_000_000
                || now > t.core.timestamp * 1000 + 86_400_000_000_000 then Some(Expired)
        else if payload != [] && t.core.refHash != payload && t.core.refHash != Hex(p.sha256(payload))
                && (raw.None? || t.core.refHash != Hex(p.sha256(raw.value))) then Some(RefHashMismatch)
        else if t.core.amount < BurnAmountForMsgType(t.core.msgType) then Some(InsufficientBurn)
        else if !hasTx(t.core.burnTxHash) then Some(TxNotFound)
        else None
  {
    hide BurnAmountForMsgType, Hex;
  }

  /** A ticket issued for a burn that names its payload passes the receiver's checks exactly when it is
      presented in time, burn and fee together reach the price of the message, and the receiver
      knows the burn. */
  lemma IssuedTicketValidates(p: Primitives, tx: Transaction, minerID: Bytes, priv: Bytes, hint: u64, nonce: u64,
                              issuedUs: i64, payload: Bytes, hasTx: Bytes -> bool, now: int)
    requires Sound(p) && tx.kind.Burn? && p.decodeBurn(tx.data).Some?
    requires p.decodeBurn(tx.data).value.refHash == RefHashPayloadCipher(p, payload)
    ensures var d := p.decodeBurn(tx.data).value;
      var t := IssueBurnTicket(p, tx, minerID, priv, hint, nonce, issuedUs).value;
      ValidateBurnTicket(p, t, payload, hasTx, now).None? <==>
        && issuedUs != 0 && issuedUs * 1000 - MINUTE_NS <= now <= issuedUs * 1000 + BURN_TICKET_TTL_NS
        && TicketAmount(d, tx.fee) >= BurnAmountForMsgType(d.msgType)
        && hasTx(TxID(p, tx))
  {
    hide TxID, RefHashPayloadCipher, BurnAmountForMsgType, TicketAmount;
    var t := IssueBurnTicket(p, tx, minerID, priv, hint, nonce, issuedUs).value;
    assert p.base64Decode(t.core.minerPub) == Some(p.edPublic(priv)) && |p.edPublic(priv)| == 32;
    assert p.base64Decode(t.minerSig) == Some(p.edSign(priv, p.ticketJson(t.core)));
    assert TicketSigned(p, t);
  }

  /** A ticket signed with any key passes exactly when it is presented in time, names the payload,
      claims the price of its message type and names a transaction the receiver knows: neither the key
      nor the claimed amount is compared with anything. */
  lemma AnyKeyValidates(p: Primitives, core: TicketCore, priv: Bytes, payload: Bytes, hasTx: Bytes -> bool, now: int)
    requires Sound(p)
    ensures var t := SignTicket(p, core, priv);
      ValidateBurnTicket(p, t, payload, hasTx, now).None? <==>
        && !IsExpired(t, now) && RefMatches(p, core.refHash, payload)
        && core.amount >= BurnAmountForMsgType(core.msgType) && hasTx(core.burnTxHash)
  {
    hide RefMatches, BurnAmountForMsgType, IsExpired;
    SignTicketKeeps(p, core, priv);
    OwnKeySigns(p, core, priv);
  }

  lemma OwnKeySigns(p: Primitives, core: TicketCore, priv: Bytes)
    requires Sound(p)
    ensures TicketSigned(p, SignTicket(p, core, priv))
  {
    var t := SignTicket(p, core, priv);
    assert p.base64Decode(t.core.minerPub) == Some(p.edPublic(priv)) && |p.edPublic(priv)| == 32;
    assert p.base64Decode(t.minerSig) == Some(p.edSign(priv, p.ticketJson(t.core)));
  }

  // ---- On a message -------------------------------------------------------------------------

  function DecodeTicket(p: Primitives, text: Bytes): Option<BurnTicket> {
    if text == [] then None else
    match p.base64Decode(text)
    case None => None
    case Some(raw) => p.parseTicket(raw)
  }

  /** The validator a node is given when it runs a chain (internal/app/service.go:257-263). */
  predicate TicketAdmits(p: Primitives, hasTx: Bytes -> bool, text: Bytes, payload: Bytes, now: int) {
    match DecodeTicket(p, text)
    case None => false
    case Some(t) => ValidateBurnTicket(p, t, payload, hasTx, now).None?
  }

  /** The text on a message is a ticket in base64 that validates. */
  lemma AdmitsIff(p: Primitives, hasTx: Bytes -> bool, text: Bytes, payload: Bytes, now: int)
    ensures TicketAdmits(p, hasTx, text, payload, now) <==>
      exists raw, t ::
        && text != [] && p.base64Decode(text) == Some(raw) && p.parseTicket(raw) == Some(t)
        && ValidateBurnTicket(p, t, payload, hasTx, now).None?
  {
    hide ValidateBurnTicket;
  }
}
