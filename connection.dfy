/** The nonce and sequence-number state of a connection (connection.py).

    Each side of a connection has a nonce, drawn at random, and numbers its
    messages from 1. Every message written is stamped with the writer's nonce
    (`_snon`), its sequence number (`_sseq`) and the peer's nonce (`_pnon`);
    every message read must carry our nonce as `_pnon`, the peer's nonce as
    `_snon` and the next expected `_sseq`. Requests written are remembered by
    sequence number until the reply naming them in `_rseq` is read.

    The socket is left out: a message read is a parameter, a message written
    is returned, and the random nonce is a constructor argument. Messages
    are changed in place by the source; here the changed message is returned. */
module Connection {
  import opened Wrappers
  import opened Bytes
  import opened Exceptions
  import opened Values
  import PyInt
  import PyStr
  import Message
  import Channel

  const MaxWireSize: nat := 4 * 1024 * 1024
  const U63Max: nat := 0x7FFF_FFFF_FFFF_FFFF

  /** `_get_nonce_field(_ctrl, field, zero_ok)`. */
  function NonceField(ctrl: Dict, field: string, zeroOk: bool): (r: Result<nat>)
    ensures r.Ok? <==> Has(ctrl, field) && IntOf(Get(ctrl, field).value).Some? &&
                       0 <= IntOf(Get(ctrl, field).value).value <= U63Max &&
                       (zeroOk || IntOf(Get(ctrl, field).value).value != 0)
    ensures r.Ok? ==> r.value == IntOf(Get(ctrl, field).value).value
    ensures r.Err? ==> r.error.cls == BadNoncing
  {
    match Get(ctrl, field)
    case None => Raise(BadNoncing, "no " + field + " in _ctrl")
    case Some(v) =>
      match IntOf(v)
      case None => Raise(BadNoncing, field + " not an integer")
      case Some(n) =>
        if n < 0 || n > U63Max then Raise(BadNoncing, field + " is not a 63-bit unsigned integer")
        else if n == 0 && !zeroOk then Raise(BadNoncing, field + " is zero")
        else Ok(n)
  }

  /** `maybe_encode(str(n))`, the form of a stamped number. */
  function Stamp(n: nat): Value {
    IntBytes(n)
  }

  /** A number stamped by the writer is read back as that number. */
  lemma NonceFieldOfStamp(ctrl: Dict, field: string, n: nat, zeroOk: bool)
    requires Get(ctrl, field) == Some(Stamp(n)) && n <= U63Max && (zeroOk || n != 0)
    ensures NonceField(ctrl, field, zeroOk) == Ok(n)
  {
    IntOfIntBytes(n);
  }

  /** A field whose bytes carry white space beyond ASCII's is not an integer:
      `_pnon` of `b'\x1c5'` raises BadNoncing. */
  lemma NonceFieldByteSeparator(zeroOk: bool)
    ensures NonceField([Entry("_pnon", Bin([0x1C, 0x35]))], "_pnon", zeroOk) ==
            Raise(BadNoncing, "_pnon not an integer")
  {
    var ctrl := [Entry("_pnon", Bin([0x1C, 0x35]))];
    assert Get(ctrl, "_pnon") == Some(Bin([0x1C, 0x35]));
    PyInt.BytesKeepSeparator();
    assert IntOf(Bin([0x1C, 0x35])) == None;
    assert "_pnon" + " not an integer" == "_pnon not an integer";
  }

  /** The state of a connection: its own nonce and next sequence number,
      the peer's nonce and next expected sequence number (0 until learnt),
      whether messages are encrypted and compressed, and the outstanding
      requests by sequence number with the state each was written with. */
  datatype ConnState = ConnState(
    selfNonce: nat, selfNext: nat, peerNonce: nat, peerNext: nat,
    encrypted: bool, compressed: bool, outstanding: map<int, Option<nat>>)

  /** Every outstanding request was numbered before the next number. */
  predicate Valid(st: ConnState) {
    st.selfNext >= 1 && forall k :: k in st.outstanding ==> 1 <= k < st.selfNext
  }

  /** A request is a message whose `_ctrl` has neither `_rpl` nor `_evt`. */
  predicate IsRequestCtrl(ctrl: Dict) {
    !(Has(ctrl, "_rpl") || Has(ctrl, "_evt"))
  }

  /** `message['_ctrl']` as `_noncify` takes it: a missing one is created
      empty; one that is not a dict cannot take the stamps. */
  function CtrlToStamp(m: Dict): (r: Result<Dict>)
    ensures r.Err? <==> Has(m, "_ctrl") && !Get(m, "_ctrl").value.Table?
    ensures r.Err? ==> r.error.cls == TypeError
  {
    match Get(m, "_ctrl")
    case None => Ok([])
    case Some(Table(t)) => Ok(t)
    case Some(_) => Raise(TypeError)
  }

  /** The three stamps. */
  function Stamps(ctrl: Dict, snon: Value, sseq: Value, pnon: Value): (c: Dict)
    ensures Get(c, "_snon") == Some(snon) && Get(c, "_sseq") == Some(sseq) && Get(c, "_pnon") == Some(pnon)
  {
    Put(Put(Put(ctrl, "_snon", snon), "_sseq", sseq), "_pnon", pnon)
  }

  /** `_enc`, then `_comp`, set to `b'1'` when on and popped when off. */
  function Flags(c: Dict, enc: bool, comp: bool): Dict {
    var c1 := if enc then Put(c, "_enc", Bin([0x31])) else Remove(c, "_enc");
    if comp then Put(c1, "_comp", Bin([0x31])) else Remove(c1, "_comp")
  }

  /** The `_ctrl` that `_noncify` leaves: the stamps, then the flags. */
  function StampedCtrl(st: ConnState, ctrl: Dict): Dict {
    Flags(Stamps(ctrl, Stamp(st.selfNonce), Stamp(st.selfNext), Stamp(st.peerNonce)), st.encrypted, st.compressed)
  }

  /** The stamps are the connection's numbers. */
  lemma StampedStamps(st: ConnState, ctrl: Dict)
    ensures var c := StampedCtrl(st, ctrl);
            Get(c, "_snon") == Some(Stamp(st.selfNonce)) && Get(c, "_sseq") == Some(Stamp(st.selfNext)) &&
            Get(c, "_pnon") == Some(Stamp(st.peerNonce))
  {
    var c := Stamps(ctrl, Stamp(st.selfNonce), Stamp(st.selfNext), Stamp(st.peerNonce));
    FlagsKeep(c, st.encrypted, st.compressed, "_snon");
    FlagsKeep(c, st.encrypted, st.compressed, "_sseq");
    FlagsKeep(c, st.encrypted, st.compressed, "_pnon");
  }

  /** The flags leave every other field alone. */
  lemma FlagsKeep(c: Dict, enc: bool, comp: bool, k: string)
    requires k != "_enc" && k != "_comp"
    ensures Get(Flags(c, enc, comp), k) == Get(c, k)
  {
  }

  /** `_enc` and `_comp` are there exactly when the connection encrypts and
      compresses. */
  lemma StampedFlags(st: ConnState, ctrl: Dict)
    ensures Has(StampedCtrl(st, ctrl), "_enc") <==> st.encrypted
    ensures Has(StampedCtrl(st, ctrl), "_comp") <==> st.compressed
  {
    var c := Stamps(ctrl, Stamp(st.selfNonce), Stamp(st.selfNext), Stamp(st.peerNonce));
    FlagsShape(c, st.encrypted, st.compressed);
  }

  lemma FlagsShape(c: Dict, enc: bool, comp: bool)
    ensures Has(Flags(c, enc, comp), "_enc") <==> enc
    ensures Has(Flags(c, enc, comp), "_comp") <==> comp
  {
  }

  /** Every field but the stamps and the flags is kept; in particular a
      message keeps its kind. */
  lemma StampedKeeps(st: ConnState, ctrl: Dict, k: string)
    requires k != "_snon" && k != "_sseq" && k != "_pnon" && k != "_enc" && k != "_comp"
    ensures Get(StampedCtrl(st, ctrl), k) == Get(ctrl, k)
  {
    var c := Stamps(ctrl, Stamp(st.selfNonce), Stamp(st.selfNext), Stamp(st.peerNonce));
    FlagsKeep(c, st.encrypted, st.compressed, k);
    StampsKeep(ctrl, Stamp(st.selfNonce), Stamp(st.selfNext), Stamp(st.peerNonce), k);
  }

  lemma StampsKeep(ctrl: Dict, snon: Value, sseq: Value, pnon: Value, k: string)
    requires k != "_snon" && k != "_sseq" && k != "_pnon"
    ensures Get(Stamps(ctrl, snon, sseq, pnon), k) == Get(ctrl, k)
  {
  }

  /** `_noncify(message, state)` on a snapshot of the connection: the new
      state and the stamped message. */
  function Noncified(st: ConnState, m: Dict, state: Option<nat>): (r: Result<(ConnState, Dict)>)
    ensures r.Err? <==> Has(m, "_ctrl") && !Get(m, "_ctrl").value.Table?
    ensures r.Err? ==> r.error.cls == TypeError
    ensures r.Ok? ==> r.value.0.selfNext == st.selfNext + 1 &&
                      Section(Table(r.value.1), "_ctrl") == Some(StampedCtrl(st, CtrlToStamp(m).value))
    ensures r.Ok? && IsRequestCtrl(CtrlToStamp(m).value) ==> r.value.0.outstanding == st.outstanding[st.selfNext as int := state]
    ensures r.Ok? && !IsRequestCtrl(CtrlToStamp(m).value) ==> r.value.0.outstanding == st.outstanding
    ensures r.Ok? ==> forall k :: k != "_ctrl" ==> Get(r.value.1, k) == Get(m, k)
  {
    var ctrl :- CtrlToStamp(m);
    Ok((Advanced(st, IsRequestCtrl(ctrl), state), WithStamps(st, m, ctrl)))
  }

  /** The message with its `_ctrl` replaced by the stamped one. */
  function WithStamps(st: ConnState, m: Dict, ctrl: Dict): (r: Dict)
    ensures Section(Table(r), "_ctrl") == Some(StampedCtrl(st, ctrl))
    ensures forall k :: k != "_ctrl" ==> Get(r, k) == Get(m, k)
  {
    var stamped := StampedCtrl(st, ctrl);
    SectionPut(m, "_ctrl", stamped);
    Put(m, "_ctrl", Table(stamped))
  }

  /** The state after `_noncify` has written a message with this `_ctrl`:
      a request is remembered under its number, and the number moves on. */
  function Advanced(st: ConnState, isRequest: bool, state: Option<nat>): ConnState {
    var out := if isRequest then st.outstanding[st.selfNext as int := state] else st.outstanding;
    st.(selfNext := st.selfNext + 1, outstanding := out)
  }

  /** `_noncify` consumes exactly one sequence number and registers the
      message under it when, and only when, it is a request; the number was
      not in use, so no outstanding request is overwritten, and the state
      stays valid. */
  lemma NoncifyInvariant(st: ConnState, isRequest: bool, state: Option<nat>)
    requires Valid(st)
    ensures Valid(Advanced(st, isRequest, state)) && Advanced(st, isRequest, state).selfNext == st.selfNext + 1
    ensures st.selfNext !in st.outstanding
    ensures isRequest ==> Advanced(st, isRequest, state).outstanding == st.outstanding[st.selfNext := state]
    ensures !isRequest ==> Advanced(st, isRequest, state).outstanding == st.outstanding
  {
    var st' := Advanced(st, isRequest, state);
    forall k | k in st'.outstanding
      ensures 1 <= k < st'.selfNext
    {
      if k != st.selfNext as int {
        assert k in st.outstanding;
      }
    }
  }

  /** The peer reads the stamps back as the numbers stamped. */
  lemma StampsReadBack(st: ConnState, ctrl: Dict)
    requires 1 <= st.selfNonce <= U63Max && 1 <= st.selfNext <= U63Max && st.peerNonce <= U63Max
    ensures NonceField(StampedCtrl(st, ctrl), "_snon", false) == Ok(st.selfNonce)
    ensures NonceField(StampedCtrl(st, ctrl), "_sseq", false) == Ok(st.selfNext)
    ensures NonceField(StampedCtrl(st, ctrl), "_pnon", true) == Ok(st.peerNonce)
    ensures st.peerNonce != 0 ==> NonceField(StampedCtrl(st, ctrl), "_pnon", false) == Ok(st.peerNonce)
  {
    var c := StampedCtrl(st, ctrl);
    StampedStamps(st, ctrl);
    NonceFieldOfStamp(c, "_snon", st.selfNonce, false);
    NonceFieldOfStamp(c, "_sseq", st.selfNext, false);
    NonceFieldOfStamp(c, "_pnon", st.peerNonce, true);
    if st.peerNonce != 0 {
      NonceFieldOfStamp(c, "_pnon", st.peerNonce, false);
    }
  }

  /** One of the peer's numbers as `_check` learns it: 0 means not yet known,
      and the first value seen is adopted; after that it must match. */
  function Adopt(known: nat, got: nat): Option<nat> {
    if known == 0 then Some(got) else if got == known then Some(known) else None
  }

  /** The `_sseq` step of `_check`. */
  function CheckSseq(st: ConnState, ctrl: Dict): (r: (ConnState, Result<()>))
    ensures r.1.Err? ==> r.0 == st && r.1.error.cls == BadNoncing
    ensures r.1.Ok? <==> NonceField(ctrl, "_sseq", false).Ok? &&
                         Adopt(st.peerNext, NonceField(ctrl, "_sseq", false).value).Some?
    ensures r.1.Ok? ==> r.0 == st.(peerNext := NonceField(ctrl, "_sseq", false).value + 1)
  {
    match NonceField(ctrl, "_sseq", false)
    case Err(e) => (st, Err(e))
    case Ok(sseq) =>
      match Adopt(st.peerNext, sseq)
      case None =>
        (st, Raise(BadNoncing, "_sseq does not match (" + PyInt.Str(sseq) + " != " + PyInt.Str(st.peerNext) + ")"))
      case Some(next) => (st.(peerNext := next + 1), Ok(()))
  }

  /** The `_snon` step of `_check`, then the `_sseq` step. */
  function CheckSnon(st: ConnState, ctrl: Dict): (r: (ConnState, Result<()>))
    ensures r.1.Err? ==> r.1.error.cls == BadNoncing
    ensures r.0.(peerNonce := st.peerNonce, peerNext := st.peerNext) == st
    ensures r.1.Ok? <==> NonceField(ctrl, "_snon", false).Ok? &&
                         Adopt(st.peerNonce, NonceField(ctrl, "_snon", false).value).Some? &&
                         CheckSseq(st.(peerNonce := NonceField(ctrl, "_snon", false).value), ctrl).1.Ok?
    ensures r.1.Ok? ==> NonceField(ctrl, "_snon", false) == Ok(r.0.peerNonce)
  {
    match NonceField(ctrl, "_snon", false)
    case Err(e) => (st, Err(e))
    case Ok(snon) =>
      match Adopt(st.peerNonce, snon)
      case None =>
        (st, Raise(BadNoncing, "_snon does not match (" + PyInt.Str(snon) + " != " + PyInt.Str(st.peerNonce) + ")"))
      case Some(p) => CheckSseq(st.(peerNonce := p), ctrl)
  }

  /** The steps of `_check` that match our nonce and learn or match the
      peer's nonce and number. */
  function CheckPeer(st: ConnState, ctrl: Dict): (r: (ConnState, Result<()>))
    ensures r.1.Err? ==> r.1.error.cls == BadNoncing
    ensures r.0.(peerNonce := st.peerNonce, peerNext := st.peerNext) == st
  {
    if st.encrypted && !Has(ctrl, "_enc") then
      (st, Raise(BadNoncing, "got an unencrypted message on an encrypted connection"))
    else
      match NonceField(ctrl, "_pnon", false)
      case Err(e) => (st, Err(e))
      case Ok(pnon) =>
        if pnon != st.selfNonce then
          (st, Raise(BadNoncing, "_pnon does not match (" + PyInt.Str(pnon) + " != " + PyInt.Str(st.selfNonce) + ")"))
        else CheckSnon(st, ctrl)
  }

  /** The reply step of `_check`: the outstanding entry `_rseq` names is
      removed and its state returned. */
  function CheckReply(st: ConnState, ctrl: Dict): (r: (ConnState, Result<Option<nat>>))
    ensures r.0.(outstanding := st.outstanding) == st && r.0.outstanding.Keys <= st.outstanding.Keys
  {
    if !Has(ctrl, "_rpl") then (st, Ok(None))
    else
      match Get(ctrl, "_rseq")
      case None => (st, Raise(KeyError, "_rseq"))
      case Some(v) =>
        match IntOf(v)
        case None => (st, Raise(IntErrorCls(v)))
        case Some(rseq) =>
          if rseq !in st.outstanding then
            (st, Raise(BadNoncing, "_rseq " + PyInt.Str(rseq) + " is not outstanding"))
          else
            (st.(outstanding := st.outstanding - {rseq}), Ok(st.outstanding[rseq]))
  }

  /** `_check(message)` on a snapshot: the new state, and the state the
      request was written with when the message is a reply. A step that
      fails keeps what the steps before it changed. */
  function Checked(st: ConnState, ctrl: Dict): (r: (ConnState, Result<Option<nat>>))
    ensures r.0.(peerNonce := st.peerNonce, peerNext := st.peerNext, outstanding := st.outstanding) == st
    ensures r.0.outstanding.Keys <= st.outstanding.Keys
  {
    var (st1, r) := CheckPeer(st, ctrl);
    if r.Err? then (st1, Err(r.error)) else CheckReply(st1, ctrl)
  }

  /** A message accepted by `_check` carried `_enc` if the connection
      encrypts, our nonce, the peer's nonce (the first one seen is adopted)
      and the expected number (the first one seen is adopted), and the
      expected number moves on by one. Our own nonce, number and flags do not
      change. */
  lemma {:induction false} CheckAccepts(st: ConnState, ctrl: Dict)
    requires CheckPeer(st, ctrl).1.Ok?
    ensures var st' := Checked(st, ctrl).0;
            (st.encrypted ==> Has(ctrl, "_enc")) &&
            NonceField(ctrl, "_pnon", false) == Ok(st.selfNonce) &&
            NonceField(ctrl, "_snon", false) == Ok(st'.peerNonce) &&
            (st.peerNonce != 0 ==> st'.peerNonce == st.peerNonce) &&
            NonceField(ctrl, "_sseq", false).Ok? && st'.peerNext == NonceField(ctrl, "_sseq", false).value + 1 &&
            (st.peerNext != 0 ==> st'.peerNext == st.peerNext + 1) &&
            st'.selfNonce == st.selfNonce && st'.selfNext == st.selfNext &&
            st'.encrypted == st.encrypted && st'.compressed == st.compressed
  {
    var st2 := CheckSnon(st, ctrl).0;
    var st1 := st.(peerNonce := st2.peerNonce);
    assert CheckPeer(st, ctrl) == CheckSnon(st, ctrl) == CheckSseq(st1, ctrl);
    var sseq := NonceField(ctrl, "_sseq", false).value;
    assert st2 == st1.(peerNext := sseq + 1);
    assert Checked(st, ctrl).0.peerNext == st2.peerNext;
  }

  /** A reply removes exactly the outstanding entry its `_rseq` names and
      returns its state; a reply naming no outstanding request (a second
      reply to the same request among them) raises BadNoncing and leaves the
      table as it was. A message that is not a reply leaves the table alone. */
  lemma CheckMatchesReply(st: ConnState, ctrl: Dict)
    requires CheckPeer(st, ctrl).1.Ok?
    ensures var (st', r) := Checked(st, ctrl);
            var base := CheckPeer(st, ctrl).0;
            base.outstanding == st.outstanding &&
            (!Has(ctrl, "_rpl") ==> st' == base && r == Ok(None)) &&
            (Has(ctrl, "_rpl") && Has(ctrl, "_rseq") && IntOf(Get(ctrl, "_rseq").value).Some? ==>
               var rseq := IntOf(Get(ctrl, "_rseq").value).value;
               (rseq in st.outstanding ==>
                  r == Ok(st.outstanding[rseq]) && st'.outstanding == st.outstanding - {rseq}) &&
               (rseq !in st.outstanding ==>
                  r.Err? && r.error.cls == BadNoncing && st'.outstanding == st.outstanding))
  {
  }

  /** `_check` keeps the state valid. */
  lemma CheckInvariant(st: ConnState, ctrl: Dict)
    requires Valid(st)
    ensures Valid(Checked(st, ctrl).0)
  {
    var st' := Checked(st, ctrl).0;
    assert st'.selfNext == st.selfNext;
    forall k | k in st'.outstanding
      ensures 1 <= k < st'.selfNext
    {
      assert k in st.outstanding;
    }
  }

  /** Rejected before any change: no `_enc` on an encrypted connection, or a
      `_pnon` that is not our nonce. */
  lemma CheckRejectsEarly(st: ConnState, ctrl: Dict)
    requires (st.encrypted && !Has(ctrl, "_enc")) ||
             (NonceField(ctrl, "_pnon", false).Ok? && NonceField(ctrl, "_pnon", false).value != st.selfNonce)
    ensures Checked(st, ctrl).0 == st
    ensures Checked(st, ctrl).1.Err? && Checked(st, ctrl).1.error.cls == BadNoncing
  {
  }

  /** The branch of `__init__` that learns the peer from its first request:
      the peer's nonce and the number after its `_sseq`. */
  function PeerFromRequest(request: Dict): (r: Result<(nat, nat)>)
    requires Section(Table(request), "_ctrl").Some?
    ensures var ctrl := Section(Table(request), "_ctrl").value;
            r.Ok? <==> !Has(ctrl, "_rpl") && !Has(ctrl, "_evt") &&
                       NonceField(ctrl, "_pnon", true) == Ok(0) &&
                       NonceField(ctrl, "_snon", false).Ok? && NonceField(ctrl, "_sseq", false).Ok?
    ensures var ctrl := Section(Table(request), "_ctrl").value;
            r.Ok? ==> r.value == (NonceField(ctrl, "_snon", false).value, NonceField(ctrl, "_sseq", false).value + 1)
    ensures r.Err? ==> r.error.cls == BadNoncing
  {
    var ctrl := Section(Table(request), "_ctrl").value;
    if Has(ctrl, "_rpl") then Raise(BadNoncing, "cannot initialize nonce state from a reply")
    else if Has(ctrl, "_evt") then Raise(BadNoncing, "cannot initialize nonce state from an event")
    else
      var pnon :- NonceField(ctrl, "_pnon", true);
      if pnon != 0 then Raise(BadNoncing, "_pnon not zero in initial noncing request")
      else
        var snon :- NonceField(ctrl, "_snon", false);
        var sseq :- NonceField(ctrl, "_sseq", false);
        Ok((snon, sseq + 1))
  }

  /** nomcc.encryption's policies. */
  datatype Policy = Unencrypted | Desired | Required

  /** Without a secret, a desire for encryption becomes no encryption. */
  function EffectivePolicy(secret: Option<string>, policy: Policy): (p: Policy)
    ensures secret.Some? || policy != Desired ==> p == policy
    ensures secret.None? ==> p != Desired
  {
    if secret.None? && policy == Desired then Unencrypted else policy
  }

  /** The encryption the handshake settles on. */
  datatype Negotiated = Negotiated(encrypted: bool, compressed: bool)

  /** The initiator's `version` request, offering both algorithms unless
      encryption is off. */
  function Hello(policy: Policy): (m: Dict)
    ensures Section(Table(m), "_ctrl").Some? && Message.KindOf(m) == Ok(Message.Request)
    ensures var ctrl := Section(Table(m), "_ctrl").value;
            Keys(ctrl) == (if policy != Unencrypted then ["_initenc"] else []) &&
            Get(ctrl, "_initenc") == (if policy != Unencrypted then Some(List([Bin(Aes256z), Bin(Aes256)])) else None)
    ensures Keys(m) == ["_ctrl", "_data"] && Section(Table(m), "_data") == Some([Entry("type", Bin(VersionType))])
  {
    var ctrl := if policy != Unencrypted then [Entry("_initenc", List([Bin(Aes256z), Bin(Aes256)]))] else [];
    assert !Has(ctrl, "_rpl") && !Has(ctrl, "_evt");
    [Entry("_ctrl", Table(ctrl)), Entry("_data", Table([Entry("type", Bin(VersionType))]))]
  }

  const Aes256z: seq<byte> := [0x61, 0x65, 0x73, 0x32, 0x35, 0x36, 0x7a]   // b'aes256z'
  const Aes256: seq<byte> := [0x61, 0x65, 0x73, 0x32, 0x35, 0x36]          // b'aes256'
  const VersionType: seq<byte> := [0x76, 0x65, 0x72, 0x73, 0x69, 0x6f, 0x6e] // b'version'

  /** `b in v` for a bytes `b`: membership in a list or tuple, a substring of
      bytes, never a key of a dict (its keys are text); TypeError otherwise. */
  function BytesIn(b: seq<byte>, v: Value): Result<bool> {
    match v
    case List(items) => Ok(Bin(b) in items)
    case Tuple(items) => Ok(Bin(b) in items)
    case Bin(s) => Ok(exists i :: 0 <= i <= |s| && b <= s[i..])
    case Table(_) => Ok(false)
    case _ => Raise(TypeError)
  }

  /** The responder's side of `_start_noncing`: the `version` reply, with the
      `_encalg` picked from the request's `_initenc` (aes256z first). */
  function Respond(policy: Policy, request: Dict): (r: Result<(Dict, Negotiated)>)
    ensures r.Ok? && r.value.1.compressed ==> r.value.1.encrypted
    ensures policy == Unencrypted && r.Ok? ==> r.value.1 == Negotiated(false, false)
    ensures r.Ok? && policy == Required ==> r.value.1.encrypted
    ensures r.Ok? ==> Message.KindOf(r.value.0) == Ok(Message.Response)
    ensures r.Ok? ==> Section(Table(r.value.0), "_ctrl").Some? && Has(Section(Table(r.value.0), "_ctrl").value, "_rpl")
  {
    var message :- Message.ReplyTo(request, None);
    Message.ReplyIsResponse(request, None);
    if policy == Unencrypted then Ok((message, Negotiated(false, false)))
    else
      var rc := Section(Table(request), "_ctrl").value;
      var initenc := if Has(rc, "_initenc") then Get(rc, "_initenc").value else List([]);
      var z :- BytesIn(Aes256z, initenc);
      if z then Ok((SetEncalg(message, Aes256z), Negotiated(true, true)))
      else
        var a :- BytesIn(Aes256, initenc);
        if a then Ok((SetEncalg(message, Aes256), Negotiated(true, false)))
        else if policy == Required then Raise(NotSecure, "encryption is required but not available")
        else Ok((message, Negotiated(false, false)))
  }

  /** `message['_ctrl']['_encalg'] = alg` on a reply. */
  function SetEncalg(m: Dict, alg: seq<byte>): (r: Dict)
    requires Section(Table(m), "_ctrl").Some?
    ensures Message.KindOf(m).Ok? ==> Message.KindOf(r) == Message.KindOf(m)
    ensures Section(Table(r), "_ctrl").Some? && Get(Section(Table(r), "_ctrl").value, "_encalg") == Some(Bin(alg))
  {
    var ctrl := Section(Table(m), "_ctrl").value;
    var c := Put(ctrl, "_encalg", Bin(alg));
    var r := Put(m, "_ctrl", Table(c));
    assert Section(Table(r), "_ctrl") == Some(c);
    assert Get(c, "_rpl") == Get(ctrl, "_rpl") && Get(c, "_evt") == Get(ctrl, "_evt");
    r
  }

  /** The responder picks compressed encryption whenever it is offered, plain
      encryption when only that is, and fails a required policy otherwise. */
  lemma RespondPrefersCompressed(policy: Policy, request: Dict)
    requires policy != Unencrypted && Message.ReplyTo(request, None).Ok?
    ensures var rc := Section(Table(request), "_ctrl").value;
            var initenc := if Has(rc, "_initenc") then Get(rc, "_initenc").value else List([]);
            (BytesIn(Aes256z, initenc) == Ok(true) ==>
               Respond(policy, request).Ok? && Respond(policy, request).value.1 == Negotiated(true, true)) &&
            (BytesIn(Aes256z, initenc) == Ok(false) && BytesIn(Aes256, initenc) == Ok(true) ==>
               Respond(policy, request).Ok? && Respond(policy, request).value.1 == Negotiated(true, false)) &&
            (BytesIn(Aes256z, initenc) == Ok(false) && BytesIn(Aes256, initenc) == Ok(false) ==>
               (policy == Required <==> Respond(policy, request).Err?))
  {
  }

  /** The initiator's side, once the reply to its `version` request is read. */
  function Accept(policy: Policy, response: Dict): (r: Result<Negotiated>)
    requires Section(Table(response), "_ctrl").Some?
    ensures var alg := Get(Section(Table(response), "_ctrl").value, "_encalg");
            (alg.Some? && policy == Unencrypted ==> r.Err? && r.error.cls == BadNoncing) &&
            (alg.Some? && policy != Unencrypted && alg.value != Bin(Aes256z) && alg.value != Bin(Aes256) ==>
               r.Err? && r.error.cls == BadNoncing) &&
            (alg.None? ==> (r.Err? <==> policy == Required)) &&
            (r.Ok? ==> r.value.encrypted == alg.Some? && r.value.compressed == (alg == Some(Bin(Aes256z))))
  {
    match Get(Section(Table(response), "_ctrl").value, "_encalg")
    case Some(alg) =>
      if policy == Unencrypted then Raise(BadNoncing, "encryption not requested but peer specified _encalg")
      else if alg == Bin(Aes256z) then Ok(Negotiated(true, true))
      else if alg == Bin(Aes256) then Ok(Negotiated(true, false))
      else Raise(BadNoncing, "peer specified an invalid _encalg")
    case None =>
      if policy == Required then Raise(NotSecure, "encryption is required but not available")
      else Ok(Negotiated(false, false))
  }

  /** `_read_response(request)` once the message is read and checked. */
  function ResponseTo(request: Dict, response: Dict): (r: Result<Dict>)
    requires Section(Table(response), "_ctrl").Some?
    ensures var ctrl := Section(Table(response), "_ctrl").value;
            !Has(ctrl, "_rpl") ==> r == Raise(NotResponse)
    ensures var ctrl := Section(Table(response), "_ctrl").value;
            Has(ctrl, "_rpl") && Has(ctrl, "_rseq") && Section(Table(request), "_ctrl").Some? &&
            Has(Section(Table(request), "_ctrl").value, "_sseq") ==>
              r == if Get(ctrl, "_rseq") == Get(Section(Table(request), "_ctrl").value, "_sseq")
                   then Ok(response) else Raise(BadResponse)
    ensures r.Ok? ==> r.value == response && Section(Table(request), "_ctrl").Some? &&
                      Get(Section(Table(response), "_ctrl").value, "_rseq") ==
                      Get(Section(Table(request), "_ctrl").value, "_sseq") &&
                      Has(Section(Table(request), "_ctrl").value, "_sseq")
  {
    var ctrl := Section(Table(response), "_ctrl").value;
    if !Has(ctrl, "_rpl") then Raise(NotResponse)
    else
      var rseq :- Message.Item(ctrl, "_rseq");
      var rc :- Message.Item(request, "_ctrl");
      var sseq :- Message.IndexIn(rc, "_sseq");
      if rseq != sseq then Raise(BadResponse) else Ok(response)
  }

  /** The length check of `_read`: a frame longer than MAX_WIRE_SIZE is
      refused before it is read. */
  function FrameLength(ldata: seq<byte>): (r: Result<nat>)
    requires |ldata| == 4
    ensures r.Ok? <==> Unpack32(ldata) <= MaxWireSize
    ensures r.Ok? ==> r.value == Unpack32(ldata)
    ensures r.Err? ==> r.error.cls == MessageTooBig
  {
    var l := Unpack32(ldata);
    if l > MaxWireSize then Raise(MessageTooBig) else Ok(l)
  }

  /** The responder's handshake: the reply is written, then the negotiated
      encryption takes effect. */
  function Responded(st: ConnState, policy: Policy, request: Dict): (r: Result<(ConnState, Dict)>)
    ensures r.Ok? <==> Respond(policy, request).Ok?
  {
    var (message, n) :- Respond(policy, request);
    Ok(WriteThenSwitch(st, message, n))
  }

  /** Writing a handshake message, then switching to the negotiated flags. */
  function WriteThenSwitch(st: ConnState, m: Dict, n: Negotiated): (ConnState, Dict)
    requires Section(Table(m), "_ctrl").Some?
  {
    var (st1, wire) := Noncified(st, m, None).value;
    (st1.(encrypted := n.encrypted, compressed := n.compressed), wire)
  }

  /** The initiator's handshake once its `version` request is written: the
      reply is checked and matched with the request, then the peer's choice
      is adopted. */
  function Finished(st: ConnState, policy: Policy, hello: Dict, response: Dict): (ConnState, Result<()>)
    requires Section(Table(response), "_ctrl").Some?
  {
    var (st1, c) := Checked(st, Section(Table(response), "_ctrl").value);
    if c.Err? then (st1, Err(c.error))
    else
      match ResponseTo(hello, response)
      case Err(e) => (st1, Err(e))
      case Ok(_) =>
        match Accept(policy, response)
        case Err(e) => (st1, Err(e))
        case Ok(n) => (st1.(encrypted := n.encrypted, compressed := n.compressed), Ok(()))
  }

  /** The handshake reply goes out under the old flags: on a new connection
      it carries neither `_enc` nor `_comp`, whatever was negotiated. Being
      no request, it is not registered. */
  lemma ResponderWritesFirst(st: ConnState, m: Dict, n: Negotiated)
    requires Section(Table(m), "_ctrl").Some? && Has(Section(Table(m), "_ctrl").value, "_rpl")
    ensures Section(Table(WriteThenSwitch(st, m, n).1), "_ctrl").Some?
    ensures var ctrl := Section(Table(WriteThenSwitch(st, m, n).1), "_ctrl").value;
            (Has(ctrl, "_enc") <==> st.encrypted) && (Has(ctrl, "_comp") <==> st.compressed)
  {
    var mc := Section(Table(m), "_ctrl").value;
    NoncifiedShape(st, m, None);
    SectionPut(m, "_ctrl", StampedCtrl(st, mc));
    StampedFlags(st, mc);
  }

  /** After the reply, the connection holds the negotiated flags and has
      used one number; its outstanding requests are as they were. */
  lemma ResponderSwitches(st: ConnState, m: Dict, n: Negotiated)
    requires Section(Table(m), "_ctrl").Some? && Has(Section(Table(m), "_ctrl").value, "_rpl")
    ensures var st' := WriteThenSwitch(st, m, n).0;
            st'.outstanding == st.outstanding && st'.selfNext == st.selfNext + 1 &&
            st'.encrypted == n.encrypted && st'.compressed == n.compressed
  {
    NoncifiedShape(st, m, None);
    assert WriteThenSwitch(st, m, n).0 == Advanced(st, false, None).(encrypted := n.encrypted, compressed := n.compressed);
  }

  /** `_noncify` on a message whose `_ctrl` is a dict. */
  lemma NoncifiedShape(st: ConnState, m: Dict, state: Option<nat>)
    requires Section(Table(m), "_ctrl").Some?
    ensures var ctrl := Section(Table(m), "_ctrl").value;
            var wire := Put(m, "_ctrl", Table(StampedCtrl(st, ctrl)));
            Noncified(st, m, state) == Ok((Advanced(st, IsRequestCtrl(ctrl), state), wire))
  {
    var ctrl := Section(Table(m), "_ctrl").value;
    assert CtrlToStamp(m) == Ok(ctrl);
  }

  /** What `channelify` is given: a Channel, a text, or anything else. */
  datatype Where = WhereChannel(channel: Channel.Channel) | WhereText(text: string) | WhereOther

  /** A channel, or the name `channelify` looks up in the channel.conf files. */
  datatype Resolved = Resolved(channel: Channel.Channel) | LookUp(name: string)

  /** `channelify(where)`: a text with a `#` is a literal `address#port[#secret]`,
      any other text a channel name. A text with a `#` always splits into at
      least two parts, so the source's default port is never used; parts after
      the third are ignored. */
  function Channelify(where: Where): (r: Result<Resolved>)
    ensures where.WhereOther? ==> r.Err? && r.error.cls == BadChannelValue
    ensures where.WhereChannel? ==> r == Ok(Resolved(where.channel))
    ensures where.WhereText? && '#' !in where.text ==> r == Ok(LookUp(where.text))
  {
    match where
    case WhereChannel(c) => Ok(Resolved(c))
    case WhereOther => Raise(BadChannelValue)
    case WhereText(t) =>
      if PyStr.Find(t, '#') >= 0 then
        var parts := PyStr.SplitAll(t, '#');
        Literal(parts[0], parts[1], if |parts| > 2 then Some(parts[2]) else None)
      else Ok(LookUp(t))
  }

  /** The channel a literal names. */
  function Literal(address: string, port: string, secret: Option<string>): Result<Resolved> {
    var c :- Channel.New("<literal>", Channel.AddrportText(address + "#" + port), secret, None);
    Ok(Resolved(c))
  }

  /** `address#port` is a literal without a secret. */
  lemma LiteralWithoutSecret(a: string, p: string)
    requires '#' !in a && '#' !in p
    ensures Channelify(WhereText(a + "#" + p)) == Literal(a, p, None)
  {
    PyStr.SplitAllCons(a, '#', p);
  }

  /** `address#port#secret`, with anything after a further `#` ignored. */
  lemma LiteralWithSecret(a: string, p: string, sec: string, rest: string)
    requires '#' !in a && '#' !in p && '#' !in sec && (rest == [] || rest[0] == '#')
    ensures Channelify(WhereText(a + "#" + p + "#" + sec + rest)) == Literal(a, p, Some(sec))
  {
    var t := a + "#" + p + "#" + sec + rest;
    SplitWithSecret(a, p, sec, rest);
    assert t[|a|] == '#';
    assert PyStr.Find(t, '#') >= 0;
  }

  /** The first three `#`-separated parts of `address#port#secret...`. */
  lemma SplitWithSecret(a: string, p: string, sec: string, rest: string)
    requires '#' !in a && '#' !in p && '#' !in sec && (rest == [] || rest[0] == '#')
    ensures var parts := PyStr.SplitAll(a + "#" + p + "#" + sec + rest, '#');
            |parts| > 2 && parts[0] == a && parts[1] == p && parts[2] == sec
  {
    var u := p + "#" + (sec + rest);
    assert a + "#" + p + "#" + sec + rest == a + "#" + u;
    PyStr.SplitAllCons(a, '#', u);
    PyStr.SplitAllCons(p, '#', sec + rest);
    PyStr.SplitAllFirst(sec, '#', rest);
  }

  /** A connection, minus its socket. */
  class Conn {
    var selfNonce: nat
    var selfNext: nat
    var peerNonce: nat
    var peerNext: nat
    var encrypted: bool
    var compressed: bool
    var outstanding: map<int, Option<nat>>
    const secret: Option<string>
    const policy: Policy

    function State(): ConnState
      reads this
    {
      ConnState(selfNonce, selfNext, peerNonce, peerNext, encrypted, compressed, outstanding)
    }

    /** `__init__` up to the handshake: the peer's nonce and number are 0, or
        learnt from its first request (`PeerFromRequest`). */
    constructor (secret: Option<string>, policy: Policy, nonce: nat, peer: (nat, nat))
      ensures this.secret == secret && this.policy == EffectivePolicy(secret, policy)
      ensures State() == ConnState(nonce, 1, peer.0, peer.1, false, false, map[])
      ensures Valid(State())
    {
      this.secret := secret;
      this.policy := EffectivePolicy(secret, policy);
      selfNonce := nonce;
      selfNext := 1;
      peerNonce, peerNext := peer.0, peer.1;
      encrypted, compressed := false, false;
      outstanding := map[];
    }

    /** `_add_outstanding(seqno, state)`. */
    method AddOutstanding(seqno: int, state: Option<nat>)
      modifies this
      ensures State() == old(State()).(outstanding := old(outstanding)[seqno := state])
    {
      outstanding := outstanding[seqno := state];
    }

    /** `_delete_outstanding(seqno)`: whether it was there, and its state. */
    method DeleteOutstanding(seqno: int) returns (found: bool, state: Option<nat>)
      modifies this
      ensures found <==> seqno in old(outstanding)
      ensures found ==> state == old(outstanding)[seqno]
      ensures !found ==> state == None
      ensures State() == old(State()).(outstanding := old(outstanding) - {seqno})
    {
      if seqno in outstanding {
        found, state := true, outstanding[seqno];
        outstanding := outstanding - {seqno};
      } else {
        found, state := false, None;
      }
    }

    /** `take_outstanding()`: the whole table, leaving it empty. */
    method TakeOutstanding() returns (taken: map<int, Option<nat>>)
      modifies this
      ensures taken == old(outstanding)
      ensures State() == old(State()).(outstanding := map[])
    {
      taken := outstanding;
      outstanding := map[];
    }

    /** `_noncify(message, state)`: returns the stamped message. */
    method Noncify(m: Dict, state: Option<nat>) returns (r: Result<Dict>)
      modifies this
      ensures Noncified(old(State()), m, state).Ok? <==> r.Ok?
      ensures r.Ok? ==> (State(), r.value) == Noncified(old(State()), m, state).value
      ensures r.Err? ==> State() == old(State())
    {
      var c := CtrlToStamp(m);
      if c.Err? {
        return Err(c.error);
      }
      var ctrl := c.value;
      var stamped := StampedCtrl(State(), ctrl);
      Advance(IsRequestCtrl(ctrl), state);
      r := Ok(Put(m, "_ctrl", Table(stamped)));
    }

    /** The bookkeeping of `_noncify`: a request is registered under the
        current number (`_add_outstanding`), then the number moves on. */
    method Advance(isRequest: bool, state: Option<nat>)
      modifies this
      ensures State() == Advanced(old(State()), isRequest, state)
    {
      if isRequest {
        AddOutstanding(selfNext, state);
      }
      selfNext := selfNext + 1;
    }

    /** `_check(message)` on a message that `from_wire` has read (so its
        `_ctrl` is a dict). A step that raises keeps the changes of the
        steps before it. */
    method Check(m: Dict) returns (r: Result<Option<nat>>)
      requires Section(Table(m), "_ctrl").Some?
      modifies this
      ensures (State(), r) == Checked(old(State()), Section(Table(m), "_ctrl").value)
    {
      var ctrl := Section(Table(m), "_ctrl").value;
      var p := MatchPeer(ctrl);
      if p.Err? {
        return Err(p.error);
      }
      r := MatchReply(ctrl);
    }

    /** `_check` up to the end of the `_sseq` step. */
    method MatchPeer(ctrl: Dict) returns (r: Result<()>)
      modifies this
      ensures (State(), r) == CheckPeer(old(State()), ctrl)
    {
      if encrypted && !Has(ctrl, "_enc") {
        return Raise(BadNoncing, "got an unencrypted message on an encrypted connection");
      }
      var pnon := NonceField(ctrl, "_pnon", false);
      if pnon.Err? {
        return Err(pnon.error);
      }
      if pnon.value != selfNonce {
        return Raise(BadNoncing, "_pnon does not match (" + PyInt.Str(pnon.value) + " != " + PyInt.Str(selfNonce) + ")");
      }
      r := MatchSnon(ctrl);
    }

    /** The `_snon` step of `_check`, then the `_sseq` step. */
    method MatchSnon(ctrl: Dict) returns (r: Result<()>)
      modifies this
      ensures (State(), r) == CheckSnon(old(State()), ctrl)
    {
      var snon := NonceField(ctrl, "_snon", false);
      if snon.Err? {
        return Err(snon.error);
      }
      if peerNonce == 0 {
        peerNonce := snon.value;
      } else if snon.value != peerNonce {
        return Raise(BadNoncing, "_snon does not match (" + PyInt.Str(snon.value) + " != " + PyInt.Str(peerNonce) + ")");
      }
      r := MatchSseq(ctrl);
    }

    /** The `_sseq` step of `_check`. */
    method MatchSseq(ctrl: Dict) returns (r: Result<()>)
      modifies this
      ensures (State(), r) == CheckSseq(old(State()), ctrl)
    {
      var sseq := NonceField(ctrl, "_sseq", false);
      if sseq.Err? {
        return Err(sseq.error);
      }
      if peerNext == 0 {
        peerNext := sseq.value;
      } else if sseq.value != peerNext {
        return Raise(BadNoncing, "_sseq does not match (" + PyInt.Str(sseq.value) + " != " + PyInt.Str(peerNext) + ")");
      }
      peerNext := peerNext + 1;
      r := Ok(());
    }

    /** The reply step of `_check`. */
    method MatchReply(ctrl: Dict) returns (r: Result<Option<nat>>)
      modifies this
      ensures (State(), r) == CheckReply(old(State()), ctrl)
    {
      if !Has(ctrl, "_rpl") {
        return Ok(None);
      }
      var v := Get(ctrl, "_rseq");
      if v.None? {
        return Raise(KeyError, "_rseq");
      }
      var rseq := IntOf(v.value);
      if rseq.None? {
        return Raise(IntErrorCls(v.value));
      }
      var n := rseq.value;
      var found, state := DeleteOutstanding(n);
      if !found {
        assert old(outstanding) - {n} == old(outstanding);
        return Raise(BadNoncing, "_rseq " + PyInt.Str(n) + " is not outstanding");
      }
      r := Ok(state);
    }

    /** The responder's `_start_noncing(request)`: returns the message to
        write. */
    method StartResponder(request: Dict) returns (r: Result<Dict>)
      modifies this
      ensures r.Ok? <==> Respond(policy, request).Ok?
      ensures r.Ok? ==> (State(), r.value) == Responded(old(State()), policy, request).value
      ensures r.Err? ==> State() == old(State())
    {
      var d := Respond(policy, request);
      if d.Err? {
        return Err(d.error);
      }
      var (message, n) := d.value;
      r := Noncify(message, None);
      SetFlags(n);
    }

    /** `self.encrypted = encrypted; self.compressed = compressed`. */
    method SetFlags(n: Negotiated)
      modifies this
      ensures State() == old(State()).(encrypted := n.encrypted, compressed := n.compressed)
    {
      encrypted, compressed := n.encrypted, n.compressed;
    }

    /** The initiator's `_start_noncing(None)`, first half: the stamped
        `version` request, registered as outstanding. */
    method StartInitiator() returns (r: Dict)
      modifies this
      ensures (State(), r) == Noncified(old(State()), Hello(policy), None).value
    {
      var w := Noncify(Hello(policy), None);
      r := w.value;
    }

    /** The second half: read the reply (`_check`, then `_read_response`),
        then adopt the peer's choice of encryption. */
    method FinishInitiator(hello: Dict, response: Dict) returns (r: Result<()>)
      requires Section(Table(response), "_ctrl").Some?
      modifies this
      ensures (State(), r) == Finished(old(State()), policy, hello, response)
    {
      var c := Check(response);
      if c.Err? {
        return Err(c.error);
      }
      var rr := ResponseTo(hello, response);
      if rr.Err? {
        return Err(rr.error);
      }
      var a := Accept(policy, response);
      if a.Err? {
        return Err(a.error);
      }
      SetFlags(a.value);
      r := Ok(());
    }
  }
}
