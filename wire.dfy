/** Frames (wire.py `to_wire`, `from_wire`, `_basic_syntax_checks` and the
    padding of `_encrypt_message`).

    A frame is a four-octet big-endian length of what follows, the version 1
    as four octets, then the body. A frame sent with a secret carries first an
    `_auth` table whose 43 octets are always the fixed 21-octet header
    `cc_auth_fixed` followed by the 22-character HMAC-MD5 signature of the
    body. An encrypted body is a table holding one binary `_aes256` (or, when
    compressed, `_aes256z`) value: a 16-octet IV and the AES-256-CBC
    ciphertext of the message's length and the message, zero-padded to the
    block size.

    SHA-256, HMAC-MD5, AES and raw DEFLATE are foreign library calls and are
    parameters here (`Crypto`); the IV, drawn from `random`, is an argument.
    Base64 is written out, since the signature's length depends on it. */
module Wire {
  import opened Wrappers
  import opened Bytes
  import opened Exceptions
  import opened Values
  import opened Codec
  import opened CodecRoundTrip
  import PyInt
  import Utf8

  const CcVersion: nat := 1
  const BlockSize: nat := 16

  /** `cc_auth_fixed`: the encoding of `{'_auth': {'hmd5': <22 octets>}}` up to
      the signature itself. */
  const AuthFixed: seq<byte> :=
    [0x05, 0x5f, 0x61, 0x75, 0x74, 0x68, 0x02, 0x00,
     0x00, 0x00, 0x20, 0x04, 0x68, 0x6d, 0x64, 0x35,
     0x01, 0x00, 0x00, 0x00, 0x16]

  /** The library functions the frame layer calls. `sha256` is `_key_from_secret`'s
      digest, `hmacMd5(key, data)` the signature digest, `aesEncrypt` and
      `aesDecrypt(key, iv, data)` AES-256-CBC, `deflate` and `inflate` raw
      DEFLATE (`inflate` fails on corrupt input). */
  datatype Crypto = Crypto(
    sha256: seq<byte> -> seq<byte>,
    hmacMd5: (seq<byte>, seq<byte>) -> seq<byte>,
    aesEncrypt: (seq<byte>, seq<byte>, seq<byte>) -> seq<byte>,
    aesDecrypt: (seq<byte>, seq<byte>, seq<byte>) -> seq<byte>,
    deflate: seq<byte> -> seq<byte>,
    inflate: seq<byte> -> Option<seq<byte>>)

  /** HMAC-MD5 digests are 16 octets. */
  ghost predicate DigestsAre16(c: Crypto) {
    forall k, m :: |c.hmacMd5(k, m)| == 16
  }

  /** One base64 digit (RFC 4648, section 4): A-Z, a-z, 0-9, '+', '/'. */
  function B64Digit(n: int): byte
    requires 0 <= n < 64
  {
    if n < 26 then 0x41 + n
    else if n < 52 then 0x61 + (n - 26)
    else if n < 62 then 0x30 + (n - 52)
    else if n == 62 then 0x2B
    else 0x2F
  }

  const B64Pad: byte := 0x3D

  /** `base64.b64encode(b)`: each three octets become four digits, and a last
      group of one or two octets is padded with '='. */
  function Base64(b: seq<byte>): (r: seq<byte>)
    ensures |r| == (|b| + 2) / 3 * 4
  {
    if |b| == 0 then []
    else
      var x0: int := b[0];
      if |b| == 1 then [B64Digit(x0 / 4), B64Digit(x0 % 4 * 16), B64Pad, B64Pad]
      else
        var x1: int := b[1];
        if |b| == 2 then
          [B64Digit(x0 / 4), B64Digit(x0 % 4 * 16 + x1 / 16), B64Digit(x1 % 16 * 4), B64Pad]
        else
          var x2: int := b[2];
          [B64Digit(x0 / 4), B64Digit(x0 % 4 * 16 + x1 / 16),
           B64Digit(x1 % 16 * 4 + x2 / 64), B64Digit(x2 % 64)] + Base64(b[3..])
  }

  /** When the input length leaves one octet over, the encoding ends in "==",
      which is what `[:-2]` strips from a 16-octet digest. */
  lemma {:induction false} Base64EndsInPad(b: seq<byte>)
    requires |b| % 3 == 1
    ensures |Base64(b)| >= 4 && Base64(b)[|Base64(b)| - 2..] == [B64Pad, B64Pad]
  {
    if |b| > 1 {
      Base64EndsInPad(b[3..]);
      var r := Base64(b);
      assert r[4..] == Base64(b[3..]);
      assert r[|r| - 2..] == Base64(b[3..])[|Base64(b[3..])| - 2..];
    }
  }

  /** Python's `s[:-2]`. */
  function DropLast2(s: seq<byte>): seq<byte> {
    if |s| >= 2 then s[..|s| - 2] else []
  }

  /** `base64.b64encode(hmac.new(secret, data, md5).digest())[:-2]`. */
  function Signature(c: Crypto, secret: string, data: seq<byte>): seq<byte> {
    DropLast2(Base64(c.hmacMd5(Utf8.Encode(secret), data)))
  }

  /** A signature is 22 octets, and only the padding was cut off. */
  lemma SignatureLength(c: Crypto, secret: string, data: seq<byte>)
    requires DigestsAre16(c)
    ensures |Signature(c, secret, data)| == 22
    ensures Signature(c, secret, data) + [B64Pad, B64Pad] == Base64(c.hmacMd5(Utf8.Encode(secret), data))
  {
    var d := c.hmacMd5(Utf8.Encode(secret), data);
    Base64EndsInPad(d);
    var r := Base64(d);
    assert r == r[..22] + r[22..];
  }

  /** The `_auth` section `to_wire` writes: `{'_auth': {'hmd5': sig}}`. */
  function AuthTable(sig: seq<byte>): Dict {
    [Entry("_auth", Table([Entry("hmd5", Bin(sig))]))]
  }

  /** With a 22-octet signature the `_auth` section encodes as `cc_auth_fixed`
      followed by the signature, which is where `from_wire` looks. */
  lemma AuthLayout(sig: seq<byte>)
    requires |sig| == 22
    ensures EncodeTable(AuthTable(sig), Chars) == Ok(AuthFixed + sig)
  {
    var hm: seq<byte> := [2, 0, 0, 0, 0x20] + [4, 0x68, 0x6d, 0x64, 0x35] + [1, 0, 0, 0, 0x16];
    var k: seq<byte> := [0x5f, 0x61, 0x75, 0x74, 0x68];
    HmdLayout(sig);
    assert Utf8.Encode("_auth") == k;
    EncodeSingle(AuthTable(sig)[0], k, hm + sig);
    assert [5] + k + hm == AuthFixed;
    assert [5] + k + (hm + sig) == ([5] + k + hm) + sig;
  }

  /** The value of `_auth`: the table `{'hmd5': sig}`. */
  lemma HmdLayout(sig: seq<byte>)
    requires |sig| == 22
    ensures EncodeValue(Table([Entry("hmd5", Bin(sig))]), Chars) ==
            Ok([2, 0, 0, 0, 0x20] + [4, 0x68, 0x6d, 0x64, 0x35] + [1, 0, 0, 0, 0x16] + sig)
  {
    assert BE32(22) == [0, 0, 0, 0x16];
    var iv := [1, 0, 0, 0, 0x16] + sig;
    EncodeFramed(Bin(sig), sig);
    assert [TypeBinary] + BE32(22) + sig == iv;
    var inner := Entry("hmd5", Bin(sig));
    assert Utf8.Encode("hmd5") == [0x68, 0x6d, 0x64, 0x35];
    var ie := [4, 0x68, 0x6d, 0x64, 0x35] + iv;
    EncodeSingle(inner, [0x68, 0x6d, 0x64, 0x35], iv);
    assert [4] + [0x68, 0x6d, 0x64, 0x35] + iv == ie;
    assert BE32(32) == [0, 0, 0, 0x20];
    EncodeFramed(Table([inner]), ie);
    assert [TypeTable] + BE32(32) + ie == [2, 0, 0, 0, 0x20] + [4, 0x68, 0x6d, 0x64, 0x35] + [1, 0, 0, 0, 0x16] + sig;
  }

  /** A value whose payload is `p` encodes as its type octet, `|p|` and `p`. */
  lemma EncodeFramed(v: Value, p: seq<byte>)
    requires Payload(v, Chars) == Ok(p) && |p| < U32Limit
    ensures EncodeValue(v, Chars) == Ok([TypeOf(v)] + BE32(|p|) + p)
  {
  }

  /** A one-entry table encodes as that entry. */
  lemma EncodeSingle(e: Entry, kb: seq<byte>, ve: seq<byte>)
    requires Utf8.Encode(e.key) == kb && KeyLength(e.key, Chars) == |kb| < 256 && EncodeValue(e.val, Chars) == Ok(ve)
    ensures EncodeTable([e], Chars) == Ok([|kb|] + kb + ve)
  {
    assert [e][1..] == [];
    assert [|kb|] + kb + ve + [] == [|kb|] + kb + ve;
  }

  /** `((msglen + 0xF) & ~0xF) - msglen`: for a non-negative `x`, `x & ~0xF`
      clears the low four bits, that is `x - x % 16`. */
  function PadLen(msglen: nat): (r: nat)
    ensures r < BlockSize && (msglen + r) % BlockSize == 0
  {
    var x := msglen + 0xF;
    x - x % 16 - msglen
  }

  function Zeros(n: nat): (r: seq<byte>)
    ensures |r| == n && forall i :: 0 <= i < n ==> r[i] == 0
  {
    seq(n, _ => 0)
  }

  /** The table that replaces an encrypted body: `{field: iv + ciphertext}` where
      the plaintext is the table's length and the table (compressed when asked),
      zero-padded to the AES block size. */
  function EncryptedTable(c: Crypto, secret: string, unsigned: seq<byte>, compress: bool,
                          iv: seq<byte>): (r: Result<Dict>)
    requires |iv| == BlockSize
    ensures r.Ok? <==> |unsigned| < U32Limit
    ensures r.Ok? ==> |r.value| == 1 && r.value[0].val.Bin? &&
                      r.value[0].key == (if compress then "_aes256z" else "_aes256") &&
                      |r.value[0].val.b| >= BlockSize && r.value[0].val.b[..BlockSize] == iv
  {
    if |unsigned| >= U32Limit then Raise(StructError, "argument out of range")
    else
      var inner := BE32(|unsigned|) + (if compress then c.deflate(unsigned) else unsigned);
      var key := c.sha256(Utf8.Encode(secret));
      var payload := iv + c.aesEncrypt(key, iv, inner + Zeros(PadLen(|inner|)));
      Ok([Entry(if compress then "_aes256z" else "_aes256", Bin(payload))])
  }

  /** `message['_ctrl']` as `to_wire` uses it, with `.pop(k, None)` on it: a
      missing section raises KeyError, a list's `pop` takes one argument only,
      and the other non-dicts have no `pop`. */
  function CtrlForPop(m: Dict): (r: Result<Dict>)
    ensures r.Ok? <==> Section(Table(m), "_ctrl").Some?
    ensures r.Ok? ==> Get(m, "_ctrl") == Some(Table(r.value))
  {
    match Get(m, "_ctrl")
    case None => Raise(KeyError, "_ctrl")
    case Some(Table(t)) => Ok(t)
    case Some(List(_)) => Raise(TypeError)
    case Some(_) => Raise(AttributeError)
  }

  /** What `to_wire` does to the caller's message before encoding it: `_auth`
      and `_ctrl._comp` popped. Returns the message and the truth of `_comp`. */
  function Popped(m: Dict): (r: Result<(Dict, bool)>)
    ensures r.Ok? <==> Section(Table(m), "_ctrl").Some?
    ensures r.Ok? ==> !Has(r.value.0, "_auth")
    ensures r.Ok? ==> Section(Table(r.value.0), "_ctrl").Some? &&
                      !Has(Section(Table(r.value.0), "_ctrl").value, "_comp")
    ensures r.Ok? ==> forall k :: k != "_auth" && k != "_ctrl" ==> Get(r.value.0, k) == Get(m, k)
  {
    var m1 := Remove(m, "_auth");
    assert Get(m1, "_ctrl") == Get(m, "_ctrl");
    var ctrl :- CtrlForPop(m1);
    var comp := Get(ctrl, "_comp");
    var m2 := Put(m1, "_ctrl", Table(Remove(ctrl, "_comp")));
    Ok((m2, comp.Some? && Truthy(comp.value)))
  }

  /** The body of a frame: the encoded message, or, when its `_ctrl` asks for
      `_enc`, the encoded table of its ciphertext. */
  function Body(c: Crypto, unsigned: seq<byte>, enc: bool, secret: Option<string>,
                compress: bool, iv: seq<byte>): (r: Result<seq<byte>>)
    requires |iv| == BlockSize
    ensures !enc ==> r == Ok(unsigned)
    ensures enc && secret.None? ==> r.Err? && r.error.cls == NeedSecret
  {
    if !enc then Ok(unsigned)
    else if secret.None? then Raise(NeedSecret)
    else
      var t :- EncryptedTable(c, secret.value, unsigned, compress, iv);
      EncodeTable(t, Chars)
  }

  /** The version, then the `_auth` section when there is a secret, then the body. */
  function Versioned(c: Crypto, body: seq<byte>, secret: Option<string>): (r: Result<seq<byte>>)
    ensures r.Ok? ==> |r.value| >= 4 && r.value[..4] == BE32(CcVersion)
    ensures secret.None? ==> r == Ok(BE32(CcVersion) + body)
    ensures r.Ok? && secret.Some? ==>
              EncodeTable(AuthTable(Signature(c, secret.value, body)), Chars).Ok? &&
              r.value[4..] == EncodeTable(AuthTable(Signature(c, secret.value, body)), Chars).value + body
  {
    if secret.Some? then
      var auth :- EncodeTable(AuthTable(Signature(c, secret.value, body)), Chars);
      var v := BE32(CcVersion) + (auth + body);
      assert v[..4] == BE32(CcVersion) && v[4..] == auth + body;
      Ok(v)
    else Ok(BE32(CcVersion) + body)
  }

  /** The version, the `_auth` section when there is a secret, the body, all
      preceded by their length. */
  function Envelope(c: Crypto, body: seq<byte>, secret: Option<string>): (r: Result<seq<byte>>)
    ensures r.Ok? ==> |r.value| >= 8 && Unpack32(r.value[..4]) == |r.value| - 4 &&
                      r.value[4..8] == BE32(CcVersion)
    ensures r.Ok? && secret.None? ==> r.value[8..] == body
    ensures r.Ok? && secret.Some? ==>
              EncodeTable(AuthTable(Signature(c, secret.value, body)), Chars).Ok? &&
              r.value[8..] == EncodeTable(AuthTable(Signature(c, secret.value, body)), Chars).value + body
  {
    var res :- Versioned(c, body, secret);
    if |res| >= U32Limit then Raise(StructError, "argument out of range")
    else
      var w := BE32(|res|) + res;
      assert w[..4] == BE32(|res|) && w[4..8] == res[..4] && w[8..] == res[4..];
      Unpack32BE32(|res|);
      Ok(w)
  }

  /** A frame and the caller's message as `to_wire` leaves it. */
  datatype Framed = Framed(wire: seq<byte>, message: Dict)

  /** `to_wire(message, secret)` with the IV the encryption would draw. */
  function ToWire(c: Crypto, m: Dict, secret: Option<string>, iv: seq<byte>): (r: Result<Framed>)
    requires |iv| == BlockSize
    ensures r.Ok? ==> |r.value.wire| >= 8 && Unpack32(r.value.wire[..4]) == |r.value.wire| - 4 &&
                      r.value.wire[4..8] == BE32(CcVersion)
    ensures r.Ok? ==> !Has(r.value.message, "_auth") && EncodeTable(r.value.message, Chars).Ok?
    ensures r.Ok? ==> Section(Table(r.value.message), "_ctrl").Some? &&
                      !Has(Section(Table(r.value.message), "_ctrl").value, "_comp")
    ensures r.Ok? ==> forall k :: k != "_auth" && k != "_ctrl" ==> Get(r.value.message, k) == Get(m, k)
    ensures Section(Table(m), "_ctrl").None? ==> r.Err?
  {
    var (m2, compress) :- Popped(m);
    var unsigned :- EncodeTable(m2, Chars);
    var enc := Has(Section(Table(m2), "_ctrl").value, "_enc");
    var body :- Body(c, unsigned, enc, secret, compress, iv);
    var w :- Envelope(c, body, secret);
    Ok(Framed(w, m2))
  }

  /** The truth of `message.get(k)`. */
  predicate TruthyField(m: Dict, k: string) {
    Get(m, k).Some? && Truthy(Get(m, k).value)
  }

  /** What `_basic_syntax_checks` demands of a message it does not take to be
      encrypted: `_ctrl` and `_data` tables, a text `type` in `_data`, and an
      `err` that is text when it is truthy. */
  predicate PlainShape(m: Dict) {
    Section(Table(m), "_ctrl").Some? && Section(Table(m), "_data").Some? &&
    var data := Section(Table(m), "_data").value;
    Get(data, "type").Some? && Get(data, "type").value.Text? &&
    (TruthyField(data, "err") ==> Get(data, "err").value.Text?)
  }

  /** `_auth`, when present, is a table. */
  predicate AuthShape(m: Dict) {
    Get(m, "_auth").Some? ==> Get(m, "_auth").value.Table?
  }

  /** A message counts as encrypted when decryption may follow and it has a
      truthy `_aes256` or `_aes256z`. */
  predicate LooksEncrypted(m: Dict, maybeEncrypted: bool) {
    maybeEncrypted && (TruthyField(m, "_aes256") || TruthyField(m, "_aes256z"))
  }

  /** The checks `_ctrl`, `_data`, `type`, `err`, in that order. */
  function PlainChecks(m: Dict): (r: Result<()>)
    ensures r.Ok? <==> PlainShape(m)
    ensures r.Err? ==> r.error.cls == BadForm
  {
    match Get(m, "_ctrl")
    case None => Raise(BadForm, "_ctrl must be present")
    case Some(ctrl) =>
      if !ctrl.Table? then Raise(BadForm, "_ctrl must be a table")
      else
        match Get(m, "_data")
        case None => Raise(BadForm, "_data must be present")
        case Some(data) =>
          if !data.Table? then Raise(BadForm, "_data must be a table")
          else
            match Get(data.entries, "type")
            case None => Raise(BadForm, "type must be present in _data")
            case Some(t) =>
              if !t.Text? then Raise(BadForm, "type must be a string")
              else if TruthyField(data.entries, "err") && !Get(data.entries, "err").value.Text? then
                Raise(BadForm, "err must be a string")
              else Ok(())
  }

  /** `_basic_syntax_checks(message, maybe_encrypted)`. */
  function BasicSyntaxChecks(m: Dict, maybeEncrypted: bool): (r: Result<()>)
    ensures r.Ok? <==> (LooksEncrypted(m, maybeEncrypted) || PlainShape(m)) && AuthShape(m)
    ensures r.Err? ==> r.error.cls == BadForm
  {
    var ok :- if LooksEncrypted(m, maybeEncrypted) then Ok(()) else PlainChecks(m);
    if Get(m, "_auth").Some? && !Get(m, "_auth").value.Table? then Raise(BadForm, "_auth must be a table")
    else Ok(())
  }

  /** Python's `s[i:j]` for `0 <= i`, `0 <= j`: the bounds are clamped. */
  function Slice(s: seq<byte>, i: nat, j: nat): (r: seq<byte>)
    ensures j <= |s| && i <= j ==> r == s[i..j]
  {
    var a := if i < |s| then i else |s|;
    var b := if j < |s| then j else |s|;
    if a <= b then s[a..b] else []
  }

  /** The signature check of `from_wire`. `message` is the whole frame after its
      length and `rest` what follows the version. */
  function CheckAuth(c: Crypto, message: seq<byte>, rest: seq<byte>, secret: Option<string>,
                     hasAuth: bool): (r: Result<()>)
    ensures secret.None? || !hasAuth ==> r == Raise(BadAuth, "signature mismatch")
    ensures r.Ok? ==> |message| >= 43 && Slice(rest, 0, 21) == AuthFixed &&
                      Slice(rest, 21, 43) == Signature(c, secret.value, Slice(rest, 43, |rest|))
  {
    if secret.None? || !hasAuth then Raise(BadAuth, "signature mismatch")
    else if |message| < 43 then Raise(UnexpectedEnd, "encrypted message too short")
    else
      var sig := Signature(c, secret.value, Slice(rest, 43, |rest|));
      if Slice(rest, 0, 21) != AuthFixed then Raise(BadAuth, "unknown auth mechanism")
      else if sig != Slice(rest, 21, 43) then Raise(BadAuth, "signature mismatch")
      else Ok(())
  }

  /** `_ctrl['_enc'] = '1'` on a decrypted message; TypeError where `_ctrl`
      is absent (the syntax checks rule that out). */
  function MarkEncrypted(t: Dict): (r: Result<Dict>)
    ensures r.Ok? <==> Section(Table(t), "_ctrl").Some?
    ensures r.Ok? ==> Section(Table(r.value), "_ctrl").Some? &&
                      Get(Section(Table(r.value), "_ctrl").value, "_enc") == Some(Text("1"))
    ensures r.Ok? ==> forall k :: k != "_ctrl" ==> Get(r.value, k) == Get(t, k)
  {
    match Get(t, "_ctrl")
    case Some(Table(ct)) => Ok(Put(t, "_ctrl", Table(Put(ct, "_enc", Text("1")))))
    case _ => Raise(TypeError)
  }

  /** The inner frame of an encrypted body: decrypt with the IV that leads
      `data`, read the length, inflate when compressed. */
  function Plaintext(c: Crypto, secret: string, data: seq<byte>, compressed: bool): (r: Result<seq<byte>>)
    ensures |data| % BlockSize != 0 ==> r.Err? && r.error.cls == BadForm
  {
    if |data| % BlockSize != 0 then
      Raise(BadForm, "encrypted input is not a multiple of AES block size")
    else if |data| < BlockSize then
      Raise(ValueError, "Incorrect IV length")
    else
      var key := c.sha256(Utf8.Encode(secret));
      var plain := c.aesDecrypt(key, data[..BlockSize], data[BlockSize..]);
      if |plain| < 4 then Raise(StructError, "unpack requires a buffer of 4 bytes")
      else
        var wirelen := Unpack32(plain[..4]);
        var wire :-
          if compressed then
            match c.inflate(plain[4..])
            case None => Raise(ZlibError)
            case Some(w) => Ok(w)
          else Ok(plain[4..]);
        if wirelen > |wire| then Raise(UnexpectedEnd, "inner message too short")
        else Ok(wire[..wirelen])
  }

  /** The decryption path of `from_wire` for the binary `data` found under
      `_aes256` (or `_aes256z` when `compressed`). */
  function Decrypt(c: Crypto, secret: string, data: seq<byte>, compressed: bool): (r: Result<Dict>)
    ensures |data| % BlockSize != 0 ==> r.Err? && r.error.cls == BadForm
    ensures r.Ok? ==> Section(Table(r.value), "_ctrl").Some? &&
                      Get(Section(Table(r.value), "_ctrl").value, "_enc") == Some(Text("1"))
  {
    var wire :- Plaintext(c, secret, data, compressed);
    var table :- DecodeTop(wire);
    var ok :- BasicSyntaxChecks(table, false);
    MarkEncrypted(table)
  }

  /** `_ctrl.pop('_enc', None)` on a message that was not encrypted. */
  function Unmark(t: Dict): (r: Result<Dict>)
    ensures r.Ok? <==> Section(Table(t), "_ctrl").Some?
    ensures r.Ok? ==> Section(Table(r.value), "_ctrl").Some? &&
                      !Has(Section(Table(r.value), "_ctrl").value, "_enc")
    ensures r.Ok? ==> forall k :: k != "_ctrl" ==> Get(r.value, k) == Get(t, k)
  {
    match Get(t, "_ctrl")
    case Some(Table(ct)) => Ok(Put(t, "_ctrl", Table(Remove(ct, "_enc"))))
    case _ => Raise(AttributeError)
  }

  /** `from_wire(message, secret)`: `message` is a frame without its length. */
  function FromWire(c: Crypto, message: seq<byte>, secret: Option<string>): (r: Result<Dict>)
    ensures |message| < 4 ==> r.Err? && r.error.cls == UnexpectedEnd
    ensures |message| >= 4 && Unpack32(message[..4]) != CcVersion ==> r.Err? && r.error.cls == BadVersion
    ensures r.Ok? ==> Section(Table(r.value), "_ctrl").Some?
  {
    if |message| < 4 then Raise(UnexpectedEnd, "message version too short")
    else if Unpack32(message[..4]) != CcVersion then
      Raise(BadVersion, "unknown version " + PyInt.Str(Unpack32(message[..4])))
    else
      var rest := message[4..];
      var table :- DecodeTop(rest);
      var ok :- BasicSyntaxChecks(table, true);
      var hasAuth := Has(table, "_auth");
      var authed :- if secret.Some? || hasAuth then CheckAuth(c, message, rest, secret, hasAuth) else Ok(());
      var z, a := Get(table, "_aes256z"), Get(table, "_aes256");
      if z.None? && a.None? then Unmark(table)
      else
        var data := if z.Some? then z.value else a.value;
        if !data.Bin? then Raise(BadForm, "encrypted input is not a string")
        else if secret.None? then Raise(NeedSecret)
        else Decrypt(c, secret.value, data.b, z.Some?)
  }

  /** The `_auth` section of a signed frame as it reads back (bytes in tables,
      so it decodes to itself); nothing when there is no secret. */
  function AuthSection(c: Crypto, secret: Option<string>, body: seq<byte>): Dict {
    if secret.Some? then AuthTable(Signature(c, secret.value, body)) else []
  }

  /** The layout of a frame `to_wire` writes without encryption: the encoded
      message follows the version, after the 43-octet `_auth` section whose
      signature is that of the encoded message when there is a secret. */
  lemma PlainLayout(c: Crypto, m: Dict, secret: Option<string>, iv: seq<byte>)
    requires |iv| == BlockSize && DigestsAre16(c) && ToWire(c, m, secret, iv).Ok?
    requires !Has(Section(Table(ToWire(c, m, secret, iv).value.message), "_ctrl").value, "_enc")
    ensures var f := ToWire(c, m, secret, iv).value;
            var u := EncodeTable(f.message, Chars).value;
            f.wire[8..] == (if secret.Some? then AuthFixed + Signature(c, secret.value, u) else []) + u
  {
    ToWireSteps(c, m, secret, iv);
    var p := Popped(m).value;
    var u := EncodeTable(p.0, Chars).value;
    assert Body(c, u, false, secret, p.1, iv) == Ok(u);
    if secret.Some? {
      var sig := Signature(c, secret.value, u);
      SignatureLength(c, secret.value, u);
      AuthLayout(sig);
    } else {
      assert [] + u == u;
    }
  }

  /** The steps of a successful `to_wire`. */
  lemma ToWireSteps(c: Crypto, m: Dict, secret: Option<string>, iv: seq<byte>)
    requires |iv| == BlockSize && ToWire(c, m, secret, iv).Ok?
    ensures Popped(m).Ok? && EncodeTable(Popped(m).value.0, Chars).Ok?
    ensures var p := Popped(m).value;
            var u := EncodeTable(p.0, Chars).value;
            var b := Body(c, u, Has(Section(Table(p.0), "_ctrl").value, "_enc"), secret, p.1, iv);
            b.Ok? && Envelope(c, b.value, secret).Ok? &&
            ToWire(c, m, secret, iv).value == Framed(Envelope(c, b.value, secret).value, p.0)
  {
  }

  /** What an unencrypted frame needs so that it reads back: a message the
      codec can round-trip, that does not ask for encryption, has no `_aes256`
      or `_aes256z` of its own, and whose decoded image passes the syntax checks. */
  predicate PlainSendable(sent: Dict) {
    Section(Table(sent), "_ctrl").Some? &&
    !Has(Section(Table(sent), "_ctrl").value, "_enc") &&
    !Has(sent, "_aes256") && !Has(sent, "_aes256z") && !Has(sent, "_auth") &&
    DistinctKeys(sent) && EntriesWellKeyed(sent) && AsciiEntries(sent) && EncodeTable(sent, Chars).Ok? &&
    DecodedTable(sent, true, None).Some? && PlainShape(DecodedTable(sent, true, None).value)
  }

  /** The outer table of such a frame decodes to its `_auth` section followed
      by the decoded message. */
  lemma DecodeSigned(c: Crypto, secret: Option<string>, sent: Dict)
    requires DigestsAre16(c) && PlainSendable(sent)
    ensures var u := EncodeTable(sent, Chars).value;
            DecodeTop((if secret.Some? then AuthFixed + Signature(c, secret.value, u) else []) + u) ==
            Ok(AuthSection(c, secret, u) + DecodedTable(sent, true, None).value)
  {
    var u := EncodeTable(sent, Chars).value;
    var ds := DecodedTable(sent, true, None).value;
    if secret.None? {
      DecodeTopEncodeTable(sent, Chars);
      assert [] + u == u;
      assert AuthSection(c, secret, u) + ds == ds;
    } else {
      var sig := Signature(c, secret.value, u);
      SignatureLength(c, secret.value, u);
      DecodeAuthThen(sig, sent);
      assert AuthSection(c, secret, u) == AuthTable(sig);
    }
  }

  /** The `_auth` value is bytes in a table with one key, and so decodes to itself. */
  lemma AuthValueWire(sig: seq<byte>)
    ensures var v := Table([Entry("hmd5", Bin(sig))]);
            WellKeyed(v) && Decoded(v, None) == Some(v)
  {
    var t := [Entry("hmd5", Bin(sig))];
    assert t[1..] == [];
    assert WellKeyed(t[0].val) && EntriesWellKeyed(t[1..]);
    assert DistinctKeys(t) && EntriesWellKeyed(t);
    assert IsWire(Table(t));
    DecodedWire(Table(t));
  }

  /** `cc_auth_fixed`, a signature, then a message: the `_auth` section is read
      first and the message's entries after it. */
  lemma DecodeAuthThen(sig: seq<byte>, sent: Dict)
    requires |sig| == 22 && !Has(sent, "_auth") && DistinctKeys(sent) && EntriesWellKeyed(sent)
    requires AsciiEntries(sent)
    requires EncodeTable(sent, Chars).Ok? && DecodedTable(sent, true, None).Some?
    ensures DecodeTop(AuthFixed + sig + EncodeTable(sent, Chars).value) ==
            Ok(AuthTable(sig) + DecodedTable(sent, true, None).value)
  {
    var u := EncodeTable(sent, Chars).value;
    var e := AuthTable(sig)[0];
    AuthEntryWire(sig);
    DecodeEncodeEntry(e, Chars, u, true, None, []);
    assert AuthFixed + sig + u == EncodeEntry(e, Chars).value + u;
    forall i | 0 <= i < |sent| ensures !Has([e], sent[i].key) {
      assert sent[i].key in Keys(sent);
      assert Keys([e]) == ["_auth"];
    }
    DecodeEncodeTable(sent, Chars, true, None, [e]);
  }

  /** The one entry of the `_auth` section encodes as `cc_auth_fixed` and the
      signature, and decodes to itself. */
  lemma AuthEntryWire(sig: seq<byte>)
    requires |sig| == 22
    ensures var e := AuthTable(sig)[0];
            AuthTable(sig) == [e] && e.key == "_auth" && EncodeEntry(e, Chars) == Ok(AuthFixed + sig) &&
            Utf8.IsAscii(e.key) && AsciiKeys(e.val) &&
            WellKeyed(e.val) && Decoded(e.val, SubStringify(true, e.key, None)) == Some(e.val) &&
            Put([], "_auth", e.val) == [e]
  {
    AuthLayout(sig);
    var e := Entry("_auth", Table([Entry("hmd5", Bin(sig))]));
    assert AuthTable(sig) == [e];
    EncodeTableCons(AuthTable(sig), Chars);
    assert Utf8.Encode("_auth") == [0x5f, 0x61, 0x75, 0x74, 0x68] && KeyLength("_auth", Chars) == 5;
    assert Utf8.Encode("hmd5") == [0x68, 0x6d, 0x64, 0x35] && KeyLength("hmd5", Chars) == 4;
    assert AsciiEntries([Entry("hmd5", Bin(sig))][1..]);
    assert AuthTable(sig)[1..] == [];
    assert EncodeTable(AuthTable(sig)[1..], Chars) == Ok([]);
    assert EncodeEntry(e, Chars).value + [] == EncodeEntry(e, Chars).value;
    assert EncodeEntry(e, Chars).Ok? && AuthFixed + sig == EncodeEntry(e, Chars).value;
    AuthValueWire(sig);
  }

  /** In the decoded frame, every key but `_auth` is looked up in the
      decoded message. */
  lemma AuthSectionGet(c: Crypto, secret: Option<string>, u: seq<byte>, ds: Dict, k: string)
    requires k != "_auth"
    ensures Get(AuthSection(c, secret, u) + ds, k) == Get(ds, k)
  {
    if secret.Some? {
      GetCons(AuthSection(c, secret, u)[0], ds, k);
    } else {
      assert AuthSection(c, secret, u) + ds == ds;
    }
  }

  /** The checks `from_wire` makes on the decoded frame pass, it finds no
      encrypted section, and its `_ctrl.pop('_enc')` leaves the frame as it is. */
  lemma ReadBackChecks(c: Crypto, secret: Option<string>, sent: Dict)
    requires PlainSendable(sent)
    ensures var u := EncodeTable(sent, Chars).value;
            var t := AuthSection(c, secret, u) + DecodedTable(sent, true, None).value;
            BasicSyntaxChecks(t, true).Ok? && (Has(t, "_auth") <==> secret.Some?) &&
            Get(t, "_aes256z").None? && Get(t, "_aes256").None? && Unmark(t) == Ok(t)
  {
    ReadBackShape(c, secret, sent);
    ReadBackUnmark(c, secret, sent);
    var u := EncodeTable(sent, Chars).value;
    var ds := DecodedTable(sent, true, None).value;
    AuthSectionGet(c, secret, u, ds, "_aes256");
    AuthSectionGet(c, secret, u, ds, "_aes256z");
    DecodedTableGet(sent, true, None, "_aes256");
    DecodedTableGet(sent, true, None, "_aes256z");
  }

  lemma ReadBackShape(c: Crypto, secret: Option<string>, sent: Dict)
    requires PlainSendable(sent)
    ensures var t := AuthSection(c, secret, EncodeTable(sent, Chars).value) + DecodedTable(sent, true, None).value;
            PlainShape(t) && AuthShape(t) && (Has(t, "_auth") <==> secret.Some?)
  {
    var u := EncodeTable(sent, Chars).value;
    var ds := DecodedTable(sent, true, None).value;
    var t := AuthSection(c, secret, u) + ds;
    AuthSectionGet(c, secret, u, ds, "_ctrl");
    AuthSectionGet(c, secret, u, ds, "_data");
    assert Section(Table(t), "_ctrl") == Section(Table(ds), "_ctrl");
    assert Section(Table(t), "_data") == Section(Table(ds), "_data");
    DecodedTableGet(sent, true, None, "_auth");
    if secret.Some? {
      assert t[0] == AuthTable(Signature(c, secret.value, u))[0];
      assert Get(t, "_auth") == Some(t[0].val);
    } else {
      assert t == ds;
    }
  }

  lemma ReadBackUnmark(c: Crypto, secret: Option<string>, sent: Dict)
    requires PlainSendable(sent)
    ensures var t := AuthSection(c, secret, EncodeTable(sent, Chars).value) + DecodedTable(sent, true, None).value;
            Unmark(t) == Ok(t)
  {
    var u := EncodeTable(sent, Chars).value;
    var ds := DecodedTable(sent, true, None).value;
    var t := AuthSection(c, secret, u) + ds;
    AuthSectionGet(c, secret, u, ds, "_ctrl");
    var ct := Section(Table(sent), "_ctrl").value;
    DecodedTableGet(sent, true, None, "_ctrl");
    SectionGet(sent, "_ctrl");
    assert DecodedTable(ct, false, None).Some?;
    var dct := DecodedTable(ct, false, None).value;
    assert Get(t, "_ctrl") == Some(Table(dct));
    DecodedTableGet(ct, false, None, "_enc");
    RemoveAbsent(dct, "_enc");
    PutSame(t, "_ctrl", Table(dct));
  }

  /** An unencrypted frame that `to_wire` wrote reads back with the same
      secret: `from_wire` returns the decoded message, after the `_auth`
      section when it was signed. */
  lemma PlainRoundTrip(c: Crypto, m: Dict, secret: Option<string>, iv: seq<byte>)
    requires |iv| == BlockSize && DigestsAre16(c) && ToWire(c, m, secret, iv).Ok?
    requires PlainSendable(ToWire(c, m, secret, iv).value.message)
    ensures var f := ToWire(c, m, secret, iv).value;
            FromWire(c, f.wire[4..], secret) ==
            Ok(AuthSection(c, secret, EncodeTable(f.message, Chars).value) + DecodedTable(f.message, true, None).value)
  {
    var f := ToWire(c, m, secret, iv).value;
    PlainLayout(c, m, secret, iv);
    var message := f.wire[4..];
    assert message[..4] == BE32(CcVersion);
    assert message[4..] == f.wire[8..];
    ReadPlainFrame(c, message, secret, f.message);
  }

  /** `from_wire` of the version, an optional `_auth` section and an encoded
      message. */
  lemma ReadPlainFrame(c: Crypto, message: seq<byte>, secret: Option<string>, sent: Dict)
    requires DigestsAre16(c) && PlainSendable(sent)
    requires |message| >= 4 && message[..4] == BE32(CcVersion)
    requires var u := EncodeTable(sent, Chars).value;
             message[4..] == (if secret.Some? then AuthFixed + Signature(c, secret.value, u) else []) + u
    ensures FromWire(c, message, secret) ==
            Ok(AuthSection(c, secret, EncodeTable(sent, Chars).value) + DecodedTable(sent, true, None).value)
  {
    var u := EncodeTable(sent, Chars).value;
    DecodeSigned(c, secret, sent);
    ReadBackChecks(c, secret, sent);
    Unpack32BE32(CcVersion);
    var t := AuthSection(c, secret, u) + DecodedTable(sent, true, None).value;
    if secret.Some? {
      SignatureLength(c, secret.value, u);
      CheckAuthPasses(c, message, secret.value, u);
    }
    FromWireUnencrypted(c, message, secret, t);
  }

  /** A signed body passes the signature check. */
  lemma CheckAuthPasses(c: Crypto, message: seq<byte>, secret: string, u: seq<byte>)
    requires |Signature(c, secret, u)| == 22
    requires |message| >= 4 && message[4..] == AuthFixed + Signature(c, secret, u) + u
    ensures CheckAuth(c, message, message[4..], Some(secret), true) == Ok(())
  {
    var rest := message[4..];
    assert rest[0..21] == AuthFixed && rest[21..43] == Signature(c, secret, u) && rest[43..|rest|] == u;
    assert Slice(rest, 0, 21) == AuthFixed && Slice(rest, 21, 43) == Signature(c, secret, u);
    assert Slice(rest, 43, |rest|) == u;
  }

  /** The unencrypted path of `from_wire`: once the outer table is decoded,
      checked and authenticated and holds no encrypted section, the result is
      that table with `_ctrl._enc` popped. */
  lemma FromWireUnencrypted(c: Crypto, message: seq<byte>, secret: Option<string>, t: Dict)
    requires |message| >= 4 && Unpack32(message[..4]) == CcVersion
    requires DecodeTop(message[4..]) == Ok(t) && BasicSyntaxChecks(t, true).Ok?
    requires secret.Some? || Has(t, "_auth") ==>
               CheckAuth(c, message, message[4..], secret, Has(t, "_auth")).Ok?
    requires Get(t, "_aes256z").None? && Get(t, "_aes256").None?
    ensures FromWire(c, message, secret) == Unmark(t)
  {
  }

  /** Once the outer table is decoded, `from_wire` fails as the syntax checks
      do (with BadForm), and after them with BadAuth when exactly one of the
      secret and the `_auth` section is there. */
  lemma FromWireRejects(c: Crypto, message: seq<byte>, secret: Option<string>)
    requires |message| >= 4 && Unpack32(message[..4]) == CcVersion && DecodeTop(message[4..]).Ok?
    ensures var t := DecodeTop(message[4..]).value;
            BasicSyntaxChecks(t, true).Err? ==>
              FromWire(c, message, secret).Err? && FromWire(c, message, secret).error.cls == BadForm
    ensures var t := DecodeTop(message[4..]).value;
            BasicSyntaxChecks(t, true).Ok? && (secret.Some? != Has(t, "_auth")) ==>
              FromWire(c, message, secret) == Raise(BadAuth, "signature mismatch")
  {
  }

  /** `_ctrl._enc` is in the result exactly when the frame was encrypted: it is
      popped from a plain frame and set to '1' in a decrypted one. */
  lemma FromWireEncMarker(c: Crypto, message: seq<byte>, secret: Option<string>)
    requires FromWire(c, message, secret).Ok?
    ensures |message| >= 4 && DecodeTop(message[4..]).Ok?
    ensures var t := DecodeTop(message[4..]).value;
            var ctrl := Section(Table(FromWire(c, message, secret).value), "_ctrl").value;
            (Has(t, "_aes256z") || Has(t, "_aes256") <==> Has(ctrl, "_enc")) &&
            (Has(ctrl, "_enc") ==> Get(ctrl, "_enc") == Some(Text("1")))
  {
  }

  /** A message whose `_ctrl` asks for `_enc` cannot be written without a secret. */
  lemma EncryptNeedsSecret(c: Crypto, m: Dict, iv: seq<byte>)
    requires |iv| == BlockSize && Popped(m).Ok? && EncodeTable(Popped(m).value.0, Chars).Ok?
    requires Has(Section(Table(Popped(m).value.0), "_ctrl").value, "_enc")
    ensures ToWire(c, m, None, iv) == Raise(NeedSecret)
  {
  }
}
