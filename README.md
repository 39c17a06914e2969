# nomcc in Dafny

A model of the protocol layer of nomcc, the Python client for the Nominum
Command Channel, with proofs of what that layer promises. Sockets, threads
and cryptography are abstracted away. What remains is sequential and
deterministic: strings, octets, maps and counters.

- **Codec** (`Codec`, `CodecRoundTrip`; nomcc/wire.py). Values are
  type-length-value encoded. A value is a type octet (1 binary data, 2 table,
  3 list), a four-octet big-endian length and the payload. Table entries
  carry a one-octet key length. Tables are ordered association lists because
  the encoder writes keys in dict order. The key length is counted in
  characters, as the source counts it. The decoder is proved to invert the
  encoder when the keys are ASCII, and for any keys once they are counted in
  octets. Tuples come back as lists. Binary leaves come back as text only
  under the top-level `_data` table. Every malformed input is proved to raise
  UnexpectedEnd or BadForm.
- **Frames** (`Wire`; nomcc/wire.py). A frame is a length, the version 1, an
  optional 43-octet `_auth` table, then the body. The model covers the
  syntax checks, the signature and padding arithmetic, and the errors
  `from_wire` raises. AES, SHA-256, HMAC-MD5 and DEFLATE are parameters
  (`Wire.Crypto`). Base64 of the digest is computed outright.
- **Nonces and sequence numbers** (`Connection`; nomcc/connection.py). The
  class `Connection.Conn` holds the nonce fields, the encryption flags and the
  table of outstanding requests. It stamps messages written and checks
  messages read. It matches each reply to exactly one outstanding request.
  It also covers the encryption-algorithm handshake, `_read_response`, the
  size limit of `_read` and `channelify`.
- **Messages** (`Message`; nomcc/message.py): `kind`, `reply_to`, `error`,
  `request`, `event` and the three predicates.
- **Sessions** (`Session`; nomcc/session.py). The class `RequestState` and
  its `get_response` decision. The class `Session` holds its state objects,
  the sequence-id table with its `next_id` counter, the FIFO write queue and
  its closed state. It also covers `ask`'s normalisation, one step of the
  reader's handling policy, and the part of `_close` that fails everything
  pending.
- **Sequence reader** (`Sequence`; nomcc/sequence.py). The class `Reader`
  steps through `__next__` and `close`. `session.tell` is the class `Teller`,
  which answers from a list of responses given in advance.
- **Dispatcher** (`Dispatcher`; nomcc/dispatcher.py). The class `Dispatcher`
  covers handler registration, argument validation in `handle` and
  `fallback`, the routing rules of `__call__` and `_handle_next`. A handler
  is an opaque value. What each handler does with the routed message is a
  parameter.
- **Configuration and addresses** (`ChannelConf`, `Addrport`, `Channel`,
  `Exceptions`). These cover the quoting tokenizer and option parser of
  channel.conf and its per-line rules, the parsing and printing of
  `addr[%scope][#port]`, channel normalisation, and exception message
  formatting.
- **Support** (`PyInt`, `PyStr`, `Bytes`, `Utf8`, `Values`). These are
  Python's `str()`/`int()` on integers, the `str` methods used, big-endian
  integers, a strict UTF-8 codec standing for `maybe_encode`/`maybe_decode`,
  and the Python values messages are built from.

Every operation that can raise returns an `Exceptions.Result`. The error
carries the exception class and its message. Python's `int` is unbounded, so
the model's `int` is too. The 63-bit nonce range and the 4-octet and 1-octet
length fields are checked explicitly where the source checks them.

## Model

| member | source | states |
|---|---|---|
| Exceptions.Str | nomcc/exceptions.py:21-29 | `str(e)` of a nomcc exception raised with no message is its class's default message. With a message it is the default message, `': '` and the message when the class always uses its default, and the message alone otherwise. A built-in exception prints its message |
| Exceptions.ErrorStr | nomcc/exceptions.py:116-121 | `Error(detail)` prints the detail alone, or "unknown error" when the detail is empty |
| Exceptions.DefaultMsgsDistinct | nomcc/exceptions.py:31-126 | each subclass of CCException has its own non-empty default message, different from every other class's |
| Addrport.New | nomcc/addrport.py:132-141 | `new` builds an IPv6 addrport exactly when the text contains a colon |
| Addrport.SendingSockaddr | nomcc/addrport.py:69-129 | the family and port are kept, and an IPv6 result has flow information 0 and the addrport's scope. The wildcard 0.0.0.0 becomes 127.0.0.1 and :: becomes ::1; any other address is sent to as is |
| Addrport.Parse4 | nomcc/addrport.py:51-61 | an IPv4 text gives an IPv4 addrport whose address is a prefix of the text without `#`, shorter than the text exactly when the text has a `#`. Only a port that `int()` rejects raises, with ValueError. `Parse4Split` and `Str4RoundTrip` give the round trip |
| Addrport.Str | nomcc/addrport.py:111-116 | `str()` (with nomcc/addrport.py:63-64) starts with the address and ends with `#` and the port in decimal. A `%` follows the address exactly for an IPv6 addrport whose scope is not 0. `Str4RoundTrip` and `Str6RoundTrip` give the round trip |
| Addrport.Parse4NoPort | nomcc/addrport.py:51-61 | an IPv4 text without `#` is the address with port 0 |
| Addrport.Parse4Split | nomcc/addrport.py:51-61 | an IPv4 text is split at its first `#`, and the rest is read with `int()` |
| Addrport.Str4RoundTrip | nomcc/addrport.py:51-64 | parsing `str()` of an IPv4 addrport gives it back |
| Addrport.Parse6 | nomcc/addrport.py:91-109 | an IPv6 text gives an IPv6 addrport whose address is a prefix of the text without `#` or `%`, with scope 0 when the text has no `%`. Only a port or scope that `int()` rejects raises, with ValueError. `Parse6Scope` and `Str6RoundTrip` give the round trip |
| Addrport.PortPart | nomcc/addrport.py:93-99 | the part before the first `#` (all of the text without one) has no `#` and is a prefix of the text; only a port that `int()` rejects raises, with ValueError |
| Addrport.Scoped | nomcc/addrport.py:100-108 | the address is cut at the first `%` of the whole text and has no `%` or `#`; without `%` the scope is 0; only a scope that `int()` rejects raises, with ValueError |
| Addrport.Parse6NoScope | nomcc/addrport.py:91-109 | an IPv6 text without `%` has scope 0 |
| Addrport.Parse6Scope | nomcc/addrport.py:91-109 | `a%s#p` reads as address `a`, scope `int(s)` and port `int(p)` |
| Addrport.FindScope | nomcc/addrport.py:100-103 | the scope separator found is the first `%` of the text |
| Addrport.Str6RoundTrip | nomcc/addrport.py:91-116 | parsing `str()` of an IPv6 addrport gives it back, and the text has a `%` exactly when the scope is not 0 |
| Addrport.NewRoundTrip | nomcc/addrport.py:132-141 | `new(str(ap)) == ap` for every addrport whose address is IPv6 exactly when it contains a colon |
| Channel.AddrportOf | nomcc/channel.py:24-29 | an Addrport object is kept as is; text that is not all digits is parsed by `addrport.new` |
| Channel.New | nomcc/channel.py:21-36 | the channel exists exactly when its addrport parses. It keeps the name, turns the secret `*` into no secret, and turns missing options into an empty dict |
| Channel.DigitsAreLoopbackPort | nomcc/channel.py:27-29 | text of digits alone is that port on 127.0.0.1 |
| Message.KindNames | nomcc/message.py:66-76 | the name of every kind is in `kinds`, and different kinds have different names |
| Message.Item | nomcc/message.py:17-32 | `message[key]` succeeds exactly when the key is present, and otherwise raises KeyError |
| Message.In | nomcc/message.py:53-63 | `key in v` on a dict is membership of the key. On bytes or an integer it is a TypeError |
| Message.KindOf | nomcc/message.py:66-73 | a message with a dict `_ctrl` always has a kind: response when `_rpl` is present, else event when `_evt` is present, else request |
| Message.PredicatesAgreeWithKind | nomcc/message.py:53-73 | `is_request` and `is_reply` succeed exactly when `kind` does, and are true exactly for kind request and kind response. An event satisfies `is_event` |
| Message.NewRequest | nomcc/message.py:41-44 | `request(content)` is a request whose `_data` is the content and whose `_ctrl` is empty |
| Message.NewEvent | nomcc/message.py:47-50 | `event(content)` is an event whose `_data` is the content |
| Message.GetIn | nomcc/message.py:24-27 | `get` succeeds only on a dict, and looks the key up there |
| Message.IndexIn | nomcc/message.py:22-30 | indexing succeeds exactly on a dict that has the key |
| Message.ReplyTo | nomcc/message.py:17-32 | the reply exists exactly when the request's `_ctrl` has `_sseq` and the type can be found. Its `_ctrl` answers that `_sseq` and carries the request's `_seq` |
| Message.ReplyContents | nomcc/message.py:17-32 | a reply has exactly `_ctrl` and `_data`. `_ctrl` marks it a reply to the request's `_sseq` and copies `_seq` when present. `_data` holds the request type, or the request's own type |
| Message.ReplyCtrl | nomcc/message.py:28-31 | the reply `_ctrl` has exactly `_rpl` = b'1', `_rseq`, and `_seq` when given, in that order |
| Message.ReplyData | nomcc/message.py:24-27 | the reply `_data` has exactly the `type`, when there is one |
| Message.ReplyIsResponse | nomcc/message.py:17-32 | the kind of every reply is response |
| Message.ErrorReply | nomcc/message.py:35-38 | `error()` succeeds exactly when `reply_to` does |
| Message.ErrorIsReplyWithErr | nomcc/message.py:35-38 | an error reply is the plain reply with `err` set to the detail, added at the end of its `_data` |
| Codec.Frame | nomcc/wire.py:169 | the header is the type octet and the payload length as 32-bit big-endian, followed by the payload. struct raises its error exactly when the length does not fit in 32 bits |
| Codec.Payload | nomcc/wire.py:160-167 | a leaf's payload is its bytes, the UTF-8 of a text, or the UTF-8 of an integer's decimal text |
| Codec.KeyLength | nomcc/wire.py:143 | the count in front of a key: `len(k)`, its characters, as written (`Chars`), or its UTF-8 octets as corrected (`Octets`). It never exceeds the octets, and equals them exactly when counting octets or when the key is ASCII |
| Codec.EncodeValue | nomcc/wire.py:151-169 | `_encode(v)` succeeds exactly when the payload can be built and its length fits in 32 bits. The result is the frame of the value's type octet and payload. Table keys inside are counted as the mode says; the model's messages use `Chars`, as written |
| Codec.EncodeEntry | nomcc/wire.py:143-145 | an entry is the key's count octet, the key's UTF-8 and the value's encoding. It raises AssertionError exactly when the count is 256 or more, and fails when the value cannot be encoded. With `Chars` this is the source's entry: a key of 200 `é` is written under the count 200 (`LongKeyCounts`) |
| Codec.WriteTable | nomcc/wire.py:140-146 | the loop's result is `EncodeTable(t, Chars)`: the entries in the dict's order, each key counted with `len(k)` as the source counts it |
| Codec.AsciiKeysAgree | nomcc/wire.py:143-145 | when every key at any depth is ASCII, counting characters and counting octets give the same encoding or the same failure |
| Codec.EntryAsWrittenCounterexample | nomcc/wire.py:143-145 | key "é" with empty bytes: as written the entry is `01 C3 A9 01 00 00 00 00` and the decoder rejects it. Counted in octets it decodes back to the same table |
| Codec.LongKeyCounts | nomcc/wire.py:143-144 | a key of 200 `é` passes the `assert` as written (count 200) and fails it when counted in octets (400) |
| Codec.DecodeValue | nomcc/wire.py:202-221 | fewer than 5 octets, or a length longer than the octets that follow, raise UnexpectedEnd. Otherwise the value takes 5 plus the announced length octets |
| Codec.DecodePayload | nomcc/wire.py:209-220 | a type octet other than binary, table or list raises BadForm |
| Codec.DecodeFramed | nomcc/wire.py:202-221 | a framed payload decodes to the payload's value, whatever follows it |
| Codec.DecodeTableEntry | nomcc/wire.py:174-189 | one loop iteration reads the length octet and the key, then the value, assigns the key, and continues after the value |
| Codec.DecodeTableStep | nomcc/wire.py:174-189 | reading one entry laid out as a length octet, a key and a value |
| Codec.DecodeListStep | nomcc/wire.py:195-198 | reading one list item appends it and continues after it |
| Codec.DecodeTableFrom | nomcc/wire.py:172-190 | an empty input ends the table. A key length that runs past the input raises UnexpectedEnd |
| Codec.DecodeTop | nomcc/wire.py:172-190 | the top-level table of empty input is the empty dict, a key length past the end raises UnexpectedEnd, and a decoded table never repeats a key. `CodecRoundTrip.DecodeTopEncodeTable` shows it reads back what `_encode_table` wrote |
| Codec.DecodeListFrom | nomcc/wire.py:193-199 | an empty input ends the list |
| Codec.ReadValue | nomcc/wire.py:202-221 | the method's result is `DecodeValue` |
| Codec.ReadTable | nomcc/wire.py:172-190 | the loop's result is `DecodeTableFrom(item, top, ws, [])` |
| Codec.ReadList | nomcc/wire.py:193-199 | the loop's result is `DecodeListFrom(item, ws, [])` |
| CodecRoundTrip.DecodeEncodeValue | nomcc/wire.py:151-221 | decoding what `_encode` wrote gives the value's decoded image, consumes exactly its octets, and leaves what follows unread: for any keys counted in octets, and for ASCII keys counted as the source counts them |
| CodecRoundTrip.DecodePayloadOf | nomcc/wire.py:151-221 | the payload `_encode` wrote decodes to the value's decoded image |
| CodecRoundTrip.DecodeEncodeItems | nomcc/wire.py:157-199 | `_decode_list` reads back the list payload that `b''.join(map(_encode, items))` wrote |
| CodecRoundTrip.EntryOctets | nomcc/wire.py:145 | the octets of one entry whose count octet is its key's octet length (always with `Octets`, for an ASCII key with `Chars`) |
| CodecRoundTrip.DecodeEncodeEntry | nomcc/wire.py:145-189 | reading one entry that `_encode_table` wrote assigns its decoded value to the key |
| CodecRoundTrip.FreshKeys | nomcc/wire.py:188 | assigning a key not yet present appends it, so later keys stay fresh |
| CodecRoundTrip.EncodeTableCons | nomcc/wire.py:142-145 | a table's encoding is its first entry's followed by the rest's |
| CodecRoundTrip.DecodedTableCons | nomcc/wire.py:179-185 | the decoded image of a table, entry by entry |
| CodecRoundTrip.DecodedTableGet | nomcc/wire.py:172-190 | decoding keeps a table's keys, and each key holds the decoded image of its value |
| CodecRoundTrip.DecodeEncodeTable | nomcc/wire.py:140-190 | `_decode_table` reads back what `_encode_table` wrote, with the entries in the same order, for any keys counted in octets and for ASCII keys counted with `len(k)` |
| CodecRoundTrip.DecodeTopEncodeTable | nomcc/wire.py:140-190 | the top-level decoder reads back a whole message that `_encode_table` wrote: as written when every key is ASCII, and with the corrected count for any keys |
| CodecRoundTrip.DecodedTopSections | nomcc/wire.py:179-185 | only the top-level `_data` entry is decoded with stringification; every other top-level entry is decoded without it |
| CodecRoundTrip.DecodedWire | nomcc/wire.py:209-218 | without stringification, a value made of bytes, lists and tables decodes to itself |
| CodecRoundTrip.DecodedWireItems | nomcc/wire.py:193-199 | the same for the items of a list |
| CodecRoundTrip.DecodedWireTable | nomcc/wire.py:172-190 | the same for the entries of a table |
| CodecRoundTrip.WireRoundTrip | nomcc/wire.py:151-221 | `_decode(_encode(v))` is `(v, len)` for every value made of bytes, lists and distinct-keyed tables, whose keys are ASCII or counted in octets |
| CodecRoundTrip.StringifiedText | nomcc/wire.py:164-212 | a text comes back as the same text where the decoder stringifies |
| Wire.Base64 | nomcc/wire.py:132 | `base64.b64encode` writes four digits for every started group of three octets |
| Wire.Base64EndsInPad | nomcc/wire.py:132 | when the input length leaves one octet over, as with a 16-octet digest, the encoding ends in `==` |
| Wire.SignatureLength | nomcc/wire.py:130-132 | a signature is 22 octets, and only the `==` padding was cut off the base64 of the HMAC-MD5 digest |
| Wire.AuthLayout | nomcc/wire.py:44-46 | with a 22-octet signature, `{'_auth': {'hmd5': sig}}` encodes as `cc_auth_fixed` followed by the signature (with nomcc/wire.py:133) |
| Wire.HmdLayout | nomcc/wire.py:44-46 | the value `{'hmd5': sig}` encodes as the tail of `cc_auth_fixed` followed by the signature |
| Wire.EncodeFramed | nomcc/wire.py:169 | a value with payload `p` encodes as its type octet, the length of `p` and `p` |
| Wire.EncodeSingle | nomcc/wire.py:140-146 | a one-entry table encodes as that entry |
| Wire.PadLen | nomcc/wire.py:68-70 | the padding is under one block and brings the length to a multiple of 16 |
| Wire.Zeros | nomcc/wire.py:70 | the padding is that many zero octets |
| Wire.EncryptedTable | nomcc/wire.py:63-127 | the encrypted body is the one-entry table `_aes256z` or `_aes256`, chosen by compression. Its bytes start with the IV. It exists exactly when the inner length fits in 32 bits |
| Wire.CtrlForPop | nomcc/wire.py:106 | `message['_ctrl'].pop` succeeds exactly when `_ctrl` is a dict |
| Wire.Popped | nomcc/wire.py:103-106 | `to_wire` removes `_auth` and `_ctrl._comp` from the caller's message and leaves every other entry as it was |
| Wire.Body | nomcc/wire.py:111-127 | an unencrypted body is the encoded message. Asking for `_enc` without a secret raises NeedSecret |
| Wire.Versioned | nomcc/wire.py:109-135 | the version comes first. With a secret the `_auth` section follows, signed over the body. Without one the body follows directly |
| Wire.Envelope | nomcc/wire.py:129-139 | the 32-bit length prefix counts the octets after it, then the version. An unsigned frame's body starts at octet 8 |
| Wire.ToWire | nomcc/wire.py:97-139 | the result is a length-prefixed frame. The caller's message keeps a dict `_ctrl`, loses `_auth` and `_comp`, and keeps every other key. A message without a dict `_ctrl` fails. Tables are encoded as written, each key counted with `len(k)` |
| Wire.PlainChecks | nomcc/wire.py:230-251 | the checks on `_ctrl`, `_data`, `type` and `err` pass exactly when the message has that shape, and otherwise raise BadForm |
| Wire.BasicSyntaxChecks | nomcc/wire.py:224-255 | passes exactly when the message is encrypted or has the plain shape, and any `_auth` is a table; otherwise BadForm |
| Wire.Slice | nomcc/wire.py:279-281 | Python slicing clamps out-of-range bounds and agrees with a sequence slice within range |
| Wire.CheckAuth | nomcc/wire.py:274-288 | a secret without `_auth`, or `_auth` without a secret, is "signature mismatch". A pass means the frame is at least 43 octets, starts with `cc_auth_fixed`, and carries the signature of what follows |
| Wire.MarkEncrypted | nomcc/wire.py:326-327 | a decrypted message gets `_ctrl._enc` = '1', and every other entry is kept |
| Wire.Plaintext | nomcc/wire.py:309-322 | encrypted data that is not a whole number of 16-octet blocks raises BadForm |
| Wire.Decrypt | nomcc/wire.py:309-329 | encrypted data not a multiple of the block size raises BadForm. A decrypted message carries `_ctrl._enc` = '1' |
| Wire.Unmark | nomcc/wire.py:293-295 | `_ctrl.pop('_enc')` on a plain message keeps every other entry |
| Wire.FromWire | nomcc/wire.py:258-329 | a frame shorter than 4 octets raises UnexpectedEnd, and a version other than 1 raises BadVersion. Every message returned has a dict `_ctrl` |
| Wire.PlainLayout | nomcc/wire.py:129-139 | an unencrypted frame is the version, then the 43-octet `_auth` section when there is a secret, then the encoded message |
| Wire.ToWireSteps | nomcc/wire.py:97-139 | a successful `to_wire` is the pops, then the encoding, the body and the envelope |
| Wire.DecodeSigned | nomcc/wire.py:270 | the outer table of such a frame decodes to its `_auth` section followed by the decoded message |
| Wire.AuthValueWire | nomcc/wire.py:133 | the `_auth` value decodes to itself |
| Wire.DecodeAuthThen | nomcc/wire.py:133 | `cc_auth_fixed`, a signature and a message decode to the `_auth` section followed by the message's entries, when the message's keys are ASCII (with nomcc/wire.py:270) |
| Wire.AuthEntryWire | nomcc/wire.py:44-46 | the one entry of the `_auth` section encodes as `cc_auth_fixed` plus the signature, its keys `_auth` and `hmd5` are ASCII, and it decodes to itself (with nomcc/wire.py:133) |
| Wire.AuthSectionGet | nomcc/wire.py:270 | in the decoded frame, every key except `_auth` is looked up in the message |
| Wire.ReadBackChecks | nomcc/wire.py:271-295 | on such a frame the syntax checks pass, `_auth` is present exactly when there is a secret, no encrypted section is found, and popping `_enc` changes nothing |
| Wire.ReadBackShape | nomcc/wire.py:224-255 | the read-back frame has the plain shape and a table `_auth` exactly when signed |
| Wire.ReadBackUnmark | nomcc/wire.py:293-294 | popping `_enc` from the read-back frame changes nothing |
| Wire.PlainRoundTrip | nomcc/wire.py:97-139 | `from_wire(to_wire(m, s), s)` is the decoded message, preceded by its `_auth` section when signed, for every unencrypted message with ASCII keys that the codec round-trips (with nomcc/wire.py:258-295) |
| Wire.ReadPlainFrame | nomcc/wire.py:258-295 | `from_wire` of the version, an optional `_auth` section and an encoded message is that message decoded |
| Wire.CheckAuthPasses | nomcc/wire.py:274-288 | a correctly signed body passes the signature check |
| Wire.FromWireUnencrypted | nomcc/wire.py:290-295 | without an encrypted section, `from_wire` returns the decoded table with `_ctrl._enc` popped |
| Wire.FromWireRejects | nomcc/wire.py:271-276 | a failed syntax check is BadForm. Exactly one of the secret and `_auth` is "signature mismatch" |
| Wire.FromWireEncMarker | nomcc/wire.py:290-329 | `_ctrl._enc` is present in the result exactly when the frame had an encrypted section, and then it is '1' |
| Wire.EncryptNeedsSecret | nomcc/wire.py:111-113 | a message whose `_ctrl` asks for `_enc` cannot be written without a secret: NeedSecret |
| Connection.NonceField | nomcc/connection.py:52-65 | succeeds exactly when the field is present, reads as an integer, lies in 0..2^63-1, and is non-zero unless zero is allowed. The result is that integer. Every failure is BadNoncing. A bytes field read from the wire is read as `int(bytes)` reads it, with only ASCII white space around the digits |
| Connection.NonceFieldByteSeparator | nomcc/connection.py:55-58 | a `_pnon` of `b'\x1c5'` raises BadNoncing "_pnon not an integer", as `int()` on those bytes raises |
| PyInt.ParseBytesAgrees | nomcc/connection.py:55-56 | `int()` of the bytes of a `_ctrl` field and `int()` of the same characters as text agree whenever the bytes hold no white space other than ASCII's |
| PyInt.BytesKeepSeparator | nomcc/connection.py:55-58 | `int(b'\x1c5')` raises, so such a field is "not an integer" and BadNoncing, although `int('\x1c5')` of text is 5 (`PyInt.TextStripsSeparator`) |
| PyInt.TextStripsSeparator | nomcc/connection.py:55-56 | `int('\x1c5')` of text strips the separator and is 5 |
| PyInt.BytesStripAscii | nomcc/connection.py:55-56 | `int(b' 5\n')` strips the ASCII white space and is 5 |
| Connection.NonceFieldOfStamp | nomcc/connection.py:147-149 | a number the writer stamps reads back as that number (with nomcc/connection.py:52-65) |
| Connection.Stamps | nomcc/connection.py:147-149 | `_snon`, `_sseq` and `_pnon` hold the given stamps |
| Connection.StampedStamps | nomcc/connection.py:147-149 | the stamps are the connection's own nonce, its next number and the peer's nonce |
| Connection.FlagsKeep | nomcc/connection.py:157-165 | setting the flags leaves every other field alone |
| Connection.StampedFlags | nomcc/connection.py:157-165 | `_enc` is present exactly when the connection encrypts, and `_comp` exactly when it compresses |
| Connection.FlagsShape | nomcc/connection.py:157-165 | the flags are present exactly when they are on |
| Connection.StampedKeeps | nomcc/connection.py:141-165 | every field except the stamps and the flags is kept, so a request's own `_seq` or `_rpl` survives |
| Connection.StampsKeep | nomcc/connection.py:147-149 | the stamps leave every other field alone |
| Connection.NoncifyInvariant | nomcc/connection.py:151-155 | `_noncify` uses exactly one new number. It registers the message under that number exactly when it is a request. The number was not in use, and every outstanding number stays below the next one |
| Connection.StampsReadBack | nomcc/connection.py:147-194 | the peer's `_check` reads the stamps back as the connection's numbers |
| Connection.CheckSseq | nomcc/connection.py:188-196 | `_sseq` is accepted when it is a valid non-zero number and either the next expected number is unknown or equal to it; then the expected number becomes `_sseq` + 1. A rejection is BadNoncing and changes nothing |
| Connection.CheckSnon | nomcc/connection.py:180-186 | `_snon` is adopted when the peer's nonce is unknown and otherwise must match it. Only the peer's numbers change |
| Connection.CheckPeer | nomcc/connection.py:170-196 | the encryption, `_pnon`, `_snon` and `_sseq` steps fail only with BadNoncing and change only the peer's numbers |
| Connection.CheckReply | nomcc/connection.py:198-206 | only the outstanding table changes, and it only shrinks |
| Connection.Checked | nomcc/connection.py:167-206 | `_check` changes only the peer's numbers and the outstanding table, and never adds to the table |
| Connection.CheckAccepts | nomcc/connection.py:170-196 | an accepted message carries `_enc` if the connection encrypts, and carries our nonce. Its `_snon` is the (first adopted) peer nonce. The expected number becomes its `_sseq` + 1, which is one more than before once known. Our own numbers and flags do not change |
| Connection.CheckMatchesReply | nomcc/connection.py:198-206 | a reply removes exactly the entry its `_rseq` names and returns its state. A reply naming no outstanding request, such as a second reply to the same request, is BadNoncing and leaves the table alone. A non-reply leaves the table alone |
| Connection.CheckInvariant | nomcc/connection.py:167-206 | `_check` keeps every outstanding number below the next one |
| Connection.CheckRejectsEarly | nomcc/connection.py:170-178 | an unencrypted message on an encrypted connection, or a wrong `_pnon`, is BadNoncing before anything changes |
| Connection.PeerFromRequest | nomcc/connection.py:92-105 | the first request is accepted exactly when it is neither a reply nor an event, its `_pnon` is 0, and `_snon` and `_sseq` are valid. The peer state becomes its `_snon` and `_sseq` + 1. Every failure is BadNoncing |
| Connection.EffectivePolicy | nomcc/connection.py:79-84 | without a secret, a desire for encryption becomes no encryption. Every other policy is kept |
| Connection.Hello | nomcc/connection.py:211-214 | the initiator's `version` message has exactly the sections `_ctrl` and `_data`. `_data` is `{'type': b'version'}`. `_ctrl` holds only `_initenc` = `[b'aes256z', b'aes256']`, and holds it exactly when the policy is not UNENCRYPTED; otherwise it is empty |
| Connection.Respond | nomcc/connection.py:215-228 | the responder's reply is a response. Compression is negotiated only with encryption. An unencrypted policy negotiates nothing, and a required one only encryption |
| Connection.SetEncalg | nomcc/connection.py:220-224 | setting `_encalg` keeps the message's kind and stores the algorithm |
| Connection.RespondPrefersCompressed | nomcc/connection.py:218-228 | the responder takes `aes256z` whenever offered, and `aes256` when only that is. With neither it fails exactly when encryption is required |
| Connection.Accept | nomcc/connection.py:231-247 | an `_encalg` with an unencrypted policy, or an unknown `_encalg`, is BadNoncing. No `_encalg` fails exactly when encryption is required. Otherwise encryption is `_encalg` being present, and compression is it being `aes256z` |
| Connection.ResponseTo | nomcc/connection.py:293-300 | a message without `_rpl` is NotResponse. For a response with `_rseq`, answering a request with `_sseq`, the result is the response when `_rseq` equals `_sseq` and BadResponse otherwise |
| Connection.FrameLength | nomcc/connection.py:276-280 | a length above 4 MiB is MessageTooBig, and any other length is accepted as it is |
| Connection.Responded | nomcc/connection.py:215-229 | the responder's handshake succeeds exactly when its reply can be built |
| Connection.ResponderWritesFirst | nomcc/connection.py:229-249 | the handshake reply is stamped with the old flags; on a new connection it carries neither `_enc` nor `_comp` |
| Connection.ResponderSwitches | nomcc/connection.py:229-249 | after the reply the connection holds the negotiated flags, has used one number, and has the same outstanding requests |
| Connection.CtrlToStamp | nomcc/connection.py:142-149 | a missing `_ctrl` is created empty; the stamping raises TypeError exactly when `_ctrl` is there and is not a dict |
| Connection.WithStamps | nomcc/connection.py:147-165 | the message's `_ctrl` becomes the stamped one and every other section is kept |
| Connection.Noncified | nomcc/connection.py:141-165 | `_noncify` raises TypeError exactly when `_ctrl` is there and is not a dict. Otherwise the number moves on by one, the message is registered under the old number when it is a request and not otherwise, the stamped `_ctrl` replaces the old one, and every other section is kept. `NoncifyInvariant` and `StampsReadBack` give the stamps their meaning |
| Connection.NoncifiedShape | nomcc/connection.py:141-165 | `_noncify` on a message with a dict `_ctrl` stores the stamped `_ctrl` and advances the state |
| Connection.Channelify | nomcc/connection.py:314-335 | a Channel is returned as is. Text without `#` names a channel to look up. Anything else is BadChannelValue |
| Connection.LiteralWithoutSecret | nomcc/connection.py:318-330 | `address#port` is a literal channel without a secret |
| Connection.LiteralWithSecret | nomcc/connection.py:318-330 | `address#port#secret` is a literal with that secret, and anything after a further `#` is ignored |
| Connection.Conn.constructor | nomcc/connection.py:74-112 | the state starts with the given nonce, next number 1, the learnt peer, no flags and no outstanding requests |
| Connection.Conn.AddOutstanding | nomcc/connection.py:122-124 | the entry is set and nothing else changes |
| Connection.Conn.DeleteOutstanding | nomcc/connection.py:126-133 | reports whether the number was outstanding and its state, and removes it |
| Connection.Conn.TakeOutstanding | nomcc/connection.py:135-139 | returns the whole table and leaves it empty |
| Connection.Conn.Noncify | nomcc/connection.py:141-165 | the new state and the stamped message are `Noncified` of the old state. On failure nothing changes |
| Connection.Conn.Advance | nomcc/connection.py:151-155 | the new state is `Advanced` of the old one |
| Connection.Conn.Check | nomcc/connection.py:167-206 | the new state and the result are `Checked` of the old state |
| Connection.Conn.MatchPeer | nomcc/connection.py:170-196 | the new state and the result are `CheckPeer` of the old state |
| Connection.Conn.MatchSnon | nomcc/connection.py:180-196 | the new state and the result are `CheckSnon` of the old state |
| Connection.Conn.MatchSseq | nomcc/connection.py:188-196 | the new state and the result are `CheckSseq` of the old state |
| Connection.Conn.MatchReply | nomcc/connection.py:198-206 | the new state and the result are `CheckReply` of the old state |
| Connection.Conn.StartResponder | nomcc/connection.py:215-249 | succeeds exactly when `Respond` does. The new state and the reply are `Responded`. On failure nothing changes |
| Connection.Conn.SetFlags | nomcc/connection.py:248-249 | only the two flags change |
| Connection.Conn.StartInitiator | nomcc/connection.py:211-229 | the `version` request is stamped and registered as `Noncified` says |
| Connection.Conn.FinishInitiator | nomcc/connection.py:230-249 | the reply is checked, matched and accepted as `Finished` says |
| ChannelConf.Run | nomcc/channelconf.py:76-78 | an unquoted word runs up to the first delimiter or the end |
| ChannelConf.SkipDelims | nomcc/channelconf.py:80-81 | skipping delimiters stops at the end or at a non-delimiter |
| ChannelConf.Quoted | nomcc/channelconf.py:60-71 | a quoted word always consumes input, and its only error is SyntaxError |
| ChannelConf.Word | nomcc/channelconf.py:58-79 | a word consumes input, except the empty word in front of a delimiter. Its only error is SyntaxError |
| ChannelConf.WordsFrom | nomcc/channelconf.py:57-83 | the only error of the reader loop is SyntaxError |
| ChannelConf.Split | nomcc/channelconf.py:43-83 | the reader loop over the text returns `Words(s, delim, quoting_ok, bug_compatible)` |
| ChannelConf.ReadWord | nomcc/channelconf.py:58-79 | one iteration reads the word `Word` describes and stops where it ends |
| ChannelConf.SkipFrom | nomcc/channelconf.py:53-81 | the skipping loop stops where `SkipDelims` does |
| ChannelConf.ReadRun | nomcc/channelconf.py:76-78 | the loop collects the run of non-delimiters `Run` measures |
| ChannelConf.ReadQuoted | nomcc/channelconf.py:60-71 | the loop reads the quoted word that `Quoted` describes, or fails as it does |
| ChannelConf.WordsStep | nomcc/channelconf.py:57-81 | one word of the reader loop is put in front of the words after it |
| ChannelConf.AfterPlain | nomcc/channelconf.py:62-68 | inside quotes, a character other than the quote or a backslash is taken as it is |
| ChannelConf.AfterEscape | nomcc/channelconf.py:63-67 | inside quotes, a backslash takes the next character as it is |
| ChannelConf.UnquotedFlag | nomcc/channelconf.py:52-73 | without quoting, the bug-compatible flag matters only at the start of the text |
| ChannelConf.LeadingDelimiter | nomcc/channelconf.py:52-54 | in the bug-compatible mode a leading delimiter gives an empty first word and the rest splits as in the other mode. Without one the modes agree |
| ChannelConf.UnquotedWords | nomcc/channelconf.py:76-81 | without quoting, every word is non-empty and holds no delimiter, and the words together are the text with its delimiters taken out |
| ChannelConf.SkipNonDelims | nomcc/channelconf.py:80-81 | skipping delimiters loses no other character |
| ChannelConf.RunNonDelims | nomcc/channelconf.py:76-78 | a run of non-delimiters is the start of the text without delimiters |
| ChannelConf.QuotedWord | nomcc/channelconf.py:59-72 | a quoted word may hold delimiters, and the closing quote ends it |
| ChannelConf.Unterminated | nomcc/channelconf.py:69-70 | a quote that is never closed is a SyntaxError |
| ChannelConf.TrailingBackslash | nomcc/channelconf.py:63-66 | a backslash at the very end of the text inside quotes is a SyntaxError |
| ChannelConf.AfterClosingQuote | nomcc/channelconf.py:73-74 | outside the bug-compatible mode, text right after a closing quote is a SyntaxError. In that mode it starts the next word |
| ChannelConf.PlainQuoted | nomcc/channelconf.py:62-71 | text without quotes or backslashes is read up to the closing quote |
| ChannelConf.PlainUnterminated | nomcc/channelconf.py:69-70 | such text without a closing quote is a SyntaxError |
| ChannelConf.PlainBackslash | nomcc/channelconf.py:63-66 | such text ending in a backslash is a SyntaxError |
| ChannelConf.OptionsFrom | nomcc/channelconf.py:32-41 | the only error of option parsing is BadChannelConf |
| ChannelConf.ParseOptions | nomcc/channelconf.py:32-41 | the loop builds the dict `OptionsFrom([], items)` |
| ChannelConf.OptionsOk | nomcc/channelconf.py:35-39 | parsing succeeds exactly when every item holds a `=` |
| ChannelConf.OptionsLast | nomcc/channelconf.py:34-40 | each key holds the value of the last item naming it, so a later duplicate overrides an earlier one. Keys no item names keep their old value |
| ChannelConf.LastValueCons | nomcc/channelconf.py:34-40 | the last value, looked up from the front |
| ChannelConf.OneOption | nomcc/channelconf.py:35-40 | an item is split at its first `=` into key and value |
| ChannelConf.TooFewFields | nomcc/channelconf.py:126-133 | a line that is not ignored and has fewer than three fields is BadChannelConf "too few fields" |
| ChannelConf.ConfLast | nomcc/channelconf.py:120-133 | reading succeeds exactly when every line does. Then each name holds the channel of the last line naming it, and names no line uses keep what they held |
| ChannelConf.LastNamedCons | nomcc/channelconf.py:122-131 | the last channel naming a name, looked up from the front |
| ChannelConf.Conf.constructor | nomcc/channelconf.py:101 | a new ChannelConf holds no channels |
| ChannelConf.Conf.ReadLines | nomcc/channelconf.py:120-133 | the channels become `ConfFrom(old channels, lines)`, and on failure the error is its error |
| Session.Resolution | nomcc/session.py:66-85 | checked in the order of the source. Not done is Timeout, and a stored exception is raised. A `_seq` where no sequence is expected is UnexpectedSequence. An `err` when errors are raised is Error with that text. Otherwise the result is the `_data` section or the whole response |
| Session.UnraisedErrorReturned | nomcc/session.py:79-85 | when errors are not raised, a response carrying `err` is returned like any other |
| Session.Normalised | nomcc/session.py:322-332 | a type name becomes `{'_data': {'type': name}}` and a dict without `_data` is wrapped as the `_data`; both want only the reply's `_data`. A full message is sent as it is and wants the whole reply |
| Session.AskedShapeReturned | nomcc/session.py:304-336 | asking with a type name or a `_data` dict gets back the reply's `_data`, and asking with a whole message gets back the whole reply |
| Session.RequestState.constructor | nomcc/session.py:42-58 | the request and its three flags are stored, with no response, no exception, and not done |
| Session.RequestState.Call | nomcc/session.py:87-93 | the message becomes the response, the state is done, and the call reports the message handled |
| Session.RequestState.ReturnException | nomcc/session.py:95-97 | the state is done, and `get_response` now raises that exception |
| Session.Handling | nomcc/session.py:104-130 | a message the state callback or the dispatcher handled writes nothing, and Closing passes through. An unhandled non-request is dropped. An unhandled request gets the error reply "unknown request". Another exception while handling a request gets an error reply carrying that exception's text |
| Session.Lookup | nomcc/session.py:412-415 | `sequences.get(id)` finds a sequence registered under the id, or None exactly when none is |
| Session.Without | nomcc/session.py:408-409 | `del sequences[id]` keeps every other entry and drops that id |
| Session.Handles | nomcc/session.py:280-281 | the sequences of the table, in its order |
| Session.Session.constructor | nomcc/session.py:196-216 | a new session has no states, an empty write queue, an empty sequence table, and next id 1 |
| Session.Session.Write | nomcc/session.py:284-296 | the message and state are queued at the end, or Closing once the queue is gone. Nothing else changes |
| Session.Session.Ask | nomcc/session.py:322-336 | a fresh state holds the normalised request and the flags. The request is queued with that state, or Closing is raised once the queue is gone |
| Session.Session.AddSequence | nomcc/session.py:390-399 | the id is the next number as text, not yet in use, and registered at the end of the table. The counter moves on even when the table is gone, in which case the registration is a TypeError |
| Session.Session.GetSequence | nomcc/session.py:412-415 | the sequence registered under the id, or None. AttributeError once the table is gone |
| Session.Session.DeleteSequence | nomcc/session.py:401-410 | an unknown id is KeyError and changes nothing. A known one is removed and its sequence closed, after the removal |
| Session.Session.ReaderStep | nomcc/session.py:104-130 | the state callback records the response. What happens next is `Handling`: nothing, an error that ends the reader, or an error reply queued, which is Closing if the queue is gone |
| Session.Session.ClosePending | nomcc/session.py:257-281 | every state outstanding on the connection or queued for writing gets Closing and is done, so `get_response` raises Closing. Every other state is untouched. The write queue is then gone, and the sequence table is taken away with each sequence closed in its order |
| Session.Session.CloseSequences | nomcc/session.py:277-281 | the sequence table is taken away and each of its sequences closed, in the table's order |
| Session.Session.FailAll | nomcc/session.py:258-275 | each given state gets Closing and is done, and every other state is untouched |
| Session.HandlesAppend | nomcc/session.py:398 | appending a registration appends its sequence |
| Session.WithoutIssued | nomcc/session.py:396-409 | removing an entry keeps the ids distinct and issued |
| Sequence.Teller.constructor | nomcc/session.py:361-363 | the oracle starts with its list of responses and nothing sent |
| Sequence.Teller.Tell | nomcc/session.py:361-363 | `tell` records the request and its flags, consumes the next scripted response, and resolves it as `get_response` would (with nomcc/session.py:66-85) |
| Sequence.NextRequest | nomcc/sequence.py:58-61 | the `next` request's `_ctrl` has the keys `_seq`, then `_num` exactly when batching, and no `_end`. `_seq` is the reader's sequence id, or the text `None` when it holds none |
| Sequence.EndRequest | nomcc/sequence.py:88-89 | the closing request is type `next`, and its `_ctrl` has exactly `_seq` (the sequence id, or the text `None` when there is none) and `_end` = '1' |
| Sequence.Reverse | nomcc/sequence.py:70 | `list.reverse()` puts item `i` at position `n-1-i` |
| Sequence.ReversePop | nomcc/sequence.py:40-73 | popping a reversed list gives the first item and leaves the rest reversed, so batch items come out in their original order |
| Sequence.Yield | nomcc/sequence.py:76-80 | once done, an item with exactly one field is StopIteration. An item with `err` is Error when errors are raised, and its message is `str()` of the `err` value (`ValueText`). Otherwise the item is returned |
| Sequence.YieldErrList | nomcc/sequence.py:78-79 | an `err` that is the list `['x']` raises Error whose text is `['x']`, as Python prints the list |
| Values.ValueText | nomcc/sequence.py:78-79 | `str()` of a value is empty exactly for the empty text |
| Values.ReprPlainText | nomcc/sequence.py:78-79 | `repr()` of printable ASCII text without quotes or backslashes is that text between single quotes |
| Values.ListText | nomcc/sequence.py:78-79 | `str()` of a list prints its items with `repr()` between brackets: `['x']` |
| Sequence.ToldWhole | nomcc/sequence.py:45-46 | the reader's first request always has `_data`, so with `raise_error=False, sequence_ok=True` it gets back the whole first response |
| Sequence.FirstSeen | nomcc/sequence.py:45-56 | after the first exchange nothing is buffered. Batching starts only when `num > 0` and never stops. A raised `tell` passes through with the flags unchanged and the reader not done. A done reader keeps its sequence, and a new sequence id comes only with a reader not done whose item is the response's `_data`. `FirstResponse` states the decision field by field |
| Sequence.FirstResponse | nomcc/sequence.py:45-56 | batching starts only when `_batch` is offered and `num > 0`. `_more` without `_seq` is BadSequence. `_more` names the sequence, and its absence marks the reader done. The item is the response's `_data` |
| Sequence.LaterSeen | nomcc/sequence.py:62-75 | a later exchange keeps the batching flag and the sequence id. A raised `tell` passes through with the reader not done. Items are buffered only when batching and an item is yielded. `LaterResponse` states the decision field by field |
| Sequence.LaterResponse | nomcc/sequence.py:62-75 | no `_more` marks the reader done. When batching, the `list` is the batch: a non-list is BadSequence, an empty list StopIteration, and otherwise its first item is yielded and the rest buffered in order |
| Sequence.Reader.constructor | nomcc/sequence.py:20-33 | a text becomes `{'_data': {'type': text}}` and anything else is the `_data`. The reader starts first, not done, with nothing buffered, no sequence and no batching |
| Sequence.Reader.Next | nomcc/sequence.py:38-80 | a buffered item is returned first without calling `tell`. A done reader with an empty buffer raises StopIteration without calling `tell`. Otherwise one exchange is made, the first request or `next` for the sequence, and its item is judged by `Yield` |
| Sequence.Reader.FirstExchange | nomcc/sequence.py:43-56 | sends the caller's request with `raise_error=False, sequence_ok=True` and takes the flags that `FirstSeen` gives |
| Sequence.Reader.FirstResponded | nomcc/sequence.py:47-56 | the flags and item are those `FirstSeen` gives for the response |
| Sequence.Reader.Continue | nomcc/sequence.py:49-56 | the flags and item are those `Continued` gives |
| Sequence.Reader.LaterExchange | nomcc/sequence.py:57-75 | sends `next` for the sequence, `_num` only when batching, and takes the flags that `LaterSeen` gives |
| Sequence.Reader.LaterResponded | nomcc/sequence.py:63-75 | the flags, buffer and item are those `LaterSeen` gives |
| Sequence.Reader.TakeBatch | nomcc/sequence.py:65-75 | the batch is buffered as `Batched` gives |
| Sequence.Reader.Close | nomcc/sequence.py:84-90 | a done reader sends nothing. Otherwise the reader becomes done. A reader that never started fails with UnboundLocalError without sending. A started one sends `next` with `_end` and `tell`'s default flags |
| Dispatcher.KindNamed | nomcc/dispatcher.py:169 | a text names a kind exactly when it is one of `kinds`, and then names that kind |
| Dispatcher.RememberedClasses | nomcc/dispatcher.py:80-86 | a class is remembered exactly when it already was, or the key is a request type `<class>.<rest>` whose class part has no dot |
| Dispatcher.MergedLookup | nomcc/dispatcher.py:93-99 | after a mapped handler is added, every key holds its old handlers followed by the items' handlers for it, in order, and the keys are the old ones plus those the items name |
| Dispatcher.FireAll | nomcc/dispatcher.py:47-54 | the handler loop succeeds exactly when every handler returns, and then reports True exactly when some handler returned True |
| Dispatcher.FireFirstError | nomcc/dispatcher.py:47-49 | the loop raises the first exception a handler raises, even after an earlier handler returned True |
| Dispatcher.FireErrGrows | nomcc/dispatcher.py:47-49 | once a prefix of the handlers has raised, the whole loop raises the same exception |
| Dispatcher.RoutableData | nomcc/dispatcher.py:45-50 | for a message with `_ctrl` and a dict `_data`, `message['_data']` is that dict and its `type` is the message's type field |
| Dispatcher.HandledByGeneric | nomcc/dispatcher.py:47-75 | when a generic handler returns True and no handler raises, the call returns True with no reply and no fallback, whatever the fallbacks do |
| Dispatcher.UnknownRequest | nomcc/dispatcher.py:55-67 | an unhandled request of type `<obj>.<command>` gets an error reply saying "unknown command '<command>' on object '<obj>'" when `obj` is a remembered class and "unknown object '<obj>'" otherwise |
| Dispatcher.FallbackOrder | nomcc/dispatcher.py:68-75 | an unhandled message goes to the fallback for its kind when there is one, else to the general fallback; the call returns False exactly when neither exists |
| Dispatcher.NonRequestFallsBack | nomcc/dispatcher.py:55-75 | an unhandled response or event never gets an error reply: it goes to the fallbacks |
| Dispatcher.KindNoneUnreachable | nomcc/dispatcher.py:173-178 | as written, `handle(action, t, kind=None)` files the handler under the key `(None, t)`, which no message's lookup ever reaches |
| Dispatcher.PlacedReachable | nomcc/dispatcher.py:173-185 | corrected, a type name for one kind is filed under that kind and type, found by exactly the messages of that kind and type; a type name for every kind becomes a generic handler with a `type` filter |
| Dispatcher.WireSeqUnknown | nomcc/dispatcher.py:202-210 | as written, the `_seq` of a `next` request read from the wire (bytes) finds no sequence, even for an id the session registered: the error text raises TypeError (with nomcc/wire.py:179-185, nomcc/wire.py:206-209) |
| Dispatcher.LookupDistinct | nomcc/session.py:412-415 | with distinct ids, looking up a registered id gives its sequence |
| Dispatcher.WireSeqFound | nomcc/dispatcher.py:202-210 | corrected, the UTF-8 bytes of a registered id find that sequence |
| Dispatcher.Target | nomcc/dispatcher.py:202-210 | as written: a session without a sequence table raises. A sequence is found only when `_seq` is the text of an id the session registered, and then it is that id's sequence. `WireSeqUnknown` shows that bytes never match, and `TargetErrors` gives the error texts |
| Dispatcher.TargetErrors | nomcc/dispatcher.py:202-210 | a `next` request without `_seq` raises "_seq missing"; one naming an id the session does not hold raises "unknown sequence id: <id>" |
| Dispatcher.HandleNextRequest | nomcc/dispatcher.py:201-215 | as written (`_seq` looked up as read, see Findings): `_handle_next` raises as `Target` and the sequence say, changing nothing. Otherwise a done sequence is deleted (and closed) before the response is written, and the call returns True, or Closing when the session's queue is gone |
| Dispatcher.Dispatcher.constructor | nomcc/dispatcher.py:29-35 | as written: a new dispatcher's only handler is `_handle_next`, a generic handler filtered on `type` `next` for requests (`handle` with one kind takes the generic path, see Findings); the map, the classes and the fallbacks are empty |
| Dispatcher.Dispatcher.PrependHandler | nomcc/dispatcher.py:77-78 | the handler goes in front of the generic handlers; nothing else changes |
| Dispatcher.Dispatcher.MaybeRememberClass | nomcc/dispatcher.py:80-86 | the classes become `Remember(classes, key)`; nothing else changes |
| Dispatcher.Dispatcher.AddHandler | nomcc/dispatcher.py:88-101 | a mapped handler merges its items into the map and remembers their classes; any other handler is appended to the generic handlers; the fallbacks do not change |
| Dispatcher.Dispatcher.AddMappedHandler | nomcc/dispatcher.py:103-109 | the handler is appended to the list at its key (created empty when missing), and the key's class is remembered |
| Dispatcher.Dispatcher.Handle | nomcc/dispatcher.py:166-193 | TypeError, changing nothing, exactly for an action that cannot be called, a kind that is neither a message kind nor None, or a selector of another type. Otherwise the handler is installed where `PlacedAsWritten` says: a type name with kind None under the key `(None, type)`, anything else as a basic handler with its filter and kind. `KindNoneUnreachable` shows the first is never reached; `Placed` and `PlacedReachable` are the corrected placement |
| Dispatcher.Dispatcher.Fallback | nomcc/dispatcher.py:220-237 | TypeError, changing nothing, for an action that cannot be called or an unknown kind; otherwise the action becomes the fallback for that kind, or the general fallback for kind None |
| Dispatcher.Dispatcher.FireEach | nomcc/dispatcher.py:47-54 | the handler loop computes `Fire`: every handler called in order, stopping at the first exception |
| Dispatcher.Front | nomcc/dispatcher.py:44-50 | a message without `_ctrl` raises KeyError; otherwise the kind is `kind(message)` and the message has `_data` |
| Dispatcher.Typed | nomcc/dispatcher.py:51-67 | a typed message that is dealt with is either handled (True) or, only for a request, answered with an error reply |
| Dispatcher.Fallen | nomcc/dispatcher.py:68-75 | a fallback that returns makes the call True; the call is False exactly when there is no fallback for the kind and no general one |
| Dispatcher.Conclude | nomcc/dispatcher.py:68-75 | a message already dealt with keeps its outcome; an unhandled one is True exactly when a fallback for its kind or a general fallback exists |
| Dispatcher.Route | nomcc/dispatcher.py:37-75 | a message without `_ctrl` raises KeyError. A routed message has a kind and a `_data`. Only a request gets an error reply. The call returns False only when there is no general fallback and none for the message's kind. `HandledByGeneric`, `UnknownRequest`, `FallbackOrder` and `NonRequestFallsBack` state the decisions |
| Dispatcher.Dispatcher.Call | nomcc/dispatcher.py:37-75 | `__call__` returns what `Route` decides; an error reply is written to the session and the call returns True (Closing when the queue is gone); nothing else in the session changes |
| Dispatcher.Dispatcher.Deliver | nomcc/dispatcher.py:65-75 | a routing outcome becomes the call's result, writing the error reply when there is one |
| Dispatcher.Dispatcher.FrontStep | nomcc/dispatcher.py:44-50 | computes the kind, the generic handlers' verdict and the type, raising when `kind` or `_data` does |
| Dispatcher.Dispatcher.TypedStep | nomcc/dispatcher.py:51-67 | computes the mapped handlers' verdict and, for an unhandled dotted request, the error reply |

## Left out

- Cryptography and compression: AES-256-CBC, the SHA-256 key derivation, the HMAC-MD5 signature and raw DEFLATE are foreign library calls. They are the function fields of `Wire.Crypto`, and no property of them is assumed beyond what their callers check. The IV is an argument.
- Wire.Base64: states only the length of the encoding and its `==` end, because the signature's length is the one fact the frame layout depends on.
- Randomness: `_generate_nonce` reads the system's random source. The nonce is a constructor argument of `Connection.Conn`, in 1..2^63-1.
- Sockets and byte I/O: `_read_all`, `sendall`, `shutdown`, `connect` and `getpeername` are left out. A frame read is given as octets, and a message written is returned. nomcc/io.py is poll/select plumbing with float deadlines and is not part of this model.
- Threads: the `_reader` and `_writer` loops, event waits and timeouts, `start` and `join` are left out. Each step those threads take is a method. What a thread would learn from the connection is a parameter. That includes the writer's `return_exception` path on a failed write.
- Session.Session.ClosePending: models the part of `_close` that fails pending state objects. The writer's exit marker, the `join` on the writer thread and the final `connection.close()` are left out.
- nomcc/closer.py is a timer thread over wall-clock deadlines and is not part of this model.
- State objects are named by their index in `Session.Session.states` rather than held by reference. The connection's outstanding table maps sequence numbers to those indices.
- Messages that the source changes in place are modelled as values. This covers `to_wire`'s pops of `_auth` and `_comp`, `from_wire` setting `_ctrl._enc`, `_noncify`'s stamps, and the reversing and popping of `Reader`'s `_datas` list. Each operation returns the new message, so aliasing of a message between its holders is not modelled.
- channel.conf files: opening files, merging the system, home and `NOM_CHANNEL_CONF` files, and the locked global cache in `find` are left out. A file is its sequence of lines. `channelify` returns the name to look up instead of calling `find`, and `UnknownChannel`, which nomcc.exceptions does not define, never arises. The white-space tests ChannelConf.Ignored, PyInt.StripRight and PyInt.IsSpace know the characters Python's `str.isspace` knows. A line keeps its '\n' as Python's file lines do, so a blank line starts with white space and is ignored. The empty text, which Python's reading never yields, reads as a line with too few fields.
- nomcc.handler is not part of this model. Handlers are opaque values, and their results are given by an outcome function. `DataFilter` matching, `StandardHandler` and `handle_standard` are left out. `handle_sequence` and `Sequence.next_message` are reached only through the `step` function parameter of `Dispatcher.HandleNextRequest`, and handlers' own effects on the session are not modelled.
- nomcc.encryption is not part of this model. Its three policies are the datatype `Connection.Policy`.
- Dispatcher.Dispatcher.Handle: `kind` is a text or None. A kind of another type raises the same TypeError as an unknown text. The raise at nomcc/dispatcher.py:170-171 has too few arguments for its format, so Python raises a TypeError about the format instead. At nomcc/dispatcher.py:236-237 in `fallback` the two literals have no `%` between them: they are concatenated and the result's `.join` is called on the list, so the TypeError carries a garbled message. The model keeps only the class TypeError and not the message text.
- Sequence.Teller.Tell: answers only from its list of responses. `tell` on a closed session would raise Closing from its write, and the Teller does not model that case.
- Sequence.NextRequest, Sequence.EndRequest: a reader without a sequence id sends `{'_seq': None}`. Python's None is not a wire value, so the model puts the text `None` there, which is what `_encode` writes for `str(None)`. The two differ only before encoding.
- Values.ValueText: `str()` and `repr()` write characters beyond ASCII as they are, where Python escapes the non-printable ones with `\x`, `\u` or `\U`.
- Python's `int()` is modelled on ASCII digits with an optional sign and white space around them: any white space `str.isspace` knows around text, only ASCII white space around bytes. Underscores between digits and non-ASCII digits are not modelled.
- Channel.AddrportOf: tests "all digits" on ASCII digits, where `str.isdigit` at nomcc/channel.py:27 accepts any Unicode digit. For '²' the source prefixes `127.0.0.1#` and `int()` then raises ValueError, while the model parses '²' as an address with port 0. For '١٢' the source gives port 12 on the loopback, while the model parses it as an address.
- Codec.EncodeValue, Codec.WriteTable, Wire.ToWire: these encode keys as written, counted with `len(k)`. The round trip of what they write (`CodecRoundTrip.DecodeTopEncodeTable`, `Wire.PlainRoundTrip`) is stated only for messages whose keys are all ASCII, because a key beyond ASCII gets a count shorter than its octets and does not read back (see Findings).
- Built-in exceptions (`ValueError`, `KeyError`, ...) are modelled by their classes only, without their message text.
- Packaging and compatibility modules (nomcc/__init__.py, setup.py, nomcc/_compat.py) are not part of this model. `maybe_encode` and `maybe_decode` are the strict UTF-8 codec of `Utf8`. The `decode` that nomcc/wire.py:178 calls is taken to be `maybe_decode`.

## Findings

| source | as written | input that shows it | evidently intended | confidence | as-written member | corrected member |
|---|---|---|---|---|---|---|
| nomcc/wire.py:143-145 | the key's length octet is `len(k)`, the number of characters, while the key is written as UTF-8; the `assert` also counts characters | `to_wire` of a message with `_data` `{'é': b''}`: the octet says 1, the key takes 2 octets, and the decoder reads a cut UTF-8 key. A key of 200 `é` passes the `assert` with 400 octets | the length octet counts the octets of the encoded key | not executed | Codec.EntryAsWrittenCounterexample, Codec.LongKeyCounts | Codec.KeyLength, CodecRoundTrip.DecodeTopEncodeTable |
| nomcc/dispatcher.py:173-178 | the mapped-handler fast path is taken when `kind is None`, filing the handler under `(None, selector)` | `d.handle(f, 'foo', kind=None)`: the key `(None, 'foo')` is never looked up, so `f` is never called | the fast path applies when there is one kind (`kind is not None`), as the comment at line 174 says | not executed | Dispatcher.PlacedAsWritten, Dispatcher.KindNoneUnreachable | Dispatcher.Placed, Dispatcher.PlacedReachable |
| nomcc/dispatcher.py:202-210 | `_seq` is looked up as read, but `_ctrl` values read from the wire are bytes while sequence ids are text | a `next` request read from the wire with `_seq` b'1' for the registered id '1': the lookup fails and `'unknown sequence id: ' + _seq` raises TypeError | `_seq` is decoded to text before the lookup | not executed | Dispatcher.SeqKeyAsWritten, Dispatcher.WireSeqUnknown | Dispatcher.SeqKey, Dispatcher.WireSeqFound |
