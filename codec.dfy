/** The command channel's type-length-value codec (wire.py `_encode`,
    `_encode_table`, `_decode`, `_decode_table`, `_decode_list`).

    A value is a type octet (1 binary data, 2 table, 3 list), a four-octet
    big-endian payload length and the payload. A table payload is a run of
    entries, each a one-octet key length, the key and an encoded value; a list
    payload is a run of encoded values. The decoder turns binary data into text
    when it is asked to "stringify", which the frame decoder does for the
    top-level `_data` table and everything below it. */
module Codec {
  import opened Wrappers
  import opened Bytes
  import opened Exceptions
  import opened Values
  import PyInt
  import Utf8

  const TypeBinary: byte := 1
  const TypeTable: byte := 2
  const TypeList: byte := 3

  /** `struct.pack('!BI', t, |s|) + s`; the pack raises when the length does
      not fit in 32 bits. */
  function Frame(t: byte, s: seq<byte>): (r: Result<seq<byte>>)
    ensures |s| < U32Limit <==> r.Ok?
    ensures r.Ok? ==> |r.value| == 5 + |s| && r.value[0] == t &&
                      Unpack32(r.value[1..5]) == |s| && r.value[5..] == s
    ensures r.Err? ==> r.error.cls == StructError
  {
    if |s| >= U32Limit then Raise(StructError, "argument out of range")
    else
      var r := [t] + BE32(|s|) + s;
      assert r[1..5] == BE32(|s|);
      Unpack32BE32(|s|);
      Ok(r)
  }

  /** The type octet `_encode` writes for a value. */
  function TypeOf(v: Value): byte {
    match v
    case Table(_) => TypeTable
    case List(_) => TypeList
    case Tuple(_) => TypeList
    case _ => TypeBinary
  }

  /** The payload of a binary-data value: the bytes themselves, the UTF-8 of a
      text, the UTF-8 of `str(n)` for an integer. */
  function Scalar(v: Value): seq<byte>
    requires v.Bin? || v.Text? || v.Int?
  {
    match v
    case Bin(b) => b
    case Text(s) => Utf8.Encode(s)
    case Int(i) => Utf8.Encode(PyInt.Str(i))
  }

  /** How the octet in front of a table key counts the key. `_encode_table`
      writes `len(k)`, the key's characters (`Chars`); the decoder reads that
      many octets of UTF-8, so the count it needs is the key's octets
      (`Octets`). */
  datatype KeyCount = Chars | Octets

  /** The key's length as `c` counts it: never more than its octets, and
      equal to them exactly when counting octets or when the key is ASCII. */
  function KeyLength(k: string, c: KeyCount): (n: nat)
    ensures n <= |Utf8.Encode(k)|
    ensures n == |Utf8.Encode(k)| <==> c == Octets || Utf8.IsAscii(k)
  {
    Utf8.EncodeLength(k);
    match c
    case Chars => |k|
    case Octets => |Utf8.Encode(k)|
  }

  /** The payload `_encode` puts after the header: a table's entries, a
      list's or tuple's items back to back, or a scalar's octets. */
  function Payload(v: Value, c: KeyCount): (r: Result<seq<byte>>)
    ensures (v.Bin? || v.Text? || v.Int?) ==> r == Ok(Scalar(v))
    decreases v, 0
  {
    match v
    case Table(t) => EncodeTable(t, c)
    case List(items) => EncodeItems(items, c)
    case Tuple(items) => EncodeItems(items, c)
    case _ => Ok(Scalar(v))
  }

  /** `_encode(v)`: the type octet, the payload length and the payload. */
  function EncodeValue(v: Value, c: KeyCount): (r: Result<seq<byte>>)
    ensures r.Ok? <==> Payload(v, c).Ok? && |Payload(v, c).value| < U32Limit
    ensures r.Ok? ==> r.value == Frame(TypeOf(v), Payload(v, c).value).value
    ensures r.Ok? ==> |r.value| >= 5 && r.value[0] == TypeOf(v) &&
                      Unpack32(r.value[1..5]) == |r.value| - 5
    ensures r.Err? ==> r.error.cls == StructError || Payload(v, c).Err?
    decreases v, 1
  {
    var s :- Payload(v, c);
    Frame(TypeOf(v), s)
  }

  /** `b''.join(map(_encode, items))`: the encodings back to back, the first
      failure winning. */
  function EncodeItems(items: seq<Value>, c: KeyCount): Result<seq<byte>>
    decreases items
  {
    if items == [] then Ok([])
    else
      var h :- EncodeValue(items[0], c);
      var t :- EncodeItems(items[1..], c);
      Ok(h + t)
  }

  /** One entry of a table: the key's length as counted, the key in UTF-8,
      the value. A count of 256 or more fails the `assert`. */
  function EncodeEntry(e: Entry, c: KeyCount): (r: Result<seq<byte>>)
    ensures r.Ok? ==> KeyLength(e.key, c) < 256 && EncodeValue(e.val, c).Ok? &&
                      |r.value| == 1 + |Utf8.Encode(e.key)| + |EncodeValue(e.val, c).value| &&
                      r.value[0] == KeyLength(e.key, c)
    ensures r.Err? ==> KeyLength(e.key, c) >= 256 || EncodeValue(e.val, c).Err?
    decreases e, 1
  {
    var n := KeyLength(e.key, c);
    if n >= 256 then Raise(AssertionError)
    else
      var ve :- EncodeValue(e.val, c);
      Ok([n] + Utf8.Encode(e.key) + ve)
  }

  /** `_encode_table(t)`: the entries in the dict's order. */
  function EncodeTable(t: Dict, c: KeyCount): Result<seq<byte>>
    decreases t
  {
    if t == [] then Ok([])
    else
      var h :- EncodeEntry(t[0], c);
      var r :- EncodeTable(t[1..], c);
      Ok(h + r)
  }

  /** `s + r` when `r` succeeded. */
  function Prepend(s: seq<byte>, r: Result<seq<byte>>): Result<seq<byte>> {
    if r.Ok? then Ok(s + r.value) else r
  }

  /** `_encode_table` as the source writes it: a loop appending one entry at
      a time, each counted with `len(k)`. */
  method WriteTable(t: Dict) returns (r: Result<seq<byte>>)
    ensures r == EncodeTable(t, Chars)
  {
    var s: seq<byte> := [];
    var i := 0;
    assert t[0..] == t;
    assert EncodeTable(t, Chars).Ok? ==> [] + EncodeTable(t, Chars).value == EncodeTable(t, Chars).value;
    while i < |t|
      invariant 0 <= i <= |t|
      invariant EncodeTable(t, Chars) == Prepend(s, EncodeTable(t[i..], Chars))
    {
      assert t[i..][0] == t[i] && t[i..][1..] == t[i + 1..];
      var e := EncodeEntry(t[i], Chars);
      if e.Err? {
        return Err(e.error);
      }
      var rest := EncodeTable(t[i + 1..], Chars);
      assert rest.Ok? ==> s + (e.value + rest.value) == (s + e.value) + rest.value;
      s := s + e.value;
      i := i + 1;
    }
    assert t[i..] == [] && s + [] == s;
    r := Ok(s);
  }

  /** Every table key inside the value, at any depth, is ASCII. */
  predicate AsciiKeys(v: Value)
    decreases v
  {
    match v
    case Table(t) => AsciiEntries(t)
    case List(items) => AsciiItems(items)
    case Tuple(items) => AsciiItems(items)
    case _ => true
  }

  predicate AsciiItems(items: seq<Value>)
    decreases items
  {
    items == [] || (AsciiKeys(items[0]) && AsciiItems(items[1..]))
  }

  predicate AsciiEntries(t: Dict)
    decreases t
  {
    t == [] || (Utf8.IsAscii(t[0].key) && AsciiKeys(t[0].val) && AsciiEntries(t[1..]))
  }

  /** Where every key is ASCII, counting characters and counting octets
      write the same octets and fail alike. */
  lemma {:induction false} AsciiKeysAgree(v: Value)
    requires AsciiKeys(v)
    ensures EncodeValue(v, Chars) == EncodeValue(v, Octets)
    decreases v, 1
  {
    PayloadAgree(v);
  }

  lemma {:induction false} PayloadAgree(v: Value)
    requires AsciiKeys(v)
    ensures Payload(v, Chars) == Payload(v, Octets)
    decreases v, 0
  {
    match v
    case Table(t) => TableAgree(t);
    case List(items) => ItemsAgree(items);
    case Tuple(items) => ItemsAgree(items);
    case _ =>
  }

  lemma {:induction false} ItemsAgree(items: seq<Value>)
    requires AsciiItems(items)
    ensures EncodeItems(items, Chars) == EncodeItems(items, Octets)
    decreases items
  {
    if items != [] {
      AsciiKeysAgree(items[0]);
      ItemsAgree(items[1..]);
    }
  }

  lemma {:induction false} TableAgree(t: Dict)
    requires AsciiEntries(t)
    ensures EncodeTable(t, Chars) == EncodeTable(t, Octets)
    decreases t
  {
    if t != [] {
      EntryAgree(t[0]);
      TableAgree(t[1..]);
    }
  }

  lemma {:induction false} EntryAgree(e: Entry)
    requires Utf8.IsAscii(e.key) && AsciiKeys(e.val)
    ensures EncodeEntry(e, Chars) == EncodeEntry(e, Octets)
    decreases e, 1
  {
    AsciiKeysAgree(e.val);
  }

  /** With a non-ASCII key the octet `len(k)` under-counts the key, and the
      decoder reads a key cut in the middle of a character: `{'é': b''}` as
      written cannot be read back, while counted in octets it can. */
  lemma EntryAsWrittenCounterexample()
    ensures EncodeEntry(Entry("\U{E9}", Bin([])), Chars).Ok?
    ensures DecodeTableFrom(EncodeEntry(Entry("\U{E9}", Bin([])), Chars).value, false, None, []).Err?
    ensures DecodeTableFrom(EncodeEntry(Entry("\U{E9}", Bin([])), Octets).value, false, None, []) ==
            Ok([Entry("\U{E9}", Bin([]))])
  {
    var k := "\U{E9}";
    assert Utf8.Encode(k) == [0xC3, 0xA9];
    var w := EncodeEntry(Entry(k, Bin([])), Chars).value;
    assert w[..5] == [1, 0xC3, 0xA9, 1, 0];
    assert w[1..2] == [0xC3];
    assert Utf8.Decode(w[1..2]) == None;
    var c := EncodeEntry(Entry(k, Bin([])), Octets).value;
    assert c == [2, 0xC3, 0xA9] + [1, 0, 0, 0, 0];
    assert c[1..3] == [0xC3, 0xA9];
    Utf8.DecodeEncode(k);
    var rest := c[3..];
    assert rest == [1, 0, 0, 0, 0];
    assert rest[1..5] == [0, 0, 0, 0];
    assert DecodeValue(rest, None) == Ok((Bin([]), 5));
    assert rest[5..] == [];
  }

  /** A key of 200 `é` has 200 characters but 400 octets: as written it is
      encoded under the count 200, while counted in octets it fails the
      `assert`. */
  lemma LongKeyCounts()
    ensures var k := seq(200, _ => '\U{E9}');
            KeyLength(k, Chars) == 200 && KeyLength(k, Octets) >= 256 &&
            EncodeEntry(Entry(k, Bin([])), Chars).Ok? &&
            EncodeEntry(Entry(k, Bin([])), Octets) == Raise(AssertionError)
  {
    var k := seq(200, _ => '\U{E9}');
    TwoOctetsEach(200);
    assert !Utf8.IsAscii(k) by {
      assert (k[0] as int) >= 0x80;
    }
  }

  /** A run of `é` takes two octets a character. */
  lemma {:induction false} TwoOctetsEach(n: nat)
    ensures |Utf8.Encode(seq(n, _ => '\U{E9}'))| == 2 * n
  {
    if n > 0 {
      var s := seq(n, _ => '\U{E9}');
      assert s[0] == '\U{E9}' && s[1..] == seq(n - 1, _ => '\U{E9}');
      assert |Utf8.EncodeChar('\U{E9}')| == 2;
      TwoOctetsEach(n - 1);
    }
  }

  /** The stringify argument of `_decode`: `None` (not yet decided), or a
      boolean; only `True` converts binary data to text. */
  predicate Stringify(ws: Option<bool>) { ws == Some(true) }

  /** `_decode(item, ws)`: the value at the front of `item` and the number of
      octets it takes; trailing octets are left alone. */
  function DecodeValue(item: seq<byte>, ws: Option<bool>): (r: Result<(Value, nat)>)
    ensures r.Ok? ==> 5 <= r.value.1 <= |item|
    ensures r.Ok? ==> r.value.1 == 5 + Unpack32(item[1..5])
    ensures |item| < 5 ==> r.Err? && r.error.cls == UnexpectedEnd
    ensures |item| >= 5 && |item| - 5 < Unpack32(item[1..5]) ==>
              r.Err? && r.error.cls == UnexpectedEnd
    ensures |item| >= 5 && Unpack32(item[1..5]) <= |item| - 5 &&
            item[0] !in {TypeBinary, TypeTable, TypeList} ==>
              r.Err? && r.error.cls == BadForm
    decreases |item|, 1
  {
    if |item| < 5 then Raise(UnexpectedEnd, "value header too short")
    else
      var rest := item[5..];
      var l := Unpack32(item[1..5]);
      if |rest| < l then Raise(UnexpectedEnd, "value data too short")
      else
        var v :- DecodePayload(item[0], rest[..l], ws);
        Ok((v, l + 5))
  }

  /** The value a payload of type `t` holds. */
  function DecodePayload(t: byte, data: seq<byte>, ws: Option<bool>): (r: Result<Value>)
    ensures t !in {TypeBinary, TypeTable, TypeList} ==> r.Err? && r.error.cls == BadForm
    decreases |data|, 3
  {
    if t == TypeBinary then
      if Stringify(ws) then
        match Utf8.Decode(data)
        case None => Raise(UnicodeDecodeError)
        case Some(s) => Ok(Text(s))
      else Ok(Bin(data))
    else if t == TypeTable then
      var d :- DecodeTableFrom(data, false, ws, []);
      Ok(Table(d))
    else if t == TypeList then
      var li :- DecodeListFrom(data, ws, []);
      Ok(List(li))
    else Raise(BadForm, "unknown value type")
  }

  /** The value read from a framed payload is the payload's value. */
  lemma DecodeFramed(t: byte, s: seq<byte>, rest: seq<byte>, ws: Option<bool>)
    requires Frame(t, s).Ok?
    ensures DecodeValue(Frame(t, s).value + rest, ws) ==
            if DecodePayload(t, s, ws).Ok? then Ok((DecodePayload(t, s, ws).value, |s| + 5))
            else Err(DecodePayload(t, s, ws).error)
  {
    var item := Frame(t, s).value + rest;
    assert item[1..5] == Frame(t, s).value[1..5];
    assert item[5..][..|s|] == Frame(t, s).value[5..];
  }

  /** One iteration of `_decode_table`: an entry whose key fits and decodes
      is assigned, and reading goes on after its value. */
  lemma DecodeTableEntry(item: seq<byte>, top: bool, ws: Option<bool>, acc: Dict,
                         key: string, d: Value, n: nat)
    requires item != [] && item[0] as int + 1 <= |item|
    requires Utf8.Decode(item[1..item[0] as int + 1]) == Some(key)
    requires DecodeValue(item[item[0] as int + 1..], SubStringify(top, key, ws)) == Ok((d, n))
    ensures DecodeTableFrom(item, top, ws, acc) ==
            DecodeTableFrom(item[item[0] as int + 1..][n..], top, ws, Put(acc, key, d))
  {
  }

  /** Reading one table entry laid out as a length octet, a key and a value. */
  lemma DecodeTableStep(kb: seq<byte>, key: string, ve: seq<byte>, r: seq<byte>,
                        top: bool, ws: Option<bool>, acc: Dict, d: Value)
    requires |kb| < 256 && Utf8.Decode(kb) == Some(key)
    requires DecodeValue(ve + r, SubStringify(top, key, ws)) == Ok((d, |ve|))
    ensures DecodeTableFrom([|kb|] + kb + ve + r, top, ws, acc) ==
            DecodeTableFrom(r, top, ws, Put(acc, key, d))
  {
    var item := [|kb|] + kb + ve + r;
    var l := |kb| + 1;
    assert item[0] as int + 1 == l;
    assert item[1..l] == kb;
    assert item[l..] == ve + r;
    assert (ve + r)[|ve|..] == r;
    DecodeTableEntry(item, top, ws, acc, key, d, |ve|);
  }

  /** Reading one list item. */
  lemma DecodeListStep(h: seq<byte>, r: seq<byte>, ws: Option<bool>, acc: seq<Value>, d: Value)
    requires DecodeValue(h + r, ws) == Ok((d, |h|))
    ensures DecodeListFrom(h + r, ws, acc) == DecodeListFrom(r, ws, acc + [d])
  {
    assert (h + r)[|h|..] == r;
  }

  /** The stringify setting for the value under `key`: the top-level `_data`
      table is stringified unless a setting was already given. */
  function SubStringify(top: bool, key: string, ws: Option<bool>): Option<bool> {
    if top && key == "_data" && ws.None? then Some(true) else ws
  }

  /** `_decode_table(item, top, ws)` continued from the entries `acc` already
      read: each entry is assigned into the dict, so a repeated key keeps its
      first place and its last value. */
  function DecodeTableFrom(item: seq<byte>, top: bool, ws: Option<bool>, acc: Dict): (r: Result<Dict>)
    ensures item != [] && |item| < item[0] as int + 1 ==> r.Err? && r.error.cls == UnexpectedEnd
    ensures item == [] ==> r == Ok(acc)
    ensures r.Ok? && DistinctKeys(acc) ==> DistinctKeys(r.value)
    decreases |item|, 0
  {
    if item == [] then Ok(acc)
    else
      var l := item[0] as int + 1;
      if |item| < l then Raise(UnexpectedEnd, "table too short")
      else
        match Utf8.Decode(item[1..l])
        case None => Raise(UnicodeDecodeError)
        case Some(key) =>
          var rest := item[l..];
          var p :- DecodeValue(rest, SubStringify(top, key, ws));
          assert DistinctKeys(acc) ==> DistinctKeys(Put(acc, key, p.0)) by {
            if DistinctKeys(acc) { PutDistinct(acc, key, p.0); }
          }
          DecodeTableFrom(rest[p.1..], top, ws, Put(acc, key, p.0))
  }

  /** `_decode_list(item, ws)` continued from the values `acc` already read. */
  function DecodeListFrom(item: seq<byte>, ws: Option<bool>, acc: seq<Value>): (r: Result<seq<Value>>)
    ensures item == [] ==> r == Ok(acc)
    decreases |item|, 2
  {
    if item == [] then Ok(acc)
    else
      var p :- DecodeValue(item, ws);
      DecodeListFrom(item[p.1..], ws, acc + [p.0])
  }

  /** `_decode`, calling the loop decoders for tables and lists. */
  method ReadValue(item: seq<byte>, ws: Option<bool>) returns (r: Result<(Value, nat)>)
    ensures r == DecodeValue(item, ws)
    decreases |item|, 1
  {
    if |item| < 5 {
      return Raise(UnexpectedEnd, "value header too short");
    }
    var rest := item[5..];
    var l := Unpack32(item[1..5]);
    if |rest| < l {
      return Raise(UnexpectedEnd, "value data too short");
    }
    if item[0] == TypeBinary {
      var data := rest[..l];
      if Stringify(ws) {
        var s := Utf8.Decode(data);
        if s.None? {
          return Raise(UnicodeDecodeError);
        }
        r := Ok((Text(s.value), l + 5));
      } else {
        r := Ok((Bin(data), l + 5));
      }
    } else if item[0] == TypeTable {
      var t := ReadTable(rest[..l], false, ws);
      if t.Err? {
        return Err(t.error);
      }
      r := Ok((Table(t.value), l + 5));
    } else if item[0] == TypeList {
      var li := ReadList(rest[..l], ws);
      if li.Err? {
        return Err(li.error);
      }
      r := Ok((List(li.value), l + 5));
    } else {
      r := Raise(BadForm, "unknown value type");
    }
  }

  /** `_decode_table`: a loop that reads one entry per iteration and assigns it
      into the dict. */
  method ReadTable(item0: seq<byte>, top: bool, ws: Option<bool>) returns (r: Result<Dict>)
    ensures r == DecodeTableFrom(item0, top, ws, [])
    decreases |item0|, 0
  {
    var item := item0;
    var t: Dict := [];
    while item != []
      invariant |item| <= |item0|
      invariant DecodeTableFrom(item0, top, ws, []) == DecodeTableFrom(item, top, ws, t)
      decreases |item|
    {
      var l := item[0] as int + 1;
      if |item| < l {
        return Raise(UnexpectedEnd, "table too short");
      }
      var key := Utf8.Decode(item[1..l]);
      if key.None? {
        return Raise(UnicodeDecodeError);
      }
      var rest := item[l..];
      var p := ReadValue(rest, SubStringify(top, key.value, ws));
      if p.Err? {
        return Err(p.error);
      }
      t := Put(t, key.value, p.value.0);
      item := rest[p.value.1..];
    }
    r := Ok(t);
  }

  /** `_decode_list`: a loop that reads one value per iteration. */
  method ReadList(item0: seq<byte>, ws: Option<bool>) returns (r: Result<seq<Value>>)
    ensures r == DecodeListFrom(item0, ws, [])
    decreases |item0|, 2
  {
    var item := item0;
    var li: seq<Value> := [];
    while item != []
      invariant |item| <= |item0|
      invariant DecodeListFrom(item0, ws, []) == DecodeListFrom(item, ws, li)
      decreases |item|
    {
      var p := ReadValue(item, ws);
      if p.Err? {
        return Err(p.error);
      }
      li := li + [p.value.0];
      item := item[p.value.1..];
    }
    r := Ok(li);
  }

  /** `from_wire`'s call `_decode_table(rest, top_level=True)`. */
  function DecodeTop(item: seq<byte>): (r: Result<Dict>)
    ensures item == [] ==> r == Ok([])
    ensures item != [] && |item| < item[0] as int + 1 ==> r.Err? && r.error.cls == UnexpectedEnd
    ensures r.Ok? ==> DistinctKeys(r.value)
  {
    DecodeTableFrom(item, true, None, [])
  }
}
