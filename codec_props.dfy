/** What `_decode` gives back for what `_encode` wrote. The decoded image of a
    value is defined on the value itself: tuples come back as lists, every
    binary leaf (bytes, and the UTF-8 of texts and of integers) comes back as
    bytes, or as text where the decoder stringifies. */
module CodecRoundTrip {
  import opened Wrappers
  import opened Bytes
  import opened Exceptions
  import opened Values
  import Utf8
  import opened Codec

  /** Every table inside the value is a proper dict (no key twice). */
  predicate WellKeyed(v: Value)
    decreases v
  {
    match v
    case Table(t) => DistinctKeys(t) && EntriesWellKeyed(t)
    case List(items) => ItemsWellKeyed(items)
    case Tuple(items) => ItemsWellKeyed(items)
    case _ => true
  }

  predicate ItemsWellKeyed(items: seq<Value>)
    decreases items
  {
    items == [] || (WellKeyed(items[0]) && ItemsWellKeyed(items[1..]))
  }

  predicate EntriesWellKeyed(t: Dict)
    decreases t
  {
    t == [] || (WellKeyed(t[0].val) && EntriesWellKeyed(t[1..]))
  }

  /** A binary leaf as the decoder returns it; `None` when it must be
      stringified but is not UTF-8. */
  function Leaf(b: seq<byte>, ws: Option<bool>): Option<Value> {
    if Stringify(ws) then
      match Utf8.Decode(b)
      case None => None
      case Some(s) => Some(Text(s))
    else Some(Bin(b))
  }

  function Decoded(v: Value, ws: Option<bool>): Option<Value>
    decreases v
  {
    match v
    case Table(t) =>
      (match DecodedTable(t, false, ws)
       case None => None
       case Some(d) => Some(Table(d)))
    case List(items) =>
      (match DecodedItems(items, ws)
       case None => None
       case Some(d) => Some(List(d)))
    case Tuple(items) =>
      (match DecodedItems(items, ws)
       case None => None
       case Some(d) => Some(List(d)))
    case _ => Leaf(Scalar(v), ws)
  }

  function DecodedItems(items: seq<Value>, ws: Option<bool>): Option<seq<Value>>
    decreases items
  {
    if items == [] then Some([])
    else
      match (Decoded(items[0], ws), DecodedItems(items[1..], ws))
      case (Some(h), Some(r)) => Some([h] + r)
      case _ => None
  }

  /** The entries of a table as decoded; at the top level the `_data` entry is
      stringified. */
  function DecodedTable(t: Dict, top: bool, ws: Option<bool>): Option<Dict>
    decreases t
  {
    if t == [] then Some([])
    else
      match (Decoded(t[0].val, SubStringify(top, t[0].key, ws)), DecodedTable(t[1..], top, ws))
      case (Some(h), Some(r)) => Some([Entry(t[0].key, h)] + r)
      case _ => None
  }

  /** Round trip of one value, with any octets after it left unread. Keys
      counted in octets always read back; counted in characters, as
      `_encode_table` writes them, only when every key is ASCII. */
  lemma DecodeEncodeValue(v: Value, c: KeyCount, ws: Option<bool>, rest: seq<byte>)
    requires c == Octets || AsciiKeys(v)
    requires EncodeValue(v, c).Ok? && WellKeyed(v) && Decoded(v, ws).Some?
    ensures DecodeValue(EncodeValue(v, c).value + rest, ws) ==
            Ok((Decoded(v, ws).value, |EncodeValue(v, c).value|))
    decreases v, 1
  {
    DecodeFramed(TypeOf(v), Payload(v, c).value, rest, ws);
    DecodePayloadOf(v, c, ws);
  }

  /** The payload `_encode` wrote decodes to the value's decoded image. */
  lemma DecodePayloadOf(v: Value, c: KeyCount, ws: Option<bool>)
    requires c == Octets || AsciiKeys(v)
    requires Payload(v, c).Ok? && WellKeyed(v) && Decoded(v, ws).Some?
    ensures DecodePayload(TypeOf(v), Payload(v, c).value, ws) == Ok(Decoded(v, ws).value)
    decreases v, 0
  {
    match v
    case Table(t) =>
      DecodeEncodeTable(t, c, false, ws, []);
      assert [] + DecodedTable(t, false, ws).value == DecodedTable(t, false, ws).value;
    case List(items) =>
      DecodeEncodeItems(items, c, ws, []);
      assert [] + DecodedItems(items, ws).value == DecodedItems(items, ws).value;
    case Tuple(items) =>
      DecodeEncodeItems(items, c, ws, []);
      assert [] + DecodedItems(items, ws).value == DecodedItems(items, ws).value;
    case _ =>
  }

  /** Round trip of the payload of a list, read after the values `acc`. */
  lemma {:induction false} DecodeEncodeItems(items: seq<Value>, c: KeyCount, ws: Option<bool>, acc: seq<Value>)
    requires c == Octets || AsciiItems(items)
    requires EncodeItems(items, c).Ok? && ItemsWellKeyed(items) && DecodedItems(items, ws).Some?
    ensures DecodeListFrom(EncodeItems(items, c).value, ws, acc) == Ok(acc + DecodedItems(items, ws).value)
    decreases items
  {
    if items != [] {
      var h := EncodeValue(items[0], c).value;
      var r := EncodeItems(items[1..], c).value;
      assert EncodeItems(items, c).value == h + r;
      var d := Decoded(items[0], ws).value;
      DecodeEncodeValue(items[0], c, ws, r);
      DecodeListStep(h, r, ws, acc, d);
      DecodeEncodeItems(items[1..], c, ws, acc + [d]);
      assert acc + [d] + DecodedItems(items[1..], ws).value == acc + DecodedItems(items, ws).value;
    } else {
      assert acc + [] == acc;
    }
  }

  /** The octets of one entry whose length octet counts its key's octets. */
  lemma EntryOctets(e: Entry, c: KeyCount)
    requires c == Octets || Utf8.IsAscii(e.key)
    requires EncodeEntry(e, c).Ok?
    ensures EncodeEntry(e, c).value ==
            [|Utf8.Encode(e.key)|] + Utf8.Encode(e.key) + EncodeValue(e.val, c).value
  {
  }

  /** Reading one entry that `_encode_table` wrote assigns its decoded value
      under its key and leaves the octets after it. */
  lemma DecodeEncodeEntry(e: Entry, c: KeyCount, r: seq<byte>, top: bool, ws: Option<bool>, acc: Dict)
    requires c == Octets || (Utf8.IsAscii(e.key) && AsciiKeys(e.val))
    requires EncodeEntry(e, c).Ok? && WellKeyed(e.val)
    requires Decoded(e.val, SubStringify(top, e.key, ws)).Some?
    ensures DecodeTableFrom(EncodeEntry(e, c).value + r, top, ws, acc) ==
            DecodeTableFrom(r, top, ws, Put(acc, e.key, Decoded(e.val, SubStringify(top, e.key, ws)).value))
    decreases e
  {
    var kb := Utf8.Encode(e.key);
    var ve := EncodeValue(e.val, c).value;
    var sub := SubStringify(top, e.key, ws);
    EntryOctets(e, c);
    Utf8.DecodeEncode(e.key);
    DecodeEncodeValue(e.val, c, sub, r);
    DecodeTableStep(kb, e.key, ve, r, top, ws, acc, Decoded(e.val, sub).value);
    assert EncodeEntry(e, c).value + r == [|kb|] + kb + ve + r;
  }

  /** The entry read first goes to the end of `acc`, and the keys after it
      are still new. */
  lemma FreshKeys(t: Dict, acc: Dict, d: Value)
    requires t != [] && DistinctKeys(t)
    requires forall i :: 0 <= i < |t| ==> !Has(acc, t[i].key)
    ensures Put(acc, t[0].key, d) == acc + [Entry(t[0].key, d)]
    ensures forall i :: 0 <= i < |t[1..]| ==> !Has(acc + [Entry(t[0].key, d)], t[1..][i].key)
  {
    PutShape(acc, t[0].key, d);
    KeysAppend(acc, Entry(t[0].key, d));
    forall i | 0 <= i < |t[1..]| ensures !Has(acc + [Entry(t[0].key, d)], t[1..][i].key) {
      assert t[1..][i] == t[i + 1];
      assert t[1..][i].key in Keys(t[1..]);
    }
  }

  lemma EncodeTableCons(t: Dict, c: KeyCount)
    requires t != [] && EncodeTable(t, c).Ok?
    ensures EncodeEntry(t[0], c).Ok? && EncodeTable(t[1..], c).Ok?
    ensures EncodeTable(t, c).value == EncodeEntry(t[0], c).value + EncodeTable(t[1..], c).value
  {
  }

  lemma DecodedTableCons(t: Dict, top: bool, ws: Option<bool>)
    requires t != [] && DecodedTable(t, top, ws).Some?
    ensures Decoded(t[0].val, SubStringify(top, t[0].key, ws)).Some? && DecodedTable(t[1..], top, ws).Some?
    ensures DecodedTable(t, top, ws).value ==
            [Entry(t[0].key, Decoded(t[0].val, SubStringify(top, t[0].key, ws)).value)] + DecodedTable(t[1..], top, ws).value
  {
  }

  /** Decoding keeps a table's keys, and what a key holds afterwards is the
      decoded image of what it held. */
  lemma {:induction false} DecodedTableGet(t: Dict, top: bool, ws: Option<bool>, k: string)
    requires DecodedTable(t, top, ws).Some?
    ensures Get(DecodedTable(t, top, ws).value, k).Some? <==> Get(t, k).Some?
    ensures Get(t, k).Some? ==>
              Get(DecodedTable(t, top, ws).value, k) == Decoded(Get(t, k).value, SubStringify(top, k, ws))
    decreases t
  {
    if t != [] {
      DecodedTableCons(t, top, ws);
      var d := DecodedTable(t, top, ws).value;
      assert d[1..] == DecodedTable(t[1..], top, ws).value;
      if t[0].key != k {
        DecodedTableGet(t[1..], top, ws, k);
      }
    }
  }

  /** Round trip of the payload of a table whose keys are all new to the
      entries `acc` read before it. */
  lemma {:induction false} DecodeEncodeTable(t: Dict, c: KeyCount, top: bool, ws: Option<bool>, acc: Dict)
    requires c == Octets || AsciiEntries(t)
    requires EncodeTable(t, c).Ok? && DistinctKeys(t) && EntriesWellKeyed(t)
    requires DecodedTable(t, top, ws).Some?
    requires forall i :: 0 <= i < |t| ==> !Has(acc, t[i].key)
    ensures DecodeTableFrom(EncodeTable(t, c).value, top, ws, acc) == Ok(acc + DecodedTable(t, top, ws).value)
    decreases t
  {
    if t == [] {
      assert acc + [] == acc;
    } else {
      EncodeTableCons(t, c);
      DecodedTableCons(t, top, ws);
      var e := Entry(t[0].key, Decoded(t[0].val, SubStringify(top, t[0].key, ws)).value);
      var rest := DecodedTable(t[1..], top, ws).value;
      DecodeEncodeEntry(t[0], c, EncodeTable(t[1..], c).value, top, ws, acc);
      FreshKeys(t, acc, e.val);
      DecodeEncodeTable(t[1..], c, top, ws, acc + [e]);
      Values.ConcatAssoc(acc, [e], rest);
    }
  }

  /** `from_wire`'s table decoder reads back what `_encode_table` wrote, with
      the `_data` section, and nothing else, stringified: for any keys when
      they are counted in octets, for ASCII keys as the source counts them. */
  lemma DecodeTopEncodeTable(t: Dict, c: KeyCount)
    requires c == Octets || AsciiEntries(t)
    requires EncodeTable(t, c).Ok? && DistinctKeys(t) && EntriesWellKeyed(t)
    requires DecodedTable(t, true, None).Some?
    ensures DecodeTop(EncodeTable(t, c).value) == Ok(DecodedTable(t, true, None).value)
  {
    DecodeEncodeTable(t, c, true, None, []);
    assert [] + DecodedTable(t, true, None).value == DecodedTable(t, true, None).value;
  }

  /** Only the top-level `_data` entry is stringified: every other entry is
      decoded without stringifying. */
  lemma {:induction false} DecodedTopSections(t: Dict, i: nat)
    requires i < |t| && DecodedTable(t, true, None).Some?
    ensures |DecodedTable(t, true, None).value| == |t|
    ensures Decoded(t[i].val, if t[i].key == "_data" then Some(true) else None).Some?
    ensures DecodedTable(t, true, None).value[i] ==
            Entry(t[i].key, Decoded(t[i].val, if t[i].key == "_data" then Some(true) else None).value)
  {
    if i > 0 {
      DecodedTopSections(t[1..], i - 1);
    } else if |t| > 1 {
      DecodedTopSections(t[1..], 0);
    }
  }

  /** A value made only of bytes, lists and tables. */
  predicate IsWire(v: Value)
    decreases v
  {
    match v
    case Bin(_) => true
    case List(items) => forall i :: 0 <= i < |items| ==> IsWire(items[i])
    case Table(t) => forall i :: 0 <= i < |t| ==> IsWire(t[i].val)
    case _ => false
  }

  /** Without stringifying, such a value decodes to itself. */
  lemma {:induction false} DecodedWire(v: Value)
    requires IsWire(v)
    ensures Decoded(v, None) == Some(v)
    decreases v, 1
  {
    match v
    case Bin(_) =>
    case List(items) => DecodedWireItems(items);
    case Table(t) => DecodedWireTable(t);
  }

  lemma {:induction false} DecodedWireItems(items: seq<Value>)
    requires forall i :: 0 <= i < |items| ==> IsWire(items[i])
    ensures DecodedItems(items, None) == Some(items)
    decreases items, 0
  {
    if items != [] {
      DecodedWire(items[0]);
      DecodedWireItems(items[1..]);
      assert [items[0]] + items[1..] == items;
    }
  }

  lemma {:induction false} DecodedWireTable(t: Dict)
    requires forall i :: 0 <= i < |t| ==> IsWire(t[i].val)
    ensures DecodedTable(t, false, None) == Some(t)
    decreases t, 0
  {
    if t != [] {
      DecodedWire(t[0].val);
      DecodedWireTable(t[1..]);
      assert [Entry(t[0].key, t[0].val)] + t[1..] == t;
    }
  }

  /** The round trip for values of bytes, lists and distinct-keyed tables:
      `_decode(_encode(v) + rest)` is `(v, len(_encode(v)))`. */
  lemma WireRoundTrip(v: Value, c: KeyCount, rest: seq<byte>)
    requires c == Octets || AsciiKeys(v)
    requires IsWire(v) && WellKeyed(v) && EncodeValue(v, c).Ok?
    ensures DecodeValue(EncodeValue(v, c).value + rest, None) == Ok((v, |EncodeValue(v, c).value|))
  {
    DecodedWire(v);
    DecodeEncodeValue(v, c, None, rest);
  }

  /** A text leaf comes back as the same text where the decoder stringifies. */
  lemma StringifiedText(s: string, c: KeyCount, rest: seq<byte>)
    requires EncodeValue(Text(s), c).Ok?
    ensures DecodeValue(EncodeValue(Text(s), c).value + rest, Some(true)) ==
            Ok((Text(s), |EncodeValue(Text(s), c).value|))
  {
    Utf8.DecodeEncode(s);
    DecodeEncodeValue(Text(s), c, Some(true), rest);
  }
}
