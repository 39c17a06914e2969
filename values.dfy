/** The Python values a command-channel message is built from. A message is a
    dict of dicts; the codec writes binary strings, lists and tables, and
    callers also put text, integers and tuples into outgoing messages. */
module Values {
  import opened Wrappers
  import opened Bytes
  import PyInt
  import Utf8
  import Exceptions

  datatype Value =
    | Bin(b: seq<byte>)          // bytes
    | Text(s: string)            // str
    | Int(i: int)                // int, the one other scalar the library writes
    | List(items: seq<Value>)    // list
    | Tuple(items: seq<Value>)   // tuple
    | Table(entries: seq<Entry>) // dict, in insertion order

  /** One key of a dict with its value. */
  datatype Entry = Entry(key: string, val: Value)

  type Dict = seq<Entry>

  function Keys(t: Dict): (ks: seq<string>)
    ensures |ks| == |t| && forall i :: 0 <= i < |t| ==> ks[i] == t[i].key
  {
    if t == [] then [] else [t[0].key] + Keys(t[1..])
  }

  /** A Python dict never holds a key twice. */
  predicate DistinctKeys(t: Dict) {
    t == [] || (!Has(t[1..], t[0].key) && DistinctKeys(t[1..]))
  }

  predicate Has(t: Dict, k: string) {
    k in Keys(t)
  }

  lemma ConcatAssoc<T>(a: seq<T>, b: seq<T>, c: seq<T>)
    ensures a + b + c == a + (b + c)
  {
  }

  /** Appending an entry adds its key at the end. */
  lemma KeysAppend(t: Dict, e: Entry)
    ensures Keys(t + [e]) == Keys(t) + [e.key]
    ensures forall k :: Has(t + [e], k) <==> Has(t, k) || k == e.key
  {
    assert Keys(t + [e]) == Keys(t) + [e.key];
  }

  /** `d.get(k)`: the value of the first (for a dict, the only) entry for `k`. */
  function Get(t: Dict, k: string): (r: Option<Value>)
    ensures r.Some? <==> Has(t, k)
    ensures r.Some? ==> Entry(k, r.value) in t
  {
    if t == [] then None
    else if t[0].key == k then Some(t[0].val)
    else
      assert t == [t[0]] + t[1..];
      assert Keys(t) == [t[0].key] + Keys(t[1..]);
      Get(t[1..], k)
  }

  /** `d[k] = v`: an existing key keeps its place and gets the new value, a new
      key goes to the end. */
  function Put(t: Dict, k: string, v: Value): (r: Dict)
    ensures Get(r, k) == Some(v)
    ensures forall k' :: k' != k ==> Get(r, k') == Get(t, k')
  {
    if t == [] then [Entry(k, v)]
    else if t[0].key == k then
      var r := [Entry(k, v)] + t[1..];
      assert r[1..] == t[1..];
      r
    else
      var rest := Put(t[1..], k, v);
      var r := [t[0]] + rest;
      assert r[1..] == rest;
      assert Keys(t) == [t[0].key] + Keys(t[1..]);
      r
  }

  /** Assignment keeps a dict a dict. */
  lemma {:induction false} PutDistinct(t: Dict, k: string, v: Value)
    requires DistinctKeys(t)
    ensures DistinctKeys(Put(t, k, v))
  {
    if t != [] && t[0].key != k {
      var rest := Put(t[1..], k, v);
      PutDistinct(t[1..], k, v);
      assert Get(rest, t[0].key) == Get(t[1..], t[0].key);
      assert Put(t, k, v)[1..] == rest;
    } else if t != [] {
      assert Put(t, k, v)[1..] == t[1..];
    }
  }

  /** Assigning a key that is already there keeps the keys and their order;
      a new key is appended with its value. */
  lemma {:induction false} PutShape(t: Dict, k: string, v: Value)
    ensures Has(t, k) ==> Keys(Put(t, k, v)) == Keys(t)
    ensures !Has(t, k) ==> Put(t, k, v) == t + [Entry(k, v)]
  {
    if t != [] {
      var r := Put(t, k, v);
      assert Keys(t) == [t[0].key] + Keys(t[1..]);
      if t[0].key == k {
        assert r[1..] == t[1..];
        assert Keys(r) == [k] + Keys(t[1..]);
      } else {
        PutShape(t[1..], k, v);
        assert r[1..] == Put(t[1..], k, v);
        assert Keys(r) == [t[0].key] + Keys(r[1..]);
      }
    }
  }

  /** Assigning a key the value it already has changes nothing. */
  lemma {:induction false} PutSame(t: Dict, k: string, v: Value)
    requires Get(t, k) == Some(v)
    ensures Put(t, k, v) == t
  {
    if t[0].key != k {
      PutSame(t[1..], k, v);
      assert [t[0]] + t[1..] == t;
    } else {
      assert [Entry(k, v)] + t[1..] == t;
    }
  }

  /** Looking a key up past a first entry under another key. */
  lemma GetCons(e: Entry, t: Dict, k: string)
    requires e.key != k
    ensures Get([e] + t, k) == Get(t, k)
  {
    assert ([e] + t)[1..] == t;
  }

  /** Lookups in a dict of two entries. */
  lemma GetPair(a: Entry, b: Entry, k: string)
    ensures Get([a, b], k) == if a.key == k then Some(a.val) else if b.key == k then Some(b.val) else None
    ensures Keys([a, b]) == [a.key, b.key]
  {
    assert [a, b][1..] == [b];
  }

  /** `d.pop(k, None)`, keeping only what it leaves in `d`. */
  function Remove(t: Dict, k: string): (r: Dict)
    ensures Get(r, k) == None
    ensures forall k' :: k' != k ==> Get(r, k') == Get(t, k')
    ensures forall i :: 0 <= i < |r| ==> r[i] in t
  {
    if t == [] then []
    else if t[0].key == k then Remove(t[1..], k)
    else
      var rest := Remove(t[1..], k);
      var r := [t[0]] + rest;
      assert r[1..] == rest;
      assert Keys(t) == [t[0].key] + Keys(t[1..]);
      assert Keys(r) == [t[0].key] + Keys(rest);
      r
  }

  /** Removing an absent key changes nothing. */
  lemma {:induction false} RemoveAbsent(t: Dict, k: string)
    requires !Has(t, k)
    ensures Remove(t, k) == t
  {
    if t != [] {
      assert Keys(t) == [t[0].key] + Keys(t[1..]);
      RemoveAbsent(t[1..], k);
    }
  }

  /** Python truthiness. */
  predicate Truthy(v: Value) {
    match v
    case Bin(b) => |b| > 0
    case Text(s) => |s| > 0
    case Int(i) => i != 0
    case List(items) => |items| > 0
    case Tuple(items) => |items| > 0
    case Table(t) => |t| > 0
  }

  /** `m.get(k)` on a value that is a dict. */
  function Field(m: Value, k: string): Option<Value> {
    if m.Table? then Get(m.entries, k) else None
  }

  /** The entries of `m[k]` when `m` is a dict whose `k` is a dict. */
  function Section(m: Value, k: string): Option<Dict> {
    match Field(m, k)
    case Some(Table(t)) => Some(t)
    case _ => None
  }

  /** A section is the table the key holds. */
  lemma SectionGet(m: Dict, k: string)
    requires Section(Table(m), k).Some?
    ensures Get(m, k) == Some(Table(Section(Table(m), k).value))
  {
  }

  /** A section just assigned is the table assigned. */
  lemma SectionPut(m: Dict, k: string, t: Dict)
    ensures Section(Table(Put(m, k, Table(t))), k) == Some(t)
  {
  }

  /** `len(v)`; `None` where Python raises TypeError. */
  function Len(v: Value): Option<nat> {
    match v
    case Bin(b) => Some(|b|)
    case Text(s) => Some(|s|)
    case Int(_) => None
    case List(items) => Some(|items|)
    case Tuple(items) => Some(|items|)
    case Table(t) => Some(|t|)
  }

  predicate IsSubstring(k: string, s: string) {
    exists i :: 0 <= i <= |s| && k <= s[i..]
  }

  /** `k in v` for a text `k`; `None` where Python raises TypeError. */
  function Contains(v: Value, k: string): Option<bool> {
    match v
    case Bin(_) => None
    case Text(s) => Some(IsSubstring(k, s))
    case Int(_) => None
    case List(items) => Some(Text(k) in items)
    case Tuple(items) => Some(Text(k) in items)
    case Table(t) => Some(Has(t, k))
  }

  /** `str(v)`: a text is itself; every other value prints as its `repr`. */
  function ValueText(v: Value): (s: string)
    ensures s == "" <==> v == Text("")
  {
    if v.Text? then v.s else Repr(v)
  }

  /** `repr(v)`: quoted text and bytes, the decimal integer, and the items of
      a list, tuple or dict between their brackets, separated by ", ". */
  function Repr(v: Value): (r: string)
    ensures |r| > 0
    decreases v, 1
  {
    match v
    case Text(s) => ReprText(s)
    case Bin(b) => "b" + ReprBytes(b)
    case Int(i) => PyInt.Str(i)
    case List(items) => "[" + ReprItems(items) + "]"
    case Tuple(items) => if |items| == 1 then "(" + Repr(items[0]) + ",)" else "(" + ReprItems(items) + ")"
    case Table(t) => "{" + ReprEntries(t) + "}"
  }

  /** `", ".join(map(repr, items))`. */
  function ReprItems(items: seq<Value>): string
    decreases items
  {
    if items == [] then ""
    else if |items| == 1 then Repr(items[0])
    else Repr(items[0]) + ", " + ReprItems(items[1..])
  }

  /** The entries of a dict as `repr` prints them: `'key': value`. */
  function ReprEntries(t: Dict): string
    decreases t
  {
    if t == [] then ""
    else
      var e := ReprText(t[0].key) + ": " + Repr(t[0].val);
      if |t| == 1 then e else e + ", " + ReprEntries(t[1..])
  }

  /** The quote `repr` puts around text or bytes: `'`, unless the contents
      hold `'` and no `"`. */
  function Quote(single: bool, double: bool): char {
    if single && !double then '"' else '\''
  }

  /** A lower-case hexadecimal digit. */
  function HexDigit(d: nat): char
    requires d < 16
  {
    if d < 10 then (('0' as int) + d) as char else (('a' as int) + d - 10) as char
  }

  /** `\xhh`, the escape of a code below 256. */
  function HexEscape(n: nat): string
    requires n < 256
  {
    ['\\', 'x', HexDigit(n / 16), HexDigit(n % 16)]
  }

  /** One code inside quotes `q`: the backslash and the quote are escaped,
      tab, line feed and carriage return by name, the other ASCII control
      codes (and DEL) in hexadecimal. */
  function ReprCode(n: nat, q: char): string
    requires n < 256
  {
    if n == '\\' as int || n == q as int then ['\\', n as char]
    else if n == 9 then "\\t"
    else if n == 10 then "\\n"
    else if n == 13 then "\\r"
    else if n < 32 || n == 127 then HexEscape(n)
    else [n as char]
  }

  /** A character of a text inside quotes `q`; characters beyond ASCII are
      written as they are. */
  function ReprChar(c: char, q: char): string {
    if c as int < 128 then ReprCode(c as int, q) else [c]
  }

  function ReprChars(s: string, q: char): string
    decreases s
  {
    if s == [] then "" else ReprChar(s[0], q) + ReprChars(s[1..], q)
  }

  /** `repr(s)` for a text. */
  function ReprText(s: string): (r: string)
    ensures |r| >= 2
  {
    var q := Quote('\'' in s, '"' in s);
    [q] + ReprChars(s, q) + [q]
  }

  /** The octets of a bytes value inside quotes `q`: the printable ASCII ones
      as characters, the rest escaped, `\x80` and above in hexadecimal. */
  function ReprOctets(b: seq<byte>, q: char): string
    decreases b
  {
    if b == [] then ""
    else (if b[0] < 128 then ReprCode(b[0], q) else HexEscape(b[0])) + ReprOctets(b[1..], q)
  }

  /** `repr(b)` for bytes, without its `b` prefix. */
  function ReprBytes(b: seq<byte>): string {
    var q := Quote(39 in b, 34 in b);
    [q] + ReprOctets(b, q) + [q]
  }

  /** A text free of quotes, backslashes and control codes prints between
      single quotes as it is. */
  lemma {:induction false} ReprPlainText(s: string)
    requires forall i :: 0 <= i < |s| ==> ' ' <= s[i] <= '~' && s[i] != '\'' && s[i] != '"' && s[i] != '\\'
    ensures ReprText(s) == "'" + s + "'"
  {
    PlainChars(s, '\'');
  }

  lemma {:induction false} PlainChars(s: string, q: char)
    requires q == '\'' || q == '"'
    requires forall i :: 0 <= i < |s| ==> ' ' <= s[i] <= '~' && s[i] != '\'' && s[i] != '"' && s[i] != '\\'
    ensures ReprChars(s, q) == s
    decreases s
  {
    if s != [] {
      PlainChars(s[1..], q);
      assert ReprChar(s[0], q) == [s[0]];
      assert s == [s[0]] + s[1..];
    }
  }

  /** `str(['x'])`, the text an `err` list such as `['x']` gives an Error. */
  lemma ListText()
    ensures ValueText(List([Text("x")])) == "['x']"
  {
    ReprPlainText("x");
  }

  /** `maybe_encode(str(n))`: the ASCII digits of an integer as bytes. */
  function IntBytes(n: int): Value {
    Bin(Utf8.Encode(PyInt.Str(n)))
  }

  /** `int(v)`: bytes and text are parsed as decimal, bytes with only ASCII
      white space around them; an integer is itself; `None` where Python
      raises. */
  function IntOf(v: Value): Option<int> {
    match v
    case Bin(b) => PyInt.ParseBytes(b)
    case Text(s) => PyInt.Parse(s)
    case Int(i) => Some(i)
    case _ => None
  }

  /** The class of the exception `int(v)` raises when it fails. */
  function IntErrorCls(v: Value): Exceptions.Cls {
    if v.Bin? || v.Text? then Exceptions.ValueError else Exceptions.TypeError
  }

  /** `int()` reads back the digits `IntBytes` writes. */
  lemma IntOfIntBytes(n: int)
    ensures IntOf(IntBytes(n)) == Some(n)
  {
    var s := PyInt.Str(n);
    PyInt.StrAscii(n);
    Utf8.EncodeAscii(s);
    var b := Utf8.Encode(s);
    assert PyInt.Latin1(b) == s;
    assert PyInt.OnlyByteSpace(b) by {
      PyInt.StrChars(n);
      forall i | 0 <= i < |b| ensures PyInt.IsSpaceCode(b[i]) ==> PyInt.IsByteSpace(b[i]) {
        assert b[i] as char == s[i];
      }
    }
    PyInt.ParseBytesAgrees(b);
    PyInt.ParseStr(n);
  }
}
