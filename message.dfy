/** Message construction and classification (message.py). A message is a dict
    with a `_ctrl` section of protocol fields and a `_data` section of
    content; a response has `_rpl` in its `_ctrl`, an event `_evt`, and a
    request neither. */
module Message {
  import opened Wrappers
  import opened Exceptions
  import opened Values

  datatype Kind = Request | Response | Event

  /** The names `kind` returns. */
  function KindName(k: Kind): string {
    match k
    case Request => "request"
    case Response => "response"
    case Event => "event"
  }

  /** `kinds`. */
  const Kinds: set<string> := {"request", "response", "event"}

  /** The name of a kind is one of `kinds`, and each name belongs to one kind. */
  lemma KindNames(k: Kind, j: Kind)
    ensures KindName(k) in Kinds
    ensures KindName(k) == KindName(j) ==> k == j
  {
  }

  /** `message[key]` on a dict: KeyError when the key is missing. */
  function Item(m: Dict, key: string): (r: Result<Value>)
    ensures r.Ok? <==> Has(m, key)
    ensures r.Ok? ==> Get(m, key) == Some(r.value)
    ensures r.Err? ==> r.error.cls == KeyError
  {
    match Get(m, key)
    case None => Raise(KeyError, key)
    case Some(v) => Ok(v)
  }

  /** `key in v`: TypeError where Python has no such test (bytes, integers). */
  function In(key: string, v: Value): (r: Result<bool>)
    ensures v.Table? ==> r == Ok(Has(v.entries, key))
    ensures r.Err? <==> v.Bin? || v.Int?
  {
    match Contains(v, key)
    case None => Raise(TypeError)
    case Some(b) => Ok(b)
  }

  /** `is_reply(message)`. */
  function IsReply(m: Dict): Result<bool> {
    var ctrl :- Item(m, "_ctrl");
    In("_rpl", ctrl)
  }

  /** `is_event(message)`. */
  function IsEvent(m: Dict): Result<bool> {
    var ctrl :- Item(m, "_ctrl");
    In("_evt", ctrl)
  }

  /** `is_request(message)`: `or` stops at the first true test. The second
      test cannot fail once the first has not: both fail on the same values. */
  function IsRequest(m: Dict): Result<bool> {
    var ctrl :- Item(m, "_ctrl");
    var rpl :- In("_rpl", ctrl);
    Ok(!rpl && In("_evt", ctrl) != Ok(true))
  }

  /** `kind(message)`. */
  function KindOf(m: Dict): (r: Result<Kind>)
    ensures r.Ok? ==> KindName(r.value) in Kinds
    ensures Section(Table(m), "_ctrl").Some? ==> r.Ok?
    ensures Section(Table(m), "_ctrl").Some? ==>
              var ctrl := Section(Table(m), "_ctrl").value;
              r.value == (if Has(ctrl, "_rpl") then Response
                          else if Has(ctrl, "_evt") then Event else Request)
  {
    var ctrl :- Item(m, "_ctrl");
    var rpl :- In("_rpl", ctrl);
    Ok(if rpl then Response else if In("_evt", ctrl) == Ok(true) then Event else Request)
  }

  /** `is_request` and `is_reply` agree with `kind`, errors included; an event
      by `kind` passes `is_event`, which also holds for a response carrying
      `_evt`. */
  lemma {:induction false} PredicatesAgreeWithKind(m: Dict)
    ensures IsRequest(m).Ok? <==> KindOf(m).Ok?
    ensures IsRequest(m).Ok? ==> (IsRequest(m).value <==> KindOf(m).value == Request)
    ensures IsReply(m).Ok? <==> KindOf(m).Ok?
    ensures IsReply(m).Ok? ==> (IsReply(m).value <==> KindOf(m).value == Response)
    ensures KindOf(m) == Ok(Event) ==> IsEvent(m) == Ok(true)
  {
    match Get(m, "_ctrl")
    case None =>
    case Some(ctrl) =>
      assert Item(m, "_ctrl") == Ok(ctrl);
      if In("_rpl", ctrl).Ok? {
        assert In("_evt", ctrl).Ok?;
      }
  }

  /** `request(content)`. */
  function NewRequest(content: Value): (r: Dict)
    ensures KindOf(r) == Ok(Request)
    ensures Get(r, "_data") == Some(content) && Section(Table(r), "_ctrl") == Some([])
  {
    [Entry("_ctrl", Table([])), Entry("_data", content)]
  }

  /** `event(content)`. */
  function NewEvent(content: Value): (r: Dict)
    ensures KindOf(r) == Ok(Event)
    ensures Get(r, "_data") == Some(content) &&
            Section(Table(r), "_ctrl") == Some([Entry("_evt", Bin([0x31]))])
  {
    var ctrl := [Entry("_evt", Bin([0x31]))];
    assert Get(ctrl, "_rpl") == None;
    [Entry("_ctrl", Table(ctrl)), Entry("_data", content)]
  }

  /** `request['_data'].get` on what `_data` holds: only dicts have `get`. */
  function GetIn(v: Value, key: string): (r: Result<Option<Value>>)
    ensures r.Ok? <==> v.Table?
    ensures r.Ok? ==> r.value == Get(v.entries, key)
  {
    if v.Table? then Ok(Get(v.entries, key)) else Raise(AttributeError)
  }

  /** `v[key]` on what `_ctrl` holds: KeyError for a dict without it;
      TypeError for the rest, the values Python cannot index by text. */
  function IndexIn(v: Value, key: string): (r: Result<Value>)
    ensures r.Ok? <==> v.Table? && Has(v.entries, key)
    ensures r.Ok? ==> Get(v.entries, key) == Some(r.value)
  {
    if v.Table? then Item(v.entries, key) else Raise(TypeError)
  }

  /** The type of a reply: `request_type` when given, else the request's own. */
  function ReplyType(request: Dict, requestType: Option<Value>): Result<Option<Value>> {
    if requestType.Some? then Ok(requestType)
    else
      var data :- Item(request, "_data");
      GetIn(data, "type")
  }

  /** `reply_to(request, request_type)`. */
  function ReplyTo(request: Dict, requestType: Option<Value>): (r: Result<Dict>)
    ensures r.Ok? <==> ReplyType(request, requestType).Ok? &&
                       Section(Table(request), "_ctrl").Some? &&
                       Has(Section(Table(request), "_ctrl").value, "_sseq")
    ensures r.Ok? ==>
              var rc := Section(Table(request), "_ctrl").value;
              r.value == [Entry("_ctrl", Table(ReplyCtrl(Get(rc, "_sseq").value, Get(rc, "_seq")))),
                          Entry("_data", Table(ReplyData(ReplyType(request, requestType).value)))]
  {
    var t :- ReplyType(request, requestType);
    var rc :- Item(request, "_ctrl");
    var rseq :- IndexIn(rc, "_sseq");
    Ok([Entry("_ctrl", Table(ReplyCtrl(rseq, Get(rc.entries, "_seq")))),
        Entry("_data", Table(ReplyData(t)))])
  }

  /** A reply has exactly `_ctrl` and `_data`. Its `_ctrl` says it is a reply,
      the `_rseq` it carries is the request's `_sseq` and its `_seq` the
      request's `_seq` (both absent or both the same), and nothing else; its
      `_data` holds the type alone, or nothing when there is none. */
  lemma ReplyContents(request: Dict, requestType: Option<Value>)
    requires ReplyTo(request, requestType).Ok?
    ensures var r := ReplyTo(request, requestType).value;
            var rc := Section(Table(request), "_ctrl").value;
            var t := ReplyType(request, requestType).value;
            Keys(r) == ["_ctrl", "_data"] &&
            Section(Table(r), "_ctrl").Some? && Section(Table(r), "_data").Some? &&
            var ctrl := Section(Table(r), "_ctrl").value;
            var data := Section(Table(r), "_data").value;
            Get(ctrl, "_rpl") == Some(Bin([0x31])) &&
            Get(ctrl, "_rseq") == Get(rc, "_sseq") &&
            Get(ctrl, "_seq") == Get(rc, "_seq") &&
            Keys(ctrl) == ["_rpl", "_rseq"] + (if Has(rc, "_seq") then ["_seq"] else []) &&
            Get(data, "type") == t &&
            Keys(data) == (if t.Some? then ["type"] else [])
  {
    ReplySections(request, requestType);
    var r := ReplyTo(request, requestType).value;
    GetPair(r[0], r[1], "_ctrl");
  }

  /** The two sections of a reply are what `ReplyCtrl` and `ReplyData` build. */
  lemma ReplySections(request: Dict, requestType: Option<Value>)
    requires ReplyTo(request, requestType).Ok?
    ensures var r := ReplyTo(request, requestType).value;
            var rc := Section(Table(request), "_ctrl").value;
            |r| == 2 && r[0].key == "_ctrl" && r[1].key == "_data" &&
            Section(Table(r), "_ctrl") == Some(ReplyCtrl(Get(rc, "_sseq").value, Get(rc, "_seq"))) &&
            Section(Table(r), "_data") == Some(ReplyData(ReplyType(request, requestType).value))
  {
    var rc := Section(Table(request), "_ctrl").value;
    var c := ReplyCtrl(Get(rc, "_sseq").value, Get(rc, "_seq"));
    var d := ReplyData(ReplyType(request, requestType).value);
    assert ReplyTo(request, requestType).value == [Entry("_ctrl", Table(c)), Entry("_data", Table(d))];
    PairSections(c, d);
  }

  /** The sections of a message made of a `_ctrl` and a `_data` table. */
  lemma PairSections(c: Dict, d: Dict)
    ensures var m := [Entry("_ctrl", Table(c)), Entry("_data", Table(d))];
            Section(Table(m), "_ctrl") == Some(c) && Section(Table(m), "_data") == Some(d)
  {
    GetPair(Entry("_ctrl", Table(c)), Entry("_data", Table(d)), "_ctrl");
    GetPair(Entry("_ctrl", Table(c)), Entry("_data", Table(d)), "_data");
  }

  /** The `_ctrl` of a reply: `_rpl`, `_rseq`, then `_seq` when there is one. */
  function ReplyCtrl(rseq: Value, s: Option<Value>): (ctrl: Dict)
    ensures Get(ctrl, "_rpl") == Some(Bin([0x31])) && Get(ctrl, "_rseq") == Some(rseq)
    ensures Get(ctrl, "_seq") == s
    ensures Keys(ctrl) == ["_rpl", "_rseq"] + (if s.Some? then ["_seq"] else [])
  {
    var ctrl := [Entry("_rpl", Bin([0x31])), Entry("_rseq", rseq)];
    assert ctrl[1..] == [ctrl[1]];
    if s.Some? then
      var c := ctrl + [Entry("_seq", s.value)];
      assert c[1..] == [c[1], c[2]] && c[2..] == [c[2]];
      c
    else ctrl
  }

  /** The `_data` of a reply: its `type`, when it has one. */
  function ReplyData(t: Option<Value>): (data: Dict)
    ensures Get(data, "type") == t && Keys(data) == (if t.Some? then ["type"] else [])
  {
    if t.Some? then [Entry("type", t.value)] else []
  }

  /** Every reply is a response. */
  lemma ReplyIsResponse(request: Dict, requestType: Option<Value>)
    requires ReplyTo(request, requestType).Ok?
    ensures KindOf(ReplyTo(request, requestType).value) == Ok(Response)
  {
  }

  /** `error(request, detail, request_type)`. */
  function ErrorReply(request: Dict, detail: Value, requestType: Option<Value>): (r: Result<Dict>)
    ensures r.Ok? <==> ReplyTo(request, requestType).Ok?
  {
    var response :- ReplyTo(request, requestType);
    ReplySections(request, requestType);
    var data := Section(Table(response), "_data").value;
    Ok(Put(response, "_data", Table(Put(data, "err", detail))))
  }

  /** An error reply is the plain reply with `err` added at the end of its
      `_data`, and nothing else changed. */
  lemma ErrorIsReplyWithErr(request: Dict, detail: Value, requestType: Option<Value>)
    requires ReplyTo(request, requestType).Ok?
    ensures var reply := ReplyTo(request, requestType).value;
            var data := Section(Table(reply), "_data").value;
            ErrorReply(request, detail, requestType) ==
              Ok([reply[0], Entry("_data", Table(data + [Entry("err", detail)]))])
  {
    var reply := ReplyTo(request, requestType).value;
    ReplySections(request, requestType);
    var d := Section(Table(reply), "_data").value;
    assert reply == [reply[0], Entry("_data", Table(d))];
    PutShape(d, "err", detail);
    PutSecond(reply[0], "_data", Table(d), Table(d + [Entry("err", detail)]));
  }

  /** Assigning the second of two keys. */
  lemma PutSecond(a: Entry, k: string, v: Value, x: Value)
    requires a.key != k
    ensures Put([a, Entry(k, v)], k, x) == [a, Entry(k, x)]
  {
    assert [a, Entry(k, v)][1..] == [Entry(k, v)];
  }
}
