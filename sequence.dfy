/** Reading a multi-response answer (sequence.py). The first request is the
    caller's; each later one asks for the `next` part of the sequence the first
    response named, in batches when the server offers them. The session's
    `tell` is a `Teller` here: it answers each request with the next of a list
    of responses given in advance, resolved as `get_response` would, and runs
    out (Timeout) when the list does. */
module Sequence {
  import opened Wrappers
  import opened Exceptions
  import opened Values
  import Message
  import Session

  /** `DEFAULT_BATCHING`. */
  const DefaultBatching: int := 20

  /** One call of `tell(request, timeout, raise_error, sequence_ok)`. */
  datatype Sent = Sent(request: Dict, raiseError: bool, sequenceOk: bool)

  /** What `tell` gives for `request` when `script` holds the responses still
      to come: Timeout when none is, otherwise the first, resolved. */
  function Told(script: seq<Dict>, request: Dict, raiseError: bool, sequenceOk: bool): Result<Value> {
    if script == [] then Raise(Timeout)
    else Session.Resolution(true, None, Some(script[0]),
                            Session.Normalised(Session.Given(request)).1, raiseError, sequenceOk)
  }

  /** `session.tell`, answered from a list of responses. */
  class Teller {
    var script: seq<Dict>
    var sent: seq<Sent>

    constructor (script: seq<Dict>)
      ensures this.script == script && sent == []
    {
      this.script := script;
      sent := [];
    }

    /** `tell` = `ask` then `get_response`: the request is recorded, the next
        response taken, and the result resolved. */
    method Tell(request: Dict, raiseError: bool, sequenceOk: bool) returns (r: Result<Value>)
      modifies this
      ensures sent == old(sent) + [Sent(request, raiseError, sequenceOk)]
      ensures script == if old(script) == [] then [] else old(script)[1..]
      ensures r == Told(old(script), request, raiseError, sequenceOk)
    {
      sent := sent + [Sent(request, raiseError, sequenceOk)];
      if script == [] {
        return Raise(Timeout);
      }
      var response := script[0];
      script := script[1..];
      r := Session.Resolution(true, None, Some(response),
                              Session.Normalised(Session.Given(request)).1, raiseError, sequenceOk);
    }
  }

  /** Python's None where the reader puts it into a message: `_encode` writes
      it as `str(None)`, the text `None`, and that is all a peer sees of it. */
  const PyNone: Value := Text("None")

  /** The `_seq` the reader sends: its sequence id, or None when it has none
      (the first exchange failed before `_seq` was read). */
  function SeqField(s: Option<Value>): Value {
    if s.Some? then s.value else PyNone
  }

  /** The request for the next part of sequence `s`; `_num` only when batching. */
  function NextRequest(s: Option<Value>, batch: bool, num: int): (m: Dict)
    ensures Section(Table(m), "_data") == Some([Entry("type", Text("next"))])
    ensures Section(Table(m), "_ctrl").Some?
    ensures var ctrl := Section(Table(m), "_ctrl").value;
            Get(ctrl, "_seq") == Some(if s.Some? then s.value else PyNone) &&
            Get(ctrl, "_num") == (if batch then Some(Int(num)) else None) &&
            Get(ctrl, "_end") == None &&
            Keys(ctrl) == ["_seq"] + (if batch then ["_num"] else [])
  {
    var c1 := [Entry("_seq", SeqField(s))];
    var ctrl := if batch then c1 + [Entry("_num", Int(num))] else c1;
    var m := [Entry("_ctrl", Table(ctrl)), Entry("_data", Table([Entry("type", Text("next"))]))];
    assert Get(m, "_ctrl") == Some(Table(ctrl));
    assert m[1..][0].key == "_data";
    assert Get(ctrl, "_end") == None by {
      assert ctrl == [] || ctrl[1..] == [] || ctrl[2..] == [];
    }
    m
  }

  /** The request that ends sequence `s` early. */
  function EndRequest(s: Option<Value>): (m: Dict)
    ensures Section(Table(m), "_data") == Some([Entry("type", Text("next"))])
    ensures Section(Table(m), "_ctrl").Some?
    ensures var ctrl := Section(Table(m), "_ctrl").value;
            Get(ctrl, "_seq") == Some(if s.Some? then s.value else PyNone) &&
            Get(ctrl, "_end") == Some(Text("1")) && Keys(ctrl) == ["_seq", "_end"]
  {
    var ctrl := [Entry("_seq", SeqField(s)), Entry("_end", Text("1"))];
    assert ctrl[1..] == [ctrl[1]];
    [Entry("_ctrl", Table(ctrl)), Entry("_data", Table([Entry("type", Text("next"))]))]
  }

  /** `list.reverse()`. */
  function Reverse(s: seq<Value>): (r: seq<Value>)
    ensures |r| == |s| && forall i :: 0 <= i < |s| ==> r[i] == s[|s| - 1 - i]
  {
    if s == [] then [] else Reverse(s[1..]) + [s[0]]
  }

  /** Popping the last item of a reversed list gives the first, and leaves the
      rest reversed. */
  lemma ReversePop(s: seq<Value>)
    requires s != []
    ensures Reverse(s)[|s| - 1] == s[0] && Reverse(s)[..|s| - 1] == Reverse(s[1..])
  {
  }

  /** What `__next__` does with an item once it has one: when the sequence is
      done, an item with exactly one field ends it; an item with `err` is an
      Error when errors are raised. */
  function Yield(d: Value, done: bool, raiseError: bool): (r: Result<Value>)
    ensures done && Len(d) == Some(1) ==> r == Raise(StopIteration)
    ensures done && Len(d).None? ==> r == Raise(TypeError)
    ensures (!done || (Len(d).Some? && Len(d).value != 1)) && d.Table? ==>
              r == if raiseError && Has(d.entries, "err") then Raise(Error, ValueText(Get(d.entries, "err").value))
                   else Ok(d)
    ensures (!done || (Len(d).Some? && Len(d).value != 1)) && !raiseError ==> r == Ok(d)
  {
    var ends :- if done then (match Len(d) case None => Raise(TypeError) case Some(n) => Ok(n == 1)) else Ok(false);
    if ends then Raise(StopIteration)
    else
      var hasErr :- if raiseError then Message.In("err", d) else Ok(false);
      if hasErr then
        var err :- Message.IndexIn(d, "err");
        Raise(Error, ValueText(err))
      else Ok(d)
  }

  /** A batch item whose `err` is a list raises Error, and the exception
      prints that list as Python does. */
  lemma YieldErrList()
    ensures Yield(Table([Entry("err", List([Text("x")]))]), false, true) == Raise(Error, "['x']")
    ensures Str(Exc(Error, "['x']")) == "['x']"
  {
    ListText();
  }

  /** A reader's request, which always has a `_data` section, gets a
      well-formed response back whole. */
  lemma ToldWhole(script: seq<Dict>, request: Dict)
    requires script != [] && Session.WellFormed(script[0]) && Has(request, "_data")
    ensures Told(script, request, false, true) == Ok(Table(script[0]))
  {
  }

  /** What one exchange leaves: the reader's flags, the buffered batch in the
      order it is handed out, and the item to yield or what was raised. */
  datatype Exchange = Exchange(batch: bool, done: bool, seqv: Option<Value>, buffered: seq<Value>, data: Result<Value>)

  /** Lines 45-56 of `__next__` after `tell` gave `response`: each test runs on
      what the previous one left, and a raise keeps what was set before it.
      Once `_batch` could be looked up in `_ctrl`, so can `_more`. */
  function FirstSeen(response: Result<Value>, num: int, batch: bool, seqv: Option<Value>): (e: Exchange)
    ensures e.buffered == [] && (e.batch ==> batch || num > 0) && (batch ==> e.batch)
    ensures response.Err? ==> e == Exchange(batch, false, seqv, [], response)
    ensures e.done ==> e.seqv == seqv
    ensures e.seqv != seqv ==> !e.done && response.Ok? && e.data == Message.IndexIn(response.value, "_data")
  {
    match response
    case Err(e) => Exchange(batch, false, seqv, [], Err(e))
    case Ok(resp) =>
      match Message.IndexIn(resp, "_ctrl")
      case Err(e) => Exchange(batch, false, seqv, [], Err(e))
      case Ok(ctrl) =>
        match Message.In("_batch", ctrl)
        case Err(e) => Exchange(batch, false, seqv, [], Err(e))
        case Ok(hasBatch) =>
          Continued(resp, ctrl, batch || (hasBatch && num > 0), seqv)
  }

  /** Lines 50-56: `_more` names the sequence to continue, and its absence
      ends it. */
  function Continued(resp: Value, ctrl: Value, batch: bool, seqv: Option<Value>): Exchange
    requires Message.In("_more", ctrl).Ok?
  {
    if Message.In("_more", ctrl).value then
      match Message.IndexIn(ctrl, "_seq")
      case Err(e) => Exchange(batch, false, seqv, [], if e.cls == KeyError then Raise(BadSequence) else Err(e))
      case Ok(s) => Exchange(batch, false, Some(s), [], Message.IndexIn(resp, "_data"))
    else Exchange(batch, true, seqv, [], Message.IndexIn(resp, "_data"))
  }

  /** The first response, when it has `_ctrl` and `_data` sections: batching starts only when it
      offers `_batch` and `num` is positive; `_more` without `_seq` is
      BadSequence; `_more` names the sequence; no `_more` ends it. The item is
      the response's `_data`. */
  lemma FirstResponse(m: Dict, ctrl: Dict, data: Dict, num: int, batch: bool, seqv: Option<Value>)
    requires Get(m, "_ctrl") == Some(Table(ctrl)) && Get(m, "_data") == Some(Table(data))
    ensures var e := FirstSeen(Ok(Table(m)), num, batch, seqv);
            e.batch == (batch || (Has(ctrl, "_batch") && num > 0)) && e.buffered == [] &&
            (Has(ctrl, "_more") && !Has(ctrl, "_seq") ==> e.data == Raise(BadSequence) && !e.done && e.seqv == seqv) &&
            (Has(ctrl, "_more") && Has(ctrl, "_seq") ==> e.data == Ok(Table(data)) && !e.done && e.seqv == Get(ctrl, "_seq")) &&
            (!Has(ctrl, "_more") ==> e.data == Ok(Table(data)) && e.done && e.seqv == seqv)
  {
    assert Message.IndexIn(Table(m), "_ctrl") == Ok(Table(ctrl));
    assert Message.IndexIn(Table(m), "_data") == Ok(Table(data));
  }

  /** Lines 63-75 of `__next__` after `tell` gave `response`. */
  function LaterSeen(response: Result<Value>, num: int, batch: bool, seqv: Option<Value>): (e: Exchange)
    ensures e.batch == batch && e.seqv == seqv
    ensures response.Err? ==> e == Exchange(batch, false, seqv, [], response)
    ensures e.buffered != [] ==> batch && e.data.Ok?
  {
    match response
    case Err(e) => Exchange(batch, false, seqv, [], Err(e))
    case Ok(resp) =>
      match Message.IndexIn(resp, "_ctrl")
      case Err(e) => Exchange(batch, false, seqv, [], Err(e))
      case Ok(ctrl) =>
        match Message.In("_more", ctrl)
        case Err(e) => Exchange(batch, false, seqv, [], Err(e))
        case Ok(more) =>
          match Message.IndexIn(resp, "_data")
          case Err(e) => Exchange(batch, !more, seqv, [], Err(e))
          case Ok(data) => Batched(data, batch, !more, seqv)
  }

  /** Lines 69-75: when batching, a `list` in the data is the batch. */
  function Batched(data: Value, batch: bool, done: bool, seqv: Option<Value>): Exchange {
    match (if batch then Message.In("list", data) else Ok(false))
    case Err(e) => Exchange(batch, done, seqv, [], Err(e))
    case Ok(hasList) =>
      if !hasList then Exchange(batch, done, seqv, [], Ok(data))
      else
        match Message.IndexIn(data, "list")
        case Err(e) => Exchange(batch, done, seqv, [], Err(e))
        case Ok(l) =>
          if !l.List? then Exchange(batch, done, seqv, [], Raise(BadSequence))
          else if l.items == [] then Exchange(batch, done, seqv, [], Raise(StopIteration))
          else Exchange(batch, done, seqv, l.items[1..], Ok(l.items[0]))
  }

  /** A later response, when it has `_ctrl` and `_data` sections: no `_more` ends the sequence. When
      batching, a `list` in its `_data` is the batch: not a list is
      BadSequence, an empty one StopIteration, and otherwise its first item is
      yielded and the rest buffered in order. Otherwise the item is the
      response's `_data`. */
  lemma LaterResponse(m: Dict, ctrl: Dict, data: Dict, num: int, batch: bool, seqv: Option<Value>)
    requires Get(m, "_ctrl") == Some(Table(ctrl)) && Get(m, "_data") == Some(Table(data))
    ensures var e := LaterSeen(Ok(Table(m)), num, batch, seqv);
            e.batch == batch && e.seqv == seqv && e.done == !Has(ctrl, "_more") &&
            if batch && Has(data, "list") then
              var l := Get(data, "list").value;
              (!l.List? ==> e.data == Raise(BadSequence) && e.buffered == []) &&
              (l.List? && l.items == [] ==> e.data == Raise(StopIteration) && e.buffered == []) &&
              (l.List? && l.items != [] ==> e.data == Ok(l.items[0]) && e.buffered == l.items[1..])
            else e.data == Ok(Table(data)) && e.buffered == []
  {
    assert Message.IndexIn(Table(m), "_ctrl") == Ok(Table(ctrl));
    assert Message.IndexIn(Table(m), "_data") == Ok(Table(data));
  }

  /** `Reader`. */
  class Reader {
    const teller: Teller
    const request: Dict
    const num: int
    const raiseError: bool
    var first: bool
    var done: bool
    /** `_datas`: the batch still to hand out, reversed so that `pop()` takes
        the next item from its end. */
    var datas: seq<Value>
    /** The same items in the order they are handed out. */
    ghost var buffered: seq<Value>
    /** `_seq`. */
    var seqv: Option<Value>
    var batch: bool

    ghost predicate Valid()
      reads this
    {
      datas == Reverse(buffered) && Has(request, "_data")
    }

    /** `Reader(session, data, timeout, num, raise_error)`: a text is a type
        name, anything else the `_data` section. */
    constructor (teller: Teller, data: Value, num: int, raiseError: bool)
      ensures Valid()
      ensures this.teller == teller && this.num == num && this.raiseError == raiseError
      ensures request == [Entry("_data", if data.Text? then Table([Entry("type", data)]) else data)]
      ensures first && !done && datas == [] && buffered == [] && seqv == None && !batch
    {
      this.teller := teller;
      request := [Entry("_data", if data.Text? then Table([Entry("type", data)]) else data)];
      this.num := num;
      this.raiseError := raiseError;
      first := true;
      done := false;
      datas := [];
      buffered := [];
      seqv := None;
      batch := false;
    }

    /** `__next__()`: a buffered item while there is one, StopIteration once
        done, and otherwise one exchange with the server, whose item is then
        judged by `Yield`. */
    method Next() returns (r: Result<Value>)
      requires Valid()
      modifies this, teller
      ensures Valid()
      ensures old(done) ==> done
      ensures old(buffered) != [] ==>
                r == Ok(old(buffered)[0]) && buffered == old(buffered)[1..] &&
                teller.sent == old(teller.sent) && teller.script == old(teller.script) &&
                first == old(first) && done == old(done) && seqv == old(seqv) && batch == old(batch)
      ensures old(buffered) == [] && old(done) ==>
                r == Raise(StopIteration) && teller.sent == old(teller.sent) && teller.script == old(teller.script) &&
                first == old(first) && seqv == old(seqv) && batch == old(batch) && buffered == []
      ensures old(buffered) == [] && !old(done) ==>
                var e := if old(first) then FirstSeen(Told(old(teller.script), request, false, true), num, old(batch), old(seqv))
                         else LaterSeen(Told(old(teller.script), NextRequest(old(seqv), old(batch), num), false, true),
                                        num, old(batch), old(seqv));
                !first && teller.sent ==
                  old(teller.sent) + [Sent(if old(first) then request else NextRequest(old(seqv), old(batch), num), false, true)] &&
                batch == e.batch && done == e.done && seqv == e.seqv && buffered == e.buffered &&
                r == (if e.data.Err? then e.data else Yield(e.data.value, e.done, raiseError))
    {
      if datas != [] {
        ReversePop(buffered);
        r := Ok(datas[|datas| - 1]);
        datas := datas[..|datas| - 1];
        buffered := buffered[1..];
        return;
      }
      if done {
        return Raise(StopIteration);
      }
      var d;
      if first {
        d := FirstExchange();
      } else {
        d := LaterExchange();
      }
      if d.Err? {
        return d;
      }
      r := Yield(d.value, done, raiseError);
    }

    /** The first exchange: the caller's request, sent with `raise_error`
        False and `sequence_ok` True. */
    method FirstExchange() returns (r: Result<Value>)
      requires Valid() && first && !done && buffered == []
      modifies this, teller
      ensures Valid() && !first
      ensures teller.sent == old(teller.sent) + [Sent(request, false, true)]
      ensures var e := FirstSeen(Told(old(teller.script), request, false, true), num, old(batch), old(seqv));
              batch == e.batch && done == e.done && seqv == e.seqv && buffered == e.buffered && r == e.data
    {
      first := false;
      var response := teller.Tell(request, false, true);
      r := FirstResponded(response);
    }

    /** Lines 45-56, run on what `tell` gave. */
    method FirstResponded(response: Result<Value>) returns (r: Result<Value>)
      requires Valid() && !done && buffered == []
      modifies this
      ensures Valid() && first == old(first)
      ensures var e := FirstSeen(response, num, old(batch), old(seqv));
              batch == e.batch && done == e.done && seqv == e.seqv && buffered == e.buffered && r == e.data
    {
      if response.Err? {
        return response;
      }
      var ctrl := Message.IndexIn(response.value, "_ctrl");
      if ctrl.Err? {
        return ctrl;
      }
      var hasBatch := Message.In("_batch", ctrl.value);
      if hasBatch.Err? {
        return Err(hasBatch.error);
      }
      if hasBatch.value && num > 0 {
        batch := true;
      }
      r := Continue(response.value, ctrl.value);
    }

    /** Lines 50-56, on `_ctrl` once `_batch` was looked up in it. */
    method Continue(resp: Value, ctrl: Value) returns (r: Result<Value>)
      requires Valid() && !done && buffered == [] && Message.In("_more", ctrl).Ok?
      modifies this
      ensures Valid() && first == old(first) && batch == old(batch)
      ensures var e := Continued(resp, ctrl, batch, old(seqv));
              done == e.done && seqv == e.seqv && buffered == e.buffered && r == e.data
    {
      if Message.In("_more", ctrl).value {
        var s := Message.IndexIn(ctrl, "_seq");
        if s.Err? && s.error.cls == KeyError {
          return Raise(BadSequence);
        } else if s.Err? {
          return s;
        }
        seqv := Some(s.value);
      } else {
        done := true;
      }
      r := Message.IndexIn(resp, "_data");
    }

    /** A later exchange: `next` for the sequence, sent with `raise_error`
        False and `sequence_ok` True. */
    method LaterExchange() returns (r: Result<Value>)
      requires Valid() && !first && !done && buffered == []
      modifies this, teller
      ensures Valid() && !first
      ensures teller.sent == old(teller.sent) + [Sent(NextRequest(old(seqv), old(batch), num), false, true)]
      ensures var e := LaterSeen(Told(old(teller.script), NextRequest(old(seqv), old(batch), num), false, true),
                                 num, old(batch), old(seqv));
              batch == e.batch && done == e.done && seqv == e.seqv && buffered == e.buffered && r == e.data
    {
      var req := NextRequest(seqv, batch, num);
      var response := teller.Tell(req, false, true);
      r := LaterResponded(response);
    }

    /** Lines 63-68, run on what `tell` gave. */
    method LaterResponded(response: Result<Value>) returns (r: Result<Value>)
      requires Valid() && !done && buffered == []
      modifies this
      ensures Valid() && first == old(first)
      ensures var e := LaterSeen(response, num, old(batch), old(seqv));
              batch == e.batch && done == e.done && seqv == e.seqv && buffered == e.buffered && r == e.data
    {
      if response.Err? {
        return response;
      }
      var ctrl := Message.IndexIn(response.value, "_ctrl");
      if ctrl.Err? {
        return ctrl;
      }
      var hasMore := Message.In("_more", ctrl.value);
      if hasMore.Err? {
        return Err(hasMore.error);
      }
      if !hasMore.value {
        done := true;
      }
      var data := Message.IndexIn(response.value, "_data");
      if data.Err? {
        return data;
      }
      r := TakeBatch(data.value);
    }

    /** Lines 69-75: the batch, when there is one, is buffered in order. */
    method TakeBatch(data: Value) returns (r: Result<Value>)
      requires Valid() && buffered == []
      modifies this
      ensures Valid() && first == old(first) && done == old(done) && batch == old(batch) && seqv == old(seqv)
      ensures var e := Batched(data, batch, done, seqv);
              buffered == e.buffered && r == e.data
    {
      var hasList := Ok(false);
      if batch {
        hasList := Message.In("list", data);
      }
      if hasList.Err? {
        return Err(hasList.error);
      }
      if !hasList.value {
        return Ok(data);
      }
      var l := Message.IndexIn(data, "list");
      if l.Err? {
        return l;
      }
      if !l.value.List? {
        return Raise(BadSequence);
      }
      var items := l.value.items;
      if items == [] {
        return Raise(StopIteration);
      }
      ReversePop(items);
      assert Batched(data, batch, done, seqv) == Exchange(batch, done, seqv, items[1..], Ok(items[0]));
      datas := Reverse(items)[..|items| - 1];
      buffered := items[1..];
      r := Ok(items[0]);
    }

    /** `close()`: nothing on a done reader. Otherwise the reader is done; a
        reader that never started has no request to send (the source reaches
        `tell` with the name unbound), and one that has sends `next` with
        `_end`, with the default `raise_error` True and `sequence_ok` False. */
    method Close() returns (r: Result<()>)
      modifies this, teller
      ensures done
      ensures first == old(first) && seqv == old(seqv) && batch == old(batch) && datas == old(datas) && buffered == old(buffered)
      ensures old(done) ==> r == Ok(()) && teller.sent == old(teller.sent) && teller.script == old(teller.script)
      ensures !old(done) && first ==> r == Raise(UnboundLocalError) && teller.sent == old(teller.sent)
      ensures !old(done) && !first ==>
                teller.sent == old(teller.sent) + [Sent(EndRequest(seqv), true, false)] &&
                var t := Told(old(teller.script), EndRequest(seqv), true, false);
                r == if t.Err? then Err(t.error) else Ok(())
    {
      if done {
        return Ok(());
      }
      done := true;
      if first {
        return Raise(UnboundLocalError);
      }
      var response := teller.Tell(EndRequest(seqv), true, false);
      if response.Err? {
        return Err(response.error);
      }
      return Ok(());
    }
  }
}
