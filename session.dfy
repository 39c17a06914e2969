/** Command-channel sessions (session.py): requests in flight and how their
    responses are resolved, the write queue, the table of sequences served on
    the session, one step of the reader's handling policy, and the part of
    closing that fails everything still pending. The reader and writer threads
    themselves are not modelled: each of their steps is a method, and what a
    thread would learn from the connection is a parameter.

    A state object is named by its index in `states`, the handle the
    connection keeps in its outstanding table for a request. */
module Session {
  import opened Wrappers
  import opened Exceptions
  import opened Values
  import PyInt
  import Message

  // ---------------------------------------------------------------------
  // Resolving a response, `RequestState.get_response`
  // ---------------------------------------------------------------------

  /** A response whose `_ctrl` and `_data` are both dicts. */
  predicate WellFormed(m: Dict) {
    Section(Table(m), "_ctrl").Some? && Section(Table(m), "_data").Some?
  }

  /** What `get_response` returns or raises, for a request in the given state.
      The tests come in this order: not done is Timeout; a stored exception is
      raised; a `_seq` where no sequence is expected is UnexpectedSequence; an
      `err` when errors are to be raised is Error with that text; otherwise the
      `_data` section or the whole response. */
  function Resolution(done: bool, exception: Option<Exc>, response: Option<Dict>,
                      returnData: bool, raiseError: bool, sequenceOk: bool): (r: Result<Value>)
    ensures !done ==> r == Raise(Timeout)
    ensures done && exception.Some? ==> r == Err(exception.value)
    ensures done && exception.None? && response.Some? && WellFormed(response.value) ==>
              var m := response.value;
              var ctrl := Section(Table(m), "_ctrl").value;
              var data := Section(Table(m), "_data").value;
              if !sequenceOk && Has(ctrl, "_seq") then r == Raise(UnexpectedSequence)
              else if raiseError && Has(data, "err") then r == Raise(Error, ValueText(Get(data, "err").value))
              else r == Ok(if returnData then Table(data) else Table(m))
  {
    if !done then Raise(Timeout)
    else if exception.Some? then Err(exception.value)
    else if response.None? then Raise(TypeError)
    else
      var m := response.value;
      var unexpected :-
        if !sequenceOk then
          var ctrl :- Message.Item(m, "_ctrl");
          Message.In("_seq", ctrl)
        else Ok(false);
      if unexpected then Raise(UnexpectedSequence)
      else
        var data :- Message.Item(m, "_data");
        var hasErr :- if raiseError then Message.In("err", data) else Ok(false);
        if hasErr then
          var err :- Message.IndexIn(data, "err");
          Raise(Error, ValueText(err))
        else Ok(if returnData then data else Table(m))
  }

  /** With errors not raised, a response carrying `err` is returned as it is. */
  lemma UnraisedErrorReturned(m: Dict, returnData: bool, sequenceOk: bool)
    requires WellFormed(m) && Has(Section(Table(m), "_data").value, "err")
    requires sequenceOk || !Has(Section(Table(m), "_ctrl").value, "_seq")
    ensures Resolution(true, None, Some(m), returnData, false, sequenceOk) ==
              Ok(if returnData then Get(m, "_data").value else Table(m))
  {
  }

  // ---------------------------------------------------------------------
  // `ask`'s normalisation of its request
  // ---------------------------------------------------------------------

  /** What `ask` accepts: a type name, or a dict that is either a `_data`
      section or a whole message. */
  datatype RequestArg = TypeName(name: string) | Given(d: Dict)

  /** The message `ask` sends, and whether only its reply's `_data` is wanted. */
  function Normalised(req: RequestArg): (r: (Dict, bool))
    ensures r.1 <==> !(req.Given? && Has(req.d, "_data"))
    ensures !r.1 ==> r.0 == req.d
    ensures req.Given? && r.1 ==> r.0 == [Entry("_data", Table(req.d))]
    ensures req.TypeName? ==> r.0 == [Entry("_data", Table([Entry("type", Text(req.name))]))]
  {
    match req
    case TypeName(s) => ([Entry("_data", Table([Entry("type", Text(s))]))], true)
    case Given(d) => if !Has(d, "_data") then ([Entry("_data", Table(d))], true) else (d, false)
  }

  /** Asking with a `_data` section or a type name gets back the `_data` of the
      reply; asking with a whole message gets back the whole reply. */
  lemma AskedShapeReturned(req: RequestArg, m: Dict, raiseError: bool)
    requires WellFormed(m) && !Has(Section(Table(m), "_ctrl").value, "_seq")
    requires !raiseError || !Has(Section(Table(m), "_data").value, "err")
    ensures var (_, returnData) := Normalised(req);
            Resolution(true, None, Some(m), returnData, raiseError, false) ==
              if req.Given? && Has(req.d, "_data") then Ok(Table(m)) else Ok(Get(m, "_data").value)
  {
  }

  // ---------------------------------------------------------------------
  // RequestState
  // ---------------------------------------------------------------------

  /** A request in flight. */
  class RequestState {
    const request: Dict
    const returnData: bool
    const raiseError: bool
    const sequenceOk: bool
    var done: bool
    var response: Option<Dict>
    var exception: Option<Exc>

    constructor (request: Dict, returnData: bool, raiseError: bool, sequenceOk: bool)
      ensures this.request == request && this.returnData == returnData
      ensures this.raiseError == raiseError && this.sequenceOk == sequenceOk
      ensures !done && response == None && exception == None
    {
      this.request := request;
      this.returnData := returnData;
      this.raiseError := raiseError;
      this.sequenceOk := sequenceOk;
      done := false;
      response := None;
      exception := None;
    }

    /** `get_response()`, once the wait is over. */
    function GetResponse(): Result<Value>
      reads this
    {
      Resolution(done, exception, response, returnData, raiseError, sequenceOk)
    }

    /** `__call__(session, message)`: the response arrived. */
    method Call(message: Dict) returns (handled: bool)
      modifies this
      ensures response == Some(message) && done && handled
      ensures exception == old(exception)
    {
      response := Some(message);
      done := true;
      handled := true;
    }

    /** `return_exception(exception)`: `get_response` now raises it. */
    method ReturnException(e: Exc)
      modifies this
      ensures exception == Some(e) && done && response == old(response)
      ensures GetResponse() == Err(e)
    {
      exception := Some(e);
      done := true;
    }
  }

  // ---------------------------------------------------------------------
  // The reader's handling policy
  // ---------------------------------------------------------------------

  /** What one message read by the reader leads to: the error reply to write,
      if any. `callbackHandled` is whether the request's state took the
      message; `dispatched` is what the session's dispatcher returned or
      raised, or None when there is none. Closing passes through; another
      exception while handling a request becomes an error reply carrying the
      exception's text; an unhandled request gets "unknown request"; anything
      else unhandled is dropped. */
  function Handling(message: Dict, callbackHandled: bool, dispatched: Option<Result<bool>>): (r: Result<Option<Dict>>)
    ensures callbackHandled || dispatched == Some(Ok(true)) ==> r == Ok(None)
    ensures !callbackHandled && dispatched.Some? && dispatched.value.Err? && dispatched.value.error.cls == Closing ==>
              r == Err(dispatched.value.error)
    ensures !callbackHandled && Message.KindOf(message).Ok? && Message.KindOf(message).value != Message.Request &&
            (dispatched.None? || dispatched.value.Ok? || dispatched.value.error.cls != Closing) ==>
              r == Ok(None)
    ensures !callbackHandled && Message.KindOf(message) == Ok(Message.Request) &&
            Message.ReplyTo(message, None).Ok? && (dispatched.None? || dispatched == Some(Ok(false))) ==>
              r == Ok(Some(Message.ErrorReply(message, Text("unknown request"), None).value))
    ensures !callbackHandled && Message.KindOf(message) == Ok(Message.Request) &&
            Message.ReplyTo(message, None).Ok? && dispatched.Some? && dispatched.value.Err? &&
            dispatched.value.error.cls != Closing ==>
              r == Ok(Some(Message.ErrorReply(message, Text(Str(dispatched.value.error)), None).value))
  {
    Message.PredicatesAgreeWithKind(message);
    if callbackHandled then Ok(None)
    else if dispatched.Some? && dispatched.value.Err? then
      var e := dispatched.value.error;
      if e.cls == Closing then Err(e)
      else
        var isRequest :- Message.IsRequest(message);
        if isRequest then
          var reply :- Message.ErrorReply(message, Text(Str(e)), None);
          Ok(Some(reply))
        else Ok(None)
    else if dispatched.Some? && dispatched.value.value then Ok(None)
    else
      var isRequest :- Message.IsRequest(message);
      if isRequest then
        var reply :- Message.ErrorReply(message, Text("unknown request"), None);
        Ok(Some(reply))
      else Ok(None)
  }

  /** One write queued for the writer. */
  datatype Queued = Queued(message: Dict, state: Option<nat>)

  /** A sequence served on the session under its id; the object itself is a
      handle, and what its `close()` does lies outside this model. */
  datatype Registered = Registered(id: string, handle: nat)

  /** `sequences.get(id)`. */
  function Lookup(sequences: seq<Registered>, id: string): (r: Option<nat>)
    ensures r.Some? ==> Registered(id, r.value) in sequences
    ensures r.None? ==> forall s :: s in sequences ==> s.id != id
  {
    if sequences == [] then None
    else if sequences[0].id == id then Some(sequences[0].handle)
    else Lookup(sequences[1..], id)
  }

  /** `del sequences[id]`. */
  function Without(sequences: seq<Registered>, id: string): (r: seq<Registered>)
    ensures forall s :: s in r <==> s in sequences && s.id != id
  {
    if sequences == [] then []
    else if sequences[0].id == id then Without(sequences[1..], id)
    else [sequences[0]] + Without(sequences[1..], id)
  }

  function Handles(sequences: seq<Registered>): (r: seq<nat>)
    ensures |r| == |sequences| && forall i :: 0 <= i < |r| ==> r[i] == sequences[i].handle
  {
    if sequences == [] then [] else [sequences[0].handle] + Handles(sequences[1..])
  }

  /** Ids the session has handed out: decimal numbers below `nextId`, each once. */
  predicate IdsIssued(sequences: seq<Registered>, nextId: nat) {
    (forall s :: s in sequences ==> PyInt.Parse(s.id).Some? && 1 <= PyInt.Parse(s.id).value < nextId) &&
    (forall i, j :: 0 <= i < j < |sequences| ==> sequences[i].id != sequences[j].id)
  }

  /** The states a closing session fails: those still in the connection's
      outstanding table... */
  function Outstanding(outstanding: map<int, Option<nat>>): set<nat> {
    set k | k in outstanding && outstanding[k].Some? :: outstanding[k].value
  }

  /** ... and those of writes still queued. */
  function QueuedStates(queue: seq<Queued>): set<nat> {
    set q | q in queue && q.state.Some? :: q.state.value
  }

  const ClosingExc: Exc := Exc(Closing, "")

  /** A session, minus its threads and its connection. */
  class Session {
    var states: seq<RequestState>
    var writeQueue: Option<seq<Queued>>
    var sequences: Option<seq<Registered>>
    var nextId: nat
    /** The sequences whose `close()` has been called, in that order. */
    var closed: seq<nat>

    predicate Valid()
      reads this
    {
      nextId >= 1 &&
      (forall i, j :: 0 <= i < j < |states| ==> states[i] != states[j]) &&
      (writeQueue.Some? ==> forall q :: q in writeQueue.value && q.state.Some? ==> q.state.value < |states|) &&
      (sequences.Some? ==> IdsIssued(sequences.value, nextId))
    }

    constructor ()
      ensures Valid()
      ensures states == [] && writeQueue == Some([]) && sequences == Some([]) && nextId == 1 && closed == []
    {
      states := [];
      writeQueue := Some([]);
      sequences := Some([]);
      nextId := 1;
      closed := [];
    }

    /** `write(message, state)`: queued at the end, or Closing once the queue
        is gone. */
    method Write(message: Dict, state: Option<nat>) returns (r: Result<()>)
      requires Valid() && (state.Some? ==> state.value < |states|)
      modifies this
      ensures Valid()
      ensures old(writeQueue).None? ==> r == Raise(Closing) && writeQueue == None
      ensures old(writeQueue).Some? ==> r == Ok(()) && writeQueue == Some(old(writeQueue).value + [Queued(message, state)])
      ensures states == old(states) && sequences == old(sequences) && nextId == old(nextId) && closed == old(closed)
    {
      if writeQueue.None? {
        return Raise(Closing);
      }
      writeQueue := Some(writeQueue.value + [Queued(message, state)]);
      return Ok(());
    }

    /** `ask(request, raise_error, sequence_ok)`: a new state for the request,
        and the request queued with it. */
    method Ask(req: RequestArg, raiseError: bool, sequenceOk: bool) returns (r: Result<nat>)
      requires Valid()
      modifies this
      ensures Valid()
      ensures |states| == |old(states)| + 1 && states[..|old(states)|] == old(states)
      ensures var s := states[|old(states)|];
              fresh(s) && (s.request, s.returnData) == Normalised(req) &&
              s.raiseError == raiseError && s.sequenceOk == sequenceOk &&
              !s.done && s.response == None && s.exception == None
      ensures old(writeQueue).None? ==> r == Raise(Closing) && writeQueue == None
      ensures old(writeQueue).Some? ==>
                r == Ok(|old(states)|) &&
                writeQueue == Some(old(writeQueue).value + [Queued(Normalised(req).0, Some(|old(states)|))])
      ensures sequences == old(sequences) && nextId == old(nextId) && closed == old(closed)
    {
      var (request, returnData) := Normalised(req);
      var rstate := new RequestState(request, returnData, raiseError, sequenceOk);
      states := states + [rstate];
      var h := |states| - 1;
      var w := Write(request, Some(h));
      if w.Err? {
        return Err(w.error);
      }
      return Ok(h);
    }

    /** `add_sequence(sequence)`: the next id, as text. The counter moves on
        even when the table is gone. */
    method AddSequence(handle: nat) returns (r: Result<string>)
      requires Valid()
      modifies this
      ensures Valid()
      ensures nextId == old(nextId) + 1
      ensures old(sequences).None? ==> r == Raise(TypeError) && sequences == None
      ensures old(sequences).Some? ==>
                r == Ok(PyInt.Str(old(nextId))) &&
                Lookup(old(sequences).value, r.value) == None &&
                sequences == Some(old(sequences).value + [Registered(r.value, handle)])
      ensures states == old(states) && writeQueue == old(writeQueue) && closed == old(closed)
    {
      var id := PyInt.Str(nextId);
      PyInt.ParseStr(nextId);
      nextId := nextId + 1;
      if sequences.None? {
        return Raise(TypeError);
      }
      var s := sequences.value;
      assert forall x :: x in s ==> x.id != id;
      sequences := Some(s + [Registered(id, handle)]);
      return Ok(id);
    }

    /** `get_sequence(id)`: None for an unknown id. */
    method GetSequence(id: string) returns (r: Result<Option<nat>>)
      ensures sequences.None? ==> r == Raise(AttributeError)
      ensures sequences.Some? ==>
                r.Ok? &&
                (r.value.Some? <==> exists s :: s in sequences.value && s.id == id) &&
                (r.value.Some? ==> Registered(id, r.value.value) in sequences.value)
      ensures sequences.Some? ==> r == Ok(Lookup(sequences.value, id))
    {
      if sequences.None? {
        return Raise(AttributeError);
      }
      return Ok(Lookup(sequences.value, id));
    }

    /** `delete_sequence(id)`: KeyError for an unknown id; otherwise the entry
        is removed and then the sequence closed. */
    method DeleteSequence(id: string) returns (r: Result<()>)
      requires Valid()
      modifies this
      ensures Valid()
      ensures old(sequences).None? ==> r == Raise(TypeError) && sequences == None && closed == old(closed)
      ensures old(sequences).Some? && Lookup(old(sequences).value, id).None? ==>
                r == Raise(KeyError, id) && sequences == old(sequences) && closed == old(closed)
      ensures old(sequences).Some? && Lookup(old(sequences).value, id).Some? ==>
                r == Ok(()) && sequences == Some(Without(old(sequences).value, id)) &&
                closed == old(closed) + [Lookup(old(sequences).value, id).value]
      ensures states == old(states) && writeQueue == old(writeQueue) && nextId == old(nextId)
    {
      if sequences.None? {
        return Raise(TypeError);
      }
      var found := Lookup(sequences.value, id);
      if found.None? {
        return Raise(KeyError, id);
      }
      WithoutIssued(sequences.value, id, nextId);
      sequences := Some(Without(sequences.value, id));
      closed := closed + [found.value];
      return Ok(());
    }

    /** One message through `_reader`: the state callback first, then the
        dispatcher, then any error reply is written. An error result ends the
        reader. */
    method ReaderStep(message: Dict, state: Option<nat>, dispatched: Option<Result<bool>>) returns (r: Result<()>)
      requires Valid() && (state.Some? ==> state.value < |states|)
      modifies this, if state.Some? then {states[state.value]} else {}
      ensures states == old(states) && sequences == old(sequences) && nextId == old(nextId) && closed == old(closed)
      ensures Valid()
      ensures state.Some? ==>
                states[state.value].response == Some(message) && states[state.value].done &&
                states[state.value].exception == old(states[state.value].exception)
      ensures var h := Handling(message, state.Some?, dispatched);
              if h.Err? then r == Err(h.error) && writeQueue == old(writeQueue)
              else if h.value.None? then r == Ok(()) && writeQueue == old(writeQueue)
              else if old(writeQueue).None? then r == Raise(Closing) && writeQueue == None
              else r == Ok(()) && writeQueue == Some(old(writeQueue).value + [Queued(h.value.value, None)])
    {
      var handled := false;
      if state.Some? {
        handled := states[state.value].Call(message);
      }
      var reply: Option<Dict> := None;
      if !handled && dispatched.Some? {
        if dispatched.value.Err? {
          var e := dispatched.value.error;
          if e.cls == Closing {
            return Err(e);
          }
          var isRequest := Message.IsRequest(message);
          if isRequest.Err? {
            return Err(isRequest.error);
          }
          if isRequest.value {
            var response := Message.ErrorReply(message, Text(Str(e)), None);
            if response.Err? {
              return Err(response.error);
            }
            reply := Some(response.value);
            handled := true;
          }
        } else {
          handled := dispatched.value.value;
        }
      }
      if !handled && dispatched.Some? && dispatched.value.Err? {
        // a non-request whose handling raised: dropped
      } else if !handled {
        var isRequest := Message.IsRequest(message);
        if isRequest.Err? {
          return Err(isRequest.error);
        }
        if isRequest.value {
          var response := Message.ErrorReply(message, Text("unknown request"), None);
          if response.Err? {
            return Err(response.error);
          }
          reply := Some(response.value);
        }
      }
      if reply.Some? {
        r := Write(reply.value, None);
      } else {
        r := Ok(());
      }
    }

    /** The part of `_close` that ends what is pending: every state in the
        connection's outstanding table, then every state of a write still
        queued, gets Closing and is marked done; the write queue is then gone;
        then the sequence table is gone and each sequence closed in turn. */
    method ClosePending(outstanding: map<int, Option<nat>>) returns (r: Result<()>)
      requires Valid() && forall h :: h in Outstanding(outstanding) ==> h < |states|
      modifies this, states
      ensures Valid() && states == old(states) && nextId == old(nextId)
      ensures var failed := Outstanding(outstanding) +
                            (if old(writeQueue).Some? then QueuedStates(old(writeQueue).value) else {});
              (forall h :: h in failed ==>
                 states[h].exception == Some(ClosingExc) && states[h].done &&
                 states[h].GetResponse() == Raise(Closing)) &&
              (forall i :: 0 <= i < |states| && i !in failed ==>
                 states[i].exception == old(states[i].exception) && states[i].done == old(states[i].done)) &&
              (forall i :: 0 <= i < |states| ==> states[i].response == old(states[i].response))
      ensures old(writeQueue).None? ==>
                r == Raise(AttributeError) && writeQueue == None && sequences == old(sequences) && closed == old(closed)
      ensures old(writeQueue).Some? ==> writeQueue == None
      ensures old(writeQueue).Some? && old(sequences).None? ==> r == Raise(AttributeError) && closed == old(closed)
      ensures old(writeQueue).Some? && old(sequences).Some? ==>
                r == Ok(()) && sequences == None && closed == old(closed) + Handles(old(sequences).value)
    {
      FailAll(Outstanding(outstanding), {});
      if writeQueue.None? {
        return Raise(AttributeError);
      }
      var wq := writeQueue.value;
      writeQueue := None;
      FailAll(QueuedStates(wq), Outstanding(outstanding));
      r := CloseSequences();
    }

    /** The end of `_close`: the sequence table is taken away and each of its
        sequences closed, in the table's order. */
    method CloseSequences() returns (r: Result<()>)
      modifies this
      ensures old(sequences).None? ==> r == Raise(AttributeError) && sequences == None && closed == old(closed)
      ensures old(sequences).Some? ==> r == Ok(()) && sequences == None && closed == old(closed) + Handles(old(sequences).value)
      ensures states == old(states) && writeQueue == old(writeQueue) && nextId == old(nextId)
    {
      if sequences.None? {
        return Raise(AttributeError);
      }
      var table := sequences.value;
      sequences := None;
      var k := 0;
      while k < |table|
        invariant 0 <= k <= |table|
        invariant closed == old(closed) + Handles(table[..k])
        invariant sequences == None && states == old(states) && writeQueue == old(writeQueue) && nextId == old(nextId)
      {
        assert table[..k + 1] == table[..k] + [table[k]];
        HandlesAppend(table[..k], table[k]);
        closed := closed + [table[k].handle];
        k := k + 1;
      }
      assert table[..k] == table;
      return Ok(());
    }

    /** Each state in `todo` gets Closing and is marked done; those in `before`
        already were. */
    method FailAll(todo: set<nat>, before: set<nat>)
      requires forall i, j :: 0 <= i < j < |states| ==> states[i] != states[j]
      requires forall h :: h in todo ==> h < |states|
      requires forall h :: h in before && h < |states| ==> states[h].exception == Some(ClosingExc) && states[h].done
      modifies states
      ensures forall h :: (h in todo || h in before) && h < |states| ==>
                states[h].exception == Some(ClosingExc) && states[h].done
      ensures forall i :: 0 <= i < |states| && i !in todo ==>
                states[i].exception == old(states[i].exception) && states[i].done == old(states[i].done)
      ensures forall i :: 0 <= i < |states| ==> states[i].response == old(states[i].response)
    {
      var left := todo;
      while left != {}
        invariant left <= todo
        invariant forall h :: (h in todo - left || h in before) && h < |states| ==>
                    states[h].exception == Some(ClosingExc) && states[h].done
        invariant forall i :: 0 <= i < |states| && i !in todo - left ==>
                    states[i].exception == old(states[i].exception) && states[i].done == old(states[i].done)
        invariant forall i :: 0 <= i < |states| ==> states[i].response == old(states[i].response)
        decreases left
      {
        var h :| h in left;
        states[h].exception := Some(ClosingExc);
        states[h].done := true;
        left := left - {h};
      }
    }
  }

  lemma HandlesAppend(s: seq<Registered>, x: Registered)
    ensures Handles(s + [x]) == Handles(s) + [x.handle]
  {
  }

  /** Removing an entry keeps the ids issued. */
  lemma WithoutIssued(s: seq<Registered>, id: string, nextId: nat)
    requires IdsIssued(s, nextId)
    ensures IdsIssued(Without(s, id), nextId)
  {
    if s != [] {
      IssuedTail(s, nextId);
      WithoutIssued(s[1..], id, nextId);
      if s[0].id != id {
        IssuedCons(s[0], Without(s[1..], id), nextId);
      }
    }
  }

  /** The rest of a table of issued ids is one too, and its ids differ from
      the first. */
  lemma IssuedTail(s: seq<Registered>, nextId: nat)
    requires s != [] && IdsIssued(s, nextId)
    ensures IdsIssued(s[1..], nextId)
    ensures forall x :: x in s[1..] ==> x.id != s[0].id
  {
    forall i, j | 0 <= i < j < |s[1..]|
      ensures s[1..][i].id != s[1..][j].id
    {
      assert s[1..][i] == s[i + 1] && s[1..][j] == s[j + 1];
    }
    forall x | x in s[1..]
      ensures x.id != s[0].id
    {
      var k :| 0 <= k < |s[1..]| && s[1..][k] == x;
      assert s[k + 1] == x;
    }
  }

  /** An issued id in front of a table of issued ids that does not hold it. */
  lemma IssuedCons(x: Registered, w: seq<Registered>, nextId: nat)
    requires IdsIssued(w, nextId) && PyInt.Parse(x.id).Some? && 1 <= PyInt.Parse(x.id).value < nextId
    requires forall y :: y in w ==> y.id != x.id
    ensures IdsIssued([x] + w, nextId)
  {
    var r := [x] + w;
    forall i, j | 0 <= i < j < |r|
      ensures r[i].id != r[j].id
    {
      assert r[j] == w[j - 1] && r[j] in w;
      if i > 0 {
        assert r[i] == w[i - 1];
      }
    }
  }
}
