/** Routing of incoming messages to handler functions (dispatcher.py). The
    handler classes themselves (nomcc.handler) are not part of this model: a
    handler is an opaque value, and what each handler returns for the message
    being routed, or raises, is a parameter of the routing. */
module Dispatcher {
  import opened Wrappers
  import opened Exceptions
  import opened Values
  import Message
  import PyStr
  import Utf8
  import Session

  /** A Python object passed where a callable is expected: an action of the
      caller's, the dispatcher's own `_handle_next`, or something that cannot
      be called. */
  datatype Obj = Fn(id: nat) | HandleNext | NotCallable(id: nat)

  predicate Callable(o: Obj) {
    !o.NotCallable?
  }

  /** What a basic handler selects messages by (lines 180-187): nothing, the
      fields of `_data` (`DataFilter`), or a callable of the caller's. */
  datatype Filter = NoFilter | DataFilter(fields: Dict) | Selects(f: Obj)

  /** The `selector` argument of `handle`: a type name, some other object
      (callable or not), a dict of field criteria, or None. */
  datatype Selector = TypeName(t: string) | SelectorObj(o: Obj) | SelectorDict(d: Dict) | NoSelector

  /** A key of `_handler_map`: a kind (or None) and a message type. */
  type Key = (Option<Message.Kind>, string)

  /** The handlers the dispatcher installs: `BasicHandler(action, filter,
      kind)`, `ActionHandler(action)`, a `MappedHandler` with its
      `handler_map` listed item by item, and any other handler object. */
  datatype Handler =
    | Basic(action: Obj, filter: Filter, kind: Option<Message.Kind>)
    | ActionHandler(action: Obj)
    | MappedHandler(items: seq<MapItem>)
    | OtherHandler(id: nat)

  datatype MapItem = MapItem(key: Key, handlers: seq<Handler>)

  /** `kind in nomcc.message.kinds`, giving the kind it names. */
  function KindNamed(s: string): (r: Option<Message.Kind>)
    ensures r.Some? <==> s in Message.Kinds
    ensures r.Some? ==> Message.KindName(r.value) == s
  {
    if s == "request" then Some(Message.Request)
    else if s == "response" then Some(Message.Response)
    else if s == "event" then Some(Message.Event)
    else None
  }

  /** `handler_map.get(key, [])`. */
  function Lookup(hm: map<Key, seq<Handler>>, key: Key): seq<Handler> {
    if key in hm then hm[key] else []
  }

  /** `_maybe_remember_class(key)`: the part before the first dot of a
      request type. */
  function Remember(classes: set<string>, key: Key): set<string> {
    if key.0 == Some(Message.Request) && '.' in key.1 then classes + {PyStr.SplitFirst(key.1, '.')[0]}
    else classes
  }

  /** A class is remembered exactly when it was already, or the key is a
      request type `<class>.<rest>` whose class part has no dot. */
  lemma RememberedClasses(classes: set<string>, key: Key, c: string)
    ensures c in Remember(classes, key) <==>
              c in classes ||
              (key.0 == Some(Message.Request) && '.' !in c && exists rest :: key.1 == c + "." + rest)
  {
    if key.0 == Some(Message.Request) && '.' in key.1 {
      var parts := PyStr.SplitFirst(key.1, '.');
      assert key.1 == parts[0] + "." + parts[1];
      if '.' !in c && exists rest :: key.1 == c + "." + rest {
        var rest :| key.1 == c + "." + rest;
        PyStr.SplitFirstAt(c, '.', rest);
        assert c + "." + rest == c + ['.'] + rest;
      }
    }
  }

  /** `_handler_map` after the items of a mapped handler are added in order
      (lines 93-99): each item's handlers extend the list at its key. */
  function Merged(hm: map<Key, seq<Handler>>, items: seq<MapItem>): map<Key, seq<Handler>>
    decreases |items|
  {
    if items == [] then hm
    else
      var before := Merged(hm, items[..|items| - 1]);
      var last := items[|items| - 1];
      before[last.key := Lookup(before, last.key) + last.handlers]
  }

  /** The handlers of the items with key `key`, in order. */
  function Gathered(items: seq<MapItem>, key: Key): seq<Handler>
    decreases |items|
  {
    if items == [] then []
    else
      var last := items[|items| - 1];
      Gathered(items[..|items| - 1], key) + (if last.key == key then last.handlers else [])
  }

  /** Adding a mapped handler keeps what every key held and appends the
      handlers its items give that key, in the items' order; it creates
      exactly the keys the items name. */
  lemma {:induction false} MergedLookup(hm: map<Key, seq<Handler>>, items: seq<MapItem>, key: Key)
    ensures Lookup(Merged(hm, items), key) == Lookup(hm, key) + Gathered(items, key)
    ensures key in Merged(hm, items) <==> key in hm || exists it :: it in items && it.key == key
    decreases |items|
  {
    if items != [] {
      var init := items[..|items| - 1];
      MergedLookup(hm, init, key);
      if exists it :: it in items && it.key == key {
        var it :| it in items && it.key == key;
        if it != items[|items| - 1] {
          assert it in init;
        }
      }
      assert forall it :: it in init ==> it in items;
    }
  }

  /** The classes remembered from the keys of the items, in order. */
  function RememberAll(classes: set<string>, items: seq<MapItem>): set<string>
    decreases |items|
  {
    if items == [] then classes
    else Remember(RememberAll(classes, items[..|items| - 1]), items[|items| - 1].key)
  }

  /** Lines 47-49 and 52-54: every handler is called, in order, and the
      message is handled when any of them returns True; the first exception
      one of them raises leaves the loop. */
  function Fire(hs: seq<Handler>, outcome: Handler -> Result<bool>): Result<bool>
    decreases |hs|
  {
    if hs == [] then Ok(false)
    else
      match Fire(hs[..|hs| - 1], outcome)
      case Err(e) => Err(e)
      case Ok(b) =>
        match outcome(hs[|hs| - 1])
        case Err(e) => Err(e)
        case Ok(c) => Ok(b || c)
  }

  /** No handler is skipped: the loop succeeds exactly when every handler
      returns, and then reports whether any of them returned True. */
  lemma {:induction false} FireAll(hs: seq<Handler>, outcome: Handler -> Result<bool>)
    ensures Fire(hs, outcome).Ok? <==> forall h :: h in hs ==> outcome(h).Ok?
    ensures Fire(hs, outcome).Ok? ==> (Fire(hs, outcome).value <==> exists h :: h in hs && outcome(h) == Ok(true))
    decreases |hs|
  {
    if hs != [] {
      var init := hs[..|hs| - 1];
      FireAll(init, outcome);
      assert hs == init + [hs[|hs| - 1]];
      assert forall h :: h in hs <==> h in init || h == hs[|hs| - 1];
    }
  }

  /** The exception is the first one raised, even after a handler has already
      returned True. */
  lemma {:induction false} FireFirstError(hs: seq<Handler>, outcome: Handler -> Result<bool>, i: nat)
    requires i < |hs| && outcome(hs[i]).Err?
    requires forall j :: 0 <= j < i ==> outcome(hs[j]).Ok?
    ensures Fire(hs, outcome) == Err(outcome(hs[i]).error)
    decreases |hs|
  {
    var init := hs[..|hs| - 1];
    if i < |hs| - 1 {
      assert init[i] == hs[i];
      FireFirstError(init, outcome, i);
    } else {
      FireAll(init, outcome);
      assert forall h :: h in init ==> outcome(h).Ok? by {
        forall h | h in init ensures outcome(h).Ok? {
          var j :| 0 <= j < |init| && init[j] == h;
          assert hs[j] == h;
        }
      }
    }
  }

  /** Once a prefix of the handlers has raised, so has the whole loop. */
  lemma {:induction false} FireErrGrows(hs: seq<Handler>, outcome: Handler -> Result<bool>, i: nat)
    requires i <= |hs| && Fire(hs[..i], outcome).Err?
    ensures Fire(hs, outcome) == Fire(hs[..i], outcome)
    decreases |hs| - i
  {
    if i < |hs| {
      assert hs[..i + 1][..i] == hs[..i];
      FireErrGrows(hs, outcome, i + 1);
    } else {
      assert hs[..i] == hs;
    }
  }

  /** `_data.get('type')`: only dicts have `get`. */
  function TypeOf(data: Value): Result<Option<Value>> {
    if data.Table? then Ok(Get(data.entries, "type")) else Raise(AttributeError)
  }

  /** `_handler_map.get((kind, mtype), [])`: a list or dict cannot be
      hashed, and every key's type is a text, so nothing else is found. */
  function MappedFor(hm: map<Key, seq<Handler>>, kind: Message.Kind, mtype: Value): Result<seq<Handler>> {
    match mtype
    case Text(t) => Ok(Lookup(hm, (Some(kind), t)))
    case List(_) => Raise(TypeError)
    case Table(_) => Raise(TypeError)
    case _ => Ok([])
  }

  /** `mtype.split('.', 1)`: bytes refuse a text separator, and the other
      non-texts have no `split`. */
  function SplitType(mtype: Value): Result<seq<string>> {
    match mtype
    case Text(t) => Ok(PyStr.SplitFirst(t, '.'))
    case Bin(_) => Raise(TypeError)
    case _ => Raise(AttributeError)
  }

  /** The error text of lines 60-64. */
  function UnknownText(obj: string, command: string, classes: set<string>): string {
    if obj in classes then "unknown command '" + command + "' on object '" + obj + "'"
    else "unknown object '" + obj + "'"
  }

  /** What `__call__` ends in: an error reply to write, or its return value. */
  datatype Outcome = Reply(response: Dict) | Done(handled: bool)

  /** Lines 68-75: the fallback for the message's kind, else the general one,
      else False. */
  function Fallen(kind: Message.Kind, fallback: Option<Obj>, byType: map<Message.Kind, Obj>,
                  fallbackOutcome: Obj -> Result<()>): (r: Result<Outcome>)
    ensures r.Ok? ==> r.value.Done? && (r.value.handled <==> kind in byType || fallback.Some?)
  {
    if kind in byType then
      match fallbackOutcome(byType[kind])
      case Err(e) => Err(e)
      case Ok(_) => Ok(Done(true))
    else if fallback.Some? then
      match fallbackOutcome(fallback.value)
      case Err(e) => Err(e)
      case Ok(_) => Ok(Done(true))
    else Ok(Done(false))
  }

  /** `Dispatcher.__call__(session, message, state)` on the dispatcher's
      tables, where `outcome` says what each handler returns for this message
      and `fallbackOutcome` what each fallback action does. */
  function Route(handlers: seq<Handler>, hm: map<Key, seq<Handler>>, classes: set<string>,
                 fallback: Option<Obj>, byType: map<Message.Kind, Obj>, message: Dict,
                 outcome: Handler -> Result<bool>, fallbackOutcome: Obj -> Result<()>): (r: Result<Outcome>)
    ensures !Has(message, "_ctrl") ==> r == Raise(KeyError, "_ctrl")
    ensures r.Ok? ==> Message.KindOf(message).Ok? && Has(message, "_data")
    ensures r.Ok? && r.value.Reply? ==> Message.KindOf(message) == Ok(Message.Request)
    ensures r == Ok(Done(false)) ==> fallback.None? && Message.KindOf(message).value !in byType
  {
    var (kind, handled, mtype) :- Front(handlers, message, outcome);
    var typed :- if mtype.None? then Ok(if handled then Some(Done(true)) else None)
                 else Typed(hm, classes, message, kind, mtype.value, handled, outcome);
    Conclude(typed, kind, fallback, byType, fallbackOutcome)
  }

  /** Lines 68-75: a message still unhandled goes to the fallbacks. */
  function Conclude(typed: Option<Outcome>, kind: Message.Kind, fallback: Option<Obj>,
                    byType: map<Message.Kind, Obj>, fallbackOutcome: Obj -> Result<()>): (r: Result<Outcome>)
    ensures typed.Some? ==> r == Ok(typed.value)
    ensures typed.None? && r.Ok? ==> r.value.Done? && (r.value.handled <==> kind in byType || fallback.Some?)
  {
    if typed.Some? then Ok(typed.value) else Fallen(kind, fallback, byType, fallbackOutcome)
  }

  /** Lines 44-50: the kind, every generic handler called, and the type. */
  function Front(handlers: seq<Handler>, message: Dict, outcome: Handler -> Result<bool>)
    : (r: Result<(Message.Kind, bool, Option<Value>)>)
    ensures !Has(message, "_ctrl") ==> r == Raise(KeyError, "_ctrl")
    ensures r.Ok? ==> Message.KindOf(message) == Ok(r.value.0) && Has(message, "_data")
  {
    var kind :- Message.KindOf(message);
    var data :- Message.Item(message, "_data");
    var handled :- Fire(handlers, outcome);
    var mtype :- TypeOf(data);
    Ok((kind, handled, mtype))
  }

  /** Lines 51-67 for a message with a type: the mapped handlers are called,
      and an unhandled request of a dotted type gets an error reply. None is
      a message still unhandled. */
  function Typed(hm: map<Key, seq<Handler>>, classes: set<string>, message: Dict, kind: Message.Kind,
                 mtype: Value, handled: bool, outcome: Handler -> Result<bool>): (r: Result<Option<Outcome>>)
    ensures r.Ok? && r.value.Some? ==> r.value.value == Done(true) || (kind == Message.Request && r.value.value.Reply?)
  {
    var mapped :- MappedFor(hm, kind, mtype);
    var more :- Fire(mapped, outcome);
    if handled || more then Ok(Some(Done(true)))
    else if kind != Message.Request then Ok(None)
    else
      var parts :- SplitType(mtype);
      if |parts| > 1 then
        var response :- Message.ErrorReply(message, Text(UnknownText(parts[0], parts[1], classes)), None);
        Ok(Some(Reply(response)))
      else Ok(None)
  }

  /** A message with `_ctrl` and a dict `_data`. */
  predicate Routable(message: Dict) {
    Section(Table(message), "_ctrl").Some? && Section(Table(message), "_data").Some?
  }

  /** The type of a routable message. */
  function TypeField(message: Dict): Option<Value>
    requires Routable(message)
  {
    Get(Section(Table(message), "_data").value, "type")
  }

  /** The section of a routable message is what `message['_data']` gives. */
  lemma RoutableData(message: Dict)
    requires Routable(message)
    ensures Message.Item(message, "_data") == Ok(Table(Section(Table(message), "_data").value))
    ensures TypeOf(Table(Section(Table(message), "_data").value)) == Ok(TypeField(message))
  {
    SectionGet(message, "_data");
  }

  /** A generic handler that returns True handles the message: no reply is
      made and no fallback is called, whatever the fallbacks would do. */
  lemma HandledByGeneric(handlers: seq<Handler>, hm: map<Key, seq<Handler>>, classes: set<string>,
                         fallback: Option<Obj>, byType: map<Message.Kind, Obj>, message: Dict,
                         outcome: Handler -> Result<bool>, fallbackOutcome: Obj -> Result<()>, h: Handler)
    requires Routable(message)
    requires h in handlers && outcome(h) == Ok(true)
    requires forall g :: g in handlers ==> outcome(g).Ok?
    requires TypeField(message).None? || TypeField(message).value.Text?
    requires TypeField(message).Some? ==>
               forall g :: g in Lookup(hm, (Some(Message.KindOf(message).value), TypeField(message).value.s)) ==> outcome(g).Ok?
    ensures Route(handlers, hm, classes, fallback, byType, message, outcome, fallbackOutcome) == Ok(Done(true))
  {
    RoutableData(message);
    FireAll(handlers, outcome);
    if TypeField(message).Some? {
      FireAll(Lookup(hm, (Some(Message.KindOf(message).value), TypeField(message).value.s)), outcome);
    }
  }

  /** A request of type `<obj>.<command>` that nothing handles gets an error
      reply: an unknown command when `obj` is a remembered class, an unknown
      object otherwise. */
  lemma UnknownRequest(handlers: seq<Handler>, hm: map<Key, seq<Handler>>, classes: set<string>,
                       fallback: Option<Obj>, byType: map<Message.Kind, Obj>, message: Dict,
                       outcome: Handler -> Result<bool>, fallbackOutcome: Obj -> Result<()>,
                       obj: string, command: string)
    requires Routable(message) && Message.KindOf(message) == Ok(Message.Request)
    requires '.' !in obj && TypeField(message) == Some(Text(obj + "." + command))
    requires Fire(handlers, outcome) == Ok(false)
    requires Fire(Lookup(hm, (Some(Message.Request), obj + "." + command)), outcome) == Ok(false)
    ensures var reply := Message.ErrorReply(message, Text(UnknownText(obj, command, classes)), None);
            Route(handlers, hm, classes, fallback, byType, message, outcome, fallbackOutcome) ==
              if reply.Ok? then Ok(Reply(reply.value)) else Err(reply.error)
  {
    RoutableData(message);
    PyStr.SplitFirstAt(obj, '.', command);
    assert obj + "." + command == obj + ['.'] + command;
  }

  /** A message nothing handles and that gets no error reply goes to the
      fallback for its kind when there is one, else to the general fallback;
      the call returns False only when neither exists. */
  lemma FallbackOrder(kind: Message.Kind, fallback: Option<Obj>, byType: map<Message.Kind, Obj>,
                      fallbackOutcome: Obj -> Result<()>)
    ensures kind in byType ==>
              Fallen(kind, fallback, byType, fallbackOutcome) ==
                (if fallbackOutcome(byType[kind]).Ok? then Ok(Done(true)) else Err(fallbackOutcome(byType[kind]).error))
    ensures kind !in byType && fallback.Some? ==>
              Fallen(kind, fallback, byType, fallbackOutcome) ==
                (if fallbackOutcome(fallback.value).Ok? then Ok(Done(true)) else Err(fallbackOutcome(fallback.value).error))
    ensures Fallen(kind, fallback, byType, fallbackOutcome) == Ok(Done(false)) <==> kind !in byType && fallback.None?
  {
  }

  /** An unhandled message that is not a request is never answered: it goes to
      the fallbacks. */
  lemma NonRequestFallsBack(handlers: seq<Handler>, hm: map<Key, seq<Handler>>, classes: set<string>,
                            fallback: Option<Obj>, byType: map<Message.Kind, Obj>, message: Dict,
                            outcome: Handler -> Result<bool>, fallbackOutcome: Obj -> Result<()>, t: string)
    requires Routable(message) && Message.KindOf(message).Ok? && Message.KindOf(message).value != Message.Request
    requires TypeField(message) == Some(Text(t))
    requires Fire(handlers, outcome) == Ok(false)
    requires Fire(Lookup(hm, (Some(Message.KindOf(message).value), t)), outcome) == Ok(false)
    ensures Route(handlers, hm, classes, fallback, byType, message, outcome, fallbackOutcome) ==
              Fallen(Message.KindOf(message).value, fallback, byType, fallbackOutcome)
  {
    RoutableData(message);
  }

  /** Where `handle` installs a handler for `selector` and `kind` (lines
      173-192): a type name for one kind goes to the handler map under that
      kind and type; everything else becomes a basic handler with a filter. */
  datatype Placement = Mapped(key: Key) | Generic(filter: Filter)

  function GenericFilter(selector: Selector): Result<Filter> {
    match selector
    case TypeName(t) => Ok(DataFilter([Entry("type", Text(t))]))
    case SelectorObj(o) => if Callable(o) then Ok(Selects(o)) else Raise(TypeError)
    case SelectorDict(d) => Ok(DataFilter(d))
    case NoSelector => Ok(NoFilter)
  }

  /** Lines 173-178 as written: the fast path is taken when `kind` is None. */
  function PlacedAsWritten(selector: Selector, kind: Option<Message.Kind>): Result<Placement> {
    if selector.TypeName? && kind.None? then Ok(Mapped((kind, selector.t)))
    else
      var f :- GenericFilter(selector);
      Ok(Generic(f))
  }

  /** Lines 173-178 as the comment there means them: the fast path is taken
      when there is one kind to file the type under. */
  function Placed(selector: Selector, kind: Option<Message.Kind>): Result<Placement> {
    if selector.TypeName? && kind.Some? then Ok(Mapped((kind, selector.t)))
    else
      var f :- GenericFilter(selector);
      Ok(Generic(f))
  }

  /** As written, `handle(action, t, kind=None)` files the handler under a key
      `__call__` never looks up: it is neither a generic handler nor found by
      the lookup of any message, of any kind and type. */
  lemma KindNoneUnreachable(t: string, hm: map<Key, seq<Handler>>, kind: Message.Kind, mtype: Value)
    ensures PlacedAsWritten(TypeName(t), None) == Ok(Mapped((None, t)))
    ensures MappedFor(hm, kind, mtype) == MappedFor(hm - {(None, t)}, kind, mtype)
  {
    if mtype.Text? {
      assert (Some(kind), mtype.s) != (None, t);
      assert ((Some(kind), mtype.s) in hm) == ((Some(kind), mtype.s) in hm - {(None, t)});
    }
  }

  /** Corrected, a type name for one kind is found by the lookup for exactly
      the messages of that kind and type, and a type name for every kind is a
      generic handler, called for every message. */
  lemma PlacedReachable(t: string, k: Message.Kind, hm: map<Key, seq<Handler>>, kind: Message.Kind, u: string)
    ensures Placed(TypeName(t), Some(k)) == Ok(Mapped((Some(k), t)))
    ensures Placed(TypeName(t), None) == Ok(Generic(DataFilter([Entry("type", Text(t))])))
    ensures ((Some(kind), u) == (Some(k), t)) <==> kind == k && u == t
  {
  }

  /** `_seq` from a request turned into a sequence id, as written: only a
      text can match an id. Bytes, which is what `_ctrl` values are once read
      from the wire, match no id. */
  function SeqKeyAsWritten(v: Value): Result<Option<string>> {
    if v.Text? then Ok(Some(v.s)) else Ok(None)
  }

  /** `_seq` turned into a sequence id, corrected: bytes are decoded as UTF-8
      first, as `maybe_decode` does. */
  function SeqKey(v: Value): Result<Option<string>> {
    match v
    case Text(s) => Ok(Some(s))
    case Bin(b) =>
      (match Utf8.Decode(b)
       case None => Raise(UnicodeDecodeError)
       case Some(s) => Ok(Some(s)))
    case _ => Ok(None)
  }

  /** Lines 208-210 from the id: `get_sequence` on a session whose table is
      gone has no `get`; a value that is not an id fails the concatenation in
      the error text; an unknown id raises. */
  function Resolve(sequences: Option<seq<Session.Registered>>, key: Result<Option<string>>): Result<(string, nat)> {
    var k :- key;
    if sequences.None? then Raise(AttributeError)
    else if k.None? then Raise(TypeError)
    else
      match Session.Lookup(sequences.value, k.value)
      case None => Raise(PlainException, "unknown sequence id: " + k.value)
      case Some(h) => Ok((k.value, h))
  }

  /** Lines 202-210: the sequence a `next` request names, with `_seq` looked
      up as read (so a bytes `_seq` from the wire ends in TypeError, as
      `WireSeqUnknown` shows). */
  function Target(sequences: Option<seq<Session.Registered>>, request: Dict): (r: Result<(string, nat)>)
    ensures sequences.None? ==> r.Err?
    ensures r.Ok? ==> sequences.Some? && Session.Lookup(sequences.value, r.value.0) == Some(r.value.1)
    ensures r.Ok? ==> Section(Table(request), "_ctrl").Some? &&
                      Get(Section(Table(request), "_ctrl").value, "_seq") == Some(Text(r.value.0))
  {
    var ctrl :- Message.Item(request, "_ctrl");
    var seqv :- Message.GetIn(ctrl, "_seq");
    if seqv.None? then Raise(PlainException, "_seq missing")
    else Resolve(sequences, SeqKeyAsWritten(seqv.value))
  }

  /** As written, a `_seq` read from the wire (bytes) never finds its
      sequence: even the encoding of a registered id raises TypeError. */
  lemma WireSeqUnknown(seqs: seq<Session.Registered>, id: string, h: nat)
    requires Session.Registered(id, h) in seqs
    ensures Resolve(Some(seqs), SeqKeyAsWritten(Bin(Utf8.Encode(id)))) == Raise(TypeError)
  {
  }

  /** With ids distinct, the first id with key `id` is the registered one. */
  lemma LookupDistinct(seqs: seq<Session.Registered>, id: string, h: nat)
    requires Session.Registered(id, h) in seqs
    requires forall i, j :: 0 <= i < j < |seqs| ==> seqs[i].id != seqs[j].id
    ensures Session.Lookup(seqs, id) == Some(h)
  {
    if seqs[0] != Session.Registered(id, h) {
      assert Session.Registered(id, h) in seqs[1..];
      LookupDistinct(seqs[1..], id, h);
    }
  }

  /** Corrected, the id a session issued, sent back as bytes, finds its
      sequence. */
  lemma WireSeqFound(seqs: seq<Session.Registered>, id: string, h: nat)
    requires Session.Registered(id, h) in seqs
    requires forall i, j :: 0 <= i < j < |seqs| ==> seqs[i].id != seqs[j].id
    ensures Resolve(Some(seqs), SeqKey(Bin(Utf8.Encode(id)))) == Ok((id, h))
  {
    Utf8.DecodeEncode(id);
    LookupDistinct(seqs, id, h);
  }

  /** A `next` request without `_seq` raises, and so does one naming a
      sequence the session does not hold. */
  lemma TargetErrors(seqs: seq<Session.Registered>, request: Dict, id: string)
    requires Section(Table(request), "_ctrl").Some?
    ensures Get(Section(Table(request), "_ctrl").value, "_seq").None? ==>
              Target(Some(seqs), request) == Raise(PlainException, "_seq missing")
    ensures Get(Section(Table(request), "_ctrl").value, "_seq") == Some(Text(id)) &&
            (forall s :: s in seqs ==> s.id != id) ==>
              Target(Some(seqs), request) == Raise(PlainException, "unknown sequence id: " + id)
  {
    SectionGet(request, "_ctrl");
    var ctrl := Section(Table(request), "_ctrl").value;
    assert Message.Item(request, "_ctrl") == Ok(Table(ctrl));
    if forall s :: s in seqs ==> s.id != id {
      assert Session.Lookup(seqs, id).None?;
    }
  }

  /** `Dispatcher`. */
  class Dispatcher {
    var handlers: seq<Handler>
    var handlerMap: map<Key, seq<Handler>>
    var classes: set<string>
    var fallback: Option<Obj>
    var fallbackByType: map<Message.Kind, Obj>

    /** `Dispatcher()`: empty tables, then `_handle_next` for requests of type
        `next`. As written, a type name for one kind is not the fast path, so
        `_handle_next` becomes the one generic handler, filtering on the type,
        and the handler map stays empty. */
    constructor ()
      ensures handlers == [Basic(HandleNext, DataFilter([Entry("type", Text("next"))]), Some(Message.Request))]
      ensures handlerMap == map[] && classes == {} && fallback == None && fallbackByType == map[]
    {
      handlers := [];
      handlerMap := map[];
      classes := {};
      fallback := None;
      fallbackByType := map[];
      new;
      assert KindNamed("request") == Some(Message.Request) && '.' !in "next";
      var _ := Handle(HandleNext, TypeName("next"), Some("request"));
    }

    /** `prepend_handler(handler)`. */
    method PrependHandler(h: Handler)
      modifies this
      ensures handlers == [h] + old(handlers)
      ensures handlerMap == old(handlerMap) && classes == old(classes)
      ensures fallback == old(fallback) && fallbackByType == old(fallbackByType)
    {
      handlers := [h] + handlers;
    }

    /** `_maybe_remember_class(key)`. */
    method MaybeRememberClass(key: Key)
      modifies this
      ensures classes == Remember(old(classes), key)
      ensures handlers == old(handlers) && handlerMap == old(handlerMap)
      ensures fallback == old(fallback) && fallbackByType == old(fallbackByType)
    {
      if key.0 != Some(Message.Request) {
        return;
      }
      var parts := PyStr.SplitFirst(key.1, '.');
      if |parts| > 1 {
        classes := classes + {parts[0]};
      }
    }

    /** `add_handler(handler)`: a mapped handler's lists extend the map, key
        by key; any other handler is appended to the generic ones. */
    method AddHandler(h: Handler)
      modifies this
      ensures h.MappedHandler? ==>
                handlers == old(handlers) && handlerMap == Merged(old(handlerMap), h.items) &&
                classes == RememberAll(old(classes), h.items)
      ensures !h.MappedHandler? ==>
                handlers == old(handlers) + [h] && handlerMap == old(handlerMap) && classes == old(classes)
      ensures fallback == old(fallback) && fallbackByType == old(fallbackByType)
    {
      if h.MappedHandler? {
        var items := h.items;
        for i := 0 to |items|
          invariant handlers == old(handlers) && fallback == old(fallback) && fallbackByType == old(fallbackByType)
          invariant handlerMap == Merged(old(handlerMap), items[..i])
          invariant classes == RememberAll(old(classes), items[..i])
        {
          assert items[..i + 1][..i] == items[..i];
          MaybeRememberClass(items[i].key);
          var key := items[i].key;
          var existing := Lookup(handlerMap, key);
          handlerMap := handlerMap[key := existing + items[i].handlers];
        }
        assert items[..|items|] == items;
      } else {
        handlers := handlers + [h];
      }
    }

    /** `add_mapped_handler(key, handler)`. */
    method AddMappedHandler(key: Key, h: Handler)
      modifies this
      ensures handlerMap == old(handlerMap)[key := Lookup(old(handlerMap), key) + [h]]
      ensures classes == Remember(old(classes), key) && handlers == old(handlers)
      ensures fallback == old(fallback) && fallbackByType == old(fallbackByType)
    {
      MaybeRememberClass(key);
      handlerMap := handlerMap[key := Lookup(handlerMap, key) + [h]];
    }

    /** `handle(action, selector, kind)`: TypeError for an action that cannot
        be called, a kind that is neither a message kind nor None, or a
        selector of another type; otherwise the handler is installed where
        `PlacedAsWritten` says: only a type name for every kind takes the
        mapped fast path. */
    method Handle(action: Obj, selector: Selector, kind: Option<string>) returns (r: Result<()>)
      modifies this
      ensures fallback == old(fallback) && fallbackByType == old(fallbackByType)
      ensures var k := if kind.Some? then KindNamed(kind.value) else None;
              var p := PlacedAsWritten(selector, k);
              (r.Ok? <==> Callable(action) && (kind.Some? ==> k.Some?) && p.Ok?) &&
              (r.Err? ==>
                 r.error.cls == TypeError &&
                 handlers == old(handlers) && handlerMap == old(handlerMap) && classes == old(classes)) &&
              (r.Ok? && p.value.Mapped? ==>
                 handlerMap == old(handlerMap)[p.value.key := Lookup(old(handlerMap), p.value.key) + [ActionHandler(action)]] &&
                 classes == Remember(old(classes), p.value.key) && handlers == old(handlers)) &&
              (r.Ok? && p.value.Generic? ==>
                 handlers == old(handlers) + [Basic(action, p.value.filter, k)] &&
                 handlerMap == old(handlerMap) && classes == old(classes))
    {
      if !Callable(action) {
        return Raise(TypeError);
      }
      var k: Option<Message.Kind> := None;
      if kind.Some? {
        k := KindNamed(kind.value);
        if k.None? {
          return Raise(TypeError);
        }
      }
      if selector.TypeName? && k.None? {
        AddMappedHandler((k, selector.t), ActionHandler(action));
        return Ok(());
      }
      var f := GenericFilter(selector);
      if f.Err? {
        return Err(f.error);
      }
      AddHandler(Basic(action, f.value, k));
      return Ok(());
    }

    /** `fallback(action, kind)`: TypeError for an action that cannot be
        called or a kind that is neither a message kind nor None. */
    method Fallback(action: Obj, kind: Option<string>) returns (r: Result<()>)
      modifies this
      ensures handlers == old(handlers) && handlerMap == old(handlerMap) && classes == old(classes)
      ensures !Callable(action) || (kind.Some? && kind.value !in Message.Kinds) ==>
                r == Raise(TypeError) && fallback == old(fallback) && fallbackByType == old(fallbackByType)
      ensures Callable(action) && kind.Some? && kind.value in Message.Kinds ==>
                r == Ok(()) && fallback == old(fallback) &&
                fallbackByType == old(fallbackByType)[KindNamed(kind.value).value := action]
      ensures Callable(action) && kind.None? ==>
                r == Ok(()) && fallback == Some(action) && fallbackByType == old(fallbackByType)
    {
      if !Callable(action) {
        return Raise(TypeError);
      }
      if kind.Some? {
        var k := KindNamed(kind.value);
        if k.None? {
          return Raise(TypeError);
        }
        fallbackByType := fallbackByType[k.value := action];
      } else {
        fallback := Some(action);
      }
      return Ok(());
    }

    /** The handler loops of lines 47-49 and 52-54. */
    static method FireEach(hs: seq<Handler>, outcome: Handler -> Result<bool>) returns (r: Result<bool>)
      ensures r == Fire(hs, outcome)
    {
      var handled := false;
      for i := 0 to |hs|
        invariant Fire(hs[..i], outcome) == Ok(handled)
      {
        assert hs[..i + 1][..i] == hs[..i];
        var o := outcome(hs[i]);
        if o.Err? {
          FireErrGrows(hs, outcome, i + 1);
          return Err(o.error);
        }
        if o.value {
          handled := true;
        }
      }
      assert hs[..|hs|] == hs;
      return Ok(handled);
    }

    /** `__call__(session, message, state)`: the error reply `Route` makes is
        written to the session, and the call then returns True. */
    method Call(session: Session.Session, message: Dict, outcome: Handler -> Result<bool>,
                fallbackOutcome: Obj -> Result<()>) returns (r: Result<bool>)
      requires session.Valid()
      modifies session
      ensures session.Valid()
      ensures session.states == old(session.states) && session.sequences == old(session.sequences)
      ensures session.nextId == old(session.nextId) && session.closed == old(session.closed)
      ensures var route := Route(handlers, handlerMap, classes, fallback, fallbackByType, message, outcome, fallbackOutcome);
              (route.Err? ==> r == Err(route.error) && session.writeQueue == old(session.writeQueue)) &&
              (route.Ok? && route.value.Done? ==> r == Ok(route.value.handled) && session.writeQueue == old(session.writeQueue)) &&
              (route.Ok? && route.value.Reply? && old(session.writeQueue).None? ==>
                 r == Raise(Closing) && session.writeQueue == None) &&
              (route.Ok? && route.value.Reply? && old(session.writeQueue).Some? ==>
                 r == Ok(true) &&
                 session.writeQueue == Some(old(session.writeQueue).value + [Session.Queued(route.value.response, None)]))
    {
      var front :- FrontStep(message, outcome);
      var (kind, handled, mtype) := front;
      var typed: Option<Outcome> := if handled then Some(Done(true)) else None;
      if mtype.Some? {
        typed :- TypedStep(message, kind, mtype.value, handled, outcome);
      }
      r := Deliver(session, Conclude(typed, kind, fallback, fallbackByType, fallbackOutcome));
    }

    /** What `__call__` returns for a routing outcome, writing the error reply
        when there is one. */
    static method Deliver(session: Session.Session, route: Result<Outcome>) returns (r: Result<bool>)
      requires session.Valid()
      modifies session
      ensures session.Valid()
      ensures session.states == old(session.states) && session.sequences == old(session.sequences)
      ensures session.nextId == old(session.nextId) && session.closed == old(session.closed)
      ensures (route.Err? ==> r == Err(route.error) && session.writeQueue == old(session.writeQueue)) &&
              (route.Ok? && route.value.Done? ==> r == Ok(route.value.handled) && session.writeQueue == old(session.writeQueue)) &&
              (route.Ok? && route.value.Reply? && old(session.writeQueue).None? ==>
                 r == Raise(Closing) && session.writeQueue == None) &&
              (route.Ok? && route.value.Reply? && old(session.writeQueue).Some? ==>
                 r == Ok(true) &&
                 session.writeQueue == Some(old(session.writeQueue).value + [Session.Queued(route.value.response, None)]))
    {
      if route.Err? {
        return Err(route.error);
      }
      if route.value.Done? {
        return Ok(route.value.handled);
      }
      var w :- session.Write(route.value.response, None);
      return Ok(true);
    }

    /** Lines 44-50, on the dispatcher's generic handlers. */
    method FrontStep(message: Dict, outcome: Handler -> Result<bool>)
      returns (r: Result<(Message.Kind, bool, Option<Value>)>)
      ensures r == Front(handlers, message, outcome)
    {
      var kind :- Message.KindOf(message);
      var data :- Message.Item(message, "_data");
      var handled :- FireEach(handlers, outcome);
      var mtype :- TypeOf(data);
      return Ok((kind, handled, mtype));
    }

    /** Lines 51-67, on the dispatcher's map and classes. */
    method TypedStep(message: Dict, kind: Message.Kind, mtype: Value, handled: bool,
                     outcome: Handler -> Result<bool>) returns (r: Result<Option<Outcome>>)
      ensures r == Typed(handlerMap, classes, message, kind, mtype, handled, outcome)
    {
      var mapped :- MappedFor(handlerMap, kind, mtype);
      var more :- FireEach(mapped, outcome);
      if handled || more {
        return Ok(Some(Done(true)));
      }
      if kind != Message.Request {
        return Ok(None);
      }
      var parts :- SplitType(mtype);
      if |parts| > 1 {
        var response :- Message.ErrorReply(message, Text(UnknownText(parts[0], parts[1], classes)), None);
        return Ok(Some(Reply(response)));
      }
      return Ok(None);
    }
  }

  /** `_handle_next(session, request)`, where `step` says what the sequence
      with each handle gives for the request (`next_message`): the response
      and whether the sequence is done. A done sequence is deleted before the
      response is written, so it is gone even when the write raises. The
      sequence is found as `Target` says, with `_seq` as read. */
  method HandleNextRequest(session: Session.Session, request: Dict, step: nat -> Result<(Dict, bool)>)
    returns (r: Result<bool>)
    requires session.Valid()
    modifies session
    ensures session.Valid()
    ensures session.states == old(session.states) && session.nextId == old(session.nextId)
    ensures var t := Target(old(session.sequences), request);
            (t.Err? ==> r == Err(t.error) && session.sequences == old(session.sequences) &&
                        session.closed == old(session.closed) && session.writeQueue == old(session.writeQueue)) &&
            (t.Ok? && step(t.value.1).Err? ==>
               r == Err(step(t.value.1).error) && session.sequences == old(session.sequences) &&
               session.closed == old(session.closed) && session.writeQueue == old(session.writeQueue))
    ensures var t := Target(old(session.sequences), request);
            t.Ok? && step(t.value.1).Ok? ==>
              var (response, done) := step(t.value.1).value;
              (done ==> session.sequences == Some(Session.Without(old(session.sequences).value, t.value.0)) &&
                        session.closed == old(session.closed) + [t.value.1]) &&
              (!done ==> session.sequences == old(session.sequences) && session.closed == old(session.closed)) &&
              (old(session.writeQueue).None? ==> r == Raise(Closing) && session.writeQueue == None) &&
              (old(session.writeQueue).Some? ==>
                 r == Ok(true) && session.writeQueue == Some(old(session.writeQueue).value + [Session.Queued(response, None)]))
  {
    var ctrl :- Message.Item(request, "_ctrl");
    var seqv :- Message.GetIn(ctrl, "_seq");
    if seqv.None? {
      return Raise(PlainException, "_seq missing");
    }
    var key :- SeqKeyAsWritten(seqv.value);
    if key.None? {
      // not an id: `get` fails on a session without a table, and otherwise
      // finds nothing, and the error text cannot be built from it
      if session.sequences.None? {
        return Raise(AttributeError);
      }
      return Raise(TypeError);
    }
    var found :- session.GetSequence(key.value);
    if found.None? {
      return Raise(PlainException, "unknown sequence id: " + key.value);
    }
    var next :- step(found.value);
    var (response, done) := next;
    if done {
      var deleted :- session.DeleteSequence(key.value);
    }
    var w :- session.Write(response, None);
    return Ok(true);
  }
}
