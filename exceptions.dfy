/** Option, the one wrapper the model needs beside Result. */
module Wrappers {
  datatype Option<+T> = None | Some(value: T)
}

/** The exception classes of nomcc.exceptions, the Python built-in exceptions the
    modelled code raises, and the `Result` type through which every raising
    operation of the model reports them. */
module Exceptions {

  /** Every exception class the model can raise. The first group is
      nomcc.exceptions; the second is Python's own. */
  datatype Cls =
    | CCException | MessageTooBig | BadResponse | BadNoncing | NotResponse
    | NotSupported | BadVersion | BadAuth | UnexpectedEnd | BadSyntax | BadForm
    | NotSecure | NeedSecret | Closing | BadSequence | UnexpectedSequence
    | BadChannelConf | BadChannelValue | UnsupportedAddressFamily | Error | Timeout
    // Python built-ins
    | KeyError | TypeError | ValueError | SyntaxError | StopIteration
    | AssertionError | StructError | UnicodeDecodeError | UnboundLocalError
    | EOFError | AttributeError | ZlibError | PlainException

  /** The class derives from nomcc.exceptions.CCException. */
  predicate IsCC(c: Cls) {
    match c
    case KeyError | TypeError | ValueError | SyntaxError | StopIteration
       | AssertionError | StructError | UnicodeDecodeError | UnboundLocalError
       | EOFError | AttributeError | ZlibError | PlainException => false
    case _ => true
  }

  /** The class attribute `_default_msg`. */
  function DefaultMsg(c: Cls): string
    requires IsCC(c)
  {
    match c
    case CCException => ""
    case MessageTooBig => "message too big"
    case BadResponse => "bad response"
    case BadNoncing => "bad noncing"
    case NotResponse => "expected response"
    case NotSupported => "not supported"
    case BadVersion => "unknown CC version"
    case BadAuth => "bad CC auth"
    case UnexpectedEnd => "unexpected end"
    case BadSyntax => "message syntax error"
    case BadForm => "message format error"
    case NotSecure => "not secure"
    case NeedSecret => "cannot encrypt without a secret"
    case Closing => "session closing"
    case BadSequence => "sequence format error"
    case UnexpectedSequence => "unexpected sequence"
    case BadChannelConf => "channel.conf format error"
    case BadChannelValue => "bad channel value"
    case UnsupportedAddressFamily => "unsupported address family"
    case Error => "unknown error"
    case Timeout => "timeout"
  }

  /** The class attribute `_always_use_default_msg`: only `Error` overrides it. */
  function AlwaysUseDefaultMsg(c: Cls): bool
    requires IsCC(c)
  {
    c != Error
  }

  /** A raised exception: its class and the text of its argument (empty when it
      was raised without one). */
  datatype Exc = Exc(cls: Cls, msg: string)

  /** `str(e)`: CCException.__str__ for the nomcc classes, the message itself
      for the built-ins. */
  function Str(e: Exc): (s: string)
    ensures IsCC(e.cls) && e.msg == "" ==> s == DefaultMsg(e.cls)
    ensures IsCC(e.cls) && e.msg != "" && AlwaysUseDefaultMsg(e.cls) ==>
              s == DefaultMsg(e.cls) + ": " + e.msg
    ensures IsCC(e.cls) && e.msg != "" && !AlwaysUseDefaultMsg(e.cls) ==> s == e.msg
    ensures !IsCC(e.cls) ==> s == e.msg
  {
    if !IsCC(e.cls) then e.msg
    else if e.msg == "" then DefaultMsg(e.cls)
    else if AlwaysUseDefaultMsg(e.cls) then DefaultMsg(e.cls) + ": " + e.msg
    else e.msg
  }

  /** `Error(detail)` prints the detail alone, or "unknown error" when the detail is empty. */
  lemma ErrorStr(detail: string)
    ensures Str(Exc(Error, detail)) == if detail == "" then "unknown error" else detail
  {
  }

  /** Every subclass of CCException defines a non-empty `_default_msg` of its own:
      no two classes share one, and only the base class has the empty one. */
  lemma DefaultMsgsDistinct(a: Cls, b: Cls)
    requires IsCC(a) && IsCC(b) && a != b
    ensures DefaultMsg(a) != DefaultMsg(b)
    ensures a != CCException ==> DefaultMsg(a) != ""
  {
  }

  /** The outcome of an operation that may raise. */
  datatype Result<+T> = Ok(value: T) | Err(error: Exc) {
    predicate IsFailure() { Err? }

    function PropagateFailure<U>(): Result<U>
      requires Err?
    {
      Err(error)
    }

    function Extract(): T
      requires Ok?
    {
      value
    }
  }

  /** A raised exception of class `c` carrying message `m`. */
  function Raise<T>(c: Cls, m: string := ""): (r: Result<T>)
    ensures r.Err? && r.error.cls == c && r.error.msg == m
  {
    Err(Exc(c, m))
  }
}
