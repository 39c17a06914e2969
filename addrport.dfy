/** Network address and port pairs (addrport.py): the textual forms
    `<address>[#<port>]` for IPv4 and `<address>[%<scope>][#<port>]` for IPv6,
    parsed with `find`, slicing and `int()`, and printed back. */
module Addrport {
  import opened Wrappers
  import opened Exceptions
  import PyInt
  import opened PyStr

  /** The address family, `af`. */
  datatype Family = AfInet | AfInet6

  /** `sockaddr`: `(addr, port)` for IPv4, `(addr, port, flowinfo, scope)` for IPv6. */
  datatype Sockaddr =
    | Sockaddr4(host: string, port: int)
    | Sockaddr6(host: string, port: int, flowinfo: int, scope: int)

  /** An `Addrport4` or an `Addrport6`, by the fields its constructor sets. */
  datatype Addrport =
    | Addrport4(host: string, port: int)
    | Addrport6(host: string, port: int, scope: int)

  function Af(ap: Addrport): Family {
    if ap.Addrport4? then AfInet else AfInet6
  }

  /** The `sockaddr` attribute; the IPv6 flow information is always 0. */
  function SockaddrOf(ap: Addrport): Sockaddr {
    match ap
    case Addrport4(h, p) => Sockaddr4(h, p)
    case Addrport6(h, p, s) => Sockaddr6(h, p, 0, s)
  }

  /** `int(s)` on text; ValueError when it is not a decimal integer. */
  function IntText(s: string): Result<int> {
    match PyInt.Parse(s)
    case None => Raise(ValueError)
    case Some(n) => Ok(n)
  }

  /** `Addrport4(ap)`. */
  function Parse4(ap: string): (r: Result<Addrport>)
    ensures r.Err? ==> r.error.cls == ValueError && '#' in ap
    ensures r.Ok? ==> r.value.Addrport4? && r.value.host <= ap && '#' !in r.value.host
    ensures r.Ok? ==> ('#' in ap <==> |r.value.host| < |ap|)
  {
    var portStart := Find(ap, '#');
    if portStart >= 0 then
      var port :- IntText(ap[portStart + 1..]);
      Ok(Addrport4(ap[..portStart], port))
    else
      Ok(Addrport4(ap, 0))
  }

  /** `Addrport6(ap)`. The scope separator is looked for in the whole text but
      cut out of the part before the port, and `int()` of the port runs before
      the scope is looked at. */
  function Parse6(ap: string): (r: Result<Addrport>)
    ensures r.Err? ==> r.error.cls == ValueError && ('#' in ap || '%' in ap)
    ensures r.Ok? ==> r.value.Addrport6? && r.value.host <= ap && '#' !in r.value.host && '%' !in r.value.host
    ensures r.Ok? && '%' !in ap ==> r.value.scope == 0
  {
    var (addrscope, port) :- PortPart(ap);
    Scoped(ap, addrscope, port)
  }

  /** The address (with its scope) and the port of an IPv6 text. */
  function PortPart(ap: string): (r: Result<(string, int)>)
    ensures r.Err? ==> r.error.cls == ValueError && '#' in ap
    ensures r.Ok? ==> r.value.0 <= ap && '#' !in r.value.0
  {
    var portStart := Find(ap, '#');
    if portStart >= 0 then
      var p :- IntText(ap[portStart + 1..]);
      Ok((ap[..portStart], p))
    else Ok((ap, 0))
  }

  /** The scope, found by its position in the whole text `ap`, cut out of the
      address `addrscope` that precedes the port. */
  function Scoped(ap: string, addrscope: string, port: int): (r: Result<Addrport>)
    requires addrscope <= ap && '#' !in addrscope
    ensures r.Err? ==> r.error.cls == ValueError && '%' in ap
    ensures r.Ok? ==> r.value.Addrport6? && r.value.host <= ap && '#' !in r.value.host && '%' !in r.value.host
    ensures r.Ok? && '%' !in ap ==> r.value.scope == 0
  {
    var scopeStart := Find(ap, '%');
    if scopeStart >= 0 then
      var scope :- IntText(Drop(addrscope, scopeStart + 1));
      var host := Take(addrscope, scopeStart);
      Ok(Addrport6(host, port, scope))
    else
      Ok(Addrport6(addrscope, port, 0))
  }

  /** `new(text)`: IPv6 exactly when the text holds a colon. */
  function New(text: string): (r: Result<Addrport>)
    ensures r.Ok? ==> (r.value.Addrport6? <==> ':' in text)
  {
    if Find(text, ':') >= 0 then Parse6(text) else Parse4(text)
  }

  /** `str(ap)`: `addr#port`, with `%scope` before the `#` for an IPv6 address
      whose scope is not 0. */
  function Str(ap: Addrport): (s: string)
    ensures ap.host <= s
    ensures var t := "#" + PyInt.Str(ap.port); |t| <= |s| && s[|s| - |t|..] == t
    ensures |s| > |ap.host| && (s[|ap.host|] == '%' <==> ap.Addrport6? && ap.scope != 0)
  {
    match ap
    case Addrport4(h, p) => h + "#" + PyInt.Str(p)
    case Addrport6(h, p, s) =>
      if s != 0 then h + "%" + PyInt.Str(s) + "#" + PyInt.Str(p) else h + "#" + PyInt.Str(p)
  }

  /** `sending_sockaddr()`: the wildcard address of either family is replaced by
      the loopback address of that family; the port, the flow information and
      the scope are kept, and any other address is left alone. */
  function SendingSockaddr(ap: Addrport): (r: Sockaddr)
    ensures r.Sockaddr4? <==> ap.Addrport4?
    ensures r.port == ap.port
    ensures r.Sockaddr6? ==> r.flowinfo == 0 && r.scope == ap.scope
    ensures ap.Addrport4? && ap.host == "0.0.0.0" ==> r.host == "127.0.0.1"
    ensures ap.Addrport6? && ap.host == "::" ==> r.host == "::1"
    ensures ap.host != "0.0.0.0" && ap.host != "::" ==> r == SockaddrOf(ap)
  {
    match ap
    case Addrport4(h, p) => if h == "0.0.0.0" then Sockaddr4("127.0.0.1", p) else SockaddrOf(ap)
    case Addrport6(h, p, s) => if h == "::" then Sockaddr6("::1", p, 0, s) else SockaddrOf(ap)
  }

  /** Without a `#` the port is 0 and the whole text is the address. */
  lemma Parse4NoPort(ap: string)
    requires '#' !in ap
    ensures Parse4(ap) == Ok(Addrport4(ap, 0))
  {
  }

  /** The text is split at its first `#`; what follows is read with `int()`. */
  lemma Parse4Split(a: string, p: string)
    requires '#' !in a
    ensures Parse4(a + "#" + p) ==
              if PyInt.Parse(p).Some? then Ok(Addrport4(a, PyInt.Parse(p).value)) else Raise(ValueError)
  {
    FindAfter(a, '#', p);
    var s := a + "#" + p;
    assert s[..|a|] == a && s[|a| + 1..] == p;
  }

  /** Printing an IPv4 addrport and parsing the text again gives it back, for
      an address without `#`. */
  lemma Str4RoundTrip(a: string, port: int)
    requires '#' !in a
    ensures Parse4(Str(Addrport4(a, port))) == Ok(Addrport4(a, port))
  {
    Parse4Split(a, PyInt.Str(port));
    PyInt.ParseStr(port);
  }

  /** An IPv6 text without a scope has scope 0. */
  lemma Parse6NoScope(a: string, p: string)
    requires '#' !in a && '%' !in a && '%' !in p
    ensures Parse6(a + "#" + p) ==
              if PyInt.Parse(p).Some? then Ok(Addrport6(a, PyInt.Parse(p).value, 0)) else Raise(ValueError)
  {
    var s := a + "#" + p;
    FindAfter(a, '#', p);
    assert s[..|a|] == a && s[|a| + 1..] == p;
    assert '%' !in s;
  }

  /** An IPv6 text `a%s#p`: the address is `a`, the scope `int(s)`, the port `int(p)`. */
  lemma Parse6Scope(a: string, sc: string, p: string)
    requires '#' !in a && '%' !in a && '#' !in sc
    ensures Parse6(a + "%" + sc + "#" + p) ==
              if PyInt.Parse(p).None? || PyInt.Parse(sc).None? then Raise(ValueError)
              else Ok(Addrport6(a, PyInt.Parse(p).value, PyInt.Parse(sc).value))
  {
    var addrscope := a + "%" + sc;
    var s := addrscope + "#" + p;
    assert s == a + "%" + sc + "#" + p;
    FindAfter(addrscope, '#', p);
    assert s[..|addrscope|] == addrscope && s[|addrscope| + 1..] == p;
    FindScope(a, sc, p);
    assert Take(addrscope, |a|) == a;
    assert Drop(addrscope, |a| + 1) == sc;
  }

  lemma FindScope(a: string, sc: string, p: string)
    requires '%' !in a
    ensures Find(a + "%" + sc + "#" + p, '%') == |a|
  {
    assert a + "%" + sc + "#" + p == a + "%" + (sc + "#" + p);
    FindAfter(a, '%', sc + "#" + p);
  }

  /** Printing an IPv6 addrport and parsing the text again gives it back, for
      an address without `#` or `%`; the scope is printed only when it is not 0. */
  lemma Str6RoundTrip(a: string, port: int, scope: int)
    requires '#' !in a && '%' !in a
    ensures Parse6(Str(Addrport6(a, port, scope))) == Ok(Addrport6(a, port, scope))
    ensures '%' in Str(Addrport6(a, port, scope)) <==> scope != 0
  {
    PyInt.ParseStr(port);
    PyInt.ParseStr(scope);
    PyInt.StrChars(port);
    PyInt.StrChars(scope);
    var ps := PyInt.Str(port);
    var ss := PyInt.Str(scope);
    assert '%' !in ps && '#' !in ss;
    if scope != 0 {
      Parse6Scope(a, ss, ps);
      assert (a + "%" + ss + "#" + ps)[|a|] == '%';
    } else {
      Parse6NoScope(a, ps);
    }
  }

  /** `new` reads back what `str` prints, choosing the family by the colon:
      an IPv4 address holds none, an IPv6 address does. */
  lemma NewRoundTrip(ap: Addrport)
    requires '#' !in ap.host && (ap.Addrport6? ==> '%' !in ap.host)
    requires ap.Addrport4? <==> ':' !in ap.host
    ensures New(Str(ap)) == Ok(ap)
  {
    PyInt.StrChars(ap.port);
    var ps := PyInt.Str(ap.port);
    assert ':' !in ps;
    match ap
    case Addrport4(h, p) =>
      Str4RoundTrip(h, p);
      assert ':' !in h + "#" + ps;
    case Addrport6(h, p, s) =>
      Str6RoundTrip(h, p, s);
      var k :| 0 <= k < |h| && h[k] == ':';
      assert Str(ap)[k] == ':';
  }
}
