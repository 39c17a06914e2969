/** The information associated with a channel (channel.py): a name, an
    addrport, a secret and options, normalised once by the constructor. */
module Channel {
  import opened Wrappers
  import opened Exceptions
  import opened Values
  import PyInt
  import Addrport
  import PyStr

  datatype Channel = Channel(name: string, addrport: Addrport.Addrport, secret: Option<string>, options: Dict)

  /** What the constructor accepts as `addrport`: an Addrport object or its text. */
  datatype AddrportArg = GivenAddrport(ap: Addrport.Addrport) | AddrportText(text: string)

  /** The text of an addrport as the constructor reads it: all digits is a port
      on the IPv4 loopback address. */
  function AddrportOf(a: AddrportArg): (r: Result<Addrport.Addrport>)
    ensures a.GivenAddrport? ==> r == Ok(a.ap)
    ensures a.AddrportText? && !PyInt.IsDigits(a.text) ==> r == Addrport.New(a.text)
  {
    match a
    case GivenAddrport(ap) => Ok(ap)
    case AddrportText(t) =>
      if PyInt.IsDigits(t) then Addrport.New("127.0.0.1#" + t) else Addrport.New(t)
  }

  /** `Channel(name, addrport, secret, options)`: a secret of `*` means none, and
      no options means the empty dict. */
  function New(name: string, addrport: AddrportArg, secret: Option<string>, options: Option<Dict>): (r: Result<Channel>)
    ensures r.Ok? <==> AddrportOf(addrport).Ok?
    ensures r.Ok? ==> r.value.name == name && r.value.addrport == AddrportOf(addrport).value
    ensures r.Ok? ==> r.value.secret == (if secret == Some("*") then None else secret)
    ensures r.Ok? ==> r.value.options == (if options.None? then [] else options.value)
  {
    var ap :- AddrportOf(addrport);
    var s := if secret == Some("*") then None else secret;
    var o := if options.None? then [] else options.value;
    Ok(Channel(name, ap, s, o))
  }

  /** Text of digits alone is that port on 127.0.0.1. */
  lemma DigitsAreLoopbackPort(t: string)
    requires PyInt.IsDigits(t)
    ensures AddrportOf(AddrportText(t)) == Ok(Addrport.Addrport4("127.0.0.1", PyInt.DigitsValue(t)))
  {
    PyInt.ParseDigits(t);
    Addrport.Parse4Split("127.0.0.1", t);
    PyInt.NotInDigits(t, ':');
    var text := "127.0.0.1#" + t;
    assert text == "127.0.0.1" + "#" + t;
    assert ':' !in text by {
      assert ':' !in "127.0.0.1#";
    }
    assert PyStr.Find(text, ':') < 0;
  }
}
