/** Python's `str(n)` for integers and `int(s)` for text, as the modelled code
    uses them: nonce and sequence fields are written with `str()` and read
    back with `int()`, ports are parsed with `int()`, sequence ids are `str()`. */
module PyInt {
  import opened Wrappers
  import opened Bytes

  predicate IsDigit(c: char) { '0' <= c <= '9' }

  /** Python's str.isdigit on the ASCII repertoire: non-empty and all digits. */
  predicate IsDigits(s: string) {
    |s| > 0 && forall i :: 0 <= i < |s| ==> IsDigit(s[i])
  }

  /** Python's `str.isspace` for one character, which is also the white space
      that `int()`, `strip()` and `\s` know: the ASCII controls 9 to 13 and
      28 to 31, the space, and the Unicode separators. */
  predicate IsSpace(c: char) {
    IsSpaceCode(c as int)
  }

  /** The same test on a character's code. */
  predicate IsSpaceCode(n: int) {
    (0x09 <= n <= 0x0D) || (0x1C <= n <= 0x20) || n == 0x85 || n == 0xA0 || n == 0x1680 ||
    (0x2000 <= n <= 0x200A) || n == 0x2028 || n == 0x2029 || n == 0x202F || n == 0x205F || n == 0x3000
  }

  function DigitChar(d: nat): (c: char)
    requires d < 10
    ensures IsDigit(c) && (c as int) - ('0' as int) == d
  {
    (('0' as int) + d) as char
  }

  /** Decimal digits of a non-negative integer, most significant first. */
  function NatStr(n: nat): (s: string)
    ensures IsDigits(s)
    ensures n == 0 <==> s == "0"
    ensures s[0] == '0' ==> n == 0
  {
    if n < 10 then [DigitChar(n)] else NatStr(n / 10) + [DigitChar(n % 10)]
  }

  /** `str(n)`. */
  function Str(n: int): string {
    if n < 0 then "-" + NatStr(-n) else NatStr(n)
  }

  /** The value of a run of decimal digits. */
  function DigitsValue(s: string): nat
    requires forall i :: 0 <= i < |s| ==> IsDigit(s[i])
  {
    if s == [] then 0
    else DigitsValue(s[..|s| - 1]) * 10 + DigitVal(s[|s| - 1])
  }

  function DigitVal(c: char): nat
    requires IsDigit(c)
  {
    (c as int) - ('0' as int)
  }

  function StripLeft(s: string): (r: string)
    ensures |r| <= |s| && (r != [] ==> !IsSpace(r[0]))
  {
    if s != [] && IsSpace(s[0]) then StripLeft(s[1..]) else s
  }

  function StripRight(s: string): (r: string)
    ensures |r| <= |s| && (r != [] ==> !IsSpace(r[|r| - 1]))
  {
    if s != [] && IsSpace(s[|s| - 1]) then StripRight(s[..|s| - 1]) else s
  }

  /** An optional sign, then one or more decimal digits: what `int()` reads
      once the white space around its argument is gone. */
  function Signed(t: string): (r: Option<int>)
    ensures r.Some? ==> exists i :: 0 <= i < |t| && IsDigit(t[i])
  {
    if |t| > 0 && (t[0] == '-' || t[0] == '+') then
      var d := t[1..];
      if IsDigits(d) then
        assert d[0] == t[1];
        var v: int := DigitsValue(d);
        Some(if t[0] == '-' then -v else v)
      else None
    else if IsDigits(t) then
      assert IsDigit(t[0]);
      Some(DigitsValue(t))
    else None
  }

  /** `int(s)` for text: surrounding white space, an optional sign, then one
      or more decimal digits; `None` where Python raises ValueError. */
  function Parse(s: string): (r: Option<int>)
    ensures r.Some? ==> exists i :: 0 <= i < |s| && IsDigit(s[i])
  {
    var t := StripRight(StripLeft(s));
    assert forall i :: 0 <= i < |StripLeft(s)| ==> StripLeft(s)[i] in s by {
      StripLeftIn(s);
    }
    assert forall i :: 0 <= i < |t| ==> t[i] in StripLeft(s) by {
      StripRightIn(StripLeft(s));
    }
    var r := Signed(t);
    assert r.Some? ==> exists i :: 0 <= i < |s| && IsDigit(s[i]) by {
      if r.Some? {
        var i :| 0 <= i < |t| && IsDigit(t[i]);
        assert t[i] in s;
      }
    }
    r
  }

  /** The white space `int()` strips around a bytes argument: only the ASCII
      space, tab, newline, vertical tab, form feed and carriage return. */
  predicate IsByteSpace(b: int) { 9 <= b <= 13 || b == 32 }

  function StripBytesLeft(b: seq<byte>): (r: seq<byte>)
    ensures |r| <= |b| && (r != [] ==> !IsByteSpace(r[0]))
  {
    if b != [] && IsByteSpace(b[0]) then StripBytesLeft(b[1..]) else b
  }

  function StripBytesRight(b: seq<byte>): (r: seq<byte>)
    ensures |r| <= |b| && (r != [] ==> !IsByteSpace(r[|r| - 1]))
  {
    if b != [] && IsByteSpace(b[|b| - 1]) then StripBytesRight(b[..|b| - 1]) else b
  }

  /** Stripping the left keeps a suffix of the octets. */
  lemma {:induction false} StripBytesLeftSuffix(b: seq<byte>)
    ensures StripBytesLeft(b) == b[|b| - |StripBytesLeft(b)|..]
  {
    if b != [] && IsByteSpace(b[0]) {
      StripBytesLeftSuffix(b[1..]);
    }
  }

  /** Stripping the right keeps a prefix of the octets. */
  lemma {:induction false} StripBytesRightPrefix(b: seq<byte>)
    ensures StripBytesRight(b) == b[..|StripBytesRight(b)|]
  {
    if b != [] && IsByteSpace(b[|b| - 1]) {
      StripBytesRightPrefix(b[..|b| - 1]);
    }
  }

  /** `int(b)` for bytes: ASCII white space around the octets is stripped,
      then an optional sign and one or more decimal digits; `None` where
      Python raises ValueError. Any other octet, white space in Unicode or
      not, makes it fail. */
  function ParseBytes(b: seq<byte>): (r: Option<int>)
    ensures r.Some? ==> exists i :: 0 <= i < |b| && IsDigit(b[i] as char)
  {
    var l := StripBytesLeft(b);
    var t := StripBytesRight(l);
    assert forall i :: 0 <= i < |t| ==> t[i] == b[|b| - |l| + i] by {
      StripBytesLeftSuffix(b);
      StripBytesRightPrefix(l);
    }
    var r := Signed(Latin1(t));
    assert r.Some? ==> exists i :: 0 <= i < |b| && IsDigit(b[i] as char) by {
      if r.Some? {
        var i :| 0 <= i < |t| && IsDigit(Latin1(t)[i]);
        assert b[|b| - |l| + i] as char == Latin1(t)[i];
      }
    }
    r
  }

  lemma StripLeftIn(s: string)
    ensures forall i :: 0 <= i < |StripLeft(s)| ==> StripLeft(s)[i] in s
  {
    if s != [] && IsSpace(s[0]) {
      StripLeftIn(s[1..]);
    }
  }

  lemma StripRightIn(s: string)
    ensures forall i :: 0 <= i < |StripRight(s)| ==> StripRight(s)[i] in s
  {
    if s != [] && IsSpace(s[|s| - 1]) {
      StripRightIn(s[..|s| - 1]);
    }
  }

  /** The octets as characters of the same code, so that the text rules
      apply to them one octet at a time. */
  function Latin1(b: seq<byte>): (s: string)
    ensures |s| == |b| && forall i :: 0 <= i < |b| ==> s[i] as int == b[i]
  {
    if b == [] then [] else [b[0] as char] + Latin1(b[1..])
  }

  /** Octets whose every white space character is ASCII white space. */
  predicate OnlyByteSpace(b: seq<byte>) {
    forall i :: 0 <= i < |b| ==> IsSpaceCode(b[i]) ==> IsByteSpace(b[i])
  }

  /** Where the octets hold no white space but ASCII's, `int(b)` and `int()`
      of the same characters as text agree. */
  lemma ParseBytesAgrees(b: seq<byte>)
    requires OnlyByteSpace(b)
    ensures ParseBytes(b) == Parse(Latin1(b))
  {
    var l := StripBytesLeft(b);
    StripLeftLatin1(b);
    StrippedOnlyByteSpace(b);
    StripRightLatin1(l);
    BytesStripped(b);
    TextStripped(Latin1(b));
  }

  lemma BytesStripped(b: seq<byte>)
    ensures ParseBytes(b) == Signed(Latin1(StripBytesRight(StripBytesLeft(b))))
  {
  }

  lemma TextStripped(s: string)
    ensures Parse(s) == Signed(StripRight(StripLeft(s)))
  {
  }

  lemma StrippedOnlyByteSpace(b: seq<byte>)
    requires OnlyByteSpace(b)
    ensures OnlyByteSpace(StripBytesLeft(b))
  {
    var l := StripBytesLeft(b);
    StripBytesLeftSuffix(b);
    forall i | 0 <= i < |l| ensures IsSpaceCode(l[i]) ==> IsByteSpace(l[i]) {
      assert l[i] == b[|b| - |l| + i];
    }
  }

  lemma {:induction false} StripLeftLatin1(b: seq<byte>)
    requires OnlyByteSpace(b)
    ensures Latin1(StripBytesLeft(b)) == StripLeft(Latin1(b))
  {
    if b != [] {
      var t := Latin1(b);
      assert t[1..] == Latin1(b[1..]);
      assert t[0] == b[0] as char;
      if IsByteSpace(b[0]) {
        assert IsSpace(t[0]);
        assert StripLeft(t) == StripLeft(t[1..]);
        assert StripBytesLeft(b) == StripBytesLeft(b[1..]);
        assert OnlyByteSpace(b[1..]) by {
          forall i | 0 <= i < |b[1..]| ensures IsSpaceCode(b[1..][i]) ==> IsByteSpace(b[1..][i]) {
            assert b[1..][i] == b[i + 1];
          }
        }
        StripLeftLatin1(b[1..]);
      } else {
        assert !IsSpaceCode(b[0]);
        assert StripLeft(t) == t;
        assert StripBytesLeft(b) == b;
      }
    }
  }

  lemma {:induction false} StripRightLatin1(b: seq<byte>)
    requires OnlyByteSpace(b)
    ensures Latin1(StripBytesRight(b)) == StripRight(Latin1(b))
  {
    if b != [] {
      var n := |b| - 1;
      var t := Latin1(b);
      assert t[..n] == Latin1(b[..n]);
      assert t[n] == b[n] as char;
      if IsByteSpace(b[n]) {
        assert IsSpace(t[n]);
        assert StripRight(t) == StripRight(t[..n]);
        assert StripBytesRight(b) == StripBytesRight(b[..n]);
        assert OnlyByteSpace(b[..n]) by {
          forall i | 0 <= i < n ensures IsSpaceCode(b[..n][i]) ==> IsByteSpace(b[..n][i]) {
            assert b[..n][i] == b[i];
          }
        }
        StripRightLatin1(b[..n]);
      } else {
        assert !IsSpaceCode(b[n]);
        assert StripRight(t) == t;
        assert StripBytesRight(b) == b;
      }
    }
  }

  /** Bytes keep only ASCII white space: `int(b'\x1c5')` raises where
      `int('\x1c5')` is 5 (`TextStripsSeparator`), and `int(b' 5\n')` is 5
      (`BytesStripAscii`). */
  lemma BytesKeepSeparator()
    ensures ParseBytes([0x1C, 0x35]) == None
  {
    var c := [0x1C, 0x35];
    assert StripBytesLeft(c) == c;
    assert StripBytesRight(c) == c;
    assert Latin1(c)[0] == '\U{1C}';
    BytesStripped(c);
  }

  lemma TextStripsSeparator()
    ensures Parse("\U{1C}5") == Some(5)
  {
    assert StripLeft("5") == "5";
    assert StripLeft("\U{1C}5") == "5";
    assert StripRight("5") == "5";
    assert DigitsValue("5") == 5 by {
      assert "5"[..0] == [];
    }
    TextStripped("\U{1C}5");
  }

  lemma BytesStripAscii()
    ensures ParseBytes([0x20, 0x35, 0x0A]) == Some(5)
  {
    var b: seq<byte> := [0x20, 0x35, 0x0A];
    assert b[1..] == [0x35, 0x0A];
    assert StripBytesLeft([0x35, 0x0A]) == [0x35, 0x0A];
    assert StripBytesLeft(b) == StripBytesLeft(b[1..]);
    assert StripBytesRight([0x35]) == [0x35];
    assert StripBytesRight([0x35, 0x0A]) == [0x35];
    assert Latin1([0x35]) == "5";
    assert DigitsValue("5") == 5 by {
      assert "5"[..0] == [];
    }
    BytesStripped(b);
  }

  lemma {:induction false} DigitsValueOfNatStr(n: nat)
    ensures DigitsValue(NatStr(n)) == n
  {
    if n >= 10 {
      var s := NatStr(n);
      assert s[..|s| - 1] == NatStr(n / 10);
      DigitsValueOfNatStr(n / 10);
    }
  }

  lemma NoSpaceInDigits(s: string)
    requires IsDigits(s)
    ensures StripLeft(s) == s && StripRight(s) == s
  {
  }

  /** `int(str(n)) == n` for every integer. */
  lemma {:induction false} ParseStr(n: int)
    ensures Parse(Str(n)) == Some(n)
  {
    var m: nat := if n < 0 then -n else n;
    var s := Str(n);
    DigitsValueOfNatStr(m);
    NoSpaceInDigits(NatStr(m));
    TextStripped(s);
    if n < 0 {
      assert s == "-" + NatStr(m);
      assert StripLeft(s) == s;
      assert StripRight(s) == s by {
        assert s[|s| - 1] == NatStr(m)[|NatStr(m)| - 1];
      }
      assert s[0] == '-' && s[1..] == NatStr(m);
      assert Signed(s) == Some(n);
    } else {
      assert s == NatStr(m) && IsDigit(s[0]);
      assert Signed(s) == Some(n);
    }
  }

  /** Distinct integers print as distinct text. */
  lemma StrInjective(a: int, b: int)
    requires Str(a) == Str(b)
    ensures a == b
  {
    ParseStr(a);
    ParseStr(b);
  }

  /** The text of a non-negative integer is all digits. */
  lemma StrNatDigits(n: nat)
    ensures IsDigits(Str(n))
  {
  }

  /** The text of an integer is ASCII: digits and perhaps a minus sign. */
  lemma StrAscii(n: int)
    ensures forall i :: 0 <= i < |Str(n)| ==> (Str(n)[i] as int) < 0x80
  {
    var m: nat := if n < 0 then -n else n;
    assert IsDigits(NatStr(m));
    if n < 0 {
      forall i | 0 <= i < |Str(n)| ensures (Str(n)[i] as int) < 0x80 {
        if i > 0 {
          assert Str(n)[i] == NatStr(m)[i - 1];
        }
      }
    }
  }

  /** `int()` of a run of digits is its decimal value. */
  lemma ParseDigits(s: string)
    requires IsDigits(s)
    ensures Parse(s) == Some(DigitsValue(s))
  {
    NoSpaceInDigits(s);
  }

  /** The text of an integer holds digits and perhaps a minus sign, nothing else. */
  lemma StrChars(n: int)
    ensures forall i :: 0 <= i < |Str(n)| ==> IsDigit(Str(n)[i]) || Str(n)[i] == '-'
  {
    var m: nat := if n < 0 then -n else n;
    assert IsDigits(NatStr(m));
    if n < 0 {
      forall i | 0 <= i < |Str(n)| ensures IsDigit(Str(n)[i]) || Str(n)[i] == '-' {
        if i > 0 {
          assert Str(n)[i] == NatStr(m)[i - 1];
        }
      }
    }
  }

  /** A run of digits holds nothing but digits. */
  lemma NotInDigits(s: string, c: char)
    requires IsDigits(s) && !IsDigit(c)
    ensures c !in s
  {
  }
}
