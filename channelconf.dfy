/** The channel.conf format (channelconf.py): one channel per line as
    `name addrport secret [key=value ...]`, fields split by a small tokenizer
    that understands quotes and backslashes. The files themselves, and the
    merging of several of them, are not part of this model: a file is given as
    its sequence of lines. */
module ChannelConf {
  import opened Wrappers
  import opened Exceptions
  import opened Values
  import PyInt
  import opened PyStr
  import Channel

  // ---------------------------------------------------------------------
  // The tokenizer, `_split(s, delim, quoting_ok, bug_compatible)`
  // ---------------------------------------------------------------------

  predicate IsQuote(c: char) {
    c == '\'' || c == '"'
  }

  /** The length of the run of non-delimiters `t` starts with. */
  function Run(t: string, delim: string): (n: nat)
    ensures n <= |t| && forall k :: 0 <= k < n ==> t[k] !in delim
    ensures n < |t| ==> t[n] in delim
  {
    if t == [] || t[0] in delim then 0 else 1 + Run(t[1..], delim)
  }

  /** `t` without the delimiters it starts with. */
  function SkipDelims(t: string, delim: string): (r: string)
    ensures |r| <= |t| && (t != [] && t[0] in delim ==> |r| < |t|)
    ensures r != [] ==> r[0] !in delim
  {
    if t != [] && t[0] in delim then SkipDelims(t[1..], delim) else t
  }

  /** After an opening quote `q`: the word up to the closing quote, with each
      backslash taking the next character literally, and the text after the
      closing quote. A missing closing quote, or a backslash at the very end,
      is a SyntaxError. */
  function Quoted(t: string, q: char): (r: Result<(string, string)>)
    ensures r.Ok? ==> |r.value.1| < |t|
    ensures r.Err? ==> r == Raise(SyntaxError)
  {
    if t == [] then Raise(SyntaxError)
    else if t[0] == q then Ok(([], t[1..]))
    else if t[0] == '\\' then
      if |t| == 1 then Raise(SyntaxError)
      else
        var (w, rest) :- Quoted(t[2..], q);
        Ok(([t[1]] + w, rest))
    else
      var (w, rest) :- Quoted(t[1..], q);
      Ok(([t[0]] + w, rest))
  }

  /** The word `t` starts with and the text after it. Outside the
      bug-compatible mode a closing quote must be followed by a delimiter or
      the end. */
  function Word(t: string, delim: string, quoting: bool, bug: bool): (r: Result<(string, string)>)
    requires t != []
    ensures r.Ok? ==> |r.value.1| < |t| || (r.value.1 == t && t[0] in delim)
    ensures r.Err? ==> r == Raise(SyntaxError)
  {
    if quoting && IsQuote(t[0]) then
      var (w, rest) :- Quoted(t[1..], t[0]);
      if !bug && rest != [] && rest[0] !in delim then Raise(SyntaxError) else Ok((w, rest))
    else
      var n := Run(t, delim);
      Ok((t[..n], t[n..]))
  }

  /** The words of `t`, one after another, each followed by a run of delimiters. */
  function WordsFrom(t: string, delim: string, quoting: bool, bug: bool): (r: Result<seq<string>>)
    ensures r.Err? ==> r == Raise(SyntaxError)
    decreases |t|
  {
    if t == [] then Ok([])
    else
      var (w, rest) :- Word(t, delim, quoting, bug);
      var ws :- WordsFrom(SkipDelims(rest, delim), delim, quoting, bug);
      Ok([w] + ws)
  }

  /** What `_split` returns. Only outside the bug-compatible mode are leading
      delimiters skipped; in it, a leading delimiter ends an empty first word. */
  function Words(s: string, delim: string, quoting: bool, bug: bool): Result<seq<string>> {
    WordsFrom(if bug then s else SkipDelims(s, delim), delim, quoting, bug)
  }

  /** Words found so far, in front of the outcome for the rest of the text. */
  function Prepend(out: seq<string>, r: Result<seq<string>>): Result<seq<string>> {
    if r.Ok? then Ok(out + r.value) else r
  }

  /** Characters of a quoted word read so far, in front of the outcome for the
      rest of it. */
  function PrependWord(w: string, r: Result<(string, string)>): Result<(string, string)> {
    if r.Ok? then Ok((w + r.value.0, r.value.1)) else r
  }

  lemma PrependNil(r: Result<seq<string>>)
    ensures Prepend([], r) == r
  {
    if r.Ok? {
      assert [] + r.value == r.value;
    }
  }

  lemma PrependWordNil(r: Result<(string, string)>)
    ensures PrependWord([], r) == r
  {
    if r.Ok? {
      assert [] + r.value.0 == r.value.0;
    }
  }

  /** `_split` as written: a reader over the text, one character at a time. */
  method Split(s: string, delim: string, quotingOk: bool, bugCompatible: bool) returns (r: Result<seq<string>>)
    ensures r == Words(s, delim, quotingOk, bugCompatible)
  {
    var i := 0;
    if !bugCompatible {
      i := SkipFrom(s, 0, delim);
    }
    var out: seq<string> := [];
    PrependNil(WordsFrom(s[i..], delim, quotingOk, bugCompatible));
    while i < |s|
      invariant 0 <= i <= |s|
      invariant Prepend(out, WordsFrom(s[i..], delim, quotingOk, bugCompatible)) ==
                Words(s, delim, quotingOk, bugCompatible)
      decreases |s| - i
    {
      var start := i;
      var read := ReadWord(s, i, delim, quotingOk, bugCompatible);
      if read.Err? {
        return Err(read.error);
      }
      var word;
      word, i := read.value.0, read.value.1;
      WordsStep(s[start..], delim, quotingOk, bugCompatible, word, s[i..], out);
      out := out + [word];
      i := SkipFrom(s, i, delim);
    }
    assert s[i..] == [];
    assert out + [] == out;
    return Ok(out);
  }

  /** Reading one word from `j`, which is not at the end. */
  method ReadWord(s: string, j: nat, delim: string, quotingOk: bool, bugCompatible: bool)
    returns (r: Result<(string, nat)>)
    requires j < |s|
    ensures r.Ok? ==> r.value.1 <= |s| && Word(s[j..], delim, quotingOk, bugCompatible) == Ok((r.value.0, s[r.value.1..]))
    ensures r.Err? ==> Word(s[j..], delim, quotingOk, bugCompatible).Err? &&
                       r.error == Word(s[j..], delim, quotingOk, bugCompatible).error
  {
    if quotingOk && IsQuote(s[j]) {
      assert s[j..][1..] == s[j + 1..];
      var quoted := ReadQuoted(s, j + 1, s[j]);
      if quoted.Err? {
        return Err(quoted.error);
      }
      var i := quoted.value.1;
      if !bugCompatible && i < |s| && s[i] !in delim {
        return Raise(SyntaxError);
      }
      return quoted;
    } else {
      var word, i := ReadRun(s, j, delim);
      return Ok((word, i));
    }
  }

  /** Reading past delimiters from `j`. */
  method SkipFrom(s: string, j: nat, delim: string) returns (i: nat)
    requires j <= |s|
    ensures j <= i <= |s| && s[i..] == SkipDelims(s[j..], delim)
  {
    i := j;
    while i < |s| && s[i] in delim
      invariant j <= i <= |s| && SkipDelims(s[i..], delim) == SkipDelims(s[j..], delim)
    {
      assert s[i..][1..] == s[i + 1..];
      i := i + 1;
    }
  }

  /** Reading an unquoted word from `j`, up to a delimiter or the end. */
  method ReadRun(s: string, j: nat, delim: string) returns (word: string, i: nat)
    requires j <= |s|
    ensures j <= i <= |s| && i == j + Run(s[j..], delim)
    ensures word == s[j..][..Run(s[j..], delim)] && s[i..] == s[j..][Run(s[j..], delim)..]
  {
    word, i := [], j;
    while i < |s| && s[i] !in delim
      invariant j <= i <= |s| && word == s[j..i]
      invariant Run(s[j..], delim) == (i - j) + Run(s[i..], delim)
    {
      assert s[i..][1..] == s[i + 1..];
      word := word + [s[i]];
      i := i + 1;
    }
    assert s[j..][..i - j] == word && s[j..][i - j..] == s[i..];
  }

  /** Reading a quoted word whose opening quote `q` comes just before `j`,
      up to and past its closing quote. */
  method ReadQuoted(s: string, j: nat, q: char) returns (r: Result<(string, nat)>)
    requires j <= |s|
    ensures r.Ok? ==> r.value.1 <= |s| && Quoted(s[j..], q) == Ok((r.value.0, s[r.value.1..]))
    ensures r.Err? ==> Quoted(s[j..], q).Err? && r.error == Quoted(s[j..], q).error
  {
    var word: string := [];
    var i := j;
    PrependWordNil(Quoted(s[i..], q));
    while i < |s| && s[i] != q
      invariant j <= i <= |s|
      invariant PrependWord(word, Quoted(s[i..], q)) == Quoted(s[j..], q)
    {
      if s[i] == '\\' {
        i := i + 1;
        if i == |s| {
          assert Quoted(s[i - 1..], q) == Raise(SyntaxError);
          return Raise(SyntaxError);
        }
        AfterEscape(s[i - 1..], q);
        assert s[i - 1..][2..] == s[i + 1..];
      } else {
        AfterPlain(s[i..], q);
        assert s[i..][1..] == s[i + 1..];
      }
      PrependWordAssoc(word, [s[i]], Quoted(s[i + 1..], q));
      word := word + [s[i]];
      i := i + 1;
    }
    if i == |s| {
      return Raise(SyntaxError);
    }
    assert s[i..][1..] == s[i + 1..];
    assert word + [] == word;
    return Ok((word, i + 1));
  }

  /** One word of the reader loop. */
  lemma WordsStep(t: string, delim: string, quoting: bool, bug: bool, word: string, rest: string, out: seq<string>)
    requires t != [] && Word(t, delim, quoting, bug) == Ok((word, rest))
    ensures Prepend(out, WordsFrom(t, delim, quoting, bug)) ==
            Prepend(out + [word], WordsFrom(SkipDelims(rest, delim), delim, quoting, bug))
  {
    var r := WordsFrom(SkipDelims(rest, delim), delim, quoting, bug);
    if r.Ok? {
      assert out + ([word] + r.value) == out + [word] + r.value;
    }
  }

  lemma PrependWordAssoc(w: string, v: string, r: Result<(string, string)>)
    ensures PrependWord(w, PrependWord(v, r)) == PrependWord(w + v, r)
  {
    if r.Ok? {
      assert w + (v + r.value.0) == w + v + r.value.0;
    }
  }

  /** A character that is neither the quote nor a backslash is taken as it is. */
  lemma AfterPlain(t: string, q: char)
    requires |t| >= 1 && t[0] != '\\' && t[0] != q
    ensures Quoted(t, q) == PrependWord([t[0]], Quoted(t[1..], q))
  {
  }

  /** An escaped character is taken as it is. */
  lemma AfterEscape(t: string, q: char)
    requires |t| >= 2 && t[0] == '\\' && t[0] != q
    ensures Quoted(t, q) == PrependWord([t[1]], Quoted(t[2..], q))
  {
  }

  // ---------------------------------------------------------------------
  // What the tokenizer promises
  // ---------------------------------------------------------------------

  /** Outside quotes, the bug-compatible flag matters only at the start. */
  lemma {:induction false} UnquotedFlag(t: string, delim: string)
    ensures WordsFrom(t, delim, false, true) == WordsFrom(t, delim, false, false)
    decreases |t|
  {
    if t != [] {
      var (w, rest) := Word(t, delim, false, true).value;
      UnquotedFlag(SkipDelims(rest, delim), delim);
    }
  }

  /** In the bug-compatible mode a leading delimiter gives an empty first word,
      and the rest is split as in the other mode; without one the two modes
      agree (for text split without quoting). */
  lemma LeadingDelimiter(s: string, delim: string)
    ensures s != [] && s[0] in delim ==>
              Words(s, delim, false, true) == Prepend([""], Words(s, delim, false, false))
    ensures (s == [] || s[0] !in delim) ==> Words(s, delim, false, true) == Words(s, delim, false, false)
  {
    UnquotedFlag(s, delim);
    UnquotedFlag(SkipDelims(s, delim), delim);
    if s != [] && s[0] in delim {
      assert Word(s, delim, false, true) == Ok(("", s));
    }
  }

  /** Without quoting, words hold no delimiter and are never empty (outside the
      bug-compatible mode), and together they are the text without its
      delimiters. */
  lemma {:induction false} UnquotedWords(t: string, delim: string)
    ensures WordsFrom(SkipDelims(t, delim), delim, false, false).Ok?
    ensures var ws := WordsFrom(SkipDelims(t, delim), delim, false, false).value;
            (forall k :: 0 <= k < |ws| ==> ws[k] != [] && forall j :: 0 <= j < |ws[k]| ==> ws[k][j] !in delim) &&
            Concat(ws) == NonDelims(t, delim)
    decreases |t|
  {
    var u := SkipDelims(t, delim);
    SkipNonDelims(t, delim);
    if u != [] {
      var n := Run(u, delim);
      var rest := u[n..];
      UnquotedWords(rest, delim);
      SkipNonDelims(rest, delim);
      RunNonDelims(u, delim);
      var ws := WordsFrom(u, delim, false, false).value;
      assert ws == [u[..n]] + WordsFrom(SkipDelims(rest, delim), delim, false, false).value;
      assert ws[1..] == WordsFrom(SkipDelims(rest, delim), delim, false, false).value;
    }
  }

  function Concat(ws: seq<string>): string {
    if ws == [] then [] else ws[0] + Concat(ws[1..])
  }

  /** The text with every delimiter taken out. */
  function NonDelims(t: string, delim: string): string {
    if t == [] then [] else (if t[0] in delim then [] else [t[0]]) + NonDelims(t[1..], delim)
  }

  lemma {:induction false} SkipNonDelims(t: string, delim: string)
    ensures NonDelims(SkipDelims(t, delim), delim) == NonDelims(t, delim)
  {
    if t != [] && t[0] in delim {
      SkipNonDelims(t[1..], delim);
    }
  }

  lemma {:induction false} RunNonDelims(t: string, delim: string)
    ensures NonDelims(t, delim) == t[..Run(t, delim)] + NonDelims(t[Run(t, delim)..], delim)
  {
    if t != [] && t[0] !in delim {
      RunNonDelims(t[1..], delim);
      assert t[..Run(t, delim)] == [t[0]] + t[1..][..Run(t[1..], delim)];
      assert t[Run(t, delim)..] == t[1..][Run(t[1..], delim)..];
    }
  }

  /** A quoted word may hold delimiters; the closing quote ends it. */
  lemma QuotedWord(q: char, w: string, rest: string, delim: string, bug: bool)
    requires IsQuote(q) && q !in w && '\\' !in w
    requires rest == [] || rest[0] in delim
    ensures WordsFrom([q] + w + [q] + rest, delim, true, bug) ==
            Prepend([w], WordsFrom(SkipDelims(rest, delim), delim, true, bug))
  {
    PlainQuoted(w, q, rest);
    var t := [q] + w + [q] + rest;
    assert t[1..] == w + [q] + rest;
    var r := WordsFrom(SkipDelims(rest, delim), delim, true, bug);
    if r.Ok? {
      assert [w] + r.value == [w] + r.value;
    }
  }

  /** A quote that is never closed. */
  lemma Unterminated(q: char, w: string, delim: string, bug: bool)
    requires IsQuote(q) && q !in w && '\\' !in w
    ensures WordsFrom([q] + w, delim, true, bug) == Raise(SyntaxError)
  {
    PlainUnterminated(w, q);
    assert ([q] + w)[1..] == w;
  }

  /** A backslash at the very end of a quoted word. */
  lemma TrailingBackslash(q: char, w: string, delim: string, bug: bool)
    requires IsQuote(q) && q !in w && '\\' !in w
    ensures WordsFrom([q] + w + ['\\'], delim, true, bug) == Raise(SyntaxError)
  {
    PlainBackslash(w, q);
    assert ([q] + w + ['\\'])[1..] == w + ['\\'];
  }

  /** Outside the bug-compatible mode, text right after a closing quote is a
      SyntaxError; in it, that text starts the next word. */
  lemma AfterClosingQuote(q: char, w: string, rest: string, delim: string)
    requires IsQuote(q) && q !in w && '\\' !in w && rest != [] && rest[0] !in delim
    ensures WordsFrom([q] + w + [q] + rest, delim, true, false) == Raise(SyntaxError)
    ensures WordsFrom([q] + w + [q] + rest, delim, true, true) ==
            Prepend([w], WordsFrom(rest, delim, true, true))
  {
    PlainQuoted(w, q, rest);
    var t := [q] + w + [q] + rest;
    assert t[1..] == w + [q] + rest;
  }

  /** The content of a quoted word without quotes or backslashes. */
  lemma {:induction false} PlainQuoted(w: string, q: char, rest: string)
    requires q !in w && '\\' !in w
    ensures Quoted(w + [q] + rest, q) == Ok((w, rest))
  {
    if w != [] {
      PlainQuoted(w[1..], q, rest);
      assert (w + [q] + rest)[1..] == w[1..] + [q] + rest;
      assert [w[0]] + w[1..] == w;
    }
  }

  lemma {:induction false} PlainUnterminated(w: string, q: char)
    requires q !in w && '\\' !in w
    ensures Quoted(w, q) == Raise(SyntaxError)
  {
    if w != [] {
      PlainUnterminated(w[1..], q);
    }
  }

  lemma {:induction false} PlainBackslash(w: string, q: char)
    requires q !in w && '\\' !in w && q != '\\'
    ensures Quoted(w + ['\\'], q) == Raise(SyntaxError)
  {
    if w != [] {
      PlainBackslash(w[1..], q);
      assert (w + ['\\'])[1..] == w[1..] + ['\\'];
    }
  }

  // ---------------------------------------------------------------------
  // Options, `_parse_options(options_list)`
  // ---------------------------------------------------------------------

  /** The options dict after the items that remain are added to `acc`: each
      item is split at its first `=`; one without `=` is a BadChannelConf. */
  function OptionsFrom(acc: Dict, items: seq<string>): (r: Result<Dict>)
    ensures r.Err? ==> r.error.cls == BadChannelConf
    decreases |items|
  {
    if items == [] then Ok(acc)
    else
      var fields := SplitFirst(items[0], '=');
      if |fields| != 2 then Raise(BadChannelConf, "bad option: " + items[0])
      else OptionsFrom(Put(acc, fields[0], Text(fields[1])), items[1..])
  }

  /** `_parse_options` as written: a loop that fills a dict. */
  method ParseOptions(items: seq<string>) returns (r: Result<Dict>)
    ensures r == OptionsFrom([], items)
  {
    var options: Dict := [];
    var k := 0;
    while k < |items|
      invariant 0 <= k <= |items|
      invariant OptionsFrom(options, items[k..]) == OptionsFrom([], items)
    {
      var fields := SplitFirst(items[k], '=');
      if |fields| != 2 {
        return Raise(BadChannelConf, "bad option: " + items[k]);
      }
      assert items[k..][1..] == items[k + 1..];
      options := Put(options, fields[0], Text(fields[1]));
      k := k + 1;
    }
    return Ok(options);
  }

  /** The value the last item for `key` gives it, if any item does. */
  function LastValue(items: seq<string>, key: string): Option<Value> {
    if items == [] then None
    else
      var last := items[|items| - 1];
      var fields := SplitFirst(last, '=');
      if |fields| == 2 && fields[0] == key then Some(Text(fields[1]))
      else LastValue(items[..|items| - 1], key)
  }

  /** Parsing succeeds exactly when every item holds a `=`. */
  lemma {:induction false} OptionsOk(acc: Dict, items: seq<string>)
    ensures OptionsFrom(acc, items).Ok? <==> forall item :: item in items ==> '=' in item
    decreases |items|
  {
    if items != [] {
      var f := SplitFirst(items[0], '=');
      assert forall item :: item in items <==> item == items[0] || item in items[1..] by {
        assert items == [items[0]] + items[1..];
      }
      if '=' in items[0] {
        OptionsOk(Put(acc, f[0], Text(f[1])), items[1..]);
        assert OptionsFrom(acc, items) == OptionsFrom(Put(acc, f[0], Text(f[1])), items[1..]);
      } else {
        assert OptionsFrom(acc, items).Err?;
      }
    }
  }

  /** Every key holds the value of the last item naming it; a later duplicate
      overrides an earlier one, and keys nothing names keep their old value. */
  lemma {:induction false} OptionsLast(acc: Dict, items: seq<string>, key: string)
    requires OptionsFrom(acc, items).Ok?
    ensures Get(OptionsFrom(acc, items).value, key) ==
              if LastValue(items, key).Some? then LastValue(items, key) else Get(acc, key)
    decreases |items|
  {
    if items != [] {
      var f := SplitFirst(items[0], '=');
      var acc' := Put(acc, f[0], Text(f[1]));
      OptionsLast(acc', items[1..], key);
      LastValueCons(items, key);
    }
  }

  /** The last value looked up from the front. */
  lemma {:induction false} LastValueCons(items: seq<string>, key: string)
    requires items != [] && |SplitFirst(items[0], '=')| == 2
    ensures var f := SplitFirst(items[0], '=');
            var tail := LastValue(items[1..], key);
            LastValue(items, key) == if tail.Some? then tail else if f[0] == key then Some(Text(f[1])) else None
    decreases |items|
  {
    if |items| > 1 {
      var front := items[..|items| - 1];
      assert front[0] == items[0];
      assert front[1..] == items[1..][..|items| - 2];
      LastValueCons(front, key);
    }
  }

  /** One item: the key is what precedes its first `=`, the value the rest. */
  lemma OneOption(key: string, value: string)
    requires '=' !in key
    ensures OptionsFrom([], [key + "=" + value]) == Ok([Entry(key, Text(value))])
  {
    var item := key + "=" + value;
    FindAfter(key, '=', value);
    assert item[..|key|] == key && item[|key| + 1..] == value;
    assert [key + "=" + value][1..] == [];
  }

  // ---------------------------------------------------------------------
  // Lines of a channel.conf file
  // ---------------------------------------------------------------------

  /** Lines starting with `#` or with whitespace are ignored. */
  predicate Ignored(l: string) {
    l != [] && (l[0] == '#' || PyInt.IsSpace(l[0]))
  }

  /** The channel a line defines, or none for an ignored line. At least three
      fields are needed; the fourth and later are options. */
  function LineChannel(l: string): Result<Option<Channel.Channel>> {
    if Ignored(l) then Ok(None)
    else
      var fields :- Words(PyInt.StripRight(l), " \t", true, true);
      if |fields| >= 3 then
        var options :- OptionsFrom([], fields[3..]);
        var ch :- Channel.New(fields[0], Channel.AddrportText(fields[1]), Some(fields[2]), Some(options));
        Ok(Some(ch))
      else Raise(BadChannelConf, "too few fields")
  }

  /** The channels after the remaining lines are read into `acc`, by name; the
      first failing line stops the reading. */
  function ConfFrom(acc: map<string, Channel.Channel>, lines: seq<string>): Result<map<string, Channel.Channel>>
    decreases |lines|
  {
    if lines == [] then Ok(acc)
    else
      var ch :- LineChannel(lines[0]);
      ConfFrom(if ch.Some? then acc[ch.value.name := ch.value] else acc, lines[1..])
  }

  /** The channel the last line naming `name` defines. */
  function LastNamed(lines: seq<string>, name: string): Option<Channel.Channel> {
    if lines == [] then None
    else
      var l := LineChannel(lines[|lines| - 1]);
      if l.Ok? && l.value.Some? && l.value.value.name == name then l.value
      else LastNamed(lines[..|lines| - 1], name)
  }

  /** A line that is not ignored and has fewer than three fields. */
  lemma TooFewFields(l: string)
    requires !Ignored(l)
    requires Words(PyInt.StripRight(l), " \t", true, true).Ok?
    requires |Words(PyInt.StripRight(l), " \t", true, true).value| < 3
    ensures LineChannel(l) == Raise(BadChannelConf, "too few fields")
  {
  }

  /** Reading succeeds exactly when every line does; then each name holds the
      channel of the last line naming it, so a later line replaces an earlier
      one. */
  lemma {:induction false} ConfLast(acc: map<string, Channel.Channel>, lines: seq<string>, name: string)
    ensures ConfFrom(acc, lines).Ok? <==> forall l :: l in lines ==> LineChannel(l).Ok?
    ensures ConfFrom(acc, lines).Ok? ==>
              var m := ConfFrom(acc, lines).value;
              if LastNamed(lines, name).Some? then name in m && m[name] == LastNamed(lines, name).value
              else (name in m <==> name in acc) && (name in acc ==> m[name] == acc[name])
    decreases |lines|
  {
    if lines != [] {
      var l := LineChannel(lines[0]);
      assert lines == [lines[0]] + lines[1..];
      if l.Ok? {
        var acc' := if l.value.Some? then acc[l.value.value.name := l.value.value] else acc;
        ConfLast(acc', lines[1..], name);
        if (forall l :: l in lines ==> LineChannel(l).Ok?) {
          LastNamedCons(lines, name);
        }
      }
    }
  }

  lemma {:induction false} LastNamedCons(lines: seq<string>, name: string)
    requires lines != [] && LineChannel(lines[0]).Ok?
    ensures var l := LineChannel(lines[0]).value;
            var tail := LastNamed(lines[1..], name);
            LastNamed(lines, name) == if tail.Some? then tail else if l.Some? && l.value.name == name then l else None
    decreases |lines|
  {
    if |lines| > 1 {
      var front := lines[..|lines| - 1];
      assert front[0] == lines[0];
      assert front[1..] == lines[1..][..|lines| - 2];
      LastNamedCons(front, name);
    }
  }

  /** A channel.conf file: the channels by name. */
  class Conf {
    var channels: map<string, Channel.Channel>

    constructor()
      ensures channels == map[]
    {
      channels := map[];
    }

    /** The part of `ChannelConf(filename)` that reads the file's lines one by
        one into the dict. */
    method ReadLines(lines: seq<string>) returns (r: Result<()>)
      modifies this
      ensures r.Ok? <==> ConfFrom(old(channels), lines).Ok?
      ensures r.Ok? ==> channels == ConfFrom(old(channels), lines).value
      ensures r.Err? ==> r.error == ConfFrom(old(channels), lines).error
    {
      var k := 0;
      while k < |lines|
        invariant 0 <= k <= |lines|
        invariant ConfFrom(channels, lines[k..]) == ConfFrom(old(channels), lines)
      {
        var l := lines[k];
        assert lines[k..][0] == l && lines[k..][1..] == lines[k + 1..];
        if !Ignored(l) {
          var fields := Split(PyInt.StripRight(l), " \t", true, true);
          if fields.Err? {
            return Err(fields.error);
          }
          if |fields.value| >= 3 {
            var options := ParseOptions(fields.value[3..]);
            if options.Err? {
              return Err(options.error);
            }
            var channel := Channel.New(fields.value[0], Channel.AddrportText(fields.value[1]),
                                       Some(fields.value[2]), Some(options.value));
            if channel.Err? {
              return Err(channel.error);
            }
            channels := channels[channel.value.name := channel.value];
          } else {
            return Raise(BadChannelConf, "too few fields");
          }
        }
        k := k + 1;
      }
      return Ok(());
    }
  }
}
