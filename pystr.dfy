/** The few `str` methods the modelled code relies on: `find`, `split` and
    slicing past the end. */
module PyStr {

  /** `s.find(c)`: the first index of `c`, or -1. */
  function Find(s: string, c: char): (r: int)
    ensures -1 <= r < |s|
    ensures r >= 0 ==> s[r] == c && c !in s[..r]
    ensures r == -1 <==> c !in s
  {
    if s == [] then -1
    else if s[0] == c then 0
    else
      var r := Find(s[1..], c);
      assert s == [s[0]] + s[1..];
      if r == -1 then -1
      else
        assert s[..r + 1] == [s[0]] + s[1..][..r];
        r + 1
  }

  /** Where `c` first occurs in `a + [c] + b` when `a` does not hold it. */
  lemma FindAfter(a: string, c: char, b: string)
    requires c !in a
    ensures Find(a + [c] + b, c) == |a|
  {
    var s := a + [c] + b;
    assert s[|a|] == c && s[..|a|] == a;
  }

  /** `s[i:]` for a non-negative `i`, empty past the end. */
  function Drop(s: string, i: nat): string {
    if i <= |s| then s[i..] else []
  }

  /** `s[:i]` for a non-negative `i`, all of `s` past the end. */
  function Take(s: string, i: nat): string {
    if i <= |s| then s[..i] else s
  }

  /** `s.split(c)`: the pieces between the occurrences of `c`. */
  function SplitAll(s: string, c: char): (r: seq<string>)
    ensures |r| >= 1 && (c in s <==> |r| > 1)
    ensures forall k :: 0 <= k < |r| ==> c !in r[k]
    decreases |s|
  {
    var i := Find(s, c);
    if i < 0 then [s] else [s[..i]] + SplitAll(s[i + 1..], c)
  }

  /** Splitting past a first piece that does not hold the separator. */
  lemma SplitAllCons(a: string, c: char, b: string)
    requires c !in a
    ensures SplitAll(a + [c] + b, c) == [a] + SplitAll(b, c)
  {
    var t := a + [c] + b;
    FindAfter(a, c, b);
    assert t[..|a|] == a && t[|a| + 1..] == b;
  }

  /** The first piece ends at the first separator or at the end. */
  lemma SplitAllFirst(a: string, c: char, b: string)
    requires c !in a && (b == [] || b[0] == c)
    ensures SplitAll(a + b, c)[0] == a
  {
    if b != [] {
      assert a + b == a + [c] + b[1..];
      SplitAllCons(a, c, b[1..]);
    } else {
      assert a + b == a;
    }
  }

  /** The pieces joined by `c`. */
  function Join(parts: seq<string>, c: char): string
    requires |parts| >= 1
  {
    if |parts| == 1 then parts[0] else parts[0] + [c] + Join(parts[1..], c)
  }

  /** Joining the pieces gives back the text. */
  lemma {:induction false} JoinSplitAll(s: string, c: char)
    ensures Join(SplitAll(s, c), c) == s
    decreases |s|
  {
    var i := Find(s, c);
    if i >= 0 {
      JoinSplitAll(s[i + 1..], c);
      assert s == s[..i] + [c] + s[i + 1..];
    }
  }

  /** `s.split(c, 1)`: the text before the first `c` and the rest, or the whole
      text alone. */
  function SplitFirst(s: string, c: char): (r: seq<string>)
    ensures 1 <= |r| <= 2 && (|r| == 2 <==> c in s) && c !in r[0]
    ensures |r| == 1 ==> r[0] == s
    ensures |r| == 2 ==> s == r[0] + [c] + r[1]
  {
    var i := Find(s, c);
    if i < 0 then [s]
    else
      assert s == s[..i] + [c] + s[i + 1..];
      [s[..i], s[i + 1..]]
  }

  /** The split falls at the first separator. */
  lemma SplitFirstAt(a: string, c: char, b: string)
    requires c !in a
    ensures SplitFirst(a + [c] + b, c) == [a, b]
  {
    var s := a + [c] + b;
    FindAfter(a, c, b);
    assert s[..|a|] == a && s[|a| + 1..] == b;
  }
}
