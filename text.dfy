/**
 * The Python 2 string operations the client relies on, over `string`
 * (a Python 2 `str` is a byte string; each `char` here stands for one byte).
 */
module Text {

  /** Python 2 `string.whitespace`: space, tab, line feed, vertical tab, form feed, carriage return. */
  predicate IsSpace(c: char) {
    c == ' ' || '\t' <= c <= '\r'
  }

  /** `s.rstrip()`: the longest prefix of `s` that does not end in whitespace. */
  function RStrip(s: string): (r: string)
    ensures |r| <= |s| && r == s[..|r|]
    ensures r == [] || !IsSpace(r[|r| - 1])
    ensures forall i :: |r| <= i < |s| ==> IsSpace(s[i])
  {
    if |s| > 0 && IsSpace(s[|s| - 1]) then RStrip(s[..|s| - 1]) else s
  }

  /** `s.lstrip()`: the longest suffix of `s` that does not start with whitespace. */
  function LStrip(s: string): (r: string)
    ensures |r| <= |s| && r == s[|s| - |r|..]
    ensures r == [] || !IsSpace(r[0])
    ensures forall i :: 0 <= i < |s| - |r| ==> IsSpace(s[i])
  {
    if |s| > 0 && IsSpace(s[0]) then LStrip(s[1..]) else s
  }

  /** `s.strip()`: whitespace removed from both ends. */
  function Strip(s: string): string {
    LStrip(RStrip(s))
  }

  /** The header parser's `rstrip().strip()` is the same as a plain `strip()`. */
  lemma RStripThenStrip(s: string)
    ensures Strip(RStrip(s)) == Strip(s)
  {
    var r := RStrip(s);
    assert r == [] || !IsSpace(r[|r| - 1]);
    assert RStrip(r) == r;
  }

  /**
   * `s.partition(':')`: the text before the first colon, the colon itself
   * (empty when there is none) and the text after it.
   */
  function Partition(s: string): (r: (string, string, string))
    ensures r.1 == ":" <==> ':' in s
    ensures r.1 == ":" || r.1 == ""
    ensures ':' !in r.0
    ensures r.1 == ":" ==> s == r.0 + ":" + r.2
    ensures r.1 == "" ==> r.0 == s && r.2 == ""
  {
    if |s| == 0 then ("", "", "")
    else if s[0] == ':' then ("", ":", s[1..])
    else
      var (before, sep, after) := Partition(s[1..]);
      assert s == [s[0]] + s[1..];
      ([s[0]] + before, sep, after)
  }

  /** The in-order concatenation of a sequence of chunks. */
  function Concat(chunks: seq<string>): string {
    if chunks == [] then "" else Concat(chunks[..|chunks| - 1]) + chunks[|chunks| - 1]
  }

  /** Concatenation distributes over joining two runs of chunks. */
  lemma {:induction false} ConcatAppend(xs: seq<string>, ys: seq<string>)
    ensures Concat(xs + ys) == Concat(xs) + Concat(ys)
  {
    if ys == [] {
      assert xs + ys == xs;
    } else {
      var zs := ys[..|ys| - 1];
      assert (xs + ys)[..|xs + ys| - 1] == xs + zs;
      ConcatAppend(xs, zs);
    }
  }

  /** Extending a prefix of `s` by one element gives the next prefix. */
  lemma PrefixStep<T>(s: seq<T>, i: nat)
    requires i < |s|
    ensures s[..i + 1] == s[..i] + [s[i]]
  {
  }
}
