/** The two pieces of text handling the file manager relies on: `str::trim`
    (on the names typed for create, rename and search) and the line count of
    a previewed file, `BufRead::lines().count()`. */
module Text {

  /** Rust's `char::is_whitespace`: the Unicode `White_Space` property. */
  predicate IsWhitespace(c: char): (r: bool)
    ensures c < '\U{80}' ==> (r <==> c == ' ' || '\t' <= c <= '\r')
    ensures r ==> c <= '\U{3000}'
  {
    || ('\t' <= c <= '\r')
    || c == ' '
    || c == '\U{85}'
    || c == '\U{A0}'
    || c == '\U{1680}'
    || ('\U{2000}' <= c <= '\U{200A}')
    || c == '\U{2028}'
    || c == '\U{2029}'
    || c == '\U{202F}'
    || c == '\U{205F}'
    || c == '\U{3000}'
  }

  /** Number of whitespace characters at the start of `s`. */
  function LeadingSpace(s: string): (k: nat)
    ensures k <= |s|
    ensures forall i :: 0 <= i < k ==> IsWhitespace(s[i])
    ensures k < |s| ==> !IsWhitespace(s[k])
  {
    if s == [] || !IsWhitespace(s[0]) then 0 else 1 + LeadingSpace(s[1..])
  }

  /** Number of whitespace characters at the end of `s`. */
  function TrailingSpace(s: string): (k: nat)
    ensures k <= |s|
    ensures forall i :: |s| - k <= i < |s| ==> IsWhitespace(s[i])
    ensures k < |s| ==> !IsWhitespace(s[|s| - 1 - k])
  {
    if s == [] || !IsWhitespace(s[|s| - 1]) then 0 else 1 + TrailingSpace(s[..|s| - 1])
  }

  /** `str::trim`: `s` without its leading and trailing whitespace. The
      result is the part of `s` that starts at its first non-whitespace
      character and ends at its last one; everything cut off is whitespace;
      it is empty exactly when `s` is all whitespace. */
  function Trim(s: string): (r: string)
    ensures LeadingSpace(s) + |r| <= |s|
    ensures r == s[LeadingSpace(s)..LeadingSpace(s) + |r|]
    ensures forall i :: 0 <= i < LeadingSpace(s) ==> IsWhitespace(s[i])
    ensures forall i :: LeadingSpace(s) + |r| <= i < |s| ==> IsWhitespace(s[i])
    ensures r != [] ==> !IsWhitespace(r[0]) && !IsWhitespace(r[|r| - 1])
    ensures r == [] <==> forall i :: 0 <= i < |s| ==> IsWhitespace(s[i])
  {
    var t := s[LeadingSpace(s)..];
    t[..|t| - TrailingSpace(t)]
  }

  /** Trimming twice trims nothing more. */
  lemma TrimIdempotent(s: string)
    ensures Trim(Trim(s)) == Trim(s)
  {
    var r := Trim(s);
    if r != [] {
      assert LeadingSpace(r) == 0;
      assert TrailingSpace(r) == 0;
    }
  }

  /** Index just past the first line of `t`: past its first `'\n'`, or the
      end of `t` when it has none. */
  function LineEnd(t: string): (k: nat)
    ensures k <= |t|
    ensures t != [] ==> 1 <= k
    ensures forall i :: 0 <= i < k - 1 ==> t[i] != '\n'
    ensures 0 < k < |t| ==> t[k - 1] == '\n'
    ensures k == |t| && t != [] && t[k - 1] != '\n' ==> '\n' !in t
  {
    if t == [] then 0 else if t[0] == '\n' then 1 else 1 + LineEnd(t[1..])
  }

  /** `BufRead::lines().count()`: each read consumes one line up to and
      including its `'\n'`; the iterator stops when nothing is left. */
  function LineCount(t: string): (n: nat)
    ensures n == 0 <==> t == []
    ensures n <= |t|
    decreases |t|
  {
    if t == [] then 0 else 1 + LineCount(t[LineEnd(t)..])
  }

  /** The first line of a non-empty text holds one newline if it ends with
      one, and none otherwise. */
  lemma FirstLineNewlines(t: string)
    requires t != []
    ensures var k := LineEnd(t);
      multiset(t[..k])['\n'] == if t[k - 1] == '\n' then 1 else 0
  {
    var k := LineEnd(t);
    var body := t[..k - 1];
    assert t[..k] == body + [t[k - 1]];
    assert '\n' !in body;
    assert multiset(t[..k]) == multiset(body) + multiset{t[k - 1]};
  }

  /** The line count is the number of newlines, plus one for a last line
      that has no newline after it: an empty text has no lines and a
      trailing newline does not start another one. */
  lemma {:induction false} LineCountByNewlines(t: string)
    ensures LineCount(t) == multiset(t)['\n'] + (if t != [] && t[|t| - 1] != '\n' then 1 else 0)
    decreases |t|
  {
    if t != [] {
      var k := LineEnd(t);
      var rest := t[k..];
      assert t == t[..k] + rest;
      assert multiset(t)['\n'] == multiset(t[..k])['\n'] + multiset(rest)['\n'];
      FirstLineNewlines(t);
      LineCountByNewlines(rest);
      if rest != [] {
        assert rest[|rest| - 1] == t[|t| - 1];
      }
    }
  }
}
