/** The pieces of ECMAScript string behaviour the screen relies on:
    the whitespace set of `trim` and of the regular-expression class `\s`,
    `String.prototype.trim`, `String.prototype.includes`, and the
    code-point order that `localeCompare` reduces to on `YYYY-MM-DD` and
    `HH:MM` strings. */
module JsString {

  /** WhiteSpace and LineTerminator code points of ECMAScript: the
      characters `trim` removes and `\s` matches. */
  predicate IsWhitespace(c: char) {
    || c == '\t' || c == '\n' || c == '\U{000B}' || c == '\U{000C}' || c == '\r'
    || c == ' ' || c == '\U{00A0}' || c == '\U{1680}'
    || ('\U{2000}' <= c <= '\U{200A}')
    || c == '\U{2028}' || c == '\U{2029}' || c == '\U{202F}' || c == '\U{205F}'
    || c == '\U{3000}' || c == '\U{FEFF}'
  }

  predicate AllWhitespace(s: string) {
    forall i :: 0 <= i < |s| ==> IsWhitespace(s[i])
  }

  /** Length of the whitespace run at the start of `s`. */
  function LeadingWhitespace(s: string): (k: nat)
    ensures k <= |s|
    ensures AllWhitespace(s[..k])
    ensures k == |s| || !IsWhitespace(s[k])
  {
    if |s| > 0 && IsWhitespace(s[0]) then
      var k := 1 + LeadingWhitespace(s[1..]);
      assert s[..k] == [s[0]] + s[1..][..k - 1];
      k
    else 0
  }

  /** Length of the whitespace run at the end of `s`. */
  function TrailingWhitespace(s: string): (k: nat)
    ensures k <= |s|
    ensures AllWhitespace(s[|s| - k..])
    ensures k == |s| || !IsWhitespace(s[|s| - k - 1])
  {
    if |s| > 0 && IsWhitespace(s[|s| - 1]) then
      var k := 1 + TrailingWhitespace(s[..|s| - 1]);
      assert s[|s| - k..] == s[..|s| - 1][|s| - k..] + [s[|s| - 1]];
      k
    else 0
  }

  /** `String.prototype.trim`: `s` without its leading and trailing
      whitespace. */
  function Trim(s: string): (r: string)
    ensures |r| <= |s|
    ensures r == [] || (!IsWhitespace(r[0]) && !IsWhitespace(r[|r| - 1]))
  {
    var t := s[LeadingWhitespace(s)..];
    t[..|t| - TrailingWhitespace(t)]
  }

  /** `trim` keeps a stretch of the input, dropping only whitespace before
      and after it, and the stretch kept neither starts nor ends with
      whitespace. */
  lemma TrimStripsEnds(s: string)
    ensures Trim(s) == [] || (!IsWhitespace(Trim(s)[0]) && !IsWhitespace(Trim(s)[|Trim(s)| - 1]))
    ensures exists i, j :: 0 <= i <= j <= |s| && Trim(s) == s[i..j] && AllWhitespace(s[..i]) && AllWhitespace(s[j..])
  {
    var i := LeadingWhitespace(s);
    var t := s[i..];
    var k := TrailingWhitespace(t);
    var j := |s| - k;
    assert t[..|t| - k] == s[i..j];
    assert t[|t| - k..] == s[j..];
  }

  /** `!s.trim()` holds exactly for strings made of whitespace only. */
  lemma TrimEmptyIffAllWhitespace(s: string)
    ensures Trim(s) == [] <==> AllWhitespace(s)
  {
    var i := LeadingWhitespace(s);
    var t := s[i..];
    if i < |s| {
      // the first non-whitespace character survives trimming
      var j := TrailingWhitespace(t);
      assert j < |t|;
      assert Trim(s)[0] == s[i];
    } else {
      assert s == s[..i];
    }
  }

  /** `needle` occurs in `hay` starting at index `i`. */
  predicate OccursAt(hay: string, needle: string, i: nat) {
    i + |needle| <= |hay| && hay[i..i + |needle|] == needle
  }

  /** Scan of `String.prototype.includes` from position `from` on. */
  function IncludesFrom(hay: string, needle: string, from: nat): (r: bool)
    requires from <= |hay| + 1
    ensures r <==> exists i :: from <= i && OccursAt(hay, needle, i)
    decreases |hay| + 1 - from
  {
    if from + |needle| > |hay| then
      assert forall i :: from <= i ==> !OccursAt(hay, needle, i);
      false
    else if hay[from..from + |needle|] == needle then
      assert OccursAt(hay, needle, from);
      true
    else
      var r := IncludesFrom(hay, needle, from + 1);
      assert forall i :: from <= i && OccursAt(hay, needle, i) ==> from + 1 <= i;
      r
  }

  /** `hay.includes(needle)`: `needle` is a substring of `hay`. */
  function Includes(hay: string, needle: string): (r: bool)
    ensures r <==> exists i :: OccursAt(hay, needle, i)
  {
    IncludesFrom(hay, needle, 0)
  }

  /** Code-point lexicographic order: `a` sorts no later than `b`. */
  predicate StrLe(a: string, b: string)
    decreases |a|
  {
    |a| == 0 || (|b| > 0 && (a[0] < b[0] || (a[0] == b[0] && StrLe(a[1..], b[1..]))))
  }

  lemma {:induction false} StrLeReflexive(a: string)
    ensures StrLe(a, a)
    decreases |a|
  {
    if |a| > 0 {
      StrLeReflexive(a[1..]);
    }
  }

  lemma {:induction false} StrLeTotal(a: string, b: string)
    ensures StrLe(a, b) || StrLe(b, a)
    decreases |a|
  {
    if |a| > 0 && |b| > 0 && a[0] == b[0] {
      StrLeTotal(a[1..], b[1..]);
    }
  }

  lemma {:induction false} StrLeAntisymmetric(a: string, b: string)
    requires StrLe(a, b) && StrLe(b, a)
    ensures a == b
    decreases |a|
  {
    if |a| > 0 {
      StrLeAntisymmetric(a[1..], b[1..]);
      assert a == [a[0]] + a[1..];
      assert b == [b[0]] + b[1..];
    }
  }

  lemma {:induction false} StrLeTransitive(a: string, b: string, c: string)
    requires StrLe(a, b) && StrLe(b, c)
    ensures StrLe(a, c)
    decreases |a|
  {
    if |a| > 0 && a[0] == b[0] && b[0] == c[0] {
      StrLeTransitive(a[1..], b[1..], c[1..]);
    }
  }
}
