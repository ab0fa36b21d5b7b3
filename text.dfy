/**
 * The string operations the scraper borrows from Python's `str`: whitespace
 * (`isspace`, `strip`, `split`, `" ".join`), `splitlines`, `lower`,
 * `startswith`, the `in` substring test, `split(c, 1)`, `replace`, and
 * decimal formatting of small numbers.
 */
module Text {

  /** Python's `str.isspace()`: the characters `split()` and `strip()` drop. */
  predicate IsSpace(c: char) {
    || c == ' '
    || '\t' <= c <= '\r'
    || '\U{1C}' <= c <= '\U{1F}'
    || c == '\U{85}'
    || c == '\U{A0}'
    || c == '\U{1680}'
    || '\U{2000}' <= c <= '\U{200A}'
    || c == '\U{2028}'
    || c == '\U{2029}'
    || c == '\U{202F}'
    || c == '\U{205F}'
    || c == '\U{3000}'
  }

  predicate AllSpace(s: string) {
    forall i :: 0 <= i < |s| ==> IsSpace(s[i])
  }

  lemma AllSpaceCons(c: char, t: string)
    requires IsSpace(c) && AllSpace(t)
    ensures AllSpace([c] + t)
  {
    forall i | 0 <= i < |t| + 1 ensures IsSpace(([c] + t)[i]) {
      if i > 0 {
        assert ([c] + t)[i] == t[i - 1];
      }
    }
  }

  predicate NoSpace(s: string) {
    forall i :: 0 <= i < |s| ==> !IsSpace(s[i])
  }

  /** Neither end of `s` is whitespace (vacuous for the empty string). */
  predicate Trimmed(s: string) {
    s == [] || (!IsSpace(s[0]) && !IsSpace(s[|s| - 1]))
  }

  predicate StartsWith(s: string, prefix: string) {
    |prefix| <= |s| && s[..|prefix|] == prefix
  }

  /** Python's `t in s` on strings: `t` occurs somewhere in `s`. */
  predicate Contains(s: string, t: string)
    decreases |s|
  {
    StartsWith(s, t) || (s != [] && Contains(s[1..], t))
  }

  // ---------------------------------------------------------------- strip

  /** `s.lstrip()`. */
  function TrimStart(s: string): (r: string)
    ensures |r| <= |s| && r == s[|s| - |r|..]
    ensures AllSpace(s[..|s| - |r|])
    ensures r == [] || !IsSpace(r[0])
    decreases |s|
  {
    if s != [] && IsSpace(s[0]) then
      var r := TrimStart(s[1..]);
      assert s[..|s| - |r|] == [s[0]] + s[1..][..|s| - 1 - |r|];
      AllSpaceCons(s[0], s[1..][..|s| - 1 - |r|]);
      r
    else s
  }

  /** `s.rstrip()`. */
  function TrimEnd(s: string): (r: string)
    ensures |r| <= |s| && r == s[..|r|]
    ensures AllSpace(s[|r|..])
    ensures r == [] || !IsSpace(r[|r| - 1])
    decreases |s|
  {
    if s != [] && IsSpace(s[|s| - 1]) then
      var r := TrimEnd(s[..|s| - 1]);
      assert s[|r|..] == s[..|s| - 1][|r|..] + [s[|s| - 1]];
      r
    else s
  }

  /** `s.strip()`. */
  function Strip(s: string): (r: string)
    ensures Trimmed(r)
  {
    TrimEnd(TrimStart(s))
  }

  /** A string with no whitespace at either end is its own strip. */
  lemma StripTrimmed(s: string)
    requires Trimmed(s)
    ensures Strip(s) == s
  {
  }

  /** `strip()` yields the empty string exactly for all-whitespace input. */
  lemma StripEmpty(s: string)
    ensures Strip(s) == [] <==> AllSpace(s)
  {
    var t := TrimStart(s);
    if Strip(s) == [] {
      assert t == [];
      assert s[..|s|] == s;
    }
  }

  /** A trailing non-space character survives `strip()`. */
  lemma StripKeepsLast(s: string)
    requires s != [] && !IsSpace(s[|s| - 1])
    ensures Strip(s) != [] && Strip(s)[|Strip(s)| - 1] == s[|s| - 1]
  {
    var t := TrimStart(s);
    assert t[|t| - 1] == s[|s| - 1];
  }

  // ------------------------------------------------------ counting chars

  /** The number of positions of `s` holding a character of `cs`. */
  function CountIn(s: string, cs: set<char>): nat
    decreases |s|
  {
    if s == [] then 0 else (if s[0] in cs then 1 else 0) + CountIn(s[1..], cs)
  }

  predicate SpaceFree(cs: set<char>) {
    forall c :: c in cs ==> !IsSpace(c)
  }

  lemma {:induction false} CountInConcat(a: string, b: string, cs: set<char>)
    ensures CountIn(a + b, cs) == CountIn(a, cs) + CountIn(b, cs)
    decreases |a|
  {
    if a == [] {
      assert a + b == b;
    } else {
      assert (a + b)[1..] == a[1..] + b;
      CountInConcat(a[1..], b, cs);
    }
  }

  lemma {:induction false} CountInAllSpace(s: string, cs: set<char>)
    requires SpaceFree(cs) && AllSpace(s)
    ensures CountIn(s, cs) == 0
    decreases |s|
  {
    if s != [] {
      CountInAllSpace(s[1..], cs);
    }
  }

  lemma CountInTrimStart(s: string, cs: set<char>)
    requires SpaceFree(cs)
    ensures CountIn(TrimStart(s), cs) == CountIn(s, cs)
  {
    var t := TrimStart(s);
    var pre := s[..|s| - |t|];
    assert s == pre + t;
    CountInConcat(pre, t, cs);
    CountInAllSpace(pre, cs);
  }

  lemma CountInTrimEnd(t: string, cs: set<char>)
    requires SpaceFree(cs)
    ensures CountIn(TrimEnd(t), cs) == CountIn(t, cs)
  {
    var r := TrimEnd(t);
    var post := t[|r|..];
    assert t == r + post;
    CountInConcat(r, post, cs);
    CountInAllSpace(post, cs);
  }

  /** `strip()` removes only whitespace, so it keeps every non-space character. */
  lemma CountInStrip(s: string, cs: set<char>)
    requires SpaceFree(cs)
    ensures CountIn(Strip(s), cs) == CountIn(s, cs)
  {
    CountInTrimStart(s, cs);
    CountInTrimEnd(TrimStart(s), cs);
  }


  // ------------------------------------------------- split() and join

  /** `sep.join(parts)`. */
  function Join(sep: string, parts: seq<string>): string
    decreases |parts|
  {
    if parts == [] then []
    else if |parts| == 1 then parts[0]
    else parts[0] + sep + Join(sep, parts[1..])
  }

  /** The length of the run of non-space characters that starts `s`. */
  function WordLength(s: string): (n: nat)
    ensures n <= |s| && NoSpace(s[..n]) && (n == |s| || IsSpace(s[n]))
    decreases |s|
  {
    if s == [] || IsSpace(s[0]) then 0 else 1 + WordLength(s[1..])
  }

  /** `s.split()`: the maximal runs of non-whitespace characters, in order. */
  function Words(s: string): (ws: seq<string>)
    ensures forall i :: 0 <= i < |ws| ==> ws[i] != [] && NoSpace(ws[i])
    decreases |s|
  {
    if s == [] then []
    else if IsSpace(s[0]) then Words(s[1..])
    else
      var n := WordLength(s);
      [s[..n]] + Words(s[n..])
  }

  lemma {:induction false} WordsEmpty(s: string)
    ensures Words(s) == [] <==> AllSpace(s)
    decreases |s|
  {
    if s != [] {
      WordsEmpty(s[1..]);
      if IsSpace(s[0]) {
        assert AllSpace(s) <==> AllSpace(s[1..]) by {
          if AllSpace(s[1..]) {
            forall i | 0 <= i < |s| ensures IsSpace(s[i]) {
              if i > 0 { assert s[i] == s[1..][i - 1]; }
            }
          }
        }
      }
    }
  }

  /** A join of non-empty pieces starts with the first piece and ends with the last. */
  lemma {:induction false} JoinEnds(sep: string, parts: seq<string>)
    requires parts != []
    requires forall i :: 0 <= i < |parts| ==> parts[i] != []
    ensures Join(sep, parts) != []
    ensures Join(sep, parts)[0] == parts[0][0]
    ensures Join(sep, parts)[|Join(sep, parts)| - 1] == parts[|parts| - 1][|parts[|parts| - 1]| - 1]
    decreases |parts|
  {
    if |parts| > 1 {
      JoinEnds(sep, parts[1..]);
    }
  }

  /** `" ".join(s.split())`: whitespace runs collapsed to one space, ends dropped. */
  function Collapse(s: string): (r: string)
    ensures r == [] <==> AllSpace(s)
    ensures Trimmed(r)
  {
    WordsEmpty(s);
    var ws := Words(s);
    if ws != [] then JoinEnds(" ", ws); Join(" ", ws) else Join(" ", ws)
  }

  /** The sum of `CountIn` over a sequence of strings. */
  function CountInAll(parts: seq<string>, cs: set<char>): nat
    decreases |parts|
  {
    if parts == [] then 0 else CountIn(parts[0], cs) + CountInAll(parts[1..], cs)
  }

  lemma {:induction false} CountInJoin(sep: string, parts: seq<string>, cs: set<char>)
    requires CountIn(sep, cs) == 0
    ensures CountIn(Join(sep, parts), cs) == CountInAll(parts, cs)
    decreases |parts|
  {
    if |parts| > 1 {
      CountInJoin(sep, parts[1..], cs);
      CountInConcat(parts[0] + sep, Join(sep, parts[1..]), cs);
      CountInConcat(parts[0], sep, cs);
    }
  }

  lemma {:induction false} CountInWords(s: string, cs: set<char>)
    requires SpaceFree(cs)
    ensures CountIn(s, cs) == CountInAll(Words(s), cs)
    decreases |s|
  {
    if s != [] {
      if IsSpace(s[0]) {
        CountInWords(s[1..], cs);
      } else {
        var n := WordLength(s);
        assert s == s[..n] + s[n..];
        CountInConcat(s[..n], s[n..], cs);
        CountInWords(s[n..], cs);
        var ws := [s[..n]] + Words(s[n..]);
        assert ws[0] == s[..n] && ws[1..] == Words(s[n..]);
      }
    }
  }

  /** Collapsing whitespace keeps every non-space character. */
  lemma CountInCollapse(s: string, cs: set<char>)
    requires SpaceFree(cs) && ' ' !in cs
    ensures CountIn(Collapse(s), cs) == CountIn(s, cs)
  {
    CountInWords(s, cs);
    CountInJoin(" ", Words(s), cs);
  }

  // ------------------------------------------------------ splitlines()

  /** The line boundaries of Python's `str.splitlines()`. */
  predicate IsLineBreak(c: char) {
    || c == '\n' || c == '\r' || c == '\U{0B}' || c == '\U{0C}'
    || '\U{1C}' <= c <= '\U{1E}' || c == '\U{85}' || c == '\U{2028}' || c == '\U{2029}'
  }

  predicate NoLineBreak(s: string) {
    forall i :: 0 <= i < |s| ==> !IsLineBreak(s[i])
  }

  function LineLength(s: string): (n: nat)
    ensures n <= |s| && NoLineBreak(s[..n]) && (n == |s| || IsLineBreak(s[n]))
    decreases |s|
  {
    if s == [] || IsLineBreak(s[0]) then 0 else 1 + LineLength(s[1..])
  }

  /** `s.splitlines()`: lines without their boundaries; `"\r\n"` is one boundary. */
  function SplitLines(s: string): (lines: seq<string>)
    ensures forall i :: 0 <= i < |lines| ==> NoLineBreak(lines[i])
    decreases |s|
  {
    if s == [] then []
    else
      var n := LineLength(s);
      if n == |s| then [s]
      else
        var skip := if s[n] == '\r' && n + 1 < |s| && s[n + 1] == '\n' then 2 else 1;
        [s[..n]] + SplitLines(s[n + skip..])
  }

  // ---------------------------------------------------- lower(), split(c, 1)

  /** ASCII case folding of one character. */
  function LowerChar(c: char): char {
    if 'A' <= c <= 'Z' then (c as int + 32) as char else c
  }

  /** `s.lower()`, restricted to ASCII letters. */
  function Lower(s: string): (r: string)
    ensures |r| == |s| && forall i :: 0 <= i < |s| ==> r[i] == LowerChar(s[i])
    decreases |s|
  {
    if s == [] then [] else [LowerChar(s[0])] + Lower(s[1..])
  }

  /** The position of the first `c` in `s`, or `|s|` if there is none. */
  function IndexOf(s: string, c: char): (i: nat)
    ensures i <= |s| && (i < |s| <==> c in s)
    ensures i < |s| ==> s[i] == c
    ensures forall k :: 0 <= k < i ==> s[k] != c
    decreases |s|
  {
    if s == [] then 0 else if s[0] == c then 0 else 1 + IndexOf(s[1..], c)
  }

  /** `s.split(c, 1)[1]`: everything after the first `c`. */
  function AfterFirst(s: string, c: char): (r: string)
    requires c in s
    ensures |r| < |s|
    ensures s == s[..|s| - |r| - 1] + [c] + r && c !in s[..|s| - |r| - 1]
  {
    var i := IndexOf(s, c);
    assert s == s[..i] + [c] + s[i + 1..];
    s[i + 1..]
  }

  // ----------------------------------------------------------- replace()

  /** `s.replace(pat, rep)`: leftmost, non-overlapping occurrences. */
  function Replace(s: string, pat: string, rep: string): string
    requires pat != []
    decreases |s|
  {
    if StartsWith(s, pat) then rep + Replace(s[|pat|..], pat, rep)
    else if s == [] then []
    else [s[0]] + Replace(s[1..], pat, rep)
  }

  /** A string without an occurrence of the pattern is left as it is. */
  lemma {:induction false} ReplaceAbsent(s: string, pat: string, rep: string)
    requires pat != [] && !Contains(s, pat)
    ensures Replace(s, pat, rep) == s
    decreases |s|
  {
    if s != [] {
      ReplaceAbsent(s[1..], pat, rep);
    }
  }

  // ------------------------------------------------------- decimal digits

  function DigitChar(d: nat): char
    requires d < 10
  {
    ('0' as int + d) as char
  }

  /** `str(n)` for a natural number. */
  function NatToString(n: nat): (r: string)
    ensures |r| >= 1 && (n >= 10 ==> |r| >= 2)
    decreases n
  {
    if n < 10 then [DigitChar(n)] else NatToString(n / 10) + [DigitChar(n % 10)]
  }

  /** `f"{n:0<width>d}"`: `str(n)` padded on the left with zeros to `width`. */
  function ZeroPad(n: nat, width: nat): (r: string)
    ensures |r| >= width
  {
    var d := NatToString(n);
    if |d| >= width then d else seq(width - |d|, _ => '0') + d
  }
}
