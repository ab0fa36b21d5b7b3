/**
 * `shorten_description`: the description is whitespace-collapsed and cut
 * after its second sentence. A sentence ends at the first `.`, `!` or `?`
 * after the previous one; a tail without such a character counts as a
 * sentence only when fewer than two sentences were closed before it.
 */
module Descriptions {
  import opened Text

  /** The characters of the `".!?"` test. */
  const Terminators: set<char> := {'.', '!', '?'}

  /** The buffer after reading `s`: what follows the last terminator. */
  function Open(s: string): string
    decreases |s|
  {
    if s == [] then []
    else if s[|s| - 1] in Terminators then []
    else Open(s[..|s| - 1]) + [s[|s| - 1]]
  }

  /** The stripped sentences closed while reading `s`, in order. */
  function Closed(s: string): seq<string>
    decreases |s|
  {
    if s == [] then []
    else
      var p := s[..|s| - 1];
      if s[|s| - 1] in Terminators then Closed(p) + [Strip(Open(p) + [s[|s| - 1]])] else Closed(p)
  }

  /** The generator `sentence for sentence in sentences if sentence`. */
  function NonEmpty(parts: seq<string>): (r: seq<string>)
    ensures forall i :: 0 <= i < |r| ==> r[i] != []
    decreases |parts|
  {
    if parts == [] then []
    else (if parts[0] != [] then [parts[0]] else []) + NonEmpty(parts[1..])
  }

  /**
   * The list `sentences` when the loop over the collapsed text `cleaned`
   * stops: the first two closed sentences, or all of them followed by the
   * stripped unfinished tail.
   */
  function Sentences(cleaned: string): seq<string> {
    var closed := Closed(cleaned);
    if |closed| >= 2 then closed[..2]
    else if Open(cleaned) != [] then closed + [Strip(Open(cleaned))]
    else closed
  }

  /** What `shorten_description(text)` returns. */
  function Shortened(text: string): string {
    var cleaned := Collapse(text);
    if cleaned == [] then [] else Join(" ", NonEmpty(Sentences(cleaned)))
  }

  /** `shorten_description`, with its character loop. */
  method ShortenDescription(text: string) returns (r: string)
    ensures r == Shortened(text)
  {
    var cleaned := Collapse(text);
    if cleaned == [] {
      return [];
    }
    var sentences: seq<string> := [];
    var buffer := "";
    var i := 0;
    while i < |cleaned|
      invariant 0 <= i <= |cleaned|
      invariant sentences == Closed(cleaned[..i]) && buffer == Open(cleaned[..i])
      invariant |sentences| < 2
    {
      var ch := cleaned[i];
      ReadStep(cleaned, i);
      buffer := buffer + [ch];
      if ch in Terminators {
        sentences := sentences + [Strip(buffer)];
        buffer := "";
      }
      i := i + 1;
      if |sentences| == 2 {
        break;
      }
    }
    ClosedPrefix(cleaned, i);
    if i == |cleaned| {
      assert cleaned[..i] == cleaned;
    }
    if buffer != [] && |sentences| < 2 {
      sentences := sentences + [Strip(buffer)];
    }
    r := Join(" ", NonEmpty(sentences));
  }

  // ------------------------------------------------------------ lemmas

  /** Reading one more character: a terminator closes the buffer, anything else extends it. */
  lemma ReadStep(s: string, i: int)
    requires 0 <= i < |s|
    ensures Open(s[..i + 1]) == if s[i] in Terminators then [] else Open(s[..i]) + [s[i]]
    ensures Closed(s[..i + 1]) ==
              if s[i] in Terminators then Closed(s[..i]) + [Strip(Open(s[..i]) + [s[i]])] else Closed(s[..i])
  {
    assert s[..i + 1][..i] == s[..i];
  }

  /** The sentences closed in a prefix are a prefix of those closed in the whole. */
  lemma {:induction false} ClosedPrefix(s: string, i: nat)
    requires i <= |s|
    ensures |Closed(s[..i])| <= |Closed(s)| && Closed(s)[..|Closed(s[..i])|] == Closed(s[..i])
    decreases |s| - i
  {
    if i == |s| {
      assert s[..i] == s;
    } else {
      var p := s[..|s| - 1];
      assert p[..i] == s[..i];
      ClosedPrefix(p, i);
    }
  }

  lemma TerminatorsNotSpace()
    ensures SpaceFree(Terminators) && ' ' !in Terminators
  {
  }

  lemma {:induction false} CountInSnoc(s: string, c: char, cs: set<char>)
    ensures CountIn(s + [c], cs) == CountIn(s, cs) + (if c in cs then 1 else 0)
  {
    CountInConcat(s, [c], cs);
    assert [c][1..] == [];
  }

  /** A closed sentence: one terminator, at its end. */
  predicate IsSentence(x: string) {
    x != [] && CountIn(x, Terminators) == 1 && x[|x| - 1] in Terminators
  }

  /** The open tail holds no terminator, and a text holds as many terminators as it closes sentences. */
  lemma {:induction false} ClosedCount(s: string)
    ensures CountIn(Open(s), Terminators) == 0
    ensures CountIn(s, Terminators) == |Closed(s)|
    decreases |s|
  {
    if s != [] {
      var p, c := s[..|s| - 1], s[|s| - 1];
      assert s == p + [c];
      ClosedCount(p);
      CountInSnoc(p, c, Terminators);
      if c !in Terminators {
        CountInSnoc(Open(p), c, Terminators);
      }
    }
  }

  /** The piece closed by a terminator is a sentence. */
  lemma ClosedPiece(p: string, c: char)
    requires c in Terminators
    ensures IsSentence(Strip(Open(p) + [c]))
  {
    ClosedCount(p);
    PieceSentence(Open(p), c);
  }

  /** A buffer without terminators followed by a terminator strips to a sentence. */
  lemma PieceSentence(buffer: string, c: char)
    requires CountIn(buffer, Terminators) == 0 && c in Terminators
    ensures IsSentence(Strip(buffer + [c]))
  {
    var piece := buffer + [c];
    TerminatorsNotSpace();
    assert !IsSpace(c);
    CountInSnoc(buffer, c, Terminators);
    assert piece[|piece| - 1] == c;
    CountInStrip(piece, Terminators);
    StripKeepsLast(piece);
  }

  predicate AllSentences(xs: seq<string>) {
    forall k :: 0 <= k < |xs| ==> IsSentence(xs[k])
  }

  lemma AllSentencesSnoc(xs: seq<string>, x: string)
    requires AllSentences(xs) && IsSentence(x)
    ensures AllSentences(xs + [x])
  {
    forall k | 0 <= k < |xs + [x]| ensures IsSentence((xs + [x])[k]) {
      if k < |xs| {
        assert (xs + [x])[k] == xs[k];
      }
    }
  }

  /** Every closed sentence is non-empty, holds exactly one terminator and ends with it. */
  lemma {:induction false} ClosedShape(s: string)
    ensures AllSentences(Closed(s))
    decreases |s|
  {
    if s != [] {
      var p, c := s[..|s| - 1], s[|s| - 1];
      ClosedShape(p);
      if c in Terminators {
        ClosedPiece(p, c);
        AllSentencesSnoc(Closed(p), Strip(Open(p) + [c]));
      }
    }
  }

  /** Without a terminator nothing closes and the buffer is the whole text. */
  lemma {:induction false} OpenWithoutTerminator(s: string)
    requires CountIn(s, Terminators) == 0
    ensures Open(s) == s
    decreases |s|
  {
    if s != [] {
      var p, c := s[..|s| - 1], s[|s| - 1];
      assert s == p + [c];
      CountInSnoc(p, c, Terminators);
      OpenWithoutTerminator(p);
    }
  }

  lemma {:induction false} NonEmptyKeepsAll(parts: seq<string>)
    requires forall i :: 0 <= i < |parts| ==> parts[i] != []
    ensures NonEmpty(parts) == parts
    decreases |parts|
  {
    if parts != [] {
      NonEmptyKeepsAll(parts[1..]);
      assert parts == [parts[0]] + parts[1..];
    }
  }

  lemma {:induction false} CountInAllNonEmpty(parts: seq<string>, cs: set<char>)
    ensures CountInAll(NonEmpty(parts), cs) == CountInAll(parts, cs)
    decreases |parts|
  {
    if parts != [] {
      CountInAllNonEmpty(parts[1..], cs);
      CountInAllConcat((if parts[0] != [] then [parts[0]] else []), NonEmpty(parts[1..]), cs);
    }
  }

  lemma {:induction false} CountInAllConcat(a: seq<string>, b: seq<string>, cs: set<char>)
    ensures CountInAll(a + b, cs) == CountInAll(a, cs) + CountInAll(b, cs)
    decreases |a|
  {
    if a == [] {
      assert a + b == b;
    } else {
      assert (a + b)[1..] == a[1..] + b;
      CountInAllConcat(a[1..], b, cs);
    }
  }

  lemma {:induction false} CountInAllOnes(parts: seq<string>, cs: set<char>)
    requires forall k :: 0 <= k < |parts| ==> CountIn(parts[k], cs) == 1
    ensures CountInAll(parts, cs) == |parts|
    decreases |parts|
  {
    if parts != [] {
      CountInAllOnes(parts[1..], cs);
    }
  }

  /**
   * The result keeps the first two sentence terminators of the text and
   * drops every later one: it holds `min(2, n)` of them when the text holds `n`.
   */
  lemma ShortenedTerminators(text: string)
    ensures CountIn(Shortened(text), Terminators) ==
              if CountIn(text, Terminators) < 2 then CountIn(text, Terminators) else 2
  {
    var cleaned := Collapse(text);
    TerminatorsNotSpace();
    CountInCollapse(text, Terminators);
    if cleaned != [] {
      var ss := Sentences(cleaned);
      CountInJoin(" ", NonEmpty(ss), Terminators);
      CountInAllNonEmpty(ss, Terminators);
      SentencesTerminators(cleaned);
    }
  }

  /** The sentences kept hold the first two terminators of the text, or all of them. */
  lemma SentencesTerminators(cleaned: string)
    ensures CountInAll(Sentences(cleaned), Terminators) ==
              if CountIn(cleaned, Terminators) < 2 then CountIn(cleaned, Terminators) else 2
  {
    var closed := Closed(cleaned);
    ClosedCount(cleaned);
    ClosedShape(cleaned);
    if |closed| >= 2 {
      SentencesOnes(closed[..2]);
    } else {
      SentencesOnes(closed);
      if Open(cleaned) != [] {
        TerminatorsNotSpace();
        CountInStrip(Open(cleaned), Terminators);
        CountInAllConcat(closed, [Strip(Open(cleaned))], Terminators);
      }
    }
  }

  lemma SentencesOnes(xs: seq<string>)
    requires AllSentences(xs)
    ensures CountInAll(xs, Terminators) == |xs|
  {
    assert forall k :: 0 <= k < |xs| ==> IsSentence(xs[k]);
    CountInAllOnes(xs, Terminators);
  }

  /** A trimmed text without a terminator is a single unfinished sentence. */
  lemma SentencesWithoutTerminator(cleaned: string)
    requires cleaned != [] && Trimmed(cleaned) && CountIn(cleaned, Terminators) == 0
    ensures Sentences(cleaned) == [cleaned]
  {
    ClosedCount(cleaned);
    OpenWithoutTerminator(cleaned);
    StripTrimmed(cleaned);
    assert Closed(cleaned) == [];
    assert [] + [cleaned] == [cleaned];
  }

  /** A text without a terminator is only whitespace-collapsed. */
  lemma ShortenedNoTerminator(text: string)
    requires CountIn(text, Terminators) == 0
    ensures Shortened(text) == Collapse(text)
  {
    var cleaned := Collapse(text);
    TerminatorsNotSpace();
    CountInCollapse(text, Terminators);
    if cleaned != [] {
      SentencesWithoutTerminator(cleaned);
      NonEmptyKeepsAll([cleaned]);
    }
  }

  /** The result is empty exactly when the text is only whitespace. */
  lemma ShortenedEmpty(text: string)
    ensures Shortened(text) == [] <==> AllSpace(text)
  {
    var cleaned := Collapse(text);
    if cleaned != [] {
      TerminatorsNotSpace();
      ClosedCount(cleaned);
      ClosedShape(cleaned);
      var closed := Closed(cleaned);
      var ss := Sentences(cleaned);
      if |closed| == 0 {
        SentencesWithoutTerminator(cleaned);
      } else {
        assert IsSentence(closed[0]);
        assert ss[0] == closed[0];
      }
      assert ss[0] != [];
      assert NonEmpty(ss) == [ss[0]] + NonEmpty(ss[1..]);
      JoinEnds(" ", NonEmpty(ss));
    }
  }

  /** A text of two or more sentences is cut right after the second terminator. */
  lemma ShortenedTwoSentences(text: string)
    requires CountIn(text, Terminators) >= 2
    ensures var r := Shortened(text); r != [] && r[|r| - 1] in Terminators
  {
    var cleaned := Collapse(text);
    TerminatorsNotSpace();
    CountInCollapse(text, Terminators);
    ClosedCount(cleaned);
    ClosedShape(cleaned);
    var ss := Sentences(cleaned);
    assert ss == Closed(cleaned)[..2];
    assert IsSentence(ss[0]) && IsSentence(ss[1]);
    NonEmptyKeepsAll(ss);
    JoinEnds(" ", ss);
  }
}
