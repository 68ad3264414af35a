/**
 * Masking reference spans in a canonical title (src/hw_radar/matching/normalize.py:182-212, 270-403):
 * what follows "compatible with", "replacement for" and the like names another product and is blanked.
 */
module Masking {
  import opened Prelude

  // ── Phrase patterns ───────────────────────────────────────────────────────

  predicate Word(c: char) {
    'a' <= c <= 'z' || '0' <= c <= '9' || 'A' <= c <= 'Z' || c == '_'
  }

  predicate AllWord(s: string) {
    forall i :: 0 <= i < |s| ==> Word(s[i])
  }

  /** A word that opens a span only as the first token, unless one of the excluded words follows it. */
  datatype Leading = Leading(word: string, exclusions: seq<string>)

  datatype Pattern = Pattern(phrases: seq<string>, leading: seq<Leading>)

  /** A phrase is at least two characters of words joined by single spaces. */
  predicate PhraseShaped(p: string) {
    && |p| >= 2 && Word(p[0]) && Word(p[|p| - 1])
    && (forall i :: 0 <= i < |p| ==> Word(p[i]) || p[i] == ' ')
    && (forall i :: 0 <= i < |p| - 1 ==> !(p[i] == ' ' && p[i + 1] == ' '))
  }

  /** The first word of a phrase is x. */
  predicate Opens(x: string, p: string) {
    x <= p && (|p| > |x| ==> !Word(p[|x|]))
  }

  predicate WellFormed(pat: Pattern) {
    && (forall p :: p in pat.phrases ==> PhraseShaped(p))
    && (forall l :: l in pat.leading ==> |l.word| >= 1 && AllWord(l.word))
    && (forall l, x :: l in pat.leading && x in l.exclusions ==>
          |x| >= 1 && AllWord(x) && forall p :: p in pat.phrases ==> !Opens(x, p))
  }

  /** A word boundary between positions i - 1 and i. */
  predicate Edge(t: string, i: nat)
    requires i <= |t|
  {
    (i > 0 && Word(t[i - 1])) != (i < |t| && Word(t[i]))
  }

  predicate PhraseAt(t: string, i: nat, p: string) {
    i + |p| <= |t| && t[i..i + |p|] == p && Edge(t, i) && Edge(t, i + |p|)
  }

  predicate Blank(t: string, i: nat, k: nat) {
    i <= k <= |t| && forall j :: i <= j < k ==> t[j] == ' '
  }

  /** Spaces and then the excluded word follow position i. */
  predicate Follows(t: string, i: nat, k: nat, x: string) {
    i < k && Blank(t, i, k) && k + |x| <= |t| && t[k..k + |x|] == x && Edge(t, k + |x|)
  }

  predicate Excluded(t: string, i: nat, exclusions: seq<string>) {
    exists k, x :: i < k <= |t| && x in exclusions && Follows(t, i, k, x)
  }

  predicate LeadingAt(t: string, l: Leading) {
    |l.word| <= |t| && t[..|l.word|] == l.word && Edge(t, |l.word|) && !Excluded(t, |l.word|, l.exclusions)
  }

  /** The end of the first phrase of the list that matches at i. */
  function PhraseEnd(t: string, i: nat, phrases: seq<string>): Option<nat> {
    if phrases == [] then None
    else if PhraseAt(t, i, phrases[0]) then Some(i + |phrases[0]|)
    else PhraseEnd(t, i, phrases[1..])
  }

  function LeadingEnd(t: string, leading: seq<Leading>): Option<nat> {
    if leading == [] then None
    else if LeadingAt(t, leading[0]) then Some(|leading[0].word|)
    else LeadingEnd(t, leading[1..])
  }

  /** Where a match starting at i ends: a leading word at the very start, else the first phrase listed. */
  function MatchEnd(t: string, i: nat, pat: Pattern): Option<nat> {
    if i == 0 && LeadingEnd(t, pat.leading).Some? then LeadingEnd(t, pat.leading) else PhraseEnd(t, i, pat.phrases)
  }

  /** The leftmost match at or after pos. */
  function Search(t: string, pos: nat, pat: Pattern): Option<(nat, nat)>
    requires pos <= |t|
    decreases |t| - pos
  {
    if MatchEnd(t, pos, pat).Some? then Some((pos, MatchEnd(t, pos, pat).value))
    else if pos == |t| then None
    else Search(t, pos + 1, pat)
  }

  // ── Spans ─────────────────────────────────────────────────────────────────

  /** A clause boundary outside parentheses. */
  predicate ClauseEnds(t: string, i: nat)
    requires i < |t|
  {
    (i + 3 <= |t| && t[i..i + 3] == " - ") || t[i] == ',' || t[i] == ';' || t[i] == '|'
  }

  function Deeper(depth: nat, c: char): nat {
    if c == '(' then depth + 1 else if c == ')' && depth > 0 then depth - 1 else depth
  }

  /** How many parentheses a text leaves open; a closing one with nothing open is ignored. */
  function Depth(t: string): nat {
    if t == "" then 0 else Deeper(Depth(t[..|t| - 1]), t[|t| - 1])
  }

  method OpenParenDepth(t: string) returns (depth: nat)
    ensures depth == Depth(t)
  {
    depth := 0;
    for i := 0 to |t|
      invariant depth == Depth(t[..i])
    {
      assert t[..i + 1][..i] == t[..i];
      if t[i] == '(' {
        depth := depth + 1;
      } else if t[i] == ')' && depth > 0 {
        depth := depth - 1;
      }
    }
    assert t[..|t|] == t;
  }

  /** The scan of a span stops at i with this many of its own parentheses open. */
  predicate StopsAt(t: string, i: nat, depth: nat, inside: bool)
    requires i < |t|
  {
    depth == 0 && if t[i] == '(' then false else if t[i] == ')' then inside else ClauseEnds(t, i)
  }

  function SpanEndFrom(t: string, i: nat, depth: nat, inside: bool): (e: nat)
    requires i <= |t|
    ensures i <= e <= |t|
    decreases |t| - i
  {
    if i == |t| || StopsAt(t, i, depth, inside) then i else SpanEndFrom(t, i + 1, Deeper(depth, t[i]), inside)
  }

  /** The exclusive end of a span whose phrase ends at `start`. */
  method SpanEnd(t: string, start: nat, inside: bool) returns (e: nat)
    requires start <= |t|
    ensures e == SpanEndFrom(t, start, 0, inside)
  {
    var depth: nat := 0;
    for i := start to |t|
      invariant SpanEndFrom(t, start, 0, inside) == SpanEndFrom(t, i, depth, inside)
    {
      if t[i] == '(' {
        depth := depth + 1;
      } else if t[i] == ')' {
        if depth > 0 {
          depth := depth - 1;
        } else if inside {
          return i;
        }
      } else if depth == 0 && ClauseEnds(t, i) {
        return i;
      }
    }
    e := |t|;
  }

  function Spaces(n: nat): (s: string)
    ensures |s| == n && forall i :: 0 <= i < n ==> s[i] == ' '
  {
    seq(n, _ => ' ')
  }

  /** The end of the span a match opens. */
  function EndOf(t: string, m: (nat, nat)): (e: nat)
    requires m.0 <= m.1 <= |t|
    ensures m.1 <= e <= |t|
  {
    SpanEndFrom(t, m.1, 0, Depth(t[..m.0]) > 0)
  }

  lemma {:induction false} PhraseEndIsLater(t: string, i: nat, phrases: seq<string>)
    requires PhraseEnd(t, i, phrases).Some?
    ensures exists p :: p in phrases && PhraseAt(t, i, p) && PhraseEnd(t, i, phrases) == Some(i + |p|)
  {
    if PhraseAt(t, i, phrases[0]) {
      assert phrases[0] in phrases;
    } else {
      PhraseEndIsLater(t, i, phrases[1..]);
      var p :| p in phrases[1..] && PhraseAt(t, i, p) && PhraseEnd(t, i, phrases[1..]) == Some(i + |p|);
      assert p in phrases;
    }
  }

  lemma {:induction false} LeadingEndIsLater(t: string, leading: seq<Leading>)
    requires LeadingEnd(t, leading).Some?
    ensures exists l :: l in leading && LeadingAt(t, l) && LeadingEnd(t, leading) == Some(|l.word|)
  {
    if LeadingAt(t, leading[0]) {
      assert leading[0] in leading;
    } else {
      LeadingEndIsLater(t, leading[1..]);
      var l :| l in leading[1..] && LeadingAt(t, l) && LeadingEnd(t, leading[1..]) == Some(|l.word|);
      assert l in leading;
    }
  }

  /** A match is not empty and lies within the text; one past the start is a phrase. */
  lemma MatchIsProper(t: string, i: nat, pat: Pattern)
    requires WellFormed(pat) && MatchEnd(t, i, pat).Some?
    ensures i < MatchEnd(t, i, pat).value <= |t| && Word(t[i])
    ensures i > 0 ==> i + 2 <= MatchEnd(t, i, pat).value && Edge(t, i)
  {
    if i == 0 && LeadingEnd(t, pat.leading).Some? {
      LeadingEndIsLater(t, pat.leading);
    } else {
      PhraseEndIsLater(t, i, pat.phrases);
      var p :| p in pat.phrases && PhraseAt(t, i, p) && PhraseEnd(t, i, pat.phrases) == Some(i + |p|);
      assert p[0] == t[i];
    }
  }

  lemma {:induction false} SearchFinds(t: string, pos: nat, pat: Pattern)
    requires WellFormed(pat) && pos <= |t|
    ensures var m := Search(t, pos, pat);
            && (m.Some? ==> pos <= m.value.0 < m.value.1 <= |t| && MatchEnd(t, m.value.0, pat) == Some(m.value.1))
            && (forall i :: pos <= i <= |t| && MatchEnd(t, i, pat).Some? ==> m.Some? && m.value.0 <= i)
    decreases |t| - pos
  {
    if MatchEnd(t, pos, pat).Some? {
      MatchIsProper(t, pos, pat);
    } else if pos < |t| {
      SearchFinds(t, pos + 1, pat);
    }
  }

  /** A letter, digit or underscore stands at n. */
  predicate WordAt(t: string, n: int) {
    0 <= n < |t| && (t[n] == '_' || 'a' <= t[n] <= 'z' || 'A' <= t[n] <= 'Z' || '0' <= t[n] <= '9')
  }

  /** The words of p stand at i, and no word character touches them on either side. */
  predicate Stands(t: string, i: nat, p: string) {
    i + |p| <= |t| && t[i..i + |p|] == p && !WordAt(t, i - 1) && !WordAt(t, i + |p|)
  }

  /** Only spaces, at least one, lie between `from` and k, where x stands and ends as a word. */
  predicate SpacedThen(t: string, from: nat, k: nat, x: string) {
    from < k && k + |x| <= |t| && t[k..k + |x|] == x && !WordAt(t, k + |x|) && forall n :: from <= n < k ==> t[n] == ' '
  }

  ghost predicate ThenExcluded(t: string, from: nat, exclusions: seq<string>) {
    exists k: nat, x :: x in exclusions && SpacedThen(t, from, k, x)
  }

  lemma StandsIsPhraseAt(t: string, i: nat, p: string)
    requires |p| >= 1 && Word(p[0]) && Word(p[|p| - 1])
    ensures PhraseAt(t, i, p) <==> Stands(t, i, p)
  {
    if i + |p| <= |t| && t[i..i + |p|] == p {
      assert t[i..i + |p|][0] == t[i] && t[i..i + |p|][|p| - 1] == t[i + |p| - 1];
    }
  }

  lemma ExcludedIs(t: string, i: nat, exclusions: seq<string>)
    requires forall x :: x in exclusions ==> |x| >= 1 && AllWord(x)
    ensures Excluded(t, i, exclusions) <==> ThenExcluded(t, i, exclusions)
  {
    forall k: nat, x | x in exclusions ensures k <= |t| && Follows(t, i, k, x) <==> SpacedThen(t, i, k, x) {
      if k + |x| <= |t| && t[k..k + |x|] == x { assert t[k..k + |x|][|x| - 1] == t[k + |x| - 1]; }
    }
    if Excluded(t, i, exclusions) {
      var k, x :| i < k <= |t| && x in exclusions && Follows(t, i, k, x);
      assert SpacedThen(t, i, k, x);
    }
    if ThenExcluded(t, i, exclusions) {
      var k: nat, x :| x in exclusions && SpacedThen(t, i, k, x);
      assert Follows(t, i, k, x);
    }
  }

  /**
   * A reference is exactly a listed phrase standing as whole words, or a leading word standing at the
   * very start without one of its excluded words right after it.
   */
  lemma MatchedExactlyWhen(t: string, i: nat, pat: Pattern)
    requires WellFormed(pat)
    ensures MatchEnd(t, i, pat).Some? <==>
              || (exists p :: p in pat.phrases && Stands(t, i, p))
              || (i == 0 && exists l :: l in pat.leading && Stands(t, 0, l.word) && !ThenExcluded(t, |l.word|, l.exclusions))
  {
    forall p | p in pat.phrases ensures PhraseAt(t, i, p) <==> Stands(t, i, p) { StandsIsPhraseAt(t, i, p); }
    forall l | l in pat.leading
      ensures LeadingAt(t, l) <==> Stands(t, 0, l.word) && !ThenExcluded(t, |l.word|, l.exclusions)
    {
      ExcludedIs(t, |l.word|, l.exclusions);
      if |l.word| <= |t| && t[..|l.word|] == l.word { assert t[..|l.word|][|l.word| - 1] == t[|l.word| - 1]; }
    }
    if MatchEnd(t, i, pat).Some? {
      if i == 0 && LeadingEnd(t, pat.leading).Some? { LeadingEndIsLater(t, pat.leading); } else { PhraseEndIsLater(t, i, pat.phrases); }
    }
    if p :| p in pat.phrases && Stands(t, i, p) { PhraseIsFound(t, i, pat.phrases, p); }
    if i == 0 {
      if l :| l in pat.leading && LeadingAt(t, l) { LeadingIsFound(t, pat.leading, l); }
    }
  }

  /** The text from pos on with every reference span blanked. */
  function MaskFrom(t: string, pos: nat, pat: Pattern): string
    requires WellFormed(pat) && pos <= |t|
    decreases |t| - pos
  {
    SearchFinds(t, pos, pat);
    var m := Search(t, pos, pat);
    if m.None? then t[pos..]
    else t[pos..m.value.0] + Spaces(EndOf(t, m.value) - m.value.0) + MaskFrom(t, EndOf(t, m.value), pat)
  }

  function Mask(t: string, pat: Pattern): string
    requires WellFormed(pat)
  {
    MaskFrom(t, 0, pat)
  }

  /** What one span adds to the pieces. */
  lemma OneSpan(masked: string, t: string, pos: nat, pat: Pattern, m: (nat, nat), e: nat, longer: string)
    requires WellFormed(pat) && pos <= |t| && Search(t, pos, pat) == Some(m)
    requires pos <= m.0 < m.1 <= |t| && e == EndOf(t, m)
    requires longer == masked + t[pos..m.0] + Spaces(e - m.0)
    ensures longer + MaskFrom(t, e, pat) == masked + MaskFrom(t, pos, pat)
  {
    assert MaskFrom(t, pos, pat) == t[pos..m.0] + Spaces(e - m.0) + MaskFrom(t, e, pat);
  }

  /** Blank every reference span, left to right. */
  method MaskReferenceSpans(t: string, pat: Pattern) returns (masked: string)
    requires WellFormed(pat)
    ensures masked == Mask(t, pat)
  {
    var pos: nat := 0;
    masked := "";
    var m := Search(t, pos, pat);
    while m.Some?
      invariant pos <= |t| && m == Search(t, pos, pat)
      invariant masked + MaskFrom(t, pos, pat) == Mask(t, pat)
      decreases |t| - pos
    {
      SearchFinds(t, pos, pat);
      var depth := OpenParenDepth(t[..m.value.0]);
      var e := SpanEnd(t, m.value.1, depth > 0);
      var longer := masked + t[pos..m.value.0] + Spaces(e - m.value.0);
      OneSpan(masked, t, pos, pat, m.value, e, longer);
      masked := longer;
      pos := e;
      m := Search(t, pos, pat);
    }
    assert MaskFrom(t, pos, pat) == t[pos..];
    masked := masked + t[pos..];
  }

  // ── Which characters are masked ───────────────────────────────────────────

  /** Position j lies in a span found from pos on. */
  predicate Covered(t: string, pos: nat, pat: Pattern, j: nat)
    requires WellFormed(pat) && pos <= |t|
    decreases |t| - pos
  {
    SearchFinds(t, pos, pat);
    var m := Search(t, pos, pat);
    m.Some? && m.value.0 <= j && (j < EndOf(t, m.value) || Covered(t, EndOf(t, m.value), pat, j))
  }

  /** Masking keeps the length, and changes a character only to a space and only inside a span. */
  lemma {:induction false} MaskedCharacters(t: string, pos: nat, pat: Pattern)
    requires WellFormed(pat) && pos <= |t|
    ensures |MaskFrom(t, pos, pat)| == |t| - pos
    ensures forall j :: pos <= j < |t| ==>
              MaskFrom(t, pos, pat)[j - pos] == if Covered(t, pos, pat, j) then ' ' else t[j]
    decreases |t| - pos
  {
    SearchFinds(t, pos, pat);
    var m := Search(t, pos, pat);
    if m.Some? {
      var e := EndOf(t, m.value);
      MaskedCharacters(t, e, pat);
      var head, gap, tail := t[pos..m.value.0], Spaces(e - m.value.0), MaskFrom(t, e, pat);
      forall j | pos <= j < |t|
        ensures MaskFrom(t, pos, pat)[j - pos] == if Covered(t, pos, pat, j) then ' ' else t[j]
      {
        if j < m.value.0 {
          assert (head + gap + tail)[j - pos] == head[j - pos];
        } else if j < e {
          assert (head + gap + tail)[j - pos] == gap[j - m.value.0];
        } else {
          assert (head + gap + tail)[j - pos] == tail[j - e];
        }
      }
    }
  }

  lemma {:induction false} SpanStopsOffWord(t: string, i: nat, depth: nat, inside: bool)
    requires i <= |t|
    ensures var e := SpanEndFrom(t, i, depth, inside); e < |t| ==> !Word(t[e])
    decreases |t| - i
  {
    if i < |t| {
      if StopsAt(t, i, depth, inside) {
        if i + 3 <= |t| && t[i..i + 3] == " - " { assert t[i] == t[i..i + 3][0]; }
      } else {
        SpanStopsOffWord(t, i + 1, Deeper(depth, t[i]), inside);
      }
    }
  }

  /** Every match of the text starts inside a span. */
  lemma {:induction false} MatchesAreCovered(t: string, pos: nat, pat: Pattern, i: nat)
    requires WellFormed(pat) && pos <= i <= |t| && MatchEnd(t, i, pat).Some?
    ensures Covered(t, pos, pat, i)
    decreases |t| - pos
  {
    SearchFinds(t, pos, pat);
    var m := Search(t, pos, pat).value;
    if i >= EndOf(t, m) { MatchesAreCovered(t, EndOf(t, m), pat, i); }
  }

  /** Where coverage begins a match starts, and where it ends the text has no word character. */
  lemma {:induction false} CoverageEdges(t: string, pos: nat, pat: Pattern, j: nat)
    requires WellFormed(pat) && pos <= j < |t|
    ensures Covered(t, pos, pat, j) && (j == pos || !Covered(t, pos, pat, j - 1)) ==> MatchEnd(t, j, pat).Some?
    ensures !Covered(t, pos, pat, j) && j > pos && Covered(t, pos, pat, j - 1) ==> !Word(t[j])
    decreases |t| - pos
  {
    SearchFinds(t, pos, pat);
    var found := Search(t, pos, pat);
    if found.Some? {
      var m, e := found.value, EndOf(t, found.value);
      SpanStopsOffWord(t, m.1, 0, Depth(t[..m.0]) > 0);
      if j >= e {
        CoverageEdges(t, e, pat, j);
        if j == e && Covered(t, e, pat, j) { assert MatchEnd(t, e, pat).Some?; }
      }
    }
  }

  /** A covered position past the start has a covered neighbour: spans are at least two characters long. */
  lemma {:induction false} CoveredHasNeighbour(t: string, pos: nat, pat: Pattern, j: nat)
    requires WellFormed(pat) && pos <= j < |t| && Covered(t, pos, pat, j)
    ensures j == 0 || (j + 1 < |t| && Covered(t, pos, pat, j + 1)) || (j > pos && Covered(t, pos, pat, j - 1))
            || Covered(t, 0, pat, 0)
    decreases |t| - pos
  {
    SearchFinds(t, pos, pat);
    var m := Search(t, pos, pat).value;
    var e := EndOf(t, m);
    MatchIsProper(t, m.0, pat);
    if j >= e {
      CoveredHasNeighbour(t, e, pat, j);
    } else if m.0 == 0 {
      assert pos == 0 && Covered(t, 0, pat, 0);
    }
  }

  // ── Nothing is left to mask ───────────────────────────────────────────────

  /** What masking does to the whole text, position by position. */
  predicate Blanked(t: string, pat: Pattern, out: string)
    requires WellFormed(pat)
  {
    |out| == |t| && forall j :: 0 <= j < |t| ==> out[j] == if Covered(t, 0, pat, j) then ' ' else t[j]
  }

  /** Masking preserves the length and changes characters only to spaces, only inside spans. */
  lemma MaskingOnlyBlanks(t: string, pat: Pattern)
    requires WellFormed(pat)
    ensures Blanked(t, pat, Mask(t, pat))
    ensures forall j :: 0 <= j < |t| ==> Mask(t, pat)[j] == t[j] || Mask(t, pat)[j] == ' '
  {
    MaskedCharacters(t, 0, pat);
  }

  /** A word character of the output was there in the text, outside every span. */
  lemma WordsAreUncovered(t: string, pat: Pattern, out: string, j: nat)
    requires WellFormed(pat) && Blanked(t, pat, out) && j < |t| && Word(out[j])
    ensures !Covered(t, 0, pat, j) && t[j] == out[j]
  {
  }

  /** No span lies inside a phrase of the output: its two adjacent spaces are not in any phrase. */
  lemma PhraseIsUncovered(t: string, pat: Pattern, out: string, i: nat, p: string, j: nat)
    requires WellFormed(pat) && Blanked(t, pat, out) && p in pat.phrases && PhraseAt(out, i, p) && i <= j < i + |p|
    ensures !Covered(t, 0, pat, j)
  {
    var m := i + |p|;
    forall k | i <= k < m ensures out[k] == p[k - i] { Within(out, i, p, k); }
    WordsAreUncovered(t, pat, out, i);
    WordsAreUncovered(t, pat, out, m - 1);
    NoTwoSpaces(out, i, p);
    if Covered(t, 0, pat, j) {
      CoveredHasNeighbour(t, 0, pat, j);
      if Covered(t, 0, pat, 0) && !(j + 1 < |t| && Covered(t, 0, pat, j + 1)) && !Covered(t, 0, pat, j - 1) {
        CoverageEdges(t, 0, pat, j);
        MatchIsProper(t, j, pat);
      }
    }
  }

  /** The character of a matched word at its place. */
  lemma Within(t: string, i: nat, x: string, k: nat)
    requires i <= k < i + |x| <= |t| && t[i..i + |x|] == x
    ensures t[k] == x[k - i]
  {
    assert t[i..i + |x|][k - i] == t[k];
  }

  /** Inside a matched phrase no two adjacent characters are spaces. */
  lemma NoTwoSpaces(out: string, i: nat, p: string)
    requires PhraseShaped(p) && PhraseAt(out, i, p)
    ensures forall k {:trigger out[k]} :: i <= k < i + |p| - 1 ==> !(out[k] == ' ' && out[k + 1] == ' ')
  {
    forall k | i <= k < i + |p| - 1 ensures !(out[k] == ' ' && out[k + 1] == ' ') {
      Within(out, i, p, k);
      Within(out, i, p, k + 1);
      assert !(p[k - i] == ' ' && p[k - i + 1] == ' ');
    }
  }

  lemma UncoveredIsSame(t: string, pat: Pattern, out: string, i: nat, n: nat)
    requires WellFormed(pat) && Blanked(t, pat, out) && i + n <= |t|
    requires forall j :: i <= j < i + n ==> !Covered(t, 0, pat, j)
    ensures out[i..i + n] == t[i..i + n]
  {
  }

  /** An edge before an uncovered word character of the output is an edge of the text. */
  lemma LeftEdge(t: string, pat: Pattern, out: string, i: nat)
    requires WellFormed(pat) && Blanked(t, pat, out) && i < |t| && Word(out[i]) && Edge(out, i)
    ensures Edge(t, i)
  {
    WordsAreUncovered(t, pat, out, i);
    if i > 0 { CoverageEdges(t, 0, pat, i); }
  }

  /** And so is one after an uncovered word character. */
  lemma RightEdge(t: string, pat: Pattern, out: string, m: nat)
    requires WellFormed(pat) && Blanked(t, pat, out) && 0 < m <= |t| && Word(out[m - 1]) && Edge(out, m)
    ensures Edge(t, m)
  {
    WordsAreUncovered(t, pat, out, m - 1);
    if m < |t| {
      CoverageEdges(t, 0, pat, m);
      if Covered(t, 0, pat, m) { MatchIsProper(t, m, pat); }
    }
  }

  /** A phrase of the output is a phrase of the text, which masking would have covered. */
  lemma NoPhraseIsLeft(t: string, pat: Pattern, out: string, i: nat, p: string)
    requires WellFormed(pat) && Blanked(t, pat, out) && p in pat.phrases
    ensures !PhraseAt(out, i, p)
  {
    if PhraseAt(out, i, p) {
      var m := i + |p|;
      forall j | i <= j < m ensures !Covered(t, 0, pat, j) { PhraseIsUncovered(t, pat, out, i, p, j); }
      UncoveredIsSame(t, pat, out, i, |p|);
      assert out[i] == p[0] && out[m - 1] == p[|p| - 1];
      LeftEdge(t, pat, out, i);
      RightEdge(t, pat, out, m);
      PhraseMatches(t, i, pat, p);
      MatchesAreCovered(t, 0, pat, i);
      assert false;
    }
  }

  lemma {:induction false} PhraseIsFound(t: string, i: nat, phrases: seq<string>, p: string)
    requires p in phrases && PhraseAt(t, i, p)
    ensures PhraseEnd(t, i, phrases).Some?
  {
    if !PhraseAt(t, i, phrases[0]) { PhraseIsFound(t, i, phrases[1..], p); }
  }

  lemma PhraseMatches(t: string, i: nat, pat: Pattern, p: string)
    requires p in pat.phrases && PhraseAt(t, i, p)
    ensures MatchEnd(t, i, pat).Some?
  {
    PhraseIsFound(t, i, pat.phrases, p);
  }

  lemma {:induction false} LeadingIsFound(t: string, leading: seq<Leading>, l: Leading)
    requires l in leading && LeadingAt(t, l)
    ensures LeadingEnd(t, leading).Some?
  {
    if !LeadingAt(t, leading[0]) { LeadingIsFound(t, leading[1..], l); }
  }

  /** Between a leading word and an excluded word, and on the excluded word, no match starts. */
  lemma NoMatchOnExclusion(t: string, pat: Pattern, i: nat, k: nat, x: string, j: nat)
    requires WellFormed(pat) && i > 0 && |x| >= 1 && AllWord(x) && Follows(t, i, k, x) && i <= j < k + |x|
    requires forall p :: p in pat.phrases ==> !Opens(x, p)
    ensures MatchEnd(t, j, pat).None?
  {
    forall n | k <= n < k + |x| ensures Word(t[n]) { Within(t, k, x, n); }
    if MatchEnd(t, j, pat).Some? {
      MatchIsProper(t, j, pat);
      if j == k {
        PhraseEndIsLater(t, j, pat.phrases);
        var p :| p in pat.phrases && PhraseAt(t, j, p) && PhraseEnd(t, j, pat.phrases) == Some(j + |p|);
        OpensAt(t, k, x, p);
        assert false;
      }
    }
  }

  /** A phrase that matches where a whole word stands opens with that word. */
  lemma OpensAt(t: string, k: nat, x: string, p: string)
    requires |x| >= 1 && AllWord(x) && k + |x| <= |t| && t[k..k + |x|] == x && Edge(t, k + |x|)
    requires PhraseShaped(p) && PhraseAt(t, k, p)
    ensures Opens(x, p)
  {
    forall n | k <= n < k + |x| ensures Word(t[n]) { Within(t, k, x, n); }
    assert Edge(t, k + |p|);
    if |p| >= |x| {
      assert p[..|x|] == t[k..k + |p|][..|x|] == x;
      if |p| > |x| { assert p[|x|] == t[k + |x|]; }
    }
  }

  /** Coverage cannot begin where no match starts. */
  lemma {:induction false} StaysUncovered(t: string, pat: Pattern, i: nat, j: nat)
    requires WellFormed(pat) && 0 < i <= j < |t| && !Covered(t, 0, pat, i - 1)
    requires forall k :: i <= k <= j ==> MatchEnd(t, k, pat).None?
    ensures !Covered(t, 0, pat, j)
  {
    if i < j { StaysUncovered(t, pat, i, j - 1); }
    CoverageEdges(t, 0, pat, j);
  }

  /** An exclusion that held in the text still holds in the output. */
  lemma ExclusionSurvives(t: string, pat: Pattern, out: string, i: nat, exclusions: seq<string>)
    requires WellFormed(pat) && Blanked(t, pat, out) && 0 < i <= |t| && Word(out[i - 1]) && Excluded(t, i, exclusions)
    requires forall x :: x in exclusions ==> |x| >= 1 && AllWord(x) && forall p :: p in pat.phrases ==> !Opens(x, p)
    ensures Excluded(out, i, exclusions)
  {
    var k, x :| i < k <= |t| && x in exclusions && Follows(t, i, k, x);
    WordsAreUncovered(t, pat, out, i - 1);
    forall j | i <= j < k + |x| ensures !Covered(t, 0, pat, j) {
      forall n | i <= n <= j ensures MatchEnd(t, n, pat).None? { NoMatchOnExclusion(t, pat, i, k, x, n); }
      StaysUncovered(t, pat, i, j);
    }
    UncoveredIsSame(t, pat, out, k, |x|);
    assert t[k + |x| - 1] == x[|x| - 1];
    assert Follows(out, i, k, x);
  }

  lemma NoLeadingIsLeft(t: string, pat: Pattern, out: string, l: Leading)
    requires WellFormed(pat) && Blanked(t, pat, out) && l in pat.leading
    ensures !LeadingAt(out, l)
  {
    var n := |l.word|;
    if LeadingAt(out, l) {
      forall j | 0 <= j < n ensures !Covered(t, 0, pat, j) {
        assert out[j] == out[..n][j] == l.word[j];
        WordsAreUncovered(t, pat, out, j);
      }
      UncoveredIsSame(t, pat, out, 0, n);
      assert out[n - 1] == out[..n][n - 1];
      RightEdge(t, pat, out, n);
      if Excluded(t, n, l.exclusions) { ExclusionSurvives(t, pat, out, n, l.exclusions); }
      assert LeadingAt(t, l);
      LeadingIsFound(t, pat.leading, l);
      MatchesAreCovered(t, 0, pat, 0);
      assert false;
    }
  }

  /** Masking is complete: no reference phrase and no leading word matches anywhere in its output. */
  lemma NothingIsLeft(t: string, pat: Pattern, i: nat)
    requires WellFormed(pat)
    ensures MatchEnd(Mask(t, pat), i, pat).None?
  {
    var out := Mask(t, pat);
    MaskingOnlyBlanks(t, pat);
    if i == 0 && LeadingEnd(out, pat.leading).Some? {
      LeadingEndIsLater(out, pat.leading);
      var l :| l in pat.leading && LeadingAt(out, l) && LeadingEnd(out, pat.leading) == Some(|l.word|);
      NoLeadingIsLeft(t, pat, out, l);
    }
    if PhraseEnd(out, i, pat.phrases).Some? {
      PhraseEndIsLater(out, i, pat.phrases);
      var p :| p in pat.phrases && PhraseAt(out, i, p) && PhraseEnd(out, i, pat.phrases) == Some(i + |p|);
      NoPhraseIsLeft(t, pat, out, i, p);
    }
  }

  /** Masking twice equals masking once. */
  lemma MaskingIsIdempotent(t: string, pat: Pattern)
    requires WellFormed(pat)
    ensures Mask(Mask(t, pat), pat) == Mask(t, pat)
  {
    var out := Mask(t, pat);
    SearchFinds(out, 0, pat);
    var m := Search(out, 0, pat);
    if m.Some? {
      NothingIsLeft(t, pat, m.value.0);
      assert false;
    }
  }

  // ── The seller's condition label ──────────────────────────────────────────

  function Closers(n: nat): (s: string)
    ensures |s| == n && forall i :: 0 <= i < n ==> s[i] == ')'
  {
    seq(n, _ => ')')
  }

  const LABEL_BOUNDARY := " - "

  /** A canonical title with its unclosed groups closed, a clause boundary, and the canonical condition label. */
  function Listed(title: string, condition: string): string {
    title + Closers(Depth(title)) + LABEL_BOUNDARY + condition
  }

  lemma DepthNext(t: string, i: nat)
    requires i < |t|
    ensures Depth(t[..i + 1]) == Deeper(Depth(t[..i]), t[i])
  {
    assert t[..i + 1][..i] == t[..i];
  }

  lemma {:induction false} ClosersClose(t: string, from: nat, n: nat)
    requires from + n <= |t| && Depth(t[..from]) == n && forall i :: from <= i < from + n ==> t[i] == ')'
    ensures Depth(t[..from + n]) == 0
    decreases n
  {
    if n > 0 {
      DepthNext(t, from);
      ClosersClose(t, from + 1, n - 1);
    }
  }

  lemma {:induction false} DepthWithoutParens(t: string, from: nat, to: nat)
    requires from <= to <= |t| && forall i :: from <= i < to ==> t[i] != '(' && t[i] != ')'
    ensures Depth(t[..to]) == Depth(t[..from])
  {
    if from < to {
      DepthWithoutParens(t, from, to - 1);
      DepthNext(t, to - 1);
    }
  }

  /**
   * The scan's own depth is the text's depth, or, inside a group, the text's depth above the group;
   * so a boundary at depth zero stops every span that starts before it.
   */
  lemma {:induction false} SpanStopsAtClosedBoundary(t: string, i: nat, depth: nat, inside: bool, base: nat, boundary: nat)
    requires i <= boundary < |t| && Depth(t[..i]) == depth + base && (inside <==> base > 0)
    requires Depth(t[..boundary]) == 0 && ClauseEnds(t, boundary) && t[boundary] != '(' && t[boundary] != ')'
    ensures SpanEndFrom(t, i, depth, inside) <= boundary
    decreases boundary - i
  {
    if i < boundary && !StopsAt(t, i, depth, inside) {
      DepthNext(t, i);
      SpanStopsAtClosedBoundary(t, i + 1, Deeper(depth, t[i]), inside, base, boundary);
    }
  }

  /** A span opened by a group that is never closed runs to the end of the text. */
  lemma {:induction false} UnclosedGroupRunsOn(t: string, i: nat, depth: nat, inside: bool)
    requires i <= |t| && depth > 0 && forall j :: i <= j < |t| ==> t[j] != ')'
    ensures SpanEndFrom(t, i, depth, inside) == |t|
    decreases |t| - i
  {
    if i < |t| { UnclosedGroupRunsOn(t, i + 1, Deeper(depth, t[i]), inside); }
  }

  /** The parts of a listed text. */
  lemma ListedParts(title: string, condition: string)
    ensures var t, b := Listed(title, condition), |title| + Depth(title);
            && |t| == b + 3 + |condition| && t[..|title|] == title && t[b..b + 3] == LABEL_BOUNDARY && t[b + 3..] == condition
            && t[b] == ' ' && t[b + 1] == '-' && t[b + 2] == ' ' && ClauseEnds(t, b) && Depth(t[..b]) == 0
  {
    var t, b := Listed(title, condition), |title| + Depth(title);
    assert t[..|title|] == title;
    ClosersClose(t, |title|, Depth(title));
  }

  /** A phrase holds no parenthesis, and lies wholly before or wholly after a boundary. */
  lemma PhraseKeepsToOneSide(t: string, b: nat, i: nat, p: string)
    requires PhraseShaped(p) && PhraseAt(t, i, p) && b + 3 <= |t| && t[b] == ' ' && t[b + 1] == '-' && t[b + 2] == ' '
    ensures i + |p| <= b || i >= b + 3
    ensures forall j :: i <= j < i + |p| ==> t[j] != '(' && t[j] != ')'
  {
    forall j | i <= j < i + |p| ensures Word(t[j]) || t[j] == ' ' { Within(t, i, p, j); }
    Within(t, i, p, i);
    Within(t, i, p, i + |p| - 1);
  }

  /** A phrase after the boundary is a phrase of the label alone. */
  lemma PhraseInSuffix(t: string, k: nat, i: nat, p: string)
    requires 0 < k <= i && PhraseShaped(p) && PhraseAt(t, i, p) && t[k - 1] == ' '
    ensures PhraseAt(t[k..], i - k, p)
  {
    var suffix := t[k..];
    assert suffix[i - k..i - k + |p|] == t[i..i + |p|];
    Within(t, i, p, i);
    Within(t, i, p, i + |p| - 1);
  }

  /** A leading word ends before the first boundary and holds no parenthesis. */
  lemma LeadingEndsBefore(t: string, b: nat, l: Leading)
    requires LeadingAt(t, l) && AllWord(l.word) && b < |t| && t[b] == ' '
    ensures |l.word| <= b && forall j :: 0 <= j < |l.word| ==> t[j] != '(' && t[j] != ')'
  {
    forall j | 0 <= j < |l.word| ensures Word(t[j]) { Within(t, 0, l.word, j); }
  }

  /** No match reaches over the boundary, and none starts after it in a phrase-free label. */
  lemma MatchesEndBefore(t: string, b: nat, condition: string, pat: Pattern, i: nat)
    requires WellFormed(pat) && 0 < b && b + 3 <= |t| && t[b] == ' ' && t[b + 1] == '-' && t[b + 2] == ' '
    requires t[b + 3..] == condition && forall k, p :: p in pat.phrases ==> !PhraseAt(condition, k, p)
    requires MatchEnd(t, i, pat).Some?
    ensures MatchEnd(t, i, pat).value <= b
    ensures forall j :: i <= j < MatchEnd(t, i, pat).value ==> t[j] != '(' && t[j] != ')'
  {
    if i == 0 && LeadingEnd(t, pat.leading).Some? {
      LeadingEndIsLater(t, pat.leading);
      var l :| l in pat.leading && LeadingAt(t, l) && LeadingEnd(t, pat.leading) == Some(|l.word|);
      LeadingEndsBefore(t, b, l);
    } else {
      PhraseEndIsLater(t, i, pat.phrases);
      var p :| p in pat.phrases && PhraseAt(t, i, p) && PhraseEnd(t, i, pat.phrases) == Some(i + |p|);
      PhraseKeepsToOneSide(t, b, i, p);
      if i >= b + 3 { PhraseInSuffix(t, b + 3, i, p); }
    }
  }

  /** A match ends at or before `b`, and holds no parenthesis. */
  predicate EndsBefore(t: string, pat: Pattern, i: nat, b: nat) {
    MatchEnd(t, i, pat).Some? ==>
      MatchEnd(t, i, pat).value <= b && forall j :: i <= j < MatchEnd(t, i, pat).value ==> j < |t| && t[j] != '(' && t[j] != ')'
  }

  /** A boundary outside every group covers nothing from there on, when every match ends before it. */
  lemma {:induction false} NothingCoversAfter(t: string, pat: Pattern, pos: nat, b: nat, j: nat)
    requires WellFormed(pat) && pos <= b <= j < |t|
    requires Depth(t[..b]) == 0 && ClauseEnds(t, b) && t[b] != '(' && t[b] != ')'
    requires forall i: nat :: EndsBefore(t, pat, i, b)
    ensures !Covered(t, pos, pat, j)
    decreases |t| - pos
  {
    SearchFinds(t, pos, pat);
    var found := Search(t, pos, pat);
    if found.Some? {
      var m := found.value;
      assert EndsBefore(t, pat, m.0, b);
      DepthWithoutParens(t, m.0, m.1);
      var base := Depth(t[..m.0]);
      SpanStopsAtClosedBoundary(t, m.1, 0, base > 0, base, b);
      NothingCoversAfter(t, pat, EndOf(t, m), b, j);
    }
  }

  lemma NothingCoversTheLabel(title: string, condition: string, pat: Pattern, j: nat)
    requires WellFormed(pat) && title != "" && forall k, p :: p in pat.phrases ==> !PhraseAt(condition, k, p)
    requires |title| + Depth(title) <= j < |Listed(title, condition)|
    ensures !Covered(Listed(title, condition), 0, pat, j)
  {
    var t, b := Listed(title, condition), |title| + Depth(title);
    ListedParts(title, condition);
    forall i: nat ensures EndsBefore(t, pat, i, b) {
      if MatchEnd(t, i, pat).Some? {
        MatchIsProper(t, i, pat);
        MatchesEndBefore(t, b, condition, pat, i);
      }
    }
    NothingCoversAfter(t, pat, 0, b, j);
  }

  lemma ListedTail(title: string, condition: string)
    ensures Listed(title, condition)[|title| + Depth(title)..] == LABEL_BOUNDARY + condition
  {
    var head := title + Closers(Depth(title));
    assert Listed(title, condition) == head + (LABEL_BOUNDARY + condition);
  }

  /**
   * With the title's unclosed groups closed before the boundary, masking never touches the boundary
   * or a phrase-free condition label, whatever the title says.
   */
  lemma LabelIsNeverMasked(title: string, condition: string, pat: Pattern)
    requires WellFormed(pat) && title != "" && forall k, p :: p in pat.phrases ==> !PhraseAt(condition, k, p)
    ensures var t, b := Listed(title, condition), |title| + Depth(title);
            |Mask(t, pat)| == |t| && Mask(t, pat)[b..] == LABEL_BOUNDARY + condition
  {
    var t, b := Listed(title, condition), |title| + Depth(title);
    ListedParts(title, condition);
    MaskingOnlyBlanks(t, pat);
    forall j | b <= j < |t| ensures Mask(t, pat)[j] == t[j] { NothingCoversTheLabel(title, condition, pat, j); }
    SameSuffix(Mask(t, pat), t, b);
    ListedTail(title, condition);
  }

  lemma SameSuffix(a: string, t: string, b: nat)
    requires b <= |a| == |t| && forall j :: b <= j < |t| ==> a[j] == t[j]
    ensures a[b..] == t[b..]
  {
  }

  // ── Where a span stops, and that it stops nowhere else ────────────────────

  /** The four clause separators: a comma, a semicolon, a bar, or a hyphen between spaces. */
  predicate Separates(t: string, i: nat) {
    i < |t| && (t[i] in {',', ';', '|'} || (i + 2 < |t| && t[i] == ' ' && t[i + 1] == '-' && t[i + 2] == ' '))
  }

  lemma SeparatorsAre(t: string, i: nat)
    requires i < |t|
    ensures ClauseEnds(t, i) <==> Separates(t, i)
  {
    if i + 3 <= |t| {
      assert t[i..i + 3] == [t[i], t[i + 1], t[i + 2]];
    }
  }

  /** No match reaches over a separator: a phrase or leading word has nothing of one in it. */
  lemma MatchKeepsToOneSide(t: string, pat: Pattern, i: nat, b: nat)
    requires WellFormed(pat) && Separates(t, b) && i <= b && MatchEnd(t, i, pat).Some?
    ensures EndsBefore(t, pat, i, b)
  {
    MatchIsProper(t, i, pat);
    if i == 0 && LeadingEnd(t, pat.leading).Some? {
      LeadingEndIsLater(t, pat.leading);
      var l :| l in pat.leading && LeadingAt(t, l) && LeadingEnd(t, pat.leading) == Some(|l.word|);
      forall j | 0 <= j < |l.word| ensures Word(t[j]) { Within(t, 0, l.word, j); }
    } else {
      PhraseEndIsLater(t, i, pat.phrases);
      var p :| p in pat.phrases && PhraseAt(t, i, p) && PhraseEnd(t, i, pat.phrases) == Some(i + |p|);
      forall j | i <= j < i + |p| ensures Word(t[j]) || t[j] == ' ' { Within(t, i, p, j); }
      Within(t, i, p, i + |p| - 1);
    }
  }

  /** What follows a separator outside every group is untouched, when no reference follows it. */
  lemma AfterSeparatorSurvives(t: string, pat: Pattern, b: nat)
    requires WellFormed(pat) && Separates(t, b) && Depth(t[..b]) == 0
    requires forall i :: b <= i <= |t| ==> MatchEnd(t, i, pat).None?
    ensures |Mask(t, pat)| == |t| && Mask(t, pat)[b..] == t[b..]
  {
    MaskingOnlyBlanks(t, pat);
    SeparatorsAre(t, b);
    forall i: nat ensures EndsBefore(t, pat, i, b) {
      if MatchEnd(t, i, pat).Some? && i <= |t| {
        MatchKeepsToOneSide(t, pat, i, b);
      } else if MatchEnd(t, i, pat).Some? {
        MatchIsProper(t, i, pat);
      }
    }
    forall j | b <= j < |t| ensures Mask(t, pat)[j] == t[j] { NothingCoversAfter(t, pat, 0, b, j); }
    SameSuffix(Mask(t, pat), t, b);
  }

  /** A span that began at `start` ends at n: outside its own groups, at a separator or at the close of the group around it. */
  predicate Ends(t: string, start: nat, inside: bool, n: nat)
    requires start <= n < |t|
  {
    Depth(t[start..n]) == 0 && t[n] != '(' && (Separates(t, n) || (t[n] == ')' && inside))
  }

  lemma {:induction false} ScanGoesOn(t: string, start: nat, i: nat, inside: bool, j: nat)
    requires start <= i <= j < |t|
    ensures SpanEndFrom(t, i, Depth(t[start..i]), inside) > j <==> forall n :: i <= n <= j ==> !Ends(t, start, inside, n)
    decreases |t| - i
  {
    SeparatorsAre(t, i);
    assert StopsAt(t, i, Depth(t[start..i]), inside) <==> Ends(t, start, inside, i);
    if !StopsAt(t, i, Depth(t[start..i]), inside) {
      assert t[start..i + 1][..i - start] == t[start..i] && t[start..i + 1][i - start] == t[i];
      if i < j { ScanGoesOn(t, start, i + 1, inside, j); }
    }
  }

  /** A span goes on exactly until it first ends: groups opened inside it are skipped whole. */
  lemma SpanGoesOnExactlyWhile(t: string, start: nat, inside: bool, j: nat)
    requires start <= j < |t|
    ensures SpanEndFrom(t, start, 0, inside) > j <==> forall n :: start <= n <= j ==> !Ends(t, start, inside, n)
  {
    assert t[start..start] == "";
    ScanGoesOn(t, start, start, inside, j);
  }

  /** The scan goes on over a stretch that has no parenthesis and no separator. */
  lemma {:induction false} SpanRunsOn(t: string, i: nat, depth: nat, inside: bool, from: nat, to: nat)
    requires i <= |t| && from <= to <= |t| && SpanEndFrom(t, i, depth, inside) >= from
    requires forall j :: from <= j < to ==> t[j] != '(' && t[j] != ')' && !Separates(t, j)
    ensures SpanEndFrom(t, i, depth, inside) >= to
    decreases |t| - i
  {
    if i < to {
      SeparatorsAre(t, i);
      if !StopsAt(t, i, depth, inside) { SpanRunsOn(t, i + 1, Deeper(depth, t[i]), inside, from, to); }
    }
  }

  lemma {:induction false} CoverageRunsOn(t: string, pat: Pattern, pos: nat, i: nat, j: nat)
    requires WellFormed(pat) && pos <= i <= j < |t| && Covered(t, pos, pat, i)
    requires forall n :: i <= n <= j ==> t[n] != '(' && t[n] != ')' && !Separates(t, n)
    ensures Covered(t, pos, pat, j)
    decreases |t| - pos
  {
    SearchFinds(t, pos, pat);
    var m := Search(t, pos, pat).value;
    var e := EndOf(t, m);
    if j < m.1 {
    } else if i < e {
      SpanRunsOn(t, m.1, 0, Depth(t[..m.0]) > 0, if i < m.1 then m.1 else i, j + 1);
    } else {
      CoverageRunsOn(t, pat, e, i, j);
    }
  }

  /** Everything from a reference on is blanked, up to the next separator or parenthesis. */
  lemma ReferenceIsBlanked(t: string, pat: Pattern, i: nat, j: nat)
    requires WellFormed(pat) && i <= j < |t| && MatchEnd(t, i, pat).Some?
    requires forall n :: i <= n <= j ==> t[n] != '(' && t[n] != ')' && !Separates(t, n)
    ensures |Mask(t, pat)| == |t| && Mask(t, pat)[j] == ' '
  {
    MaskingOnlyBlanks(t, pat);
    MatchesAreCovered(t, 0, pat, i);
    CoverageRunsOn(t, pat, 0, i, j);
  }

  /** A span inside a group stops where that group closes: `close` ends every group, and the span began inside one. */
  lemma {:induction false} SpanStopsAtOutermostClose(t: string, i: nat, depth: nat, base: nat, close: nat)
    requires i <= close < |t| && Depth(t[..i]) == depth + base && base > 0 && t[close] == ')' && Depth(t[..close]) == 1
    ensures SpanEndFrom(t, i, depth, true) <= close
    decreases close - i
  {
    if i < close && !StopsAt(t, i, depth, true) {
      DepthNext(t, i);
      SpanStopsAtOutermostClose(t, i + 1, Deeper(depth, t[i]), base, close);
    }
  }

  /** The reference at `i` stands in a group that stays open up to `close`, and ends before it. */
  ghost predicate InGroup(t: string, pat: Pattern, i: nat, close: nat) {
    MatchEnd(t, i, pat).Some? ==>
      && EndsBefore(t, pat, i, close) && i < close <= |t|
      && forall n :: i <= n <= close ==> Depth(t[..n]) > 0
  }

  lemma {:induction false} NothingCoversAfterGroup(t: string, pat: Pattern, pos: nat, close: nat, j: nat)
    requires WellFormed(pat) && pos <= close <= j < |t| && t[close] == ')' && Depth(t[..close]) == 1
    requires forall i: nat :: InGroup(t, pat, i, close)
    ensures !Covered(t, pos, pat, j)
    decreases |t| - pos
  {
    SearchFinds(t, pos, pat);
    var found := Search(t, pos, pat);
    if found.Some? {
      var m := found.value;
      assert InGroup(t, pat, m.0, close);
      DepthWithoutParens(t, m.0, m.1);
      SpanStopsAtOutermostClose(t, m.1, 0, Depth(t[..m.0]), close);
      NothingCoversAfterGroup(t, pat, EndOf(t, m), close, j);
    }
  }

  /** What follows the group that every reference stands in is untouched, its closing parenthesis included. */
  lemma AfterGroupSurvives(t: string, pat: Pattern, close: nat)
    requires WellFormed(pat) && close < |t| && t[close] == ')' && Depth(t[..close]) == 1
    requires forall i: nat :: InGroup(t, pat, i, close)
    ensures |Mask(t, pat)| == |t| && Mask(t, pat)[close..] == t[close..]
  {
    MaskingOnlyBlanks(t, pat);
    forall j | close <= j < |t| ensures Mask(t, pat)[j] == t[j] { NothingCoversAfterGroup(t, pat, 0, close, j); }
    SameSuffix(Mask(t, pat), t, close);
  }

  // ── The registered patterns ───────────────────────────────────────────────

  function Two(a: string, b: string): string {
    a + " " + b
  }

  function Three(a: string, b: string, c: string): string {
    Two(Two(a, b), c)
  }

  const SHARED: seq<string> :=
    [Two("comparable", "to"), Two("compatible", "with"), Two("replacement", "for"), Two("equivalent", "to"),
     Two("equiv", "to"), Two("alternative", "to"), Two("substitute", "for"), "replaces"]

  const FOR := "for"
  const COMPATIBLE := "compatible"
  const DRIVE_LOCAL: seq<string> := [Two("fit", "for"), Two("suitable", "for")]
  const CPU_LOCAL: seq<string> := [Three("oem", "version", "of")]
  const LOCK_LOCAL: seq<string> :=
    [Two("works", "with"), Two("work", "with"), Three("for", "use", "with"), Three("for", "use", "in")]

  const PREAMBLE_WORDS: seq<string> := ["sale", "parts", "spare", "spares", "repair", "repairs"]

  function SharedPattern(): Pattern {
    Pattern(SHARED, [])
  }

  /** The drive identity layers' pattern. */
  function DrivePattern(): Pattern {
    Pattern(SHARED + DRIVE_LOCAL, [Leading(FOR, PREAMBLE_WORDS), Leading(COMPATIBLE, [])])
  }

  /** The CPU rules' identity and lock-scope patterns. */
  function CpuPattern(): Pattern {
    Pattern(SHARED + CPU_LOCAL, [])
  }

  function LockPattern(): Pattern {
    Pattern(SHARED + LOCK_LOCAL, [])
  }

  lemma WordIsShaped(w: string)
    requires |w| >= 2 && AllWord(w)
    ensures PhraseShaped(w)
  {
  }

  /** A word after a word or a phrase makes a phrase. */
  lemma TwoAreShaped(a: string, b: string)
    requires (PhraseShaped(a) || (|a| >= 1 && AllWord(a))) && |b| >= 1 && AllWord(b)
    ensures PhraseShaped(Two(a, b))
  {
    var p := Two(a, b);
    assert forall i :: 0 <= i < |p| ==> p[i] == if i < |a| then a[i] else if i == |a| then ' ' else b[i - |a| - 1];
    forall i | 0 <= i < |p| - 1 ensures !(p[i] == ' ' && p[i + 1] == ' ') {
      if i + 1 < |a| && PhraseShaped(a) { assert !(a[i] == ' ' && a[i + 1] == ' '); }
    }
  }

  lemma FirstFourAreShaped()
    ensures forall i :: 0 <= i < 4 ==> PhraseShaped(SHARED[i])
  {
    TwoAreShaped("comparable", "to");
    TwoAreShaped("compatible", "with");
    TwoAreShaped("replacement", "for");
    TwoAreShaped("equivalent", "to");
  }

  lemma LastFourAreShaped()
    ensures forall i :: 4 <= i < 8 ==> PhraseShaped(SHARED[i])
  {
    TwoAreShaped("equiv", "to");
    TwoAreShaped("alternative", "to");
    TwoAreShaped("substitute", "for");
    WordIsShaped("replaces");
  }

  lemma SharedAreShaped()
    ensures forall p :: p in SHARED ==> PhraseShaped(p)
  {
    FirstFourAreShaped();
    LastFourAreShaped();
    forall p | p in SHARED ensures PhraseShaped(p) {
      var i :| 0 <= i < |SHARED| && SHARED[i] == p;
      assert PhraseShaped(SHARED[i]);
    }
  }

  /** Only its own first word opens a phrase. */
  lemma OnlyItsFirstWordOpens(x: string, a: string, b: string)
    requires |x| >= 1 && AllWord(x) && AllWord(a) && Opens(x, Two(a, b))
    ensures x == a
  {
    var p := Two(a, b);
    assert p[|a|] == ' ';
    assert forall i :: 0 <= i < |a| ==> p[i] == a[i];
    assert forall i :: 0 <= i < |x| ==> Word(p[i]);
    assert |x| <= |a|;
    assert x == p[..|x|];
  }

  predicate Unopened(p: string) {
    forall x :: x in PREAMBLE_WORDS ==> !Opens(x, p)
  }

  lemma NoPreambleOpens(a: string, b: string)
    requires AllWord(a) && a !in PREAMBLE_WORDS
    ensures Unopened(Two(a, b))
  {
    PreambleWordsAreWords();
    forall x | x in PREAMBLE_WORDS ensures !Opens(x, Two(a, b)) {
      if Opens(x, Two(a, b)) { OnlyItsFirstWordOpens(x, a, b); }
    }
  }

  lemma PreambleWordsAreWords()
    ensures forall x :: x in PREAMBLE_WORDS ==> |x| >= 1 && AllWord(x)
  {
  }

  lemma FirstFourAreUnopened()
    ensures forall i :: 0 <= i < 4 ==> Unopened(SHARED[i])
  {
    NoPreambleOpens("comparable", "to");
    NoPreambleOpens("compatible", "with");
    NoPreambleOpens("replacement", "for");
    NoPreambleOpens("equivalent", "to");
  }

  lemma LastFourAreUnopened()
    ensures forall i :: 4 <= i < 8 ==> Unopened(SHARED[i])
  {
    NoPreambleOpens("equiv", "to");
    NoPreambleOpens("alternative", "to");
    NoPreambleOpens("substitute", "for");
    forall x | x in PREAMBLE_WORDS ensures !Opens(x, "replaces") { NoPreambleOpensReplaces(x); }
  }

  lemma DriveLocalAreFit()
    ensures forall i :: 0 <= i < |DRIVE_LOCAL| ==> PhraseShaped(DRIVE_LOCAL[i]) && Unopened(DRIVE_LOCAL[i])
  {
    NoPreambleOpens("fit", "for");
    NoPreambleOpens("suitable", "for");
    TwoAreShaped("fit", "for");
    TwoAreShaped("suitable", "for");
  }

  lemma NoPreambleOpensReplaces(x: string)
    requires x in PREAMBLE_WORDS
    ensures !Opens(x, "replaces")
  {
    var p := "replaces";
    if x <= p { assert x[0] == p[0] && x[3] == p[3]; }
  }

  /** A pattern is well formed when its phrases are shaped and none opens with an excluded word. */
  lemma WellFormedFromParts(phrases: seq<string>, first: string, exclusions: seq<string>, second: string)
    requires forall p :: p in phrases ==> PhraseShaped(p) && forall x :: x in exclusions ==> !Opens(x, p)
    requires forall x :: x in exclusions ==> |x| >= 1 && AllWord(x)
    requires |first| >= 1 && AllWord(first) && |second| >= 1 && AllWord(second)
    ensures WellFormed(Pattern(phrases, [Leading(first, exclusions), Leading(second, [])]))
  {
  }

  lemma DrivePhrasesAreFit()
    ensures forall p :: p in SHARED + DRIVE_LOCAL ==> PhraseShaped(p) && Unopened(p)
  {
    SharedAreShaped();
    FirstFourAreUnopened();
    LastFourAreUnopened();
    forall i | 0 <= i < |SHARED| ensures PhraseShaped(SHARED[i]) && Unopened(SHARED[i]) {
      assert SHARED[i] in SHARED;
    }
    DriveLocalAreFit();
    AllOfBoth(SHARED, DRIVE_LOCAL);
  }

  lemma DrivePatternIsWellFormed()
    ensures WellFormed(DrivePattern())
  {
    DrivePhrasesAreFit();
    PreambleWordsAreWords();
    LeadingWordsAreWords();
    WellFormedFromParts(SHARED + DRIVE_LOCAL, FOR, PREAMBLE_WORDS, COMPATIBLE);
  }

  lemma LeadingWordsAreWords()
    ensures |FOR| >= 1 && AllWord(FOR) && |COMPATIBLE| >= 1 && AllWord(COMPATIBLE)
  {
  }

  lemma AllOfBoth(a: seq<string>, b: seq<string>)
    requires forall i :: 0 <= i < |a| ==> PhraseShaped(a[i]) && Unopened(a[i])
    requires forall i :: 0 <= i < |b| ==> PhraseShaped(b[i]) && Unopened(b[i])
    ensures forall p :: p in a + b ==> PhraseShaped(p) && Unopened(p)
  {
  }

  lemma WithoutLeading(a: seq<string>, b: seq<string>)
    requires (forall p :: p in a ==> PhraseShaped(p)) && (forall p :: p in b ==> PhraseShaped(p))
    ensures WellFormed(Pattern(a + b, [])) && WellFormed(Pattern(a, []))
  {
  }

  /** Every registered pattern has the shape the theorems ask for. */
  lemma RegisteredPatternsAreWellFormed()
    ensures WellFormed(SharedPattern()) && WellFormed(DrivePattern()) && WellFormed(CpuPattern()) && WellFormed(LockPattern())
  {
    SharedAreShaped();
    DrivePatternIsWellFormed();
    CpuPhrasesAreShaped();
    LockPhrasesAreShaped();
    WithoutLeading(SHARED, CPU_LOCAL);
    WithoutLeading(SHARED, LOCK_LOCAL);
  }

  lemma CpuPhrasesAreShaped()
    ensures forall p :: p in CPU_LOCAL ==> PhraseShaped(p)
  {
    TwoAreShaped("oem", "version");
    TwoAreShaped(Two("oem", "version"), "of");
  }

  lemma LockPhrasesAreShaped()
    ensures forall p :: p in LOCK_LOCAL ==> PhraseShaped(p)
  {
    TwoAreShaped("works", "with");
    TwoAreShaped("work", "with");
    TwoAreShaped("for", "use");
    TwoAreShaped(Two("for", "use"), "with");
    TwoAreShaped(Two("for", "use"), "in");
  }
}
