/** Splitting a document's text into overlapping, boundary-snapped chunks. Text is a sequence of
    UTF-16 code units, the unit the offsets count in. */
module Chunking {
  import opened Common

  newtype CodeUnit = x: int | 0 <= x < 0x1_0000

  type Text = seq<CodeUnit>

  const TARGET_CHUNK_SIZE := 1000
  const OVERLAP_SIZE := 150
  const BOUNDARY_SEARCH_WINDOW := 200

  const NEWLINE: CodeUnit := 0x0A
  const SPACE: CodeUnit := 0x20

  datatype Chunk = Chunk(content: Text, charStart: nat, charEnd: nat)

  /** The code units `trim` removes and `\s` matches. */
  predicate IsSpace(c: CodeUnit) {
    || 0x09 <= c <= 0x0D || c == SPACE || c == 0xA0 || c == 0x1680 || 0x2000 <= c <= 0x200A
    || c == 0x2028 || c == 0x2029 || c == 0x202F || c == 0x205F || c == 0x3000 || c == 0xFEFF
  }

  /** The code units a regular expression's `.` does not match. */
  predicate IsLineTerminator(c: CodeUnit) {
    c == NEWLINE || c == 0x0D || c == 0x2028 || c == 0x2029
  }

  predicate IsEndMark(c: CodeUnit) {
    c == 0x2E || c == 0x21 || c == 0x3F
  }

  // ---------------------------------------------------------------- string operations

  function LeadingSpaces(t: Text): (n: nat)
    ensures n <= |t|
    ensures forall i | 0 <= i < n :: IsSpace(t[i])
    ensures n < |t| ==> !IsSpace(t[n])
  {
    if t == [] || !IsSpace(t[0]) then 0 else 1 + LeadingSpaces(t[1..])
  }

  /** Where the trimmed text ends, if anything is left of it. */
  function TrimmedEnd(t: Text): (n: nat)
    ensures n <= |t|
    ensures forall i | n <= i < |t| :: IsSpace(t[i])
    ensures n > 0 ==> !IsSpace(t[n - 1])
  {
    if t == [] || !IsSpace(t[|t| - 1]) then |t| else TrimmedEnd(t[..|t| - 1])
  }

  /** There is nothing but white space before `a` and from `b` on. */
  ghost predicate Surrounded(t: Text, a: int, b: int) {
    && 0 <= a <= b <= |t|
    && (forall i | 0 <= i < a :: IsSpace(t[i]))
    && (forall i | b <= i < |t| :: IsSpace(t[i]))
  }

  /** The text less the white space around it. */
  function Trim(t: Text): (r: Text)
    ensures r != [] ==> !IsSpace(r[0]) && !IsSpace(r[|r| - 1])
    ensures exists a, b :: Surrounded(t, a, b) && r == t[a..b]
  {
    var a, b := LeadingSpaces(t), TrimmedEnd(t);
    if a <= b then
      assert Surrounded(t, a, b);
      t[a..b]
    else
      assert Surrounded(t, |t|, |t|);
      []
  }

  function IndexOf(t: Text, c: CodeUnit): (n: nat)
    requires c in t
    ensures n < |t| && t[n] == c && forall i | 0 <= i < n :: t[i] != c
  {
    if t[0] == c then 0 else 1 + IndexOf(t[1..], c)
  }

  predicate IsParagraphBreak(w: Text, i: int) {
    0 <= i && i + 1 < |w| && w[i] == NEWLINE && w[i + 1] == NEWLINE
  }

  function LastParagraphBreak(w: Text): (r: Option<nat>)
    ensures r.Some? ==> IsParagraphBreak(w, r.value) && forall i | r.value < i :: !IsParagraphBreak(w, i)
    ensures r.None? ==> forall i :: !IsParagraphBreak(w, i)
  {
    if |w| < 2 then None
    else if w[|w| - 2] == NEWLINE && w[|w| - 1] == NEWLINE then Some(|w| - 2)
    else
      var r := LastParagraphBreak(w[..|w| - 1]);
      assert forall i | 0 <= i < |w| - 2 :: IsParagraphBreak(w, i) <==> IsParagraphBreak(w[..|w| - 1], i);
      r
  }

  function LastSpace(w: Text): (r: Option<nat>)
    ensures r.Some? ==> r.value < |w| && w[r.value] == SPACE && forall i | r.value < i < |w| :: w[i] != SPACE
    ensures r.None? ==> SPACE !in w
  {
    if w == [] then None
    else if w[|w| - 1] == SPACE then Some(|w| - 1)
    else LastSpace(w[..|w| - 1])
  }

  // ---------------------------------------------------------------- the sentence pattern

  /** A sentence-ending mark followed by whitespace. */
  predicate IsSentenceEnd(w: Text, i: int) {
    0 <= i && i + 1 < |w| && IsEndMark(w[i]) && IsSpace(w[i + 1])
  }

  /** The lookahead: a sentence end lies ahead of `p` with no line terminator before it. */
  predicate MoreOnLine(w: Text, p: nat) {
    exists q | p <= q < |w| :: IsSentenceEnd(w, q) && forall j | p <= j < q :: !IsLineTerminator(w[j])
  }

  /** The whitespace run is taken whole and given back one unit at a time until the lookahead
      passes; `lo` is where the run starts. */
  function BackOff(w: Text, lo: nat, hi: nat): (r: Option<nat>)
    requires lo <= hi
    ensures r.Some? ==> lo < r.value <= hi && !MoreOnLine(w, r.value)
    ensures !MoreOnLine(w, hi) && lo < hi ==> r == Some(hi)
    decreases hi - lo
  {
    if hi == lo then None else if !MoreOnLine(w, hi) then Some(hi) else BackOff(w, lo, hi - 1)
  }

  /** The end of the match starting at `i`, if there is one. */
  function MatchAt(w: Text, i: nat): (r: Option<nat>)
    requires i < |w|
    ensures r.Some? ==> i + 1 < r.value <= |w| && IsSentenceEnd(w, i) && !MoreOnLine(w, r.value)
                        && forall j | i < j < r.value :: IsSpace(w[j])
  {
    if IsEndMark(w[i]) then BackOff(w, i + 1, i + 1 + LeadingSpaces(w[i + 1..])) else None
  }

  /** Where the leftmost match at or after `i` starts; the end of the window if there is none. */
  function FirstAt(w: Text, i: nat): (k: nat)
    requires i <= |w|
    ensures i <= k <= |w| && (k < |w| ==> MatchAt(w, k).Some?)
    decreases |w| - i
  {
    if i == |w| || MatchAt(w, i).Some? then i else FirstAt(w, i + 1)
  }

  /** The position right after the leftmost match. */
  function FirstMatch(w: Text): (r: Option<nat>)
    ensures r.Some? ==> FirstAt(w, 0) < r.value <= |w|
  {
    if FirstAt(w, 0) < |w| then MatchAt(w, FirstAt(w, 0)) else None
  }

  lemma {:induction false} FirstAtIsFirst(w: Text, i: nat, j: nat)
    requires i <= |w| && i <= j < FirstAt(w, i)
    ensures MatchAt(w, j).None?
    decreases j - i
  {
    if i < j {
      FirstAtIsFirst(w, i + 1, j);
    }
  }

  /** A window with a sentence end always has a match: the last sentence end is one. */
  lemma {:induction false} SentenceEndMatches(w: Text, i: nat)
    requires IsSentenceEnd(w, i)
    ensures FirstMatch(w).Some?
    decreases |w| - i
  {
    if exists q :: i < q && IsSentenceEnd(w, q) {
      var q :| i < q && IsSentenceEnd(w, q);
      SentenceEndMatches(w, q);
    } else {
      var hi := i + 1 + LeadingSpaces(w[i + 1..]);
      assert !MoreOnLine(w, hi);
      assert MatchAt(w, i) == Some(hi);
      if i < FirstAt(w, 0) {
        FirstAtIsFirst(w, 0, i);
      }
    }
  }

  function SearchFloor(rangeStart: nat, tentativeEnd: nat): nat {
    if tentativeEnd - BOUNDARY_SEARCH_WINDOW > rangeStart then tentativeEnd - BOUNDARY_SEARCH_WINDOW else rangeStart
  }

  /** Where to cut within the search window. */
  function CutIn(w: Text): (r: nat)
    ensures r <= |w|
  {
    if LastParagraphBreak(w).Some? then LastParagraphBreak(w).value
    else if FirstMatch(w).Some? then FirstMatch(w).value
    else if LastSpace(w).Some? then LastSpace(w).value + 1
    else |w|
  }

  function SnapToBoundary(text: Text, rangeStart: nat, tentativeEnd: nat): (r: nat)
    requires rangeStart <= tentativeEnd <= |text|
    ensures SearchFloor(rangeStart, tentativeEnd) <= r <= tentativeEnd
  {
    var searchFloor := SearchFloor(rangeStart, tentativeEnd);
    searchFloor + CutIn(text[searchFloor..tentativeEnd])
  }

  /** A cut right after a sentence end and whitespace, with no other sentence end ahead on its line. */
  ghost predicate AfterSentence(w: Text, cut: nat) {
    && cut <= |w| && !MoreOnLine(w, cut)
    && exists i | 0 <= i < cut - 1 :: IsSentenceEnd(w, i) && forall j | i < j < cut :: IsSpace(w[j])
  }

  /** The order of preference in a window: the last paragraph break; else a cut after a sentence;
      else right after the last space; else the end. Each is used when the window has one and none better. */
  ghost predicate Preferred(w: Text, cut: nat) {
    if exists i :: IsParagraphBreak(w, i) then
      IsParagraphBreak(w, cut) && forall i | cut < i :: !IsParagraphBreak(w, i)
    else if exists i :: IsSentenceEnd(w, i) then AfterSentence(w, cut)
    else if SPACE in w then 0 < cut <= |w| && w[cut - 1] == SPACE && SPACE !in w[cut..]
    else cut == |w|
  }

  lemma CutIsPreferred(w: Text)
    ensures Preferred(w, CutIn(w))
  {
    if LastParagraphBreak(w).None? {
      if i: int :| IsSentenceEnd(w, i) {
        SentenceEndMatches(w, i);
        MatchIsAfterSentence(w);
      }
    }
  }

  /** The boundary is the preferred cut of the last 200 units before the target, or of all that
      follow the start where those are fewer. */
  lemma SnapPreference(text: Text, rangeStart: nat, tentativeEnd: nat)
    requires rangeStart <= tentativeEnd <= |text|
    ensures var from := if rangeStart + 200 < tentativeEnd then tentativeEnd - 200 else rangeStart;
            var cut := SnapToBoundary(text, rangeStart, tentativeEnd);
            from <= cut <= tentativeEnd && Preferred(text[from..tentativeEnd], cut - from)
  {
    CutIsPreferred(text[SearchFloor(rangeStart, tentativeEnd)..tentativeEnd]);
  }

  lemma MatchIsAfterSentence(w: Text)
    requires FirstMatch(w).Some?
    ensures AfterSentence(w, FirstMatch(w).value)
  {
    var k := FirstAt(w, 0);
    assert IsSentenceEnd(w, k);
  }

  /** Giving white space back helps the lookahead only if the very first unit already does: the
      rest of the run is no sentence end. */
  lemma {:induction false} BackOffFails(w: Text, lo: nat, hi: nat)
    requires lo <= hi <= |w| && forall j | lo <= j < hi :: IsSpace(w[j])
    ensures lo < hi ==> (BackOff(w, lo, hi).None? <==> MoreOnLine(w, lo + 1))
    decreases hi - lo
  {
    if lo + 1 < hi {
      BackOffFails(w, lo, hi - 1);
      if MoreOnLine(w, lo + 1) {
        var q :| lo + 1 <= q < |w| && IsSentenceEnd(w, q) && forall j | lo + 1 <= j < q :: !IsLineTerminator(w[j]);
        assert !IsSpace(w[q]);
        assert hi <= q;
      }
    }
  }

  /** The white space behind a sentence mark is where its match may end. */
  lemma RunOfSpaces(w: Text, i: nat) returns (hi: nat)
    requires IsSentenceEnd(w, i)
    ensures i + 1 < hi <= |w| && MatchAt(w, i) == BackOff(w, i + 1, hi)
    ensures forall j | i + 1 <= j < hi :: IsSpace(w[j])
  {
    var rest := w[i + 1..];
    hi := i + 1 + LeadingSpaces(rest);
    assert rest[0] == w[i + 1];
    forall j | i + 1 <= j < hi ensures IsSpace(w[j]) {
      assert w[j] == rest[j - (i + 1)];
    }
  }

  /** A sentence end matches exactly if its line has no other one ahead. */
  lemma MatchesIffLastOnLine(w: Text, i: nat)
    requires IsSentenceEnd(w, i)
    ensures MatchAt(w, i).Some? <==> !MoreOnLine(w, i + 2)
  {
    var hi := RunOfSpaces(w, i);
    var found, more := BackOff(w, i + 1, hi), MoreOnLine(w, i + 2);
    assert found.None? <==> more by {
      BackOffFails(w, i + 1, hi);
    }
  }

  /** Between a sentence mark and the end of its match there is only white space. */
  lemma BehindMatch(w: Text, k: nat, i: nat)
    requires k < |w| && MatchAt(w, k).Some? && IsSentenceEnd(w, i)
    ensures i < MatchAt(w, k).value <==> i <= k
  {
    assert !IsSpace(w[i]);
  }

  /** The sentence end the cut follows: the first that is the last on its line. */
  lemma CutFollows(w: Text) returns (k: nat)
    requires LastParagraphBreak(w).None? && exists i :: IsSentenceEnd(w, i)
    ensures IsSentenceEnd(w, k) && !MoreOnLine(w, k + 2)
    ensures forall i: nat | i < k && IsSentenceEnd(w, i) :: MoreOnLine(w, i + 2)
    ensures forall i: nat | IsSentenceEnd(w, i) :: i < CutIn(w) <==> i <= k
  {
    var some :| IsSentenceEnd(w, some);
    SentenceEndMatches(w, some);
    k := FirstAt(w, 0);
    MatchesIffLastOnLine(w, k);
    forall i: nat | i < k && IsSentenceEnd(w, i) ensures MoreOnLine(w, i + 2) {
      FirstAtIsFirst(w, 0, i);
      MatchesIffLastOnLine(w, i);
    }
    forall i: nat | IsSentenceEnd(w, i) ensures i < CutIn(w) <==> i <= k {
      BehindMatch(w, k, i);
    }
  }

  /** Every sentence end with a later one has another ahead of it on its own line. */
  ghost predicate LinesGoOn(w: Text) {
    forall i: nat, q: nat | i < q && IsSentenceEnd(w, i) && IsSentenceEnd(w, q) :: MoreOnLine(w, i + 2)
  }

  /** The cut is behind the last sentence end exactly if every sentence end with a later one has
      another ahead of it on its own line. */
  lemma BehindLastSentenceExactly(w: Text)
    requires LastParagraphBreak(w).None? && exists i :: IsSentenceEnd(w, i)
    ensures (forall i: nat | IsSentenceEnd(w, i) :: i < CutIn(w)) <==> LinesGoOn(w)
  {
    var k := CutFollows(w);
    if LinesGoOn(w) {
      forall i: nat | IsSentenceEnd(w, i) ensures i <= k {}
    }
  }

  /** A letter run, then `A. x`, a newline, `B. c`: the window behind the first 800 units of 1000. */
  function TwoLines(letters: nat): Text {
    seq(letters, i => 0x78) + [0x41, 0x2E, 0x20, 0x78, 0x0A, 0x42, 0x2E, 0x20, 0x63]
  }

  lemma TwoLinesEnds(letters: nat)
    ensures var w := TwoLines(letters);
            && |w| == letters + 9 && IsSentenceEnd(w, letters + 1) && IsSentenceEnd(w, letters + 6)
            && (forall i | IsSentenceEnd(w, i) :: i == letters + 1 || i == letters + 6)
            && IsLineTerminator(w[letters + 4]) && forall i :: !IsParagraphBreak(w, i)
  {
    var w := TwoLines(letters);
    forall i | 0 <= i < |w| ensures i < letters ==> w[i] == 0x78 {}
  }

  lemma SecondLineIsMissed(letters: nat)
    ensures CutIn(TwoLines(letters)) <= letters + 6
  {
    var w := TwoLines(letters);
    TwoLinesEnds(letters);
    assert !MoreOnLine(w, letters + 3);
    assert !LinesGoOn(w);
    BehindLastSentenceExactly(w);
  }

  /** `.` stops at a newline, so text of several lines is cut after a sentence of an earlier line
      although the search window holds a later one too. */
  lemma EarlierLineWins()
    ensures var text := TwoLines(991) + [0x78];
            && |text| == 1001 && IsSentenceEnd(text[..1000], 997)
            && SnapToBoundary(text, 0, 1000) <= 997
  {
    var text := TwoLines(991) + [0x78];
    TwoLinesEnds(991);
    assert text[..1000] == TwoLines(991);
    assert text[800..1000] == TwoLines(191);
    SecondLineIsMissed(191);
  }

  // ---------------------------------------------------------------- chunking

  /** Dropping from every later chunk the overlap it repeats. */
  function Reassembled(chunks: seq<Chunk>): Text {
    if chunks == [] then []
    else if |chunks| == 1 then chunks[0].content
    else
      var last := chunks[|chunks| - 1].content;
      Reassembled(chunks[..|chunks| - 1]) + (if |last| >= OVERLAP_SIZE then last[OVERLAP_SIZE..] else [])
  }

  /** A chunk is the slice its offsets name. */
  predicate IsSlice(text: Text, c: Chunk) {
    c.charStart <= c.charEnd <= |text| && c.content == text[c.charStart..c.charEnd]
  }

  ghost predicate Slices(text: Text, chunks: seq<Chunk>) {
    forall i | 0 <= i < |chunks| :: IsSlice(text, chunks[i])
  }

  /** `b` starts where `a` ends less the overlap, and `a` was cut inside its search window. */
  predicate Follows(a: Chunk, b: Chunk) {
    800 <= a.charEnd - a.charStart <= 1000 && b.charStart == a.charEnd - OVERLAP_SIZE
  }

  ghost predicate Chained(chunks: seq<Chunk>) {
    forall i, j | 0 <= i < j < |chunks| && j == i + 1 :: Follows(chunks[i], chunks[j])
  }

  /** Every chunk but the last was cut where the boundary search says. */
  ghost predicate Snapped(text: Text, chunks: seq<Chunk>) {
    forall i | 0 <= i < |chunks| - 1 :: SnappedCut(text, chunks[i])
  }

  predicate SnappedCut(text: Text, c: Chunk) {
    && c.charStart + TARGET_CHUNK_SIZE <= |text|
    && c.charEnd == SnapToBoundary(text, c.charStart, c.charStart + TARGET_CHUNK_SIZE)
  }

  lemma {:induction false} StartsAdvance(chunks: seq<Chunk>, i: nat)
    requires Chained(chunks) && i < |chunks|
    ensures chunks[i].charStart >= chunks[0].charStart + 650 * i
  {
    if i > 0 {
      StartsAdvance(chunks, i - 1);
      assert Follows(chunks[i - 1], chunks[i]);
    }
  }

  lemma GlueOverlap(text: Text, a: nat, b: nat, c: nat)
    requires a <= b <= c <= |text| && OVERLAP_SIZE <= b
    ensures text[a..b] + text[b - OVERLAP_SIZE..c][OVERLAP_SIZE..] == text[a..c]
  {
    assert text[b - OVERLAP_SIZE..c][OVERLAP_SIZE..] == text[b..c];
  }

  /** Without their overlaps the chunks are the text they were cut from, from the first start to
      the last end. */
  lemma {:induction false} CutsReassemble(text: Text, chunks: seq<Chunk>)
    requires Slices(text, chunks) && Chained(chunks) && chunks != []
    requires forall i | 0 < i < |chunks| :: |chunks[i].content| > OVERLAP_SIZE
    ensures chunks[0].charStart <= chunks[|chunks| - 1].charEnd
    ensures Reassembled(chunks) == text[chunks[0].charStart..chunks[|chunks| - 1].charEnd]
    decreases |chunks|
  {
    var n := |chunks|;
    assert IsSlice(text, chunks[n - 1]);
    if n > 1 {
      CutsReassemble(text, chunks[..n - 1]);
      assert Follows(chunks[n - 2], chunks[n - 1]);
      GlueOverlap(text, chunks[0].charStart, chunks[n - 2].charEnd, chunks[n - 1].charEnd);
    }
  }

  /** What `chunkText` promises of the chunks of one text. */
  ghost predicate Faithful(text: Text, chunks: seq<Chunk>) {
    var trimmed := Trim(text);
    && Slices(text, chunks)
    && Reassembled(chunks) == trimmed
    && (chunks == [] <==> trimmed == [])
    && (|chunks| <= 1 <==> |trimmed| <= TARGET_CHUNK_SIZE)
    && (|chunks| > 1 ==>
          && (forall i | 0 <= i < |chunks| - 1 :: 800 <= |chunks[i].content| <= 1000)
          && 151 <= |chunks[|chunks| - 1].content| <= 1000
          && |chunks| <= 1 + (|trimmed| - 151) / 650)
  }

  lemma CutsAreFaithful(text: Text, chunks: seq<Chunk>, start: nat, end: nat)
    requires start + TARGET_CHUNK_SIZE < end <= |text| && Trim(text) == text[start..end]
    requires Slices(text, chunks) && Chained(chunks) && |chunks| > 1
    requires chunks[0].charStart == start && chunks[|chunks| - 1].charEnd == end
    requires 151 <= |chunks[|chunks| - 1].content| <= 1000
    ensures Faithful(text, chunks)
  {
    var n := |chunks|;
    forall i | 0 <= i < n - 1 ensures 800 <= |chunks[i].content| <= 1000 {
      assert Follows(chunks[i], chunks[i + 1]) && IsSlice(text, chunks[i]);
    }
    CutsReassemble(text, chunks);
    StartsAdvance(chunks, n - 1);
    assert IsSlice(text, chunks[n - 1]);
  }

  /** The chunks already cut: the next one starts at `cursor`. */
  ghost predicate CutSoFar(chunks: seq<Chunk>, start: nat, cursor: nat, end: nat) {
    && Chained(chunks)
    && (if chunks == [] then cursor == start
        else
          var last := chunks[|chunks| - 1];
          && chunks[0].charStart == start && last.charEnd < end
          && 800 <= last.charEnd - last.charStart <= 1000 && cursor == last.charEnd - OVERLAP_SIZE)
  }

  lemma AppendCut(text: Text, chunks: seq<Chunk>, start: nat, cursor: nat, end: nat, c: Chunk)
    requires CutSoFar(chunks, start, cursor, end) && Slices(text, chunks)
    requires c.charStart == cursor && IsSlice(text, c)
    ensures Chained(chunks + [c]) && Slices(text, chunks + [c]) && (chunks + [c])[0].charStart == start
  {
    var cs := chunks + [c];
    forall i, j | 0 <= i < j < |cs| && j == i + 1 ensures Follows(cs[i], cs[j]) {
      if j < |chunks| {
        assert Follows(chunks[i], chunks[j]);
      }
    }
  }

  /** Between two cuts: everything up to the cursor is cut, snapped and in place, and more than an
      overlap is left. */
  ghost predicate InProgress(text: Text, chunks: seq<Chunk>, start: nat, cursor: nat, end: nat) {
    && start <= cursor && cursor + OVERLAP_SIZE < end <= |text|
    && (chunks == [] ==> cursor + TARGET_CHUNK_SIZE < end)
    && Slices(text, chunks) && CutSoFar(chunks, start, cursor, end)
    && forall i | 0 <= i < |chunks| :: SnappedCut(text, chunks[i])
  }

  /** A snapped cut short of the end keeps the work in progress, one overlap back from the cut. */
  lemma CutInside(text: Text, chunks: seq<Chunk>, start: nat, cursor: nat, end: nat, cut: nat)
    requires InProgress(text, chunks, start, cursor, end) && cursor + TARGET_CHUNK_SIZE < end
    requires cut == SnapToBoundary(text, cursor, cursor + TARGET_CHUNK_SIZE)
    ensures cursor + 1 <= cut - OVERLAP_SIZE && cut < end
    ensures InProgress(text, chunks + [Chunk(text[cursor..cut], cursor, cut)], start, cut - OVERLAP_SIZE, end)
  {
    AppendCut(text, chunks, start, cursor, end, Chunk(text[cursor..cut], cursor, cut));
  }

  /** A cut at the end finishes it. */
  lemma CutToEnd(text: Text, chunks: seq<Chunk>, start: nat, cursor: nat, end: nat)
    requires InProgress(text, chunks, start, cursor, end) && end <= cursor + TARGET_CHUNK_SIZE
    requires start + TARGET_CHUNK_SIZE < end && Trim(text) == text[start..end]
    ensures var all := chunks + [Chunk(text[cursor..end], cursor, end)];
            Faithful(text, all) && Chained(all) && Snapped(text, all)
  {
    var c := Chunk(text[cursor..end], cursor, end);
    AppendCut(text, chunks, start, cursor, end, c);
    CutsAreFaithful(text, chunks + [c], start, end);
  }

  /** Everything before the first unit of the trimmed text is white space, which that unit is not. */
  lemma TrimmedStart(text: Text)
    requires Trim(text) != []
    ensures Trim(text)[0] in text
    ensures var start := IndexOf(text, Trim(text)[0]);
            start + |Trim(text)| <= |text| && Trim(text) == text[start..start + |Trim(text)|]
  {
    var first := LeadingSpaces(text);
    assert text[first] == Trim(text)[0] && !IsSpace(text[first]);
    var start := IndexOf(text, text[first]);
    assert start == first;
  }

  lemma OneChunkIsFaithful(text: Text, start: nat, end: nat)
    requires start < end <= |text| && end - start <= TARGET_CHUNK_SIZE && Trim(text) == text[start..end]
    ensures var chunks := [Chunk(text[start..end], start, end)];
            Faithful(text, chunks) && Chained(chunks) && Snapped(text, chunks)
  {}

  method ChunkText(text: Text) returns (chunks: seq<Chunk>)
    ensures Faithful(text, chunks) && Chained(chunks) && Snapped(text, chunks)
  {
    var trimmed := Trim(text);
    if |trimmed| == 0 {
      return [];
    }
    TrimmedStart(text);
    var start := IndexOf(text, trimmed[0]);
    var end := start + |trimmed|;
    if end - start <= TARGET_CHUNK_SIZE {
      OneChunkIsFaithful(text, start, end);
      return [Chunk(text[start..end], start, end)];
    }

    chunks := [];
    var cursor := start;
    while cursor < end
      invariant InProgress(text, chunks, start, cursor, end)
      decreases end - cursor
    {
      var tentativeEnd := if cursor + TARGET_CHUNK_SIZE < end then cursor + TARGET_CHUNK_SIZE else end;
      var chunkEnd := if tentativeEnd == end then end else SnapToBoundary(text, cursor, tentativeEnd);
      var chunk := Chunk(text[cursor..chunkEnd], cursor, chunkEnd);
      if tentativeEnd == end {
        CutToEnd(text, chunks, start, cursor, end);
      } else {
        CutInside(text, chunks, start, cursor, end, chunkEnd);
      }
      chunks := chunks + [chunk];
      if chunkEnd >= end {
        return;
      }
      var nextCursor := chunkEnd - OVERLAP_SIZE;
      cursor := if nextCursor > cursor + 1 then nextCursor else cursor + 1;
    }
  }
}
