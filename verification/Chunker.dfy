/**
  Splitting long text into overlapping chunks at preferred boundaries.

  The loop ends on every text exactly for suitable sizes: a chunk may end early, at a boundary inside its last `overlap`
  characters, and must still end after the point from which the next one goes back. What overlap buys is that no short
  passage is torn: whatever fits in `overlap + 1` characters stands whole in some chunk.
*/
module Chunker {
  import opened Wrappers
  import opened Arithmetic
  import opened Text

  const MAX_CHARS := 1600
  const OVERLAP := 200

  /** Where to prefer breaking, best first. */
  const BOUNDARIES: seq<string> := ["\n\n", ". ", "\n", " "]

  /** A chunk's index, its text, and the span of the stripped document it came from. */
  datatype Chunk = Chunk(position: nat, text: string, from: nat, to: nat)

  // ---- Strings -----------------------------------------------------------------------

  predicate OccursAt(w: string, b: string, i: int) {
    0 <= i && i + |b| <= |w| && w[i..i + |b|] == b
  }

  /** The last occurrence at or before `i`, or -1. */
  function RfindFrom(w: string, b: string, i: int): (r: int)
    requires -1 <= i
    ensures -1 <= r <= i && (r >= 0 ==> OccursAt(w, b, r))
    ensures forall j :: r < j <= i ==> !OccursAt(w, b, j)
    decreases i
  {
    if i < 0 || OccursAt(w, b, i) then i else RfindFrom(w, b, i - 1)
  }

  function Rfind(w: string, b: string): (r: int)
    ensures -1 <= r <= |w| && (r >= 0 ==> OccursAt(w, b, r))
    ensures forall j :: r < j ==> !OccursAt(w, b, j)
  {
    RfindFrom(w, b, |w|)
  }

  // ---- Where a chunk ends --------------------------------------------------------------

  /** The end of the first boundary in order of preference that occurs past the start of the window. */
  function CutAfter(window: string, boundaries: seq<string>): Option<nat> {
    if boundaries == [] then None
    else
      var cut := Rfind(window, boundaries[0]);
      if cut > 0 then Some(cut + |boundaries[0]|) else CutAfter(window, boundaries[1..])
  }

  /** Where the chunk that starts at `start` ends. */
  function EndAt(text: string, start: nat, maxChars: nat, overlap: nat): int
    requires start <= |text|
  {
    var end := Min(start + maxChars, |text|);
    var low := Max(start, end - overlap);
    if end == |text| || low > end then end
    else
      var cut := CutAfter(text[low..end], BOUNDARIES);
      if cut.Some? then low + cut.value else end
  }

  /** The boundary occurs in the text between the two positions, past the first of them. */
  ghost predicate OccursWithin(text: string, b: string, low: int, high: int, i: int) {
    low < i && 0 <= i && i + |b| <= high <= |text| && text[i..i + |b|] == b
  }

  /**
    A chunk ends where it is full or the text is over, unless a boundary occurs among its last `overlap` characters:
    then it ends right after the last occurrence of the most preferred one that does.
  */
  ghost predicate EndsWell(text: string, maxChars: nat, overlap: nat, start: nat, end: int) {
    var full := Min(start + maxChars, |text|);
    var low := Max(start, full - overlap);
    if full == |text| || forall b, i :: b in BOUNDARIES ==> !OccursWithin(text, b, low, full, i) then end == full
    else exists n, i ::
      && 0 <= n < |BOUNDARIES| && OccursWithin(text, BOUNDARIES[n], low, full, i) && end == i + |BOUNDARIES[n]|
      && (forall j :: j > i ==> !OccursWithin(text, BOUNDARIES[n], low, full, j))
      && (forall m, j :: 0 <= m < n ==> !OccursWithin(text, BOUNDARIES[m], low, full, j))
  }

  lemma SliceOfSlice(text: string, low: nat, high: nat, i: nat, j: nat)
    requires low <= high <= |text| && i <= j <= high - low
    ensures text[low..high][i..j] == text[low + i..low + j]
  {
    var a, b := text[low..high][i..j], text[low + i..low + j];
    assert |a| == |b|;
    forall k | 0 <= k < |a|
      ensures a[k] == b[k]
    {
      assert text[low..high][i + k] == text[low + (i + k)];
    }
  }

  /** Occurrences in a window are occurrences in the text. */
  lemma WindowOccurs(text: string, b: string, low: nat, high: nat, i: int)
    requires low <= high <= |text|
    ensures i > 0 && OccursAt(text[low..high], b, i) <==> OccursWithin(text, b, low, high, low + i)
  {
    if 0 <= i && low + i + |b| <= high {
      SliceOfSlice(text, low, high, i, i + |b|);
    }
  }

  /** What the loop over boundaries finds in a window. */
  ghost predicate CutAt(window: string, boundaries: seq<string>, n: nat, i: int) {
    && n < |boundaries| && i > 0 && OccursAt(window, boundaries[n], i)
    && (forall j :: j > i ==> !OccursAt(window, boundaries[n], j))
    && (forall m, j :: 0 <= m < n && j > 0 ==> !OccursAt(window, boundaries[m], j))
  }

  lemma {:induction false} CutIsPreferred(window: string, boundaries: seq<string>)
    ensures CutAfter(window, boundaries).None? ==>
      forall m, j :: 0 <= m < |boundaries| && j > 0 ==> !OccursAt(window, boundaries[m], j)
    ensures CutAfter(window, boundaries).Some? ==>
      exists n: nat, i :: CutAt(window, boundaries, n, i) && CutAfter(window, boundaries).value == i + |boundaries[n]|
  {
    if boundaries != [] {
      var i := Rfind(window, boundaries[0]);
      if i > 0 {
        assert CutAt(window, boundaries, 0, i);
      } else {
        CutIsPreferred(window, boundaries[1..]);
        if CutAfter(window, boundaries[1..]).Some? {
          var n: nat, k :| CutAt(window, boundaries[1..], n, k)
                      && CutAfter(window, boundaries[1..]).value == k + |boundaries[1..][n]|;
          LaterCut(window, boundaries, n, k);
        } else {
          forall m, j | 0 <= m < |boundaries| && j > 0
            ensures !OccursAt(window, boundaries[m], j)
          {
            if m > 0 { assert boundaries[1..][m - 1] == boundaries[m]; }
          }
        }
      }
    }
  }

  lemma LaterCut(window: string, boundaries: seq<string>, n: nat, i: int)
    requires boundaries != [] && CutAt(window, boundaries[1..], n, i) && Rfind(window, boundaries[0]) <= 0
    ensures CutAt(window, boundaries, n + 1, i) && boundaries[n + 1] == boundaries[1..][n]
  {
    forall m, j | 0 <= m < n + 1 && j > 0
      ensures !OccursAt(window, boundaries[m], j)
    {
      if m > 0 { assert boundaries[1..][m - 1] == boundaries[m]; }
    }
  }

  lemma EndIsWell(text: string, start: nat, maxChars: nat, overlap: nat)
    requires start < |text|
    ensures EndsWell(text, maxChars, overlap, start, EndAt(text, start, maxChars, overlap))
  {
    var full := Min(start + maxChars, |text|);
    var low := Max(start, full - overlap);
    if full < |text| {
      var window := text[low..full];
      forall b, i
        ensures OccursWithin(text, b, low, full, i) <==> i - low > 0 && OccursAt(window, b, i - low)
      {
        WindowOccurs(text, b, low, full, i - low);
      }
      CutIsPreferred(window, BOUNDARIES);
      hide CutAfter, OccursAt, OccursWithin;
      if CutAfter(window, BOUNDARIES).Some? {
        var n: nat, i :| CutAt(window, BOUNDARIES, n, i) && CutAfter(window, BOUNDARIES).value == i + |BOUNDARIES[n]|;
        assert OccursWithin(text, BOUNDARIES[n], low, full, low + i);
        assert BOUNDARIES[n] in BOUNDARIES;
      } else {
        forall b, i | b in BOUNDARIES
          ensures !OccursWithin(text, b, low, full, i)
        {
          var m :| 0 <= m < |BOUNDARIES| && BOUNDARIES[m] == b;
        }
      }
    }
  }

  lemma FullTextEnds(text: string, maxChars: nat, overlap: nat)
    requires 0 < |text| <= maxChars
    ensures EndAt(text, 0, maxChars, overlap) == |text|
  {
  }

  lemma {:induction false} CutIsInside(window: string, boundaries: seq<string>)
    requires forall b :: b in boundaries ==> |b| >= 1
    ensures CutAfter(window, boundaries).Some? ==> 2 <= CutAfter(window, boundaries).value <= |window|
  {
    if boundaries != [] && Rfind(window, boundaries[0]) <= 0 {
      CutIsInside(window, boundaries[1..]);
    }
  }

  lemma EndIsInside(text: string, start: nat, maxChars: nat, overlap: nat)
    requires start < |text|
    ensures
      var end := EndAt(text, start, maxChars, overlap);
      && start <= end <= Min(start + maxChars, |text|)
      && (end == Min(start + maxChars, |text|) || end >= Max(start, start + maxChars - overlap) + 2)
  {
    var end := Min(start + maxChars, |text|);
    var low := Max(start, end - overlap);
    if end < |text| && low <= end {
      CutIsInside(text[low..end], BOUNDARIES);
    }
  }

  // ---- Progress -------------------------------------------------------------------------

  /** Where the next chunk starts; the text is used up once a chunk reaches its end. */
  function Next(text: string, start: nat, maxChars: nat, overlap: nat): int
    requires start < |text|
  {
    var end := EndAt(text, start, maxChars, overlap);
    if end >= |text| then |text| else end - overlap
  }

  ghost predicate AlwaysAdvances(maxChars: nat, overlap: nat) {
    forall text: string, start: nat :: start < |text| ==> start < Next(text, start, maxChars, overlap)
  }

  /** What a caller must keep to. */
  predicate Suitable(maxChars: nat, overlap: nat) {
    overlap < maxChars && 2 * overlap <= maxChars + 1
  }

  lemma SuitableAdvances(text: string, start: nat, maxChars: nat, overlap: nat)
    requires Suitable(maxChars, overlap) && start < |text|
    ensures start < Next(text, start, maxChars, overlap)
  {
    EndIsInside(text, start, maxChars, overlap);
  }

  /** A string with a character the window lacks does not occur in it. */
  lemma Absent(window: string, b: string, k: nat)
    requires k < |b| && b[k] !in window
    ensures forall i :: !OccursAt(window, b, i)
  {
    forall i
      ensures !OccursAt(window, b, i)
    {
      if 0 <= i && i + |b| <= |window| {
        assert window[i..i + |b|][k] == window[i + k];
      }
    }
  }

  lemma PlainHasNoCut(window: string, boundaries: seq<string>)
    requires forall b, i :: b in boundaries && i > 0 ==> !OccursAt(window, b, i)
    ensures CutAfter(window, boundaries) == None
  {
  }

  function Repeat(c: char, n: nat): (s: string)
    ensures |s| == n && forall i :: 0 <= i < n ==> s[i] == c
  {
    seq(n, i => c)
  }

  /** With no boundary to break at, an overlap as long as a chunk never leaves the start. */
  lemma LongOverlapStands(maxChars: nat, overlap: nat)
    requires maxChars <= overlap
    ensures Next(Repeat('a', maxChars + 1), 0, maxChars, overlap) <= 0
  {
    var text := Repeat('a', maxChars + 1);
    var window := text[0..maxChars];
    assert forall k :: 0 <= k < |window| ==> window[k] == 'a';
    forall b | b in BOUNDARIES
      ensures forall i :: !OccursAt(window, b, i)
    {
      Absent(window, b, |b| - 1);
    }
    PlainHasNoCut(window, BOUNDARIES);
  }

  /** A space as the second character of the look-back window. */
  function EarlySpace(maxChars: nat, overlap: nat): string
    requires overlap < maxChars && 2 <= overlap
  {
    Repeat('a', maxChars - overlap + 1) + [' '] + Repeat('a', overlap)
  }

  lemma EarlySpaceStands(maxChars: nat, overlap: nat)
    requires overlap < maxChars && 2 * overlap >= maxChars + 2
    ensures Next(EarlySpace(maxChars, overlap), 0, maxChars, overlap) <= 0
  {
    var text := EarlySpace(maxChars, overlap);
    var low := maxChars - overlap;
    var window := text[low..maxChars];
    assert forall k :: 0 <= k < |window| ==> window[k] == if k == 1 then ' ' else 'a';
    OnlySpace(window);
    assert EndAt(text, 0, maxChars, overlap) == low + 2;
  }

  lemma OnlySpace(window: string)
    requires |window| >= 2 && forall k :: 0 <= k < |window| ==> window[k] == if k == 1 then ' ' else 'a'
    ensures CutAfter(window, BOUNDARIES) == Some(2)
  {
    Absent(window, "\n\n", 0);
    Absent(window, ". ", 0);
    Absent(window, "\n", 0);
    LastSpace(window);
    hide OccursAt, CutAfter;
    var two, three, four := [". ", "\n", " "], ["\n", " "], [" "];
    assert BOUNDARIES[1..] == two && two[1..] == three && three[1..] == four;
    CutSteps(window, BOUNDARIES);
    CutSteps(window, two);
    CutSteps(window, three);
    CutSteps(window, four);
  }

  lemma CutSteps(window: string, boundaries: seq<string>)
    requires boundaries != []
    ensures
      var cut := Rfind(window, boundaries[0]);
      CutAfter(window, boundaries) == if cut > 0 then Some(cut + |boundaries[0]|) else CutAfter(window, boundaries[1..])
  {
  }

  lemma LastSpace(window: string)
    requires |window| >= 2 && forall k :: 0 <= k < |window| ==> window[k] == if k == 1 then ' ' else 'a'
    ensures Rfind(window, " ") == 1
  {
    assert window[1..2] == " ";
    assert OccursAt(window, " ", 1);
    forall i | i > 1
      ensures !OccursAt(window, " ", i)
    {
      if i + 1 <= |window| {
        assert window[i..i + 1][0] == window[i];
      }
    }
  }

  /** Every turn of the loop advances, on every text, exactly for suitable sizes. */
  lemma AdvancesIff(maxChars: nat, overlap: nat)
    ensures AlwaysAdvances(maxChars, overlap) <==> Suitable(maxChars, overlap)
  {
    if Suitable(maxChars, overlap) {
      forall text: string, start: nat | start < |text|
        ensures start < Next(text, start, maxChars, overlap)
      {
        SuitableAdvances(text, start, maxChars, overlap);
      }
    } else if maxChars <= overlap {
      LongOverlapStands(maxChars, overlap);
    } else {
      EarlySpaceStands(maxChars, overlap);
    }
  }

  // ---- The loop --------------------------------------------------------------------------

  /** A passage short enough to survive a boundary, with something in it. */
  ghost predicate Passage(text: string, blank: char -> bool, overlap: nat, a: nat, b: nat) {
    a < b <= |text| && b - a <= overlap + 1 && exists k :: a <= k < b && !blank(text[k])
  }

  ghost predicate Intact(chunks: seq<Chunk>, a: nat, b: nat) {
    exists c :: c in chunks && c.from <= a && b <= c.to
  }

  ghost predicate IsChunkOf(text: string, blank: char -> bool, maxChars: nat, overlap: nat, c: Chunk) {
    && c.from < c.to <= |text| && c.to - c.from <= maxChars
    && c.text == Strip(text[c.from..c.to], blank) && 0 < |c.text| <= maxChars
    && EndsWell(text, maxChars, overlap, c.from, c.to)
  }

  ghost predicate Numbered(chunks: seq<Chunk>) {
    && (forall i :: 0 <= i < |chunks| ==> chunks[i].position == i)
    && (forall i, j :: 0 <= i < j < |chunks| ==> chunks[i].from < chunks[j].from)
  }

  /** The loop over boundaries, as written. */
  method Break(text: string, start: nat, maxChars: nat, overlap: nat) returns (end: int)
    requires start < |text|
    ensures end == EndAt(text, start, maxChars, overlap)
  {
    end := Min(start + maxChars, |text|);
    if end < |text| {
      var low := Max(start, end - overlap);
      if low <= end {
        var window := text[low..end];
        for i := 0 to |BOUNDARIES|
          invariant CutAfter(window, BOUNDARIES) == CutAfter(window, BOUNDARIES[i..])
        {
          var cut := Rfind(window, BOUNDARIES[i]);
          assert BOUNDARIES[i..][1..] == BOUNDARIES[i + 1..];
          if cut > 0 {
            end := low + cut + |BOUNDARIES[i]|;
            return;
          }
        }
      }
    }
  }

  lemma SpanHolds(text: string, blank: char -> bool, overlap: nat, start: nat, end: nat, a: nat, b: nat)
    requires start <= a && b <= end <= |text| && Passage(text, blank, overlap, a, b)
    ensures Strip(text[start..end], blank) != []
  {
    var k :| a <= k < b && !blank(text[k]);
    assert text[start..end][k - start] == text[k];
    StripHolds(text[start..end], blank);
  }

  lemma IntactGrows(chunks: seq<Chunk>, c: Chunk, a: nat, b: nat)
    requires Intact(chunks, a, b)
    ensures Intact(chunks + [c], a, b)
  {
    var d :| d in chunks && d.from <= a && b <= d.to;
    assert d in chunks + [c];
  }

  /** Every passage that ends within `reach` is intact in some chunk. */
  ghost predicate Reaches(text: string, blank: char -> bool, overlap: nat, chunks: seq<Chunk>, reach: nat) {
    forall a: nat, b: nat :: b <= reach && Passage(text, blank, overlap, a, b) ==> Intact(chunks, a, b)
  }

  lemma ReachGrows(
    text: string, blank: char -> bool, overlap: nat, chunks: seq<Chunk>, reach: nat, start: nat, end: nat,
    chunks': seq<Chunk>)
    requires Reaches(text, blank, overlap, chunks, reach)
    requires start <= end <= |text| && (start == 0 || start == reach - overlap)
    requires
      var piece := Strip(text[start..end], blank);
      chunks' == if piece == [] then chunks else chunks + [Chunk(|chunks|, piece, start, end)]
    ensures Reaches(text, blank, overlap, chunks', end)
  {
    forall a: nat, b: nat | b <= end && Passage(text, blank, overlap, a, b)
      ensures Intact(chunks', a, b)
    {
      if b <= reach {
        assert Intact(chunks, a, b);
        if chunks' != chunks {
          IntactGrows(chunks, chunks'[|chunks|], a, b);
        }
      } else {
        SpanHolds(text, blank, overlap, start, end, a, b);
        assert chunks'[|chunks|] in chunks';
      }
    }
  }

  lemma NothingToReach(text: string, blank: char -> bool, overlap: nat)
    ensures Reaches(text, blank, overlap, [], 0)
  {
  }

  lemma WholeReaches(text: string, blank: char -> bool, overlap: nat, c: Chunk)
    requires c.from == 0 && c.to == |text|
    ensures Reaches(text, blank, overlap, [c], |text|)
  {
    assert c in [c];
  }

  /**
    Split a text. Chunks are numbered from 0, start strictly later each time and are never longer than `maxChars`;
    any passage of up to `overlap + 1` characters that is not blank lies whole in one of them.
  */
  method Split(text: string, maxChars: nat, overlap: nat, blank: char -> bool) returns (chunks: seq<Chunk>)
    requires Suitable(maxChars, overlap)
    ensures Numbered(chunks)
    ensures forall c :: c in chunks ==> IsChunkOf(Strip(text, blank), blank, maxChars, overlap, c)
    ensures Reaches(Strip(text, blank), blank, overlap, chunks, |Strip(text, blank)|)
    ensures |Strip(text, blank)| <= maxChars ==> |chunks| <= 1
  {
    hide Reaches, EndAt, EndsWell, StripLeft, StripRight;
    var stripped := Strip(text, blank);
    chunks := [];
    NothingToReach(stripped, blank, overlap);
    if stripped == [] {
      return;
    }
    StripIsStripped(text, blank);
    if |stripped| <= maxChars {
      var c := Chunk(0, stripped, 0, |stripped|);
      assert stripped[0..|stripped|] == stripped;
      EndIsWell(stripped, 0, maxChars, overlap);
      FullTextEnds(stripped, maxChars, overlap);
      chunks := [c];
      WholeReaches(stripped, blank, overlap, c);
      return;
    }
    var start, position := 0, 0;
    ghost var reach := 0;
    while start < |stripped|
      invariant 0 <= start && position == |chunks|
      invariant reach <= |stripped|
      invariant start == reach == 0 || (start < |stripped| && start == reach - overlap) || start == reach == |stripped|
      invariant Numbered(chunks) && (forall c :: c in chunks ==> c.from < start)
      invariant forall c :: c in chunks ==> IsChunkOf(stripped, blank, maxChars, overlap, c)
      invariant Reaches(stripped, blank, overlap, chunks, reach)
      decreases |stripped| - start
    {
      var end := Break(stripped, start, maxChars, overlap);
      EndIsInside(stripped, start, maxChars, overlap);
      EndIsWell(stripped, start, maxChars, overlap);
      SuitableAdvances(stripped, start, maxChars, overlap);
      var piece := Strip(stripped[start..end], blank);
      StripHolds(stripped[start..end], blank);
      ghost var before := chunks;
      if piece != [] {
        chunks := chunks + [Chunk(position, piece, start, end)];
        position := position + 1;
      }
      ReachGrows(stripped, blank, overlap, before, reach, start, end, chunks);
      reach := end;
      start := if end >= |stripped| then Max(end - overlap, end) else end - overlap;
    }
  }

  /** The sizes in use are suitable. */
  lemma DefaultsAreSuitable()
    ensures Suitable(MAX_CHARS, OVERLAP) && AlwaysAdvances(MAX_CHARS, OVERLAP)
  {
    AdvancesIff(MAX_CHARS, OVERLAP);
  }
}
