/**
  Cutting an oversized text into token-bounded, overlapping windows.

  Every search is given twice: as a plain scan that says which position is wanted, and as the
  method the program runs (binary searches, a loop over separators), proved to find that position.
 */
module Windows {
  import opened Text
  import opened Tokens

  function Cost(text: string, i: nat, j: nat): nat
    requires i <= j <= |text|
  {
    Est(text[i..j])
  }

  // Widening a span never makes it cheaper.
  lemma CostMonotone(text: string, i: nat, j: nat, i': nat, j': nat)
    requires i <= i' <= j' <= j <= |text|
    ensures Cost(text, i', j') <= Cost(text, i, j)
  {
    assert text[i..j] == text[i..i'] + text[i'..j];
    assert text[i'..j] == text[i'..j'] + text[j'..j];
    Monotone(text[i..i'], text[i'..j]);
    Monotone(text[i'..j'], text[j'..j]);
  }

  // ----- the end of a window

  // The greatest end up to `hi` that fits the limit; the first character is taken in any case.
  function GreatestEnd(text: string, start: nat, limit: int, hi: nat): (end: nat)
    requires start < hi <= |text|
    ensures start < end <= hi
    ensures end == start + 1 || Cost(text, start, end) <= limit
    ensures forall e :: end < e <= hi ==> Cost(text, start, e) > limit
    decreases hi
  {
    if hi == start + 1 || Cost(text, start, hi) <= limit then hi
    else GreatestEnd(text, start, limit, hi - 1)
  }

  /** The binary search finds the greatest end within the limit. */
  method FindTokenLimitedEnd(text: string, start: nat, limit: int) returns (end: nat)
    requires start < |text|
    ensures end == GreatestEnd(text, start, limit, |text|)
  {
    var low: int, high: int := start + 1, |text|;
    var best := low;
    while low <= high
      invariant start + 1 <= low <= high + 1 <= |text| + 1
      invariant best == low == start + 1 || best == low - 1
      invariant best == start + 1 || Cost(text, start, best) <= limit
      invariant forall e :: high < e <= |text| ==> Cost(text, start, e) > limit
    {
      var mid := (low + high) / 2;
      var tokens := EstimateTokens(text[start..mid]);
      if tokens <= limit {
        best := mid;
        low := mid + 1;
      } else {
        forall e | mid <= e <= |text| ensures Cost(text, start, e) > limit {
          CostMonotone(text, start, e, start, mid);
        }
        high := mid - 1;
      }
    }
    end := if best > start + 1 then best else start + 1;
  }

  // With room for one token the chosen end is within the limit, not only past the first character.
  lemma {:induction false} WindowFits(text: string, start: nat, limit: int, end: nat)
    requires start < |text| && limit >= 1
    requires start < end <= GreatestEnd(text, start, limit, |text|)
    ensures Cost(text, start, end) <= limit
  {
    var g := GreatestEnd(text, start, limit, |text|);
    if g == start + 1 {
      OneCharacter(text[start..g]);
    }
    CostMonotone(text, start, g, start, end);
  }

  // ----- moving the end back to a sentence or line boundary

  const SEPARATORS: seq<string> :=
    ["\n\n", "\n", "\U{3002}", "\U{ff01}", "\U{ff1f}", ".", "!", "?", "\U{ff1b}", ";", "\U{ff0c}", ",", " "]

  // Position `p` starts separator `k`, which ends no later than `end`.
  predicate Occurs(seps: seq<string>, text: string, k: nat, p: nat, end: nat)
    requires k < |seps| && end <= |text|
  {
    p + |seps[k]| <= end && text[p..p + |seps[k]|] == seps[k]
  }

  // Position `q` directly follows separator `k`, which starts at `minimum` or later.
  predicate Follows(seps: seq<string>, text: string, minimum: nat, k: nat, q: nat)
    requires k < |seps| && q <= |text|
  {
    minimum + |seps[k]| <= q && Occurs(seps, text, k, q - |seps[k]|, q)
  }

  predicate BreakAt(seps: seq<string>, text: string, minimum: nat, q: nat)
    requires q <= |text|
  {
    exists k :: 0 <= k < |seps| && Follows(seps, text, minimum, k, q)
  }

  // The last position up to `q` that directly follows some separator, or -1.
  function LastBreak(seps: seq<string>, text: string, minimum: nat, q: nat): (b: int)
    requires q <= |text|
    ensures b == -1 || (minimum <= b <= q && BreakAt(seps, text, minimum, b))
    ensures forall e :: b < e && 0 <= e <= q ==> !BreakAt(seps, text, minimum, e)
  {
    if BreakAt(seps, text, minimum, q) then q
    else if q == 0 then -1
    else LastBreak(seps, text, minimum, q - 1)
  }

  // The position of the last occurrence of separator `k` inside text[start..end] up to `p`, or -1.
  function RFind(seps: seq<string>, text: string, k: nat, start: nat, end: nat, p: nat): (r: int)
    requires k < |seps| && p <= end <= |text|
    ensures r == -1 || (start <= r <= p && Occurs(seps, text, k, r, end))
    ensures forall e :: r < e <= p && start <= e ==> !Occurs(seps, text, k, e, end)
  {
    if p < start then -1
    else if Occurs(seps, text, k, p, end) then p
    else if p == 0 then -1
    else RFind(seps, text, k, start, end, p - 1)
  }

  // Separators up to `k` end no later than `best` when they start at `minimum` or later.
  ghost predicate NoneBeyond(seps: seq<string>, text: string, k: nat, minimum: nat, end: nat, best: int)
    requires k <= |seps| && end <= |text|
  {
    forall j, p :: 0 <= j < k && minimum <= p && Occurs(seps, text, j, p, end) ==> p + |seps[j]| <= best
  }

  lemma {:induction false} LastBreakIsThe(seps: seq<string>, text: string, minimum: nat, end: nat, best: int)
    requires end <= |text|
    requires best == -1 || (minimum <= best <= end && BreakAt(seps, text, minimum, best))
    requires NoneBeyond(seps, text, |seps|, minimum, end, best)
    ensures best == LastBreak(seps, text, minimum, end)
  {
    var b := LastBreak(seps, text, minimum, end);
    if b != -1 {
      forall k | 0 <= k < |seps| && Follows(seps, text, minimum, k, b) ensures b <= best {
        assert Occurs(seps, text, k, b - |seps[k]|, end);
      }
    }
  }

  /** Trying the separators one after the other finds the last boundary of any of them. */
  method LastBoundary(seps: seq<string>, text: string, start: nat, minimum: nat, end: nat) returns (bestEnd: int)
    requires start <= minimum && end <= |text|
    ensures bestEnd == LastBreak(seps, text, minimum, end)
  {
    bestEnd := -1;
    for k := 0 to |seps|
      invariant bestEnd == -1 || (minimum <= bestEnd <= end && BreakAt(seps, text, minimum, bestEnd))
      invariant NoneBeyond(seps, text, k, minimum, end, bestEnd)
    {
      var position := RFind(seps, text, k, start, end, end);
      var candidateEnd := position + |seps[k]|;
      if position >= minimum && candidateEnd > bestEnd {
        bestEnd := candidateEnd;
        assert Follows(seps, text, minimum, k, bestEnd);
      }
      forall p | minimum <= p && Occurs(seps, text, k, p, end) ensures p + |seps[k]| <= bestEnd {
        assert p <= position;
      }
    }
    LastBreakIsThe(seps, text, minimum, end, bestEnd);
  }

  // At least one character and 65 percent of the window come before the separator.
  function Minimum(start: nat, end: nat): (m: nat)
    requires start < end
    ensures start < m
  {
    start + if 13 * (end - start) / 20 > 1 then 13 * (end - start) / 20 else 1
  }

  function RefinedEnd(text: string, start: nat, end: nat): (r: nat)
    requires start < end <= |text|
    ensures start < r <= end
    ensures end == |text| ==> r == end
  {
    var b := LastBreak(SEPARATORS, text, Minimum(start, end), end);
    if end == |text| || b == -1 then end else b
  }

  // A character that ends a line, a sentence or a word.
  predicate EndsPhrase(c: char) {
    c in "\n\U{3002}\U{ff01}\U{ff1f}.!?\U{ff1b};\U{ff0c}, "
  }

  // At least one character and 65 percent of the span, rounded down, lie before the character that ends at `q`.
  predicate LateEnough(start: nat, end: nat, q: nat) {
    q - 1 - start >= 1 && 20 * (q - start) > 13 * (end - start)
  }

  predicate Boundary(text: string, start: nat, end: nat, q: int)
    requires end <= |text|
  {
    start < q <= end && EndsPhrase(text[q - 1]) && LateEnough(start, end, q)
  }

  // The last boundary that comes late enough, or the end of the span when there is none or the text ends there.
  ghost predicate AtLastBoundary(text: string, start: nat, end: nat, r: nat)
    requires end <= |text|
  {
    && start < r <= end
    && (end == |text| ==> r == end)
    && (end < |text| ==> r == end || Boundary(text, start, end, r))
    && (end < |text| ==> forall q :: Boundary(text, start, end, q) ==> q <= r && Boundary(text, start, end, r))
  }

  lemma LateIsMinimum(start: nat, end: nat, q: nat)
    requires start < end && start < q
    ensures LateEnough(start, end, q) <==> Minimum(start, end) <= q - 1
  {
  }

  lemma BoundaryBreaks(text: string, start: nat, end: nat, q: nat)
    requires start < end <= |text|
    ensures Boundary(text, start, end, q) <==> start < q <= end && BreakAt(SEPARATORS, text, Minimum(start, end), q)
  {
    var m := Minimum(start, end);
    if Boundary(text, start, end, q) {
      LateIsMinimum(start, end, q);
      var k := SeparatorOf(text[q - 1]);
      assert text[q - 1..q] == SEPARATORS[k];
      assert Follows(SEPARATORS, text, m, k, q);
    }
    if start < q <= end && BreakAt(SEPARATORS, text, m, q) {
      var k :| 0 <= k < |SEPARATORS| && Follows(SEPARATORS, text, m, k, q);
      SeparatorEnds(k);
      assert text[q - |SEPARATORS[k]|..q][|SEPARATORS[k]| - 1] == text[q - 1];
      LateIsMinimum(start, end, q);
    }
  }

  lemma SeparatorOf(c: char) returns (k: nat)
    requires EndsPhrase(c)
    ensures k < |SEPARATORS| && SEPARATORS[k] == [c]
  {
    var i :| 0 <= i < 12 && "\n\U{3002}\U{ff01}\U{ff1f}.!?\U{ff1b};\U{ff0c}, "[i] == c;
    k := i + 1;
  }

  lemma SeparatorEnds(k: nat)
    requires k < |SEPARATORS|
    ensures SEPARATORS[k] != "" && EndsPhrase(SEPARATORS[k][|SEPARATORS[k]| - 1])
  {
  }

  /** The end moves back to the last boundary, of whatever kind, and only to a boundary. */
  lemma RefinedIsLast(text: string, start: nat, end: nat)
    requires start < end <= |text|
    ensures AtLastBoundary(text, start, end, RefinedEnd(text, start, end))
  {
    var r := RefinedEnd(text, start, end);
    forall q: nat | Boundary(text, start, end, q) ensures BreakAt(SEPARATORS, text, Minimum(start, end), q) {
      BoundaryBreaks(text, start, end, q);
    }
    BoundaryBreaks(text, start, end, r);
  }

  method RefineSplitEnd(text: string, start: nat, end: nat) returns (r: nat)
    requires start < end <= |text|
    ensures r == RefinedEnd(text, start, end)
  {
    if end >= |text| {
      return |text|;
    }
    var bestEnd := LastBoundary(SEPARATORS, text, start, Minimum(start, end), end);
    r := if bestEnd > start then bestEnd else end;
  }

  // ----- the start of the next window

  // The least start from `lo` on whose span up to `end` fits the limit.
  function LeastStart(text: string, lo: nat, end: nat, limit: int): (s: nat)
    requires lo <= end <= |text|
    ensures lo <= s <= end
    ensures s == end || Cost(text, s, end) <= limit
    ensures forall e :: lo <= e < s ==> Cost(text, e, end) > limit
    decreases end - lo
  {
    if lo == end || Cost(text, lo, end) <= limit then lo else LeastStart(text, lo + 1, end, limit)
  }

  // A limit of zero or less asks for no overlap at all.
  function OverlapStart(text: string, start: nat, end: nat, limit: int): (s: nat)
    requires start <= end <= |text|
    ensures start <= s <= end
  {
    if limit <= 0 then end else LeastStart(text, start, end, limit)
  }

  /** The binary search finds the least start within the limit. */
  method FindOverlapStart(text: string, start: nat, end: nat, limit: int) returns (s: nat)
    requires start <= end <= |text|
    ensures s == OverlapStart(text, start, end, limit)
  {
    if limit <= 0 {
      return end;
    }
    var low: int, high: int := start, end;
    var best := end;
    while low <= high
      invariant start <= low <= high + 1 <= end + 1
      invariant best == high == end || best == high + 1
      invariant start <= best <= end
      invariant Cost(text, best, end) <= limit
      invariant forall e :: start <= e < low ==> Cost(text, e, end) > limit
    {
      var mid := (low + high) / 2;
      var tokens := EstimateTokens(text[mid..end]);
      if tokens <= limit {
        best := mid;
        high := mid - 1;
      } else {
        forall e | start <= e <= mid ensures Cost(text, e, end) > limit {
          CostMonotone(text, e, end, mid, end);
        }
        low := mid + 1;
      }
    }
    return best;
  }

  // ----- all windows of a text

  datatype Window = Window(start: nat, end: nat)

  function WindowEnd(text: string, start: nat, limit: int): (end: nat)
    requires start < |text|
    ensures start < end <= |text|
  {
    RefinedEnd(text, start, GreatestEnd(text, start, limit, |text|))
  }

  function NextStart(text: string, w: Window, overlap: int): (next: nat)
    requires w.start < w.end <= |text|
    ensures w.start < next <= w.end
  {
    var s := OverlapStart(text, w.start, w.end, overlap);
    if s > w.start then s else w.end
  }

  // The windows from position `start` on.  Their ends need not increase, their starts do.
  function WindowsFrom(text: string, limit: int, overlap: int, start: nat): seq<Window>
    requires start <= |text|
    decreases |text| - start
  {
    if start == |text| then []
    else
      var w := Window(start, WindowEnd(text, start, limit));
      if w.end == |text| then [w]
      else [w] + WindowsFrom(text, limit, overlap, NextStart(text, w, overlap))
  }

  function Piece(text: string, w: Window): string
    requires w.start <= w.end <= |text|
  {
    Strip(text[w.start..w.end])
  }

  // The stripped windows that are not blank.
  function Pieces(text: string, ws: seq<Window>): seq<string>
    requires forall i :: 0 <= i < |ws| ==> ws[i].start <= ws[i].end <= |text|
  {
    if ws == [] then []
    else (if Piece(text, ws[0]) == "" then [] else [Piece(text, ws[0])]) + Pieces(text, ws[1..])
  }

  // A window inside the text and, given room for one token, within the limit.
  ghost predicate Fits(text: string, limit: int, w: Window) {
    w.start < w.end <= |text| && (limit >= 1 ==> Cost(text, w.start, w.end) <= limit)
  }

  // The longest span within the limit, and at least one character.
  ghost predicate Longest(text: string, start: nat, limit: int, g: nat) {
    && start < g <= |text| && (g == start + 1 || Cost(text, start, g) <= limit)
    && (g < |text| ==> Cost(text, start, g + 1) > limit)
  }

  // The window is the longest span within the limit, cut back to its last boundary.
  ghost predicate EndsWell(text: string, limit: int, w: Window) {
    exists g :: Longest(text, w.start, limit, g) && AtLastBoundary(text, w.start, g, w.end)
  }

  // The next window starts later, leaves no gap, and shares as much as the overlap allows; it shares nothing
  // when there is no overlap or the whole window is within it.
  ghost predicate Adjacent(text: string, overlap: int, v: Window, next: nat) {
    && v.start < next <= v.end <= |text|
    && Cost(text, next, v.end) <= (if overlap <= 0 then 0 else overlap)
    && (overlap <= 0 || Cost(text, v.start, v.end) <= overlap ==> next == v.end)
    && (overlap > 0 && Cost(text, v.start, v.end) > overlap
        ==> forall e :: v.start < e < next ==> Cost(text, e, v.end) > overlap)
  }

  ghost predicate Covers(text: string, limit: int, overlap: int, start: nat, ws: seq<Window>) {
    && ws != []
    && ws[0].start == start
    && ws[|ws| - 1].end == |text|
    && (forall i :: 0 <= i < |ws| ==> Fits(text, limit, ws[i]) && EndsWell(text, limit, ws[i]))
    && (forall i :: 0 < i < |ws| ==> Adjacent(text, overlap, ws[i - 1], ws[i].start))
  }

  lemma CoversMore(text: string, limit: int, overlap: int, w: Window, next: nat, ws: seq<Window>)
    requires Fits(text, limit, w) && EndsWell(text, limit, w) && Adjacent(text, overlap, w, next)
    requires Covers(text, limit, overlap, next, ws)
    ensures Covers(text, limit, overlap, w.start, [w] + ws)
  {
    var all := [w] + ws;
    forall i | 0 <= i < |all| ensures Fits(text, limit, all[i]) && EndsWell(text, limit, all[i]) {
      assert i > 0 ==> all[i] == ws[i - 1];
    }
    forall i | 0 < i < |all| ensures Adjacent(text, overlap, all[i - 1], all[i].start) {
      assert i > 1 ==> all[i] == ws[i - 1] && all[i - 1] == ws[i - 2];
    }
  }

  lemma WindowStep(text: string, limit: int, overlap: int, start: nat)
    requires start < |text|
    ensures var w := Window(start, WindowEnd(text, start, limit));
            Fits(text, limit, w) && EndsWell(text, limit, w) && Adjacent(text, overlap, w, NextStart(text, w, overlap))
  {
    var w := Window(start, WindowEnd(text, start, limit));
    var g := GreatestEnd(text, start, limit, |text|);
    RefinedIsLast(text, start, g);
    assert Longest(text, start, limit, g);
    if limit >= 1 {
      WindowFits(text, start, limit, w.end);
    }
    assert text[w.end..w.end] == "";
  }

  /** The windows start where asked, move forward, leave no gap, reach the end of the text and respect the token
      limit; each is as long as the limit and its last boundary allow, and neighbours share as much as the overlap
      allows; for every overlap, even one above the limit. */
  lemma {:induction false} WindowsCover(text: string, limit: int, overlap: int, start: nat)
    requires start < |text|
    ensures Covers(text, limit, overlap, start, WindowsFrom(text, limit, overlap, start))
    decreases |text| - start
  {
    var w := Window(start, WindowEnd(text, start, limit));
    WindowStep(text, limit, overlap, start);
    if w.end < |text| {
      var next := NextStart(text, w, overlap);
      WindowsCover(text, limit, overlap, next);
      CoversMore(text, limit, overlap, w, next, WindowsFrom(text, limit, overlap, next));
    }
  }

  /** No character falls between the windows. */
  lemma {:induction false} NoCharacterLost(text: string, limit: int, overlap: int, start: nat, i: nat)
    requires start <= i < |text|
    ensures exists w :: w in WindowsFrom(text, limit, overlap, start) && w.start <= i < w.end
    decreases |text| - start
  {
    var w := Window(start, WindowEnd(text, start, limit));
    assert w in WindowsFrom(text, limit, overlap, start);
    if i >= w.end {
      NoCharacterLost(text, limit, overlap, NextStart(text, w, overlap), i);
    }
  }

  // The pieces from position `start` on.
  function PiecesFrom(text: string, limit: int, overlap: int, start: nat): seq<string>
    requires start <= |text|
    decreases |text| - start
  {
    if start == |text| then []
    else
      var w := Window(start, WindowEnd(text, start, limit));
      (if Piece(text, w) == "" then [] else [Piece(text, w)])
      + if w.end == |text| then [] else PiecesFrom(text, limit, overlap, NextStart(text, w, overlap))
  }

  // The pieces a text is split into; a text within the limit stays whole.
  function SplitText(raw: string, limit: int, overlap: int): seq<string> {
    var text := Normalize(raw);
    if text == "" then []
    else if Est(text) <= limit then [text]
    else PiecesFrom(text, limit, overlap, 0)
  }

  lemma {:induction false} PiecesStep(text: string, limit: int, overlap: int, start: nat, before: seq<string>)
    requires start < |text|
    ensures var w := Window(start, WindowEnd(text, start, limit));
            before + PiecesFrom(text, limit, overlap, start)
            == (if Piece(text, w) == "" then before else before + [Piece(text, w)])
               + if w.end == |text| then [] else PiecesFrom(text, limit, overlap, NextStart(text, w, overlap))
  {
    var w := Window(start, WindowEnd(text, start, limit));
    ConcatAssociative(
      before,
      if Piece(text, w) == "" then [] else [Piece(text, w)],
      if w.end == |text| then [] else PiecesFrom(text, limit, overlap, NextStart(text, w, overlap)));
  }

  /** The window loop yields exactly the stripped, non-blank windows. */
  method SplitTextByTokenLimit(raw: string, limit: int, overlap: int) returns (pieces: seq<string>)
    ensures pieces == SplitText(raw, limit, overlap)
  {
    var text := Normalize(raw);
    if text == "" {
      return [];
    }
    var tokens := EstimateTokens(text);
    if tokens <= limit {
      return [text];
    }
    pieces := [];
    var start := 0;
    while start < |text|
      invariant start <= |text|
      invariant pieces + PiecesFrom(text, limit, overlap, start) == PiecesFrom(text, limit, overlap, 0)
      decreases |text| - start
    {
      var end := FindTokenLimitedEnd(text, start, limit);
      end := RefineSplitEnd(text, start, end);
      PiecesStep(text, limit, overlap, start, pieces);
      var piece := Strip(text[start..end]);
      if piece != "" {
        pieces := pieces + [piece];
      }
      if end >= |text| {
        return pieces;
      }
      var next := FindOverlapStart(text, start, end, overlap);
      start := if next > start then next else end;
    }
  }

  /** The pieces are the non-blank windows, in order. */
  lemma {:induction false} PiecesAreWindows(text: string, limit: int, overlap: int, start: nat)
    requires start < |text|
    ensures Covers(text, limit, overlap, start, WindowsFrom(text, limit, overlap, start))
    ensures PiecesFrom(text, limit, overlap, start) == Pieces(text, WindowsFrom(text, limit, overlap, start))
    decreases |text| - start
  {
    WindowsCover(text, limit, overlap, start);
    var w := Window(start, WindowEnd(text, start, limit));
    if w.end < |text| {
      var next := NextStart(text, w, overlap);
      PiecesAreWindows(text, limit, overlap, next);
      var rest := WindowsFrom(text, limit, overlap, next);
      assert ([w] + rest)[1..] == rest;
    } else {
      assert [w][1..] == [];
    }
  }

  // The text of each window.
  function Spans(text: string, ws: seq<Window>): (spans: seq<string>)
    requires forall i :: 0 <= i < |ws| ==> ws[i].start <= ws[i].end <= |text|
    ensures |spans| == |ws| && forall i :: 0 <= i < |ws| ==> spans[i] == text[ws[i].start..ws[i].end]
  {
    seq(|ws|, i requires 0 <= i < |ws| => text[ws[i].start..ws[i].end])
  }

  // `pieces` are, in order, the spans that are not blank, stripped; `at` says where they stand.
  ghost predicate ShowsSpans(spans: seq<string>, pieces: seq<string>, at: seq<nat>) {
    && |at| == |pieces|
    && (forall k :: 0 <= k < |at| ==> at[k] < |spans| && pieces[k] == Strip(spans[at[k]]))
    && (forall k, n :: 0 <= k < n < |at| ==> at[k] < at[n])
    && (forall i :: 0 <= i < |spans| ==> (i in at <==> !Blank(spans[i])))
  }

  lemma StripOfBlank(s: string)
    ensures Strip(s) == "" <==> Blank(s)
  {
    var left, right := StripIsMiddle(s);
    if Strip(s) != "" {
      assert s[|left|] == Strip(s)[0];
    }
  }

  lemma ShowsMore(spans: seq<string>, pieces: seq<string>, at: seq<nat>, last: string)
    requires ShowsSpans(spans, pieces, at)
    ensures Blank(last) ==> ShowsSpans(spans + [last], pieces, at)
    ensures !Blank(last) ==> ShowsSpans(spans + [last], pieces + [Strip(last)], at + [|spans|])
  {
    var all := spans + [last];
    forall i | 0 <= i < |spans| ensures all[i] == spans[i] {
    }
  }

  // The pieces of windows are the stripped ones of their spans that are not blank.
  function PiecesOf(spans: seq<string>): seq<string> {
    if spans == [] then [] else (if Strip(spans[0]) == "" then [] else [Strip(spans[0])]) + PiecesOf(spans[1..])
  }

  lemma {:induction false} PiecesAreOfSpans(text: string, ws: seq<Window>)
    requires forall i :: 0 <= i < |ws| ==> ws[i].start <= ws[i].end <= |text|
    ensures Pieces(text, ws) == PiecesOf(Spans(text, ws))
  {
    if ws != [] {
      PiecesAreOfSpans(text, ws[1..]);
      assert Spans(text, ws)[1..] == Spans(text, ws[1..]);
    }
  }

  lemma {:induction false} PiecesSnoc(spans: seq<string>, last: string)
    ensures PiecesOf(spans + [last]) == PiecesOf(spans) + if Strip(last) == "" then [] else [Strip(last)]
  {
    if spans == [] {
      assert ([] + [last])[1..] == [];
    } else {
      assert (spans + [last])[1..] == spans[1..] + [last];
      PiecesSnoc(spans[1..], last);
    }
  }

  lemma {:induction false} SpansShow(spans: seq<string>) returns (at: seq<nat>)
    ensures ShowsSpans(spans, PiecesOf(spans), at)
  {
    if spans == [] {
      at := [];
    } else {
      var n := |spans| - 1;
      at := SpansShow(spans[..n]);
      assert spans == spans[..n] + [spans[n]];
      PiecesSnoc(spans[..n], spans[n]);
      StripOfBlank(spans[n]);
      ShowsMore(spans[..n], PiecesOf(spans[..n]), at, spans[n]);
      at := if Blank(spans[n]) then at else at + [n];
    }
  }

  lemma PiecesShow(text: string, ws: seq<Window>) returns (at: seq<nat>)
    requires forall i :: 0 <= i < |ws| ==> ws[i].start <= ws[i].end <= |text|
    ensures ShowsSpans(Spans(text, ws), Pieces(text, ws), at)
  {
    PiecesAreOfSpans(text, ws);
    at := SpansShow(Spans(text, ws));
  }

  /** What a text is split into: nothing when it is blank, itself when it is within the limit, and else the spans
      of windows that cover it, but those that are blank. */
  lemma SplitIsWindows(raw: string, limit: int, overlap: int) returns (ws: seq<Window>, at: seq<nat>)
    ensures Normalize(raw) == "" ==> SplitText(raw, limit, overlap) == []
    ensures Normalize(raw) != "" && Est(Normalize(raw)) <= limit ==> SplitText(raw, limit, overlap) == [Normalize(raw)]
    ensures Normalize(raw) != "" && Est(Normalize(raw)) > limit ==>
              && Covers(Normalize(raw), limit, overlap, 0, ws)
              && ShowsSpans(Spans(Normalize(raw), ws), SplitText(raw, limit, overlap), at)
  {
    var text := Normalize(raw);
    ws, at := [], [];
    if text != "" && Est(text) > limit {
      ws := WindowsFrom(text, limit, overlap, 0);
      PiecesAreWindows(text, limit, overlap, 0);
      at := PiecesShow(text, ws);
    }
  }

  lemma {:induction false} PiecesFit(text: string, limit: int, overlap: int, start: nat)
    requires start <= |text| && limit >= 1
    ensures forall p <- PiecesFrom(text, limit, overlap, start) :: p != "" && Est(p) <= limit && Strip(p) == p
    decreases |text| - start
  {
    if start < |text| {
      var w := Window(start, WindowEnd(text, start, limit));
      WindowStep(text, limit, overlap, start);
      PieceFits(text, w, limit);
      if w.end < |text| {
        PiecesFit(text, limit, overlap, NextStart(text, w, overlap));
      }
    }
  }

  lemma PieceFits(text: string, w: Window, limit: int)
    requires limit >= 1 && Fits(text, limit, w)
    ensures Est(Piece(text, w)) <= limit && Strip(Piece(text, w)) == Piece(text, w)
  {
    StripKeepsTokens(text[w.start..w.end]);
    var _, _ := StripIsMiddle(text[w.start..w.end]);
    StripFixed(Piece(text, w));
  }

  /** Every piece is a stripped, non-blank text within the token limit. */
  lemma SplitFits(raw: string, limit: int, overlap: int)
    requires limit >= 1
    ensures forall p <- SplitText(raw, limit, overlap) :: p != "" && Est(p) <= limit && Strip(p) == p
  {
    NormalizeIsTidy(raw);
    StripFixed(Normalize(raw));
    PiecesFit(Normalize(raw), limit, overlap, 0);
  }

  // ----- the tail of a block that is carried over as overlap

  function Tail(raw: string, limit: int): string {
    var text := Strip(raw);
    if text == "" || Est(text) <= limit then text
    else Strip(text[OverlapStart(text, 0, |text|, limit)..])
  }

  method TailTextByTokens(raw: string, limit: int) returns (tail: string)
    ensures tail == Tail(raw, limit)
  {
    var text := Strip(raw);
    if text == "" {
      return text;
    }
    var tokens := EstimateTokens(text);
    if tokens <= limit {
      return text;
    }
    var start := FindOverlapStart(text, 0, |text|, limit);
    return Strip(text[start..]);
  }

  // The tail is cut at the first position whose rest fits the limit.
  ghost predicate CutAtFirst(text: string, limit: int, tail: string, i: nat) {
    && i <= |text| && tail == Strip(text[i..]) && Est(text[i..]) <= limit
    && forall e :: 0 <= e < i ==> Est(text[e..]) > limit
  }

  // The last character of a stripped text costs a token, and with it every end of the text.
  lemma EndCosts(text: string, e: nat)
    requires e < |text| && !IsSpace(text[|text| - 1])
    ensures Est(text[e..]) > 0
  {
    assert text[e..][|text| - 1 - e] == text[|text| - 1];
    if Est(text[e..]) == 0 {
      FreeIsBlank(text[e..]);
    }
  }

  lemma FirstFit(text: string, limit: int) returns (i: nat)
    requires limit >= 0 && text != "" && !IsSpace(text[|text| - 1])
    ensures i == OverlapStart(text, 0, |text|, limit)
    ensures Est(text[i..]) <= limit && forall e :: 0 <= e < i ==> Est(text[e..]) > limit
  {
    i := OverlapStart(text, 0, |text|, limit);
    assert text[i..|text|] == text[i..];
    forall e | 0 <= e < i ensures Est(text[e..]) > limit {
      assert text[e..|text|] == text[e..];
      if limit <= 0 {
        EndCosts(text, e);
      } else {
        assert Cost(text, e, |text|) > limit;
      }
    }
  }

  /** The tail is the greatest end of the stripped text within the limit, stripped; with room for one token the
      tail of a text that is not blank is not empty. */
  lemma TailFits(raw: string, limit: int) returns (i: nat)
    requires limit >= 0
    ensures CutAtFirst(Strip(raw), limit, Tail(raw, limit), i) && Est(Tail(raw, limit)) <= limit
    ensures limit >= 1 && Strip(raw) != "" ==> Tail(raw, limit) != ""
  {
    var text := Strip(raw);
    var _, _ := StripIsMiddle(raw);
    StripFixed(text);
    if text == "" || Est(text) <= limit {
      i := 0;
      assert text[0..] == text;
    } else {
      i := FirstFit(text, limit);
      StripKeepsTokens(text[i..]);
      if limit >= 1 {
        OneCharacter(text[|text| - 1..]);
        EndCosts(text, i);
      }
    }
  }
}
