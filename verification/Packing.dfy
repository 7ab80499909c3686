/**
  Packing blocks into chunks: oversized blocks are cut first, then blocks are collected until a
  chunk is full, and each new chunk may begin with overlap carried over from the one before.
 */
module Packing {
  import opened Text
  import opened Tokens
  import opened Windows
  import opened Documents
  import opened Options

  // ----- the text of a chunk and its token count

  function HeadingContext(path: seq<string>, enabled: bool): string {
    if !enabled || path == [] then "" else "# " + Join(" / ", path)
  }

  function Texts(blocks: seq<Block>): (texts: seq<string>)
    ensures |texts| == |blocks|
    ensures forall i :: 0 <= i < |blocks| ==> texts[i] == blocks[i].text
  {
    seq(|blocks|, i requires 0 <= i < |blocks| => blocks[i].text)
  }

  // Where a chunk is being built: the heading path of its section, and the settings.
  datatype Packer = Packer(path: seq<string>, settings: Settings) {
    function Context(): string {
      HeadingContext(path, settings.injectHeadingContext)
    }

    function ContentLimit(): (limit: int)
      ensures limit >= 200
    {
      var room := settings.maxTokens - Est(Context()) - 2;
      if room > 200 then room else 200
    }

    function ChunkText(blocks: seq<Block>): string {
      var body := Normalize(Join("\n\n", Texts(blocks)));
      if body == "" then ""
      else if Context() == "" then body
      else Context() + "\n\n" + body
    }
  }

  function Sum(blocks: seq<Block>): nat {
    if blocks == [] then 0 else Est(blocks[0].text) + Sum(blocks[1..])
  }

  lemma {:induction false} SumSplit(a: seq<Block>, b: seq<Block>)
    ensures Sum(a + b) == Sum(a) + Sum(b)
  {
    if a == [] {
      assert a + b == b;
    } else {
      assert (a + b)[1..] == a[1..] + b;
      SumSplit(a[1..], b);
    }
  }

  lemma ParagraphGap(a: string, b: string)
    ensures Est(a + "\n\n" + b) == Est(a) + Est(b)
  {
    assert a + "\n\n" + b == a + ['\n'] + (['\n'] + b);
    SpaceAdditive(a, '\n', ['\n'] + b);
    SpaceAdditive("", '\n', b);
    assert "" + ['\n'] + b == ['\n'] + b;
  }

  lemma {:induction false} JoinTokens(blocks: seq<Block>)
    ensures Est(Join("\n\n", Texts(blocks))) == Sum(blocks)
  {
    if blocks == [] {
    } else if |blocks| == 1 {
      assert blocks[1..] == [];
    } else {
      JoinTokens(blocks[1..]);
      assert Texts(blocks)[1..] == Texts(blocks[1..]);
      ParagraphGap(blocks[0].text, Join("\n\n", Texts(blocks[1..])));
    }
  }

  /** A chunk costs its heading context plus the sum of its blocks, exactly; it is empty when the
      blocks cost nothing. */
  lemma {:induction false} ChunkTokens(p: Packer, blocks: seq<Block>)
    ensures p.ChunkText(blocks) == "" <==> Sum(blocks) == 0
    ensures Sum(blocks) > 0 ==> Est(p.ChunkText(blocks)) == Est(p.Context()) + Sum(blocks)
  {
    var joined := Join("\n\n", Texts(blocks));
    var body := Normalize(joined);
    JoinTokens(blocks);
    NormalizeKeepsTokens(joined);
    NormalizeIsTidy(joined);
    ParagraphGap(p.Context(), body);
  }

  function FirstPage(blocks: seq<Block>): Option<nat> {
    if blocks == [] then None
    else if blocks[0].page.Some? then blocks[0].page
    else FirstPage(blocks[1..])
  }

  /** The page of a chunk is that of its first block that has one. */
  lemma {:induction false} FirstPageMeans(blocks: seq<Block>)
    ensures FirstPage(blocks) == None <==> forall b <- blocks :: b.page == None
    ensures forall i :: 0 <= i < |blocks| && blocks[i].page.Some? && (forall j :: 0 <= j < i ==> blocks[j].page == None)
              ==> FirstPage(blocks) == blocks[i].page
  {
    if blocks != [] {
      FirstPageMeans(blocks[1..]);
      assert blocks == [blocks[0]] + blocks[1..];
      forall i | 0 <= i < |blocks| && blocks[i].page.Some? && (forall j :: 0 <= j < i ==> blocks[j].page == None)
        ensures FirstPage(blocks) == blocks[i].page
      {
        if i > 0 {
          assert blocks[1..][i - 1] == blocks[i];
          assert forall j :: 0 <= j < i - 1 ==> blocks[1..][j] == blocks[j + 1];
        }
      }
    }
  }

  // Where title `k` of a path stands in the joined path.
  function TitleAt(path: seq<string>, k: nat): nat
    requires k < |path|
  {
    if k == 0 then 0 else |path[0]| + 3 + TitleAt(path[1..], k - 1)
  }

  lemma MiddleOf(a: string, b: string, at: nat, n: nat)
    requires at + n <= |b|
    ensures (a + b)[|a| + at..|a| + at + n] == b[at..at + n]
  {
  }

  lemma {:induction false} JoinHolds(path: seq<string>, k: nat)
    requires k < |path|
    ensures TitleAt(path, k) + |path[k]| <= |Join(" / ", path)|
    ensures Join(" / ", path)[TitleAt(path, k)..TitleAt(path, k) + |path[k]|] == path[k]
    ensures k == |path| - 1 ==> TitleAt(path, k) + |path[k]| == |Join(" / ", path)|
    decreases |path|
  {
    if k == 0 {
      assert Join(" / ", path)[..|path[0]|] == path[0];
    } else {
      var rest := Join(" / ", path[1..]);
      JoinHolds(path[1..], k - 1);
      assert Join(" / ", path) == (path[0] + " / ") + rest;
      MiddleOf(path[0] + " / ", rest, TitleAt(path[1..], k - 1), |path[k]|);
    }
  }

  /** The context line of a chunk is a heading that names all titles of its path, outermost first. */
  lemma {:induction false} ContextNamesPath(path: seq<string>, k: nat)
    requires k < |path|
    ensures var line, at := HeadingContext(path, true), 2 + TitleAt(path, k);
            && "# " <= line && at + |path[k]| <= |line| && line[at..at + |path[k]|] == path[k]
            && (k == |path| - 1 ==> at + |path[k]| == |line|)
    ensures HeadingContext(path, false) == HeadingContext([], true) == ""
  {
    JoinHolds(path, k);
    MiddleOf("# ", Join(" / ", path), TitleAt(path, k), |path[k]|);
  }

  // ----- cutting oversized blocks

  function WithTexts(block: Block, texts: seq<string>): (blocks: seq<Block>)
    ensures |blocks| == |texts|
    ensures forall i :: 0 <= i < |texts| ==> blocks[i] == block.(text := texts[i])
  {
    seq(|texts|, i requires 0 <= i < |texts| => block.(text := texts[i]))
  }

  function Expand(block: Block, limit: int, overlap: int): seq<Block> {
    if Est(block.text) <= limit || !block.splittable then [block]
    else WithTexts(block, SplitText(block.text, limit, overlap))
  }

  function ExpandAll(blocks: seq<Block>, limit: int, overlap: int): seq<Block> {
    if blocks == [] then []
    else ExpandAll(blocks[..|blocks| - 1], limit, overlap) + Expand(blocks[|blocks| - 1], limit, overlap)
  }

  method ExpandOversizedBlock(block: Block, limit: int, overlap: int) returns (expanded: seq<Block>)
    ensures expanded == Expand(block, limit, overlap)
  {
    var tokens := EstimateTokens(block.text);
    if tokens <= limit || !block.splittable {
      return [block];
    }
    var pieces := SplitTextByTokenLimit(block.text, limit, overlap);
    return WithTexts(block, pieces);
  }

  // Where the blocks that come of block `i` start.
  function ExpandedAt(blocks: seq<Block>, limit: int, overlap: int, i: nat): nat
    requires i <= |blocks|
  {
    |ExpandAll(blocks[..i], limit, overlap)|
  }

  lemma {:induction false} ExpandAllPrefix(blocks: seq<Block>, limit: int, overlap: int, i: nat)
    requires i <= |blocks|
    ensures ExpandAll(blocks[..i], limit, overlap) <= ExpandAll(blocks, limit, overlap)
    decreases |blocks|
  {
    if i < |blocks| {
      var before := blocks[..|blocks| - 1];
      assert before[..i] == blocks[..i];
      ExpandAllPrefix(before, limit, overlap, i);
    } else {
      assert blocks[..i] == blocks;
    }
  }

  /** Cutting works block by block and in order: a block within the limit, or that cannot be cut, stays as it is,
      and any other becomes one block for each piece of its text, alike in all else. */
  lemma {:induction false} ExpandAllMeans(blocks: seq<Block>, limit: int, overlap: int, i: nat)
    requires i < |blocks|
    ensures ExpandedAt(blocks, limit, overlap, 0) == 0
    ensures ExpandedAt(blocks, limit, overlap, |blocks|) == |ExpandAll(blocks, limit, overlap)|
    ensures ExpandedAt(blocks, limit, overlap, i) <= ExpandedAt(blocks, limit, overlap, i + 1)
            <= |ExpandAll(blocks, limit, overlap)|
    ensures var own := ExpandAll(blocks, limit, overlap)[
                         ExpandedAt(blocks, limit, overlap, i)..ExpandedAt(blocks, limit, overlap, i + 1)];
            ExpandsTo(blocks[i], limit, overlap, own)
  {
    assert blocks[..|blocks|] == blocks;
    assert blocks[..i + 1][..i] == blocks[..i];
    ExpandAllPrefix(blocks, limit, overlap, i + 1);
    ExpandMeans(blocks[i], limit, overlap);
    var before, own := ExpandAll(blocks[..i], limit, overlap), Expand(blocks[i], limit, overlap);
    assert ExpandAll(blocks[..i + 1], limit, overlap) == before + own;
    assert ExpandAll(blocks, limit, overlap)[..|before| + |own|] == before + own;
  }

  ghost predicate ExpandsTo(block: Block, limit: int, overlap: int, own: seq<Block>) {
    var pieces := SplitText(block.text, limit, overlap);
    if Est(block.text) <= limit || !block.splittable then own == [block]
    else |own| == |pieces| && forall k :: 0 <= k < |own| ==> own[k] == block.(text := pieces[k])
  }

  lemma ExpandMeans(block: Block, limit: int, overlap: int)
    ensures ExpandsTo(block, limit, overlap, Expand(block, limit, overlap))
  {
  }

  // A block that is above the limit and cannot be cut.
  predicate Oversized(b: Block, limit: int) {
    Est(b.text) > limit && !b.splittable
  }

  /** A block is a chunk of its own exactly when it cannot be cut, has more than 200 tokens, and its context, two tokens
      and the block exceed the maximum. */
  lemma OversizedMeans(p: Packer, b: Block)
    ensures Oversized(b, p.ContentLimit())
            <==> !b.splittable && Est(b.text) > 200 && Est(p.Context()) + 2 + Est(b.text) > p.settings.maxTokens
  {
  }

  lemma SolidCosts(b: Block)
    requires Solid(b)
    ensures Est(b.text) > 0
  {
    var _, _ := StripIsMiddle(b.text);
  }

  /** After cutting, every block fits the limit unless it cannot be cut, and none is blank. */
  lemma {:induction false} ExpandAllFits(blocks: seq<Block>, limit: int, overlap: int)
    requires limit >= 1
    ensures forall b <- ExpandAll(blocks, limit, overlap) :: Est(b.text) <= limit || Oversized(b, limit)
    ensures (forall b <- blocks :: Solid(b)) ==> forall b <- ExpandAll(blocks, limit, overlap) :: Solid(b)
  {
    if blocks != [] {
      var last := blocks[|blocks| - 1];
      ExpandAllFits(blocks[..|blocks| - 1], limit, overlap);
      SplitFits(last.text, limit, overlap);
    }
  }

  // ----- the overlap carried into the next chunk

  // Blocks from the end backwards: `total` tokens are already selected, `any` says whether a block is.
  function Trailing(blocks: seq<Block>, overlap: int, total: nat, any: bool): seq<Block> {
    if blocks == [] then []
    else
      var last, before := blocks[|blocks| - 1], blocks[..|blocks| - 1];
      var tokens := Est(last.text);
      if !last.kind.Paragraph? && tokens > overlap then Trailing(before, overlap, total, any)
      else if tokens > 2 * overlap then
        var tail := Tail(last.text, overlap);
        if !any && last.splittable && tail != "" then [last.(text := tail)] else []
      else if total + tokens >= overlap then [last]
      else Trailing(before, overlap, total + tokens, true) + [last]
  }

  function TrailingOverlap(blocks: seq<Block>, overlap: int): seq<Block> {
    if overlap <= 0 then [] else Trailing(blocks, overlap, 0, false)
  }

  method TrailingOverlapBlocks(blocks: seq<Block>, settings: Settings) returns (carried: seq<Block>)
    ensures carried == TrailingOverlap(blocks, settings.overlapTokens)
  {
    var overlap := settings.overlapTokens;
    if overlap <= 0 {
      return [];
    }
    var selected: seq<Block> := [];
    var total: nat := 0;
    var i := |blocks|;
    assert blocks[..i] == blocks;
    while i > 0
      invariant 0 <= i <= |blocks|
      invariant Trailing(blocks, overlap, 0, false)
                == Trailing(blocks[..i], overlap, total, selected != []) + Reverse(selected)
    {
      i := i - 1;
      var block := blocks[i];
      assert blocks[..i + 1][..i] == blocks[..i];
      var tokens := EstimateTokens(block.text);
      if (block.kind.Code? || block.kind.Table?) && tokens > overlap {
        continue;
      }
      ReverseSnoc(selected, block);
      if tokens > overlap * 2 {
        if selected == [] && block.splittable {
          var tail := TailTextByTokens(block.text, overlap);
          if tail != "" {
            selected := selected + [block.(text := tail)];
          }
        }
        return Reverse(selected);
      }
      ConcatAssociative(Trailing(blocks[..i], overlap, total + tokens, true), [block], Reverse(selected));
      selected := selected + [block];
      total := total + tokens;
      if total >= overlap {
        return Reverse(selected);
      }
    }
    return Reverse(selected);
  }

  /** What is carried over costs less than three times the overlap. */
  lemma {:induction false} TrailingIsSmall(blocks: seq<Block>, overlap: int, total: nat, any: bool)
    requires total < overlap && (!any ==> total == 0)
    ensures total + Sum(Trailing(blocks, overlap, total, any)) < 3 * overlap
  {
    if blocks != [] {
      var last, before := blocks[|blocks| - 1], blocks[..|blocks| - 1];
      var tokens := Est(last.text);
      if !last.kind.Paragraph? && tokens > overlap {
        TrailingIsSmall(before, overlap, total, any);
      } else if tokens > 2 * overlap {
        var _ := TailFits(last.text, overlap);
        assert Sum([last.(text := Tail(last.text, overlap))]) == Est(Tail(last.text, overlap)) + Sum([]);
      } else {
        assert Sum([last]) == tokens + Sum([]);
        if total + tokens < overlap {
          TrailingIsSmall(before, overlap, total + tokens, true);
          SumSplit(Trailing(before, overlap, total + tokens, true), [last]);
        }
      }
    }
  }

  // The blocks of `sub` are blocks of `all`, at increasing positions.
  ghost predicate PickedAt(sub: seq<Block>, all: seq<Block>, at: seq<nat>) {
    && |at| == |sub|
    && (forall i :: 0 <= i < |at| ==> at[i] < |all| && all[at[i]] == sub[i])
    && (forall i, j :: 0 <= i < j < |at| ==> at[i] < at[j])
  }

  ghost predicate CutAt(sub: seq<Block>, all: seq<Block>, overlap: int, p: nat) {
    p < |all| && sub == [all[p].(text := Tail(all[p].text, overlap))]
  }

  // Either an in-order selection of whole blocks, or one block cut to its tail.
  ghost predicate CarriedFrom(sub: seq<Block>, all: seq<Block>, overlap: int) {
    (exists at :: PickedAt(sub, all, at)) || exists p :: CutAt(sub, all, overlap, p)
  }

  lemma {:induction false} TrailingPicks(blocks: seq<Block>, overlap: int, total: nat, any: bool) returns (at: seq<nat>)
    ensures var t := Trailing(blocks, overlap, total, any);
            PickedAt(t, blocks, at) || (!any && |at| == 1 && CutAt(t, blocks, overlap, at[0]))
  {
    if blocks == [] {
      at := [];
    } else {
      var n := |blocks| - 1;
      var last, before := blocks[n], blocks[..n];
      var tokens := Est(last.text);
      if !last.kind.Paragraph? && tokens > overlap {
        at := TrailingPicks(before, overlap, total, any);
      } else if tokens > 2 * overlap {
        at := if !any && last.splittable && Tail(last.text, overlap) != "" then [n] else [];
      } else if total + tokens >= overlap {
        at := [n];
      } else {
        at := TrailingPicks(before, overlap, total + tokens, true);
        at := at + [n];
      }
    }
  }

  lemma OverlapIsCarried(blocks: seq<Block>, overlap: int)
    ensures CarriedFrom(TrailingOverlap(blocks, overlap), blocks, overlap)
    ensures Sum(TrailingOverlap(blocks, overlap)) <= if overlap <= 0 then 0 else 3 * overlap - 1
  {
    if overlap <= 0 {
      assert PickedAt([], blocks, []);
    } else {
      var at := TrailingPicks(blocks, overlap, 0, false);
      assert PickedAt(Trailing(blocks, overlap, 0, false), blocks, at)
             || CutAt(Trailing(blocks, overlap, 0, false), blocks, overlap, at[0]);
      TrailingIsSmall(blocks, overlap, 0, false);
    }
  }

  // ----- what has to be carried over

  // Code and tables above the overlap are passed over.
  predicate PassedOver(b: Block, overlap: int) {
    (b.kind.Code? || b.kind.Table?) && Est(b.text) > overlap
  }

  // Any other block above twice the overlap ends the search.
  predicate Stops(b: Block, overlap: int) {
    !PassedOver(b, overlap) && Est(b.text) > 2 * overlap
  }

  function NotPassedOver(blocks: seq<Block>, overlap: int): seq<Block> {
    if blocks == [] then []
    else
      var last := blocks[|blocks| - 1];
      NotPassedOver(blocks[..|blocks| - 1], overlap) + if PassedOver(last, overlap) then [] else [last]
  }

  // All blocks from `p` on but those passed over: as few as reach the overlap together with the `total` there is
  // already, or, when they do not reach it, as many as there are before a block that stops the search.
  ghost predicate TakesFrom(blocks: seq<Block>, overlap: int, total: nat, any: bool, carried: seq<Block>, p: nat) {
    && p <= |blocks| && carried == NotPassedOver(blocks[p..], overlap)
    && (forall b <- carried :: Est(b.text) <= 2 * overlap)
    && (carried != [] ==> total + Sum(carried[1..]) < overlap)
    && (total + Sum(carried) >= overlap || p == 0 || (Stops(blocks[p - 1], overlap) && (any || carried != [])))
  }

  // The first block that is not passed over stops the search; its tail is carried, if it can be cut.
  ghost predicate CutsOnly(blocks: seq<Block>, overlap: int, carried: seq<Block>, p: nat) {
    && p < |blocks| && Stops(blocks[p], overlap)
    && (forall i :: p < i < |blocks| ==> PassedOver(blocks[i], overlap))
    && carried == if blocks[p].splittable && Tail(blocks[p].text, overlap) != ""
                  then [blocks[p].(text := Tail(blocks[p].text, overlap))] else []
  }

  lemma TakesBefore(blocks: seq<Block>, overlap: int, total: nat, any: bool, carried: seq<Block>, p: nat)
    requires blocks != [] && overlap > 0 && PassedOver(blocks[|blocks| - 1], overlap)
    requires TakesFrom(blocks[..|blocks| - 1], overlap, total, any, carried, p)
    ensures TakesFrom(blocks, overlap, total, any, carried, p)
  {
    var n := |blocks| - 1;
    assert blocks[p..][..n - p] == blocks[..n][p..];
  }

  lemma TakesLast(blocks: seq<Block>, overlap: int, total: nat, any: bool, carried: seq<Block>, p: nat)
    requires blocks != [] && overlap > 0 && !PassedOver(blocks[|blocks| - 1], overlap)
    requires Est(blocks[|blocks| - 1].text) <= 2 * overlap && total + Est(blocks[|blocks| - 1].text) < overlap
    requires TakesFrom(blocks[..|blocks| - 1], overlap, total + Est(blocks[|blocks| - 1].text), true, carried, p)
    ensures TakesFrom(blocks, overlap, total, any, carried + [blocks[|blocks| - 1]], p)
  {
    var n := |blocks| - 1;
    var last := blocks[n];
    assert blocks[p..][..n - p] == blocks[..n][p..];
    SumSplit(carried, [last]);
    assert Sum([last]) == Est(last.text) + Sum([]);
    if carried != [] {
      assert (carried + [last])[1..] == carried[1..] + [last];
      SumSplit(carried[1..], [last]);
    } else {
      assert (carried + [last])[1..] == [];
    }
  }

  lemma TakesNone(blocks: seq<Block>, overlap: int, total: nat)
    requires blocks != [] && 0 <= total < overlap && Stops(blocks[|blocks| - 1], overlap)
    ensures TakesFrom(blocks, overlap, total, true, [], |blocks|)
  {
    assert blocks[|blocks|..] == [];
  }

  lemma TakesOne(blocks: seq<Block>, overlap: int, total: nat, any: bool, last: Block)
    requires blocks != [] && last == blocks[|blocks| - 1] && 0 <= total < overlap && !PassedOver(last, overlap)
    requires Est(last.text) <= 2 * overlap && total + Est(last.text) >= overlap
    ensures TakesFrom(blocks, overlap, total, any, [last], |blocks| - 1)
  {
    assert blocks[|blocks| - 1..] == [last] && [last][..0] == [];
    assert NotPassedOver([], overlap) == [];
    assert Sum([last]) == Est(last.text) + Sum([]);
  }

  // What the search finds, as a partition of its cases.
  lemma TrailingCases(blocks: seq<Block>, overlap: int, total: nat, any: bool, last: Block, before: seq<Block>)
    requires blocks != [] && last == blocks[|blocks| - 1] && before == blocks[..|blocks| - 1]
    requires overlap > 0
    ensures PassedOver(last, overlap) ==> Trailing(blocks, overlap, total, any) == Trailing(before, overlap, total, any)
    ensures Stops(last, overlap) && any ==> Trailing(blocks, overlap, total, any) == []
    ensures Stops(last, overlap) && !any
            ==> CutsOnly(blocks, overlap, Trailing(blocks, overlap, total, any), |blocks| - 1)
    ensures !PassedOver(last, overlap) && !Stops(last, overlap)
            ==> Trailing(blocks, overlap, total, any)
                == if total + Est(last.text) >= overlap then [last]
                   else Trailing(before, overlap, total + Est(last.text), true) + [last]
  {
  }

  lemma {:induction false} TrailingTakes(blocks: seq<Block>, overlap: int, total: nat, any: bool, carried: seq<Block>)
    returns (p: nat)
    requires 0 <= total < overlap && carried == Trailing(blocks, overlap, total, any)
    ensures TakesFrom(blocks, overlap, total, any, carried, p) || (!any && CutsOnly(blocks, overlap, carried, p))
  {
    if blocks == [] {
      p := 0;
    } else {
      var n := |blocks| - 1;
      var last, before := blocks[n], blocks[..n];
      TrailingCases(blocks, overlap, total, any, last, before);
      if PassedOver(last, overlap) {
        p := TrailingTakes(before, overlap, total, any, carried);
        if TakesFrom(before, overlap, total, any, carried, p) {
          TakesBefore(blocks, overlap, total, any, carried, p);
        }
      } else if Stops(last, overlap) {
        p := if any then n + 1 else n;
        if any {
          TakesNone(blocks, overlap, total);
        }
      } else if total + Est(last.text) >= overlap {
        p := n;
        TakesOne(blocks, overlap, total, any, last);
      } else {
        var more := Trailing(before, overlap, total + Est(last.text), true);
        p := TrailingTakes(before, overlap, total + Est(last.text), true, more);
        TakesLast(blocks, overlap, total, any, more, p);
      }
    }
  }

  /** What is carried over, from below: as few blocks from the end as reach the overlap, large code and tables
      being passed over, or all there are before a block that is too large to be carried; and when that block
      comes first, its tail. */
  lemma OverlapIsReached(blocks: seq<Block>, overlap: int) returns (p: nat)
    requires overlap > 0
    ensures var carried := TrailingOverlap(blocks, overlap);
            TakesFrom(blocks, overlap, 0, false, carried, p) || CutsOnly(blocks, overlap, carried, p)
  {
    p := TrailingTakes(blocks, overlap, 0, false, TrailingOverlap(blocks, overlap));
  }

  /** In particular a last block that costs at most the overlap is the last one carried, and of a last paragraph
      above twice the overlap that can be cut exactly the tail is carried, which is not empty. */
  lemma LastIsCarried(blocks: seq<Block>, overlap: int, last: Block)
    requires overlap > 0 && blocks != [] && last == blocks[|blocks| - 1]
    ensures Est(last.text) <= overlap
            ==> (var carried := TrailingOverlap(blocks, overlap);
                 carried != [] && carried[|carried| - 1] == last)
    ensures last.kind.Paragraph? && last.splittable && Est(last.text) > 2 * overlap
            ==> && Tail(last.text, overlap) != ""
                && TrailingOverlap(blocks, overlap) == [last.(text := Tail(last.text, overlap))]
  {
    var p := OverlapIsReached(blocks, overlap);
    var carried := TrailingOverlap(blocks, overlap);
    if TakesFrom(blocks, overlap, 0, false, carried, p) {
      if p < |blocks| {
        assert blocks[p..][|blocks| - p - 1] == last;
      }
    }
    var _ := TailFits(last.text, overlap);
    if Est(last.text) > 0 && Strip(last.text) == "" {
      StripKeepsTokens(last.text);
    }
  }
}
