/** From a document to its numbered chunks: sections, blocks, packing, ordinals. */
module Chunker {
  import opened Text
  import opened Documents
  import opened Options
  import opened Lines
  import opened Sections
  import opened MarkdownBlocks
  import opened Packing
  import opened ChunkPlans

  // ----- blocks of plain text: paragraphs between blank lines

  function SpaceRun(s: string, i: nat): (j: nat)
    requires i <= |s|
    ensures i <= j <= |s| && Blank(s[i..j])
    decreases |s| - i
  {
    if i < |s| && IsSpace(s[i]) then SpaceRun(s, i + 1) else i
  }

  // The position after the last newline of s[i..j], or `i` when there is none.
  function AfterLastNewline(s: string, i: nat, j: nat): (k: nat)
    requires i <= j <= |s|
    ensures i <= k <= j && (k > i ==> s[k - 1] == '\n')
    decreases j
  {
    if j == i then i else if s[j - 1] == '\n' then j else AfterLastNewline(s, i, j - 1)
  }

  // Where the separator that starts with the newline at `i` ends: after the last newline of the
  // white space behind it, or not at all when there is no second newline.
  function SeparatorEnd(s: string, i: nat): (k: nat)
    requires i < |s|
    ensures i < k <= |s| && Blank(s[i + 1..k])
  {
    var run := SpaceRun(s, i + 1);
    var k := AfterLastNewline(s, i + 1, run);
    assert forall n :: i + 1 <= n < k ==> s[n] == s[i + 1..run][n - i - 1];
    k
  }

  predicate SeparatorAt(s: string, i: nat)
    requires i < |s|
  {
    s[i] == '\n' && SeparatorEnd(s, i) > i + 1
  }

  function NextSeparator(s: string, i: nat): (n: nat)
    requires i <= |s|
    ensures i <= n <= |s| && (n < |s| ==> SeparatorAt(s, n))
    decreases |s| - i
  {
    if i == |s| || SeparatorAt(s, i) then i else NextSeparator(s, i + 1)
  }

  function PlainBlock(text: string): seq<Block> {
    var t := Normalize(text);
    if t == "" then [] else [Block(Paragraph, t, true, None)]
  }

  function PlainBlocks(s: string): seq<Block>
    decreases |s|
  {
    var n := NextSeparator(s, 0);
    if n == |s| then PlainBlock(s) else PlainBlock(s[..n]) + PlainBlocks(s[SeparatorEnd(s, n)..])
  }

  function BlockLines(blocks: seq<Block>): seq<string> {
    if blocks == [] then [] else Content(blocks[0].text) + BlockLines(blocks[1..])
  }

  lemma {:induction false} PlainBlockContent(text: string, rest: seq<Block>)
    ensures BlockLines(PlainBlock(text) + rest) == Content(text) + BlockLines(rest)
    ensures forall b <- PlainBlock(text) :: Solid(b)
  {
    NormalizeKeepsContent(text);
    NormalizeIsTidy(text);
    StripFixed(Normalize(text));
    assert Content("") == [];
    if PlainBlock(text) == [] {
      assert PlainBlock(text) + rest == rest;
    } else {
      assert (PlainBlock(text) + rest)[1..] == rest;
    }
  }

  lemma {:induction false} BlankContent(s: string, b: string)
    requires Blank(s)
    ensures Content(s + b) == Content(b)
  {
    StripLeftKeepsContent(s + b);
    StripLeftKeepsContent(b);
    LeftOf(s, b);
  }

  lemma {:induction false} LeftOf(s: string, b: string)
    requires Blank(s)
    ensures StripLeft(s + b) == StripLeft(b)
  {
    if s == "" {
      assert s + b == b;
    } else {
      assert (s + b)[1..] == s[1..] + b;
      LeftOf(s[1..], b);
    }
  }

  /** Plain text keeps its visible lines, in order, through the cut into paragraphs. */
  lemma {:induction false} PlainConserves(s: string)
    ensures BlockLines(PlainBlocks(s)) == Content(s)
    ensures forall b <- PlainBlocks(s) :: Solid(b)
    decreases |s|
  {
    var n := NextSeparator(s, 0);
    if n == |s| {
      PlainBlockContent(s, []);
      assert PlainBlock(s) + [] == PlainBlock(s);
    } else {
      var k := SeparatorEnd(s, n);
      PlainConserves(s[k..]);
      PlainBlockContent(s[..n], PlainBlocks(s[k..]));
      CutContent(s, n, k);
    }
  }

  lemma CutContent(s: string, n: nat, k: nat)
    requires n < k <= |s| && s[n] == '\n' && Blank(s[n + 1..k])
    ensures Content(s) == Content(s[..n]) + Content(s[k..])
  {
    BlankContent(s[n + 1..k], s[k..]);
    ContentAtBreak(s[..n], '\n', s[n + 1..k] + s[k..]);
    assert s == s[..n] + ['\n'] + (s[n + 1..k] + s[k..]);
  }

  // ----- where plain text is cut

  // From `n` to `k`: white space from one newline to the last one that follows it without anything visible between.
  ghost predicate GapAt(s: string, n: nat, k: nat) {
    && n + 1 < k <= |s| && s[n] == s[k - 1] == '\n' && Blank(s[n..k])
    && forall j :: k <= j < |s| && s[j] == '\n' ==> !Blank(s[n..j + 1])
  }

  // No two newlines, the first of them before `n`, have only white space between them.
  ghost predicate NoGap(s: string, n: nat)
    requires n <= |s|
  {
    forall i, j :: 0 <= i < n && i < j < |s| && s[i] == s[j] == '\n' ==> !Blank(s[i..j + 1])
  }

  ghost predicate CutAt(s: string, piece: string, n: nat, k: nat) {
    n <= |s| && piece == s[..n] && NoGap(s, n) && GapAt(s, n, k)
  }

  // The pieces between the gaps of a text.
  ghost predicate CutUp(s: string, pieces: seq<string>)
    decreases |pieces|
  {
    && pieces != []
    && if |pieces| == 1 then pieces[0] == s && NoGap(s, |s|)
       else exists n: nat, k: nat :: CutAt(s, pieces[0], n, k) && CutUp(s[k..], pieces[1..])
  }

  // A paragraph for every piece that is not blank.
  function Paragraphs(pieces: seq<string>): seq<Block> {
    if pieces == [] then []
    else
      (if Normalize(pieces[0]) == "" then [] else [Block(Paragraph, Normalize(pieces[0]), true, None)])
      + Paragraphs(pieces[1..])
  }

  lemma {:induction false} SpaceRunStops(s: string, i: nat)
    requires i <= |s|
    ensures SpaceRun(s, i) < |s| ==> !IsSpace(s[SpaceRun(s, i)])
    decreases |s| - i
  {
    if i < |s| && IsSpace(s[i]) {
      SpaceRunStops(s, i + 1);
    }
  }

  lemma {:induction false} LastNewlineIsLast(s: string, i: nat, j: nat)
    requires i <= j <= |s|
    ensures forall n :: AfterLastNewline(s, i, j) <= n < j ==> s[n] != '\n'
    decreases j
  {
    if j > i && s[j - 1] != '\n' {
      LastNewlineIsLast(s, i, j - 1);
    }
  }

  lemma SeparatorIsGap(s: string, n: nat)
    requires n < |s| && SeparatorAt(s, n)
    ensures GapAt(s, n, SeparatorEnd(s, n))
  {
    var run, k := SpaceRun(s, n + 1), SeparatorEnd(s, n);
    SpaceRunStops(s, n + 1);
    LastNewlineIsLast(s, n + 1, run);
    assert forall i :: n < i < k ==> s[i] == s[n + 1..k][i - n - 1];
    forall j | k <= j < |s| && s[j] == '\n' ensures !Blank(s[n..j + 1]) {
      assert run <= j;
      assert s[n..j + 1][run - n] == s[run];
    }
  }

  lemma NoSeparatorNoGap(s: string, i: nat, j: nat)
    requires i < j < |s| && s[i] == s[j] == '\n' && Blank(s[i..j + 1])
    ensures SeparatorAt(s, i)
  {
    var run := SpaceRun(s, i + 1);
    SpaceRunStops(s, i + 1);
    LastNewlineIsLast(s, i + 1, run);
    forall n | i <= n <= j ensures IsSpace(s[n]) {
      assert s[i..j + 1][n - i] == s[n];
    }
  }

  lemma {:induction false} NextIsFirst(s: string, i: nat)
    requires i <= |s|
    ensures forall n :: i <= n < NextSeparator(s, i) ==> !SeparatorAt(s, n)
    decreases |s| - i
  {
    if i < |s| && !SeparatorAt(s, i) {
      NextIsFirst(s, i + 1);
    }
  }

  lemma {:induction false} NoGapBefore(s: string)
    ensures NoGap(s, NextSeparator(s, 0))
  {
    NextIsFirst(s, 0);
    forall i, j | 0 <= i < NextSeparator(s, 0) && i < j < |s| && s[i] == s[j] == '\n' ensures !Blank(s[i..j + 1]) {
      if Blank(s[i..j + 1]) {
        NoSeparatorNoGap(s, i, j);
      }
    }
  }

  /** Plain text is cut into paragraphs exactly where only white space lies between two newlines. */
  lemma {:induction false} PlainIsCutUp(s: string) returns (pieces: seq<string>)
    ensures CutUp(s, pieces) && PlainBlocks(s) == Paragraphs(pieces)
    decreases |s|
  {
    var n := NextSeparator(s, 0);
    NoGapBefore(s);
    if n == |s| {
      pieces := [s];
      assert PlainBlock(s) + [] == PlainBlock(s);
    } else {
      var k := SeparatorEnd(s, n);
      SeparatorIsGap(s, n);
      var more := PlainIsCutUp(s[k..]);
      pieces := [s[..n]] + more;
      assert pieces[1..] == more;
      assert CutAt(s, pieces[0], n, k) && CutUp(s[k..], pieces[1..]);
    }
  }

  // ----- the chunks of a document

  datatype Chunk = Chunk(headingPath: seq<string>, ordinal: nat, text: string, page: Option<nat>)

  function SectionBlocks(doc: Document, section: Section): seq<Block> {
    if doc.isMarkdown then MarkdownBlocksOf(section.text) else PlainBlocks(section.text)
  }

  function SectionChunks(doc: Document, section: Section, settings: Settings): seq<Candidate> {
    var p := Packer(section.headingPath, settings);
    Render(p, SectionPlan(p, SectionBlocks(doc, section)))
  }

  function Numbered(path: seq<string>, candidates: seq<Candidate>, before: nat): (chunks: seq<Chunk>)
    ensures |chunks| == |candidates|
    ensures forall i :: 0 <= i < |chunks| ==>
              chunks[i] == Chunk(path, before + i + 1, candidates[i].text, candidates[i].page)
  {
    seq(|candidates|, i requires 0 <= i < |candidates| =>
      Chunk(path, before + i + 1, candidates[i].text, candidates[i].page))
  }

  // The chunks of one section before they are numbered.
  datatype Batch = Batch(path: seq<string>, candidates: seq<Candidate>)

  function NumberAll(batches: seq<Batch>): seq<Chunk> {
    if batches == [] then []
    else
      var before := NumberAll(batches[..|batches| - 1]);
      var last := batches[|batches| - 1];
      before + Numbered(last.path, last.candidates, |before|)
  }

  function Batches(doc: Document, sections: seq<Section>, settings: Settings): (batches: seq<Batch>)
    ensures |batches| == |sections|
    ensures forall i :: 0 <= i < |sections| ==>
              batches[i] == Batch(sections[i].headingPath, SectionChunks(doc, sections[i], settings))
  {
    seq(|sections|, i requires 0 <= i < |sections| =>
      Batch(sections[i].headingPath, SectionChunks(doc, sections[i], settings)))
  }

  function ChunksOf(doc: Document, settings: Settings): seq<Chunk> {
    NumberAll(Batches(doc, SectionsOf(doc), settings))
  }

  method BuildSection(doc: Document, section: Section, settings: Settings) returns (candidates: seq<Candidate>)
    ensures candidates == SectionChunks(doc, section, settings)
  {
    var blocks: seq<Block>;
    if doc.isMarkdown {
      blocks := SplitMarkdownBlocks(section.text);
    } else {
      blocks := PlainBlocks(section.text);
    }
    candidates := SplitBlocks(blocks, section.headingPath, settings);
  }

  /** The program builds these chunks. */
  method BuildChunks(doc: Document, settings: Settings) returns (chunks: seq<Chunk>)
    ensures chunks == ChunksOf(doc, settings)
  {
    var sections := SplitIntoSections(doc);
    ghost var batches := Batches(doc, sections, settings);
    chunks := [];
    var ordinal := 0;
    for i := 0 to |sections|
      invariant ordinal == |chunks|
      invariant chunks == NumberAll(batches[..i])
    {
      var candidates := BuildSection(doc, sections[i], settings);
      NumberOneMore(batches, i);
      chunks := chunks + Numbered(sections[i].headingPath, candidates, ordinal);
      ordinal := ordinal + |candidates|;
    }
    assert batches[..|sections|] == batches;
  }

  lemma NumberOneMore(batches: seq<Batch>, i: nat)
    requires i < |batches|
    ensures var before := NumberAll(batches[..i]);
            NumberAll(batches[..i + 1]) == before + Numbered(batches[i].path, batches[i].candidates, |before|)
  {
    assert batches[..i + 1][..i] == batches[..i];
  }

  // Where the i-th chunk comes from, and its ordinal.
  lemma {:induction false} NumberedFrom(batches: seq<Batch>, i: nat) returns (s: nat, k: nat)
    requires i < |NumberAll(batches)|
    ensures s < |batches| && k < |batches[s].candidates|
    ensures var c := batches[s].candidates[k];
            NumberAll(batches)[i] == Chunk(batches[s].path, i + 1, c.text, c.page)
  {
    var n := |batches| - 1;
    var before := NumberAll(batches[..n]);
    if i < |before| {
      s, k := NumberedFrom(batches[..n], i);
    } else {
      s, k := n, i - |before|;
    }
  }

  lemma BlocksSolid(doc: Document, section: Section)
    ensures forall b <- SectionBlocks(doc, section) :: Solid(b)
  {
    if doc.isMarkdown {
      BlocksAreSolid(SplitLines(section.text), 0, [], None);
    } else {
      PlainConserves(section.text);
    }
  }

  // The chunk is exactly what chunk `k` of section `s` of the plan says, within its bounds.
  ghost predicate ComesFrom(doc: Document, settings: Settings, chunk: Chunk, sections: seq<Section>, s: nat, k: nat) {
    && s < |sections|
    && var p := Packer(sections[s].headingPath, settings);
       var plan := SectionPlan(p, SectionBlocks(doc, sections[s]));
       && k < |plan|
       && WithinBound(p, plan[k])
       && chunk.headingPath == sections[s].headingPath
       && chunk.text == p.ChunkText(plan[k].Blocks())
       && chunk.text != ""
       && chunk.page == FirstPage(plan[k].Blocks())
  }

  ghost predicate HasOrigin(doc: Document, settings: Settings, chunk: Chunk, sections: seq<Section>) {
    exists s: nat, k: nat :: ComesFrom(doc, settings, chunk, sections, s, k)
  }

  lemma SectionChunkFrom(doc: Document, settings: Settings, sections: seq<Section>, s: nat, k: nat, ordinal: nat)
    requires s < |sections| && k < |SectionChunks(doc, sections[s], settings)|
    ensures var c := SectionChunks(doc, sections[s], settings)[k];
            HasOrigin(doc, settings, Chunk(sections[s].headingPath, ordinal, c.text, c.page), sections)
  {
    PlannedChunkFrom(doc, settings, sections, s, k, ordinal);
  }

  lemma PlannedChunkFrom(doc: Document, settings: Settings, sections: seq<Section>, s: nat, k: nat, ordinal: nat)
    requires s < |sections| && k < |SectionChunks(doc, sections[s], settings)|
    ensures var c := SectionChunks(doc, sections[s], settings)[k];
            ComesFrom(doc, settings, Chunk(sections[s].headingPath, ordinal, c.text, c.page), sections, s, k)
  {
    var p := Packer(sections[s].headingPath, settings);
    var blocks := SectionBlocks(doc, sections[s]);
    BlocksSolid(doc, sections[s]);
    SectionRendered(p, blocks);
    SectionBounded(p, blocks);
    PlannedIsVisible(p, blocks, k);
  }

  lemma PlannedIsVisible(p: Packer, blocks: seq<Block>, k: nat)
    requires (forall b <- blocks :: Solid(b)) && k < |SectionPlan(p, blocks)|
    ensures p.ChunkText(SectionPlan(p, blocks)[k].Blocks()) != ""
  {
    var plan := SectionPlan(p, blocks);
    var expanded := ExpandAll(blocks, p.ContentLimit(), p.settings.overlapTokens);
    ExpandAllFits(blocks, p.ContentLimit(), p.settings.overlapTokens);
    PlanConserves(p, EMPTY, expanded);
    assert [] + expanded == expanded;
    AddedInPlan(plan, k);
    SolidCosts(plan[k].added[0]);
    SumSplit(plan[k].carried, plan[k].added);
    ChunkTokens(p, plan[k].Blocks());
  }

  lemma {:induction false} AddedInPlan(plan: seq<Packed>, k: nat)
    requires k < |plan| && plan[k].added != []
    ensures plan[k].added[0] in AddedOf(plan)
  {
    if k > 0 {
      AddedInPlan(plan[1..], k - 1);
    }
  }

  /** Chunk by chunk, for every document and all settings: ordinals count from one; each chunk is a
      planned chunk of one section, under the section's heading path; it is not empty, and it is one
      uncuttable block or within the token bound. */
  lemma ChunkOfDocument(doc: Document, settings: Settings, i: nat)
    requires i < |ChunksOf(doc, settings)|
    ensures var c := ChunksOf(doc, settings)[i];
            c.ordinal == i + 1 && HasOrigin(doc, settings, c, SectionsOf(doc))
  {
    var sections := SectionsOf(doc);
    var s, k := NumberedFrom(Batches(doc, sections, settings), i);
    SectionChunkFrom(doc, settings, sections, s, k, i + 1);
  }
}
