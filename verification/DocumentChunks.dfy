/**
  What the chunks of a whole document are: the planned chunks of all its sections, one after the other, made
  of blocks that hold the visible lines of the document.
 */
module DocumentChunks {
  import opened Text
  import opened Documents
  import opened Options
  import opened Lines
  import opened Markup
  import opened Sections
  import opened MarkdownBlocks
  import opened Packing
  import opened ChunkPlans
  import opened Chunker
  import OcrPages

  // ----- the plan of a document

  // A planned chunk under the heading path of its section.
  datatype Planned = Planned(path: seq<string>, chunk: Packed)

  function PlanOf(doc: Document, section: Section, settings: Settings): seq<Packed> {
    SectionPlan(Packer(section.headingPath, settings), SectionBlocks(doc, section))
  }

  function Under(path: seq<string>, plan: seq<Packed>): (planned: seq<Planned>)
    ensures |planned| == |plan| && forall i :: 0 <= i < |plan| ==> planned[i] == Planned(path, plan[i])
  {
    seq(|plan|, i requires 0 <= i < |plan| => Planned(path, plan[i]))
  }

  function DocumentPlan(doc: Document, sections: seq<Section>, settings: Settings): seq<Planned> {
    if sections == [] then []
    else
      var last := sections[|sections| - 1];
      DocumentPlan(doc, sections[..|sections| - 1], settings) + Under(last.headingPath, PlanOf(doc, last, settings))
  }

  // The chunk has the text, the first page and the path of the planned chunk, and keeps its promises.
  ghost predicate Renders(settings: Settings, planned: Planned, chunk: Chunk, ordinal: nat) {
    var p := Packer(planned.path, settings);
    && chunk == Chunk(planned.path, ordinal, p.ChunkText(planned.chunk.Blocks()), FirstPage(planned.chunk.Blocks()))
    && chunk.text != ""
    && WithinBound(p, planned.chunk)
  }

  ghost predicate RendersAll(settings: Settings, plan: seq<Planned>, chunks: seq<Chunk>) {
    |chunks| == |plan| && forall i :: 0 <= i < |plan| ==> Renders(settings, plan[i], chunks[i], i + 1)
  }

  lemma SectionRenders(doc: Document, section: Section, settings: Settings, before: nat)
    ensures var planned := Under(section.headingPath, PlanOf(doc, section, settings));
            var chunks := Numbered(section.headingPath, SectionChunks(doc, section, settings), before);
            && |chunks| == |planned|
            && forall i :: 0 <= i < |planned| ==> Renders(settings, planned[i], chunks[i], before + i + 1)
  {
    var p := Packer(section.headingPath, settings);
    var blocks := SectionBlocks(doc, section);
    BlocksSolid(doc, section);
    SectionRendered(p, blocks);
    SectionBounded(p, blocks);
    forall k | 0 <= k < |SectionPlan(p, blocks)| ensures p.ChunkText(SectionPlan(p, blocks)[k].Blocks()) != "" {
      PlannedIsVisible(p, blocks, k);
    }
  }

  lemma RendersJoin(settings: Settings, a: seq<Planned>, b: seq<Planned>, c: seq<Chunk>, d: seq<Chunk>)
    requires RendersAll(settings, a, c) && |d| == |b|
    requires forall i :: 0 <= i < |b| ==> Renders(settings, b[i], d[i], |c| + i + 1)
    ensures RendersAll(settings, a + b, c + d)
  {
    forall i | 0 <= i < |a + b| ensures Renders(settings, (a + b)[i], (c + d)[i], i + 1) {
      if i >= |a| {
        assert (a + b)[i] == b[i - |a|] && (c + d)[i] == d[i - |a|];
      }
    }
  }

  lemma {:induction false} SectionsRender(doc: Document, sections: seq<Section>, settings: Settings)
    ensures RendersAll(settings, DocumentPlan(doc, sections, settings), NumberAll(Batches(doc, sections, settings)))
  {
    if sections != [] {
      var n := |sections| - 1;
      SectionsRender(doc, sections[..n], settings);
      assert Batches(doc, sections, settings)[..n] == Batches(doc, sections[..n], settings);
      var before := NumberAll(Batches(doc, sections[..n], settings));
      SectionRenders(doc, sections[n], settings, |before|);
      RendersJoin(settings, DocumentPlan(doc, sections[..n], settings),
                  Under(sections[n].headingPath, PlanOf(doc, sections[n], settings)),
                  before, Numbered(sections[n].headingPath, SectionChunks(doc, sections[n], settings), |before|));
    }
  }

  /** For every document and all settings the chunks are exactly the planned chunks of all sections, in order,
      one each, numbered from one; none is empty, and each is one uncuttable block or within the token bound. */
  lemma {:induction false} ChunksArePlanned(doc: Document, settings: Settings)
    ensures RendersAll(settings, DocumentPlan(doc, SectionsOf(doc), settings), ChunksOf(doc, settings))
  {
    SectionsRender(doc, SectionsOf(doc), settings);
  }

  // ----- nothing is lost between the document and its chunks

  // The fresh blocks of planned chunks, in order.
  function FreshOf(plan: seq<Planned>): seq<Block> {
    if plan == [] then [] else FreshOf(plan[..|plan| - 1]) + plan[|plan| - 1].chunk.added
  }

  // The blocks of all sections, in order; and the same with long blocks cut into windows.
  function AllBlocks(doc: Document, sections: seq<Section>): seq<Block> {
    if sections == [] then []
    else AllBlocks(doc, sections[..|sections| - 1]) + SectionBlocks(doc, sections[|sections| - 1])
  }

  function AllExpanded(doc: Document, sections: seq<Section>, settings: Settings): seq<Block> {
    if sections == [] then []
    else
      var last := sections[|sections| - 1];
      AllExpanded(doc, sections[..|sections| - 1], settings)
      + ExpandAll(SectionBlocks(doc, last), Packer(last.headingPath, settings).ContentLimit(), settings.overlapTokens)
  }

  lemma {:induction false} FreshSplit(a: seq<Planned>, b: seq<Planned>)
    ensures FreshOf(a + b) == FreshOf(a) + FreshOf(b)
  {
    if b == [] {
      assert a + b == a;
    } else {
      var n := |b| - 1;
      assert (a + b)[..|a + b| - 1] == a + b[..n];
      FreshSplit(a, b[..n]);
    }
  }

  lemma {:induction false} FreshUnder(path: seq<string>, plan: seq<Packed>)
    ensures FreshOf(Under(path, plan)) == AddedOf(plan)
  {
    if plan != [] {
      FreshUnder(path, plan[1..]);
      assert Under(path, plan) == [Planned(path, plan[0])] + Under(path, plan[1..]);
      FreshSplit([Planned(path, plan[0])], Under(path, plan[1..]));
      FreshOne(Planned(path, plan[0]));
    }
  }

  lemma FreshOne(planned: Planned)
    ensures FreshOf([planned]) == planned.chunk.added
  {
    assert [planned][..0] == [];
    assert FreshOf([]) == [];
  }

  lemma {:induction false} FreshIsExpanded(doc: Document, sections: seq<Section>, settings: Settings)
    ensures FreshOf(DocumentPlan(doc, sections, settings)) == AllExpanded(doc, sections, settings)
  {
    if sections != [] {
      var n := |sections| - 1;
      var last := sections[n];
      FreshIsExpanded(doc, sections[..n], settings);
      FreshSplit(DocumentPlan(doc, sections[..n], settings), Under(last.headingPath, PlanOf(doc, last, settings)));
      FreshUnder(last.headingPath, PlanOf(doc, last, settings));
      SectionConserved(Packer(last.headingPath, settings), SectionBlocks(doc, last));
    }
  }

  // ----- the text of a chunk

  lemma {:induction false} JoinedContent(blocks: seq<Block>)
    ensures Content(Join("\n\n", Packing.Texts(blocks))) == BlockLines(blocks)
  {
    if blocks == [] {
      assert Content("") == [];
    } else if |blocks| == 1 {
      assert BlockLines(blocks[1..]) == [];
    } else {
      var text, rest := blocks[0].text, Join("\n\n", Packing.Texts(blocks[1..]));
      JoinedContent(blocks[1..]);
      assert Packing.Texts(blocks)[1..] == Packing.Texts(blocks[1..]);
      assert text + "\n\n" + rest == text + ['\n'] + (['\n'] + rest);
      ContentAtBreak(text, '\n', ['\n'] + rest);
      BreakIsBlank('\n', rest);
    }
  }

  /** The text of a chunk shows the context line of its section and then exactly the visible lines of its blocks,
      in order; a chunk without visible lines has no text. */
  lemma {:induction false} ChunkShows(p: Packer, blocks: seq<Block>)
    ensures BlockLines(blocks) == [] <==> p.ChunkText(blocks) == ""
    ensures BlockLines(blocks) != [] ==> Content(p.ChunkText(blocks)) == Content(p.Context()) + BlockLines(blocks)
    ensures p.Context() == HeadingContext(p.path, p.settings.injectHeadingContext)
  {
    var joined := Join("\n\n", Packing.Texts(blocks));
    var body := Normalize(joined);
    JoinedContent(blocks);
    NormalizeKeepsContent(joined);
    NormalizeIsTidy(joined);
    assert Content("") == [];
    if body != "" {
      VisibleHasContent(body);
      assert p.Context() + "\n\n" + body == p.Context() + ['\n'] + (['\n'] + body);
      ContentAtBreak(p.Context(), '\n', ['\n'] + body);
      BreakIsBlank('\n', body);
    }
  }

  // ----- the blocks hold the visible lines

  // The lines that do not read as page markers.
  function Unmarked(lines: seq<string>): seq<string> {
    if lines == [] then []
    else (if ParsePageMarker(lines[0]).Some? then [] else [lines[0]]) + Unmarked(lines[1..])
  }

  lemma {:induction false} UnmarkedSplit(a: seq<string>, b: seq<string>)
    ensures Unmarked(a + b) == Unmarked(a) + Unmarked(b)
  {
    if a == [] {
      assert a + b == b;
    } else {
      assert (a + b)[1..] == a[1..] + b;
      UnmarkedSplit(a[1..], b);
    }
  }

  function Untagged(tagged: seq<Tagged>): (lines: seq<string>)
    ensures |lines| == |tagged|
  {
    seq(|tagged|, i requires 0 <= i < |tagged| => tagged[i].line)
  }

  lemma {:induction false} UntaggedBlocks(blocks: seq<Block>)
    ensures Untagged(BlockContent(blocks)) == BlockLines(blocks)
  {
    if blocks != [] {
      UntaggedBlocks(blocks[1..]);
      UntaggedSplit(Tag(blocks[0].page, Content(blocks[0].text)), BlockContent(blocks[1..]));
      assert Untagged(Tag(blocks[0].page, Content(blocks[0].text))) == Content(blocks[0].text);
    }
  }

  lemma UntaggedSplit(a: seq<Tagged>, b: seq<Tagged>)
    ensures Untagged(a + b) == Untagged(a) + Untagged(b)
  {
  }

  lemma VisibleFirst(lines: seq<string>, i: nat)
    requires i < |lines|
    ensures Visible(lines[i..]) == (if Strip(lines[i]) == "" then [] else [Strip(lines[i])]) + Visible(lines[i + 1..])
  {
    assert lines[i..][1..] == lines[i + 1..];
  }

  lemma UnmarkedOne(line: string)
    ensures Unmarked([line]) == if ParsePageMarker(line).Some? then [] else [line]
  {
    assert [line][1..] == [];
    assert Unmarked([]) == [];
  }

  // A blank line in front adds nothing, and a visible one itself unless it reads as a page marker.
  lemma UnmarkedFirst(lines: seq<string>, i: nat)
    requires i < |lines|
    ensures Unmarked(Visible(lines[i..]))
            == (if Strip(lines[i]) == "" || ParsePageMarker(lines[i]).Some? then [] else [Strip(lines[i])])
               + Unmarked(Visible(lines[i + 1..]))
  {
    VisibleFirst(lines, i);
    OcrPages.LineBySight(lines[i]);
    UnmarkedOne(Strip(lines[i]));
    UnmarkedSplit(if Strip(lines[i]) == "" then [] else [Strip(lines[i])], Visible(lines[i + 1..]));
  }

  lemma TaggedFirst(page: Option<nat>, line: string, rest: seq<Tagged>)
    ensures Unmarked(Untagged(VisibleTag(page, line) + rest))
            == (if Strip(line) == "" || ParsePageMarker(line).Some? then [] else [Strip(line)])
               + Unmarked(Untagged(rest))
  {
    OcrPages.LineBySight(line);
    UntaggedSplit(VisibleTag(page, line), rest);
    UnmarkedOne(Strip(line));
    assert Untagged(VisibleTag(page, line)) == if Strip(line) == "" then [] else [Strip(line)];
    UnmarkedSplit(if Strip(line) == "" then [] else [Strip(line)], Untagged(rest));
  }

  lemma {:induction false} TagsKeepLines(lines: seq<string>, i: nat, mode: Mode, page: Option<nat>)
    requires i <= |lines|
    ensures Unmarked(Untagged(TagLines(lines, i, mode, page))) == Unmarked(Visible(lines[i..]))
    decreases |lines| - i, if mode == InRows then 1 else 0
  {
    if i == |lines| {
      assert lines[i..] == [];
    } else if mode.InRows? && !IsTableRow(lines[i]) {
      TagsKeepLines(lines, i, Outside, page);
    } else if mode.Outside? && ParsePageMarker(lines[i]).Some? {
      TagsKeepLines(lines, i + 1, Outside, ParsePageMarker(lines[i]));
      UnmarkedFirst(lines, i);
    } else {
      var next := NextMode(lines, i, mode);
      TagsKeepLines(lines, i + 1, next, page);
      TaggedFirst(page, lines[i], TagLines(lines, i + 1, next, page));
      UnmarkedFirst(lines, i);
    }
  }

  function NextMode(lines: seq<string>, i: nat, mode: Mode): Mode
    requires i < |lines|
  {
    var fence := DetectFence(lines[i]);
    match mode
    case Outside => if fence.Some? then InCode(fence.value) else if StartsTable(lines, i) then AtRule else Outside
    case InCode(open) => if fence.Some? && Closes(open, fence.value) then Outside else mode
    case AtRule => InRows
    case InRows => InRows
  }

  lemma SectionKeepsLines(doc: Document, section: Section)
    ensures Unmarked(BlockLines(SectionBlocks(doc, section))) == Unmarked(Content(section.text))
    ensures !doc.isMarkdown ==> BlockLines(SectionBlocks(doc, section)) == Content(section.text)
  {
    if doc.isMarkdown {
      BlocksConserve(section.text);
      UntaggedBlocks(SectionBlocks(doc, section));
      TagsKeepLines(SplitLines(section.text), 0, Outside, None);
      LinesAreContent(section.text);
      assert SplitLines(section.text)[0..] == SplitLines(section.text);
    } else {
      PlainConserves(section.text);
    }
  }

  lemma {:induction false} BlockLinesSplit(a: seq<Block>, b: seq<Block>)
    ensures BlockLines(a + b) == BlockLines(a) + BlockLines(b)
  {
    if a == [] {
      assert a + b == b;
    } else {
      assert (a + b)[1..] == a[1..] + b;
      BlockLinesSplit(a[1..], b);
    }
  }

  lemma {:induction false} SectionsKeepLines(doc: Document, sections: seq<Section>)
    ensures Unmarked(BlockLines(AllBlocks(doc, sections))) == Unmarked(SectionContent(sections))
    ensures !doc.isMarkdown ==> BlockLines(AllBlocks(doc, sections)) == SectionContent(sections)
  {
    if sections != [] {
      var n := |sections| - 1;
      SectionsKeepLines(doc, sections[..n]);
      SectionKeepsLines(doc, sections[n]);
      BlockLinesSplit(AllBlocks(doc, sections[..n]), SectionBlocks(doc, sections[n]));
      UnmarkedSplit(BlockLines(AllBlocks(doc, sections[..n])), BlockLines(SectionBlocks(doc, sections[n])));
      UnmarkedSplit(SectionContent(sections[..n]), Content(sections[n].text));
    }
  }

  // The visible lines a document is to be chunked by: without its heading lines, unless nothing else is there.
  function DocumentLines(doc: Document): seq<string> {
    if doc.isMarkdown && RenderParts(doc.title, DocumentParts(doc)) != []
    then Visible(BodyLines(Items(SplitLines(doc.text))))
    else Content(doc.text)
  }

  lemma WholeContent(doc: Document)
    ensures SectionContent(Whole(doc)) == Content(doc.text)
  {
    NormalizeKeepsContent(doc.text);
    assert Content("") == [];
    if Whole(doc) != [] {
      assert Whole(doc)[..0] == [];
      assert SectionContent([]) == [];
    }
  }

  /** Nothing is lost on the way: the fresh blocks of a document's chunks are, in order, the blocks of its
      sections, those that are too long cut into windows; and these blocks hold, in order, the visible body
      lines of a markdown document that are no page markers, or all visible lines of a plain one. */
  lemma {:induction false} DocumentConserved(doc: Document, settings: Settings)
    ensures FreshOf(DocumentPlan(doc, SectionsOf(doc), settings)) == AllExpanded(doc, SectionsOf(doc), settings)
    ensures Unmarked(BlockLines(AllBlocks(doc, SectionsOf(doc)))) == Unmarked(DocumentLines(doc))
    ensures !doc.isMarkdown ==> BlockLines(AllBlocks(doc, SectionsOf(doc))) == Content(doc.text)
  {
    FreshIsExpanded(doc, SectionsOf(doc), settings);
    SectionsKeepLines(doc, SectionsOf(doc));
    if doc.isMarkdown && RenderParts(doc.title, DocumentParts(doc)) != [] {
      SectionsConserve(doc);
    } else {
      WholeContent(doc);
    }
  }
}
