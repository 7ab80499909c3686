/**
  Cutting the text of a markdown section into blocks: paragraphs, fenced code, tables; page markers
  are consumed and tag the blocks that follow them.
 */
module MarkdownBlocks {
  import opened Text
  import opened Documents
  import opened Options
  import opened Lines
  import opened Markup

  // ----- the blocks of a list of lines

  function CodeEnd(lines: seq<string>, i: nat, open: Fence): (end: nat)
    requires i <= |lines|
    ensures i <= end <= |lines|
    decreases |lines| - i
  {
    if i == |lines| then i
    else
      var fence := DetectFence(lines[i]);
      if fence.Some? && Closes(open, fence.value) then i + 1 else CodeEnd(lines, i + 1, open)
  }

  function TableEnd(lines: seq<string>, i: nat): (end: nat)
    requires i <= |lines|
    ensures i <= end <= |lines|
    decreases |lines| - i
  {
    if i < |lines| && IsTableRow(lines[i]) then TableEnd(lines, i + 1) else i
  }

  predicate StartsTable(lines: seq<string>, i: nat)
    requires i < |lines|
  {
    IsTableRow(lines[i]) && i + 1 < |lines| && IsTableSeparator(lines[i + 1])
  }

  function ParagraphBlock(paragraph: seq<string>, page: Option<nat>): seq<Block> {
    var text := Normalize(Join("\n", paragraph));
    if text == "" then [] else [Block(Paragraph, text, true, page)]
  }

  function LinesBlock(kind: Kind, lines: seq<string>, page: Option<nat>): Block {
    Block(kind, Strip(Join("\n", lines)), false, page)
  }

  // The blocks from line `i` on, with an open paragraph and the current page.
  function BlocksFrom(lines: seq<string>, i: nat, paragraph: seq<string>, page: Option<nat>): seq<Block>
    requires i <= |lines|
    decreases |lines| - i
  {
    if i == |lines| then ParagraphBlock(paragraph, page)
    else
      var line := lines[i];
      var fence := DetectFence(line);
      if ParsePageMarker(line).Some? then
        ParagraphBlock(paragraph, page) + BlocksFrom(lines, i + 1, [], ParsePageMarker(line))
      else if fence.Some? then
        var end := CodeEnd(lines, i + 1, fence.value);
        ParagraphBlock(paragraph, page) + ([LinesBlock(Code, lines[i..end], page)] + BlocksFrom(lines, end, [], page))
      else if StartsTable(lines, i) then
        var end := TableEnd(lines, i + 2);
        ParagraphBlock(paragraph, page) + ([LinesBlock(Table, lines[i..end], page)] + BlocksFrom(lines, end, [], page))
      else if Strip(line) == "" then
        ParagraphBlock(paragraph, page) + BlocksFrom(lines, i + 1, [], page)
      else BlocksFrom(lines, i + 1, paragraph + [line], page)
  }

  function MarkdownBlocksOf(text: string): seq<Block> {
    BlocksFrom(SplitLines(text), 0, [], None)
  }

  method ReadCode(lines: seq<string>, start: nat, open: Fence) returns (codeLines: seq<string>, index: nat)
    requires start < |lines|
    ensures index == CodeEnd(lines, start + 1, open) && codeLines == lines[start..index]
  {
    codeLines := [lines[start]];
    index := start + 1;
    while index < |lines|
      invariant start < index <= |lines| && codeLines == lines[start..index]
      invariant CodeEnd(lines, index, open) == CodeEnd(lines, start + 1, open)
    {
      codeLines := codeLines + [lines[index]];
      var closing := DetectFence(lines[index]);
      index := index + 1;
      if closing.Some? && closing.value.mark == open.mark && closing.value.length >= open.length {
        break;
      }
    }
  }

  method ReadTable(lines: seq<string>, start: nat) returns (tableLines: seq<string>, index: nat)
    requires start + 1 < |lines|
    ensures index == TableEnd(lines, start + 2) && tableLines == lines[start..index]
  {
    tableLines := [lines[start], lines[start + 1]];
    index := start + 2;
    while index < |lines| && IsTableRow(lines[index])
      invariant start + 2 <= index <= |lines| && tableLines == lines[start..index]
      invariant TableEnd(lines, index) == TableEnd(lines, start + 2)
    {
      tableLines := tableLines + [lines[index]];
      index := index + 1;
    }
  }

  method FlushParagraph(blocks: seq<Block>, paragraph: seq<string>, page: Option<nat>) returns (r: seq<Block>)
    ensures r == blocks + ParagraphBlock(paragraph, page)
  {
    var text := Normalize(Join("\n", paragraph));
    r := if text == "" then blocks else blocks + [Block(Paragraph, text, true, page)];
  }

  /** The program's line loop finds these blocks. */
  method SplitMarkdownBlocks(text: string) returns (blocks: seq<Block>)
    ensures blocks == MarkdownBlocksOf(text)
  {
    blocks := BlocksOfLines(SplitLines(text));
  }

  lemma AppendBlock(before: seq<Block>, open: seq<Block>, block: Block, rest: seq<Block>)
    ensures before + open + [block] + rest == before + (open + ([block] + rest))
  {
  }

  method BlocksOfLines(lines: seq<string>) returns (blocks: seq<Block>)
    ensures blocks == BlocksFrom(lines, 0, [], None)
  {
    ghost var all := BlocksFrom(lines, 0, [], None);
    blocks := [];
    var paragraph: seq<string> := [];
    var page: Option<nat> := None;
    var index := 0;
    while index < |lines|
      invariant index <= |lines|
      invariant blocks + BlocksFrom(lines, index, paragraph, page) == all
    {
      ghost var before, open := blocks, ParagraphBlock(paragraph, page);
      var line := lines[index];
      var marker := ParsePageMarker(line);
      var fence := DetectFence(line);
      if marker.Some? {
        blocks := FlushParagraph(blocks, paragraph, page);
        page, paragraph, index := marker, [], index + 1;
        ConcatAssociative(before, open, BlocksFrom(lines, index, paragraph, page));
      } else if fence.Some? {
        blocks := FlushParagraph(blocks, paragraph, page);
        var codeLines;
        codeLines, index := ReadCode(lines, index, fence.value);
        var block := LinesBlock(Code, codeLines, page);
        blocks, paragraph := blocks + [block], [];
        AppendBlock(before, open, block, BlocksFrom(lines, index, paragraph, page));
      } else if IsTableRow(line) && index + 1 < |lines| && IsTableSeparator(lines[index + 1]) {
        blocks := FlushParagraph(blocks, paragraph, page);
        var tableLines;
        tableLines, index := ReadTable(lines, index);
        var block := LinesBlock(Table, tableLines, page);
        blocks, paragraph := blocks + [block], [];
        AppendBlock(before, open, block, BlocksFrom(lines, index, paragraph, page));
      } else if Strip(line) == "" {
        blocks := FlushParagraph(blocks, paragraph, page);
        paragraph, index := [], index + 1;
        ConcatAssociative(before, open, BlocksFrom(lines, index, paragraph, page));
      } else {
        paragraph, index := paragraph + [line], index + 1;
      }
    }
    blocks := FlushParagraph(blocks, paragraph, page);
  }

  // ----- nothing visible is lost, and every line keeps its page

  datatype Tagged = Tagged(page: Option<nat>, line: string)

  function Tag(page: Option<nat>, lines: seq<string>): (tagged: seq<Tagged>)
    ensures |tagged| == |lines|
  {
    seq(|lines|, i requires 0 <= i < |lines| => Tagged(page, lines[i]))
  }

  // The visible lines of the blocks, each with the page of its block.
  function BlockContent(blocks: seq<Block>): seq<Tagged> {
    if blocks == [] then []
    else Tag(blocks[0].page, Content(blocks[0].text)) + BlockContent(blocks[1..])
  }

  // Reading line by line: outside, inside fenced code, at a table's second line, in its further rows.
  datatype Mode = Outside | InCode(open: Fence) | AtRule | InRows

  function VisibleTag(page: Option<nat>, line: string): seq<Tagged> {
    if Strip(line) == "" then [] else [Tagged(page, Strip(line))]
  }

  // The visible lines of a text except page markers, each with the page named by the last marker
  // before it.  A marker inside fenced code is a line like any other.
  function TagLines(lines: seq<string>, i: nat, mode: Mode, page: Option<nat>): seq<Tagged>
    requires i <= |lines|
    decreases |lines| - i, if mode == InRows then 1 else 0
  {
    if i == |lines| then []
    else
      var line := lines[i];
      match mode
      case Outside =>
        if ParsePageMarker(line).Some? then TagLines(lines, i + 1, Outside, ParsePageMarker(line))
        else
          var next := if DetectFence(line).Some? then InCode(DetectFence(line).value)
                      else if StartsTable(lines, i) then AtRule else Outside;
          VisibleTag(page, line) + TagLines(lines, i + 1, next, page)
      case InCode(open) =>
        var fence := DetectFence(line);
        var next := if fence.Some? && Closes(open, fence.value) then Outside else mode;
        VisibleTag(page, line) + TagLines(lines, i + 1, next, page)
      case AtRule => VisibleTag(page, line) + TagLines(lines, i + 1, InRows, page)
      case InRows =>
        if IsTableRow(line) then VisibleTag(page, line) + TagLines(lines, i + 1, InRows, page)
        else TagLines(lines, i, Outside, page)
  }

  lemma TagSplit(page: Option<nat>, a: seq<string>, b: seq<string>)
    ensures Tag(page, a + b) == Tag(page, a) + Tag(page, b)
  {
  }

  lemma TagOne(page: Option<nat>, line: string)
    ensures Tag(page, Visible([line])) == VisibleTag(page, line)
  {
    assert [line][1..] == [];
    assert Visible([]) == [];
  }

  // One more line in front of a run of lines.
  lemma TagCons(page: Option<nat>, lines: seq<string>, i: nat, end: nat, rest: seq<Tagged>)
    requires i < end <= |lines|
    ensures VisibleTag(page, lines[i]) + (Tag(page, Visible(lines[i + 1..end])) + rest)
            == Tag(page, Visible(lines[i..end])) + rest
  {
    TagOne(page, lines[i]);
    assert lines[i..end] == [lines[i]] + lines[i + 1..end];
    VisibleSplit([lines[i]], lines[i + 1..end]);
    TagSplit(page, Visible([lines[i]]), Visible(lines[i + 1..end]));
    ConcatAssociative(VisibleTag(page, lines[i]), Tag(page, Visible(lines[i + 1..end])), rest);
  }

  lemma CodeLineTags(lines: seq<string>, i: nat, open: Fence, page: Option<nat>, next: Mode)
    requires i < |lines|
    requires next == if DetectFence(lines[i]).Some? && Closes(open, DetectFence(lines[i]).value) then Outside
                     else InCode(open)
    ensures TagLines(lines, i, InCode(open), page) == VisibleTag(page, lines[i]) + TagLines(lines, i + 1, next, page)
  {
  }

  lemma {:induction false} CodeEndTags(lines: seq<string>, i: nat, end: nat, page: Option<nat>)
    requires i == |lines| == end || i + 1 == end <= |lines|
    ensures i == end ==> Tag(page, Visible(lines[i..end])) + TagLines(lines, end, Outside, page) == []
    ensures i < end ==> Tag(page, Visible(lines[i + 1..end])) == []
  {
  }

  lemma {:induction false} CodeTags(lines: seq<string>, i: nat, open: Fence, page: Option<nat>)
    requires i <= |lines|
    ensures var end := CodeEnd(lines, i, open);
            TagLines(lines, i, InCode(open), page)
            == Tag(page, Visible(lines[i..end])) + TagLines(lines, end, Outside, page)
    decreases |lines| - i
  {
    var end := CodeEnd(lines, i, open);
    var rest := TagLines(lines, end, Outside, page);
    if i == |lines| {
      CodeEndTags(lines, i, end, page);
    } else if DetectFence(lines[i]).Some? && Closes(open, DetectFence(lines[i]).value) {
      CodeLineTags(lines, i, open, page, Outside);
      CodeEndTags(lines, i, end, page);
      TagCons(page, lines, i, end, rest);
      assert [] + rest == rest;
    } else {
      CodeLineTags(lines, i, open, page, InCode(open));
      CodeTags(lines, i + 1, open, page);
      TagCons(page, lines, i, end, rest);
    }
  }

  lemma {:induction false} RowTags(lines: seq<string>, i: nat, page: Option<nat>)
    requires i <= |lines|
    ensures var end := TableEnd(lines, i);
            TagLines(lines, i, InRows, page)
            == Tag(page, Visible(lines[i..end])) + TagLines(lines, end, Outside, page)
    decreases |lines| - i
  {
    var end := TableEnd(lines, i);
    if i < |lines| && IsTableRow(lines[i]) {
      RowTags(lines, i + 1, page);
      TagCons(page, lines, i, end, TagLines(lines, end, Outside, page));
    } else {
      assert lines[i..end] == [];
    }
  }

  lemma StripKeepsContent(s: string)
    ensures Content(Strip(s)) == Content(s)
  {
    StripLeftKeepsContent(s);
    StripRightKeepsContent(StripLeft(s));
  }

  lemma {:induction false} ParagraphContent(paragraph: seq<string>, page: Option<nat>, rest: seq<Block>)
    requires AreLines(paragraph)
    ensures BlockContent(ParagraphBlock(paragraph, page) + rest)
            == Tag(page, Visible(paragraph)) + BlockContent(rest)
  {
    var joined := Join("\n", paragraph);
    JoinContent(paragraph);
    NormalizeKeepsContent(joined);
    var blocks := ParagraphBlock(paragraph, page);
    if blocks == [] {
      assert Content("") == [];
      assert blocks + rest == rest;
    } else {
      assert (blocks + rest)[1..] == rest;
    }
  }

  lemma {:induction false} LinesContent(kind: Kind, lines: seq<string>, page: Option<nat>, rest: seq<Block>)
    requires AreLines(lines)
    ensures BlockContent([LinesBlock(kind, lines, page)] + rest) == Tag(page, Visible(lines)) + BlockContent(rest)
  {
    JoinContent(lines);
    StripKeepsContent(Join("\n", lines));
    assert ([LinesBlock(kind, lines, page)] + rest)[1..] == rest;
  }

  // What is to be shown for the blocks from line `i` on.
  ghost predicate Kept(lines: seq<string>, i: nat, paragraph: seq<string>, page: Option<nat>)
    requires i <= |lines|
  {
    BlockContent(BlocksFrom(lines, i, paragraph, page))
    == Tag(page, Visible(paragraph)) + TagLines(lines, i, Outside, page)
  }

  lemma {:induction false} BlocksKeepLines(lines: seq<string>, i: nat, paragraph: seq<string>, page: Option<nat>)
    requires i <= |lines| && AreLines(lines) && AreLines(paragraph)
    ensures Kept(lines, i, paragraph, page)
    decreases |lines| - i
  {
    if i == |lines| {
      ParagraphContent(paragraph, page, []);
      assert ParagraphBlock(paragraph, page) + [] == ParagraphBlock(paragraph, page);
    } else if ParsePageMarker(lines[i]).Some? {
      BlocksKeepLines(lines, i + 1, [], ParsePageMarker(lines[i]));
      ParagraphContent(paragraph, page, BlocksFrom(lines, i + 1, [], ParsePageMarker(lines[i])));
    } else if DetectFence(lines[i]).Some? {
      CodeKept(lines, i, paragraph, page);
    } else if StartsTable(lines, i) {
      TableKept(lines, i, paragraph, page);
    } else {
      ProseKept(lines, i, paragraph, page);
    }
  }

  lemma CodeKept(lines: seq<string>, i: nat, paragraph: seq<string>, page: Option<nat>)
    requires i < |lines| && AreLines(lines) && AreLines(paragraph)
    requires ParsePageMarker(lines[i]).None? && DetectFence(lines[i]).Some?
    ensures Kept(lines, i, paragraph, page)
    decreases |lines| - i, 1
  {
    var open := DetectFence(lines[i]).value;
    CodeTags(lines, i + 1, open, page);
    LinesKept(Code, lines, i, CodeEnd(lines, i + 1, open), paragraph, page);
  }

  lemma TableTags(lines: seq<string>, i: nat, page: Option<nat>)
    requires i < |lines| && ParsePageMarker(lines[i]).None? && DetectFence(lines[i]).None? && StartsTable(lines, i)
    ensures var end := TableEnd(lines, i + 2);
            TagLines(lines, i, Outside, page)
            == VisibleTag(page, lines[i])
              + (Tag(page, Visible(lines[i + 1..end])) + TagLines(lines, end, Outside, page))
  {
    var end := TableEnd(lines, i + 2);
    RowTags(lines, i + 2, page);
    TagCons(page, lines, i + 1, end, TagLines(lines, end, Outside, page));
    assert TagLines(lines, i + 1, AtRule, page)
           == VisibleTag(page, lines[i + 1]) + TagLines(lines, i + 2, InRows, page);
  }

  lemma TableBlocks(lines: seq<string>, i: nat, paragraph: seq<string>, page: Option<nat>)
    requires i < |lines| && ParsePageMarker(lines[i]).None? && DetectFence(lines[i]).None? && StartsTable(lines, i)
    ensures var end := TableEnd(lines, i + 2);
            BlocksFrom(lines, i, paragraph, page)
            == ParagraphBlock(paragraph, page)
              + ([LinesBlock(Table, lines[i..end], page)] + BlocksFrom(lines, end, [], page))
  {
  }

  lemma TableKept(lines: seq<string>, i: nat, paragraph: seq<string>, page: Option<nat>)
    requires i < |lines| && AreLines(lines) && AreLines(paragraph)
    requires ParsePageMarker(lines[i]).None? && DetectFence(lines[i]).None? && StartsTable(lines, i)
    ensures Kept(lines, i, paragraph, page)
    decreases |lines| - i, 1
  {
    TableTags(lines, i, page);
    LinesKept(Table, lines, i, TableEnd(lines, i + 2), paragraph, page);
    TableBlocks(lines, i, paragraph, page);
  }

  lemma ProseKept(lines: seq<string>, i: nat, paragraph: seq<string>, page: Option<nat>)
    requires i < |lines| && AreLines(lines) && AreLines(paragraph)
    requires ParsePageMarker(lines[i]).None? && DetectFence(lines[i]).None? && !StartsTable(lines, i)
    ensures Kept(lines, i, paragraph, page)
    decreases |lines| - i, 1
  {
    var line := lines[i];
    if Strip(line) == "" {
      BlocksKeepLines(lines, i + 1, [], page);
      ParagraphContent(paragraph, page, BlocksFrom(lines, i + 1, [], page));
    } else {
      BlocksKeepLines(lines, i + 1, paragraph + [line], page);
      VisibleSplit(paragraph, [line]);
      TagSplit(page, Visible(paragraph), Visible([line]));
      TagOne(page, line);
      ConcatAssociative(Tag(page, Visible(paragraph)), VisibleTag(page, line), TagLines(lines, i + 1, Outside, page));
    }
  }

  // A block of whole lines, after the open paragraph.
  lemma {:induction false} LinesKept(kind: Kind, lines: seq<string>, i: nat, end: nat, paragraph: seq<string>,
                                     page: Option<nat>)
    requires i < end <= |lines| && AreLines(lines) && AreLines(paragraph)
    ensures var rest := BlocksFrom(lines, end, [], page);
            BlockContent(ParagraphBlock(paragraph, page) + ([LinesBlock(kind, lines[i..end], page)] + rest))
            == Tag(page, Visible(paragraph))
               + (VisibleTag(page, lines[i])
                 + (Tag(page, Visible(lines[i + 1..end])) + TagLines(lines, end, Outside, page)))
    decreases |lines| - i, 0
  {
    var rest := BlocksFrom(lines, end, [], page);
    BlocksKeepLines(lines, end, [], page);
    assert Tag(page, Visible([])) + TagLines(lines, end, Outside, page) == TagLines(lines, end, Outside, page);
    LinesContent(kind, lines[i..end], page, rest);
    ParagraphContent(paragraph, page, [LinesBlock(kind, lines[i..end], page)] + rest);
    TagCons(page, lines, i, end, TagLines(lines, end, Outside, page));
  }

  /** The blocks hold exactly the visible lines of the text other than page markers, in order, and
      each line is in a block of the page it belongs to. */
  lemma {:induction false} BlocksConserve(text: string)
    ensures BlockContent(MarkdownBlocksOf(text)) == TagLines(SplitLines(text), 0, Outside, None)
  {
    BlocksKeepLines(SplitLines(text), 0, [], None);
    assert Tag(None, Visible([])) == [];
  }

  // ----- blocks are never blank

  lemma ParagraphSolid(paragraph: seq<string>, page: Option<nat>)
    ensures forall b <- ParagraphBlock(paragraph, page) :: Solid(b)
  {
    NormalizeIsTidy(Join("\n", paragraph));
    StripFixed(Normalize(Join("\n", paragraph)));
  }

  lemma LinesSolid(kind: Kind, lines: seq<string>, page: Option<nat>)
    requires AreLines(lines) && lines != [] && Strip(lines[0]) != ""
    ensures Solid(LinesBlock(kind, lines, page))
  {
    var joined := Join("\n", lines);
    JoinContent(lines);
    StripKeepsContent(joined);
    assert Content("") == [];
    var _, _ := StripIsMiddle(joined);
    StripFixed(Strip(joined));
  }

  lemma FenceIsVisible(line: string)
    requires DetectFence(line).Some? || IsTableRow(line)
    ensures Strip(line) != ""
  {
    var left := StripLeftCuts(line);
    var right := StripRightCuts(StripLeft(line));
  }

  lemma {:induction false} BlocksAreSolid(lines: seq<string>, i: nat, paragraph: seq<string>, page: Option<nat>)
    requires i <= |lines| && AreLines(lines)
    ensures forall b <- BlocksFrom(lines, i, paragraph, page) :: Solid(b)
    decreases |lines| - i
  {
    ParagraphSolid(paragraph, page);
    if i < |lines| {
      var line := lines[i];
      var fence := DetectFence(line);
      if ParsePageMarker(line).Some? {
        BlocksAreSolid(lines, i + 1, [], ParsePageMarker(line));
      } else if fence.Some? {
        var end := CodeEnd(lines, i + 1, fence.value);
        FenceIsVisible(line);
        LinesSolid(Code, lines[i..end], page);
        BlocksAreSolid(lines, end, [], page);
      } else if StartsTable(lines, i) {
        var end := TableEnd(lines, i + 2);
        FenceIsVisible(line);
        LinesSolid(Table, lines[i..end], page);
        BlocksAreSolid(lines, end, [], page);
      } else if Strip(line) == "" {
        BlocksAreSolid(lines, i + 1, [], page);
      } else {
        BlocksAreSolid(lines, i + 1, paragraph + [line], page);
      }
    }
  }
}
