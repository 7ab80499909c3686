/** Where the blocks of a section lie among its lines, and of which lines each is made. */
module BlockForms {
  import opened Text
  import opened Documents
  import opened Options
  import opened Lines
  import opened Markup
  import opened MarkdownBlocks
  import opened LineForms

  // Line `m` opens a code block of `n` marks `c`; it ends behind the first line that closes it, or with the text.
  ghost predicate CodeAt(lines: seq<string>, m: nat, end: nat, c: char, n: nat) {
    && m < end <= |lines| && IsMark(c) && n >= 3 && WrittenFence(lines[m], c, n)
    && (forall j :: m < j < end - 1 ==> !ClosesBlock(lines[j], c, n))
    && (end < |lines| ==> m < end - 1 && ClosesBlock(lines[end - 1], c, n))
  }

  // A row, a line of rules, and all rows behind them.
  ghost predicate TableAt(lines: seq<string>, m: nat, end: nat) {
    && m + 1 < end <= |lines| && IsTableRow(lines[m]) && IsTableSeparator(lines[m + 1])
    && (forall j :: m + 1 < j < end ==> IsTableRow(lines[j]))
    && (end < |lines| ==> !IsTableRow(lines[end]))
  }

  // A visible line that is no page marker, opens no code block, and is not the head of a table.
  ghost predicate Prose(lines: seq<string>, j: nat)
    requires j < |lines|
  {
    && Strip(lines[j]) != "" && ParsePageMarker(lines[j]) == None && DetectFence(lines[j]) == None
    && !(IsTableRow(lines[j]) && j + 1 < |lines| && IsTableSeparator(lines[j + 1]))
  }

  ghost predicate ProseAt(lines: seq<string>, m: nat, end: nat) {
    && m < end <= |lines| && (forall j :: m <= j < end ==> Prose(lines, j))
    && (end < |lines| ==> !Prose(lines, end))
  }

  // The block is made of the lines from `m` to `end`. Only a paragraph may be cut.
  ghost predicate BlockAt(lines: seq<string>, b: Block, m: nat, end: nat) {
    && m <= end <= |lines|
    && (b.splittable <==> b.kind == Paragraph)
    && match b.kind
       case Paragraph => ProseAt(lines, m, end) && b.text == Normalize(Join("\n", lines[m..end]))
       case Code => (exists c, n :: CodeAt(lines, m, end, c, n)) && b.text == Strip(Join("\n", lines[m..end]))
       case Table => TableAt(lines, m, end) && DetectFence(lines[m]) == None
                     && b.text == Strip(Join("\n", lines[m..end]))
  }

  predicate Passed(line: string) {
    Strip(line) == "" || ParsePageMarker(line).Some?
  }

  ghost predicate Gap(lines: seq<string>, m: nat, end: nat) {
    m <= end <= |lines| && forall j :: m <= j < end ==> Passed(lines[j])
  }

  // From line `i` on the blocks lie one behind the other, with only blank lines and page markers between them.
  ghost predicate LaidOut(lines: seq<string>, i: nat, blocks: seq<Block>, from: seq<nat>, to: seq<nat>)
    decreases |blocks|
  {
    && |from| == |to| == |blocks|
    && if blocks == [] then Gap(lines, i, |lines|)
       else
         && Gap(lines, i, from[0]) && BlockAt(lines, blocks[0], from[0], to[0])
         && LaidOut(lines, to[0], blocks[1..], from[1..], to[1..])
  }

  lemma GapBefore(lines: seq<string>, i: nat, blocks: seq<Block>, from: seq<nat>, to: seq<nat>)
    requires i < |lines| && Passed(lines[i]) && LaidOut(lines, i + 1, blocks, from, to)
    ensures LaidOut(lines, i, blocks, from, to)
  {
    if blocks != [] {
      assert Gap(lines, i, from[0]);
    }
  }

  lemma {:induction false} BlockBefore(lines: seq<string>, b: Block, m: nat, end: nat, blocks: seq<Block>,
                                       from: seq<nat>, to: seq<nat>)
    requires BlockAt(lines, b, m, end) && LaidOut(lines, end, blocks, from, to)
    ensures LaidOut(lines, m, [b] + blocks, [m] + from, [end] + to)
  {
    assert ([b] + blocks)[1..] == blocks && ([m] + from)[1..] == from && ([end] + to)[1..] == to;
  }

  lemma {:induction false} CodeEndMeans(lines: seq<string>, i: nat, c: char, n: nat)
    requires i <= |lines| && IsMark(c) && n >= 3
    ensures var end := CodeEnd(lines, i, Fence(c, n));
            && (forall j :: i <= j < end - 1 ==> !ClosesBlock(lines[j], c, n))
            && (end < |lines| ==> i <= end - 1 && ClosesBlock(lines[end - 1], c, n))
    decreases |lines| - i
  {
    if i < |lines| {
      CodeStaysOpen(c, n, lines[i]);
      CodeEndMeans(lines, i + 1, c, n);
    }
  }

  lemma {:induction false} TableEndMeans(lines: seq<string>, i: nat)
    requires i <= |lines|
    ensures var end := TableEnd(lines, i);
            && (forall j :: i <= j < end ==> IsTableRow(lines[j]))
            && (end < |lines| ==> !IsTableRow(lines[end]))
    decreases |lines| - i
  {
    if i < |lines| && IsTableRow(lines[i]) {
      TableEndMeans(lines, i + 1);
    }
  }

  lemma {:induction false} CodeLies(lines: seq<string>, i: nat, fence: Fence, page: Option<nat>)
    requires i < |lines| && DetectFence(lines[i]) == Some(fence)
    ensures var end := CodeEnd(lines, i + 1, fence);
            BlockAt(lines, LinesBlock(Code, lines[i..end], page), i, end)
  {
    FenceIsWritten(lines[i], fence.mark, fence.length);
    CodeEndMeans(lines, i + 1, fence.mark, fence.length);
    assert CodeAt(lines, i, CodeEnd(lines, i + 1, fence), fence.mark, fence.length);
  }

  lemma {:induction false} TableLies(lines: seq<string>, i: nat, page: Option<nat>)
    requires i < |lines| && StartsTable(lines, i) && DetectFence(lines[i]) == None
    ensures var end := TableEnd(lines, i + 2);
            BlockAt(lines, LinesBlock(Table, lines[i..end], page), i, end)
  {
    TableEndMeans(lines, i + 2);
  }

  lemma {:induction false} JoinIsVisible(lines: seq<string>)
    requires AreLines(lines) && lines != [] && Strip(lines[0]) != ""
    ensures Normalize(Join("\n", lines)) != ""
  {
    JoinContent(lines);
    NormalizeKeepsContent(Join("\n", lines));
    assert Visible(lines) != [];
    assert Content("") == [];
  }

  lemma ParagraphLies(lines: seq<string>, p: nat, i: nat, page: Option<nat>)
    requires AreLines(lines) && ProseAt(lines, p, i)
    ensures |ParagraphBlock(lines[p..i], page)| == 1
    ensures BlockAt(lines, ParagraphBlock(lines[p..i], page)[0], p, i)
  {
    assert Prose(lines, p);
    JoinIsVisible(lines[p..i]);
  }

  // A paragraph that is open at line `i` is closed before what follows.
  lemma ParagraphBefore(lines: seq<string>, p: nat, i: nat, page: Option<nat>,
                        rest: seq<Block>, from: seq<nat>, to: seq<nat>) returns (from': seq<nat>, to': seq<nat>)
    requires AreLines(lines) && p <= i && LaidOut(lines, i, rest, from, to)
    requires p == i || ProseAt(lines, p, i)
    requires i <= |lines|
    ensures LaidOut(lines, p, ParagraphBlock(lines[p..i], page) + rest, from', to')
  {
    if p == i {
      from', to' := from, to;
      assert lines[p..i] == [];
      assert Normalize("") == "";
      assert ParagraphBlock([], page) + rest == rest;
    } else {
      ParagraphLies(lines, p, i, page);
      var block := ParagraphBlock(lines[p..i], page)[0];
      BlockBefore(lines, block, p, i, rest, from, to);
      from', to' := [p] + from, [i] + to;
    }
  }

  lemma {:induction false} BlocksLie(lines: seq<string>, p: nat, i: nat, page: Option<nat>)
    returns (from: seq<nat>, to: seq<nat>)
    requires AreLines(lines) && p <= i <= |lines| && forall j :: p <= j < i ==> Prose(lines, j)
    ensures LaidOut(lines, p, BlocksFrom(lines, i, lines[p..i], page), from, to)
    decreases |lines| - i, 0, 1
  {
    if i == |lines| {
      from, to := ParagraphBefore(lines, p, i, page, [], [], []);
      assert ParagraphBlock(lines[p..i], page) + [] == ParagraphBlock(lines[p..i], page);
    } else if Prose(lines, i) {
      assert lines[p..i] + [lines[i]] == lines[p..i + 1];
      from, to := BlocksLie(lines, p, i + 1, page);
    } else {
      from, to := RestLies(lines, i, page);
      from, to := ParagraphBefore(lines, p, i, page, BlocksFrom(lines, i, [], page), from, to);
      ProseEnds(lines, i, lines[p..i], page);
    }
  }

  // Before a line that is no prose the open paragraph is a block of its own.
  lemma {:induction false} ProseEnds(lines: seq<string>, i: nat, paragraph: seq<string>, page: Option<nat>)
    requires i < |lines| && !Prose(lines, i)
    ensures BlocksFrom(lines, i, paragraph, page) == ParagraphBlock(paragraph, page) + BlocksFrom(lines, i, [], page)
  {
    assert Normalize("") == "";
    assert ParagraphBlock([], page) == [];
    assert forall rest: seq<Block> :: [] + rest == rest;
  }

  // From line `i` on, with no paragraph open.
  lemma FreshLies(lines: seq<string>, i: nat, page: Option<nat>) returns (from: seq<nat>, to: seq<nat>)
    requires AreLines(lines) && i <= |lines|
    ensures LaidOut(lines, i, BlocksFrom(lines, i, [], page), from, to)
    decreases |lines| - i, 1
  {
    assert lines[i..i] == [];
    from, to := BlocksLie(lines, i, i, page);
  }

  lemma {:induction false} RestLies(lines: seq<string>, i: nat, page: Option<nat>)
    returns (from: seq<nat>, to: seq<nat>)
    requires AreLines(lines) && i < |lines| && !Prose(lines, i)
    ensures LaidOut(lines, i, BlocksFrom(lines, i, [], page), from, to)
    decreases |lines| - i, 0, 0
  {
    var line := lines[i];
    if Passed(line) {
      var next := if ParsePageMarker(line).Some? then ParsePageMarker(line) else page;
      from, to := FreshLies(lines, i + 1, next);
      PassedLine(lines, i, page, next);
      GapBefore(lines, i, BlocksFrom(lines, i + 1, [], next), from, to);
    } else if DetectFence(line).Some? {
      var end := CodeEnd(lines, i + 1, DetectFence(line).value);
      from, to := FreshLies(lines, end, page);
      CodeLies(lines, i, DetectFence(line).value, page);
      BlockBefore(lines, LinesBlock(Code, lines[i..end], page), i, end, BlocksFrom(lines, end, [], page), from, to);
      CodeFirst(lines, i, page);
      from, to := [i] + from, [end] + to;
    } else {
      var end := TableEnd(lines, i + 2);
      from, to := FreshLies(lines, end, page);
      TableLies(lines, i, page);
      BlockBefore(lines, LinesBlock(Table, lines[i..end], page), i, end, BlocksFrom(lines, end, [], page), from, to);
      TableFirst(lines, i, page);
      from, to := [i] + from, [end] + to;
    }
  }

  lemma NoParagraph(page: Option<nat>, rest: seq<Block>)
    ensures ParagraphBlock([], page) + rest == rest
  {
    assert Normalize("") == "";
  }

  lemma PassedLine(lines: seq<string>, i: nat, page: Option<nat>, next: Option<nat>)
    requires i < |lines| && Passed(lines[i])
    requires next == if ParsePageMarker(lines[i]).Some? then ParsePageMarker(lines[i]) else page
    ensures BlocksFrom(lines, i, [], page) == BlocksFrom(lines, i + 1, [], next)
  {
    NoParagraph(page, BlocksFrom(lines, i + 1, [], next));
    if ParsePageMarker(lines[i]) == None {
      BlankIsPlain(lines[i]);
    }
  }

  lemma BlankIsPlain(line: string)
    requires Strip(line) == ""
    ensures DetectFence(line) == None && !IsTableRow(line)
  {
    if DetectFence(line).Some? {
      FenceIsVisible(line);
    }
  }

  lemma CodeFirst(lines: seq<string>, i: nat, page: Option<nat>)
    requires i < |lines| && !Passed(lines[i]) && DetectFence(lines[i]).Some?
    ensures var end := CodeEnd(lines, i + 1, DetectFence(lines[i]).value);
            BlocksFrom(lines, i, [], page)
            == [LinesBlock(Code, lines[i..end], page)] + BlocksFrom(lines, end, [], page)
  {
    var end := CodeEnd(lines, i + 1, DetectFence(lines[i]).value);
    NoParagraph(page, [LinesBlock(Code, lines[i..end], page)] + BlocksFrom(lines, end, [], page));
  }

  lemma TableFirst(lines: seq<string>, i: nat, page: Option<nat>)
    requires i < |lines| && !Passed(lines[i]) && DetectFence(lines[i]) == None && StartsTable(lines, i)
    ensures var end := TableEnd(lines, i + 2);
            BlocksFrom(lines, i, [], page)
            == [LinesBlock(Table, lines[i..end], page)] + BlocksFrom(lines, end, [], page)
  {
    var end := TableEnd(lines, i + 2);
    NoParagraph(page, [LinesBlock(Table, lines[i..end], page)] + BlocksFrom(lines, end, [], page));
  }

  /** The blocks of a section lie one behind the other among its lines, with only blank lines and page markers between
      them: a paragraph is as many lines of prose as follow each other, a code block reaches from its fence to the first
      line that closes it, a table from its head to its last row; and nothing but a paragraph may be cut. */
  lemma BlocksAreLaidOut(text: string) returns (from: seq<nat>, to: seq<nat>)
    ensures LaidOut(SplitLines(text), 0, MarkdownBlocksOf(text), from, to)
  {
    from, to := BlocksLie(SplitLines(text), 0, 0, None);
  }
}
