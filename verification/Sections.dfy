/**
  Cutting a document into sections at its headings.

  The document is first read as items (body lines and headings, headings inside code fences being
  body); the sections are then what lies between headings, each under the chain of headings that
  enclose it.  The program's loop with its heading stack is proved to find exactly these.
 */
module Sections {
  import opened Text
  import opened Documents
  import opened Options
  import opened Lines
  import opened Markup

  datatype Document = Document(title: string, text: string, isMarkdown: bool)

  datatype Head = Head(level: nat, title: string)

  datatype Item = Body(line: string) | Heading(head: Head)

  // What a line is, given the fence that is open before it.
  function ItemOf(line: string, open: Option<Fence>): Item {
    if DetectFence(line).Some? || open.Some? then Body(line)
    else
      match ParseHeading(line)
      case None => Body(line)
      case Some(heading) =>
        var title := NormalizeHeading(heading.1);
        if title == "" then Body(line)
        else
          match ParsePageHeading(title)
          case Some(page) => Body(PageMarker(page))
          case None => Heading(Head(heading.0, title))
  }

  // The fence that is open after the lines.
  function FenceState(lines: seq<string>): Option<Fence> {
    if lines == [] then None
    else NextFence(FenceState(lines[..|lines| - 1]), lines[|lines| - 1])
  }

  function Items(lines: seq<string>): (items: seq<Item>)
    ensures |items| == |lines|
  {
    if lines == [] then []
    else
      var before := lines[..|lines| - 1];
      Items(before) + [ItemOf(lines[|lines| - 1], FenceState(before))]
  }

  // The headings up to a place in the document, and the body lines that follow the last of them.
  datatype Part = Part(heads: seq<Head>, lines: seq<string>)

  function Parts(items: seq<Item>): (parts: seq<Part>)
    ensures parts != []
  {
    if items == [] then [Part([], [])]
    else
      var parts := Parts(items[..|items| - 1]);
      var last, before := parts[|parts| - 1], parts[..|parts| - 1];
      match items[|items| - 1]
      case Body(line) => before + [Part(last.heads, last.lines + [line])]
      case Heading(head) => parts + [Part(last.heads + [head], [])]
  }

  // The headings that no later heading of the same or a smaller level ends.
  function Enclosing(heads: seq<Head>): seq<Head> {
    if heads == [] then []
    else if exists k :: 0 < k < |heads| && heads[k].level <= heads[0].level then Enclosing(heads[1..])
    else [heads[0]] + Enclosing(heads[1..])
  }

  function Titles(heads: seq<Head>): seq<string> {
    seq(|heads|, i requires 0 <= i < |heads| => heads[i].title)
  }

  function PathOf(title: string, heads: seq<Head>): seq<string> {
    if Enclosing(heads) == [] then [title] else Titles(Enclosing(heads))
  }

  // The section of some lines, unless they are blank.
  function Rendered(path: seq<string>, lines: seq<string>): seq<Section> {
    var text := Normalize(Join("\n", lines));
    if text == "" then [] else [Section(path, text)]
  }

  function RenderPart(title: string, part: Part): seq<Section> {
    Rendered(PathOf(title, part.heads), part.lines)
  }

  function RenderParts(title: string, parts: seq<Part>): seq<Section> {
    if parts == [] then []
    else RenderParts(title, parts[..|parts| - 1]) + RenderPart(title, parts[|parts| - 1])
  }

  function DocumentParts(doc: Document): seq<Part> {
    Parts(Items(SplitLines(doc.text)))
  }

  function Whole(doc: Document): seq<Section> {
    var text := Normalize(doc.text);
    if text == "" then [] else [Section([doc.title], text)]
  }

  function SectionsOf(doc: Document): seq<Section> {
    if !doc.isMarkdown then Whole(doc)
    else
      var sections := RenderParts(doc.title, DocumentParts(doc));
      if sections == [] then Whole(doc) else sections
  }

  // ----- the heading stack

  function Above(stack: seq<Head>, level: nat): seq<Head> {
    if stack == [] then []
    else (if stack[0].level < level then [stack[0]] else []) + Above(stack[1..], level)
  }

  /** Keeping the smaller levels and pushing the new heading turns the enclosing headings before it
      into the enclosing headings after it. */
  lemma {:induction false} StackIsEnclosing(heads: seq<Head>, head: Head)
    ensures Enclosing(heads + [head]) == Above(Enclosing(heads), head.level) + [head]
  {
    var all := heads + [head];
    if heads == [] {
      assert all == [head];
      assert all[1..] == [];
      assert Enclosing([]) == [];
    } else {
      StackIsEnclosing(heads[1..], head);
      assert all[1..] == heads[1..] + [head];
      var ended := exists k :: 0 < k < |heads| && heads[k].level <= heads[0].level;
      if ended {
        var k :| 0 < k < |heads| && heads[k].level <= heads[0].level;
        assert all[k] == heads[k];
      } else {
        assert all[|heads|] == head;
        var enclosing := Enclosing(heads);
        assert enclosing[1..] == Enclosing(heads[1..]);
        if heads[0].level < head.level {
          forall k | 0 < k < |all| ensures all[k].level > heads[0].level {
            assert k < |heads| ==> all[k] == heads[k];
          }
        }
      }
    }
  }

  lemma {:induction false} EnclosingAreHeads(heads: seq<Head>)
    ensures forall h <- Enclosing(heads) :: h in heads
  {
    if heads != [] {
      EnclosingAreHeads(heads[1..]);
    }
  }

  /** Along a heading path the levels strictly increase. */
  lemma {:induction false} LevelsIncrease(heads: seq<Head>)
    ensures forall i, j :: 0 <= i < j < |Enclosing(heads)| ==> Enclosing(heads)[i].level < Enclosing(heads)[j].level
  {
    if heads != [] {
      LevelsIncrease(heads[1..]);
      EnclosingAreHeads(heads[1..]);
      var rest := Enclosing(heads[1..]);
      if !exists k :: 0 < k < |heads| && heads[k].level <= heads[0].level {
        forall j | 0 <= j < |rest| ensures heads[0].level < rest[j].level {
          assert rest[j] in heads[1..];
          var k :| 0 <= k < |heads[1..]| && heads[1..][k] == rest[j];
          assert heads[k + 1] == rest[j];
        }
      }
    }
  }

  /** The last heading is always on the path of what follows it. */
  lemma {:induction false} LastHeadEncloses(heads: seq<Head>)
    requires heads != []
    ensures var e := Enclosing(heads); e != [] && e[|e| - 1] == heads[|heads| - 1]
  {
    assert heads == heads[..|heads| - 1] + [heads[|heads| - 1]];
    StackIsEnclosing(heads[..|heads| - 1], heads[|heads| - 1]);
  }

  // ----- the loop of the program

  // The loop's variables: open fence, heading stack, path and lines of the section being read, sections read.
  datatype Reader = Reader(
    open: Option<Fence>, stack: seq<Head>, path: seq<string>, current: seq<string>, sections: seq<Section>)

  method Flush(lines: seq<string>, path: seq<string>, sections: seq<Section>) returns (r: seq<Section>)
    ensures r == sections + Rendered(path, lines)
  {
    var text := Normalize(Join("\n", lines));
    r := if text == "" then sections else sections + [Section(path, text)];
  }

  // The loop's variables after some lines, in terms of the parts of the document so far.
  ghost predicate Tracks(title: string, lines: seq<string>, r: Reader) {
    var parts := Parts(Items(lines));
    var last := parts[|parts| - 1];
    && r.open == FenceState(lines)
    && r.stack == Enclosing(last.heads)
    && r.path == PathOf(title, last.heads)
    && r.current == last.lines
    && r.sections == RenderParts(title, parts[..|parts| - 1])
  }

  lemma TracksBody(title: string, lines: seq<string>, line: string, body: string, r: Reader)
    requires Tracks(title, lines, r)
    requires ItemOf(line, r.open) == Body(body)
    ensures Tracks(title, lines + [line], r.(open := NextFence(r.open, line), current := r.current + [body]))
  {
    assert (lines + [line])[..|lines|] == lines;
    assert Items(lines + [line])[..|lines|] == Items(lines);
  }

  lemma TracksHeading(title: string, lines: seq<string>, line: string, head: Head, r: Reader, next: Reader)
    requires Tracks(title, lines, r)
    requires ItemOf(line, r.open) == Heading(head)
    requires next.open == r.open && next.stack == Above(r.stack, head.level) + [head] && next.path == Titles(next.stack)
    requires next.current == [] && next.sections == r.sections + Rendered(r.path, r.current)
    ensures Tracks(title, lines + [line], next)
  {
    assert (lines + [line])[..|lines|] == lines;
    var parts := Parts(Items(lines));
    assert Items(lines + [line])[..|lines|] == Items(lines);
    var last := parts[|parts| - 1];
    StackIsEnclosing(last.heads, head);
    var parts' := Parts(Items(lines + [line]));
    assert parts'[..|parts'| - 1] == parts;
  }

  // One round of the line loop.
  method ReadLine(title: string, ghost lines: seq<string>, line: string, r: Reader) returns (r': Reader)
    requires Tracks(title, lines, r)
    ensures Tracks(title, lines + [line], r')
  {
    match DetectFence(line) {
      case Some(fence) =>
        TracksBody(title, lines, line, line, r);
        r' := r.(current := r.current + [line]);
        if r.open.Some? && Closes(r.open.value, fence) {
          r' := r'.(open := None);
        } else if r.open.None? {
          r' := r'.(open := Some(fence));
        }
        return;
      case None =>
    }
    var heading := if r.open.None? then ParseHeading(line) else None;
    if heading.None? {
      TracksBody(title, lines, line, line, r);
      return r.(current := r.current + [line]);
    }
    var head := Head(heading.value.0, NormalizeHeading(heading.value.1));
    if head.title == "" {
      TracksBody(title, lines, line, line, r);
      return r.(current := r.current + [line]);
    }
    match ParsePageHeading(head.title) {
      case Some(page) =>
        TracksBody(title, lines, line, PageMarker(page), r);
        return r.(current := r.current + [PageMarker(page)]);
      case None =>
    }
    var sections := Flush(r.current, r.path, r.sections);
    var stack := Above(r.stack, head.level) + [head];
    r' := Reader(r.open, stack, Titles(stack), [], sections);
    TracksHeading(title, lines, line, head, r, r');
  }

  /** The program's line loop finds the sections of the document. */
  method SplitIntoSections(doc: Document) returns (sections: seq<Section>)
    ensures sections == SectionsOf(doc)
  {
    if doc.isMarkdown {
      var lines := SplitLines(doc.text);
      var r := ReadLines(doc.title, lines);
      sections := Flush(r.current, r.path, r.sections);
      if sections != [] {
        return sections;
      }
    }
    var text := Normalize(doc.text);
    sections := if text == "" then [] else [Section([doc.title], text)];
  }

  method ReadLines(title: string, lines: seq<string>) returns (r: Reader)
    ensures Tracks(title, lines, r)
  {
    r := Reader(None, [], [title], [], []);
    for i := 0 to |lines|
      invariant Tracks(title, lines[..i], r)
    {
      TakeNext(lines, i);
      r := ReadLine(title, lines[..i], lines[i], r);
    }
    assert lines[..|lines|] == lines;
  }

  lemma TakeNext(lines: seq<string>, i: nat)
    requires i < |lines|
    ensures lines[..i + 1] == lines[..i] + [lines[i]]
  {
  }

  // ----- fences never cross a section boundary

  lemma {:induction false} FencesStay(lines: seq<string>)
    ensures var parts := Parts(Items(lines));
            && FenceState(parts[|parts| - 1].lines) == FenceState(lines)
            && forall i :: 0 <= i < |parts| - 1 ==> FenceState(parts[i].lines) == None
  {
    if lines != [] {
      var n := |lines| - 1;
      var before, line := lines[..n], lines[n];
      FencesStay(before);
      assert Items(lines)[..n] == Items(before);
      var parts := Parts(Items(before));
      var last := parts[|parts| - 1];
      match ItemOf(line, FenceState(before))
      case Body(body) =>
        assert (last.lines + [body])[..|last.lines|] == last.lines;
        if body != line {
          var title := NormalizeHeading(ParseHeading(line).value.1);
          PageMarkerRoundTrip(ParsePageHeading(title).value);
        }
      case Heading(head) =>
    }
  }

  /** Every section but the last closes all the fences it opens, so no fence crosses a heading. */
  lemma FencesNeverCross(doc: Document)
    ensures var parts := DocumentParts(doc);
            forall i :: 0 <= i < |parts| - 1 ==> FenceState(parts[i].lines) == None
  {
    FencesStay(SplitLines(doc.text));
  }

  // ----- nothing visible is lost

  function BodyLines(items: seq<Item>): seq<string> {
    if items == [] then []
    else
      BodyLines(items[..|items| - 1])
      + match items[|items| - 1] case Body(line) => [line] case Heading(_) => []
  }

  function PartLines(parts: seq<Part>): seq<string> {
    if parts == [] then [] else PartLines(parts[..|parts| - 1]) + parts[|parts| - 1].lines
  }

  function SectionContent(sections: seq<Section>): seq<string> {
    if sections == [] then []
    else SectionContent(sections[..|sections| - 1]) + Content(sections[|sections| - 1].text)
  }

  lemma {:induction false} PartsKeepLines(items: seq<Item>)
    ensures PartLines(Parts(items)) == BodyLines(items)
  {
    if items == [] {
      assert Parts(items)[..0] == [];
    } else {
      var n := |items| - 1;
      PartsKeepLines(items[..n]);
      var before := Parts(items[..n]);
      var last := before[|before| - 1];
      var parts := Parts(items);
      match items[n]
      case Body(line) =>
        assert parts[..|parts| - 1] == before[..|before| - 1];
        ConcatAssociative(PartLines(before[..|before| - 1]), last.lines, [line]);
      case Heading(head) =>
        assert parts[..|parts| - 1] == before;
    }
  }

  lemma {:induction false} ItemsAreLines(lines: seq<string>)
    requires AreLines(lines)
    ensures AreLines(BodyLines(Items(lines)))
  {
    if lines != [] {
      var n := |lines| - 1;
      ItemsAreLines(lines[..n]);
      assert Items(lines)[..n] == Items(lines[..n]);
      var item := ItemOf(lines[n], FenceState(lines[..n]));
      if item.Body? && item.line != lines[n] {
        var title := NormalizeHeading(ParseHeading(lines[n]).value.1);
        PageMarkerRoundTrip(ParsePageHeading(title).value);
      }
    }
  }

  lemma {:induction false} RenderKeepsContent(title: string, parts: seq<Part>)
    requires AreLines(PartLines(parts))
    ensures SectionContent(RenderParts(title, parts)) == Visible(PartLines(parts))
  {
    if parts != [] {
      var n := |parts| - 1;
      var before, last := parts[..n], parts[n];
      var all := PartLines(parts);
      assert AreLines(PartLines(before)) by {
        forall i | 0 <= i < |PartLines(before)| ensures IsLine(PartLines(before)[i]) {
          assert all[i] == PartLines(before)[i];
        }
      }
      assert AreLines(last.lines) by {
        forall i | 0 <= i < |last.lines| ensures IsLine(last.lines[i]) {
          assert all[|PartLines(before)| + i] == last.lines[i];
        }
      }
      RenderKeepsContent(title, before);
      VisibleSplit(PartLines(before), last.lines);
      JoinContent(last.lines);
      NormalizeKeepsContent(Join("\n", last.lines));
      var sections := RenderParts(title, before);
      var one := RenderPart(title, last);
      if one == [] {
        assert Normalize(Join("\n", last.lines)) == "";
        assert Content("") == [];
        assert sections + one == sections;
      } else {
        assert (sections + one)[..|sections|] == sections;
      }
    }
  }

  /** The sections of a markdown document hold exactly its body lines, in order, up to white space
      at line ends and blank lines; each path is that of the headings enclosing the section. */
  lemma SectionsConserve(doc: Document)
    requires doc.isMarkdown && RenderParts(doc.title, DocumentParts(doc)) != []
    ensures SectionContent(SectionsOf(doc)) == Visible(BodyLines(Items(SplitLines(doc.text))))
  {
    var items := Items(SplitLines(doc.text));
    ItemsAreLines(SplitLines(doc.text));
    PartsKeepLines(items);
    RenderKeepsContent(doc.title, Parts(items));
  }
}
