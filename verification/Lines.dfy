/**
  Lines of text, and what of a text remains visible when white space at line ends and blank lines
  do not matter.
 */
module Lines {
  import opened Text
  import opened Documents

  predicate IsLine(s: string) {
    forall i :: 0 <= i < |s| ==> !IsBreak(s[i])
  }

  predicate AreLines(lines: seq<string>) {
    forall i :: 0 <= i < |lines| ==> IsLine(lines[i])
  }

  // The position of the first line break, or the end.
  function LineEnd(s: string): (n: nat)
    ensures n <= |s| && IsLine(s[..n])
    ensures n < |s| ==> IsBreak(s[n])
  {
    if s == "" || IsBreak(s[0]) then 0 else 1 + LineEnd(s[1..])
  }

  // The lines of a text; a final line break does not open another line.
  function SplitLines(s: string): (lines: seq<string>)
    ensures AreLines(lines)
    decreases |s|
  {
    if s == "" then []
    else
      var n := LineEnd(s);
      if n == |s| then [s]
      else if s[n] == '\r' && n + 1 < |s| && s[n + 1] == '\n' then [s[..n]] + SplitLines(s[n + 2..])
      else [s[..n]] + SplitLines(s[n + 1..])
  }

  // The lines that are not blank, stripped.
  function Visible(lines: seq<string>): seq<string> {
    if lines == [] then []
    else (if Strip(lines[0]) == "" then [] else [Strip(lines[0])]) + Visible(lines[1..])
  }

  // One more character in front of the segments, or behind them.
  function Before(c: char, segs: seq<string>): seq<string>
    requires segs != []
  {
    if IsBreak(c) then [""] + segs else [[c] + segs[0]] + segs[1..]
  }

  function Behind(segs: seq<string>, c: char): (r: seq<string>)
    requires segs != []
    ensures r != []
  {
    if IsBreak(c) then segs + [""] else segs[..|segs| - 1] + [segs[|segs| - 1] + [c]]
  }

  // The stretches between single line break characters.
  function Segments(s: string): (segs: seq<string>)
    ensures segs != []
  {
    if s == "" then [""] else Before(s[0], Segments(s[1..]))
  }

  function Content(s: string): seq<string> {
    Visible(Segments(s))
  }

  lemma {:induction false} VisibleSplit(a: seq<string>, b: seq<string>)
    ensures Visible(a + b) == Visible(a) + Visible(b)
  {
    if a == [] {
      assert a + b == b;
    } else {
      assert (a + b)[1..] == a[1..] + b;
      VisibleSplit(a[1..], b);
    }
  }

  lemma {:induction false} SegmentsOfLine(a: string)
    requires IsLine(a)
    ensures Segments(a) == [a]
  {
    if a != "" {
      assert IsLine(a[1..]);
      SegmentsOfLine(a[1..]);
      assert [a[0]] + a[1..] == a;
    }
  }

  // A line break between two texts only puts their segments side by side.
  lemma {:induction false} SegmentsAtBreak(a: string, c: char, b: string)
    requires IsBreak(c)
    ensures Segments(a + [c] + b) == Segments(a) + Segments(b)
  {
    var s := a + [c] + b;
    if a == "" {
      assert s[1..] == b;
    } else {
      assert s[1..] == a[1..] + [c] + b;
      SegmentsAtBreak(a[1..], c, b);
    }
  }

  lemma ContentAtBreak(a: string, c: char, b: string)
    requires IsBreak(c)
    ensures Content(a + [c] + b) == Content(a) + Content(b)
  {
    SegmentsAtBreak(a, c, b);
    VisibleSplit(Segments(a), Segments(b));
  }

  lemma ContentAfterLine(a: string, c: char, b: string)
    requires IsLine(a) && IsBreak(c)
    ensures Content(a + [c] + b) == Visible([a]) + Content(b)
  {
    SegmentsOfLine(a);
    ContentAtBreak(a, c, b);
  }

  lemma BreakIsBlank(c: char, b: string)
    requires IsBreak(c)
    ensures Content([c] + b) == Content(b)
  {
    ContentAfterLine("", c, b);
    assert "" + [c] + b == [c] + b;
    assert Visible([""]) == [];
  }

  /** The visible lines of a text are its visible segments: "\r\n" counted twice adds a blank one. */
  lemma {:induction false} LinesAreContent(s: string)
    ensures Visible(SplitLines(s)) == Content(s)
    decreases |s|
  {
    if s != "" {
      var n := LineEnd(s);
      if n == |s| {
        assert s[..n] == s;
        SegmentsOfLine(s);
      } else {
        assert s == s[..n] + [s[n]] + s[n + 1..];
        ContentAfterLine(s[..n], s[n], s[n + 1..]);
        if s[n] == '\r' && n + 1 < |s| && s[n + 1] == '\n' {
          assert s[n + 1..] == ['\n'] + s[n + 2..];
          BreakIsBlank('\n', s[n + 2..]);
          LinesAreContent(s[n + 2..]);
          VisibleSplit([s[..n]], SplitLines(s[n + 2..]));
        } else {
          LinesAreContent(s[n + 1..]);
          VisibleSplit([s[..n]], SplitLines(s[n + 1..]));
        }
      }
    }
  }

  /** Joining lines with newlines keeps the visible ones. */
  lemma {:induction false} JoinContent(lines: seq<string>)
    requires AreLines(lines)
    ensures Content(Join("\n", lines)) == Visible(lines)
  {
    if lines == [] {
    } else if |lines| == 1 {
      SegmentsOfLine(lines[0]);
    } else {
      JoinContent(lines[1..]);
      assert Join("\n", lines) == lines[0] + ['\n'] + Join("\n", lines[1..]);
      ContentAfterLine(lines[0], '\n', Join("\n", lines[1..]));
      VisibleSplit([lines[0]], lines[1..]);
      assert [lines[0]] + lines[1..] == lines;
    }
  }

  // ----- stripping

  lemma {:induction false} StripRightCons(c: char, h: string)
    ensures StripRight([c] + h)
            == if StripRight(h) != "" then [c] + StripRight(h) else if IsSpace(c) then "" else [c]
  {
    var s := [c] + h;
    if h == "" {
      assert s[..0] == "";
    } else if IsSpace(h[|h| - 1]) {
      assert s[..|s| - 1] == [c] + h[..|h| - 1];
      StripRightCons(c, h[..|h| - 1]);
    }
  }

  lemma {:induction false} StripCommutes(s: string)
    ensures Strip(s) == StripLeft(StripRight(s))
  {
    if s != "" {
      assert s == [s[0]] + s[1..];
      StripRightCons(s[0], s[1..]);
      StripCommutes(s[1..]);
    }
  }

  lemma {:induction false} SameRightSameStrip(a: string, b: string)
    requires StripRight(a) == StripRight(b)
    ensures Strip(a) == Strip(b)
  {
    StripCommutes(a);
    StripCommutes(b);
  }

  lemma VisibleHasContent(s: string)
    requires s != "" && !IsSpace(s[0])
    ensures Content(s) != []
  {
    StripRightCons(s[0], Segments(s[1..])[0]);
  }

  // ----- normalisation keeps the content

  lemma {:induction false} UnifyKeepsContent(s: string)
    ensures Segments(UnifyNewlines(s))[0] == Segments(s)[0]
    ensures Visible(Segments(UnifyNewlines(s))[1..]) == Visible(Segments(s)[1..])
  {
    if s != "" {
      UnifyKeepsContent(s[1..]);
      if s[0] == '\r' && |s| > 1 && s[1] == '\n' {
        assert Segments(s)[1..] == Segments(s[1..]);
      } else {
        var u := UnifyNewlines(s);
        assert u[1..] == UnifyNewlines(s[1..]);
        if IsBreak(s[0]) {
          assert Segments(s)[1..] == Segments(s[1..]);
          assert Segments(u)[1..] == Segments(u[1..]);
        }
      }
    }
  }

  lemma {:induction false} TrimKeepsContent(s: string)
    ensures StripRight(Segments(TrimLineEnds(s))[0]) == StripRight(Segments(s)[0])
    ensures Visible(Segments(TrimLineEnds(s))[1..]) == Visible(Segments(s)[1..])
  {
    if s != "" {
      var rest := TrimLineEnds(s[1..]);
      TrimKeepsContent(s[1..]);
      SameRightSameStrip(Segments(rest)[0], Segments(s[1..])[0]);
      var t := TrimLineEnds(s);
      if IsBreak(s[0]) {
        assert t[1..] == rest;
        assert Segments(s)[1..] == Segments(s[1..]);
        assert Segments(t)[1..] == Segments(rest);
      } else {
        StripRightCons(s[0], Segments(s[1..])[0]);
        StripRightCons(s[0], Segments(rest)[0]);
        if t != rest {
          assert t[1..] == rest;
        }
      }
    }
  }

  lemma {:induction false} CollapseKeepsContent(s: string)
    ensures Segments(CollapseNewlines(s))[0] == Segments(s)[0]
    ensures Visible(Segments(CollapseNewlines(s))[1..]) == Visible(Segments(s)[1..])
  {
    if s != "" {
      var rest := CollapseNewlines(s[1..]);
      CollapseKeepsContent(s[1..]);
      var c := CollapseNewlines(s);
      if s[0] == '\n' && "\n\n" <= rest {
        assert rest[0] == '\n';
        assert Segments(s)[1..] == Segments(s[1..]);
      } else {
        assert c[1..] == rest;
        if IsBreak(s[0]) {
          assert Segments(s)[1..] == Segments(s[1..]);
          assert Segments(c)[1..] == Segments(rest);
        }
      }
    }
  }

  lemma {:induction false} StripLeftKeepsContent(s: string)
    ensures Content(StripLeft(s)) == Content(s)
  {
    if s != "" && IsSpace(s[0]) {
      StripLeftKeepsContent(s[1..]);
      var head := Segments(s[1..])[0];
      if !IsBreak(s[0]) {
        assert ([s[0]] + head)[1..] == head;
        assert Strip([s[0]] + head) == Strip(head);
      }
    }
  }

  lemma BeforeBehind(a: char, segs: seq<string>, c: char)
    requires segs != []
    ensures Before(a, Behind(segs, c)) == Behind(Before(a, segs), c)
  {
    if |segs| == 1 {
      assert [a] + (segs[0] + [c]) == ([a] + segs[0]) + [c];
    }
  }

  lemma {:induction false} SegmentsSnoc(s: string, c: char)
    ensures Segments(s + [c]) == Behind(Segments(s), c)
  {
    if s == "" {
      assert s + [c] == [c];
      assert [c][1..] == "";
      assert Segments("") == [""];
      assert [c] + "" == "" + [c];
    } else {
      assert (s + [c])[1..] == s[1..] + [c];
      SegmentsSnoc(s[1..], c);
      BeforeBehind(s[0], Segments(s[1..]), c);
    }
  }

  lemma {:induction false} StripRightKeepsContent(s: string)
    ensures Content(StripRight(s)) == Content(s)
  {
    if s != "" && IsSpace(s[|s| - 1]) {
      var init, c := s[..|s| - 1], s[|s| - 1];
      StripRightKeepsContent(init);
      assert s == init + [c];
      SegmentsSnoc(init, c);
      var segs := Segments(init);
      var before, last := segs[..|segs| - 1], segs[|segs| - 1];
      assert segs == before + [last];
      if IsBreak(c) {
        VisibleSplit(segs, [""]);
        assert Visible([""]) == [];
      } else {
        VisibleSplit(before, [last]);
        VisibleSplit(before, [last + [c]]);
        assert (last + [c])[..|last|] == last;
        SameRightSameStrip(last + [c], last);
        assert [last + [c]][1..] == [last][1..];
      }
    }
  }

  /** Normalising a text keeps its visible lines. */
  lemma NormalizeKeepsContent(s: string)
    ensures Content(Normalize(s)) == Content(s)
  {
    var u := UnifyNewlines(s);
    var t := TrimLineEnds(u);
    var c := CollapseNewlines(t);
    UnifyKeepsContent(s);
    TrimKeepsContent(u);
    SameRightSameStrip(Segments(t)[0], Segments(u)[0]);
    CollapseKeepsContent(t);
    StripLeftKeepsContent(c);
    StripRightKeepsContent(StripLeft(c));
  }
}
