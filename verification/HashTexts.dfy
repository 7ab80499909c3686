/** What the text of a chunk contributes to its identifier. */
module HashTexts {
  import opened Text
  import opened Documents
  import opened Lines
  import opened StableIds

  // ----- the lines of a text do not depend on how its line breaks are written

  lemma {:induction false} LineEndAt(line: string, rest: string)
    requires IsLine(line) && (rest != "" ==> IsBreak(rest[0]))
    ensures LineEnd(line + rest) == |line|
  {
    if line == "" {
      assert line + rest == rest;
    } else {
      assert (line + rest)[1..] == line[1..] + rest;
      assert IsLine(line[1..]);
      LineEndAt(line[1..], rest);
    }
  }

  lemma {:induction false} SplitAt(line: string, c: char, rest: string)
    requires IsLine(line) && IsBreak(c) && (c == '\r' ==> rest == "" || rest[0] != '\n')
    ensures SplitLines(line + [c] + rest) == [line] + SplitLines(rest)
  {
    var s := line + [c] + rest;
    assert s == line + ([c] + rest);
    LineEndAt(line, [c] + rest);
    assert s[..|line|] == line && s[|line| + 1..] == rest;
  }

  lemma {:induction false} UnifyAtLine(line: string, rest: string)
    requires IsLine(line)
    ensures UnifyNewlines(line + rest) == line + UnifyNewlines(rest)
  {
    if line == "" {
      assert line + rest == rest;
    } else {
      assert (line + rest)[1..] == line[1..] + rest;
      assert IsLine(line[1..]);
      UnifyAtLine(line[1..], rest);
      assert [line[0]] + (line[1..] + UnifyNewlines(rest)) == line + UnifyNewlines(rest);
    }
  }

  lemma {:induction false} UnifyKeepsLines(s: string)
    ensures SplitLines(UnifyNewlines(s)) == SplitLines(s)
    decreases |s|
  {
    var n := LineEnd(s);
    var line, rest := s[..n], s[n..];
    assert s == line + rest;
    UnifyAtLine(line, rest);
    if n == |s| {
      assert UnifyNewlines("") == "" && line + "" == line && s == line;
    } else if s[n] == '\r' && n + 1 < |s| && s[n + 1] == '\n' {
      UnifyKeepsLines(s[n + 2..]);
      assert rest[1..] == "\n" + s[n + 2..] && (rest[1..])[1..] == s[n + 2..];
      UnifyBreak(line, '\n', s[n + 2..]);
    } else {
      UnifyKeepsLines(s[n + 1..]);
      assert rest == [s[n]] + s[n + 1..] && rest[1..] == s[n + 1..];
      UnifyBreak(line, if s[n] == '\r' then '\n' else s[n], s[n + 1..]);
    }
  }

  lemma {:induction false} UnifyBreak(line: string, c: char, rest: string)
    requires IsLine(line) && IsBreak(c) && c != '\r'
    ensures SplitLines(line + ([c] + UnifyNewlines(rest))) == [line] + SplitLines(UnifyNewlines(rest))
  {
    SplitAt(line, c, UnifyNewlines(rest));
    assert line + ([c] + UnifyNewlines(rest)) == line + [c] + UnifyNewlines(rest);
  }

  // ----- joined lines can be told apart

  lemma {:induction false} JoinSegments(lines: seq<string>)
    requires AreLines(lines) && lines != []
    ensures Segments(Join("\n", lines)) == lines
  {
    if |lines| == 1 {
      SegmentsOfLine(lines[0]);
    } else {
      JoinSegments(lines[1..]);
      assert Join("\n", lines) == lines[0] + ['\n'] + Join("\n", lines[1..]);
      SegmentsOfLine(lines[0]);
      SegmentsAtBreak(lines[0], '\n', Join("\n", lines[1..]));
      assert [lines[0]] + lines[1..] == lines;
    }
  }

  // ----- blank lines at both ends

  lemma {:induction false} DropLast(lines: seq<string>)
    requires lines != []
    ensures Join("\n", lines + [""]) == Join("\n", lines) + "\n"
  {
    var all := lines + [""];
    assert all[1..] == lines[1..] + [""];
    if |lines| > 1 {
      DropLast(lines[1..]);
      assert lines[0] + "\n" + (Join("\n", lines[1..]) + "\n") == lines[0] + "\n" + Join("\n", lines[1..]) + "\n";
    } else {
      assert Join("\n", [""]) == "";
      assert lines[0] + "\n" + "" == lines[0] + "\n";
    }
  }

  lemma StripEnds(s: string)
    ensures Strip("\n" + s) == Strip(s) && Strip(s + "\n") == Strip(s)
  {
    assert ("\n" + s)[1..] == s;
    assert (s + "\n")[..|s|] == s;
    StripCommutes(s);
    StripCommutes(s + "\n");
  }

  lemma {:induction false} NoLastBlanks(lines: seq<string>, n: nat)
    requires n <= |lines| && forall k :: n <= k < |lines| ==> lines[k] == ""
    ensures Strip(Join("\n", lines)) == Strip(Join("\n", lines[..n]))
  {
    if n == |lines| {
      assert lines[..n] == lines;
    } else {
      var before := lines[..|lines| - 1];
      assert lines == before + [""];
      assert before[..n] == lines[..n];
      NoLastBlanks(before, n);
      if before == [] {
        assert Join("\n", lines) == "";
      } else {
        DropLast(before);
        StripEnds(Join("\n", before));
      }
    }
  }

  lemma {:induction false} NoFirstBlank(lines: seq<string>)
    requires lines != [] && lines[0] == ""
    ensures Strip(Join("\n", lines)) == Strip(Join("\n", lines[1..]))
  {
    var after := lines[1..];
    if after != [] {
      StripEnds(Join("\n", after));
      assert "" + "\n" + Join("\n", after) == "\n" + Join("\n", after);
    }
  }

  lemma {:induction false} NoFirstBlanks(lines: seq<string>, m: nat)
    requires m <= |lines| && forall k :: 0 <= k < m ==> lines[k] == ""
    ensures Strip(Join("\n", lines)) == Strip(Join("\n", lines[m..]))
  {
    if m == 0 {
      assert lines[m..] == lines;
    } else {
      NoFirstBlank(lines);
      assert forall k :: 0 <= k < m - 1 ==> lines[1..][k] == lines[k + 1];
      NoFirstBlanks(lines[1..], m - 1);
      assert lines[1..][m - 1..] == lines[m..];
    }
  }

  // ----- what is left

  // The visible part of a text: all lines outside `m` to `n` are blank, the first and the last one inside are not.
  ghost predicate CoreAt(lines: seq<string>, m: nat, n: nat) {
    && m <= n <= |lines|
    && (forall k :: 0 <= k < |lines| && (k < m || k >= n) ==> Strip(lines[k]) == "")
    && (m < n ==> Strip(lines[m]) != "" && Strip(lines[n - 1]) != "")
  }

  // Without white space at line ends, nor before the first line.
  function Clean(lines: seq<string>): (r: seq<string>)
    ensures |r| == |lines|
    ensures forall k :: 0 <= k < |r| ==> r[k] == if k == 0 then Strip(lines[k]) else StripRight(lines[k])
  {
    seq(|lines|, k requires 0 <= k < |lines| => if k == 0 then Strip(lines[k]) else StripRight(lines[k]))
  }

  lemma {:induction false} TrimLinesAt(lines: seq<string>)
    ensures |TrimLines(lines)| == |lines|
    ensures forall k :: 0 <= k < |lines| ==> TrimLines(lines)[k] == StripRight(lines[k])
  {
    if lines != [] {
      TrimLinesAt(lines[1..]);
    }
  }

  lemma {:induction false} StrippedIsLine(line: string)
    requires IsLine(line)
    ensures IsLine(StripRight(line)) && IsLine(Strip(line))
    ensures Strip(line) == "" <==> StripRight(line) == ""
  {
    var left, right := StripIsMiddle(line);
    var tail := StripRightCuts(line);
    StripCommutes(line);
    assert forall i :: 0 <= i < |StripRight(line)| ==> StripRight(line)[i] == line[i];
    assert forall i :: 0 <= i < |Strip(line)| ==> Strip(line)[i] == line[|left| + i];
    if Strip(line) == "" {
      var cut := StripLeftCuts(StripRight(line));
      assert Blank(StripRight(line));
    }
  }

  lemma CleanAreLines(lines: seq<string>)
    requires AreLines(lines)
    ensures AreLines(Clean(lines))
  {
    forall k | 0 <= k < |lines| ensures IsLine(Clean(lines)[k]) {
      StrippedIsLine(lines[k]);
    }
  }

  // Stripping joined lines strips the first of them on the left.
  lemma {:induction false} JoinStripped(first: string, rest: seq<string>)
    requires StripLeft(first) != ""
    ensures StripLeft(Join("\n", [first] + rest)) == Join("\n", [StripLeft(first)] + rest)
  {
    var left := StripLeftCuts(first);
    var t := StripLeft(first);
    assert ([first] + rest)[1..] == rest && ([t] + rest)[1..] == rest;
    if rest == [] {
    } else {
      assert Join("\n", [first] + rest) == left + (t + "\n" + Join("\n", rest));
      LeftOfBlank(left, t + "\n" + Join("\n", rest));
    }
  }

  lemma {:induction false} JoinEnd(lines: seq<string>)
    requires lines != [] && lines[|lines| - 1] != ""
    ensures var s := Join("\n", lines); s != "" && s[|s| - 1] == lines[|lines| - 1][|lines[|lines| - 1]| - 1]
  {
    if |lines| > 1 {
      JoinEnd(lines[1..]);
    }
  }

  lemma CleanEnds(lines: seq<string>)
    requires lines != [] && Strip(lines[0]) != "" && Strip(lines[|lines| - 1]) != ""
    ensures var s := Join("\n", Clean(lines)); s != "" && StripRight(s) == s
  {
    var last := lines[|lines| - 1];
    var _, _ := StripIsMiddle(last);
    var _ := StripRightCuts(last);
    StripCommutes(last);
    assert StripRight(last) != "";
    JoinEnd(Clean(lines));
  }

  lemma {:induction false} CoreTrims(lines: seq<string>, m: nat, n: nat)
    requires AreLines(lines) && CoreAt(lines, m, n)
    ensures |TrimLines(lines)| == |lines|
    ensures Strip(Join("\n", TrimLines(lines))) == Strip(Join("\n", TrimLines(lines)[m..n]))
  {
    var trimmed := TrimLines(lines);
    TrimLinesAt(lines);
    forall k | 0 <= k < |lines| && (k < m || k >= n) ensures trimmed[k] == "" {
      StrippedIsLine(lines[k]);
    }
    NoLastBlanks(trimmed, n);
    NoFirstBlanks(trimmed[..n], m);
    assert trimmed[..n][m..] == trimmed[m..n];
  }

  lemma {:induction false} CoreIsClean(core: seq<string>, trimmed: seq<string>)
    requires core != [] && Strip(core[0]) != "" && Strip(core[|core| - 1]) != ""
    requires |trimmed| == |core| && forall k :: 0 <= k < |core| ==> trimmed[k] == StripRight(core[k])
    ensures Strip(Join("\n", trimmed)) == Join("\n", Clean(core))
  {
    StripCommutes(core[0]);
    assert trimmed == [trimmed[0]] + trimmed[1..];
    JoinStripped(trimmed[0], trimmed[1..]);
    assert Clean(core) == [StripLeft(trimmed[0])] + trimmed[1..];
    CleanEnds(core);
  }

  lemma {:induction false} CoreJoins(core: seq<string>, trimmed: seq<string>)
    requires core != [] ==> Strip(core[0]) != "" && Strip(core[|core| - 1]) != ""
    requires |trimmed| == |core| && forall k :: 0 <= k < |core| ==> trimmed[k] == StripRight(core[k])
    ensures Strip(Join("\n", trimmed)) == Join("\n", Clean(core))
  {
    if core == [] {
      assert Clean(core) == [];
    } else {
      CoreIsClean(core, trimmed);
    }
  }

  lemma {:induction false} TrimmedCore(lines: seq<string>, m: nat, n: nat, core: seq<string>, trimmed: seq<string>)
    requires m <= n <= |lines| && |TrimLines(lines)| == |lines|
    requires core == lines[m..n] && trimmed == TrimLines(lines)[m..n]
    ensures |trimmed| == |core| && forall k :: 0 <= k < |core| ==> trimmed[k] == StripRight(core[k])
  {
    TrimLinesAt(lines);
  }

  lemma {:induction false} HashTextIs(text: string, m: nat, n: nat)
    requires CoreAt(SplitLines(text), m, n)
    ensures NormalizeForHash(text) == Join("\n", Clean(SplitLines(text)[m..n]))
  {
    var lines := SplitLines(text);
    UnifyKeepsLines(text);
    CoreTrims(lines, m, n);
    TrimmedCore(lines, m, n, lines[m..n], TrimLines(lines)[m..n]);
    CoreJoins(lines[m..n], TrimLines(lines)[m..n]);
  }

  // The same lines but for white space at line ends and before the first of them.
  ghost predicate SameLines(a: seq<string>, b: seq<string>) {
    && |a| == |b|
    && (a != [] ==> Strip(a[0]) == Strip(b[0]))
    && forall k :: 0 < k < |a| ==> StripRight(a[k]) == StripRight(b[k])
  }

  lemma {:induction false} JoinsAlike(a: seq<string>, b: seq<string>)
    requires AreLines(a) && AreLines(b) && (a != [] ==> a[0] != "") && (b != [] ==> b[0] != "")
    ensures Join("\n", a) == Join("\n", b) <==> a == b
  {
    if a != [] && b != [] {
      JoinSegments(a);
      JoinSegments(b);
    }
  }

  lemma CleanAlike(a: seq<string>, b: seq<string>)
    ensures Clean(a) == Clean(b) <==> SameLines(a, b)
  {
    if Clean(a) == Clean(b) {
      assert |a| == |b|;
      forall k | 0 < k < |a| ensures StripRight(a[k]) == StripRight(b[k]) {
        assert Clean(a)[k] == Clean(b)[k];
      }
      assert a != [] ==> Clean(a)[0] == Clean(b)[0];
    }
  }

  /** Two texts count as the same for identifiers exactly when their lines, however they are broken, are the same but
      for white space at line ends, before the first visible line, and blank lines at both ends of the text. */
  lemma {:induction false} HashesAlike(a: string, m: nat, n: nat, b: string, p: nat, q: nat)
    requires CoreAt(SplitLines(a), m, n) && CoreAt(SplitLines(b), p, q)
    ensures NormalizeForHash(a) == NormalizeForHash(b) <==> SameLines(SplitLines(a)[m..n], SplitLines(b)[p..q])
  {
    HashTextIs(a, m, n);
    HashTextIs(b, p, q);
    CleanAreLines(SplitLines(a)[m..n]);
    CleanAreLines(SplitLines(b)[p..q]);
    JoinsAlike(Clean(SplitLines(a)[m..n]), Clean(SplitLines(b)[p..q]));
    CleanAlike(SplitLines(a)[m..n], SplitLines(b)[p..q]);
  }

  /** Every text has such a core. */
  lemma {:induction false} CoreOf(lines: seq<string>) returns (m: nat, n: nat)
    ensures CoreAt(lines, m, n)
  {
    if lines == [] {
      m, n := 0, 0;
    } else {
      m, n := CoreOf(lines[..|lines| - 1]);
      var last := |lines| - 1;
      assert forall k :: 0 <= k < last ==> lines[..last][k] == lines[k];
      if Strip(lines[last]) != "" {
        m := if m == n then last else m;
        n := |lines|;
      }
    }
  }

  /** So two chunks of a document get the same identifier exactly when they stand under the same headings, have
      different texts whose lines are the same in this sense, and repeat as many earlier chunks each. */
  lemma ClashMeans(chunks: seq<Chunk>, i: nat, j: nat, m: nat, n: nat, p: nat, q: nat)
    requires i < |chunks| && j < |chunks|
    requires CoreAt(SplitLines(chunks[i].text), m, n) && CoreAt(SplitLines(chunks[j].text), p, q)
    ensures Clash(chunks, i, j)
            <==> && chunks[i].headings == chunks[j].headings && chunks[i].text != chunks[j].text
                 && SameLines(SplitLines(chunks[i].text)[m..n], SplitLines(chunks[j].text)[p..q])
                 && |Earlier(chunks, i)| == |Earlier(chunks, j)|
  {
    HashesAlike(chunks[i].text, m, n, chunks[j].text, p, q);
    OccurrencesAre(chunks, i + 1, chunks[i]);
    OccurrencesAre(chunks, j + 1, chunks[j]);
    EarlierIs(chunks, i);
    EarlierIs(chunks, j);
  }

  // The places of a chunk among the first `n`, and those before `i` where the same chunk stands.
  function PlacesOf(chunks: seq<Chunk>, n: nat, target: Chunk): set<nat> {
    set k: nat | k < n && k < |chunks| && chunks[k] == target
  }

  function Earlier(chunks: seq<Chunk>, i: nat): set<nat>
    requires i < |chunks|
  {
    set k: nat | k < i && chunks[k] == chunks[i]
  }

  lemma EarlierIs(chunks: seq<Chunk>, i: nat)
    requires i < |chunks|
    ensures |PlacesOf(chunks, i + 1, chunks[i])| == |Earlier(chunks, i)| + 1
  {
    assert PlacesOf(chunks, i + 1, chunks[i]) == Earlier(chunks, i) + {i};
  }

  lemma {:induction false} OccurrencesAre(chunks: seq<Chunk>, n: nat, target: Chunk)
    requires n <= |chunks|
    ensures Occurrences(chunks[..n], target) == |PlacesOf(chunks, n, target)|
  {
    if n == 0 {
      assert PlacesOf(chunks, 0, target) == {};
    } else {
      OccurrencesAre(chunks, n - 1, target);
      assert chunks[..n][..n - 1] == chunks[..n - 1];
      assert PlacesOf(chunks, n, target)
        == PlacesOf(chunks, n - 1, target) + if chunks[n - 1] == target then {n - 1} else {};
    }
  }
}
