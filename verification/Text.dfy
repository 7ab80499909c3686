/**
  Character classes and the whitespace normalisation of chunk text.
  Text is a sequence of Unicode characters; every recursive definition here follows that sequence.
 */
module Text {

  // The three blocks of CJK ideographs the chunker counts one token per character.
  predicate IsCjk(c: char) {
    || '\U{3400}' <= c <= '\U{4dbf}'
    || '\U{4e00}' <= c <= '\U{9fff}'
    || '\U{f900}' <= c <= '\U{faff}'
  }

  // Latin letters, ASCII digits and underscore.
  predicate IsLatin(c: char) {
    'A' <= c <= 'Z' || 'a' <= c <= 'z' || '0' <= c <= '9' || c == '_'
  }

  // Unicode white space.
  predicate IsSpace(c: char) {
    || '\U{9}' <= c <= '\U{d}'
    || '\U{1c}' <= c <= '\U{20}'
    || c == '\U{85}'
    || c == '\U{a0}'
    || c == '\U{1680}'
    || '\U{2000}' <= c <= '\U{200a}'
    || '\U{2028}' <= c <= '\U{2029}'
    || c == '\U{202f}'
    || c == '\U{205f}'
    || c == '\U{3000}'
  }

  // The characters at which a text is divided into lines.
  predicate IsBreak(c: char) {
    || '\U{a}' <= c <= '\U{d}'
    || '\U{1c}' <= c <= '\U{1e}'
    || c == '\U{85}'
    || '\U{2028}' <= c <= '\U{2029}'
  }

  predicate IsTrailingBlank(c: char) {
    c == ' ' || c == '\t'
  }

  predicate Blank(s: string) {
    forall i :: 0 <= i < |s| ==> IsSpace(s[i])
  }

  function StripLeft(s: string): string {
    if s != "" && IsSpace(s[0]) then StripLeft(s[1..]) else s
  }

  function StripRight(s: string): string {
    if s != "" && IsSpace(s[|s| - 1]) then StripRight(s[..|s| - 1]) else s
  }

  function Strip(s: string): string {
    StripRight(StripLeft(s))
  }

  // "\r\n" and a lone "\r" both become "\n".
  function UnifyNewlines(s: string): string {
    if s == "" then ""
    else if s[0] == '\r' && |s| > 1 && s[1] == '\n' then UnifyNewlines(s[1..])
    else [if s[0] == '\r' then '\n' else s[0]] + UnifyNewlines(s[1..])
  }

  // Spaces and tabs directly before a newline are removed.
  function TrimLineEnds(s: string): string {
    if s == "" then ""
    else
      var rest := TrimLineEnds(s[1..]);
      if IsTrailingBlank(s[0]) && rest != "" && rest[0] == '\n' then rest else [s[0]] + rest
  }

  // Three or more newlines in a row become two.
  function CollapseNewlines(s: string): string {
    if s == "" then ""
    else
      var rest := CollapseNewlines(s[1..]);
      if s[0] == '\n' && "\n\n" <= rest then rest else [s[0]] + rest
  }

  function Normalize(s: string): string {
    Strip(CollapseNewlines(TrimLineEnds(UnifyNewlines(s))))
  }

  lemma ConcatAssociative<T>(a: seq<T>, b: seq<T>, c: seq<T>)
    ensures (a + b) + c == a + (b + c)
  {
  }

  // The shape of normalised text: nothing is left for any of the steps to do.
  predicate Tidy(s: string) {
    && (s != "" ==> !IsSpace(s[0]) && !IsSpace(s[|s| - 1]))
    && '\r' !in s
    && (forall i :: 0 < i < |s| && s[i] == '\n' ==> s[i - 1] != ' ' && s[i - 1] != '\t')
    && (forall i :: 1 < i < |s| ==> !(s[i - 2] == '\n' && s[i - 1] == '\n' && s[i] == '\n'))
  }

  predicate NoTrailingBlanks(s: string) {
    forall i :: 0 < i < |s| && s[i] == '\n' ==> !IsTrailingBlank(s[i - 1])
  }

  predicate NoTripleNewlines(s: string) {
    forall i :: 1 < i < |s| ==> !(s[i - 2] == '\n' && s[i - 1] == '\n' && s[i] == '\n')
  }

  // Strip cuts a middle piece out of the text; what it cuts off is white space on both sides.
  lemma StripIsMiddle(s: string) returns (left: string, right: string)
    ensures s == left + Strip(s) + right
    ensures Blank(left) && Blank(right)
    ensures Strip(s) != "" ==> !IsSpace(Strip(s)[0]) && !IsSpace(Strip(s)[|Strip(s)| - 1])
  {
    left := StripLeftCuts(s);
    right := StripRightCuts(StripLeft(s));
    assert left + (Strip(s) + right) == left + Strip(s) + right;
  }

  lemma {:induction false} StripLeftCuts(s: string) returns (left: string)
    ensures s == left + StripLeft(s) && Blank(left)
    ensures StripLeft(s) != "" ==> !IsSpace(StripLeft(s)[0])
  {
    if s != "" && IsSpace(s[0]) {
      var l := StripLeftCuts(s[1..]);
      left := [s[0]] + l;
      assert s == [s[0]] + s[1..];
    } else {
      left := "";
    }
  }

  lemma {:induction false} StripRightCuts(s: string) returns (right: string)
    ensures s == StripRight(s) + right && Blank(right)
    ensures StripRight(s) != "" ==> !IsSpace(StripRight(s)[|StripRight(s)| - 1])
    ensures StripRight(s) != "" ==> StripRight(s)[0] == s[0]
  {
    if s != "" && IsSpace(s[|s| - 1]) {
      var r := StripRightCuts(s[..|s| - 1]);
      right := r + [s[|s| - 1]];
      assert s == s[..|s| - 1] + [s[|s| - 1]];
    } else {
      right := "";
    }
  }

  lemma StripFixed(s: string)
    requires s != "" ==> !IsSpace(s[0]) && !IsSpace(s[|s| - 1])
    ensures Strip(s) == s
  {
  }

  lemma {:induction false} LeftOfBlank(indent: string, rest: string)
    requires Blank(indent) && rest != "" && !IsSpace(rest[0])
    ensures StripLeft(indent + rest) == rest
  {
    if indent == "" {
      assert indent + rest == rest;
    } else {
      assert (indent + rest)[1..] == indent[1..] + rest;
      LeftOfBlank(indent[1..], rest);
    }
  }

  lemma StripTwice(s: string)
    ensures Strip(Strip(s)) == Strip(s) && StripLeft(Strip(s)) == Strip(s)
  {
    var _, _ := StripIsMiddle(s);
    StripFixed(Strip(s));
  }

  lemma {:induction false} UnifyFixed(s: string)
    requires '\r' !in s
    ensures UnifyNewlines(s) == s
  {
    if s != "" {
      UnifyFixed(s[1..]);
    }
  }

  lemma {:induction false} UnifyHasNoReturns(s: string)
    ensures '\r' !in UnifyNewlines(s)
  {
    if s != "" {
      UnifyHasNoReturns(s[1..]);
    }
  }

  lemma {:induction false} TrimFixed(s: string)
    requires NoTrailingBlanks(s)
    ensures TrimLineEnds(s) == s
  {
    if s != "" {
      assert NoTrailingBlanks(s[1..]) by {
        forall i | 0 < i < |s[1..]| && s[1..][i] == '\n' ensures !IsTrailingBlank(s[1..][i - 1]) {
          assert s[i + 1] == '\n';
        }
      }
      TrimFixed(s[1..]);
      assert IsTrailingBlank(s[0]) && |s| > 1 ==> s[1] != '\n';
    }
  }

  lemma {:induction false} TrimLeavesNoTrailingBlanks(s: string)
    requires '\r' !in s
    ensures NoTrailingBlanks(TrimLineEnds(s)) && '\r' !in TrimLineEnds(s)
  {
    if s != "" {
      TrimLeavesNoTrailingBlanks(s[1..]);
    }
  }

  lemma {:induction false} CollapseFixed(s: string)
    requires NoTripleNewlines(s)
    ensures CollapseNewlines(s) == s
  {
    if s != "" {
      assert NoTripleNewlines(s[1..]) by {
        forall i | 1 < i < |s[1..]|
          ensures !(s[1..][i - 2] == '\n' && s[1..][i - 1] == '\n' && s[1..][i] == '\n')
        {
          assert !(s[i + 1 - 2] == '\n' && s[i + 1 - 1] == '\n' && s[i + 1] == '\n');
        }
      }
      CollapseFixed(s[1..]);
      assert |s| > 2 ==> !(s[2 - 2] == '\n' && s[2 - 1] == '\n' && s[2] == '\n');
    }
  }

  // Collapsing removes newlines only, so it neither makes a trailing blank nor a carriage return.
  lemma {:induction false} CollapseKeepsShape(s: string)
    requires NoTrailingBlanks(s) && '\r' !in s
    ensures NoTrailingBlanks(CollapseNewlines(s)) && NoTripleNewlines(CollapseNewlines(s))
    ensures '\r' !in CollapseNewlines(s)
    ensures s != "" ==> CollapseNewlines(s) != "" && CollapseNewlines(s)[0] == s[0]
  {
    if s != "" {
      assert NoTrailingBlanks(s[1..]) by {
        forall i | 0 < i < |s[1..]| && s[1..][i] == '\n' ensures !IsTrailingBlank(s[1..][i - 1]) {
          assert s[i + 1] == '\n';
        }
      }
      CollapseKeepsShape(s[1..]);
      assert IsTrailingBlank(s[0]) && |s| > 1 ==> s[1] != '\n';
    }
  }

  // A middle piece of tidy-inside text is tidy inside.
  lemma MiddleKeepsShape(left: string, mid: string, right: string)
    requires NoTrailingBlanks(left + mid + right) && NoTripleNewlines(left + mid + right)
    requires '\r' !in left + mid + right
    ensures NoTrailingBlanks(mid) && NoTripleNewlines(mid) && '\r' !in mid
  {
    var s := left + mid + right;
    forall i | 0 < i < |mid| && mid[i] == '\n' ensures !IsTrailingBlank(mid[i - 1]) {
      assert s[|left| + i] == mid[i] && s[|left| + i - 1] == mid[i - 1];
    }
    forall i | 1 < i < |mid| ensures !(mid[i - 2] == '\n' && mid[i - 1] == '\n' && mid[i] == '\n') {
      var k := |left| + i;
      assert s[k] == mid[i] && s[k - 1] == mid[i - 1] && s[k - 2] == mid[i - 2];
    }
    forall c | c in mid ensures c in s {
    }
  }

  // Normalised text is tidy.
  lemma NormalizeIsTidy(s: string)
    ensures Tidy(Normalize(s))
  {
    UnifyHasNoReturns(s);
    var u := UnifyNewlines(s);
    TrimLeavesNoTrailingBlanks(u);
    var t := TrimLineEnds(u);
    CollapseKeepsShape(t);
    var c := CollapseNewlines(t);
    var left, right := StripIsMiddle(c);
    MiddleKeepsShape(left, Strip(c), right);
  }

  // Normalising tidy text changes nothing.
  lemma TidyIsFixed(s: string)
    requires Tidy(s)
    ensures Normalize(s) == s
  {
    UnifyFixed(s);
    TrimFixed(s);
    CollapseFixed(s);
    StripFixed(s);
  }

  /** Normalising twice is normalising once. */
  lemma NormalizeIdempotent(s: string)
    ensures Normalize(Normalize(s)) == Normalize(s)
  {
    NormalizeIsTidy(s);
    TidyIsFixed(Normalize(s));
  }
}
