/**
  The token estimate: one token per CJK character, one per four (or fewer) characters of a latin
  run, one per other visible character, none for white space.
 */
module Tokens {
  import opened Text

  // ----- the estimate as the source computes it: cut into parts, then price each part

  function LatinRun(text: string): (n: nat)
    ensures n <= |text|
    ensures forall i :: 0 <= i < n ==> IsLatin(text[i])
    ensures n < |text| ==> !IsLatin(text[n])
  {
    if text != "" && IsLatin(text[0]) then 1 + LatinRun(text[1..]) else 0
  }

  function CjkRun(text: string): (n: nat)
    ensures n <= |text|
    ensures forall i :: 0 <= i < n ==> IsCjk(text[i])
    ensures n < |text| ==> !IsCjk(text[n])
  {
    if text != "" && IsCjk(text[0]) then 1 + CjkRun(text[1..]) else 0
  }

  // The parts of the text from left to right: CJK runs, latin runs and single visible characters.
  function Parts(text: string): seq<string>
    decreases |text|
  {
    if text == "" then []
    else if IsCjk(text[0]) then [text[..CjkRun(text)]] + Parts(text[CjkRun(text)..])
    else if IsLatin(text[0]) then [text[..LatinRun(text)]] + Parts(text[LatinRun(text)..])
    else if IsSpace(text[0]) then Parts(text[1..])
    else [text[..1]] + Parts(text[1..])
  }

  function PartCost(part: string): nat {
    if part != "" && CjkRun(part) == |part| then |part|
    else if part != "" && LatinRun(part) == |part| then
      if (|part| + 3) / 4 > 1 then (|part| + 3) / 4 else 1
    else 1
  }

  function PartsCost(parts: seq<string>): nat {
    if parts == [] then 0 else PartCost(parts[0]) + PartsCost(parts[1..])
  }

  // ----- the estimate as a left-to-right scan

  // A latin character that opens a token pays for the three latin characters after it:
  // `free` is the number of latin characters already paid for.
  function Weigh(text: string, free: nat): nat {
    if text == "" then 0
    else if IsLatin(text[0]) then
      if free == 0 then 1 + Weigh(text[1..], 3) else Weigh(text[1..], free - 1)
    else (if IsSpace(text[0]) then 0 else 1) + Weigh(text[1..], 0)
  }

  // What is still paid for after the text.
  function Left(text: string, free: nat): nat {
    if text == "" then free
    else if IsLatin(text[0]) then Left(text[1..], if free == 0 then 3 else free - 1)
    else Left(text[1..], 0)
  }

  function Est(text: string): nat {
    Weigh(text, 0)
  }

  lemma {:induction false} WeighLatin(run: string, rest: string, free: nat)
    requires LatinRun(run) == |run|
    requires rest != "" ==> !IsLatin(rest[0])
    requires free <= 3
    ensures Weigh(run + rest, free) == (|run| - free + 3) / 4 + Est(rest)
  {
    if run == "" {
      assert run + rest == rest;
    } else {
      assert (run + rest)[1..] == run[1..] + rest;
      WeighLatin(run[1..], rest, if free == 0 then 3 else free - 1);
    }
  }

  lemma {:induction false} WeighCjk(run: string, rest: string)
    requires CjkRun(run) == |run|
    ensures Est(run + rest) == |run| + Est(rest)
  {
    if run == "" {
      assert run + rest == rest;
    } else {
      assert (run + rest)[1..] == run[1..] + rest;
      WeighCjk(run[1..], rest);
    }
  }

  /** Pricing the parts one by one gives exactly what the left-to-right scan gives. */
  lemma {:induction false} PartsCostIsEst(text: string)
    ensures PartsCost(Parts(text)) == Est(text)
    decreases |text|
  {
    if text == "" {
    } else if IsCjk(text[0]) {
      var n := CjkRun(text);
      assert text == text[..n] + text[n..];
      WeighCjk(text[..n], text[n..]);
      PartsCostIsEst(text[n..]);
    } else if IsLatin(text[0]) {
      var n := LatinRun(text);
      assert text == text[..n] + text[n..];
      WeighLatin(text[..n], text[n..], 0);
      PartsCostIsEst(text[n..]);
      assert CjkRun(text[..n]) == 0;
    } else if IsSpace(text[0]) {
      PartsCostIsEst(text[1..]);
    } else {
      assert CjkRun(text[..1]) == 0 && LatinRun(text[..1]) == 0;
      PartsCostIsEst(text[1..]);
    }
  }

  lemma {:induction false} PartsCostSnoc(parts: seq<string>, last: string)
    ensures PartsCost(parts + [last]) == PartsCost(parts) + PartCost(last)
  {
    if parts == [] {
      assert parts + [last] == [last];
    } else {
      assert (parts + [last])[1..] == parts[1..] + [last];
      PartsCostSnoc(parts[1..], last);
    }
  }

  /** The source's loop over the parts computes the estimate. */
  method EstimateTokens(text: string) returns (total: nat)
    ensures total == Est(text)
  {
    var parts := Parts(text);
    total := 0;
    for i := 0 to |parts|
      invariant total == PartsCost(parts[..i])
    {
      var part := parts[i];
      if CjkRun(part) == |part| && part != "" {
        total := total + |part|;
      } else if LatinRun(part) == |part| && part != "" {
        total := total + if (|part| + 3) / 4 > 1 then (|part| + 3) / 4 else 1;
      } else {
        total := total + 1;
      }
      PartsCostSnoc(parts[..i], part);
      assert parts[..i + 1] == parts[..i] + [part];
    }
    assert parts[..|parts|] == parts;
    PartsCostIsEst(text);
  }

  // ----- how the estimate of a text relates to the estimates of its pieces

  lemma {:induction false} WeighSplit(a: string, b: string, free: nat)
    ensures Weigh(a + b, free) == Weigh(a, free) + Weigh(b, Left(a, free))
    ensures free <= 3 ==> Left(a, free) <= 3
  {
    if a == "" {
      assert a + b == b;
    } else {
      assert (a + b)[1..] == a[1..] + b;
      WeighSplit(a[1..], b, if !IsLatin(a[0]) then 0 else if free == 0 then 3 else free - 1);
    }
  }

  // Having more latin characters already paid for lowers the price, by one token at most.
  lemma {:induction false} FreeBounds(b: string, less: nat, more: nat)
    requires less <= more <= 3
    ensures Weigh(b, more) <= Weigh(b, less) <= Weigh(b, more) + 1
  {
    if b != "" && IsLatin(b[0]) && less != more {
      if less == 0 {
        FreeBounds(b[1..], more - 1, 3);
      } else {
        FreeBounds(b[1..], less - 1, more - 1);
      }
    }
  }

  // Text that leaves something paid for has paid for it, so it is worth at least one token.
  lemma {:induction false} PaidLeft(a: string, free: nat)
    requires Left(a, free) > free
    ensures Weigh(a, free) >= 1
  {
    if a != "" && IsLatin(a[0]) && free != 0 {
      PaidLeft(a[1..], free - 1);
    } else if a != "" && !IsLatin(a[0]) {
      PaidLeft(a[1..], 0);
    }
  }

  /** The estimate is additive up to one token. */
  lemma NearAdditive(a: string, b: string)
    ensures Est(a) + Est(b) - 1 <= Est(a + b) <= Est(a) + Est(b)
  {
    WeighSplit(a, b, 0);
    FreeBounds(b, 0, Left(a, 0));
  }

  /** Dropping characters at either end never raises the estimate. */
  lemma Monotone(a: string, b: string)
    ensures Est(a) <= Est(a + b) && Est(b) <= Est(a + b)
  {
    WeighSplit(a, b, 0);
    FreeBounds(b, 0, Left(a, 0));
    if Left(a, 0) > 0 {
      PaidLeft(a, 0);
    }
  }

  // A single character never costs more than one token.
  lemma OneCharacter(s: string)
    requires |s| == 1
    ensures Est(s) <= 1
  {
    assert s[1..] == "";
    assert Weigh(s[1..], 0) == 0 && Weigh(s[1..], 3) == 0;
  }

  lemma {:induction false} LeftAfterSpace(a: string, c: char, free: nat)
    requires IsSpace(c)
    ensures Left(a + [c], free) == 0 && Weigh(a + [c], free) == Weigh(a, free)
  {
    if a == "" {
      assert a + [c] == [c];
    } else {
      assert (a + [c])[1..] == a[1..] + [c];
      LeftAfterSpace(a[1..], c, if !IsLatin(a[0]) then 0 else if free == 0 then 3 else free - 1);
    }
  }

  /** Across white space the estimate is exactly additive. */
  lemma SpaceAdditive(a: string, c: char, b: string)
    requires IsSpace(c)
    ensures Est(a + [c] + b) == Est(a) + Est(b)
  {
    WeighSplit(a + [c], b, 0);
    LeftAfterSpace(a, c, 0);
  }

  lemma {:induction false} BlankIsFree(s: string)
    requires Blank(s)
    ensures Est(s) == 0
  {
    if s != "" {
      BlankIsFree(s[1..]);
    }
  }

  // Only blank text has estimate zero.
  lemma {:induction false} FreeIsBlank(s: string)
    requires Est(s) == 0
    ensures Blank(s)
  {
    if s != "" {
      FreeIsBlank(s[1..]);
      assert s == [s[0]] + s[1..];
    }
  }

  lemma StripKeepsTokens(s: string)
    ensures Est(Strip(s)) == Est(s)
  {
    var left, right := StripIsMiddle(s);
    var mid := Strip(s);
    BlankIsFree(left);
    BlankIsFree(right);
    if left != "" {
      assert left + mid == left[..|left| - 1] + [left[|left| - 1]] + mid;
      SpaceAdditive(left[..|left| - 1], left[|left| - 1], mid);
      Monotone(left[..|left| - 1], [left[|left| - 1]]);
      assert left == left[..|left| - 1] + [left[|left| - 1]];
    } else {
      assert left + mid == mid;
    }
    if right != "" {
      assert left + mid + right == (left + mid) + [right[0]] + right[1..];
      SpaceAdditive(left + mid, right[0], right[1..]);
      Monotone([right[0]], right[1..]);
      assert right == [right[0]] + right[1..];
    } else {
      assert left + mid + right == left + mid;
    }
  }

  lemma {:induction false} UnifyKeepsTokens(s: string, free: nat)
    ensures Weigh(UnifyNewlines(s), free) == Weigh(s, free)
  {
    if s == "" {
    } else if s[0] == '\r' && |s| > 1 && s[1] == '\n' {
      UnifyKeepsTokens(s[1..], free);
    } else {
      var c := if s[0] == '\r' then '\n' else s[0];
      UnifyKeepsTokens(s[1..], if !IsLatin(c) then 0 else if free == 0 then 3 else free - 1);
    }
  }

  lemma {:induction false} TrimKeepsTokens(s: string, free: nat)
    ensures Weigh(TrimLineEnds(s), free) == Weigh(s, free)
  {
    if s != "" {
      var next := if !IsLatin(s[0]) then 0 else if free == 0 then 3 else free - 1;
      TrimKeepsTokens(s[1..], next);
    }
  }

  lemma {:induction false} CollapseKeepsTokens(s: string, free: nat)
    ensures Weigh(CollapseNewlines(s), free) == Weigh(s, free)
  {
    if s != "" {
      var next := if !IsLatin(s[0]) then 0 else if free == 0 then 3 else free - 1;
      CollapseKeepsTokens(s[1..], next);
    }
  }

  /** Normalising a text keeps its token estimate. */
  lemma NormalizeKeepsTokens(s: string)
    ensures Est(Normalize(s)) == Est(s)
  {
    UnifyKeepsTokens(s, 0);
    TrimKeepsTokens(UnifyNewlines(s), 0);
    CollapseKeepsTokens(TrimLineEnds(UnifyNewlines(s)), 0);
    StripKeepsTokens(CollapseNewlines(TrimLineEnds(UnifyNewlines(s))));
  }

  // ----- the price of every text

  lemma {:induction false} AllInRun(s: string)
    ensures (forall i :: 0 <= i < |s| ==> IsCjk(s[i])) ==> CjkRun(s) == |s|
    ensures (forall i :: 0 <= i < |s| ==> IsLatin(s[i])) ==> LatinRun(s) == |s|
  {
    if s != "" {
      AllInRun(s[1..]);
    }
  }

  /** White space is free, an ideograph costs one token, four latin characters in a row or the rest of them cost one,
      and any other character costs one. */
  lemma {:induction false} Prices(s: string)
    ensures Blank(s) ==> Est(s) == 0
    ensures (forall i :: 0 <= i < |s| ==> IsCjk(s[i])) ==> Est(s) == |s|
    ensures (forall i :: 0 <= i < |s| ==> IsLatin(s[i])) ==> 4 * Est(s) - 4 < |s| <= 4 * Est(s)
    ensures |s| == 1 && !IsSpace(s[0]) ==> Est(s) == 1
  {
    assert s + "" == s;
    AllInRun(s);
    if CjkRun(s) == |s| {
      WeighCjk(s, "");
    }
    if LatinRun(s) == |s| {
      WeighLatin(s, "", 0);
    }
    if Blank(s) && s != "" {
      Prices(s[1..]);
    }
  }

  lemma {:induction false} NothingLeft(a: string, free: nat)
    requires a != "" && !IsLatin(a[|a| - 1])
    ensures Left(a, free) == 0
  {
    if |a| > 1 {
      NothingLeft(a[1..], if !IsLatin(a[0]) then 0 else if free == 0 then 3 else free - 1);
    }
  }

  /** Everywhere but inside a latin run the estimate is the sum of the parts, so these prices determine it. */
  lemma PricesAdd(a: string, b: string)
    requires a == "" || b == "" || !IsLatin(a[|a| - 1]) || !IsLatin(b[0])
    ensures Est(a + b) == Est(a) + Est(b)
  {
    WeighSplit(a, b, 0);
    if a != "" && !IsLatin(a[|a| - 1]) {
      NothingLeft(a, 0);
    }
  }
}
