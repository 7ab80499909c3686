/** The values that the chunker passes from stage to stage. */
module Documents {
  import opened Options
  import opened Text

  datatype Kind = Paragraph | Code | Table

  datatype Section = Section(headingPath: seq<string>, text: string)

  datatype Block = Block(kind: Kind, text: string, splittable: bool, page: Option<nat>)

  // A stripped block that is not blank.
  predicate Solid(b: Block) {
    b.text != "" && Strip(b.text) == b.text
  }

  datatype Candidate = Candidate(text: string, page: Option<nat>)

  datatype Settings = Settings(
    targetTokens: int, maxTokens: int, overlapTokens: int, injectHeadingContext: bool)

  function Join(separator: string, parts: seq<string>): string {
    if parts == [] then ""
    else if |parts| == 1 then parts[0]
    else parts[0] + separator + Join(separator, parts[1..])
  }

  function Reverse<T>(xs: seq<T>): (r: seq<T>)
    ensures |r| == |xs|
  {
    if xs == [] then [] else Reverse(xs[1..]) + [xs[0]]
  }

  lemma {:induction false} ReverseSnoc<T>(xs: seq<T>, x: T)
    ensures Reverse(xs + [x]) == [x] + Reverse(xs)
  {
    if xs == [] {
      assert xs + [x] == [x];
    } else {
      assert (xs + [x])[1..] == xs[1..] + [x];
      ReverseSnoc(xs[1..], x);
    }
  }
}
