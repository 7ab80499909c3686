/**
  The embedding client: texts are sent in batches, and a batch that times out is halved until it
  goes through or a single text times out.
 */
module Embeddings {
  type Vector = seq<real>

  // What the embedding server answers to one request.
  datatype Reply = Vectors(vectors: seq<Vector>) | Timeout | Failed

  datatype EmbedError =
    | TimedOut
    | ServerError
    | NoEmbeddings
    | CountMismatch
    | InconsistentDimensions
    | DimensionsChanged

  datatype Result<T> = Ok(value: T) | Err(error: EmbedError)

  // The answers may depend on the number of the request and on the texts in any way.
  type Server = (nat, seq<string>) -> Reply

  function Embedded(vec: string -> Vector, texts: seq<string>): (vs: seq<Vector>)
    ensures |vs| == |texts|
    ensures forall i :: 0 <= i < |texts| ==> vs[i] == vec(texts[i])
  {
    seq(|texts|, i requires 0 <= i < |texts| => vec(texts[i]))
  }

  lemma EmbeddedSplit(vec: string -> Vector, a: seq<string>, b: seq<string>)
    ensures Embedded(vec, a + b) == Embedded(vec, a) + Embedded(vec, b)
  {
  }

  // A full answer lists the vectors of the texts by position.
  ghost predicate Faithful(server: Server, vec: string -> Vector) {
    forall k: nat, texts: seq<string> ::
      server(k, texts).Vectors? && |server(k, texts).vectors| == |texts| ==>
        server(k, texts).vectors == Embedded(vec, texts)
  }

  // The server answers every batch in full, except that batches of several texts may time out.
  ghost predicate Capable(server: Server, vec: string -> Vector, dimensions: nat) {
    && (forall k: nat, texts: seq<string> :: texts != [] ==>
          server(k, texts) == Vectors(Embedded(vec, texts)) || (|texts| > 1 && server(k, texts) == Timeout))
    && (forall text: string :: |vec(text)| == dimensions)
  }

  // A server that always answers in full is both.
  lemma FullServer(vec: string -> Vector, dimensions: nat)
    requires forall text: string :: |vec(text)| == dimensions
    ensures Faithful((k, texts) => Vectors(Embedded(vec, texts)), vec)
    ensures Capable((k, texts) => Vectors(Embedded(vec, texts)), vec, dimensions)
  {
  }

  predicate SameDimensions(vectors: seq<Vector>) {
    forall i, j :: 0 <= i < |vectors| && 0 <= j < |vectors| ==> |vectors[i]| == |vectors[j]|
  }

  predicate AllOf(vectors: seq<Vector>, dimensions: nat) {
    forall i :: 0 <= i < |vectors| ==> |vectors[i]| == dimensions
  }

  class EmbeddingClient {
    const batchSize: nat
    const server: Server
    ghost const vec: string -> Vector
    var dimensions: nat
    var dimensionsKnown: bool
    var requests: nat

    constructor (server: Server, configuredBatchSize: int, ghost vec: string -> Vector)
      requires Faithful(server, vec)
      ensures Valid() && !dimensionsKnown && requests == 0
      ensures this.server == server && this.vec == vec
    {
      this.server := server;
      this.vec := vec;
      batchSize := if configuredBatchSize > 1 then configuredBatchSize else 1;
      dimensions := 0;
      dimensionsKnown := false;
      requests := 0;
    }

    ghost predicate Valid()
    {
      batchSize >= 1 && Faithful(server, vec)
    }

    // The server can answer every request, and with vectors of the known dimension.
    ghost predicate Serving()
      reads this
    {
      exists d :: Capable(server, vec, d) && (dimensionsKnown ==> dimensions == d)
    }

    // Dimensions that are known stay as they are, and every vector handed out has them.
    twostate predicate Settled()
      reads this
    {
      && (old(dimensionsKnown) ==> dimensionsKnown && dimensions == old(dimensions))
      && (dimensionsKnown && !old(dimensionsKnown) ==> requests > old(requests))
    }

    /** Halving: whatever batches time out, a successful call returns the vectors of exactly these
        texts, in order and of one dimension; it takes fewer than two requests per text. */
    method EmbedBatch(texts: seq<string>) returns (r: Result<seq<Vector>>)
      requires Valid() && texts != []
      modifies this
      ensures Settled()
      ensures r.Ok? ==> r.value == Embedded(vec, texts) && dimensionsKnown && AllOf(r.value, dimensions)
      ensures old(requests) < requests <= old(requests) + 2 * |texts| - 1
      ensures forall d :: Capable(server, vec, d) && (old(dimensionsKnown) ==> old(dimensions) == d) ==>
                            r.Ok? && dimensionsKnown && dimensions == d
      decreases |texts|
    {
      var reply := server(requests, texts);
      requests := requests + 1;
      match reply {
        case Timeout =>
          if |texts| <= 1 {
            return Err(TimedOut);
          }
          var midpoint := if |texts| / 2 > 1 then |texts| / 2 else 1;
          var first := EmbedBatch(texts[..midpoint]);
          if first.Err? {
            return first;
          }
          var second := EmbedBatch(texts[midpoint..]);
          if second.Err? {
            return second;
          }
          EmbeddedSplit(vec, texts[..midpoint], texts[midpoint..]);
          assert texts[..midpoint] + texts[midpoint..] == texts;
          return Ok(first.value + second.value);
        case Failed =>
          return Err(ServerError);
        case Vectors(vectors) =>
          if vectors == [] {
            return Err(NoEmbeddings);
          }
          if |vectors| != |texts| {
            return Err(CountMismatch);
          }
          if !SameDimensions(vectors) {
            return Err(InconsistentDimensions);
          }
          if dimensionsKnown && dimensions != |vectors[0]| {
            return Err(DimensionsChanged);
          }
          dimensions := |vectors[0]|;
          dimensionsKnown := true;
          return Ok(vectors);
      }
    }

    /** All batches together return one vector per text, in order. */
    method Embed(texts: seq<string>) returns (r: Result<seq<Vector>>)
      requires Valid()
      modifies this
      ensures old(dimensionsKnown) ==> dimensionsKnown && dimensions == old(dimensions)
      ensures r.Ok? ==> r.value == Embedded(vec, texts) && AllOf(r.value, dimensions)
      ensures r.Ok? && texts != [] ==> dimensionsKnown
      ensures forall d :: Capable(server, vec, d) && (old(dimensionsKnown) ==> old(dimensions) == d) ==> r.Ok?
      ensures old(Serving()) ==> Serving() && r.Ok?
    {
      var all: seq<Vector> := [];
      var start := 0;
      while start < |texts|
        invariant start <= |texts|
        invariant all == Embedded(vec, texts[..start])
        invariant old(dimensionsKnown) ==> dimensionsKnown && dimensions == old(dimensions)
        invariant start > 0 ==> dimensionsKnown
        invariant AllOf(all, dimensions)
        invariant forall d :: Capable(server, vec, d) && (old(dimensionsKnown) ==> old(dimensions) == d) ==>
                                dimensionsKnown ==> dimensions == d
      {
        var end := if start + batchSize < |texts| then start + batchSize else |texts|;
        var batch := EmbedBatch(texts[start..end]);
        if batch.Err? {
          return batch;
        }
        EmbeddedSplit(vec, texts[..start], texts[start..end]);
        assert texts[..start] + texts[start..end] == texts[..end];
        all := all + batch.value;
        start := end;
      }
      assert texts[..start] == texts;
      return Ok(all);
    }
  }
}
