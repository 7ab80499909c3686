/**
  The packing loop.  A plan lists, chunk by chunk, the blocks carried over from the chunk before
  and the fresh blocks added to them; the program's loop yields the texts of exactly this plan.
 */
module ChunkPlans {
  import opened Text
  import opened Tokens
  import opened Documents
  import opened Packing

  datatype Packed = Packed(carried: seq<Block>, added: seq<Block>) {
    function Blocks(): seq<Block> { carried + added }
  }

  function Tok(p: Packer, blocks: seq<Block>): nat {
    Est(p.ChunkText(blocks))
  }

  function Overlap(p: Packer, blocks: seq<Block>): seq<Block> {
    TrailingOverlap(blocks, p.settings.overlapTokens)
  }

  function Flushed(st: Packed): seq<Packed> {
    if st.added != [] then [st] else []
  }

  // Before block `b` is added: what is flushed, and what stays open.
  function MakeRoom(p: Packer, st: Packed, b: Block): (seq<Packed>, Packed) {
    if st.Blocks() != [] && Tok(p, st.Blocks() + [b]) > p.settings.maxTokens then
      var kept := if st.added != [] then Overlap(p, st.Blocks()) else [];
      (Flushed(st),
       if kept != [] && Tok(p, kept + [b]) > p.settings.maxTokens then Packed([], []) else Packed(kept, []))
    else ([], st)
  }

  // One block: what is flushed, and what stays open.
  function Step(p: Packer, st: Packed, b: Block, last: bool): (seq<Packed>, Packed) {
    if Oversized(b, p.ContentLimit()) then
      (Flushed(st) + [Packed([], [b])], Packed(Overlap(p, [b]), []))
    else
      var (out, room) := MakeRoom(p, st, b);
      var full := Packed(room.carried, room.added + [b]);
      if Tok(p, full.Blocks()) >= p.settings.targetTokens && !last then
        (out + [full], Packed(Overlap(p, full.Blocks()), []))
      else (out, full)
  }

  // The chunks closed while the blocks are worked off, starting with an open chunk.
  function Plan(p: Packer, st: Packed, blocks: seq<Block>): seq<Packed>
    decreases |blocks|
  {
    if blocks == [] then Flushed(st)
    else
      var (out, next) := Step(p, st, blocks[0], |blocks| == 1);
      out + Plan(p, next, blocks[1..])
  }

  // The chunks that carry text.
  function Render(p: Packer, plan: seq<Packed>): seq<Candidate> {
    if plan == [] then []
    else
      var text := p.ChunkText(plan[0].Blocks());
      (if text == "" then [] else [Candidate(text, FirstPage(plan[0].Blocks()))]) + Render(p, plan[1..])
  }

  lemma {:induction false} RenderSplit(p: Packer, a: seq<Packed>, b: seq<Packed>)
    ensures Render(p, a + b) == Render(p, a) + Render(p, b)
  {
    if a == [] {
      assert a + b == b;
    } else {
      assert (a + b)[1..] == a[1..] + b;
      RenderSplit(p, a[1..], b);
    }
  }

  lemma {:induction false} RenderOne(p: Packer, chunk: Packed)
    ensures Render(p, [chunk])
            == var text := p.ChunkText(chunk.Blocks());
               if text == "" then [] else [Candidate(text, FirstPage(chunk.Blocks()))]
  {
    assert [chunk][1..] == [];
    assert Render(p, []) == [];
  }

  // ----- what every plan keeps

  function AddedOf(plan: seq<Packed>): seq<Block> {
    if plan == [] then [] else plan[0].added + AddedOf(plan[1..])
  }

  lemma {:induction false} AddedSplit(a: seq<Packed>, b: seq<Packed>)
    ensures AddedOf(a + b) == AddedOf(a) + AddedOf(b)
  {
    if a == [] {
      assert a + b == b;
    } else {
      assert (a + b)[1..] == a[1..] + b;
      AddedSplit(a[1..], b);
    }
  }

  lemma AddedOne(chunk: Packed)
    ensures AddedOf([chunk]) == chunk.added
  {
    assert [chunk][1..] == [];
    assert AddedOf([]) == [];
  }

  lemma RoomConserves(p: Packer, st: Packed, b: Block)
    ensures var (out, room) := MakeRoom(p, st, b);
            && AddedOf(out) + room.added == st.added && |out| <= 1
            && forall c <- out :: c.added != []
  {
    AddedOne(st);
  }

  lemma {:induction false} FullConserves(added: seq<Block>, out: seq<Packed>, room: Packed, b: Block)
    requires AddedOf(out) + room.added == added
    ensures AddedOf(out + [Packed(room.carried, room.added + [b])]) == added + [b]
    ensures AddedOf(out) + (room.added + [b]) == added + [b]
  {
    var full := Packed(room.carried, room.added + [b]);
    AddedOne(full);
    AddedSplit(out, [full]);
    ConcatAssociative(AddedOf(out), room.added, [b]);
  }

  lemma StepConserves(p: Packer, st: Packed, b: Block, last: bool)
    ensures var (out, next) := Step(p, st, b, last);
            && AddedOf(out) + next.added == st.added + [b]
            && |out| <= 2
            && forall c <- out :: c.added != []
  {
    if Oversized(b, p.ContentLimit()) {
      AddedOne(st);
      AddedOne(Packed([], [b]));
      AddedSplit([st], [Packed([], [b])]);
    } else {
      RoomConserves(p, st, b);
      var (out, room) := MakeRoom(p, st, b);
      FullConserves(st.added, out, room, b);
    }
  }

  lemma {:induction false} PlanConserves(p: Packer, st: Packed, blocks: seq<Block>)
    ensures AddedOf(Plan(p, st, blocks)) == st.added + blocks
    ensures forall c <- Plan(p, st, blocks) :: c.added != []
    decreases |blocks|
  {
    if blocks == [] {
      AddedOne(st);
    } else {
      var (out, next) := Step(p, st, blocks[0], |blocks| == 1);
      StepConserves(p, st, blocks[0], |blocks| == 1);
      PlanConserves(p, next, blocks[1..]);
      AddedSplit(out, Plan(p, next, blocks[1..]));
      ConcatAssociative(AddedOf(out), next.added, blocks[1..]);
      ConcatAssociative(st.added, [blocks[0]], blocks[1..]);
      assert [blocks[0]] + blocks[1..] == blocks;
    }
  }

  lemma {:induction false} AddedCounts(plan: seq<Packed>)
    requires forall c <- plan :: c.added != []
    ensures |plan| <= |AddedOf(plan)|
  {
    if plan != [] {
      AddedCounts(plan[1..]);
    }
  }

  // What a chunk that opens with block `b` begins with, when `overlap` could be carried over: all of it, unless
  // it would exceed the maximum together with the block or the block is a chunk of its own.
  function Into(p: Packer, overlap: seq<Block>, b: Block): seq<Block> {
    if Oversized(b, p.ContentLimit()) || Est(p.ChunkText(overlap + [b])) > p.settings.maxTokens then [] else overlap
  }

  // Each chunk begins with the overlap of the chunk before it, as far as that goes together with its first block.
  ghost predicate Chained(p: Packer, before: seq<Block>, plan: seq<Packed>) {
    && (forall i :: 0 <= i < |plan| ==> plan[i].added != [])
    && (plan != [] ==> plan[0].carried == Into(p, before, plan[0].added[0]))
    && (forall i :: 0 < i < |plan| ==>
          plan[i].carried
          == Into(p, TrailingOverlap(plan[i - 1].Blocks(), p.settings.overlapTokens), plan[i].added[0]))
  }

  // An open chunk has not decided yet what it begins with before its first block.
  ghost predicate OpenAfter(p: Packer, before: seq<Block>, st: Packed) {
    st.carried == if st.added == [] then before else Into(p, before, st.added[0])
  }

  // The overlap that the chunk after `out` may carry.
  function After(p: Packer, before: seq<Block>, out: seq<Packed>): seq<Block> {
    if out == [] then before else TrailingOverlap(out[|out| - 1].Blocks(), p.settings.overlapTokens)
  }

  lemma ChainedJoin(p: Packer, before: seq<Block>, a: seq<Packed>, b: seq<Packed>)
    requires Chained(p, before, a) && Chained(p, After(p, before, a), b)
    ensures Chained(p, before, a + b)
  {
    var plan := a + b;
    forall i | 0 < i < |plan|
      ensures plan[i].carried
              == Into(p, TrailingOverlap(plan[i - 1].Blocks(), p.settings.overlapTokens), plan[i].added[0])
    {
      if i > |a| {
        assert plan[i] == b[i - |a|] && plan[i - 1] == b[i - |a| - 1];
      }
    }
  }

  lemma MakeRoomChained(p: Packer, before: seq<Block>, st: Packed, b: Block)
    requires OpenAfter(p, before, st) && !Oversized(b, p.ContentLimit())
    ensures var (out, room) := MakeRoom(p, st, b);
            && out <= Flushed(st)
            && (room.added == [] ==> room.carried == Into(p, After(p, before, out), b))
            && (room.added != [] ==> out == [] && room == st)
  {
    assert st.added == [] ==> st.Blocks() == st.carried;
  }

  lemma FittingChained(p: Packer, before: seq<Block>, st: Packed, b: Block)
    requires OpenAfter(p, before, st) && !Oversized(b, p.ContentLimit())
    ensures var (out, room) := MakeRoom(p, st, b);
            var full := Packed(room.carried, room.added + [b]);
            Chained(p, before, out) && Chained(p, before, out + [full]) && OpenAfter(p, After(p, before, out), full)
  {
    MakeRoomChained(p, before, st, b);
    var (out, room) := MakeRoom(p, st, b);
    var full := Packed(room.carried, room.added + [b]);
    assert Chained(p, before, out);
    assert Chained(p, After(p, before, out), [full]);
    ChainedJoin(p, before, out, [full]);
  }

  lemma StepChained(p: Packer, before: seq<Block>, st: Packed, b: Block, last: bool)
    requires OpenAfter(p, before, st)
    ensures var (out, next) := Step(p, st, b, last);
            Chained(p, before, out) && OpenAfter(p, After(p, before, out), next)
  {
    if Oversized(b, p.ContentLimit()) {
      var alone := Packed([], [b]);
      assert alone.Blocks() == [b];
      assert Chained(p, before, Flushed(st));
      ChainedJoin(p, before, Flushed(st), [alone]);
    } else {
      FittingChained(p, before, st, b);
    }
  }

  lemma {:induction false} PlanChained(p: Packer, before: seq<Block>, st: Packed, blocks: seq<Block>)
    requires OpenAfter(p, before, st)
    ensures Chained(p, before, Plan(p, st, blocks))
    decreases |blocks|
  {
    if blocks != [] {
      var (out, next) := Step(p, st, blocks[0], |blocks| == 1);
      StepChained(p, before, st, blocks[0], |blocks| == 1);
      PlanChained(p, After(p, before, out), next, blocks[1..]);
      ChainedJoin(p, before, out, Plan(p, next, blocks[1..]));
    }
  }

  // ----- a chunk that reached its target takes no further block

  // Before its last block the chunk was below its target.
  ghost predicate NotLate(p: Packer, chunk: Packed) {
    forall k :: 1 <= k < |chunk.added| ==>
      Est(p.ChunkText(chunk.carried + chunk.added[..k])) < p.settings.targetTokens
  }

  ghost predicate BelowTarget(p: Packer, st: Packed) {
    st.added != [] ==> Est(p.ChunkText(st.Blocks())) < p.settings.targetTokens
  }

  lemma StepNotLate(p: Packer, st: Packed, b: Block, last: bool, out: seq<Packed>, next: Packed)
    requires Step(p, st, b, last) == (out, next) && NotLate(p, st) && BelowTarget(p, st)
    ensures (forall c <- out :: NotLate(p, c)) && NotLate(p, next) && (!last ==> BelowTarget(p, next))
  {
    if !Oversized(b, p.ContentLimit()) {
      var (flushed, room) := MakeRoom(p, st, b);
      var full := Packed(room.carried, room.added + [b]);
      assert flushed == [] || flushed == [st];
      assert room == st || room.added == [];
      forall k | 1 <= k < |full.added|
        ensures Est(p.ChunkText(full.carried + full.added[..k])) < p.settings.targetTokens
      {
        assert full.added[..k] == room.added[..k];
        assert k == |room.added| ==> room.added[..k] == room.added;
      }
    }
  }

  /** A chunk that reached its target receives no further block. */
  lemma {:induction false} PlanNotLate(p: Packer, st: Packed, blocks: seq<Block>)
    requires NotLate(p, st) && BelowTarget(p, st)
    ensures forall c <- Plan(p, st, blocks) :: NotLate(p, c)
    decreases |blocks|
  {
    if blocks != [] {
      var (out, next) := Step(p, st, blocks[0], |blocks| == 1);
      StepNotLate(p, st, blocks[0], |blocks| == 1, out, next);
      if |blocks| > 1 {
        PlanNotLate(p, next, blocks[1..]);
      }
    }
  }

  // ----- how large a chunk can get

  // A chunk is one block that cannot be cut, or keeps the maximum, or has at most 200 tokens beside its context.
  ghost predicate WithinBound(p: Packer, chunk: Packed) {
    || (|chunk.Blocks()| == 1 && Oversized(chunk.Blocks()[0], p.ContentLimit()))
    || Est(p.ChunkText(chunk.Blocks())) <= p.settings.maxTokens
    || Est(p.ChunkText(chunk.Blocks())) <= Est(p.Context()) + 200
  }

  lemma OneBlockTokens(p: Packer, b: Block)
    requires Est(b.text) <= p.ContentLimit()
    ensures Est(p.ChunkText([b])) <= p.settings.maxTokens || Est(p.ChunkText([b])) <= Est(p.Context()) + 200
  {
    ChunkTokens(p, [b]);
    assert Sum([b]) == Est(b.text) + Sum([]);
  }

  lemma MakeRoomFits(p: Packer, st: Packed, b: Block)
    ensures var (out, room) := MakeRoom(p, st, b);
            && out <= Flushed(st)
            && (room.Blocks() == [] || Tok(p, room.Blocks() + [b]) <= p.settings.maxTokens)
  {
    if st.added != [] {
      var kept := Overlap(p, st.Blocks());
      assert Packed(kept, []).Blocks() == kept;
    }
  }

  lemma AddedBlockFits(p: Packer, room: Packed, b: Block)
    requires Est(b.text) <= p.ContentLimit()
    requires room.Blocks() == [] || Tok(p, room.Blocks() + [b]) <= p.settings.maxTokens
    ensures WithinBound(p, Packed(room.carried, room.added + [b]))
  {
    var full := Packed(room.carried, room.added + [b]);
    if room.Blocks() == [] {
      assert full.Blocks() == [b];
      OneBlockTokens(p, b);
    } else {
      assert full.Blocks() == room.Blocks() + [b];
    }
  }

  lemma StepBounded(p: Packer, st: Packed, b: Block, last: bool, out: seq<Packed>, next: Packed)
    requires Step(p, st, b, last) == (out, next)
    requires st.added != [] ==> WithinBound(p, st)
    requires Est(b.text) <= p.ContentLimit() || Oversized(b, p.ContentLimit())
    ensures forall c <- out :: WithinBound(p, c)
    ensures next.added != [] ==> WithinBound(p, next)
  {
    if Oversized(b, p.ContentLimit()) {
      var alone := Packed([], [b]);
      assert alone.Blocks() == [b];
      assert WithinBound(p, alone);
    } else {
      var (flushed, room) := MakeRoom(p, st, b);
      var full := Packed(room.carried, room.added + [b]);
      MakeRoomFits(p, st, b);
      AddedBlockFits(p, room, b);
      assert forall c <- flushed :: c == st && st.added != [];
      assert WithinBound(p, full);
      assert out == flushed || out == flushed + [full];
    }
  }

  lemma {:induction false} PlanBounded(p: Packer, st: Packed, blocks: seq<Block>)
    requires st.added != [] ==> WithinBound(p, st)
    requires forall b <- blocks :: Est(b.text) <= p.ContentLimit() || Oversized(b, p.ContentLimit())
    ensures forall c <- Plan(p, st, blocks) :: WithinBound(p, c)
    decreases |blocks|
  {
    if blocks != [] {
      var (out, next) := Step(p, st, blocks[0], |blocks| == 1);
      StepBounded(p, st, blocks[0], |blocks| == 1, out, next);
      PlanBounded(p, next, blocks[1..]);
    }
  }

  // ----- chunks are closed only when they have to be

  // The chunk reached the target, or it ends with a block that is a chunk of its own.
  ghost predicate Complete(p: Packer, chunk: Packed) {
    && chunk.added != []
    && (Est(p.ChunkText(chunk.Blocks())) >= p.settings.targetTokens
        || Oversized(chunk.added[|chunk.added| - 1], p.ContentLimit()))
  }

  // The chunk is complete, or the next block does not fit or is a chunk of its own.
  ghost predicate ClosedFor(p: Packer, chunk: Packed, next: Block) {
    || Complete(p, chunk)
    || Est(p.ChunkText(chunk.Blocks() + [next])) > p.settings.maxTokens
    || Oversized(next, p.ContentLimit())
  }

  ghost predicate NoneEarly(p: Packer, plan: seq<Packed>) {
    && (forall i :: 0 <= i < |plan| ==> plan[i].added != [])
    && (forall i :: 0 < i < |plan| ==> ClosedFor(p, plan[i - 1], plan[i].added[0]))
  }

  // The block that the open chunk `st` will receive next, when it has none of its own yet.
  ghost predicate OpensWith(st: Packed, b: Block, plan: seq<Packed>) {
    plan != [] && plan[0].added != [] && plan[0].added[0] == if st.added != [] then st.added[0] else b
  }

  // What a step leaves behind: chunks closed for a reason, and an open chunk that follows on.
  ghost predicate Opens(p: Packer, st: Packed, b: Block, last: bool, out: seq<Packed>, next: Packed) {
    && (out != [] ==> OpensWith(st, b, out))
    && (out == [] ==> next.added != [] && OpensWith(st, b, [next]))
    && NoneEarly(p, out)
    && (out != [] && next.added != [] ==> ClosedFor(p, out[|out| - 1], next.added[0]))
    && (out != [] && next.added == [] ==> Complete(p, out[|out| - 1]))
  }

  lemma OversizedOpens(p: Packer, st: Packed, b: Block, last: bool)
    requires Oversized(b, p.ContentLimit())
    ensures Opens(p, st, b, last, Step(p, st, b, last).0, Step(p, st, b, last).1)
  {
    var alone := Packed([], [b]);
    assert Complete(p, alone);
    assert ClosedFor(p, st, b);
  }

  lemma MakeRoomOpens(p: Packer, st: Packed, b: Block)
    ensures var (out, room) := MakeRoom(p, st, b);
            || (out == [] && (room.added == st.added))
            || (out == [st] && st.added != [] && room.added == [] && ClosedFor(p, st, b))
  {
  }

  lemma FullOpens(p: Packer, st: Packed, b: Block, last: bool, out: seq<Packed>, room: Packed, full: Packed)
    requires (out == [] && room.added == st.added)
             || (out == [st] && st.added != [] && room.added == [] && ClosedFor(p, st, b))
    requires full.added == room.added + [b]
    ensures Opens(p, st, b, last, out, full)
    ensures Complete(p, full) ==>
              forall carried :: Opens(p, st, b, last, out + [full], Packed(carried, []))
  {
    if out == [st] {
      assert full.added == [b];
    }
  }

  lemma StepOpens(p: Packer, st: Packed, b: Block, last: bool)
    ensures Opens(p, st, b, last, Step(p, st, b, last).0, Step(p, st, b, last).1)
  {
    if Oversized(b, p.ContentLimit()) {
      OversizedOpens(p, st, b, last);
    } else {
      MakeRoomOpens(p, st, b);
      var (out, room) := MakeRoom(p, st, b);
      FullOpens(p, st, b, last, out, room, Packed(room.carried, room.added + [b]));
    }
  }

  lemma {:induction false} PlanOpens(p: Packer, st: Packed, blocks: seq<Block>)
    requires blocks != []
    ensures OpensWith(st, blocks[0], Plan(p, st, blocks))
    decreases |blocks|
  {
    var (out, next) := Step(p, st, blocks[0], |blocks| == 1);
    StepOpens(p, st, blocks[0], |blocks| == 1);
    if out == [] && |blocks| > 1 {
      PlanOpens(p, next, blocks[1..]);
    }
  }

  lemma NoneEarlyJoin(p: Packer, a: seq<Packed>, b: seq<Packed>)
    requires NoneEarly(p, a) && NoneEarly(p, b)
    requires a != [] && b != [] ==> ClosedFor(p, a[|a| - 1], b[0].added[0])
    ensures NoneEarly(p, a + b)
  {
    var plan := a + b;
    forall i | 0 < i < |plan| ensures ClosedFor(p, plan[i - 1], plan[i].added[0]) {
      if i > |a| {
        assert plan[i] == b[i - |a|] && plan[i - 1] == b[i - |a| - 1];
      }
    }
  }

  /** No chunk is closed while it is below the target and the next block still fits. */
  lemma {:induction false} PlanNoneEarly(p: Packer, st: Packed, blocks: seq<Block>)
    ensures NoneEarly(p, Plan(p, st, blocks))
    decreases |blocks|
  {
    if blocks != [] {
      var last := |blocks| == 1;
      var (out, next) := Step(p, st, blocks[0], last);
      var rest := Plan(p, next, blocks[1..]);
      StepOpens(p, st, blocks[0], last);
      PlanNoneEarly(p, next, blocks[1..]);
      if last {
        assert rest == Flushed(next);
      } else {
        PlanOpens(p, next, blocks[1..]);
      }
      NoneEarlyJoin(p, out, rest);
    }
  }

  // ----- the loop of the program

  function Emitted(p: Packer, blocks: seq<Block>): seq<Candidate> {
    var text := p.ChunkText(blocks);
    if text == "" then [] else [Candidate(text, FirstPage(blocks))]
  }

  // Closing the open chunk: its text is emitted and its trailing blocks stay as overlap.
  method FlushCurrent(p: Packer, current: seq<Block>, chunks: seq<Candidate>)
    returns (chunks': seq<Candidate>, current': seq<Block>)
    ensures chunks' == chunks + Emitted(p, current)
    ensures current' == Overlap(p, current)
  {
    var text := p.ChunkText(current);
    chunks' := if text == "" then chunks else chunks + [Candidate(text, FirstPage(current))];
    current' := TrailingOverlapBlocks(current, p.settings);
  }

  // The part of the loop body that makes room for a block; `st` is the plan's view of the open chunk.
  method MakeRoomFor(p: Packer, current: seq<Block>, addedSinceFlush: bool, b: Block, chunks: seq<Candidate>,
                     ghost st: Packed)
    returns (chunks': seq<Candidate>, current': seq<Block>)
    requires current == st.Blocks() && addedSinceFlush == (st.added != [])
    ensures chunks' == chunks + Render(p, MakeRoom(p, st, b).0)
    ensures current' == MakeRoom(p, st, b).1.Blocks()
  {
    RenderOne(p, st);
    assert Render(p, []) == [];
    chunks', current' := chunks, current;
    var candidate := p.ChunkText(current + [b]);
    var tokens := EstimateTokens(candidate);
    if current != [] && tokens > p.settings.maxTokens {
      if addedSinceFlush {
        chunks', current' := FlushCurrent(p, current, chunks);
      } else {
        current' := [];
      }
      assert Packed(current', []).Blocks() == current';
      candidate := p.ChunkText(current' + [b]);
      tokens := EstimateTokens(candidate);
      if current' != [] && tokens > p.settings.maxTokens {
        current' := [];
      }
    }
  }

  // A block that is too large and cannot be cut becomes a chunk of its own.
  method PackOversized(p: Packer, current: seq<Block>, addedSinceFlush: bool, b: Block, last: bool,
                       chunks: seq<Candidate>, ghost st: Packed)
    returns (chunks': seq<Candidate>, current': seq<Block>)
    requires current == st.Blocks() && addedSinceFlush == (st.added != [])
    requires Oversized(b, p.ContentLimit())
    ensures chunks' == chunks + Render(p, Step(p, st, b, last).0)
    ensures current' == Step(p, st, b, last).1.Blocks() && Step(p, st, b, last).1.added == []
  {
    OversizedRender(p, st, b, last, chunks);
    chunks', current' := chunks, current;
    if current' != [] && addedSinceFlush {
      chunks', current' := FlushCurrent(p, current', chunks');
    }
    chunks' := chunks' + Emitted(p, [b]);
    current' := TrailingOverlapBlocks([b], p.settings);
    assert Packed(current', []).Blocks() == current';
  }

  lemma {:induction false} OversizedRender(p: Packer, st: Packed, b: Block, last: bool, chunks: seq<Candidate>)
    requires Oversized(b, p.ContentLimit())
    ensures chunks + Render(p, Step(p, st, b, last).0)
            == (if st.added != [] then chunks + Emitted(p, st.Blocks()) else chunks) + Emitted(p, [b])
  {
    var alone := Packed([], [b]);
    assert alone.Blocks() == [b];
    RenderOne(p, st);
    RenderOne(p, alone);
    RenderSplit(p, Flushed(st), [alone]);
    assert Flushed(st) == [] ==> Flushed(st) + [alone] == [alone];
    ConcatAssociative(chunks, Emitted(p, st.Blocks()), Emitted(p, [b]));
  }

  lemma {:induction false} FullRender(p: Packer, out: seq<Packed>, full: Packed, chunks: seq<Candidate>)
    ensures chunks + Render(p, out + [full]) == (chunks + Render(p, out)) + Emitted(p, full.Blocks())
  {
    RenderOne(p, full);
    RenderSplit(p, out, [full]);
    ConcatAssociative(chunks, Render(p, out), Emitted(p, full.Blocks()));
  }

  // One round of the loop over the expanded blocks.
  method PackBlock(p: Packer, current: seq<Block>, addedSinceFlush: bool, b: Block, last: bool,
                   chunks: seq<Candidate>, ghost st: Packed)
    returns (chunks': seq<Candidate>, current': seq<Block>, added': bool)
    requires current == st.Blocks() && addedSinceFlush == (st.added != [])
    ensures chunks' == chunks + Render(p, Step(p, st, b, last).0)
    ensures current' == Step(p, st, b, last).1.Blocks()
    ensures added' == (Step(p, st, b, last).1.added != [])
  {
    var tokens := EstimateTokens(b.text);
    if tokens > p.ContentLimit() && !b.splittable {
      chunks', current' := PackOversized(p, current, addedSinceFlush, b, last, chunks, st);
      return chunks', current', false;
    }
    chunks', current' := MakeRoomFor(p, current, addedSinceFlush, b, chunks, st);
    ghost var out, room := MakeRoom(p, st, b).0, MakeRoom(p, st, b).1;
    ghost var full := Packed(room.carried, room.added + [b]);
    current' := current' + [b];
    added' := true;
    assert full.Blocks() == current';
    FullRender(p, out, full, chunks);
    var text := p.ChunkText(current');
    tokens := EstimateTokens(text);
    if tokens >= p.settings.targetTokens && !last {
      chunks', current' := FlushCurrent(p, current', chunks');
      assert Packed(current', []).Blocks() == current';
      added' := false;
    }
  }

  lemma {:induction false} PlanRound(p: Packer, st: Packed, blocks: seq<Block>, chunks: seq<Candidate>)
    requires blocks != []
    ensures var (out, next) := Step(p, st, blocks[0], |blocks| == 1);
            chunks + Render(p, Plan(p, st, blocks)) == (chunks + Render(p, out)) + Render(p, Plan(p, next, blocks[1..]))
  {
    var (out, next) := Step(p, st, blocks[0], |blocks| == 1);
    RenderSplit(p, out, Plan(p, next, blocks[1..]));
    ConcatAssociative(chunks, Render(p, out), Render(p, Plan(p, next, blocks[1..])));
  }

  const EMPTY := Packed([], [])

  // The plan of a whole section.
  function SectionPlan(p: Packer, blocks: seq<Block>): seq<Packed> {
    Plan(p, EMPTY, ExpandAll(blocks, p.ContentLimit(), p.settings.overlapTokens))
  }

  method ExpandBlocks(blocks: seq<Block>, limit: int, overlap: int) returns (expanded: seq<Block>)
    ensures expanded == ExpandAll(blocks, limit, overlap)
  {
    expanded := [];
    for i := 0 to |blocks|
      invariant expanded == ExpandAll(blocks[..i], limit, overlap)
    {
      var pieces := ExpandOversizedBlock(blocks[i], limit, overlap);
      assert blocks[..i + 1][..i] == blocks[..i];
      expanded := expanded + pieces;
    }
    assert blocks[..|blocks|] == blocks;
  }

  /** The program's packing loop emits the chunks of the plan. */
  method SplitBlocks(blocks: seq<Block>, path: seq<string>, settings: Settings) returns (chunks: seq<Candidate>)
    ensures chunks == Render(Packer(path, settings), SectionPlan(Packer(path, settings), blocks))
  {
    var p := Packer(path, settings);
    var expanded := ExpandBlocks(blocks, p.ContentLimit(), settings.overlapTokens);
    chunks := [];
    var current: seq<Block> := [];
    var addedSinceFlush := false;
    ghost var st := EMPTY;
    var i := 0;
    while i < |expanded|
      invariant i <= |expanded|
      invariant current == st.Blocks() && addedSinceFlush == (st.added != [])
      invariant chunks + Render(p, Plan(p, st, expanded[i..])) == Render(p, Plan(p, EMPTY, expanded))
    {
      ghost var rest := expanded[i..];
      PlanRound(p, st, rest, chunks);
      assert rest[0] == expanded[i] && rest[1..] == expanded[i + 1..];
      ghost var next := Step(p, st, expanded[i], i == |expanded| - 1).1;
      chunks, current, addedSinceFlush :=
        PackBlock(p, current, addedSinceFlush, expanded[i], i == |expanded| - 1, chunks, st);
      st := next;
      i := i + 1;
    }
    PlanEnd(p, st, expanded[i..]);
    if current != [] && addedSinceFlush {
      chunks := chunks + Emitted(p, current);
    }
  }

  lemma {:induction false} PlanEnd(p: Packer, st: Packed, rest: seq<Block>)
    requires rest == []
    ensures Render(p, Plan(p, st, rest)) == if st.added != [] then Emitted(p, st.Blocks()) else []
  {
    RenderOne(p, st);
  }

  // ----- the two promises for whole sections

  /** Nothing is lost and nothing is only overlap: the fresh blocks of the chunks are exactly the
      expanded blocks, in order, and each chunk has one; what a chunk begins with is exactly the overlap of the
      chunk before it, unless that would not fit with its first block, and it is an in-order selection (or one
      block cut to its tail) of fewer than three times the overlap; no chunk was closed early, and none took a
      block after it had reached its target. */
  lemma {:induction false} SectionConserved(p: Packer, blocks: seq<Block>)
    ensures var plan := SectionPlan(p, blocks);
            var expanded := ExpandAll(blocks, p.ContentLimit(), p.settings.overlapTokens);
            && AddedOf(plan) == expanded
            && |plan| <= |expanded|
            && NoneEarly(p, plan) && (forall c <- plan :: NotLate(p, c))
            && Chained(p, [], plan) && (plan != [] ==> plan[0].carried == [])
            && (forall i :: 0 < i < |plan| ==> ContinuesChunk(plan[i], plan[i - 1], p.settings.overlapTokens))
  {
    var plan := SectionPlan(p, blocks);
    var expanded := ExpandAll(blocks, p.ContentLimit(), p.settings.overlapTokens);
    PlanConserves(p, EMPTY, expanded);
    assert [] + expanded == expanded;
    AddedCounts(plan);
    PlanNoneEarly(p, EMPTY, expanded);
    PlanNotLate(p, EMPTY, expanded);
    PlanChained(p, [], EMPTY, expanded);
    forall i | 0 < i < |plan| ensures ContinuesChunk(plan[i], plan[i - 1], p.settings.overlapTokens) {
      OverlapContinues(plan[i], plan[i - 1], p.settings.overlapTokens);
    }
  }

  // A chunk begins with a small selection from the chunk before it, or with nothing.
  ghost predicate ContinuesChunk(c: Packed, before: Packed, overlap: int) {
    && CarriedFrom(c.carried, before.Blocks(), overlap)
    && Sum(c.carried) <= if overlap <= 0 then 0 else 3 * overlap - 1
  }

  lemma OverlapContinues(c: Packed, before: Packed, overlap: int)
    requires c.carried == [] || c.carried == TrailingOverlap(before.Blocks(), overlap)
    ensures ContinuesChunk(c, before, overlap)
  {
    OverlapIsCarried(before.Blocks(), overlap);
    assert PickedAt([], before.Blocks(), []);
  }

  /** Every chunk is one uncuttable block, or its text stays within the maximum or within its heading context plus 200
      tokens. */
  lemma SectionBounded(p: Packer, blocks: seq<Block>)
    ensures forall c <- SectionPlan(p, blocks) :: WithinBound(p, c)
  {
    ExpandAllFits(blocks, p.ContentLimit(), p.settings.overlapTokens);
    PlanBounded(p, EMPTY, ExpandAll(blocks, p.ContentLimit(), p.settings.overlapTokens));
  }

  lemma {:induction false} AddedAreSolid(p: Packer, plan: seq<Packed>)
    requires forall b <- AddedOf(plan) :: Solid(b)
    requires forall c <- plan :: c.added != []
    ensures |Render(p, plan)| == |plan|
    ensures forall i :: 0 <= i < |plan| ==>
              Render(p, plan)[i] == Candidate(p.ChunkText(plan[i].Blocks()), FirstPage(plan[i].Blocks()))
  {
    if plan != [] {
      var c := plan[0];
      assert AddedOf(plan) == c.added + AddedOf(plan[1..]);
      assert c.added[0] in AddedOf(plan);
      SolidCosts(c.added[0]);
      SumSplit(c.carried, c.added);
      ChunkTokens(p, c.Blocks());
      AddedAreSolid(p, plan[1..]);
    }
  }

  /** For blocks that are not blank every planned chunk is emitted, with its text and first page. */
  lemma {:induction false} SectionRendered(p: Packer, blocks: seq<Block>)
    requires forall b <- blocks :: Solid(b)
    ensures var plan := SectionPlan(p, blocks);
            && |Render(p, plan)| == |plan|
            && forall i :: 0 <= i < |plan| ==>
                 Render(p, plan)[i] == Candidate(p.ChunkText(plan[i].Blocks()), FirstPage(plan[i].Blocks()))
  {
    var expanded := ExpandAll(blocks, p.ContentLimit(), p.settings.overlapTokens);
    ExpandAllFits(blocks, p.ContentLimit(), p.settings.overlapTokens);
    PlanConserves(p, EMPTY, expanded);
    assert [] + expanded == expanded;
    AddedAreSolid(p, SectionPlan(p, blocks));
  }
}
