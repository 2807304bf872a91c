/**
 `_context_parallel_compute_prefill_context` as a whole: plan, gather, un-pad, attend
 and merge, chunk by chunk.
 */
module ContextPrefill {
  import opened Seqs
  import opened Regions
  import opened Sharding
  import opened Attention
  import opened ChunkPlan
  import opened Reorg

  /** Keys as query row `q` meets them: weights and values depend on the query too. */
  function Facing<R>(q: nat, keys: seq<R>): (s: seq<(nat, R)>)
    ensures |s| == |keys| && forall i :: 0 <= i < |s| ==> s[i] == (q, keys[i])
  {
    Map(k => (q, k), keys)
  }

  /** `keys` are the tokens `[lo, hi)` of request `b`, each once, as query row `q` meets them. */
  ghost predicate Meets<R>(q: nat, keys: seq<(nat, R)>, kv: (nat, nat) -> R, b: nat, lo: nat, hi: nat) {
    lo <= hi && multiset(keys) == multiset(Facing(q, Wanted(kv, b, Range(lo, hi))))
  }

  /** Every row meets the tokens of its context that chunk `i` spans. */
  ghost predicate ChunkMeets<R>(p: Plan, i: nat, kv: (nat, nat) -> R, reqOf: seq<nat>, rows: seq<seq<(nat, R)>>)
    requires p.Valid()
  {
    |rows| == |reqOf|
    && forall q | 0 <= q < |rows| ::
         reqOf[q] < |p.ctx|
         && Meets(q, rows[q], kv, reqOf[q], From(p, i, p.ctx[reqOf[q]]), To(p, i, p.ctx[reqOf[q]]))
  }

  lemma MeetsMore<R>(q: nat, keys: seq<(nat, R)>, more: seq<(nat, R)>, kv: (nat, nat) -> R, b: nat, lo: nat, mid: nat,
                     hi: nat)
    requires Meets(q, keys, kv, b, lo, mid) && Meets(q, more, kv, b, mid, hi)
    ensures Meets(q, keys + more, kv, b, lo, hi)
  {
    assert Range(lo, hi) == Range(lo, mid) + Range(mid, hi);
    assert Wanted(kv, b, Range(lo, hi)) == Wanted(kv, b, Range(lo, mid)) + Wanted(kv, b, Range(mid, hi));
    assert Facing(q, Wanted(kv, b, Range(lo, hi)))
        == Facing(q, Wanted(kv, b, Range(lo, mid))) + Facing(q, Wanted(kv, b, Range(mid, hi)));
  }

  ghost predicate WholeStripesOrOneChunk(p: Plan)
    requires p.Valid()
  {
    p.mcc == p.Span() || MaxOf(p.ctx) <= p.mcc
  }

  /** Every chunk fits the workspace and passes the closing assertions. */
  ghost predicate Completes(p: Plan, workspace: nat)
    requires p.Valid()
  {
    p.mcc == p.Span() || (MaxOf(p.ctx) <= p.mcc && Toks(p, 0) <= workspace / p.c.ranks)
  }

  lemma ChunkIndex(p: Plan, i: nat)
    requires p.Valid() && WholeStripesOrOneChunk(p) && i < p.Chunks()
    ensures p.mcc == p.Span() || (i == 0 && MaxOf(p.ctx) <= p.mcc)
    ensures Toks(p, i) > 0
  {
    if p.mcc != p.Span() {
      OneChunk(p, i);
    }
    SkippedIff(p, i);
    RoundUpLeast(MaxOf(p.ctx), p.mcc);
  }

  lemma ChunksWhenLong(p: Plan)
    requires p.Valid()
    ensures p.Chunks() == 0 <==> MaxOf(p.ctx) == 0
  {
    RoundUpLeast(MaxOf(p.ctx), p.mcc);
  }

  lemma NoChunksComplete(p: Plan, workspace: nat)
    requires p.Valid() && p.Chunks() == 0
    ensures Completes(p, workspace)
  {
    ChunksWhenLong(p);
    NothingWithoutChunks(p);
  }

  /** The stretch of request `b`, cut out of the un-padded tensor by the planner's lengths. */
  method CutRows<R>(kv: seq<R>, lens: seq<nat>, reqOf: seq<nat>, ghost parts: seq<seq<R>>) returns (rows: seq<seq<(nat, R)>>)
    requires |parts| == |lens| && forall q :: 0 <= q < |reqOf| ==> reqOf[q] < |lens|
    requires forall b :: 0 <= b < |parts| ==> IsStretch(kv, lens, b, parts[b])
    ensures |rows| == |reqOf| && forall q :: 0 <= q < |rows| ==> rows[q] == Facing(q, parts[reqOf[q]])
  {
    rows := [];
    for q := 0 to |reqOf|
      invariant |rows| == q && forall j :: 0 <= j < q ==> rows[j] == Facing(j, parts[reqOf[j]])
    {
      var b := reqOf[q];
      assert IsStretch(kv, lens, b, parts[b]);
      var cu := Start(lens, b);
      rows := rows + [Facing(q, kv[cu..cu + lens[b]])];
    }
  }

  /** Under the condition, a chunk's un-padded tensor has the planned lengths. */
  lemma ChunkPasses<R>(p: Plan, i: nat, read: Pages<R>, kv: (nat, nat) -> R)
    requires Sharded(p, read, kv) && i < p.Chunks() && WholeStripesOrOneChunk(p)
    ensures Lengths(Unpadded(p, i, read)) == p.SeqLens(i) && |Flatten(Unpadded(p, i, read))| == Sum(p.SeqLens(i))
  {
    ChunkIndex(p, i);
    SameLens(p, i);
    UnpaddedLengths(p, i, read, kv);
  }

  /** Otherwise the first chunk's is longer than planned. */
  lemma FirstChunkFails<R>(p: Plan, i: nat, read: Pages<R>, kv: (nat, nat) -> R)
    requires Sharded(p, read, kv) && i == 0 && !WholeStripesOrOneChunk(p)
    ensures |Flatten(Unpadded(p, i, read))| > Sum(p.SeqLens(i))
  {
    SpanCases(p);
    FirstChunkTooLong(p);
    UnpaddedLengths(p, i, read, kv);
  }

  lemma ReachedNotEmpty<R>(p: Plan, i: nat, read: Pages<R>, kv: (nat, nat) -> R)
    requires Sharded(p, read, kv) && i < p.Chunks() && (i > 0 ==> WholeStripesOrOneChunk(p))
    ensures Toks(p, i) > 0 && Flatten(Unpadded(p, i, read)) != []
  {
    if i == 0 {
      SkippedIff(p, 0);
      ChunksWhenLong(p);
    } else {
      ChunkIndex(p, i);
    }
    NeverEmpty(p, i, read, kv);
  }

  lemma RowMeets<R>(p: Plan, i: nat, read: Pages<R>, kv: (nat, nat) -> R, b: nat, q: nat)
    requires Sharded(p, read, kv) && b < |p.ctx|
    ensures Meets(q, Facing(q, Unpadded(p, i, read)[b]), kv, b, From(p, i, p.ctx[b]), To(p, i, p.ctx[b]))
  {
    RequestHoldsSpan(p, i, read, kv, b);
    MapPermuted(k => (q, k), Unpadded(p, i, read)[b], Wanted(kv, b, Range(From(p, i, p.ctx[b]), To(p, i, p.ctx[b]))));
  }

  /** The workspace's three assertions and the closing ones pass in a reached chunk exactly if the run completes. */
  lemma RunVerdict(p: Plan, i: nat, workspace: nat)
    requires p.Valid() && Planned(p, workspace) && i < p.Chunks() && (i > 0 ==> Completes(p, workspace))
    ensures WorkspaceHolds(workspace + workspace / p.c.ranks, p.c.ranks, Toks(p, i)) && WholeStripesOrOneChunk(p)
       <==> Completes(p, workspace)
  {
    WorkspaceHoldsIff(workspace, p.c.ranks, Toks(p, i));
    if p.mcc == p.Span() {
      ChunkFits(p, workspace, i);
    } else if MaxOf(p.ctx) <= p.mcc {
      OneChunk(p, i);
    }
  }

  lemma AllGatherLength<R>(p: Plan, i: nat, read: Pages<R>)
    requires p.Valid()
    ensures |AllGather(p, i, read)| == p.c.ranks * Toks(p, i)
  {
    forall r | 0 <= r < p.c.ranks
      ensures |LocalGathers(p, i, read)[r]| == Toks(p, i)
    {
      LocalRowsLength(p, i, read, r);
    }
    UniformLength(LocalGathers(p, i, read), Toks(p, i));
  }

  /**
   The workspace: the local gather in front, the all-gather behind it. `fits` says that
   the three assertions hold; otherwise nothing is written. The collective brings in
   the other ranks' messages, this rank's is read from where it was gathered.
   */
  method GatherIntoWorkspace<R>(ws: array<R>, p: Plan, i: nat, read: Pages<R>, rank: nat) returns (fits: bool)
    requires p.Valid() && rank < p.c.ranks
    modifies ws
    ensures fits <==> WorkspaceHolds(ws.Length, p.c.ranks, Toks(p, i))
    ensures !fits ==> ws[..] == old(ws[..])
    ensures fits ==> Has(ws[..], ws.Length / (p.c.ranks + 1), AllGather(p, i, read))
    ensures fits ==> Has(ws[..], 0, LocalGathers(p, i, read)[rank])
  {
    var toks := Toks(p, i);
    fits := WorkspaceHolds(ws.Length, p.c.ranks, toks);
    if fits {
      var offset := ws.Length / (p.c.ranks + 1);
      LocalRowsLength(p, i, read, rank);
      AllGatherLength(p, i, read);
      Distribute(p.c.ranks, 1, offset);
      CopyInto(ws, 0, LocalGathers(p, i, read)[rank]);
      var messages := LocalGathers(p, i, read)[rank := ws[..toks]];
      assert messages == LocalGathers(p, i, read);
      ghost var packed := ws[..];
      CopyInto(ws, offset, Flatten(messages));
      HasKept(packed, ws[..], offset, offset + |Flatten(messages)|, 0, LocalGathers(p, i, read)[rank]);
    }
  }

  /** Un-padding a gathered chunk and cutting out every row's keys. */
  method UnpadChunk<R>(gathered: seq<R>, p: Plan, i: nat, ghost read: Pages<R>, ghost kv: (nat, nat) -> R, reqOf: seq<nat>)
    returns (rows: seq<seq<(nat, R)>>, ok: bool)
    requires Sharded(p, read, kv) && i < p.Chunks() && (i > 0 ==> WholeStripesOrOneChunk(p))
    requires gathered == AllGather(p, i, read) && forall q :: 0 <= q < |reqOf| ==> reqOf[q] < |p.ctx|
    ensures ok <==> WholeStripesOrOneChunk(p)
    ensures ok ==> Toks(p, i) > 0 && ChunkMeets(p, i, kv, reqOf, rows)
  {
    rows := [];
    var out, lens := [], p.SeqLens(i);
    ghost var parts := Unpadded(p, i, read);
    out, ok := ReorgKvCache(gathered, p.PaddedLens(i), LocalLens(p), Sum(lens), MaxOf(lens), p.LocalChunk(), i, Toks(p, i));
    assert out == Flatten(parts);
    ReachedNotEmpty(p, i, read, kv);
    if WholeStripesOrOneChunk(p) {
      ChunkPasses(p, i, read, kv);
    } else {
      FirstChunkFails(p, i, read, kv);
    }
    if ok {
      forall b | 0 <= b < |parts|
        ensures IsStretch(out, lens, b, parts[b])
      {
        StretchOf(parts, b);
      }
      rows := CutRows(out, lens, reqOf, parts);
      forall q | 0 <= q < |rows|
        ensures Meets(q, rows[q], kv, reqOf[q], From(p, i, p.ctx[reqOf[q]]), To(p, i, p.ctx[reqOf[q]]))
      {
        RowMeets(p, i, read, kv, reqOf[q], q);
      }
    }
  }

  /** One chunk: gather into the workspace, all-gather, un-pad, and cut out every row's keys. */
  method GatherChunk<R>(ws: array<R>, ghost workspace: nat, p: Plan, i: nat, read: Pages<R>, rank: nat,
                        ghost kv: (nat, nat) -> R, reqOf: seq<nat>)
    returns (rows: seq<seq<(nat, R)>>, ok: bool)
    requires Sharded(p, read, kv) && rank < p.c.ranks && i < p.Chunks()
    requires Planned(p, workspace) && ws.Length == workspace + workspace / p.c.ranks
    requires i > 0 ==> Completes(p, workspace)
    requires forall q :: 0 <= q < |reqOf| ==> reqOf[q] < |p.ctx|
    modifies ws
    ensures ok <==> Completes(p, workspace)
    ensures ok ==> Toks(p, i) > 0 && ChunkMeets(p, i, kv, reqOf, rows)
  {
    RunVerdict(p, i, workspace);
    rows := [];
    ok := GatherIntoWorkspace(ws, p, i, read, rank);
    if ok {
      AllGatherLength(p, i, read);
      var offset := ws.Length / (p.c.ranks + 1);
      rows, ok := UnpadChunk(ws[offset..offset + p.c.ranks * Toks(p, i)], p, i, read, kv, reqOf);
    }
  }

  // ---- all chunks ---------------------------------------------------------------------------------

  lemma FromNext(p: Plan, i: nat, len: nat)
    requires p.Valid()
    ensures From(p, 0, len) == 0 && From(p, i + 1, len) == To(p, i, len)
  {
    Distribute(i, 1, p.Span());
  }

  lemma FromLast(p: Plan, b: nat)
    requires p.Valid() && b < |p.ctx|
    ensures From(p, p.Chunks(), p.ctx[b]) == p.ctx[b]
  {
    MaxOfBounds(p.ctx);
    RoundUpLeast(MaxOf(p.ctx), p.mcc);
    SpanCases(p);
    MulMono(p.mcc, p.Span(), p.Chunks());
  }

  ghost predicate AllMeet<R>(p: Plan, kv: (nat, nat) -> R, reqOf: seq<nat>, chunks: seq<seq<seq<(nat, R)>>>)
    requires p.Valid()
  {
    forall i :: 0 <= i < |chunks| ==> ChunkMeets(p, i, kv, reqOf, chunks[i])
  }

  lemma AllMeetSnoc<R>(p: Plan, kv: (nat, nat) -> R, reqOf: seq<nat>, chunks: seq<seq<seq<(nat, R)>>>,
                       rows: seq<seq<(nat, R)>>)
    requires p.Valid() && AllMeet(p, kv, reqOf, chunks) && ChunkMeets(p, |chunks|, kv, reqOf, rows)
    ensures AllMeet(p, kv, reqOf, chunks + [rows])
  {
  }

  /** Chunk after chunk, a row meets a growing prefix of its context. */
  lemma {:induction false} ColumnMeets<R>(p: Plan, kv: (nat, nat) -> R, reqOf: seq<nat>, column: seq<seq<(nat, R)>>, q: nat)
    requires p.Valid() && q < |reqOf| && reqOf[q] < |p.ctx|
    requires forall i :: 0 <= i < |column| ==>
      Meets(q, column[i], kv, reqOf[q], From(p, i, p.ctx[reqOf[q]]), To(p, i, p.ctx[reqOf[q]]))
    ensures Meets(q, Flatten(column), kv, reqOf[q], 0, From(p, |column|, p.ctx[reqOf[q]]))
  {
    FromNext(p, 0, p.ctx[reqOf[q]]);
    if column != [] {
      var n := |column| - 1;
      ColumnMeets(p, kv, reqOf, column[..n], q);
      FromNext(p, n, p.ctx[reqOf[q]]);
      MeetsMore(q, Flatten(column[..n]), column[n], kv, reqOf[q], 0, From(p, n, p.ctx[reqOf[q]]), To(p, n, p.ctx[reqOf[q]]));
    }
  }

  /** The keys of every chunk, until an assertion fails. */
  method GatherChunks<R>(ws: array<R>, ghost workspace: nat, p: Plan, read: Pages<R>, rank: nat,
                         ghost kv: (nat, nat) -> R, reqOf: seq<nat>)
    returns (chunks: seq<seq<seq<(nat, R)>>>, toks: seq<nat>, ok: bool)
    requires Sharded(p, read, kv) && rank < p.c.ranks
    requires Planned(p, workspace) && ws.Length == workspace + workspace / p.c.ranks
    requires forall q :: 0 <= q < |reqOf| ==> reqOf[q] < |p.ctx|
    modifies ws
    ensures ok <==> Completes(p, workspace)
    ensures ok ==> |chunks| == |toks| == p.Chunks() && AllMeet(p, kv, reqOf, chunks)
    ensures ok ==> forall i :: 0 <= i < |toks| ==> toks[i] > 0
  {
    chunks, toks, ok := [], [], true;
    for i := 0 to p.Chunks()
      invariant |chunks| == |toks| == i && (i > 0 ==> Completes(p, workspace))
      invariant AllMeet(p, kv, reqOf, chunks)
      invariant forall j :: 0 <= j < i ==> toks[j] > 0
    {
      var rows;
      rows, ok := GatherChunk(ws, workspace, p, i, read, rank, kv, reqOf);
      if !ok {
        return;
      }
      AllMeetSnoc(p, kv, reqOf, chunks, rows);
      chunks, toks := chunks + [rows], toks + [Toks(p, i)];
    }
    ok := true;
    if p.Chunks() == 0 {
      NoChunksComplete(p, workspace);
    }
  }

  /** Row `q`'s whole context, as the row meets it. */
  function Context<R>(p: Plan, kv: (nat, nat) -> R, reqOf: seq<nat>, q: nat): (keys: seq<(nat, R)>)
    requires q < |reqOf| && reqOf[q] < |p.ctx|
    ensures |keys| == p.ctx[reqOf[q]] && forall t :: 0 <= t < |keys| ==> keys[t] == (q, kv(reqOf[q], t))
  {
    Facing(q, Wanted(kv, reqOf[q], Range(0, p.ctx[reqOf[q]])))
  }

  lemma RowResult<R>(w: ((nat, R)) -> real, v: ((nat, R)) -> real, p: Plan, kv: (nat, nat) -> R, reqOf: seq<nat>,
                     chunks: seq<seq<seq<(nat, R)>>>, q: nat)
    requires p.Valid() && q < |reqOf| && reqOf[q] < |p.ctx|
    requires |chunks| == p.Chunks() && AllMeet(p, kv, reqOf, chunks)
    requires forall i :: 0 <= i < |chunks| ==> |chunks[i]| == |reqOf|
    ensures Attend(w, v, Flatten(Column(chunks, q))) == Attend(w, v, Context(p, kv, reqOf, q))
  {
    forall i | 0 <= i < |chunks|
      ensures Meets(q, Column(chunks, q)[i], kv, reqOf[q], From(p, i, p.ctx[reqOf[q]]), To(p, i, p.ctx[reqOf[q]]))
    {
      assert ChunkMeets(p, i, kv, reqOf, chunks[i]);
    }
    ColumnMeets(p, kv, reqOf, Column(chunks, q), q);
    FromLast(p, reqOf[q]);
    AttendPermuted(w, v, Flatten(Column(chunks, q)), Context(p, kv, reqOf, q));
  }

  /**
   The whole computation. `reqOf[q]` is the request of query row `q`, `ws` the builder's
   workspace tensor. It returns, with no assertion failing, if and only if chunks are
   whole stripes, or one chunk is enough and its padded tokens fit one rank's share;
   and then every row's output and denominator are those of one-shot attention over
   the row's whole context.
   */
  method ComputePrefillContext<R(!new)>(w: ((nat, R)) -> real, v: ((nat, R)) -> real, ws: array<R>, ghost workspace: nat,
                                        p: Plan, read: Pages<R>, rank: nat, ghost kv: (nat, nat) -> R, reqOf: seq<nat>)
    returns (output: Buffers, ok: bool)
    requires Positive(w) && Sharded(p, read, kv) && rank < p.c.ranks
    requires Planned(p, workspace) && ws.Length == workspace + workspace / p.c.ranks
    requires forall q :: 0 <= q < |reqOf| ==> reqOf[q] < |p.ctx|
    modifies ws
    ensures ok <==> p.mcc == p.Span() || (MaxOf(p.ctx) <= p.mcc && Toks(p, 0) <= workspace / p.c.ranks)
    ensures ok ==> (output.Unset? <==> MaxOf(p.ctx) == 0)
    ensures ok && output.Set? ==> output.out.Length == output.lse.Length == |reqOf|
    ensures ok && output.Set? ==> forall q :: 0 <= q < |reqOf| ==>
      Partial(output.out[q], output.lse[q]) == Attend(w, v, Context(p, kv, reqOf, q))
  {
    output := Unset;
    var chunks, toks;
    chunks, toks, ok := GatherChunks(ws, workspace, p, read, rank, kv, reqOf);
    if ok {
      ChunksWhenLong(p);
      output := FoldGathered(w, v, p, kv, reqOf, chunks, toks);
    }
  }

  /** The fold over gathered chunks, read as attention over whole contexts. */
  method FoldGathered<R(!new)>(w: ((nat, R)) -> real, v: ((nat, R)) -> real, ghost p: Plan, ghost kv: (nat, nat) -> R,
                               reqOf: seq<nat>, chunks: seq<seq<seq<(nat, R)>>>, toks: seq<nat>)
    returns (output: Buffers)
    requires Positive(w) && p.Valid() && |chunks| == |toks| == p.Chunks() && AllMeet(p, kv, reqOf, chunks)
    requires forall i :: 0 <= i < |toks| ==> toks[i] > 0
    requires forall q :: 0 <= q < |reqOf| ==> reqOf[q] < |p.ctx|
    ensures output.Unset? <==> |toks| == 0
    ensures output.Set? ==> output.out.Length == output.lse.Length == |reqOf|
    ensures output.Set? ==> forall q :: 0 <= q < |reqOf| ==>
      Partial(output.out[q], output.lse[q]) == Attend(w, v, Context(p, kv, reqOf, q))
  {
    assert forall i :: 0 <= i < |chunks| ==> ChunkMeets(p, i, kv, reqOf, chunks[i]);
    assert |toks| > 0 ==> toks[0] > 0;
    output := FoldChunks(w, v, chunks, |reqOf|, toks);
    forall q | 0 <= q < |reqOf|
      ensures Attend(w, v, Flatten(Column(chunks, q))) == Attend(w, v, Context(p, kv, reqOf, q))
    {
      RowResult(w, v, p, kv, reqOf, chunks, q);
    }
  }
}
