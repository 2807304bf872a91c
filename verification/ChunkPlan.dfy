/**
 Chunked context for DCP prefill: how contexts are cut into chunks that fit the
 workspace, which tokens a chunk really covers on the shards, and when the closing
 assertions of `reorg_kvcache` hold.
 */
module ChunkPlan {
  import opened Seqs
  import opened Sharding

  // ---- sizes ------------------------------------------------------------------------

  const WORKSPACE_LIMIT: nat := 65536

  /** `determine_chunked_prefill_workspace_size` */
  function WorkspaceSize(maxModelLen: nat, maxSeqs: nat, block: nat): nat {
    Max(Min(Max(8 * maxModelLen, 4 * maxSeqs * block), WORKSPACE_LIMIT), maxSeqs * block)
  }

  function RoundDown(x: nat, y: nat): nat
    requires y > 0
  {
    x / y * y
  }

  /** `max_context_chunk`: an equal share per request with context, in whole pages. */
  function MaxContextChunk(workspace: nat, withContext: nat, page: nat): nat
    requires withContext > 0 && page > 0
  {
    RoundDown(workspace / withContext, page)
  }

  lemma ChunkSizes(maxModelLen: nat, maxSeqs: nat, block: nat, withContext: nat)
    requires 0 < withContext <= maxSeqs && block > 0
    ensures var ws := WorkspaceSize(maxModelLen, maxSeqs, block);
      var mcc := MaxContextChunk(ws, withContext, block);
      mcc > 0 && mcc % block == 0 && withContext * mcc <= ws < withContext * (mcc + block)
  {
    var ws := WorkspaceSize(maxModelLen, maxSeqs, block);
    var share, mcc := ws / withContext, MaxContextChunk(ws, withContext, block);
    MulMono(withContext, maxSeqs, block);
    assert withContext * block <= ws;
    QuotientLeast(ws, withContext, block);
    QuotientLeast(share, block, 1);
    MulMono(1, share / block, block);
    DivUnique(mcc, block, share / block, 0);
    MulMono(mcc, share, withContext);
    ShareMaximal(ws, withContext, block);
  }

  /** One page more for every request with context no longer fits. */
  lemma ShareMaximal(ws: nat, withContext: nat, block: nat)
    requires withContext > 0 && block > 0
    ensures ws < withContext * (MaxContextChunk(ws, withContext, block) + block)
  {
    var share := ws / withContext;
    assert ws == share * withContext + ws % withContext;
    assert share == share / block * block + share % block;
    MulMono(share + 1, share / block * block + block, withContext);
    Distribute(share, 1, withContext);
  }

  /**
   The workspace: eight full contexts or four pages per request, whichever is more, but
   at most 64K tokens, and never less than a page per request.
   */
  lemma WorkspaceClamp(maxModelLen: nat, maxSeqs: nat, block: nat)
    ensures var ws, pages := WorkspaceSize(maxModelLen, maxSeqs, block), maxSeqs * block;
      && pages <= ws
      && (65536 <= pages ==> ws == pages)
      && (pages < 65536 && (65536 <= 8 * maxModelLen || 65536 <= 4 * pages) ==> ws == 65536)
      && (8 * maxModelLen < 65536 && 4 * pages < 65536 ==> ws >= 8 * maxModelLen && ws >= 4 * pages)
      && (8 * maxModelLen < 65536 && 4 * pages < 65536 ==> ws == 8 * maxModelLen || ws == 4 * pages)
  {
    MulMono(0, maxSeqs, block);
    Assoc(4, maxSeqs, block);
  }

  lemma QuotientLeast(x: nat, d: nat, k: nat)
    requires d > 0 && d * k <= x
    ensures k <= x / d && x / d * d <= x
  {
    if x / d < k {
      MulMono(x / d + 1, k, d);
    }
  }

  // ---- the tables ---------------------------------------------------------------------

  /** The part of `[0, len)` inside `[from, from + size)`. */
  function Inside(len: nat, from: nat, size: nat): nat { Max(0, Min(len, from + size) - from) }

  /** `local_chunk_len` of the reorganisation: a rank's tokens behind `offset`, at most `padded`. */
  function Taken(localLen: nat, offset: nat, padded: nat): nat { Min(Max(0, localLen - offset), padded) }

  /** One planning problem: the layout, the chunk size and the context lengths. */
  datatype Plan = Plan(c: Layout, mcc: nat, ctx: seq<nat>) {
    predicate Valid() { c.Valid() && mcc > 0 }

    function Chunks(): nat
      requires Valid()
    {
      CeilDiv(MaxOf(ctx), mcc)
    }

    /** `chunk_starts[i]` */
    function ChunkStart(i: nat): nat
      requires Valid()
    {
      MulMono(0, i, mcc);
      i * mcc
    }

    /** `chunk_seq_lens[i][b]` */
    function SeqLen(i: nat, b: nat): nat
      requires Valid() && b < |ctx|
    {
      Inside(ctx[b], ChunkStart(i), mcc)
    }

    /** `padded_local_max_context_chunk_across_ranks`, the `chunk_size` of the reorganisation. */
    function LocalChunk(): nat
      requires Valid()
    {
      StripePositive(c);
      CeilDiv(mcc, c.Stripe()) * c.interleave
    }

    /** `starts[i]`: the local position at which chunk `i` starts, on every rank. */
    function LocalStart(i: nat): nat
      requires Valid()
    {
      MulMono(0, i, LocalChunk());
      i * LocalChunk()
    }

    /** `padded_local_context_lens_cpu[b]` */
    function PaddedContext(b: nat): nat
      requires Valid() && b < |ctx|
    {
      StripePositive(c);
      CeilDiv(ctx[b], c.Stripe()) * c.interleave
    }

    /** `padded_local_chunk_seq_lens[i][b]` */
    function PaddedLen(i: nat, b: nat): nat
      requires Valid() && b < |ctx|
    {
      Inside(PaddedContext(b), LocalStart(i), LocalChunk())
    }

    /** What the reorganisation takes from rank `r` for request `b` in chunk `i`. */
    function TakenLen(i: nat, b: nat, r: nat): nat
      requires Valid() && b < |ctx| && r < c.ranks
    {
      Taken(LocalLen(c, ctx[b], r), LocalStart(i), PaddedLen(i, b))
    }

    /** The tokens a chunk covers on the shards: whole stripes, so possibly more than `mcc`. */
    function Span(): nat
      requires Valid()
    {
      StripePositive(c);
      RoundUp(mcc, c.Stripe())
    }

    function SeqLens(i: nat): (s: seq<nat>)
      requires Valid()
      ensures |s| == |ctx| && forall b :: 0 <= b < |s| ==> s[b] == SeqLen(i, b)
    {
      seq(|ctx|, b requires 0 <= b < |ctx| => SeqLen(i, b))
    }

    function PaddedLens(i: nat): (s: seq<nat>)
      requires Valid()
      ensures |s| == |ctx| && forall b :: 0 <= b < |s| ==> s[b] == PaddedLen(i, b)
    {
      seq(|ctx|, b requires 0 <= b < |ctx| => PaddedLen(i, b))
    }

    function TakenLens(i: nat, b: nat): (s: seq<nat>)
      requires Valid() && b < |ctx|
      ensures |s| == c.ranks && forall r :: 0 <= r < |s| ==> s[r] == TakenLen(i, b, r)
    {
      seq(c.ranks, r requires 0 <= r < c.ranks => TakenLen(i, b, r))
    }

    /** `cur_seq_len` of every request in chunk `i`. */
    function CurLens(i: nat): (s: seq<nat>)
      requires Valid()
      ensures |s| == |ctx| && forall b :: 0 <= b < |s| ==> s[b] == Sum(TakenLens(i, b))
    {
      seq(|ctx|, b requires 0 <= b < |ctx| => Sum(TakenLens(i, b)))
    }
  }

  /** `seq_tot[i]`, the tokens of one rank's message. */
  function Toks(p: Plan, i: nat): nat
    requires p.Valid()
  {
    Sum(p.PaddedLens(i))
  }

  // ---- what a chunk covers on the shards --------------------------------------------------

  /** At whole stripes every rank is equally long. */
  lemma WholeStripes(c: Layout, k: nat, r: nat)
    requires c.Valid() && r < c.ranks
    ensures LocalLen(c, k * c.Stripe(), r) == k * c.interleave
  {
    LocalLenSplit(c, k * c.Stripe(), k, 0, 0, r);
  }

  /** The local index range of chunk `i` holds the tokens of its span. */
  lemma SpanBounds(p: Plan, i: nat, r: nat)
    requires p.Valid() && r < p.c.ranks
    ensures LocalLen(p.c, i * p.Span(), r) == i * p.LocalChunk()
    ensures LocalLen(p.c, i * p.Span() + p.Span(), r) == i * p.LocalChunk() + p.LocalChunk()
  {
    StripePositive(p.c);
    var n := CeilDiv(p.mcc, p.c.Stripe());
    Assoc(i, n, p.c.Stripe());
    Assoc(i, n, p.c.interleave);
    WholeStripes(p.c, i * n, r);
    assert (i + 1) * n == i * n + n;
    Distribute(i * n, n, p.c.Stripe());
    Distribute(i * n, n, p.c.interleave);
    WholeStripes(p.c, i * n + n, r);
  }

  /** No rank is longer than the padded local context. */
  lemma PaddedBound(p: Plan, b: nat, r: nat)
    requires p.Valid() && b < |p.ctx| && r < p.c.ranks
    ensures LocalLen(p.c, p.ctx[b], r) <= p.PaddedContext(b)
  {
    StripePositive(p.c);
    RoundUpLeast(p.ctx[b], p.c.Stripe());
    WholeStripes(p.c, CeilDiv(p.ctx[b], p.c.Stripe()), r);
    LocalLenMono(p.c, p.ctx[b], RoundUp(p.ctx[b], p.c.Stripe()), r);
  }

  /** Where chunk `i` starts and ends in a context of `len` tokens. */
  function From(p: Plan, i: nat, len: nat): nat
    requires p.Valid()
  {
    Min(len, i * p.Span())
  }

  function To(p: Plan, i: nat, len: nat): nat
    requires p.Valid()
  {
    Min(len, i * p.Span() + p.Span())
  }

  /** The length taken from a rank is its share of the chunk's span. */
  lemma TakenIsShare(p: Plan, i: nat, b: nat, r: nat)
    requires p.Valid() && b < |p.ctx| && r < p.c.ranks
    ensures p.TakenLen(i, b, r)
         == LocalLen(p.c, To(p, i, p.ctx[b]), r) - LocalLen(p.c, From(p, i, p.ctx[b]), r)
    ensures p.TakenLen(i, b, r) > 0 ==> LocalLen(p.c, From(p, i, p.ctx[b]), r) == i * p.LocalChunk()
  {
    var len, lo, hi := p.ctx[b], i * p.Span(), i * p.Span() + p.Span();
    SpanBounds(p, i, r);
    PaddedBound(p, b, r);
    LocalLenMono(p.c, Min(len, lo), Max(len, lo), r);
    LocalLenMono(p.c, Min(len, hi), Max(len, hi), r);
  }

  lemma {:induction false} SumDiff(a: seq<nat>, b: seq<nat>, d: seq<nat>)
    requires |a| == |b| == |d| && forall r :: 0 <= r < |d| ==> d[r] + b[r] == a[r]
    ensures Sum(d) + Sum(b) == Sum(a)
  {
    if d != [] {
      var n := |d| - 1;
      SumDiff(a[..n], b[..n], d[..n]);
    }
  }

  /** Over all ranks a chunk takes exactly the tokens of its span. */
  lemma TakenTotal(p: Plan, i: nat, b: nat)
    requires p.Valid() && b < |p.ctx|
    ensures Sum(p.TakenLens(i, b)) == To(p, i, p.ctx[b]) - From(p, i, p.ctx[b])
    ensures Sum(p.TakenLens(i, b)) == Inside(p.ctx[b], i * p.Span(), p.Span())
  {
    var c, from, to := p.c, From(p, i, p.ctx[b]), To(p, i, p.ctx[b]);
    forall r | 0 <= r < c.ranks
      ensures p.TakenLens(i, b)[r] + LensOf(c, from)[r] == LensOf(c, to)[r]
    {
      TakenIsShare(p, i, b, r);
    }
    SumDiff(LensOf(c, to), LensOf(c, from), p.TakenLens(i, b));
    LensSum(c, to);
    LensSum(c, from);
    InsideIs(p.ctx[b], i * p.Span(), p.Span());
  }

  lemma InsideAtMost(len: nat, from: nat, size: nat)
    ensures Inside(len, from, size) <= size && (len == 0 ==> Inside(len, from, size) == 0)
  {
  }

  lemma InsideIs(len: nat, from: nat, size: nat)
    ensures Inside(len, from, size) == Min(len, from + size) - Min(len, from)
  {
  }

  // ---- the closing assertions ------------------------------------------------------------------

  /** The three closing asserts for chunk `i`: the two tensor lengths and the longest request. */
  ghost predicate Closes(p: Plan, i: nat)
    requires p.Valid()
  {
    Sum(p.CurLens(i)) == Sum(p.SeqLens(i)) && MaxOf(p.CurLens(i)) == MaxOf(p.SeqLens(i))
  }

  lemma SpanCases(p: Plan)
    requires p.Valid()
    ensures p.c.Stripe() > 0 && p.mcc <= p.Span()
    ensures p.mcc == p.Span() <==> p.mcc % p.c.Stripe() == 0
  {
    StripePositive(p.c);
    RoundUpLeast(p.mcc, p.c.Stripe());
    RoundUpExact(p.mcc, p.c.Stripe());
  }

  lemma SameLens(p: Plan, i: nat)
    requires p.Valid()
    requires p.mcc == p.Span() || (i == 0 && MaxOf(p.ctx) <= p.mcc)
    ensures p.CurLens(i) == p.SeqLens(i)
  {
    SpanCases(p);
    MaxOfBounds(p.ctx);
    forall b | 0 <= b < |p.ctx|
      ensures p.CurLens(i)[b] == p.SeqLens(i)[b]
    {
      TakenTotal(p, i, b);
    }
  }

  /** A chunk that spans more than `mcc` tokens already breaks the first chunk's sum. */
  lemma FirstChunkTooLong(p: Plan)
    requires p.Valid() && p.mcc < p.Span() && MaxOf(p.ctx) > p.mcc
    ensures Sum(p.CurLens(0)) > Sum(p.SeqLens(0))
  {
    MaxOfBounds(p.ctx);
    var long :| 0 <= long < |p.ctx| && p.ctx[long] == MaxOf(p.ctx);
    forall b | 0 <= b < |p.ctx|
      ensures p.SeqLens(0)[b] <= p.CurLens(0)[b]
    {
      FirstLens(p, b);
    }
    FirstLens(p, long);
    SumLess(p.SeqLens(0), p.CurLens(0), long);
  }

  lemma SumLess(a: seq<nat>, b: seq<nat>, i: nat)
    requires |a| == |b| && (forall j :: 0 <= j < |a| ==> a[j] <= b[j]) && i < |a| && a[i] < b[i]
    ensures Sum(a) < Sum(b)
  {
    SumPointwise(a, b);
  }

  /** The first chunk takes a request's tokens up to its span, where `mcc` were planned. */
  lemma FirstLens(p: Plan, b: nat)
    requires p.Valid() && b < |p.ctx|
    ensures p.SeqLens(0)[b] == Min(p.ctx[b], p.mcc) && p.CurLens(0)[b] == Min(p.ctx[b], p.Span())
  {
    TakenTotal(p, 0, b);
    SpanCases(p);
  }

  /**
   The closing assertions hold in every chunk if and only if the chunk size is a
   whole number of stripes or one chunk is enough. The code itself only asserts that
   the chunk size is a multiple of the number of ranks, which is the same condition
   for interleave 1 and a weaker one otherwise.
   */
  lemma ClosesExactly(p: Plan)
    requires p.Valid() && MaxOf(p.ctx) > 0
    ensures (forall i :: 0 <= i < p.Chunks() ==> Closes(p, i))
       <==> (p.c.Stripe() > 0 && p.mcc % p.c.Stripe() == 0) || MaxOf(p.ctx) <= p.mcc
  {
    SpanCases(p);
    RoundUpLeast(MaxOf(p.ctx), p.mcc);
    if p.mcc == p.Span() || MaxOf(p.ctx) <= p.mcc {
      forall i | 0 <= i < p.Chunks()
        ensures Closes(p, i)
      {
        if p.mcc != p.Span() {
          OneChunk(p, i);
        }
        SameLens(p, i);
      }
    } else {
      FirstChunkTooLong(p);
      assert p.Chunks() > 0;
      assert !Closes(p, 0);
    }
  }

  lemma OneChunk(p: Plan, i: nat)
    requires p.Valid() && i < p.Chunks() && MaxOf(p.ctx) <= p.mcc
    ensures i == 0
  {
    RoundUpLeast(MaxOf(p.ctx), p.mcc);
    assert RoundUp(MaxOf(p.ctx), p.mcc) <= 1 * p.mcc;
    if i > 0 {
      MulMono(2, p.Chunks(), p.mcc);
    }
  }

  // ---- the workspace -----------------------------------------------------------------------------

  lemma {:induction false} SumBound(s: seq<nat>, ctx: seq<nat>, bound: nat)
    requires |s| == |ctx| && forall b :: 0 <= b < |s| ==> s[b] <= bound && (ctx[b] == 0 ==> s[b] == 0)
    ensures Sum(s) <= WithContext(ctx) * bound
  {
    if s != [] {
      var n := |s| - 1;
      SumBound(s[..n], ctx[..n], bound);
      Distribute(WithContext(ctx[..n]), if ctx[n] > 0 then 1 else 0, bound);
    }
  }

  /** How many requests have context at all. */
  function WithContext(ctx: seq<nat>): nat {
    if ctx == [] then 0 else WithContext(ctx[..|ctx| - 1]) + (if ctx[|ctx| - 1] > 0 then 1 else 0)
  }

  lemma {:induction false} WithContextCounts(ctx: seq<nat>)
    ensures WithContext(ctx) == |set b | 0 <= b < |ctx| && ctx[b] > 0|
  {
    var all := set b | 0 <= b < |ctx| && ctx[b] > 0;
    if ctx == [] {
      assert all == {};
    } else {
      var n := |ctx| - 1;
      WithContextCounts(ctx[..n]);
      var rest := set b | 0 <= b < n && ctx[..n][b] > 0;
      assert all == rest + (if ctx[n] > 0 then {n} else {});
      assert n !in rest;
    }
  }

  /** What the planner and the builder's own assertions guarantee of the workspace size. */
  ghost predicate Planned(p: Plan, workspace: nat)
    requires p.Valid()
  {
    workspace % p.c.ranks == 0 && WithContext(p.ctx) * p.mcc <= workspace
  }

  /** The three assertions that one iteration makes on a workspace tensor of `rows` rows. */
  predicate WorkspaceHolds(rows: nat, ranks: nat, toks: nat) {
    var offset := rows / (ranks + 1);
    offset * (ranks + 1) == rows && toks <= offset && toks * ranks <= offset * ranks
  }

  /** On the tensor the builder allocates, they say that a message fits one rank's share. */
  lemma WorkspaceHoldsIff(workspace: nat, ranks: nat, toks: nat)
    requires ranks > 0 && workspace % ranks == 0
    ensures (workspace + workspace / ranks) / (ranks + 1) == workspace / ranks
    ensures WorkspaceHolds(workspace + workspace / ranks, ranks, toks) <==> toks <= workspace / ranks
  {
    var region := workspace / ranks;
    Distribute(ranks, 1, region);
    DivUnique(workspace + region, ranks + 1, region, 0);
    if toks <= region {
      MulMono(toks, region, ranks);
    }
  }

  /** With whole stripes every chunk passes them. */
  lemma ChunkFits(p: Plan, workspace: nat, i: nat)
    requires p.Valid() && p.mcc == p.Span() && Planned(p, workspace)
    ensures Toks(p, i) <= workspace / p.c.ranks
    ensures WorkspaceHolds(workspace + workspace / p.c.ranks, p.c.ranks, Toks(p, i))
  {
    PaddedTotalBound(p, i);
    SpanPerRank(p);
    ShareHolds(p.c.ranks, Toks(p, i), WithContext(p.ctx), p.LocalChunk(), p.mcc, workspace);
    WorkspaceHoldsIff(workspace, p.c.ranks, Toks(p, i));
  }

  lemma InsideShrinks(len: nat, from: nat, size: nat)
    ensures Inside(len, from, size) <= Inside(len, 0, size)
  {
  }

  /** No chunk gathers more padded tokens than the first. */
  lemma FirstChunkLargest(p: Plan, i: nat)
    requires p.Valid()
    ensures Toks(p, i) <= Toks(p, 0)
  {
    forall b | 0 <= b < |p.ctx|
      ensures p.PaddedLens(i)[b] <= p.PaddedLens(0)[b]
    {
      InsideShrinks(p.PaddedContext(b), p.LocalStart(i), p.LocalChunk());
    }
    SumPointwise(p.PaddedLens(i), p.PaddedLens(0));
  }

  /** Chunk `i` passes the workspace assertions. */
  ghost predicate Passes(p: Plan, workspace: nat, i: nat)
    requires p.Valid()
  {
    WorkspaceHolds(workspace + workspace / p.c.ranks, p.c.ranks, Toks(p, i))
  }

  lemma PassesIff(p: Plan, workspace: nat, i: nat)
    requires p.Valid() && Planned(p, workspace)
    ensures Passes(p, workspace, i) <==> Toks(p, i) <= workspace / p.c.ranks
    ensures Passes(p, workspace, 0) ==> Passes(p, workspace, i)
  {
    WorkspaceHoldsIff(workspace, p.c.ranks, Toks(p, i));
    WorkspaceHoldsIff(workspace, p.c.ranks, Toks(p, 0));
    FirstChunkLargest(p, i);
  }

  /** Whatever the chunk size, all chunks pass them if and only if the first one fits. */
  lemma WorkspaceExactly(p: Plan, workspace: nat)
    requires p.Valid() && Planned(p, workspace)
    ensures (forall i :: 0 <= i < p.Chunks() ==> Passes(p, workspace, i)) <==> Toks(p, 0) <= workspace / p.c.ranks
  {
    PassesIff(p, workspace, 0);
    forall i | 0 <= i < p.Chunks()
      ensures Passes(p, workspace, 0) ==> Passes(p, workspace, i)
    {
      PassesIff(p, workspace, i);
    }
    NothingWithoutChunks(p);
  }

  lemma NothingWithoutChunks(p: Plan)
    requires p.Valid()
    ensures p.Chunks() == 0 ==> Toks(p, 0) == 0
  {
    RoundUpLeast(MaxOf(p.ctx), p.mcc);
    SkippedIff(p, 0);
  }

  /** Every context rounded up to whole stripes. */
  function Rounded(p: Plan): (s: seq<nat>)
    requires p.Valid() && p.c.Stripe() > 0
    ensures |s| == |p.ctx| && forall b :: 0 <= b < |s| ==> s[b] == RoundUp(p.ctx[b], p.c.Stripe())
  {
    seq(|p.ctx|, b requires 0 <= b < |p.ctx| => RoundUp(p.ctx[b], p.c.Stripe()))
  }

  lemma {:induction false} SumScaled(s: seq<nat>, t: seq<nat>, d: nat)
    requires |s| == |t| && forall b :: 0 <= b < |s| ==> t[b] == d * s[b]
    ensures Sum(t) == d * Sum(s)
  {
    if s != [] {
      var n := |s| - 1;
      SumScaled(s[..n], t[..n], d);
      Distribute(Sum(s[..n]), s[n], d);
    }
  }

  lemma OneChunkPadded(p: Plan, b: nat)
    requires p.Valid() && b < |p.ctx| && p.ctx[b] <= p.mcc
    ensures p.c.Stripe() > 0 && p.PaddedLen(0, b) == p.PaddedContext(b)
    ensures RoundUp(p.ctx[b], p.c.Stripe()) == p.c.ranks * p.PaddedContext(b)
  {
    StripePositive(p.c);
    CeilDivMono(p.ctx[b], p.mcc, p.c.Stripe());
    MulMono(CeilDiv(p.ctx[b], p.c.Stripe()), CeilDiv(p.mcc, p.c.Stripe()), p.c.interleave);
    Exchange(p.c.ranks, CeilDiv(p.ctx[b], p.c.Stripe()), p.c.interleave);
  }

  lemma CeilDivMono(a: nat, b: nat, y: nat)
    requires y > 0 && a <= b
    ensures CeilDiv(a, y) <= CeilDiv(b, y)
  {
    RoundUpLeast(b, y);
    RoundUpLeast(a, y);
    assert RoundUp(a, y) <= CeilDiv(b, y) * y;
    NotAbove(y, CeilDiv(a, y), CeilDiv(b, y));
  }

  /** When one chunk is enough, it fits if and only if the contexts do, each rounded up to whole stripes. */
  lemma OneChunkFitsExactly(p: Plan, workspace: nat)
    requires p.Valid() && Planned(p, workspace) && MaxOf(p.ctx) <= p.mcc
    ensures p.c.Stripe() > 0 && (Toks(p, 0) <= workspace / p.c.ranks <==> Sum(Rounded(p)) <= workspace)
  {
    StripePositive(p.c);
    MaxOfBounds(p.ctx);
    forall b | 0 <= b < |p.ctx|
      ensures Rounded(p)[b] == p.c.ranks * p.PaddedLens(0)[b]
    {
      OneChunkPadded(p, b);
    }
    SumScaled(p.PaddedLens(0), Rounded(p), p.c.ranks);
    ScaledShare(p.c.ranks, Toks(p, 0), workspace);
  }

  lemma ScaledShare(d: nat, toks: nat, workspace: nat)
    requires d > 0 && workspace % d == 0
    ensures toks <= workspace / d <==> d * toks <= workspace
  {
    if toks <= workspace / d {
      MulMono(toks, workspace / d, d);
    } else {
      MulMono(workspace / d + 1, toks, d);
    }
  }

  lemma SpanPerRank(p: Plan)
    requires p.Valid()
    ensures p.c.ranks * p.LocalChunk() == p.Span()
  {
    StripePositive(p.c);
    Exchange(p.c.ranks, CeilDiv(p.mcc, p.c.Stripe()), p.c.interleave);
  }

  lemma PaddedTotalBound(p: Plan, i: nat)
    requires p.Valid()
    ensures Sum(p.PaddedLens(i)) <= WithContext(p.ctx) * p.LocalChunk()
  {
    forall b | 0 <= b < |p.ctx|
      ensures p.PaddedLens(i)[b] <= p.LocalChunk() && (p.ctx[b] == 0 ==> p.PaddedLens(i)[b] == 0)
    {
      PaddedEntry(p, i, b);
    }
    SumBound(p.PaddedLens(i), p.ctx, p.LocalChunk());
  }

  lemma PaddedEntry(p: Plan, i: nat, b: nat)
    requires p.Valid() && b < |p.ctx|
    ensures p.PaddedLen(i, b) <= p.LocalChunk() && (p.ctx[b] == 0 ==> p.PaddedLen(i, b) == 0)
  {
    StripePositive(p.c);
    InsideAtMost(p.PaddedContext(b), p.LocalStart(i), p.LocalChunk());
    if p.ctx[b] == 0 {
      DivUnique(p.c.Stripe() - 1, p.c.Stripe(), 0, p.c.Stripe() - 1);
    }
  }

  lemma ShareHolds(d: nat, toks: nat, n: nat, local: nat, mcc: nat, workspace: nat)
    requires d > 0 && workspace % d == 0 && toks <= n * local && d * local == mcc && n * mcc <= workspace
    ensures toks <= workspace / d
  {
    MulMono(toks, n * local, d);
    Exchange(d, n, local);
    ScaledShare(d, toks, workspace);
  }

  /** A chunk is skipped exactly when its span lies behind every context. */
  lemma SkippedIff(p: Plan, i: nat)
    requires p.Valid()
    ensures Sum(p.PaddedLens(i)) == 0 <==> MaxOf(p.ctx) <= i * p.Span()
    ensures p.mcc == p.Span() && i < p.Chunks() ==> Sum(p.PaddedLens(i)) > 0
  {
    if MaxOf(p.ctx) <= i * p.Span() {
      SkippedBehind(p, i);
    } else {
      NotSkipped(p, i);
    }
    if i < p.Chunks() {
      LastChunkStarts(p, i);
    }
  }

  lemma SkippedBehind(p: Plan, i: nat)
    requires p.Valid() && MaxOf(p.ctx) <= i * p.Span()
    ensures Sum(p.PaddedLens(i)) == 0
  {
    MaxOfBounds(p.ctx);
    forall b | 0 <= b < |p.ctx|
      ensures p.PaddedLens(i)[b] == 0
    {
      PaddedEmpty(p, i, b);
    }
    SumZeros(p.PaddedLens(i));
  }

  lemma NotSkipped(p: Plan, i: nat)
    requires p.Valid() && MaxOf(p.ctx) > i * p.Span()
    ensures Sum(p.PaddedLens(i)) > 0
  {
    MaxOfBounds(p.ctx);
    SpanCases(p);
    MulMono(0, i, p.Span());
    var b :| 0 <= b < |p.ctx| && p.ctx[b] == MaxOf(p.ctx);
    PaddedEmpty(p, i, b);
    EntryBelowSum(p.PaddedLens(i), b);
  }

  /** The last chunk starts before the longest context ends. */
  lemma LastChunkStarts(p: Plan, i: nat)
    requires p.Valid() && i < p.Chunks()
    ensures i * p.mcc < MaxOf(p.ctx)
  {
    RoundUpLeast(MaxOf(p.ctx), p.mcc);
    if MaxOf(p.ctx) <= i * p.mcc {
      assert RoundUp(MaxOf(p.ctx), p.mcc) <= i * p.mcc;
      MulMono(i + 1, p.Chunks(), p.mcc);
      Distribute(i, 1, p.mcc);
    }
  }

  lemma EntryBelowSum(s: seq<nat>, b: nat)
    requires b < |s|
    ensures s[b] <= Sum(s)
  {
    StartStep(s, b);
    StartMono(s, b + 1, |s|);
    assert s[..|s|] == s;
  }

  lemma PaddedEmpty(p: Plan, i: nat, b: nat)
    requires p.Valid() && b < |p.ctx|
    ensures p.PaddedLen(i, b) == 0 <==> p.ctx[b] <= i * p.Span()
  {
    StripePositive(p.c);
    var s, n, k := p.c.Stripe(), CeilDiv(p.mcc, p.c.Stripe()), CeilDiv(p.ctx[b], p.c.Stripe());
    RoundUpLeast(p.mcc, s);
    RoundUpLeast(p.ctx[b], s);
    Assoc(i, n, s);
    Assoc(i, n, p.c.interleave);
    assert n > 0;
    MulMono(1, n, p.c.interleave);
    if k <= i * n {
      MulMono(k, i * n, s);
      MulMono(k, i * n, p.c.interleave);
    } else {
      MulMono(i * n + 1, k, p.c.interleave);
      Distribute(i * n, 1, p.c.interleave);
      if p.ctx[b] <= (i * n) * s {
        assert RoundUp(p.ctx[b], s) <= (i * n) * s;
        MulMono(i * n + 1, k, s);
        Distribute(i * n, 1, s);
      }
    }
  }

  // ---- two plans the planner makes ---------------------------------------------------------------

  /** The plan for `ctx` with its own chunk size, and its workspace. */
  ghost predicate MadeBy(p: Plan, workspace: nat, maxModelLen: nat, maxSeqs: nat, block: nat) {
    p.Valid() && block > 0 && |p.ctx| <= maxSeqs && MaxOf(p.ctx) <= maxModelLen
    && workspace == WorkspaceSize(maxModelLen, maxSeqs, block)
    && WithContext(p.ctx) > 0 && p.mcc == MaxContextChunk(workspace, WithContext(p.ctx), block)
    && p.mcc % p.c.ranks == 0 && Planned(p, workspace)
  }

  /**
   One long context and two short ones: the plan passes the planner's assertion on the
   chunk size and the first chunk fits the workspace, but it gathers more tokens than
   planned and a closing assertion fails.
   */
  lemma AssertTooWeak() returns (p: Plan, workspace: nat)
    ensures MadeBy(p, workspace, 32768, 512, 64) && p.Chunks() > 0
    ensures WorkspaceHolds(workspace + workspace / p.c.ranks, p.c.ranks, Toks(p, 0))
    ensures Sum(p.CurLens(0)) > Sum(p.SeqLens(0)) && !Closes(p, 0)
  {
    workspace := 65536;
    p := Plan(Layout(4, 64), 21824, [30000, 1, 1]);
    LongAndShort(p);
    LongAndShortPlanned(p);
    WorkspaceHoldsIff(workspace, 4, Toks(p, 0));
    FirstChunkTooLong(p);
    ChunksPositive(p);
  }

  lemma ChunksPositive(p: Plan)
    requires p.Valid() && MaxOf(p.ctx) > 0
    ensures p.Chunks() > 0
  {
    RoundUpLeast(MaxOf(p.ctx), p.mcc);
  }

  lemma LongAndShortPlanned(p: Plan)
    requires p == Plan(Layout(4, 64), 21824, [30000, 1, 1])
    ensures MadeBy(p, 65536, 32768, 512, 64) && MaxOf(p.ctx) == 30000
  {
    ThreeEntries(p.ctx);
    assert WorkspaceSize(32768, 512, 64) == 65536 && MaxContextChunk(65536, 3, 64) == 21824;
  }

  lemma LongAndShort(p: Plan)
    requires p == Plan(Layout(4, 64), 21824, [30000, 1, 1])
    ensures p.mcc < p.Span() && Toks(p, 0) == 5632
  {
    assert p.LocalChunk() == 5504 && p.LocalStart(0) == 0;
    assert p.PaddedContext(0) == 7552 && p.PaddedContext(1) == p.PaddedContext(2) == 64;
    assert p.PaddedLens(0) == [5504, 64, 64];
    ThreeEntries(p.PaddedLens(0));
  }

  lemma ThreeEntries(s: seq<nat>)
    requires |s| == 3
    ensures Sum(s) == s[0] + s[1] + s[2] && MaxOf(s) == Max(Max(s[0], s[1]), s[2])
    ensures s[0] > 0 && s[1] > 0 && s[2] > 0 ==> WithContext(s) == 3
  {
    var two, one := s[..2], s[..1];
    assert two[..1] == one && one[..0] == [];
    assert Sum(one) == s[0] && MaxOf(one) == s[0] && (s[0] > 0 ==> WithContext(one) == 1);
    assert Sum(two) == s[0] + s[1] && MaxOf(two) == Max(s[0], s[1]);
  }

  /**
   Many short contexts: one chunk is enough and the planner's assertion passes, but
   padding every context to a whole stripe overflows the workspace.
   */
  lemma PaddingOverflows() returns (p: Plan, workspace: nat)
    ensures MadeBy(p, workspace, 8192, 512, 64) && p.Chunks() == 1 && MaxOf(p.ctx) <= p.mcc
    ensures !WorkspaceHolds(workspace + workspace / p.c.ranks, p.c.ranks, Toks(p, 0))
  {
    workspace := WorkspaceSize(8192, 512, 64);
    p := Plan(Layout(4, 64), 128, seq(512, _ => 100));
    EqualContexts(p.ctx, 100);
    forall b | 0 <= b < |p.ctx|
      ensures p.PaddedLens(0)[b] == 64
    {
    }
    SumConstant(p.PaddedLens(0), 64);
    WorkspaceHoldsIff(workspace, 4, Toks(p, 0));
  }

  lemma {:induction false} EqualContexts(ctx: seq<nat>, x: nat)
    requires x > 0 && forall b :: 0 <= b < |ctx| ==> ctx[b] == x
    ensures WithContext(ctx) == |ctx| && (ctx != [] ==> MaxOf(ctx) == x)
  {
    if ctx != [] {
      EqualContexts(ctx[..|ctx| - 1], x);
    }
  }
}
