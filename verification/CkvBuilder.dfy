/**
 The metadata builder of the gather path, the test that admits a batch to it, and
 the bounds that make the test the same on every rank.
 */
module CkvBuilder {
  import opened Seqs
  import opened Sharding
  import opened CkvGather

  /** What the gather path reads of one scheduled batch. */
  datatype Batch = Batch(seqLens: seq<nat>, numTokens: nat, decodeTokens: nat, prefillTokens: nat, maxQueryLen: nat)

  /** Settings that every rank of a group shares. */
  datatype Config = Config(layout: Layout, tpSize: nat, numHeads: nat, requested: bool, nvfp4Cache: bool, dbo: bool,
                           minTokens: nat, maxGatherTokens: nat, maxSeqs: nat)

  datatype Metadata = Metadata(batch: Batch, localTotal: nat, paddedTotal: nat, eligible: bool, hasBuffers: bool)

  const HEAD_ALIGNMENT: nat := 8

  ghost predicate ValidConfig(cfg: Config) { cfg.layout.Valid() }

  /** `_ckv_gather_enabled` */
  predicate Enabled(cfg: Config) {
    cfg.requested && cfg.nvfp4Cache && cfg.tpSize == 4 && cfg.layout.ranks == 4
    && cfg.numHeads % HEAD_ALIGNMENT == 0 && !cfg.dbo
  }

  /** Whether `build` fills the gather tables at all: a pure, long enough prefill. */
  predicate Gated(cfg: Config, batch: Batch) {
    cfg.layout.ranks > 1 && cfg.requested && batch.decodeTokens == 0
    && batch.prefillTokens == batch.numTokens && batch.maxQueryLen > cfg.minTokens
  }

  /** `_ckv_local_capacity` */
  function Capacity(cfg: Config): nat
    requires ValidConfig(cfg)
  {
    RoundUp(Room(cfg.layout, cfg.maxGatherTokens, cfg.maxSeqs), PAGE)
  }

  /** `dcp_prefill_ckv_gather_eligible` */
  predicate Eligible(cfg: Config, meta: Metadata, numTokens: nat, capturing: bool)
    requires ValidConfig(cfg)
  {
    if !Enabled(cfg) || capturing then false
    else if !meta.eligible || meta.batch.decodeTokens != 0
            || meta.batch.prefillTokens != meta.batch.numTokens || numTokens != meta.batch.numTokens
            || numTokens <= cfg.minTokens || meta.paddedTotal > Capacity(cfg)
            || meta.localTotal > meta.paddedTotal then false
    else meta.hasBuffers
  }

  /** What `build` returns on rank `rank`. */
  function Built(cfg: Config, batch: Batch, rank: nat): Metadata
    requires ValidConfig(cfg)
  {
    if Gated(cfg, batch) then
      var padded := Padded(cfg.layout, batch.seqLens, PAGE);
      Metadata(batch, Sum(ReqLens(cfg.layout, batch.seqLens, rank)), padded, padded > 0, true)
    else Metadata(batch, 0, 0, false, false)
  }

  // ---- capacity ------------------------------------------------------------------

  /** No rank holds more than its even share plus one interleave run. */
  lemma LocalLenBound(c: Layout, len: nat, rank: nat)
    requires c.Valid() && rank < c.ranks
    ensures c.ranks * LocalLen(c, len, rank) <= len + c.ranks * c.interleave
  {
    var q, r, o := Split(c, len);
    LocalLenSplit(c, len, q, r, o, rank);
    Exchange(c.ranks, q, c.interleave);
    MulMono(0, r, c.interleave);
    Scale(c.ranks, LocalLen(c, len, rank), q * c.interleave, c.interleave);
  }

  lemma Scale(d: nat, x: int, a: int, b: int)
    requires x <= a + b
    ensures d * x <= d * a + d * b
  {
    MulMono(x, a + b, d);
  }

  lemma AddBounds(d: nat, a: nat, b: nat, s: nat, l: nat, n: nat, i: nat)
    requires d * a <= s + d * (n * i) && d * b <= l + d * i
    ensures d * (a + b) <= s + l + d * ((n + 1) * i)
  {
    assert d * (a + b) == d * a + d * b;
    assert (n + 1) * i == n * i + i;
    assert d * (n * i + i) == d * (n * i) + d * i;
  }

  lemma {:induction false} TotalBound(c: Layout, seqLens: seq<nat>, rank: nat)
    requires c.Valid() && rank < c.ranks
    ensures c.ranks * Sum(ReqLens(c, seqLens, rank)) <= Sum(seqLens) + c.ranks * (|seqLens| * c.interleave)
  {
    if seqLens != [] {
      var n, head := |seqLens| - 1, ReqLens(c, seqLens[..|seqLens| - 1], rank);
      TotalBound(c, seqLens[..n], rank);
      assert ReqLens(c, seqLens, rank)[..n] == head;
      LocalLenBound(c, seqLens[n], rank);
      AddBounds(c.ranks, Sum(head), LocalLen(c, seqLens[n], rank), Sum(seqLens[..n]), seqLens[n], n, c.interleave);
    }
  }

  lemma FitsRoom(d: nat, total: nat, sum: nat, limit: nat, n: nat, seqs: nat, i: nat)
    requires d > 0 && d * total <= sum + d * (n * i) && sum <= limit && n <= seqs
    ensures total <= CeilDiv(limit, d) + seqs * i
  {
    var room := CeilDiv(limit, d) + seqs * i;
    RoundUpLeast(limit, d);
    MulMono(n, seqs, i);
    MulMono(n * i, seqs * i, d);
    assert d * room == CeilDiv(limit, d) * d + d * (seqs * i);
    NotAbove(d, total, room);
  }

  /**
   A batch of at most `maxSeqs` requests and at most `maxGatherTokens` cached
   tokens always fits: on every rank, padded, it is within the local capacity.
   */
  lemma CapacityBound(cfg: Config, seqLens: seq<nat>)
    requires ValidConfig(cfg)
    requires |seqLens| <= cfg.maxSeqs && Sum(seqLens) <= cfg.maxGatherTokens
    ensures Padded(cfg.layout, seqLens, PAGE) <= Capacity(cfg)
    ensures cfg.layout.ranks * Padded(cfg.layout, seqLens, PAGE) + Capacity(cfg)
         <= (cfg.layout.ranks + 1) * Capacity(cfg)
  {
    var d := cfg.layout.ranks;
    LargestTotalFits(cfg.layout, seqLens, cfg.maxGatherTokens, cfg.maxSeqs);
    RoundUpMono(MaxOf(Totals(cfg.layout, seqLens)), Room(cfg.layout, cfg.maxGatherTokens, cfg.maxSeqs), PAGE);
    RegionsFit(d, Padded(cfg.layout, seqLens, PAGE), Capacity(cfg));
  }

  /** The tokens one rank must be able to hold, before rounding up to pages. */
  function Room(c: Layout, maxTokens: nat, maxSeqs: nat): nat
    requires c.Valid()
  {
    CeilDiv(maxTokens, Max(1, c.ranks)) + maxSeqs * c.interleave
  }

  lemma LargestTotalFits(c: Layout, seqLens: seq<nat>, maxTokens: nat, maxSeqs: nat)
    requires c.Valid() && |seqLens| <= maxSeqs && Sum(seqLens) <= maxTokens
    ensures MaxOf(Totals(c, seqLens)) <= Room(c, maxTokens, maxSeqs)
  {
    var totals := Totals(c, seqLens);
    forall r | 0 <= r < c.ranks
      ensures totals[r] <= Room(c, maxTokens, maxSeqs)
    {
      TotalBound(c, seqLens, r);
      FitsRoom(c.ranks, totals[r], Sum(seqLens), maxTokens, |seqLens|, maxSeqs, c.interleave);
    }
    MaxOfBounds(totals);
  }

  lemma RegionsFit(d: nat, padded: nat, capacity: nat)
    requires padded <= capacity
    ensures d * padded + capacity <= (d + 1) * capacity
  {
    MulMono(padded, capacity, d);
  }

  /**
   The capacity is the least whole number of pages that holds an even share of the
   tokens, rounded up, and one interleave run per request.
   */
  lemma CapacityExact(cfg: Config)
    requires ValidConfig(cfg)
    ensures Capacity(cfg) % 64 == 0
    ensures cfg.maxGatherTokens <= cfg.layout.ranks * (Capacity(cfg) - cfg.maxSeqs * cfg.layout.interleave)
    ensures forall k: nat :: cfg.maxGatherTokens <= cfg.layout.ranks * (k * 64 - cfg.maxSeqs * cfg.layout.interleave) ==>
      Capacity(cfg) <= k * 64
  {
    MulMono(0, cfg.maxSeqs, cfg.layout.interleave);
    RoomExact(cfg.maxGatherTokens, cfg.layout.ranks, cfg.maxSeqs * cfg.layout.interleave);
  }

  lemma RoomExact(t: nat, d: nat, runs: nat)
    requires d > 0
    ensures RoundUp(CeilDiv(t, d) + runs, 64) % 64 == 0
    ensures t <= d * (RoundUp(CeilDiv(t, d) + runs, 64) - runs)
    ensures forall k: nat :: t <= d * (k * 64 - runs) ==> RoundUp(CeilDiv(t, d) + runs, 64) <= k * 64
  {
    RoundUpLeast(t, d);
    RoundUpLeast(CeilDiv(t, d) + runs, 64);
    MulMono(CeilDiv(t, d), RoundUp(CeilDiv(t, d) + runs, 64) - runs, d);
    forall k: nat | t <= d * (k * 64 - runs)
      ensures CeilDiv(t, d) + runs <= k * 64
    {
      ShareFits(t, d, k * 64 - runs);
    }
  }

  lemma ShareFits(t: nat, d: nat, m: int)
    requires d > 0 && t <= d * m
    ensures CeilDiv(t, d) <= m
  {
    if m < 0 {
      MulMono(m, -1, d);
    } else {
      RoundUpLeast(t, d);
      assert RoundUp(t, d) <= m * d;
      NotAbove(d, CeilDiv(t, d), m);
    }
  }

  // ---- agreement -------------------------------------------------------------------

  /**
   All ranks of a group send messages of the same size and take the same decision;
   the one test that looks at the rank's own total never rejects.
   */
  lemma CollectiveAgreement(cfg: Config, batch: Batch, rank: nat, peer: nat, numTokens: nat, capturing: bool)
    requires ValidConfig(cfg) && rank < cfg.layout.ranks && peer < cfg.layout.ranks
    ensures Built(cfg, batch, rank).localTotal <= Built(cfg, batch, rank).paddedTotal
    ensures Built(cfg, batch, rank).paddedTotal == Built(cfg, batch, peer).paddedTotal
    ensures Eligible(cfg, Built(cfg, batch, rank), numTokens, capturing)
        <==> Eligible(cfg, Built(cfg, batch, peer), numTokens, capturing)
  {
    TotalFits(cfg.layout, batch.seqLens, PAGE, rank);
    TotalFits(cfg.layout, batch.seqLens, PAGE, peer);
  }

  /**
   Admission in terms of the settings and the batch: the path is enabled on a group of
   four, outside capture, for a long enough pure prefill with something cached that
   fits the capacity.
   */
  lemma EligibleAlways(cfg: Config, batch: Batch, rank: nat, numTokens: nat, capturing: bool)
    requires ValidConfig(cfg) && rank < cfg.layout.ranks
    ensures Eligible(cfg, Built(cfg, batch, rank), numTokens, capturing) <==>
      && cfg.requested && cfg.nvfp4Cache && cfg.tpSize == 4 && cfg.layout.ranks == 4 && cfg.numHeads % 8 == 0 && !cfg.dbo
      && !capturing && numTokens == batch.numTokens == batch.prefillTokens && batch.decodeTokens == 0
      && batch.maxQueryLen > cfg.minTokens && numTokens > cfg.minTokens
      && Sum(batch.seqLens) > 0 && Padded(cfg.layout, batch.seqLens, 64) <= Capacity(cfg)
  {
    TotalFits(cfg.layout, batch.seqLens, PAGE, rank);
    PaddedPositive(cfg.layout, batch.seqLens);
  }

  /** Within the configured token and request limits the capacity never rejects. */
  lemma EligibleExactly(cfg: Config, batch: Batch, rank: nat, capturing: bool)
    requires ValidConfig(cfg) && rank < cfg.layout.ranks
    requires |batch.seqLens| <= cfg.maxSeqs && Sum(batch.seqLens) <= cfg.maxGatherTokens
    ensures Eligible(cfg, Built(cfg, batch, rank), batch.numTokens, capturing) <==>
      && cfg.requested && cfg.nvfp4Cache && cfg.tpSize == 4 && cfg.layout.ranks == 4 && cfg.numHeads % 8 == 0 && !cfg.dbo
      && !capturing && batch.numTokens == batch.prefillTokens && batch.decodeTokens == 0
      && batch.maxQueryLen > cfg.minTokens && batch.numTokens > cfg.minTokens && Sum(batch.seqLens) > 0
  {
    CapacityBound(cfg, batch.seqLens);
    EligibleAlways(cfg, batch, rank, batch.numTokens, capturing);
  }

  lemma PaddedPositive(c: Layout, seqLens: seq<nat>)
    requires c.Valid()
    ensures Padded(c, seqLens, PAGE) > 0 <==> Sum(seqLens) > 0
  {
    var totals := Totals(c, seqLens);
    MaxOfBounds(totals);
    RoundUpLeast(MaxOf(totals), PAGE);
    forall r: nat | r < c.ranks
      ensures Sum(seqLens) == 0 ==> totals[r] == 0
    {
      TotalOfNothing(c, seqLens, r);
    }
    if Sum(seqLens) > 0 {
      var b := PositiveEntry(seqLens);
      var t := seqLens[b] - 1;
      InRange(c, t, seqLens[b]);
      PlaceInMessage(c, seqLens, PAGE, b, t);
    }
  }

  lemma {:induction false} PositiveEntry(s: seq<nat>) returns (b: nat)
    requires Sum(s) > 0
    ensures b < |s| && s[b] > 0
  {
    b := |s| - 1;
    if s[b] == 0 {
      b := PositiveEntry(s[..b]);
    }
  }

  lemma {:induction false} TotalOfNothing(c: Layout, seqLens: seq<nat>, rank: nat)
    requires c.Valid() && rank < c.ranks
    ensures Sum(seqLens) == 0 ==> Sum(ReqLens(c, seqLens, rank)) == 0
  {
    if seqLens != [] {
      var n := |seqLens| - 1;
      TotalOfNothing(c, seqLens[..n], rank);
      assert ReqLens(c, seqLens, rank)[..n] == ReqLens(c, seqLens[..n], rank);
      LocalLenZero(c, rank);
    }
  }

  // ---- the builder object --------------------------------------------------------------

  /** The persistent tables that `build` fills in place and slices per batch. */
  class MetadataBuilder {
    const cfg: Config
    const rank: nat
    const reqLens: array2<nat>
    const reqStarts: array2<nat>
    const localCu: array<nat>

    ghost predicate Valid()
    {
      ValidConfig(cfg) && rank < cfg.layout.ranks
      && reqLens != reqStarts
      && reqLens.Length0 == reqStarts.Length0 == cfg.layout.ranks
      && reqLens.Length1 == reqStarts.Length1 == cfg.maxSeqs
      && localCu.Length == cfg.maxSeqs + 1
    }

    constructor (cfg: Config, rank: nat)
      requires ValidConfig(cfg) && rank < cfg.layout.ranks
      ensures Valid() && this.cfg == cfg && this.rank == rank
      ensures fresh(reqLens) && fresh(reqStarts) && fresh(localCu)
    {
      this.cfg, this.rank := cfg, rank;
      reqLens := new nat[cfg.layout.ranks, cfg.maxSeqs];
      reqStarts := new nat[cfg.layout.ranks, cfg.maxSeqs];
      localCu := new nat[cfg.maxSeqs + 1];
    }

    /** Row `r` of both tables holds rank `r`'s lengths and starts. */
    ghost predicate RankFilled(seqLens: seq<nat>, r: nat)
      requires Valid() && |seqLens| <= cfg.maxSeqs && r < cfg.layout.ranks
      reads reqLens, reqStarts
    {
      forall b :: 0 <= b < |seqLens| ==>
        reqLens[r, b] == LocalLen(cfg.layout, seqLens[b], r)
        && reqStarts[r, b] == Start(ReqLens(cfg.layout, seqLens, r), b)
    }

    /** The tables hold the lengths and starts of every rank and this rank's offsets. */
    ghost predicate Filled(seqLens: seq<nat>)
      requires Valid() && |seqLens| <= cfg.maxSeqs
      reads reqLens, reqStarts, localCu
    {
      && (forall r :: 0 <= r < cfg.layout.ranks ==> RankFilled(seqLens, r))
      && (forall b :: 0 <= b <= |seqLens| ==> localCu[b] == Start(ReqLens(cfg.layout, seqLens, rank), b))
    }

    /** `size` tokens hold every rank's total. */
    ghost predicate Holding(seqLens: seq<nat>, size: int)
      requires Valid()
    {
      forall r :: 0 <= r < cfg.layout.ranks ==> Sum(ReqLens(cfg.layout, seqLens, r)) <= size
    }

    method Build(batch: Batch) returns (meta: Metadata)
      requires Valid() && 0 < |batch.seqLens| <= cfg.maxSeqs
      modifies reqLens, reqStarts, localCu
      ensures meta == Built(cfg, batch, rank)
      ensures Gated(cfg, batch) ==> Filled(batch.seqLens)
      ensures !Gated(cfg, batch) ==> unchanged(reqLens) && unchanged(reqStarts) && unchanged(localCu)
      ensures meta.hasBuffers <==>
        && cfg.layout.ranks > 1 && cfg.requested && batch.decodeTokens == 0
        && batch.prefillTokens == batch.numTokens && batch.maxQueryLen > cfg.minTokens
      ensures meta.hasBuffers <==> Gated(cfg, batch)
      ensures meta.hasBuffers ==> meta.localTotal == Sum(ReqLens(cfg.layout, batch.seqLens, rank))
      ensures meta.hasBuffers ==> meta.paddedTotal % 64 == 0 && Holding(batch.seqLens, meta.paddedTotal)
      ensures meta.hasBuffers ==> forall k: nat :: Holding(batch.seqLens, k * 64) ==> meta.paddedTotal <= k * 64
      ensures meta.eligible <==> meta.hasBuffers && meta.paddedTotal > 0
      ensures !meta.hasBuffers ==> meta.localTotal == meta.paddedTotal == 0
    {
      PaddedExact(cfg.layout, batch.seqLens, PAGE);
      if !Gated(cfg, batch) {
        return Metadata(batch, 0, 0, false, false);
      }
      var totals := FillRanks(batch.seqLens);
      FillLocalCu(batch.seqLens);
      var padded := RoundUp(MaxOf(totals), PAGE);
      meta := Metadata(batch, totals[rank], padded, padded > 0, true);
    }

    /** All rows, rank after rank. */
    method FillRanks(lens: seq<nat>) returns (totals: seq<nat>)
      requires Valid() && |lens| <= cfg.maxSeqs
      modifies reqLens, reqStarts
      ensures forall r :: 0 <= r < cfg.layout.ranks ==> RankFilled(lens, r)
      ensures totals == Totals(cfg.layout, lens)
    {
      totals := [];
      for r := 0 to cfg.layout.ranks
        invariant totals == Totals(cfg.layout, lens)[..r]
        invariant forall q :: 0 <= q < r ==> RankFilled(lens, q)
      {
        var total := FillRank(lens, r);
        totals := totals + [total];
      }
    }

    /** This rank's offsets, from its row of the lengths. */
    method FillLocalCu(lens: seq<nat>)
      requires Valid() && |lens| <= cfg.maxSeqs
      requires RankFilled(lens, rank)
      modifies localCu
      ensures forall b :: 0 <= b <= |lens| ==> localCu[b] == Start(ReqLens(cfg.layout, lens, rank), b)
    {
      ghost var row := ReqLens(cfg.layout, lens, rank);
      localCu[0] := 0;
      for b := 0 to |lens|
        invariant forall x :: 0 <= x < |lens| ==> reqLens[rank, x] == row[x]
        invariant forall x :: 0 <= x <= b ==> localCu[x] == Start(row, x)
      {
        localCu[b + 1] := localCu[b] + reqLens[rank, b];
        StartStep(row, b);
      }
    }

    /** Row `r` of both tables: the shard lengths and their exclusive prefix sums. */
    method FillRank(lens: seq<nat>, r: nat) returns (total: nat)
      requires Valid() && |lens| <= cfg.maxSeqs && r < cfg.layout.ranks
      modifies reqLens, reqStarts
      ensures RankFilled(lens, r)
      ensures forall q :: 0 <= q < cfg.layout.ranks && q != r && old(RankFilled(lens, q)) ==> RankFilled(lens, q)
      ensures total == Sum(ReqLens(cfg.layout, lens, r))
    {
      total := 0;
      ghost var row := ReqLens(cfg.layout, lens, r);
      for b := 0 to |lens|
        invariant total == Start(row, b)
        invariant forall b' :: 0 <= b' < b ==> reqLens[r, b'] == row[b'] && reqStarts[r, b'] == Start(row, b')
        invariant forall r', b' :: 0 <= r' < cfg.layout.ranks && r' != r && 0 <= b' < cfg.maxSeqs ==>
          reqLens[r', b'] == old(reqLens[r', b']) && reqStarts[r', b'] == old(reqStarts[r', b'])
      {
        reqLens[r, b] := LocalLen(cfg.layout, lens[b], r);
        reqStarts[r, b] := total;
        StartStep(row, b);
        total := total + reqLens[r, b];
      }
      assert row[..|lens|] == row;
    }
  }
}
