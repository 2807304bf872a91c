/**
 LMCache under decode context parallelism: which rank stores and which ranks read a
 shard, and when chunks stored by one request rebuild another request's cache.
 */
module LmCacheMapping {
  import opened Seqs
  import opened Sharding

  /** Tensor, pipeline and decode-context parallel sizes; DCP groups lie inside TP groups. */
  datatype Strategy = Strategy(tp: nat, pp: nat, dcp: nat) {
    predicate Valid() { tp > 0 && pp > 0 && dcp > 0 && tp % dcp == 0 }

    function World(): nat { tp * pp }

    /** `extract_world_size_and_kv_rank` for MLA models. */
    function KvWorld(): nat
      requires Valid()
    {
      if dcp > 1 then dcp else World() / tp
    }

    function KvRank(rank: nat): nat
      requires Valid()
    {
      if dcp > 1 then rank % dcp else rank / tp
    }

    /** `is_first_rank_of_pp_group` with MLA: the rank stores. */
    predicate Stores(rank: nat)
      requires Valid()
    {
      rank < KvWorld()
    }

    /** `compute_extra_count`, with the KV world size. */
    function ExtraCount(): int
      requires Valid() && KvWorld() > 0
    {
      if tp > KvWorld() then tp / KvWorld() - 1 else 0
    }

    /** What a rank's cache really holds: the layers of its stage, the tokens of its DCP rank. */
    function Shard(rank: nat): (nat, nat)
      requires Valid()
    {
      (rank / tp, rank % dcp)
    }

    function Storers(shard: (nat, nat)): set<nat>
      requires Valid()
    {
      set r: nat | r < World() && Shard(r) == shard && Stores(r)
    }

    /** The ranks that look a shard up under its key. */
    function Readers(kvRank: nat): set<nat>
      requires Valid()
    {
      set r: nat | r < World() && KvRank(r) == kvRank
    }
  }

  /**
   The mapping in terms of a rank's stage and place in it: with DCP the key is the DCP
   rank, without it the pipeline stage, and as many ranks store as there are keys.
   */
  lemma KvExact(s: Strategy, stage: nat, place: nat)
    requires s.Valid() && stage < s.pp && place < s.tp
    ensures 0 <= stage * s.tp + place < s.tp * s.pp
    ensures var rank := stage * s.tp + place;
      && s.Shard(rank) == (stage, rank % s.dcp)
      && s.KvWorld() == (if s.dcp > 1 then s.dcp else s.pp)
      && s.KvRank(rank) == (if s.dcp > 1 then place % s.dcp else stage)
      && (s.Stores(rank) <==> rank < if s.dcp > 1 then s.dcp else s.pp)
  {
    MulMono(0, stage, s.tp);
    MulMono(stage + 1, s.pp, s.tp);
    Distribute(stage, 1, s.tp);
    DivUnique(stage * s.tp + place, s.tp, stage, place);
    DivUnique(s.tp * s.pp, s.tp, s.pp, 0);
    var m := s.tp / s.dcp;
    assert s.tp == m * s.dcp;
    Assoc(stage, m, s.dcp);
    Distribute(stage * m, place / s.dcp, s.dcp);
    DivUnique(stage * s.tp + place, s.dcp, stage * m + place / s.dcp, place % s.dcp);
  }

  ghost predicate EveryShardOneStorer(s: Strategy)
    requires s.Valid()
  {
    forall stage: nat, d: nat :: stage < s.pp && d < s.dcp ==> |s.Storers((stage, d))| == 1
  }

  // ---- one pipeline stage ----------------------------------------------------------------

  lemma OneStage(s: Strategy)
    requires s.Valid() && s.pp == 1
    ensures s.World() == s.tp && s.KvWorld() == s.dcp <= s.tp
    ensures forall r: nat :: r < s.tp ==> s.KvRank(r) == r % s.dcp && s.Shard(r) == (0, r % s.dcp)
  {
    DivUnique(s.tp, s.tp, 1, 0);
    assert s.tp / s.dcp * s.dcp == s.tp;
    if s.tp < s.dcp {
      DivUnique(s.tp, s.dcp, 0, s.tp);
    }
    forall r: nat | r < s.tp
      ensures s.KvRank(r) == r % s.dcp && s.Shard(r) == (0, r % s.dcp)
    {
      DivUnique(r, s.tp, 0, r);
    }
  }

  lemma StorerOf(s: Strategy, d: nat)
    requires s.Valid() && s.pp == 1 && d < s.dcp
    ensures s.Storers((0, d)) == {d}
  {
    OneStage(s);
    forall r: nat | r < s.dcp
      ensures r % s.dcp == r
    {
      DivUnique(r, s.dcp, 0, r);
    }
  }

  /** Every `dcp`-th of the first `n * dcp` ranks. */
  lemma {:induction false} Residues(n: nat, dcp: nat, d: nat)
    requires d < dcp
    ensures |set r: nat | r < n * dcp && r % dcp == d| == n
  {
    var all := set r: nat | r < n * dcp && r % dcp == d;
    if n == 0 {
      assert all == {};
    } else {
      var before := set r: nat | r < (n - 1) * dcp && r % dcp == d;
      Residues(n - 1, dcp, d);
      Distribute(n - 1, 1, dcp);
      MulMono(0, n - 1, dcp);
      var next := (n - 1) * dcp + d;
      DivUnique(next, dcp, n - 1, d);
      forall r: nat | (n - 1) * dcp <= r < n * dcp && r % dcp == d
        ensures r == next
      {
        DivUnique(r, dcp, n - 1, r - (n - 1) * dcp);
      }
      assert all == before + {next};
    }
  }

  /** A shard has `tp / dcp` readers, one more than the extra count. */
  lemma ReadersCount(s: Strategy, d: nat)
    requires s.Valid() && s.pp == 1 && d < s.dcp
    ensures |s.Readers(d)| == s.tp / s.dcp
    ensures s.KvWorld() > 0 && s.ExtraCount() == |s.Readers(d)| - 1
    ensures s.Storers((0, d)) <= s.Readers(d)
  {
    OneStage(s);
    Residues(s.tp / s.dcp, s.dcp, d);
    assert s.tp / s.dcp * s.dcp == s.tp;
    assert s.Readers(d) == set r: nat | r < s.tp / s.dcp * s.dcp && r % s.dcp == d;
    StorerOf(s, d);
    DivUnique(d, s.dcp, 0, d);
    if s.tp == s.dcp {
      DivUnique(s.tp, s.dcp, 1, 0);
    } else if s.tp / s.dcp < 1 {
      assert false;
    }
  }

  // ---- several pipeline stages --------------------------------------------------------------

  /** With several stages and more than one rank in each, the last stage has no storer. */
  lemma LastStageUnstored(s: Strategy)
    requires s.Valid() && s.pp > 1 && s.tp > 1
    ensures s.Storers((s.pp - 1, 0)) == {}
  {
    forall r: nat | r < s.World() && s.Shard(r) == (s.pp - 1, 0)
      ensures !s.Stores(r)
    {
      assert r == r / s.tp * s.tp + r % s.tp;
      MulMono(2, s.tp, s.pp - 1);
      MulMono(1, s.pp - 1, s.tp);
      assert (s.pp - 1) * s.tp <= r;
      DcpInsideTp(s);
      DivUnique(s.World(), s.tp, s.pp, 0);
    }
  }

  lemma DcpInsideTp(s: Strategy)
    requires s.Valid()
    ensures s.dcp <= s.tp
  {
    if s.tp < s.dcp {
      DivUnique(s.tp, s.dcp, 0, s.tp);
    }
  }

  /** With one rank per stage every rank is its own shard, key and storer. */
  lemma OneRankPerStage(s: Strategy, stage: nat)
    requires s.Valid() && s.tp == 1 && stage < s.pp
    ensures s.dcp == 1 && s.Storers((stage, 0)) == {stage} && s.KvRank(stage) == stage
  {
    DcpInsideTp(s);
    assert s.KvWorld() == s.pp;
  }

  /**
   Every shard has exactly one storing rank if and only if there is one pipeline stage
   or one rank per stage.
   */
  lemma OneStorerExactly(s: Strategy)
    requires s.Valid()
    ensures EveryShardOneStorer(s) <==> s.pp == 1 || s.tp == 1
  {
    if s.pp == 1 {
      forall stage: nat, d: nat | stage < s.pp && d < s.dcp
        ensures |s.Storers((stage, d))| == 1
      {
        StorerOf(s, d);
      }
    } else if s.tp == 1 {
      forall stage: nat, d: nat | stage < s.pp && d < s.dcp
        ensures |s.Storers((stage, d))| == 1
      {
        OneRankPerStage(s, stage);
      }
    } else {
      LastStageUnstored(s);
      assert |s.Storers((s.pp - 1, 0))| == 0;
    }
  }

  // ---- chunks -----------------------------------------------------------------------------------

  /** The records at `n` local positions from `first` on. */
  function LocalSlots<R>(c: Layout, kv: nat -> R, d: nat, first: nat, n: nat): (s: seq<R>)
    requires c.Valid()
    ensures |s| == n && forall i :: 0 <= i < n ==> s[i] == kv(ToGlobal(c, first + i, d))
  {
    seq(n, i requires 0 <= i => kv(ToGlobal(c, first + i, d)))
  }

  /** The DCP-aware block size: one local block on every rank. */
  function SchedulerBlock(c: Layout, block: nat): nat { block * c.ranks }

  /** A chunk of `blocks` scheduler blocks, in tokens and in local slots. */
  function ChunkTokens(c: Layout, block: nat, blocks: nat): (tokens: nat)
    ensures tokens == blocks * block * c.ranks
  {
    Assoc(blocks, block, c.ranks);
    MulMono(0, blocks, block * c.ranks);
    blocks * SchedulerBlock(c, block)
  }

  function ChunkSlots(block: nat, blocks: nat): (slots: nat)
    ensures slots == blocks * block
  {
    MulMono(0, blocks, block);
    blocks * block
  }

  /** Chunk boundaries of the tokens are chunk boundaries of the local slots, on every rank. */
  ghost predicate Boundaries(c: Layout, block: nat, blocks: nat)
    requires c.Valid()
  {
    forall j: nat, d: nat :: d < c.ranks ==>
      LocalLen(c, j * ChunkTokens(c, block, blocks), d) == j * ChunkSlots(block, blocks)
  }

  lemma WholeRounds(c: Layout, block: nat, blocks: nat, j: nat, d: nat)
    requires c.Valid() && d < c.ranks && ChunkSlots(block, blocks) % c.interleave == 0
    ensures LocalLen(c, j * ChunkTokens(c, block, blocks), d) == j * ChunkSlots(block, blocks)
  {
    var slots := ChunkSlots(block, blocks);
    var k := slots / c.interleave;
    assert slots == k * c.interleave;
    Assoc(blocks, block, c.ranks);
    assert ChunkTokens(c, block, blocks) == slots * c.ranks;
    assert slots * c.ranks == k * c.Stripe() by { Assoc(k, c.interleave, c.ranks); }
    Assoc(j, k, c.Stripe());
    Assoc(j, k, c.interleave);
    LocalLenSplit(c, j * k * c.Stripe(), j * k, 0, 0, d);
  }

  /** The first rank and the last one are equally long only at whole rounds. */
  lemma UnequalShares(c: Layout, len: nat)
    requires c.Valid() && c.ranks > 1
    requires LocalLen(c, len, 0) == LocalLen(c, len, c.ranks - 1)
    ensures len % c.Stripe() == 0
  {
    var q, r, o := Split(c, len);
    SplitParts(c, len, q, r, o);
    LocalLenSplit(c, len, q, r, o, 0);
    LocalLenSplit(c, len, q, r, o, c.ranks - 1);
  }

  /**
   Token chunks are slot chunks on every rank if and only if nothing is sharded or a
   chunk is a whole number of interleave runs per rank.
   */
  lemma BoundariesExactly(c: Layout, block: nat, blocks: nat)
    requires c.Valid()
    ensures Boundaries(c, block, blocks) <==> c.ranks == 1 || ChunkSlots(block, blocks) % c.interleave == 0
  {
    if ChunkSlots(block, blocks) % c.interleave == 0 {
      forall j: nat, d: nat | d < c.ranks
        ensures LocalLen(c, j * ChunkTokens(c, block, blocks), d) == j * ChunkSlots(block, blocks)
      {
        WholeRounds(c, block, blocks, j, d);
      }
    } else if c.ranks == 1 {
      forall j: nat, d: nat | d < c.ranks
        ensures LocalLen(c, j * ChunkTokens(c, block, blocks), d) == j * ChunkSlots(block, blocks)
      {
        Unsharded(c, j * ChunkTokens(c, block, blocks));
      }
    } else if Boundaries(c, block, blocks) {
      var tokens := ChunkTokens(c, block, blocks);
      assert LocalLen(c, 1 * tokens, 0) == 1 * ChunkSlots(block, blocks);
      assert LocalLen(c, 1 * tokens, c.ranks - 1) == 1 * ChunkSlots(block, blocks);
      UnequalShares(c, tokens);
      StripeDivides(c, ChunkSlots(block, blocks), tokens);
      assert false;
    }
  }

  lemma Unsharded(c: Layout, len: nat)
    requires c.Valid() && c.ranks == 1
    ensures LocalLen(c, len, 0) == len
  {
    var q, r, o := Split(c, len);
    LocalLenSplit(c, len, q, r, o, 0);
  }

  lemma StripeDivides(c: Layout, slots: nat, tokens: nat)
    requires c.Valid() && tokens == slots * c.ranks && c.Stripe() > 0 && tokens % c.Stripe() == 0
    ensures slots % c.interleave == 0
  {
    var k := tokens / c.Stripe();
    assert tokens == k * c.Stripe();
    Exchange(k, c.ranks, c.interleave);
    assert c.ranks * slots == c.ranks * (k * c.interleave);
    NotAbove(c.ranks, slots, k * c.interleave);
    NotAbove(c.ranks, k * c.interleave, slots);
    DivUnique(slots, c.interleave, k, 0);
  }

  /** Chunks that are not whole runs leave the first rank short of the tokens it owns. */
  lemma MisalignedLosesTokens(c: Layout, block: nat, blocks: nat)
    requires c.Valid() && c.ranks > 1 && ChunkSlots(block, blocks) % c.interleave != 0
    ensures ChunkSlots(block, blocks) < LocalLen(c, ChunkTokens(c, block, blocks), 0)
  {
    var slots, tokens := ChunkSlots(block, blocks), ChunkTokens(c, block, blocks);
    Assoc(blocks, block, c.ranks);
    var q, r, o := Split(c, tokens);
    SplitParts(c, tokens, q, r, o);
    LocalLenSplit(c, tokens, q, r, o, 0);
    if LocalLen(c, tokens, 0) <= slots {
      FirstShare(c, slots, q, r, o);
      StripeDivides(c, slots, tokens);
      assert false;
    }
  }

  lemma FirstShare(c: Layout, slots: nat, q: nat, r: nat, o: nat)
    requires c.Valid() && c.ranks > 1 && r < c.ranks && o < c.interleave
    requires slots * c.ranks == q * c.Stripe() + r * c.interleave + o
    requires q * c.interleave + (if r > 0 then c.interleave else o) <= slots
    ensures r == 0 && o == 0 && c.Stripe() > 0 && (slots * c.ranks) % c.Stripe() == 0
  {
    var x := if r > 0 then c.interleave else o;
    MulMono(q * c.interleave + x, slots, c.ranks);
    Distribute(q * c.interleave, x, c.ranks);
    Exchange(c.ranks, q, c.interleave);
    ShareBound(c.ranks, c.interleave, r, o, x);
    StripePositive(c);
    DivUnique(slots * c.ranks, c.Stripe(), q, 0);
  }

  lemma ShareBound(ranks: nat, interleave: nat, r: nat, o: nat, x: nat)
    requires ranks > 1 && r < ranks && o < interleave && x == (if r > 0 then interleave else o)
    requires x * ranks <= r * interleave + o
    ensures r == 0 && o == 0
  {
    if r > 0 {
      MulMono(r + 1, ranks, interleave);
      Distribute(r, 1, interleave);
    } else {
      MulMono(2, ranks, o);
    }
  }

  // ---- storing and restoring ---------------------------------------------------------------------

  /** The keys `(chunk, kv_rank)` under which the storing ranks write the first `n` chunks. */
  function Keys(s: Strategy, n: nat): set<(nat, nat)>
    requires s.Valid()
  {
    set j: nat, r: nat | j < n && r < s.World() && s.Stores(r) :: (j, s.KvRank(r))
  }

  /** What they write: their local slots of the chunk. */
  function Stored<R>(s: Strategy, c: Layout, kv: nat -> R, slots: nat, n: nat): map<(nat, nat), seq<R>>
    requires s.Valid() && c.Valid()
  {
    map key | key in Keys(s, n) :: LocalSlots(c, kv, key.1, key.0 * slots, slots)
  }

  function Loads<R>(s: Strategy, store: map<(nat, nat), seq<R>>, rank: nat, n: nat): (ls: seq<seq<R>>)
    requires s.Valid() && forall j: nat :: j < n ==> (j, s.KvRank(rank)) in store
    ensures |ls| == n && forall j :: 0 <= j < n ==> ls[j] == store[(j, s.KvRank(rank))]
  {
    seq(n, j requires 0 <= j < n => store[(j, s.KvRank(rank))])
  }

  lemma KeyStored(s: Strategy, rank: nat, n: nat, j: nat)
    requires s.Valid() && s.pp == 1 && rank < s.World() && j < n
    ensures (j, s.KvRank(rank)) in Keys(s, n)
  {
    OneStage(s);
    var d := s.KvRank(rank);
    DivUnique(d, s.dcp, 0, d);
    assert d < s.World() && s.Stores(d) && s.KvRank(d) == d;
  }

  lemma {:induction false} LocalSlotsConcat<R>(c: Layout, kv: nat -> R, d: nat, slots: nat, ls: seq<seq<R>>)
    requires c.Valid() && forall j :: 0 <= j < |ls| ==> 0 <= j * slots && ls[j] == LocalSlots(c, kv, d, j * slots, slots)
    ensures 0 <= |ls| * slots && Flatten(ls) == LocalSlots(c, kv, d, 0, |ls| * slots)
  {
    MulMono(0, |ls|, slots);
    if ls != [] {
      var m := |ls| - 1;
      LocalSlotsConcat(c, kv, d, slots, ls[..m]);
      Distribute(m, 1, slots);
      SlotsSplit(c, kv, d, m * slots, slots);
    }
  }

  lemma SlotsSplit<R>(c: Layout, kv: nat -> R, d: nat, a: nat, b: nat)
    requires c.Valid()
    ensures LocalSlots(c, kv, d, 0, a + b) == LocalSlots(c, kv, d, 0, a) + LocalSlots(c, kv, d, a, b)
  {
  }

  /** Equal tokens give equal slots, as far as the slots hold only those tokens. */
  lemma SameSlots<R>(c: Layout, a: nat -> R, b: nat -> R, d: nat, n: nat, len: nat)
    requires c.Valid() && d < c.ranks && n <= LocalLen(c, len, d) && forall t: nat :: t < len ==> a(t) == b(t)
    ensures LocalSlots(c, a, d, 0, n) == LocalSlots(c, b, d, 0, n)
  {
    forall i | 0 <= i < n
      ensures LocalSlots(c, a, d, 0, n)[i] == LocalSlots(c, b, d, 0, n)[i]
    {
      InRangeLocal(c, i, d, len);
    }
  }

  lemma LoadsAreSlots<R>(s: Strategy, c: Layout, kv: nat -> R, slots: nat, n: nat, rank: nat)
    requires s.Valid() && c.Valid() && forall j: nat :: j < n ==> (j, s.KvRank(rank)) in Stored(s, c, kv, slots, n)
    ensures 0 <= n * slots
    ensures Flatten(Loads(s, Stored(s, c, kv, slots, n), rank, n)) == LocalSlots(c, kv, s.KvRank(rank), 0, n * slots)
  {
    forall j | 0 <= j < n
      ensures 0 <= j * slots
    {
      MulMono(0, j, slots);
    }
    LocalSlotsConcat(c, kv, s.KvRank(rank), slots, Loads(s, Stored(s, c, kv, slots, n), rank, n));
  }

  /**
   Round trip: what the storing ranks wrote for one request rebuilds, on every rank of
   the group, exactly the local cache prefix of any request with the same first `n`
   chunks of tokens.
   */
  lemma RestoreRebuilds<R>(s: Strategy, c: Layout, block: nat, blocks: nat, n: nat, stored: nat -> R, wanted: nat -> R,
                           rank: nat)
    requires s.Valid() && s.pp == 1 && c.Valid() && c.ranks == s.dcp && rank < s.World()
    requires c.ranks == 1 || ChunkSlots(block, blocks) % c.interleave == 0
    requires forall t: nat :: t < n * ChunkTokens(c, block, blocks) ==> stored(t) == wanted(t)
    ensures var store := Stored(s, c, stored, ChunkSlots(block, blocks), n);
      && (forall j: nat :: j < n ==> (j, s.KvRank(rank)) in store)
      && Flatten(Loads(s, store, rank, n))
      == LocalSlots(c, wanted, rank % s.dcp, 0, LocalLen(c, n * ChunkTokens(c, block, blocks), rank % s.dcp))
  {
    var slots, d := ChunkSlots(block, blocks), rank % s.dcp;
    var store := Stored(s, c, stored, slots, n);
    OneStage(s);
    forall j: nat | j < n
      ensures (j, s.KvRank(rank)) in store
    {
      KeyStored(s, rank, n, j);
    }
    LoadsAreSlots(s, c, stored, slots, n, rank);
    BoundariesExactly(c, block, blocks);
    SameSlots(c, stored, wanted, d, n * slots, n * ChunkTokens(c, block, blocks));
  }
}
