/**
 The gather path as a whole: what it attends to in any run of the group, and that
 its output is the output of the stock DCP path.
 */
module GatherPath {
  import opened Seqs
  import opened Sharding
  import opened Compaction
  import opened CkvGather
  import opened Attention
  import StreamRuns

  // ---- the stock path --------------------------------------------------------------

  /** The live ids of a row that rank `r` owns; the stock path keeps these on `r`. */
  function Winners(c: Layout, ts: seq<nat>, r: nat): seq<nat>
    requires c.Valid()
  {
    Bucket(OwnerKey(c), ts, r)
  }

  /** One winner, read from its owner's pages at its local position. */
  function ReadOwn(c: Layout, batch: seq<nat>, sh: Shard, r: nat, b: nat, t: nat): (rec: Record)
    requires Holds(c, batch, sh, r) && b < |batch| && t < batch[b] && Owner(c, t) == r
    ensures Readable(sh, b, ToLocal(c, t)) && rec == At(sh, b, ToLocal(c, t))
  {
    InRange(c, t, batch[b]);
    At(sh, b, ToLocal(c, t))
  }

  function LocalReads(c: Layout, batch: seq<nat>, sh: Shard, r: nat, b: nat, ts: seq<nat>): (rs: seq<Record>)
    requires Holds(c, batch, sh, r) && b < |batch|
    requires forall i :: 0 <= i < |ts| ==> ts[i] < batch[b] && Owner(c, ts[i]) == r
    ensures |rs| == |ts|
    ensures forall i :: 0 <= i < |rs| ==> rs[i] == ReadOwn(c, batch, sh, r, b, ts[i])
  {
    seq(|ts|, i requires 0 <= i < |ts| => ReadOwn(c, batch, sh, r, b, ts[i]))
  }

  function WinnersReads(c: Layout, batch: seq<nat>, shards: seq<Shard>, b: nat, ts: seq<nat>): (rs: seq<seq<Record>>)
    requires AllHold(c, batch, shards) && b < |batch|
    requires forall i :: 0 <= i < |ts| ==> ts[i] < batch[b]
    ensures |rs| == c.ranks
    ensures forall r :: 0 <= r < |rs| ==> rs[r] == LocalReads(c, batch, shards[r], r, b, Winners(c, ts, r))
  {
    seq(c.ranks, r requires 0 <= r < c.ranks => LocalReads(c, batch, shards[r], r, b, Winners(c, ts, r)))
  }

  /** Without the clamp: every rank attends to all its winners; the partial results are corrected across ranks. */
  function Unclamped(w: Record -> real, v: Record -> real, c: Layout, batch: seq<nat>, shards: seq<Shard>,
                     b: nat, ts: seq<nat>): Partial
    requires AllHold(c, batch, shards) && b < |batch|
    requires forall i :: 0 <= i < |ts| ==> ts[i] < batch[b]
  {
    Combine(AttendRows(w, v, WinnersReads(c, batch, shards, b, ts)))
  }

  /** All ranks' winners together are the row's records. */
  lemma WinnersAreRow(c: Layout, batch: seq<nat>, shards: seq<Shard>, kv: (nat, nat) -> Record, b: nat, ts: seq<nat>)
    requires Represents(c, batch, shards, kv) && AllHold(c, batch, shards) && b < |batch|
    requires forall i :: 0 <= i < |ts| ==> ts[i] < batch[b]
    ensures multiset(Flatten(WinnersReads(c, batch, shards, b, ts))) == multiset(Wanted(kv, b, ts))
  {
    var key: nat -> nat := OwnerKey(c);
    var parts, recs := Buckets(key, ts, c.ranks), WinnersReads(c, batch, shards, b, ts);
    forall r | 0 <= r < c.ranks
      ensures recs[r] == Wanted(kv, b, parts[r])
    {
      WinnersOfRank(c, batch, shards, kv, b, parts[r], r);
    }
    forall i | 0 <= i < |ts|
      ensures key(ts[i]) < c.ranks
    {
      LocalOfGlobal(c, ts[i]);
    }
    FlattenWanted(kv, b, parts, recs);
    BucketsPartition(key, ts, c.ranks);
    WantedPermuted(kv, b, Flatten(parts), ts);
  }

  lemma WinnersOfRank(c: Layout, batch: seq<nat>, shards: seq<Shard>, kv: (nat, nat) -> Record, b: nat, ts: seq<nat>, r: nat)
    requires Represents(c, batch, shards, kv) && AllHold(c, batch, shards) && b < |batch| && r < c.ranks
    requires forall i :: 0 <= i < |ts| ==> ts[i] < batch[b] && Owner(c, ts[i]) == r
    ensures LocalReads(c, batch, shards[r], r, b, ts) == Wanted(kv, b, ts)
  {
    forall i | 0 <= i < |ts|
      ensures LocalReads(c, batch, shards[r], r, b, ts)[i] == Wanted(kv, b, ts)[i]
    {
      InRange(c, ts[i], batch[b]);
      LocalOfGlobal(c, ts[i]);
    }
  }

  /** The gather path attends to what all ranks' winners are together. */
  lemma GatherEqualsUnclamped(c: Layout, batch: seq<nat>, block: nat, shards: seq<Shard>, kv: (nat, nat) -> Record,
                          b: nat, ids: seq<int>, schedule: seq<Step>, w: Record -> real, v: Record -> real)
    requires Positive(w)
    requires Represents(c, batch, shards, kv) && block > 0 && b < |batch| && |ids| % LANES == 0
    requires var tiles := TilesOf(Lanes(c, batch, block, b, ids));
      Exec(tiles, schedule).Some? && Finished(tiles, Exec(tiles, schedule).value)
    ensures AllHold(c, batch, shards)
    ensures var s := Exec(TilesOf(Lanes(c, batch, block, b, ids)), schedule).value;
      && s.count <= |s.out|
      && Attend(w, v, Reads(Gathered(c, batch, block, shards), s.out[..s.count]))
      == Unclamped(w, v, c, batch, shards, b, Live(ids, batch[b]))
  {
    var ts := Live(ids, batch[b]);
    GatherRefines(c, batch, block, shards, kv, b, ids, schedule);
    WinnersAreRow(c, batch, shards, kv, b, ts);
    CombineAttend(w, v, WinnersReads(c, batch, shards, b, ts));
    var s := Exec(TilesOf(Lanes(c, batch, block, b, ids)), schedule).value;
    AttendPermuted(w, v, Reads(Gathered(c, batch, block, shards), s.out[..s.count]),
                   Flatten(WinnersReads(c, batch, shards, b, ts)));
  }

  // ---- the per-row clamp ------------------------------------------------------------

  lemma {:induction false} BucketDistinct(key: nat -> nat, ts: seq<nat>, k: nat)
    requires Distinct(ts)
    ensures Distinct(Bucket(key, ts, k))
  {
    if ts != [] {
      BucketDistinct(key, ts[..|ts| - 1], k);
    }
  }

  function Elements<T>(s: seq<T>): set<T> { set x | x in s }

  lemma {:induction false} DistinctSize<T>(s: seq<T>)
    requires Distinct(s)
    ensures |Elements(s)| == |s|
  {
    if s != [] {
      var n := |s| - 1;
      DistinctSize(s[..n]);
      assert Elements(s) == Elements(s[..n]) + {s[n]};
      assert s[n] !in Elements(s[..n]);
    }
  }

  /**
   The stock path cuts a rank's winners off at the row's local length. With distinct
   causal ids the cut never removes one.
   */
  lemma ClampKeepsWinners(c: Layout, ts: seq<nat>, len: nat, r: nat)
    requires c.Valid() && r < c.ranks && Distinct(ts) && forall i :: 0 <= i < |ts| ==> ts[i] < len
    ensures Min(|Winners(c, ts, r)|, LocalLen(c, len, r)) == |Winners(c, ts, r)|
  {
    BucketDistinct(OwnerKey(c), ts, r);
    DistinctSize(Winners(c, ts, r));
    WinnersOwned(c, ts, len, r);
    ClampIsIdle(c, len, r, Elements(Winners(c, ts, r)));
  }

  lemma WinnersOwned(c: Layout, ts: seq<nat>, len: nat, r: nat)
    requires c.Valid() && forall i :: 0 <= i < |ts| ==> ts[i] < len
    ensures forall x :: x in Winners(c, ts, r) ==> x < len && Owner(c, x) == r
  {
    var mine := Winners(c, ts, r);
    forall x | x in mine
      ensures x < len && Owner(c, x) == r
    {
      var i :| 0 <= i < |mine| && mine[i] == x;
      assert mine[i] in ts;
    }
  }

  /** Each rank's winners in the order, whatever it is, in which the filter left them. */
  ghost predicate Arranged(c: Layout, batch: seq<nat>, shards: seq<Shard>, b: nat, ts: seq<nat>, rows: seq<seq<Record>>)
    requires AllHold(c, batch, shards) && b < |batch|
    requires forall i :: 0 <= i < |ts| ==> ts[i] < batch[b]
  {
    |rows| == c.ranks
    && forall r :: 0 <= r < c.ranks ==> multiset(rows[r]) == multiset(LocalReads(c, batch, shards[r], r, b, Winners(c, ts, r)))
  }

  /** `minimum(valid_counts, per_token_lens)` and the mask behind it, on every rank. */
  function Clamped<T>(c: Layout, len: nat, rows: seq<seq<T>>): (cut: seq<seq<T>>)
    requires c.Valid() && |rows| == c.ranks
    ensures |cut| == |rows|
    ensures forall r :: 0 <= r < |cut| ==> cut[r] == rows[r][..Min(|rows[r]|, LocalLen(c, len, r))]
  {
    seq(c.ranks, r requires 0 <= r < c.ranks => rows[r][..Min(|rows[r]|, LocalLen(c, len, r))])
  }

  /** The clamp changes nothing if and only if no rank has more winners than its per-token length. */
  lemma ClampIdleIff<T>(c: Layout, len: nat, rows: seq<seq<T>>)
    requires c.Valid() && |rows| == c.ranks
    ensures Clamped(c, len, rows) == rows <==> forall r :: 0 <= r < c.ranks ==> |rows[r]| <= LocalLen(c, len, r)
  {
    forall r | 0 <= r < c.ranks
      ensures Clamped(c, len, rows)[r] == rows[r] <==> |rows[r]| <= LocalLen(c, len, r)
    {
    }
  }

  /** The stock path: every rank attends to its clamped winners, corrected across ranks. */
  function StockPath(w: Record -> real, v: Record -> real, c: Layout, len: nat, rows: seq<seq<Record>>): Partial
    requires c.Valid() && |rows| == c.ranks
  {
    Combine(AttendRows(w, v, Clamped(c, len, rows)))
  }

  /** With distinct causal ids the clamped winners are all the row's records. */
  lemma ClampedAreRow(c: Layout, batch: seq<nat>, shards: seq<Shard>, b: nat, ts: seq<nat>, len: nat, rows: seq<seq<Record>>)
    requires AllHold(c, batch, shards) && b < |batch| && Distinct(ts)
    requires forall i :: 0 <= i < |ts| ==> ts[i] < batch[b] && ts[i] < len
    requires Arranged(c, batch, shards, b, ts, rows)
    ensures Clamped(c, len, rows) == rows
    ensures multiset(Flatten(rows)) == multiset(Flatten(WinnersReads(c, batch, shards, b, ts)))
  {
    forall r | 0 <= r < c.ranks
      ensures |rows[r]| <= LocalLen(c, len, r)
    {
      ClampKeepsWinners(c, ts, len, r);
      SameSize(rows[r], LocalReads(c, batch, shards[r], r, b, Winners(c, ts, r)));
    }
    ClampIdleIff(c, len, rows);
    FlattenSame(rows, WinnersReads(c, batch, shards, b, ts));
  }

  /**
   Attending with local heads through the compacted slots of the gathered region
   gives the output and denominator of the stock path with its clamp, for every
   schedule of the tiles, every order of the winners, and also when some ranks, or
   all, have no winner. `len` is the row's causal length.
   */
  lemma GatherEqualsStock(c: Layout, batch: seq<nat>, block: nat, shards: seq<Shard>, kv: (nat, nat) -> Record,
                          b: nat, ids: seq<int>, schedule: seq<Step>, len: nat, rows: seq<seq<Record>>,
                          w: Record -> real, v: Record -> real)
    requires Positive(w)
    requires Represents(c, batch, shards, kv) && AllHold(c, batch, shards) && block > 0 && b < |batch| && |ids| % LANES == 0
    requires var tiles := TilesOf(Lanes(c, batch, block, b, ids));
      Exec(tiles, schedule).Some? && Finished(tiles, Exec(tiles, schedule).value)
    requires Distinct(Live(ids, batch[b])) && forall i :: 0 <= i < |Live(ids, batch[b])| ==> Live(ids, batch[b])[i] < len
    requires Arranged(c, batch, shards, b, Live(ids, batch[b]), rows)
    ensures var s := Exec(TilesOf(Lanes(c, batch, block, b, ids)), schedule).value;
      && s.count <= |s.out|
      && Attend(w, v, Reads(Gathered(c, batch, block, shards), s.out[..s.count])) == StockPath(w, v, c, len, rows)
  {
    var ts := Live(ids, batch[b]);
    GatherEqualsUnclamped(c, batch, block, shards, kv, b, ids, schedule, w, v);
    ClampedAreRow(c, batch, shards, b, ts, len, rows);
    CombineAttend(w, v, WinnersReads(c, batch, shards, b, ts));
    CombineAttend(w, v, rows);
    AttendPermuted(w, v, Flatten(rows), Flatten(WinnersReads(c, batch, shards, b, ts)));
  }

  // ---- whole runs -------------------------------------------------------------------

  /** Each layer run of the group gathers its own batch from its own pages. */
  ghost predicate LayerRuns(c: Layout, jobs: StreamRuns.Jobs<Record>, batches: seq<seq<nat>>, shards: seq<seq<Shard>>,
                            kvs: seq<(nat, nat) -> Record>)
  {
    c.Valid() && |jobs| == |batches| == |shards| == |kvs|
    && forall l :: 0 <= l < |jobs| ==>
         AllHold(c, batches[l], shards[l]) && Represents(c, batches[l], shards[l], kvs[l])
         && jobs[l] == Messages(c, batches[l], PAGE, shards[l])
  }

  /**
   In every reachable state of the group, a rank that attends to a row reads, through
   that row's compacted slots, exactly the row's records of the layer it is working on.
   */
  lemma AttendingReadsItsRow(c: Layout, jobs: StreamRuns.Jobs<Record>, batches: seq<seq<nat>>, shards: seq<seq<Shard>>,
                             kvs: seq<(nat, nat) -> Record>, run: seq<StreamRuns.State<Record>>, steps: seq<StreamRuns.Step>,
                             capacity: nat, i: nat, r: nat, b: nat, ids: seq<int>, schedule: seq<Step>)
    requires LayerRuns(c, jobs, batches, shards, kvs)
    requires StreamRuns.IsRun(jobs, run, steps, c.ranks, capacity)
    requires i < |run| && r < |run[i].ranks| && run[i].ranks[r].stage == StreamRuns.Attend
    requires run[i].ranks[r].job < |batches| && b < |batches[run[i].ranks[r].job]| && |ids| % LANES == 0
    requires var tiles := TilesOf(Lanes(c, batches[run[i].ranks[r].job], PAGE, b, ids));
      Exec(tiles, schedule).Some? && Finished(tiles, Exec(tiles, schedule).value)
    ensures var l := run[i].ranks[r].job;
      var s := Exec(TilesOf(Lanes(c, batches[l], PAGE, b, ids)), schedule).value;
      && s.count <= |s.out|
      && multiset(Reads(run[i].ranks[r].gathered, s.out[..s.count]))
      == multiset(Wanted(kvs[l], b, Live(ids, batches[l][b])))
  {
    var k := run[i].ranks[r];
    var l := k.job;
    var s := Exec(TilesOf(Lanes(c, batches[l], PAGE, b, ids)), schedule).value;
    StreamRuns.AttendReadsItsLayer(jobs, run, steps, c.ranks, capacity, i, r);
    GatherRefines(c, batches[l], PAGE, shards[l], kvs[l], b, ids, schedule);
    assert StreamRuns.Size(jobs, l) == |jobs[l][0]| == Padded(c, batches[l], PAGE);
    SamePrefixSameReads(Gathered(c, batches[l], PAGE, shards[l]), k.gathered, s.out[..s.count]);
  }

  lemma SamePrefixSameReads(live: seq<Record>, region: seq<Record>, slots: seq<int>)
    requires |live| <= |region| && region[..|live|] == live
    requires forall p :: 0 <= p < |slots| ==> 0 <= slots[p] < |live|
    ensures Reads(region, slots) == Reads(live, slots)
  {
    forall p | 0 <= p < |slots|
      ensures Reads(region, slots)[p] == Reads(live, slots)[p]
    {
      assert region[..|live|][slots[p]] == live[slots[p]];
    }
  }
}
