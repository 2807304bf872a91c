/**
 The transient full-CKV gather: the metadata that every rank builds, the messages
 it packs, the arena after the all-gather, and the slots through which sparse
 attention reads it.
 */
module CkvGather {
  import opened Seqs
  import opened Sharding
  import opened Compaction

  /** One NVFP4 latent record. */
  type Record = seq<bv8>

  const RECORD_BYTES: nat := 432
  const PAGE: nat := 64
  const LANES: nat := 128
  const BLANK: Record := seq(RECORD_BYTES, _ => 0)

  // ---- one rank's paged cache --------------------------------------------------

  /** `table[b][j]` is the page with local tokens `64 j ..` of request `b`. */
  datatype Shard = Shard(pages: seq<seq<Record>>, table: seq<seq<int>>)

  predicate Readable(sh: Shard, b: nat, i: nat) {
    b < |sh.table| && i / PAGE < |sh.table[b]|
    && 0 <= sh.table[b][i / PAGE] < |sh.pages|
    && |sh.pages[sh.table[b][i / PAGE]]| == PAGE
  }

  function At(sh: Shard, b: nat, i: nat): (rec: Record)
    requires Readable(sh, b, i)
    ensures rec == sh.pages[sh.table[b][i / 64]][i % 64]
  {
    sh.pages[sh.table[b][i / PAGE]][i % PAGE]
  }

  /** Rank `r`'s pages hold exactly its share of the logical cache `kv`. */
  ghost predicate Represents(c: Layout, batch: seq<nat>, shards: seq<Shard>, kv: (nat, nat) -> Record) {
    c.Valid() && |shards| == c.ranks
    && forall r, b, i | 0 <= r < c.ranks && 0 <= b < |batch| && 0 <= i < LocalLen(c, batch[b], r) ::
         Readable(shards[r], b, i) && At(shards[r], b, i) == kv(b, ToGlobal(c, i, r))
  }

  // ---- metadata ----------------------------------------------------------------

  /** Row `rank` of `dcp_rank_req_lens`. */
  function ReqLens(c: Layout, batch: seq<nat>, rank: nat): (s: seq<nat>)
    requires c.Valid()
    ensures |s| == |batch| && forall b :: 0 <= b < |s| ==> s[b] == LocalLen(c, batch[b], rank)
  {
    seq(|batch|, b requires 0 <= b < |batch| => LocalLen(c, batch[b], rank))
  }

  function Totals(c: Layout, batch: seq<nat>): (s: seq<nat>)
    requires c.Valid()
    ensures |s| == c.ranks && forall r :: 0 <= r < |s| ==> s[r] == Sum(ReqLens(c, batch, r))
  {
    seq(c.ranks, r requires 0 <= r < c.ranks => Sum(ReqLens(c, batch, r)))
  }

  /** `dcp_padded_total_tokens` */
  function Padded(c: Layout, batch: seq<nat>, block: nat): nat
    requires c.Valid() && block > 0
  {
    RoundUp(MaxOf(Totals(c, batch)), block)
  }

  lemma TotalFits(c: Layout, batch: seq<nat>, block: nat, rank: nat)
    requires c.Valid() && block > 0 && rank < c.ranks
    ensures Sum(ReqLens(c, batch, rank)) <= Padded(c, batch, block)
  {
    MaxOfBounds(Totals(c, batch));
    RoundUpLeast(MaxOf(Totals(c, batch)), block);
    assert Totals(c, batch)[rank] <= MaxOf(Totals(c, batch));
  }

  /** The padded size is the least whole number of pages that holds every rank's total. */
  lemma PaddedExact(c: Layout, batch: seq<nat>, block: nat)
    requires c.Valid() && block > 0
    ensures Padded(c, batch, block) % block == 0
    ensures forall r :: 0 <= r < c.ranks ==> Sum(ReqLens(c, batch, r)) <= Padded(c, batch, block)
    ensures forall k: nat :: (forall r :: 0 <= r < c.ranks ==> Sum(ReqLens(c, batch, r)) <= k * block) ==>
      Padded(c, batch, block) <= k * block
  {
    var totals := Totals(c, batch);
    MaxOfBounds(totals);
    RoundUpLeast(MaxOf(totals), block);
    forall r | 0 <= r < c.ranks
      ensures Sum(ReqLens(c, batch, r)) <= Padded(c, batch, block)
    {
      TotalFits(c, batch, block, r);
    }
    forall k: nat | forall r :: 0 <= r < c.ranks ==> Sum(ReqLens(c, batch, r)) <= k * block
      ensures Padded(c, batch, block) <= k * block
    {
      var r :| 0 <= r < |totals| && totals[r] == MaxOf(totals);
      assert Sum(ReqLens(c, batch, r)) <= k * block;
    }
  }

  // ---- messages and the gathered region ------------------------------------------

  function Row(c: Layout, batch: seq<nat>, sh: Shard, rank: nat, b: nat): (s: seq<Record>)
    requires c.Valid() && b < |batch|
    requires forall i :: 0 <= i < LocalLen(c, batch[b], rank) ==> Readable(sh, b, i)
    ensures |s| == LocalLen(c, batch[b], rank)
    ensures forall i :: 0 <= i < |s| ==> s[i] == At(sh, b, i)
  {
    seq(LocalLen(c, batch[b], rank), i requires 0 <= i < LocalLen(c, batch[b], rank) => At(sh, b, i))
  }

  ghost predicate Holds(c: Layout, batch: seq<nat>, sh: Shard, rank: nat) {
    c.Valid() &&
    forall b, i :: 0 <= b < |batch| && 0 <= i < LocalLen(c, batch[b], rank) ==> Readable(sh, b, i)
  }

  function Rows(c: Layout, batch: seq<nat>, sh: Shard, rank: nat): (s: seq<seq<Record>>)
    requires Holds(c, batch, sh, rank)
    ensures |s| == |batch| && forall b :: 0 <= b < |s| ==> s[b] == Row(c, batch, sh, rank, b)
  {
    seq(|batch|, b requires 0 <= b < |batch| => Row(c, batch, sh, rank, b))
  }

  lemma RowsLength(c: Layout, batch: seq<nat>, sh: Shard, rank: nat)
    requires Holds(c, batch, sh, rank)
    ensures Lengths(Rows(c, batch, sh, rank)) == ReqLens(c, batch, rank)
    ensures |Flatten(Rows(c, batch, sh, rank))| == Sum(ReqLens(c, batch, rank))
  {
    assert Lengths(Rows(c, batch, sh, rank)) == ReqLens(c, batch, rank);
    FlattenLength(Rows(c, batch, sh, rank));
  }

  /** What a rank contributes: its requests' tokens back to back, zero-padded. */
  function Message(c: Layout, batch: seq<nat>, block: nat, sh: Shard, rank: nat): (m: seq<Record>)
    requires Holds(c, batch, sh, rank) && block > 0 && rank < c.ranks
    ensures |m| == Padded(c, batch, block)
  {
    RowsLength(c, batch, sh, rank);
    TotalFits(c, batch, block, rank);
    var packed := Flatten(Rows(c, batch, sh, rank));
    packed + seq(Padded(c, batch, block) - |packed|, _ => BLANK)
  }

  ghost predicate AllHold(c: Layout, batch: seq<nat>, shards: seq<Shard>) {
    c.Valid() && |shards| == c.ranks && forall r :: 0 <= r < c.ranks ==> Holds(c, batch, shards[r], r)
  }

  function Messages(c: Layout, batch: seq<nat>, block: nat, shards: seq<Shard>): (ms: seq<seq<Record>>)
    requires AllHold(c, batch, shards) && block > 0
    ensures |ms| == c.ranks
    ensures forall r :: 0 <= r < |ms| ==> ms[r] == Message(c, batch, block, shards[r], r)
  {
    seq(c.ranks, r requires 0 <= r < c.ranks => Message(c, batch, block, shards[r], r))
  }

  /** Rank-major concatenation: the live prefix of the gathered region. */
  function Gathered(c: Layout, batch: seq<nat>, block: nat, shards: seq<Shard>): seq<Record>
    requires AllHold(c, batch, shards) && block > 0
  {
    Flatten(Messages(c, batch, block, shards))
  }

  // ---- slots ---------------------------------------------------------------------

  function Slot(c: Layout, batch: seq<nat>, block: nat, b: nat, t: nat): nat
    requires c.Valid() && block > 0 && b < |batch|
  {
    var owner := Owner(c, t);
    Region(owner, Padded(c, batch, block)) + Start(ReqLens(c, batch, owner), b) + ToLocal(c, t)
  }

  /** A live token's place inside its owner's message. */
  lemma PlaceInMessage(c: Layout, batch: seq<nat>, block: nat, b: nat, t: nat)
    requires c.Valid() && block > 0 && b < |batch| && t < batch[b]
    ensures Owner(c, t) < c.ranks
    ensures var lens := ReqLens(c, batch, Owner(c, t));
      && ToLocal(c, t) < lens[b]
      && Start(lens, b) + lens[b] <= Sum(lens) <= Padded(c, batch, block)
  {
    InRange(c, t, batch[b]);
    var lens := ReqLens(c, batch, Owner(c, t));
    StartStep(lens, b);
    StartMono(lens, b + 1, |lens|);
    assert lens[..|lens|] == lens;
    TotalFits(c, batch, block, Owner(c, t));
  }

  lemma SlotInRange(c: Layout, batch: seq<nat>, block: nat, b: nat, t: nat)
    requires c.Valid() && block > 0 && b < |batch| && t < batch[b]
    ensures Slot(c, batch, block, b, t) < c.ranks * Padded(c, batch, block)
  {
    PlaceInMessage(c, batch, block, b, t);
    RegionBound(Owner(c, t), c.ranks, Padded(c, batch, block),
                Start(ReqLens(c, batch, Owner(c, t)), b) + ToLocal(c, t));
  }

  lemma RegionBound(r: nat, n: nat, size: nat, x: nat)
    requires r < n && x < size
    ensures Region(r, size) + x < n * size
  {
    MulMono(r + 1, n, size);
    Distribute(r, 1, size);
  }

  /** Two live tokens, of any requests and ranks, never share a slot. */
  lemma SlotInjective(c: Layout, batch: seq<nat>, block: nat, b: nat, t: nat, b': nat, t': nat)
    requires c.Valid() && block > 0
    requires b < |batch| && t < batch[b] && b' < |batch| && t' < batch[b']
    requires Slot(c, batch, block, b, t) == Slot(c, batch, block, b', t')
    ensures b == b' && t == t'
  {
    PlaceInMessage(c, batch, block, b, t);
    PlaceInMessage(c, batch, block, b', t');
    var p, r, r' := Padded(c, batch, block), Owner(c, t), Owner(c, t');
    var lens, lens' := ReqLens(c, batch, r), ReqLens(c, batch, r');
    DivUnique(Slot(c, batch, block, b, t), p, r, Start(lens, b) + ToLocal(c, t));
    DivUnique(Slot(c, batch, block, b', t'), p, r', Start(lens', b') + ToLocal(c, t'));
    var lo, hi := Min(b, b'), Max(b, b');
    if lo < hi {
      StartStep(lens, lo);
      StartMono(lens, lo + 1, hi);
    }
    LocalOfGlobal(c, t);
    LocalOfGlobal(c, t');
  }

  lemma RepresentsHolds(c: Layout, batch: seq<nat>, shards: seq<Shard>, kv: (nat, nat) -> Record)
    requires Represents(c, batch, shards, kv)
    ensures AllHold(c, batch, shards)
  {
  }

  /** Reading a live token's slot yields that token's record of the logical cache. */
  lemma SlotReads(c: Layout, batch: seq<nat>, block: nat, shards: seq<Shard>, kv: (nat, nat) -> Record, b: nat, t: nat)
    requires Represents(c, batch, shards, kv) && AllHold(c, batch, shards)
    requires block > 0 && b < |batch| && t < batch[b]
    ensures Slot(c, batch, block, b, t) < |Gathered(c, batch, block, shards)|
    ensures Gathered(c, batch, block, shards)[Slot(c, batch, block, b, t)] == kv(b, t)
  {
    PlaceInMessage(c, batch, block, b, t);
    var r, i := Owner(c, t), ToLocal(c, t);
    MessageAt(c, batch, block, shards[r], r, b, i);
    EntryOfUniform(Messages(c, batch, block, shards), Padded(c, batch, block), r, Start(ReqLens(c, batch, r), b) + i);
    LocalOfGlobal(c, t);
  }

  lemma MessageAt(c: Layout, batch: seq<nat>, block: nat, sh: Shard, rank: nat, b: nat, i: nat)
    requires Holds(c, batch, sh, rank) && block > 0 && rank < c.ranks
    requires b < |batch| && i < LocalLen(c, batch[b], rank)
    ensures Start(ReqLens(c, batch, rank), b) + i < Padded(c, batch, block)
    ensures Message(c, batch, block, sh, rank)[Start(ReqLens(c, batch, rank), b) + i] == At(sh, b, i)
    ensures At(sh, b, i) == sh.pages[sh.table[b][i / 64]][i % 64]
  {
    var rows := Rows(c, batch, sh, rank);
    RowsLength(c, batch, sh, rank);
    TotalFits(c, batch, block, rank);
    EntryOf(rows, b, i);
    assert rows[b] == Row(c, batch, sh, rank, b);
  }

  /** Behind a rank's tokens its message is zero bytes, 432 to a record. */
  lemma MessageTail(c: Layout, batch: seq<nat>, block: nat, sh: Shard, rank: nat, x: nat)
    requires Holds(c, batch, sh, rank) && block > 0 && rank < c.ranks
    requires Sum(ReqLens(c, batch, rank)) <= x < Padded(c, batch, block)
    ensures |Message(c, batch, block, sh, rank)[x]| == 432
    ensures forall j :: 0 <= j < 432 ==> Message(c, batch, block, sh, rank)[x][j] == 0
  {
    RowsLength(c, batch, sh, rank);
  }

  /** Entry `i` of part `b` of a concatenation. */
  lemma EntryOf<T>(rows: seq<seq<T>>, b: nat, i: nat)
    requires b < |rows| && i < |rows[b]|
    ensures Start(Lengths(rows), b) + i < |Flatten(rows)|
    ensures Flatten(rows)[Start(Lengths(rows), b) + i] == rows[b][i]
  {
    FlattenAt(rows, b);
    var s := Start(Lengths(rows), b);
    assert Flatten(rows)[s..s + |rows[b]|][i] == rows[b][i];
  }

  /** Entry `i` of message `r` when all messages have one size. */
  lemma EntryOfUniform<T>(ms: seq<seq<T>>, size: nat, r: nat, i: nat)
    requires r < |ms| && i < size && forall j :: 0 <= j < |ms| ==> |ms[j]| == size
    ensures Region(r, size) + i < |Flatten(ms)| && Flatten(ms)[Region(r, size) + i] == ms[r][i]
  {
    FlattenUniform(ms, size, r);
    assert Flatten(ms)[r * size..r * size + size][i] == ms[r][i];
  }

  // ---- the kernel's translation ----------------------------------------------------

  /** One lane of the mapping kernel, from the metadata tensors it loads. */
  function Lane(c: Layout, lens: seq<seq<nat>>, starts: seq<seq<nat>>, padded: nat, b: nat, tok: int): Option<int>
    requires c.Valid() && |lens| == |starts| == c.ranks
    requires forall r :: 0 <= r < c.ranks ==> b < |lens[r]| && b < |starts[r]|
  {
    if tok < 0 then None
    else
      LocalOfGlobal(c, tok);
      var owner, local := Owner(c, tok), ToLocal(c, tok);
      if local < lens[owner][b] then Some(owner * padded + starts[owner][b] + local) else None
  }

  function LensTable(c: Layout, batch: seq<nat>): (s: seq<seq<nat>>)
    requires c.Valid()
    ensures |s| == c.ranks && forall r :: 0 <= r < |s| ==> s[r] == ReqLens(c, batch, r)
  {
    seq(c.ranks, r requires 0 <= r < c.ranks => ReqLens(c, batch, r))
  }

  function Starts(lens: seq<nat>): (s: seq<nat>)
    ensures |s| == |lens| && forall b :: 0 <= b < |s| ==> s[b] == Start(lens, b)
  {
    seq(|lens|, b requires 0 <= b < |lens| => Start(lens, b))
  }

  function StartsTable(c: Layout, batch: seq<nat>): (s: seq<seq<nat>>)
    requires c.Valid()
    ensures |s| == c.ranks && forall r :: 0 <= r < |s| ==> s[r] == Starts(ReqLens(c, batch, r))
  {
    seq(c.ranks, r requires 0 <= r < c.ranks => Starts(ReqLens(c, batch, r)))
  }

  function LaneOf(c: Layout, batch: seq<nat>, block: nat, b: nat, tok: int): Option<int>
    requires c.Valid() && block > 0 && b < |batch|
  {
    Lane(c, LensTable(c, batch), StartsTable(c, batch), Padded(c, batch, block), b, tok)
  }

  /** The lane keeps exactly the non-negative ids below the request's global length. */
  lemma LaneMeaning(c: Layout, batch: seq<nat>, block: nat, b: nat, tok: int)
    requires c.Valid() && block > 0 && b < |batch|
    ensures LaneOf(c, batch, block, b, tok)
         == if 0 <= tok < batch[b] then Some(Slot(c, batch, block, b, tok)) else None
  {
    if tok >= 0 {
      InRange(c, tok, batch[b]);
    }
  }

  function Lanes(c: Layout, batch: seq<nat>, block: nat, b: nat, ids: seq<int>): (s: Tile)
    requires c.Valid() && block > 0 && b < |batch|
    ensures |s| == |ids| && forall k :: 0 <= k < |s| ==> s[k] == LaneOf(c, batch, block, b, ids[k])
  {
    seq(|ids|, k requires 0 <= k < |ids| => LaneOf(c, batch, block, b, ids[k]))
  }

  /** A row cut into tiles of 128 lanes. */
  function TilesOf(row: Tile): (tiles: seq<Tile>)
    requires |row| % LANES == 0
    ensures Flatten(tiles) == row
  {
    if row == [] then []
    else
      var n := |row| - LANES;
      var tiles := TilesOf(row[..n]) + [row[n..]];
      assert row[..n] + row[n..] == row;
      tiles
  }

  lemma {:induction false} KeptConcat(a: Tile, b: Tile)
    ensures Kept(a + b) == Kept(a) + Kept(b)
  {
    if b == [] {
      assert a + b == a;
    } else {
      var n := |b| - 1;
      assert (a + b)[..|a + b| - 1] == a + b[..n];
      KeptConcat(a, b[..n]);
    }
  }

  lemma {:induction false} KeptFlatten(tiles: seq<Tile>)
    ensures Flatten(KeptAll(tiles)) == Kept(Flatten(tiles))
  {
    if tiles != [] {
      var n := |tiles| - 1;
      KeptFlatten(tiles[..n]);
      assert KeptAll(tiles)[..n] == KeptAll(tiles[..n]);
      KeptConcat(Flatten(tiles[..n]), tiles[n]);
    }
  }

  /** The ids of a row that name a live token. */
  function Live(ids: seq<int>, len: nat): (r: seq<nat>)
    ensures forall i :: 0 <= i < |r| ==> r[i] < len
  {
    if ids == [] then []
    else
      var last := ids[|ids| - 1];
      Live(ids[..|ids| - 1], len) + (if 0 <= last < len then [last] else [])
  }

  function SlotsOf(c: Layout, batch: seq<nat>, block: nat, b: nat, ts: seq<nat>): (r: seq<int>)
    requires c.Valid() && block > 0 && b < |batch|
    ensures |r| == |ts| && forall i :: 0 <= i < |r| ==> r[i] == Slot(c, batch, block, b, ts[i])
  {
    seq(|ts|, i requires 0 <= i < |ts| => Slot(c, batch, block, b, ts[i]))
  }

  lemma {:induction false} KeptLanes(c: Layout, batch: seq<nat>, block: nat, b: nat, ids: seq<int>)
    requires c.Valid() && block > 0 && b < |batch|
    ensures Kept(Lanes(c, batch, block, b, ids)) == SlotsOf(c, batch, block, b, Live(ids, batch[b]))
  {
    if ids != [] {
      var n := |ids| - 1;
      KeptLanes(c, batch, block, b, ids[..n]);
      LaneMeaning(c, batch, block, b, ids[n]);
      assert Lanes(c, batch, block, b, ids)[..n] == Lanes(c, batch, block, b, ids[..n]);
    }
  }

  // ---- the refinement ---------------------------------------------------------------

  /** The records attention reads through a list of slots. */
  function Reads(cache: seq<Record>, slots: seq<int>): seq<Record> {
    Map(s => if 0 <= s < |cache| then cache[s] else BLANK, slots)
  }

  lemma ReadsWanted(c: Layout, batch: seq<nat>, block: nat, shards: seq<Shard>, kv: (nat, nat) -> Record, b: nat, ts: seq<nat>)
    requires Represents(c, batch, shards, kv) && AllHold(c, batch, shards)
    requires block > 0 && b < |batch| && forall i :: 0 <= i < |ts| ==> ts[i] < batch[b]
    ensures Reads(Gathered(c, batch, block, shards), SlotsOf(c, batch, block, b, ts)) == Wanted(kv, b, ts)
  {
    var cache, slots := Gathered(c, batch, block, shards), SlotsOf(c, batch, block, b, ts);
    forall i | 0 <= i < |ts|
      ensures Reads(cache, slots)[i] == Wanted(kv, b, ts)[i]
    {
      SlotReads(c, batch, block, shards, kv, b, ts[i]);
    }
  }

  lemma KeptAreSlots(c: Layout, batch: seq<nat>, block: nat, b: nat, ids: seq<int>)
    requires c.Valid() && block > 0 && b < |batch| && |ids| % LANES == 0
    ensures Width(TilesOf(Lanes(c, batch, block, b, ids))) == |ids|
    ensures Flatten(KeptAll(TilesOf(Lanes(c, batch, block, b, ids)))) == SlotsOf(c, batch, block, b, Live(ids, batch[b]))
  {
    KeptFlatten(TilesOf(Lanes(c, batch, block, b, ids)));
    KeptLanes(c, batch, block, b, ids);
  }

  /** A finished launch has compacted exactly the slots of the row's live ids. */
  lemma FinishedSlots(c: Layout, batch: seq<nat>, block: nat, b: nat, ids: seq<int>, s: State)
    requires c.Valid() && block > 0 && b < |batch| && |ids| % LANES == 0
    requires Inv(TilesOf(Lanes(c, batch, block, b, ids)), s) && Finished(TilesOf(Lanes(c, batch, block, b, ids)), s)
    ensures s.count <= |s.out| == |ids|
    ensures multiset(s.out[..s.count]) == multiset(SlotsOf(c, batch, block, b, Live(ids, batch[b])))
  {
    FinishedContents(TilesOf(Lanes(c, batch, block, b, ids)), s);
    KeptAreSlots(c, batch, block, b, ids);
  }

  /**
   End to end, for every batch, layout, block table, top-k row and tile schedule:
   attending through the compacted slots of the gathered region reads exactly the
   records of the row's live ids, and never a slot outside the live prefix.
   */
  lemma GatherRefines(c: Layout, batch: seq<nat>, block: nat, shards: seq<Shard>, kv: (nat, nat) -> Record,
                      b: nat, ids: seq<int>, schedule: seq<Step>)
    requires Represents(c, batch, shards, kv) && block > 0 && b < |batch| && |ids| % LANES == 0
    requires var tiles := TilesOf(Lanes(c, batch, block, b, ids));
      Exec(tiles, schedule).Some? && Finished(tiles, Exec(tiles, schedule).value)
    ensures AllHold(c, batch, shards)
    ensures var s := Exec(TilesOf(Lanes(c, batch, block, b, ids)), schedule).value;
      && s.count == |Live(ids, batch[b])| <= |s.out| == |ids|
      && (forall p :: 0 <= p < s.count ==> 0 <= s.out[p] < c.ranks * Padded(c, batch, block))
      && (forall p :: s.count <= p < |s.out| ==> s.out[p] == -1)
      && multiset(Reads(Gathered(c, batch, block, shards), s.out[..s.count]))
      == multiset(Wanted(kv, b, Live(ids, batch[b])))
  {
    var tiles := TilesOf(Lanes(c, batch, block, b, ids));
    RepresentsHolds(c, batch, shards, kv);
    ReachableInv(tiles, schedule);
    var s := Exec(tiles, schedule).value;
    FinishedSlots(c, batch, block, b, ids, s);
    SlotsBelow(c, batch, block, b, Live(ids, batch[b]), s.out[..s.count]);
    ReadsOfSlots(c, batch, block, shards, kv, b, Live(ids, batch[b]), s.out[..s.count]);
    assert forall p :: 0 <= p < s.count ==> s.out[p] == s.out[..s.count][p];
  }

  lemma SlotsBelow(c: Layout, batch: seq<nat>, block: nat, b: nat, ts: seq<nat>, out: seq<int>)
    requires c.Valid() && block > 0 && b < |batch| && forall i :: 0 <= i < |ts| ==> ts[i] < batch[b]
    requires multiset(out) == multiset(SlotsOf(c, batch, block, b, ts))
    ensures |out| == |ts| && forall p :: 0 <= p < |out| ==> 0 <= out[p] < c.ranks * Padded(c, batch, block)
  {
    var slots := SlotsOf(c, batch, block, b, ts);
    SameSize(out, slots);
    forall p | 0 <= p < |out|
      ensures 0 <= out[p] < c.ranks * Padded(c, batch, block)
    {
      assert out[p] in multiset(slots);
      var i :| 0 <= i < |slots| && slots[i] == out[p];
      SlotInRange(c, batch, block, b, ts[i]);
    }
  }

  /** Whatever the order of the slots, the records read are those of the tokens. */
  lemma ReadsOfSlots(c: Layout, batch: seq<nat>, block: nat, shards: seq<Shard>, kv: (nat, nat) -> Record, b: nat,
                     ts: seq<nat>, out: seq<int>)
    requires Represents(c, batch, shards, kv) && AllHold(c, batch, shards)
    requires block > 0 && b < |batch| && forall i :: 0 <= i < |ts| ==> ts[i] < batch[b]
    requires multiset(out) == multiset(SlotsOf(c, batch, block, b, ts))
    ensures multiset(Reads(Gathered(c, batch, block, shards), out)) == multiset(Wanted(kv, b, ts))
  {
    var cache := Gathered(c, batch, block, shards);
    ReadsWanted(c, batch, block, shards, kv, b, ts);
    MapPermuted(x => if 0 <= x < |cache| then cache[x] else BLANK, out, SlotsOf(c, batch, block, b, ts));
  }
}
