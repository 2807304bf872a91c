/**
 What happens to the merged selection: ids are gathered by position in place, each
 rank keeps the winners it owns as local indices, and the candidates of all ranks
 are unpacked from the flat all-gather buffer.
 */
module TopkRemap {
  import opened Seqs
  import opened Sharding
  import opened TopkMerge

  // ---- gathering ids by position ---------------------------------------------------

  /**
   The end of `_merge_b12x_dcp_topk`: `topk` comes in as selected candidate
   positions and is overwritten with the ids at those positions.
   */
  method GatherIdsByPosition(c: Layout, ghost row: seq<Score>, locals: seq<Local>, k: nat, topk: array<int>)
    requires Locals(c, row, locals, k) && IsTopK(Scores(Candidates(c, locals, k)), topk[..], k)
    modifies topk
    ensures MergeOf(c, row, locals, k, old(topk[..])) && topk[..] == Merged(Candidates(c, locals, k), old(topk[..]))
    ensures NothingToLose(c, row, k) ==> IsTopK(row, topk[..], k)
  {
    ghost var pos := topk[..];
    PositionsReal(c, row, locals, k, pos);
    if NothingToLose(c, row, k) {
      MergeExact(c, row, locals, k, pos);
    }
    var cands := Candidates(c, locals, k);
    for i := 0 to topk.Length
      invariant forall j :: 0 <= j < i ==> topk[j] == cands[pos[j]].id
      invariant forall j :: i <= j < topk.Length ==> topk[j] == pos[j]
    {
      topk[i] := cands[topk[i]].id;
    }
    assert topk[..] == Merged(cands, pos);
  }

  // ---- finalizing on one rank ---------------------------------------------------------

  /** `where(mine, local, -1)` */
  function Keep(c: Layout, rank: nat, g: int): int
    requires c.Valid()
  {
    if g >= 0 && Owner(c, g) == rank then ToLocal(c, g) else -1
  }

  function KeepAll(c: Layout, rank: nat, sel: seq<int>): (s: seq<int>)
    requires c.Valid()
    ensures |s| == |sel| && forall i :: 0 <= i < |s| ==> s[i] == Keep(c, rank, sel[i])
  {
    seq(|sel|, i requires 0 <= i < |sel| => Keep(c, rank, sel[i]))
  }

  /** `_dcp_finalize_topk_remap`: overwrites the row with this rank's winners. */
  method FinalizeRemap(c: Layout, rank: nat, cands: seq<Packed>, selected: seq<int>, topk: array<int>)
    requires c.Valid() && topk.Length == |selected|
    requires forall i :: 0 <= i < |selected| ==> 0 <= selected[i] < |cands|
    modifies topk
    ensures topk[..] == KeepAll(c, rank, Merged(cands, selected))
    ensures forall i :: 0 <= i < topk.Length ==>
      topk[i] == -1 || (0 <= topk[i] && Mine(c, rank, cands[selected[i]].id) && ToGlobal(c, topk[i], rank) == cands[selected[i]].id)
    ensures forall i :: 0 <= i < topk.Length && Mine(c, rank, cands[selected[i]].id) ==> topk[i] >= 0
  {
    for i := 0 to topk.Length
      invariant forall j :: 0 <= j < i ==> topk[j] == Keep(c, rank, cands[selected[j]].id)
    {
      topk[i] := Keep(c, rank, cands[selected[i]].id);
    }
    forall i | 0 <= i < topk.Length
      ensures topk[i] == -1 || (0 <= topk[i] && Mine(c, rank, cands[selected[i]].id) && ToGlobal(c, topk[i], rank) == cands[selected[i]].id)
      ensures Mine(c, rank, cands[selected[i]].id) ==> topk[i] >= 0
    {
      KeepExact(c, rank, cands[selected[i]].id);
    }
  }

  /** The id names a token that the rank owns. */
  predicate Mine(c: Layout, rank: nat, g: int)
    requires c.Valid()
  {
    g >= 0 && Owner(c, g) == rank
  }

  /** What is kept is -1, or the local index, of an owned token, that leads back to it. */
  lemma KeepExact(c: Layout, rank: nat, g: int)
    requires c.Valid()
    ensures Keep(c, rank, g) == -1 <==> g < 0 || Owner(c, g) != rank
    ensures Keep(c, rank, g) != -1 ==> Keep(c, rank, g) >= 0 && ToGlobal(c, Keep(c, rank, g), rank) == g
  {
    if g >= 0 {
      LocalOfGlobal(c, g);
    }
  }

  /** A selected token survives on its owner, as the local index that leads back to it, and nowhere else. */
  lemma SurvivesOnce(c: Layout, g: nat, rank: nat)
    requires c.Valid() && rank < c.ranks
    ensures Keep(c, rank, g) >= 0 <==> rank == Owner(c, g)
    ensures Keep(c, rank, g) >= 0 ==> ToGlobal(c, Keep(c, rank, g), rank) == g
    ensures Owner(c, g) < c.ranks && Keep(c, Owner(c, g), g) >= 0
  {
    LocalOfGlobal(c, g);
  }

  /** How many entries name a token. */
  function Named(sel: seq<int>): nat {
    if sel == [] then 0 else Named(sel[..|sel| - 1]) + (if sel[|sel| - 1] >= 0 then 1 else 0)
  }

  lemma {:induction false} NamedCounts(sel: seq<int>)
    ensures Named(sel) == |set i | 0 <= i < |sel| && sel[i] >= 0|
  {
    var all := set i | 0 <= i < |sel| && sel[i] >= 0;
    if sel != [] {
      var n := |sel| - 1;
      NamedCounts(sel[..n]);
      var rest := set i | 0 <= i < n && sel[..n][i] >= 0;
      assert all == rest + (if sel[n] >= 0 then {n} else {});
      assert n !in rest;
    } else {
      assert all == {};
    }
  }

  function NamedPerRank(c: Layout, sel: seq<int>): (s: seq<nat>)
    requires c.Valid()
    ensures |s| == c.ranks && forall r :: 0 <= r < |s| ==> s[r] == Named(KeepAll(c, r, sel))
  {
    seq(c.ranks, r requires 0 <= r < c.ranks => Named(KeepAll(c, r, sel)))
  }

  /** Over all ranks, exactly the valid selections survive. */
  lemma {:induction false} OwnershipConserved(c: Layout, sel: seq<int>)
    requires c.Valid()
    ensures Sum(NamedPerRank(c, sel)) == Named(sel)
  {
    var per := NamedPerRank(c, sel);
    if sel == [] {
      SumZeros(per);
    } else {
      var n := |sel| - 1;
      OwnershipConserved(c, sel[..n]);
      forall r: nat | r < c.ranks
        ensures per[r] == NamedPerRank(c, sel[..n])[r] + (if Keep(c, r, sel[n]) >= 0 then 1 else 0)
      {
        assert KeepAll(c, r, sel)[..n] == KeepAll(c, r, sel[..n]);
      }
      OneMore(c, sel[n], NamedPerRank(c, sel[..n]), per);
    }
  }

  lemma OneMore(c: Layout, g: int, before: seq<nat>, after: seq<nat>)
    requires c.Valid() && |before| == |after| == c.ranks
    requires forall r :: 0 <= r < c.ranks ==> after[r] == before[r] + (if Keep(c, r, g) >= 0 then 1 else 0)
    ensures Sum(after) == Sum(before) + (if g >= 0 then 1 else 0)
  {
    if g >= 0 {
      LocalOfGlobal(c, g);
      SumBump(before, after, Owner(c, g));
    } else {
      assert after == before;
    }
  }

  // ---- unpacking the all-gather buffer ----------------------------------------------------

  const BLOCK_K: nat := 1024

  /** The sizes of one exchange: ranks, rows and entries per rank. */
  datatype Sizes = Sizes(ranks: nat, rows: nat, k: nat) {
    function Width(): nat { ranks * k }
  }

  /** Flat address of entry `j` of plane 0 (ids) or 1 (score bits), `[rank, row, plane, j]`. */
  function Source(z: Sizes, rank: nat, row: nat, plane: nat, j: nat): nat {
    ((rank * z.rows + row) * 2 + plane) * z.k + j
  }

  /** Flat address of candidate `p` of a row in the unpacked tables. */
  function Target(z: Sizes, row: nat, p: nat): nat { row * z.Width() + p }

  lemma Flat(a: nat, b: nat, n: nat, m: nat)
    requires a < n && b < m
    ensures 0 <= a * m + b < n * m
  {
    MulMono(0, a, m);
    MulMono(a + 1, n, m);
    assert (a + 1) * m == a * m + m;
  }

  lemma SourceInRange(z: Sizes, rank: nat, row: nat, plane: nat, j: nat)
    requires rank < z.ranks && row < z.rows && plane < 2 && j < z.k
    ensures Source(z, rank, row, plane, j) < z.ranks * z.rows * 2 * z.k
  {
    Flat(rank, row, z.ranks, z.rows);
    Flat(rank * z.rows + row, plane, z.ranks * z.rows, 2);
    Flat((rank * z.rows + row) * 2 + plane, j, z.ranks * z.rows * 2, z.k);
  }

  /** Two cells of the tables share an address only if they are the same cell. */
  lemma TargetInjective(z: Sizes, row: nat, p: nat, row': nat, p': nat)
    requires p < z.Width() && p' < z.Width()
    requires Target(z, row, p) == Target(z, row', p')
    ensures row == row' && p == p'
  {
    DivUnique(Target(z, row, p), z.Width(), row, p);
    DivUnique(Target(z, row', p'), z.Width(), row', p');
  }

  /** Row `row` of both tables holds every rank's entries of that row, rank by rank. */
  ghost predicate RowUnpacked(z: Sizes, gathered: seq<int>, ids: seq<int>, scores: seq<int>, row: nat)
    requires |gathered| == z.ranks * z.rows * 2 * z.k && |ids| == |scores| == z.rows * z.Width()
  {
    row < z.rows && forall p :: 0 <= p < z.Width() ==> CellUnpacked(z, gathered, ids, scores, row, p)
  }

  ghost predicate CellUnpacked(z: Sizes, gathered: seq<int>, ids: seq<int>, scores: seq<int>, row: nat, p: nat)
    requires |gathered| == z.ranks * z.rows * 2 * z.k && |ids| == |scores| == z.rows * z.Width()
    requires row < z.rows && p < z.Width()
  {
    Flat(row, p, z.rows, z.Width());
    z.k > 0 && (
      RankOf(p, z.ranks, z.k);
      SourceInRange(z, p / z.k, row, 0, p % z.k);
      SourceInRange(z, p / z.k, row, 1, p % z.k);
      ids[Target(z, row, p)] == gathered[Source(z, p / z.k, row, 0, p % z.k)]
      && scores[Target(z, row, p)] == gathered[Source(z, p / z.k, row, 1, p % z.k)])
  }

  /** The lane that writes a cell is unique: tile and lane are quotient and remainder. */
  lemma TilesCoverOnce(width: nat, p: nat, tile: nat, lane: nat)
    requires p < width && lane < BLOCK_K
    ensures p / BLOCK_K < CeilDiv(width, BLOCK_K) && p % BLOCK_K < BLOCK_K
    ensures p == tile * BLOCK_K + lane <==> tile == p / BLOCK_K && lane == p % BLOCK_K
  {
    RoundUpLeast(width, BLOCK_K);
    RankOf(p, CeilDiv(width, BLOCK_K), BLOCK_K);
    if p == tile * BLOCK_K + lane {
      DivUnique(p, BLOCK_K, tile, lane);
    }
  }

  /** The kernel: one program per row and tile of 1024 lanes, on flat addresses. */
  method UnpackTiled(z: Sizes, gathered: seq<int>, ids: array<int>, scores: array<int>)
    requires z.k > 0 && ids != scores
    requires |gathered| == z.ranks * z.rows * 2 * z.k && ids.Length == scores.Length == z.rows * z.Width()
    modifies ids, scores
    ensures forall row :: 0 <= row < z.rows ==> RowUnpacked(z, gathered, ids[..], scores[..], row)
  {
    var tiles := CeilDiv(z.Width(), BLOCK_K);
    RoundUpLeast(z.Width(), BLOCK_K);
    for row := 0 to z.rows
      invariant forall r, p :: 0 <= r < row && 0 <= p < z.Width() ==> CellUnpacked(z, gathered, ids[..], scores[..], r, p)
    {
      for tile := 0 to tiles
        invariant forall r, p :: 0 <= r < row && 0 <= p < z.Width() ==> CellUnpacked(z, gathered, ids[..], scores[..], r, p)
        invariant forall p :: 0 <= p < z.Width() && p < tile * BLOCK_K ==> CellUnpacked(z, gathered, ids[..], scores[..], row, p)
      {
        RunTile(z, gathered, ids, scores, row, tile);
      }
    }
  }

  /** One program of the kernel: 1024 lanes of one row. */
  method RunTile(z: Sizes, gathered: seq<int>, ids: array<int>, scores: array<int>, row: nat, tile: nat)
    requires z.k > 0 && ids != scores && row < z.rows
    requires |gathered| == z.ranks * z.rows * 2 * z.k && ids.Length == scores.Length == z.rows * z.Width()
    modifies ids, scores
    ensures forall p :: tile * BLOCK_K <= p < tile * BLOCK_K + BLOCK_K && p < z.Width() ==>
      CellUnpacked(z, gathered, ids[..], scores[..], row, p)
    ensures forall r, q :: 0 <= r < z.rows && 0 <= q < z.Width() && old(CellUnpacked(z, gathered, ids[..], scores[..], r, q)) ==>
      CellUnpacked(z, gathered, ids[..], scores[..], r, q)
  {
    for lane := 0 to BLOCK_K
      invariant forall p :: tile * BLOCK_K <= p < tile * BLOCK_K + lane && p < z.Width() ==>
        CellUnpacked(z, gathered, ids[..], scores[..], row, p)
      invariant forall r, q :: 0 <= r < z.rows && 0 <= q < z.Width() && old(CellUnpacked(z, gathered, ids[..], scores[..], r, q)) ==>
        CellUnpacked(z, gathered, ids[..], scores[..], r, q)
    {
      StoreLane(z, gathered, ids, scores, row, tile * BLOCK_K + lane);
    }
  }

  /** One lane of the kernel; masked off beyond the row's width. */
  method StoreLane(z: Sizes, gathered: seq<int>, ids: array<int>, scores: array<int>, row: nat, offset: nat)
    requires z.k > 0 && ids != scores && row < z.rows
    requires |gathered| == z.ranks * z.rows * 2 * z.k && ids.Length == scores.Length == z.rows * z.Width()
    modifies ids, scores
    ensures offset < z.Width() ==> CellUnpacked(z, gathered, ids[..], scores[..], row, offset)
    ensures forall r, q :: 0 <= r < z.rows && 0 <= q < z.Width() && old(CellUnpacked(z, gathered, ids[..], scores[..], r, q)) ==>
      CellUnpacked(z, gathered, ids[..], scores[..], r, q)
  {
    if offset < z.Width() {
      var rank := offset / z.k;
      RankOf(offset, z.ranks, z.k);
      var local := offset - rank * z.k;
      var rawRow := rank * z.rows + row;
      var rawBase := rawRow * 2 * z.k + local;
      SourceInRange(z, rank, row, 0, local);
      SourceInRange(z, rank, row, 1, local);
      assert Source(z, rank, row, 1, local) == rawBase + z.k;
      Write(z, gathered, ids, scores, row, offset, gathered[rawBase], gathered[rawBase + z.k]);
    }
  }

  /** One lane's two stores; all other cells keep their values. */
  method Write(z: Sizes, ghost gathered: seq<int>, ids: array<int>, scores: array<int>, row: nat, p: nat, id: int, score: int)
    requires z.k > 0 && ids != scores && row < z.rows && p < z.Width()
    requires |gathered| == z.ranks * z.rows * 2 * z.k && ids.Length == scores.Length == z.rows * z.Width()
    requires p / z.k < z.ranks && Source(z, p / z.k, row, 0, p % z.k) < |gathered| && Source(z, p / z.k, row, 1, p % z.k) < |gathered|
    requires id == gathered[Source(z, p / z.k, row, 0, p % z.k)] && score == gathered[Source(z, p / z.k, row, 1, p % z.k)]
    modifies ids, scores
    ensures CellUnpacked(z, gathered, ids[..], scores[..], row, p)
    ensures forall r, q :: 0 <= r < z.rows && 0 <= q < z.Width() && old(CellUnpacked(z, gathered, ids[..], scores[..], r, q)) ==>
      CellUnpacked(z, gathered, ids[..], scores[..], r, q)
  {
    Flat(row, p, z.rows, z.Width());
    ids[Target(z, row, p)], scores[Target(z, row, p)] := id, score;
    forall r, q | 0 <= r < z.rows && 0 <= q < z.Width() && old(CellUnpacked(z, gathered, ids[..], scores[..], r, q))
      ensures CellUnpacked(z, gathered, ids[..], scores[..], r, q)
    {
      Flat(r, q, z.rows, z.Width());
      if Target(z, r, q) == Target(z, row, p) {
        TargetInjective(z, r, q, row, p);
      }
    }
  }

  /** The fallback: for each rank, slice copies of its block into columns `rank * k ..`. */
  method UnpackSlices(z: Sizes, gathered: seq<int>, ids: array<int>, scores: array<int>)
    requires z.k > 0 && ids != scores
    requires |gathered| == z.ranks * z.rows * 2 * z.k && ids.Length == scores.Length == z.rows * z.Width()
    modifies ids, scores
    ensures forall row :: 0 <= row < z.rows ==> RowUnpacked(z, gathered, ids[..], scores[..], row)
  {
    for rank := 0 to z.ranks
      invariant forall row, p :: 0 <= row < z.rows && 0 <= p < z.Width() && p < rank * z.k ==>
        CellUnpacked(z, gathered, ids[..], scores[..], row, p)
    {
      for row := 0 to z.rows
        invariant forall r, p | 0 <= r < z.rows && 0 <= p < z.Width() ::
          (p < rank * z.k || (r < row && p < rank * z.k + z.k) ==> CellUnpacked(z, gathered, ids[..], scores[..], r, p))
      {
        for j := 0 to z.k
          invariant forall r, p | 0 <= r < z.rows && 0 <= p < z.Width() ::
            (p < rank * z.k || (r < row && p < rank * z.k + z.k) || (r == row && p < rank * z.k + j)
             ==> CellUnpacked(z, gathered, ids[..], scores[..], r, p))
        {
          Position(rank, j, z.ranks, z.k);
          SourceInRange(z, rank, row, 0, j);
          SourceInRange(z, rank, row, 1, j);
          Write(z, gathered, ids, scores, row, rank * z.k + j,
                gathered[Source(z, rank, row, 0, j)], gathered[Source(z, rank, row, 1, j)]);
        }
      }
      assert (rank + 1) * z.k == rank * z.k + z.k;
    }
  }

  /** The contract of the two unpackers determines the tables: they always agree. */
  lemma UnpackersAgree(z: Sizes, gathered: seq<int>, ids: seq<int>, scores: seq<int>, ids': seq<int>, scores': seq<int>)
    requires |gathered| == z.ranks * z.rows * 2 * z.k
    requires |ids| == |scores| == |ids'| == |scores'| == z.rows * z.Width()
    requires forall row :: 0 <= row < z.rows ==> RowUnpacked(z, gathered, ids, scores, row)
    requires forall row :: 0 <= row < z.rows ==> RowUnpacked(z, gathered, ids', scores', row)
    ensures ids == ids' && scores == scores'
  {
    forall a: nat | a < |ids|
      ensures ids[a] == ids'[a] && scores[a] == scores'[a]
    {
      CellOf(z, a);
      var row, p := a / z.Width(), a % z.Width();
      assert RowUnpacked(z, gathered, ids, scores, row) && RowUnpacked(z, gathered, ids', scores', row);
      assert CellUnpacked(z, gathered, ids, scores, row, p) && CellUnpacked(z, gathered, ids', scores', row, p);
    }
  }

  lemma CellOf(z: Sizes, a: nat)
    requires a < z.rows * z.Width()
    ensures z.Width() > 0 && a / z.Width() < z.rows && a == Target(z, a / z.Width(), a % z.Width())
  {
    MulMono(0, z.rows, z.Width());
    RankOf(a, z.rows, z.Width());
  }

  // ---- from what the ranks packed to the tables -----------------------------------------------

  /** One candidate as packed: its id and the bits of its score. */
  datatype Entry = Entry(id: int, bits: int)

  /** A row of a rank's packed tensor: `k` ids and then `k` score bits. */
  function PackRow(entries: seq<Entry>): (s: seq<int>)
    ensures |s| == 2 * |entries|
    ensures forall j :: 0 <= j < |entries| ==> s[j] == entries[j].id && s[|entries| + j] == entries[j].bits
  {
    Map((e: Entry) => e.id, entries) + Map((e: Entry) => e.bits, entries)
  }

  function PackRows(rows: seq<seq<Entry>>): (s: seq<seq<int>>)
    ensures |s| == |rows| && forall row :: 0 <= row < |s| ==> s[row] == PackRow(rows[row])
  {
    seq(|rows|, row requires 0 <= row < |rows| => PackRow(rows[row]))
  }

  function PackRanks(packed: seq<seq<seq<Entry>>>): (s: seq<seq<int>>)
    ensures |s| == |packed| && forall r :: 0 <= r < |s| ==> s[r] == Flatten(PackRows(packed[r]))
  {
    seq(|packed|, r requires 0 <= r < |packed| => Flatten(PackRows(packed[r])))
  }

  /** The all-gather of the packed tensors along their first dimension. */
  function GatheredEntries(packed: seq<seq<seq<Entry>>>): seq<int> { Flatten(PackRanks(packed)) }

  ghost predicate Regular(z: Sizes, packed: seq<seq<seq<Entry>>>) {
    |packed| == z.ranks
    && (forall r :: 0 <= r < z.ranks ==> |packed[r]| == z.rows)
    && (forall r, row :: 0 <= r < z.ranks && 0 <= row < z.rows ==> |packed[r][row]| == z.k)
  }

  lemma RankLength(z: Sizes, packed: seq<seq<seq<Entry>>>, r: nat)
    requires Regular(z, packed) && r < z.ranks
    ensures |PackRanks(packed)[r]| == z.rows * (2 * z.k)
  {
    UniformLength(PackRows(packed[r]), 2 * z.k);
  }

  lemma GatheredLength(z: Sizes, packed: seq<seq<seq<Entry>>>)
    requires Regular(z, packed)
    ensures |GatheredEntries(packed)| == z.ranks * z.rows * 2 * z.k
  {
    forall r | 0 <= r < z.ranks
      ensures |PackRanks(packed)[r]| == z.rows * (2 * z.k)
    {
      RankLength(z, packed, r);
    }
    UniformLength(PackRanks(packed), z.rows * (2 * z.k));
    Assoc(z.ranks, z.rows, 2 * z.k);
    Assoc(z.ranks * z.rows, 2, z.k);
  }

  /** A word of the buffer, found by the shape of what was packed. */
  lemma PackedWord(z: Sizes, packed: seq<seq<seq<Entry>>>, r: nat, row: nat, x: nat)
    requires Regular(z, packed) && r < z.ranks && row < z.rows && x < 2 * z.k
    ensures 0 <= r * (z.rows * (2 * z.k)) + row * (2 * z.k) + x < |GatheredEntries(packed)|
    ensures GatheredEntries(packed)[r * (z.rows * (2 * z.k)) + row * (2 * z.k) + x] == PackRow(packed[r][row])[x]
  {
    forall q | 0 <= q < z.ranks
      ensures |PackRanks(packed)[q]| == z.rows * (2 * z.k)
    {
      RankLength(z, packed, q);
    }
    WordOf(PackRanks(packed), z.rows * (2 * z.k), r, PackRows(packed[r]), 2 * z.k, row, x);
  }

  /** A word of a uniform concatenation of uniform concatenations. */
  lemma WordOf(ms: seq<seq<int>>, size: nat, r: nat, rows: seq<seq<int>>, width: nat, row: nat, x: nat)
    requires r < |ms| && row < |rows| && x < width && ms[r] == Flatten(rows)
    requires forall q :: 0 <= q < |ms| ==> |ms[q]| == size
    requires forall q :: 0 <= q < |rows| ==> |rows[q]| == width
    ensures 0 <= r * size + row * width + x < |Flatten(ms)|
    ensures Flatten(ms)[r * size + row * width + x] == rows[row][x]
  {
    FlattenUniform(ms, size, r);
    FlattenUniform(rows, width, row);
    SliceOfSlice(Flatten(ms), ms[r], r * size, row * width, width);
    assert Flatten(ms)[r * size + row * width..r * size + row * width + width][x] == rows[row][x];
  }

  lemma AddressSplit(z: Sizes, r: nat, row: nat, plane: nat, j: nat)
    ensures Source(z, r, row, plane, j) == r * (z.rows * (2 * z.k)) + row * (2 * z.k) + (plane * z.k + j)
  {
    Distribute(r * z.rows + row, 0, 2);
    Distribute((r * z.rows + row) * 2, plane, z.k);
    Assoc(r * z.rows + row, 2, z.k);
    Distribute(r * z.rows, row, 2 * z.k);
    Assoc(r, z.rows, 2 * z.k);
  }

  /** The address of either plane holds what the rank packed there. */
  lemma SourceHolds(z: Sizes, packed: seq<seq<seq<Entry>>>, r: nat, row: nat, j: nat)
    requires Regular(z, packed) && r < z.ranks && row < z.rows && j < z.k
    ensures Source(z, r, row, 0, j) < |GatheredEntries(packed)| && Source(z, r, row, 1, j) < |GatheredEntries(packed)|
    ensures GatheredEntries(packed)[Source(z, r, row, 0, j)] == packed[r][row][j].id
    ensures GatheredEntries(packed)[Source(z, r, row, 1, j)] == packed[r][row][j].bits
  {
    AddressSplit(z, r, row, 0, j);
    AddressSplit(z, r, row, 1, j);
    PackedWord(z, packed, r, row, j);
    PackedWord(z, packed, r, row, z.k + j);
  }

  /** Column `r * k + j` of row `row` in both tables, each row `ranks * k` wide, holds `e`. */
  ghost predicate EntryAt(ranks: nat, k: nat, ids: seq<int>, scores: seq<int>, row: nat, r: nat, j: nat, e: Entry) {
    var at := row * (ranks * k) + r * k + j;
    0 <= at < |ids| && at < |scores| && ids[at] == e.id && scores[at] == e.bits
  }

  /**
   Round trip: in tables unpacked from what the ranks packed, entry `j` of rank `r`'s
   row stands at column `r * k + j` of that row, its id in one table and its score bits
   in the other.
   */
  lemma UnpackedEntry(z: Sizes, packed: seq<seq<seq<Entry>>>, ids: seq<int>, scores: seq<int>, row: nat, r: nat, j: nat)
    requires Regular(z, packed) && |GatheredEntries(packed)| == z.ranks * z.rows * 2 * z.k
    requires |ids| == |scores| == z.rows * z.Width() && row < z.rows && r < z.ranks && j < z.k
    requires RowUnpacked(z, GatheredEntries(packed), ids, scores, row)
    ensures EntryAt(z.ranks, z.k, ids, scores, row, r, j, packed[r][row][j])
  {
    Position(r, j, z.ranks, z.k);
    var p := r * z.k + j;
    assert CellUnpacked(z, GatheredEntries(packed), ids, scores, row, p);
    Flat(row, p, z.rows, z.Width());
    SourceHolds(z, packed, r, row, j);
  }

  /** Everything a rank packed is where the selector looks for it. */
  ghost predicate AllUnpacked(z: Sizes, packed: seq<seq<seq<Entry>>>, ids: seq<int>, scores: seq<int>)
    requires Regular(z, packed)
  {
    forall row, r, j :: 0 <= row < z.rows && 0 <= r < z.ranks && 0 <= j < z.k ==>
      EntryAt(z.ranks, z.k, ids, scores, row, r, j, packed[r][row][j])
  }

  /** Either unpacker, on the all-gathered candidates; `tiled` chooses the kernel. */
  method UnpackCandidates(z: Sizes, packed: seq<seq<seq<Entry>>>, tiled: bool, ids: array<int>, scores: array<int>)
    requires z.k > 0 && ids != scores && Regular(z, packed) && ids.Length == scores.Length == z.rows * z.Width()
    modifies ids, scores
    ensures AllUnpacked(z, packed, ids[..], scores[..])
  {
    GatheredLength(z, packed);
    if tiled {
      UnpackTiled(z, GatheredEntries(packed), ids, scores);
    } else {
      UnpackSlices(z, GatheredEntries(packed), ids, scores);
    }
    forall row, r, j | 0 <= row < z.rows && 0 <= r < z.ranks && 0 <= j < z.k
      ensures EntryAt(z.ranks, z.k, ids[..], scores[..], row, r, j, packed[r][row][j])
    {
      UnpackedEntry(z, packed, ids[..], scores[..], row, r, j);
    }
  }
}
