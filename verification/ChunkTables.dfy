/**
 The tensors that the chunk planner fills: cumulative lengths and, per chunk, the
 request of every token. The planner fills one pair for the global chunk lengths and,
 in the same way, one for the padded local ones.
 */
module ChunkTables {
  import opened Seqs
  import opened Sharding
  import opened ChunkPlan

  /** `repeat_interleave` of `0, 1, ...` by `lens`. */
  function Repeats(lens: seq<nat>): (s: seq<nat>) {
    if lens == [] then [] else Repeats(lens[..|lens| - 1]) + seq(lens[|lens| - 1], _ => |lens| - 1)
  }

  /** Entry `k` names the request whose stretch of cumulative lengths holds `k`. */
  lemma {:induction false} RepeatsAt(lens: seq<nat>, k: nat)
    ensures |Repeats(lens)| == Sum(lens)
    ensures k < Sum(lens) ==>
      Repeats(lens)[k] < |lens| && Start(lens, Repeats(lens)[k]) <= k < Start(lens, Repeats(lens)[k] + 1)
  {
    if lens != [] {
      var n := |lens| - 1;
      RepeatsAt(lens[..n], k);
      if k < Sum(lens[..n]) {
        var b := Repeats(lens[..n])[k];
        assert lens[..n][..b] == lens[..b] && lens[..n][..b + 1] == lens[..b + 1];
      } else if k < Sum(lens) {
        assert Repeats(lens)[k] == n && lens[..n + 1] == lens;
      }
    }
  }

  function Totals(lens: seq<seq<nat>>): (s: seq<nat>)
    ensures |s| == |lens| && forall i :: 0 <= i < |s| ==> s[i] == Sum(lens[i])
  {
    seq(|lens|, i requires 0 <= i < |lens| => Sum(lens[i]))
  }

  /** `cumsum(lens, dim=1, out=cu[:, 1:])` into a zeroed tensor, one row. */
  method CumSumRow(lens: seq<nat>, i: nat, cu: array2<nat>)
    requires i < cu.Length0 && cu.Length1 == |lens| + 1 && cu[i, 0] == 0
    modifies cu
    ensures forall b :: 0 <= b <= |lens| ==> cu[i, b] == Start(lens, b)
    ensures forall j, b :: 0 <= j < cu.Length0 && j != i && 0 <= b < cu.Length1 ==> cu[j, b] == old(cu[j, b])
  {
    for b := 0 to |lens|
      invariant forall x :: 0 <= x <= b ==> cu[i, x] == Start(lens, x)
      invariant forall j, x :: 0 <= j < cu.Length0 && j != i && 0 <= x < cu.Length1 ==> cu[j, x] == old(cu[j, x])
    {
      StartStep(lens, b);
      cu[i, b + 1] := cu[i, b] + lens[b];
    }
  }

  /** `table[i, :len] = row`. */
  method CopyRow(row: seq<nat>, i: nat, table: array2<nat>)
    requires i < table.Length0 && |row| <= table.Length1
    modifies table
    ensures forall k :: 0 <= k < |row| ==> table[i, k] == row[k]
    ensures forall k :: |row| <= k < table.Length1 ==> table[i, k] == old(table[i, k])
    ensures forall j, k :: 0 <= j < table.Length0 && j != i && 0 <= k < table.Length1 ==> table[j, k] == old(table[j, k])
  {
    for k := 0 to |row|
      invariant forall x :: 0 <= x < k ==> table[i, x] == row[x]
      invariant forall x :: k <= x < table.Length1 ==> table[i, x] == old(table[i, x])
      invariant forall j, x :: 0 <= j < table.Length0 && j != i && 0 <= x < table.Length1 ==> table[j, x] == old(table[j, x])
    {
      table[i, k] := row[k];
    }
  }

  /** Row `i` of both tables is filled. */
  ghost predicate RowFilled(lens: seq<nat>, i: nat, cu: array2<nat>, tokenToSeq: array2<nat>)
    requires i < cu.Length0 && i < tokenToSeq.Length0 && cu.Length1 == |lens| + 1
    reads cu, tokenToSeq
  {
    (forall b :: 0 <= b <= |lens| ==> cu[i, b] == Start(lens, b))
    && |Repeats(lens)| <= tokenToSeq.Length1
    && (forall k :: 0 <= k < |Repeats(lens)| ==> tokenToSeq[i, k] == Repeats(lens)[k])
    && (forall k :: |Repeats(lens)| <= k < tokenToSeq.Length1 ==> tokenToSeq[i, k] == 0)
  }

  /** Row `i` of a table, as a sequence. */
  ghost function Row(table: array2<nat>, i: nat): (s: seq<nat>)
    requires i < table.Length0
    reads table
    ensures |s| == table.Length1 && forall k :: 0 <= k < |s| ==> s[k] == table[i, k]
  {
    seq(table.Length1, k requires 0 <= k < table.Length1 reads table => table[i, k])
  }

  /** One iteration of the planner's loop. */
  method FillRow(lens: seq<nat>, i: nat, cu: array2<nat>, tokenToSeq: array2<nat>)
    requires cu != tokenToSeq && i < cu.Length0 == tokenToSeq.Length0 && cu.Length1 == |lens| + 1
    requires Sum(lens) <= tokenToSeq.Length1 && cu[i, 0] == 0
    requires forall k :: 0 <= k < tokenToSeq.Length1 ==> tokenToSeq[i, k] == 0
    modifies cu, tokenToSeq
    ensures RowFilled(lens, i, cu, tokenToSeq)
    ensures forall j :: 0 <= j < cu.Length0 && j != i ==>
      Row(cu, j) == old(Row(cu, j)) && Row(tokenToSeq, j) == old(Row(tokenToSeq, j))
    ensures forall j, b :: 0 <= j < cu.Length0 && j != i && 0 <= b < cu.Length1 ==> cu[j, b] == old(cu[j, b])
    ensures forall j, k :: 0 <= j < tokenToSeq.Length0 && j != i && 0 <= k < tokenToSeq.Length1 ==>
      tokenToSeq[j, k] == old(tokenToSeq[j, k])
  {
    RepeatsAt(lens, 0);
    CumSumRow(lens, i, cu);
    CopyRow(Repeats(lens), i, tokenToSeq);
  }

  /** A row in terms of its values only. */
  ghost predicate Filled(lens: seq<nat>, cu: seq<nat>, tokenToSeq: seq<nat>) {
    |cu| == |lens| + 1 && Sum(lens) <= |tokenToSeq|
    && (forall b :: 0 <= b <= |lens| ==> cu[b] == Start(lens, b))
    && (forall k :: 0 <= k < Sum(lens) ==> tokenToSeq[k] < |lens| && cu[tokenToSeq[k]] <= k < cu[tokenToSeq[k] + 1])
    && (forall k :: Sum(lens) <= k < |tokenToSeq| ==> tokenToSeq[k] == 0)
  }

  lemma FilledRow(lens: seq<nat>, i: nat, cu: array2<nat>, tokenToSeq: array2<nat>)
    requires i < cu.Length0 && i < tokenToSeq.Length0 && cu.Length1 == |lens| + 1
    requires RowFilled(lens, i, cu, tokenToSeq)
    ensures Filled(lens, Row(cu, i), Row(tokenToSeq, i))
  {
    RepeatsAt(lens, 0);
    forall k | 0 <= k < Sum(lens)
      ensures var b := Row(tokenToSeq, i)[k]; b < |lens| && Row(cu, i)[b] <= k < Row(cu, i)[b + 1]
    {
      RepeatsAt(lens, k);
    }
  }

  /**
   Both tables. Every token of a chunk is attributed to the one request whose
   stretch `[cu[i, b], cu[i, b + 1])` holds it; the tail of a shorter chunk stays zero.
   */
  method FillTables(lens: seq<seq<nat>>, requests: nat) returns (cu: array2<nat>, tokenToSeq: array2<nat>)
    requires forall i :: 0 <= i < |lens| ==> |lens[i]| == requests
    ensures fresh(cu) && fresh(tokenToSeq) && cu.Length0 == tokenToSeq.Length0 == |lens|
    ensures cu.Length1 == requests + 1 && tokenToSeq.Length1 == MaxOf(Totals(lens))
    ensures forall i :: 0 <= i < |lens| ==> Filled(lens[i], Row(cu, i), Row(tokenToSeq, i))
  {
    cu := new nat[|lens|, requests + 1]((_, _) => 0);
    tokenToSeq := new nat[|lens|, MaxOf(Totals(lens))]((_, _) => 0);
    MaxOfBounds(Totals(lens));
    for i := 0 to |lens|
      invariant forall j :: 0 <= j < i ==> Filled(lens[j], Row(cu, j), Row(tokenToSeq, j))
      invariant forall j, b :: i <= j < |lens| && 0 <= b <= requests ==> cu[j, b] == 0
      invariant forall j, k :: i <= j < |lens| && 0 <= k < tokenToSeq.Length1 ==> tokenToSeq[j, k] == 0
    {
      assert Totals(lens)[i] <= MaxOf(Totals(lens));
      FillRow(lens[i], i, cu, tokenToSeq);
      FilledRow(lens[i], i, cu, tokenToSeq);
    }
  }

  /** Every chunk's lengths, and the tables the planner keeps of them. */
  function AllSeqLens(p: Plan): (s: seq<seq<nat>>)
    requires p.Valid()
    ensures |s| == p.Chunks() && forall i :: 0 <= i < |s| ==> s[i] == p.SeqLens(i)
  {
    seq(p.Chunks(), i requires 0 <= i < p.Chunks() => p.SeqLens(i))
  }

  /** The planner's chunks partition every context: its chunk lengths add up to it. */
  lemma {:induction false} LensAddUp(p: Plan, b: nat, n: nat)
    requires p.Valid() && b < |p.ctx| && n <= p.Chunks()
    ensures Sum(Column(AllSeqLens(p)[..n], b)) == Min(p.ctx[b], p.ChunkStart(n))
  {
    if n > 0 {
      LensAddUp(p, b, n - 1);
      assert Column(AllSeqLens(p)[..n], b)[..n - 1] == Column(AllSeqLens(p)[..n - 1], b);
      Distribute(n - 1, 1, p.mcc);
    }
  }

  lemma ContextLensAddUp(p: Plan, b: nat)
    requires p.Valid() && b < |p.ctx|
    ensures Sum(Column(AllSeqLens(p), b)) == p.ctx[b]
  {
    LensAddUp(p, b, p.Chunks());
    assert AllSeqLens(p)[..p.Chunks()] == AllSeqLens(p);
    MaxOfBounds(p.ctx);
    RoundUpLeast(MaxOf(p.ctx), p.mcc);
  }
}
