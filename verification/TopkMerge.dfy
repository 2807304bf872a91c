/**
 The DCP top-k merge of one query row: each rank selects among the tokens it owns,
 the ranks exchange their candidates, and a second selection among the candidates
 stands for a selection over the whole score row.
 */
module TopkMerge {
  import opened Seqs
  import opened Sharding

  datatype Score = NegInf | Fin(v: real)

  predicate Le(a: Score, b: Score) {
    a.NegInf? || (b.Fin? && a.v <= b.v)
  }

  // ---- what a top-k selection is ---------------------------------------------------

  function Chosen(sel: seq<int>): set<int> { set x | x in sel && x >= 0 }

  /** `k` entries, each -1 or a position below `n`; no position twice. */
  ghost predicate Selection(sel: seq<int>, n: nat, k: nat) {
    |sel| == k && NoRepeat(sel) && forall i :: 0 <= i < k ==> -1 <= sel[i] < n
  }

  ghost predicate NoRepeat(sel: seq<int>) {
    forall i, j :: 0 <= i < j < |sel| && sel[i] >= 0 ==> sel[i] != sel[j]
  }

  /** Nothing left out scores strictly higher than anything selected. */
  ghost predicate Dominant(sc: seq<Score>, sel: seq<int>) {
    forall s, u :: 0 <= s < |sc| && 0 <= u < |sc| && s in Chosen(sel) && u !in Chosen(sel) ==> Le(sc[u], sc[s])
  }

  /** Any valid top-k of a score row, padded with -1 exactly when the row is too short. */
  ghost predicate IsTopK(sc: seq<Score>, sel: seq<int>, k: nat) {
    Selection(sel, |sc|, k) && Dominant(sc, sel) && |Chosen(sel)| == Min(k, |sc|)
  }

  /** The integers `a .. a + n`. */
  function Interval(a: int, n: nat): (s: set<int>)
    ensures |s| == n && forall x :: x in s <==> a <= x < a + n
  {
    if n == 0 then {} else Interval(a, n - 1) + {a + n - 1}
  }

  lemma {:induction false} ChosenCount(sel: seq<int>)
    requires NoRepeat(sel)
    ensures |Chosen(sel)| <= |sel|
    ensures |Chosen(sel)| == |sel| <==> forall i :: 0 <= i < |sel| ==> sel[i] >= 0
  {
    if sel != [] {
      var init, last := sel[..|sel| - 1], sel[|sel| - 1];
      ChosenCount(init);
      assert sel == init + [last];
      if last >= 0 {
        assert last !in Chosen(init);
        assert Chosen(sel) == Chosen(init) + {last};
      } else {
        assert Chosen(sel) == Chosen(init);
      }
    }
  }

  lemma ChosenBelow(sel: seq<int>, n: nat, k: nat)
    requires Selection(sel, n, k)
    ensures Chosen(sel) <= Interval(0, n) && |Chosen(sel)| <= n
    ensures |Chosen(sel)| == n ==> Chosen(sel) == Interval(0, n)
  {
    SubsetSize(Chosen(sel), Interval(0, n));
  }

  // ---- all valid selections score the same ----------------------------------------------

  function ScoredAs(sc: seq<Score>, chosen: set<int>, x: Score): set<int> {
    set i | i in chosen && 0 <= i < |sc| && sc[i] == x
  }

  lemma OneScore(sc: seq<Score>, a: set<int>, y: Score, x: Score)
    requires a <= Interval(0, |sc|) && forall s :: s in a ==> sc[s] == y
    ensures ScoredAs(sc, a, x) == if x == y then a else {}
  {
  }

  lemma SameScoreSets(sc: seq<Score>, a: set<int>, b: set<int>, x: Score)
    requires |a| == |b| && a + b <= Interval(0, |sc|)
    requires forall s, t :: s in a && t in b ==> sc[s] == sc[t]
    ensures |ScoredAs(sc, a, x)| == |ScoredAs(sc, b, x)|
  {
    if a == {} {
      assert b == {};
    } else {
      assert |b| > 0;
      assert b != {};
      var i :| i in a;
      var j :| j in b;
      OneScore(sc, a, sc[i], x);
      OneScore(sc, b, sc[i], x);
    }
  }

  lemma ScoredSplit(sc: seq<Score>, a: set<int>, b: set<int>, x: Score)
    ensures |ScoredAs(sc, a, x)| == |ScoredAs(sc, a - b, x)| + |ScoredAs(sc, a * b, x)|
  {
    assert ScoredAs(sc, a, x) == ScoredAs(sc, a - b, x) + ScoredAs(sc, a * b, x);
  }

  /** Any two valid top-k selections of a row have the same multiset of scores. */
  lemma TopKScoresUnique(sc: seq<Score>, a: seq<int>, b: seq<int>, k: nat, x: Score)
    requires IsTopK(sc, a, k) && IsTopK(sc, b, k)
    ensures |ScoredAs(sc, Chosen(a), x)| == |ScoredAs(sc, Chosen(b), x)|
  {
    var ca, cb := Chosen(a), Chosen(b);
    ChosenBelow(a, |sc|, k);
    ChosenBelow(b, |sc|, k);
    assert ca * cb == cb * ca;
    assert |ca| == |ca - cb| + |ca * cb| && |cb| == |cb - ca| + |cb * ca|;
    ScoredSplit(sc, ca, cb, x);
    ScoredSplit(sc, cb, ca, x);
    SameScoreSets(sc, ca - cb, cb - ca, x);
  }

  /**
   What a top-k selection is, entry by entry: `k` entries, each -1 or a position, no
   position twice; an unmasked position left out never scores above a selected one, and
   then no masked one is selected; and a row shorter than `k` is selected completely,
   while a longer one leaves no -1.
   */
  lemma TopKMeans(sc: seq<Score>, sel: seq<int>, k: nat)
    ensures IsTopK(sc, sel, k) <==>
      && |sel| == k && (forall i :: 0 <= i < k ==> -1 <= sel[i] < |sc|)
      && (forall i, j :: 0 <= i < j < k && sel[i] >= 0 ==> sel[i] != sel[j])
      && (forall i, u :: 0 <= i < k && sel[i] >= 0 && 0 <= u < |sc| && u !in sel && sc[u].Fin? ==>
            sc[sel[i]].Fin? && sc[u].v <= sc[sel[i]].v)
      && (if |sc| < k then forall u :: 0 <= u < |sc| ==> u in sel else forall i :: 0 <= i < k ==> sel[i] >= 0)
  {
    if Selection(sel, |sc|, k) {
      DominantMeans(sc, sel, k);
      SizeMeans(sc, sel, k);
    }
  }

  /** Dominance, in terms of entries and finite scores. */
  ghost predicate NoneBeaten(sc: seq<Score>, sel: seq<int>) {
    forall i, u :: 0 <= i < |sel| && 0 <= sel[i] < |sc| && 0 <= u < |sc| && u !in sel && sc[u].Fin? ==>
      sc[sel[i]].Fin? && sc[u].v <= sc[sel[i]].v
  }

  lemma DominantMeans(sc: seq<Score>, sel: seq<int>, k: nat)
    requires Selection(sel, |sc|, k)
    ensures Dominant(sc, sel) <==> NoneBeaten(sc, sel)
  {
    if Dominant(sc, sel) {
      forall i, u | 0 <= i < |sel| && 0 <= sel[i] < |sc| && 0 <= u < |sc| && u !in sel && sc[u].Fin?
        ensures sc[sel[i]].Fin? && sc[u].v <= sc[sel[i]].v
      {
        assert sel[i] in Chosen(sel) && u !in Chosen(sel);
      }
    }
    if NoneBeaten(sc, sel) {
      forall s, u | 0 <= s < |sc| && 0 <= u < |sc| && s in Chosen(sel) && u !in Chosen(sel)
        ensures Le(sc[u], sc[s])
      {
        var i :| 0 <= i < |sel| && sel[i] == s;
        assert u !in sel;
      }
    }
  }

  lemma SizeMeans(sc: seq<Score>, sel: seq<int>, k: nat)
    requires Selection(sel, |sc|, k)
    ensures |Chosen(sel)| == Min(k, |sc|)
       <==> if |sc| < k then forall u :: 0 <= u < |sc| ==> u in sel else forall i :: 0 <= i < k ==> sel[i] >= 0
  {
    ChosenCount(sel);
    SelectedAll(sc, sel, k);
  }

  lemma SelectedAll(sc: seq<Score>, sel: seq<int>, k: nat)
    requires Selection(sel, |sc|, k)
    ensures |sc| < k ==> (|Chosen(sel)| == |sc| <==> forall u :: 0 <= u < |sc| ==> u in sel)
  {
    var all := Interval(0, |sc|);
    ChosenBelow(sel, |sc|, k);
    if forall u :: 0 <= u < |sc| ==> u in sel {
      assert all <= Chosen(sel);
      assert Chosen(sel) == all;
    } else {
      var u :| 0 <= u < |sc| && u !in sel;
      assert u in all && u !in Chosen(sel);
    }
  }

  // ---- candidates --------------------------------------------------------------------

  function LocalScore(c: Layout, row: seq<Score>, r: nat, i: nat): Score
    requires c.Valid() && r < c.ranks && i < LocalLen(c, |row|, r)
    ensures ToGlobal(c, i, r) < |row|
  {
    InRangeLocal(c, i, r, |row|);
    row[ToGlobal(c, i, r)]
  }

  /** The scores of the tokens rank `r` owns, in local order. */
  function LocalRow(c: Layout, row: seq<Score>, r: nat): (s: seq<Score>)
    requires c.Valid() && r < c.ranks
    ensures |s| == LocalLen(c, |row|, r)
    ensures forall i :: 0 <= i < |s| ==> s[i] == LocalScore(c, row, r, i)
  {
    seq(LocalLen(c, |row|, r), i requires 0 <= i < LocalLen(c, |row|, r) => LocalScore(c, row, r, i))
  }

  /** What one rank packs: its logits (a window of a wider row) and its local selection. */
  datatype Local = Local(logits: seq<Score>, start: nat, topk: seq<int>)

  ghost predicate LocalTopK(mine: seq<Score>, l: Local, k: nat) {
    l.start + |mine| <= |l.logits| && l.logits[l.start..l.start + |mine|] == mine && IsTopK(mine, l.topk, k)
  }

  /** Each rank's window holds its share of the row and its selection is a local top-k. */
  ghost predicate Locals(c: Layout, row: seq<Score>, locals: seq<Local>, k: nat) {
    c.Valid() && k > 0 && |locals| == c.ranks
    && forall r :: 0 <= r < c.ranks ==> LocalTopK(LocalRow(c, row, r), locals[r], k)
  }

  datatype Packed = Packed(id: int, score: Score)

  /** One packed entry: the global position, and the logit at the clamped window position. */
  function Pack(c: Layout, l: Local, r: nat, idx: int): Packed
    requires c.Valid()
  {
    if idx < 0 then Packed(-1, NegInf)
    else
      var at := Max(0, Min(idx + l.start, |l.logits| - 1));
      Packed(ToGlobal(c, idx, r), if at < |l.logits| then l.logits[at] else NegInf)
  }

  /** Candidate `p` of the gathered row is entry `p % k` of rank `p / k`. */
  function CandidateAt(c: Layout, locals: seq<Local>, k: nat, p: nat): Packed
    requires c.Valid() && k > 0 && |locals| == c.ranks && p < c.ranks * k
    requires forall r :: 0 <= r < c.ranks ==> |locals[r].topk| == k
  {
    RankOf(p, c.ranks, k);
    Pack(c, locals[p / k], p / k, locals[p / k].topk[p % k])
  }

  function Candidates(c: Layout, locals: seq<Local>, k: nat): (s: seq<Packed>)
    requires c.Valid() && k > 0 && |locals| == c.ranks && forall r :: 0 <= r < c.ranks ==> |locals[r].topk| == k
    ensures |s| == c.ranks * k && forall p :: 0 <= p < |s| ==> s[p] == CandidateAt(c, locals, k, p)
  {
    seq(c.ranks * k, p requires 0 <= p < c.ranks * k => CandidateAt(c, locals, k, p))
  }

  function Scores(cands: seq<Packed>): (s: seq<Score>)
    ensures |s| == |cands| && forall p :: 0 <= p < |s| ==> s[p] == cands[p].score
  {
    seq(|cands|, p requires 0 <= p < |cands| => cands[p].score)
  }

  lemma RankOf(p: nat, n: nat, k: nat)
    requires k > 0 && p < n * k
    ensures p / k < n && p == p / k * k + p % k
  {
    if p / k >= n {
      MulMono(n, p / k, k);
    }
  }

  lemma Position(r: nat, j: nat, n: nat, k: nat)
    requires r < n && j < k
    ensures 0 <= r * k + j < n * k && (r * k + j) / k == r && (r * k + j) % k == j
  {
    MulMono(0, r, k);
    MulMono(r + 1, n, k);
    assert (r + 1) * k == r * k + k;
    DivUnique(r * k + j, k, r, j);
  }

  /** What candidate `p` is: padding, or a token of rank `p / k` with its score. */
  lemma Candidate(c: Layout, row: seq<Score>, locals: seq<Local>, k: nat, p: nat)
    requires Locals(c, row, locals, k) && p < c.ranks * k
    ensures p / k < c.ranks
    ensures var cand, idx := Candidates(c, locals, k)[p], locals[p / k].topk[p % k];
      if idx < 0 then cand == Packed(-1, NegInf)
      else 0 <= cand.id < |row| && cand.score == row[cand.id] && Owner(c, cand.id) == p / k && ToLocal(c, cand.id) == idx
  {
    RankOf(p, c.ranks, k);
    var r := p / k;
    var l, mine, idx := locals[r], LocalRow(c, row, r), locals[r].topk[p % k];
    assert LocalTopK(mine, l, k);
    if idx >= 0 {
      GlobalOfLocal(c, idx, r);
      assert l.logits[l.start..l.start + |mine|][idx] == LocalScore(c, row, r, idx);
    }
  }

  /** The exchange collects no token twice. */
  lemma CandidatesDistinct(c: Layout, row: seq<Score>, locals: seq<Local>, k: nat, p: nat, q: nat)
    requires Locals(c, row, locals, k) && p < c.ranks * k && q < c.ranks * k
    requires Candidates(c, locals, k)[p].id == Candidates(c, locals, k)[q].id >= 0
    ensures p == q
  {
    Candidate(c, row, locals, k, p);
    Candidate(c, row, locals, k, q);
    assert LocalTopK(LocalRow(c, row, p / k), locals[p / k], k);
    RankOf(p, c.ranks, k);
    RankOf(q, c.ranks, k);
  }

  /** A token missing from the exchange is beaten by all `k` candidates of its owner. */
  lemma MissingIsBeaten(c: Layout, row: seq<Score>, locals: seq<Local>, k: nat, u: nat, p: int)
    requires Locals(c, row, locals, k) && u < |row|
    requires Owner(c, u) < c.ranks && ToLocal(c, u) !in locals[Owner(c, u)].topk
    requires p in Interval(Owner(c, u) * k, k)
    ensures 0 <= p < c.ranks * k
    ensures Candidates(c, locals, k)[p].id >= 0 && Le(row[u], Candidates(c, locals, k)[p].score)
  {
    var r, i := Owner(c, u), ToLocal(c, u);
    Position(r, p - r * k, c.ranks, k);
    MissingMeansFull(c, row, locals[r], k, u);
    Candidate(c, row, locals, k, p);
    var mine, s := LocalRow(c, row, r), locals[r].topk[p % k];
    assert s in Chosen(locals[r].topk) && i !in Chosen(locals[r].topk);
    assert Le(mine[i], mine[s]);
    LocalOfGlobal(c, u);
    assert mine[s] == LocalScore(c, row, r, s);
  }

  lemma MissingMeansFull(c: Layout, row: seq<Score>, l: Local, k: nat, u: nat)
    requires c.Valid() && u < |row| && Owner(c, u) < c.ranks
    requires LocalTopK(LocalRow(c, row, Owner(c, u)), l, k) && ToLocal(c, u) !in l.topk
    ensures ToLocal(c, u) < |LocalRow(c, row, Owner(c, u))|
    ensures forall j :: 0 <= j < k ==> l.topk[j] >= 0
  {
    InRange(c, u, |row|);
    ChosenBelow(l.topk, LocalLen(c, |row|, Owner(c, u)), k);
    ChosenCount(l.topk);
    assert ToLocal(c, u) in Interval(0, LocalLen(c, |row|, Owner(c, u)));
  }

  // ---- the merge -----------------------------------------------------------------------

  /** The token ids at the selected candidate positions. */
  function Merged(cands: seq<Packed>, pos: seq<int>): (s: seq<int>)
    requires forall i :: 0 <= i < |pos| ==> 0 <= pos[i] < |cands|
    ensures |s| == |pos| && forall i :: 0 <= i < |s| ==> s[i] == cands[pos[i]].id
  {
    seq(|pos|, i requires 0 <= i < |pos| => cands[pos[i]].id)
  }

  /** `pos` is any valid top-k of the candidate scores; it has no padding of its own. */
  ghost predicate MergeOf(c: Layout, row: seq<Score>, locals: seq<Local>, k: nat, pos: seq<int>) {
    Locals(c, row, locals, k) && IsTopK(Scores(Candidates(c, locals, k)), pos, k)
    && forall i :: 0 <= i < k ==> 0 <= pos[i] < c.ranks * k
  }

  /** There are at least `k` candidates, so a selection among them is never padded. */
  lemma PositionsReal(c: Layout, row: seq<Score>, locals: seq<Local>, k: nat, pos: seq<int>)
    requires Locals(c, row, locals, k) && IsTopK(Scores(Candidates(c, locals, k)), pos, k)
    ensures MergeOf(c, row, locals, k, pos) && |Chosen(pos)| == k
  {
    MulMono(1, c.ranks, k);
    ChosenCount(pos);
  }

  lemma MergeSelects(c: Layout, row: seq<Score>, locals: seq<Local>, k: nat, pos: seq<int>)
    requires MergeOf(c, row, locals, k, pos)
    ensures Selection(Merged(Candidates(c, locals, k), pos), |row|, k)
  {
    var sel := Merged(Candidates(c, locals, k), pos);
    forall i | 0 <= i < k
      ensures -1 <= sel[i] < |row|
    {
      Candidate(c, row, locals, k, pos[i]);
    }
    forall i, j | 0 <= i < j < k && sel[i] >= 0
      ensures sel[i] != sel[j]
    {
      if sel[i] == sel[j] {
        CandidatesDistinct(c, row, locals, k, pos[i], pos[j]);
      }
    }
  }

  /** Where a selected token sits among the candidates. */
  lemma SelectedAt(c: Layout, row: seq<Score>, locals: seq<Local>, k: nat, pos: seq<int>, s: int) returns (p: nat)
    requires MergeOf(c, row, locals, k, pos) && s in Chosen(Merged(Candidates(c, locals, k), pos))
    ensures p < c.ranks * k && p in Chosen(pos) && Candidates(c, locals, k)[p].id == s
    ensures 0 <= s < |row| && Candidates(c, locals, k)[p].score == row[s]
  {
    var sel := Merged(Candidates(c, locals, k), pos);
    var i :| 0 <= i < |sel| && sel[i] == s;
    p := pos[i];
    Candidate(c, row, locals, k, p);
  }

  /** A token in its owner's local selection is a candidate, with its score. */
  lemma ExchangedAt(c: Layout, row: seq<Score>, locals: seq<Local>, k: nat, u: nat) returns (p: nat)
    requires Locals(c, row, locals, k) && u < |row|
    requires Owner(c, u) < c.ranks && ToLocal(c, u) in locals[Owner(c, u)].topk
    ensures p < c.ranks * k && Candidates(c, locals, k)[p] == Packed(u, row[u])
  {
    var r := Owner(c, u);
    assert LocalTopK(LocalRow(c, row, r), locals[r], k);
    var j :| 0 <= j < k && locals[r].topk[j] == ToLocal(c, u);
    Position(r, j, c.ranks, k);
    p := r * k + j;
    Candidate(c, row, locals, k, p);
    LocalOfGlobal(c, u);
    LocalOfGlobal(c, Candidates(c, locals, k)[p].id);
  }

  lemma SelectedIsChosen(cands: seq<Packed>, pos: seq<int>, p: nat)
    requires forall i :: 0 <= i < |pos| ==> 0 <= pos[i] < |cands|
    requires p < |cands| && cands[p].id >= 0
    ensures p in Chosen(pos) ==> cands[p].id in Chosen(Merged(cands, pos))
  {
    if p in Chosen(pos) {
      var i :| 0 <= i < |pos| && pos[i] == p;
      assert Merged(cands, pos)[i] == cands[p].id;
    }
  }

  /**
   A token the merge leaves out is matched by a candidate that is not selected either
   and scores at least as high, or every selected candidate scores at least as high.
   */
  lemma LeftOutWitness(c: Layout, row: seq<Score>, locals: seq<Local>, k: nat, pos: seq<int>, u: nat)
    returns (all: bool, p: int)
    requires MergeOf(c, row, locals, k, pos) && u < |row|
    requires u !in Chosen(Merged(Candidates(c, locals, k), pos))
    ensures !all ==> 0 <= p < c.ranks * k && p !in Chosen(pos)
    ensures !all ==> Candidates(c, locals, k)[p].id >= 0 && Le(row[u], Candidates(c, locals, k)[p].score)
    ensures all ==> forall q :: q in Chosen(pos) ==>
      0 <= q < c.ranks * k && Candidates(c, locals, k)[q].id >= 0 && Le(row[u], Candidates(c, locals, k)[q].score)
  {
    LocalOfGlobal(c, u);
    var r := Owner(c, u);
    if ToLocal(c, u) in locals[r].topk {
      p := ExchangedAt(c, row, locals, k, u);
      SelectedIsChosen(Candidates(c, locals, k), pos, p);
      return false, p;
    }
    forall q | q in Interval(r * k, k)
      ensures 0 <= q < c.ranks * k && Candidates(c, locals, k)[q].id >= 0
      ensures Le(row[u], Candidates(c, locals, k)[q].score)
    {
      MissingIsBeaten(c, row, locals, k, u, q);
    }
    if q :| q in Interval(r * k, k) && q !in Chosen(pos) {
      return false, q;
    }
    PositionsReal(c, row, locals, k, pos);
    SubsetSize(Interval(r * k, k), Chosen(pos));
    all, p := true, 0;
  }

  /**
   The exactness of exchanging only local top-k lists, ties and masked scores
   included: no token left out scores strictly higher than a token selected.
   */
  lemma MergeDominates(c: Layout, row: seq<Score>, locals: seq<Local>, k: nat, pos: seq<int>)
    requires MergeOf(c, row, locals, k, pos)
    ensures Dominant(row, Merged(Candidates(c, locals, k), pos))
  {
    var sel, cands := Merged(Candidates(c, locals, k), pos), Candidates(c, locals, k);
    forall s, u | 0 <= s < |row| && 0 <= u < |row| && s in Chosen(sel) && u !in Chosen(sel)
      ensures Le(row[u], row[s])
    {
      var ps := SelectedAt(c, row, locals, k, pos, s);
      var all, p := LeftOutWitness(c, row, locals, k, pos, u);
      if !all {
        assert Le(Scores(cands)[p], Scores(cands)[ps]);
      }
    }
  }

  /** The tokens of a row that are not masked. */
  function Unmasked(row: seq<Score>): set<int> { set t | 0 <= t < |row| && row[t].Fin? }

  /** Padding is selected only after every unmasked token of the row. */
  lemma PaddingLast(c: Layout, row: seq<Score>, locals: seq<Local>, k: nat, pos: seq<int>, u: nat)
    requires MergeOf(c, row, locals, k, pos) && u in Unmasked(row)
    requires -1 in Merged(Candidates(c, locals, k), pos)
    ensures u in Chosen(Merged(Candidates(c, locals, k), pos))
  {
    var sel, cands := Merged(Candidates(c, locals, k), pos), Candidates(c, locals, k);
    var i :| 0 <= i < k && sel[i] == -1;
    Candidate(c, row, locals, k, pos[i]);
    if u !in Chosen(sel) {
      var all, p := LeftOutWitness(c, row, locals, k, pos, u);
      assert false;
    }
  }

  /** A condition on the row and the layout alone: enough unmasked tokens, or no padding at all. */
  ghost predicate NothingToLose(c: Layout, row: seq<Score>, k: nat)
    requires c.Valid()
  {
    |Unmasked(row)| >= Min(k, |row|) || forall r :: 0 <= r < c.ranks ==> LocalLen(c, |row|, r) >= k
  }

  /**
   The merge of the ranks' local top-k lists is a top-k of the whole row: the same
   number of tokens, none of them twice, none beaten by a token left out, and -1
   only when the row has fewer than `k` tokens.
   */
  lemma MergeExact(c: Layout, row: seq<Score>, locals: seq<Local>, k: nat, pos: seq<int>)
    requires MergeOf(c, row, locals, k, pos) && NothingToLose(c, row, k)
    ensures IsTopK(row, Merged(Candidates(c, locals, k), pos), k)
  {
    var sel := Merged(Candidates(c, locals, k), pos);
    MergeSelects(c, row, locals, k, pos);
    MergeDominates(c, row, locals, k, pos);
    ChosenCount(sel);
    ChosenBelow(sel, |row|, k);
    if -1 in sel {
      PaddingHasShortRank(c, row, locals, k, pos);
      forall u | u in Unmasked(row)
        ensures u in Chosen(sel)
      {
        PaddingLast(c, row, locals, k, pos, u);
      }
      SubsetSize(Unmasked(row), Chosen(sel));
    }
  }

  lemma PaddingHasShortRank(c: Layout, row: seq<Score>, locals: seq<Local>, k: nat, pos: seq<int>)
    requires MergeOf(c, row, locals, k, pos) && -1 in Merged(Candidates(c, locals, k), pos)
    ensures exists r :: 0 <= r < c.ranks && LocalLen(c, |row|, r) < k
  {
    var sel := Merged(Candidates(c, locals, k), pos);
    var i :| 0 <= i < k && sel[i] == -1;
    var r := PaddingIsShort(c, row, locals, k, pos[i]);
  }

  lemma PaddingIsShort(c: Layout, row: seq<Score>, locals: seq<Local>, k: nat, p: nat) returns (r: nat)
    requires Locals(c, row, locals, k) && p < c.ranks * k && Candidates(c, locals, k)[p].id == -1
    ensures r < c.ranks && LocalLen(c, |row|, r) < k
  {
    r := p / k;
    Candidate(c, row, locals, k, p);
    assert LocalTopK(LocalRow(c, row, p / k), locals[p / k], k);
    PaddedListIsShort(LocalRow(c, row, p / k), locals[p / k], k, p % k);
  }

  lemma PaddedListIsShort(mine: seq<Score>, l: Local, k: nat, j: nat)
    requires LocalTopK(mine, l, k) && j < k && l.topk[j] < 0
    ensures |mine| < k
  {
    ChosenCount(l.topk);
  }

  /** With finite scores everywhere the condition holds, whatever the layout. */
  lemma UnmaskedRow(c: Layout, row: seq<Score>, k: nat)
    requires c.Valid() && forall t :: 0 <= t < |row| ==> row[t].Fin?
    ensures NothingToLose(c, row, k)
  {
    assert Unmasked(row) == Interval(0, |row|);
  }

  // ---- when masked tokens can be lost --------------------------------------------------------

  /** A set of size `k` between two sets. */
  lemma {:induction false} Between(a: set<int>, b: set<int>, k: nat) returns (s: set<int>)
    requires a <= b && |a| <= k <= |b|
    ensures a <= s <= b && |s| == k
    decreases k - |a|
  {
    if |a| == k {
      return a;
    }
    assert b == a + (b - a);
    var x := PickFrom(b - a);
    SubsetSize(a + {x}, b);
    s := Between(a + {x}, b, k);
  }

  lemma PickFrom<T>(s: set<T>) returns (x: T)
    requires |s| > 0
    ensures x in s
  {
    x :| x in s;
  }

  lemma {:induction false} Listed(s: set<int>) returns (l: seq<int>)
    requires forall x :: x in s ==> x >= 0
    ensures |l| == |s| && NoRepeat(l) && Chosen(l) == s
    ensures forall i :: 0 <= i < |l| ==> l[i] in s
  {
    if s == {} {
      return [];
    }
    var x := PickFrom(s);
    var rest := Listed(s - {x});
    l := rest + [x];
    assert Chosen(l) == Chosen(rest) + {x};
  }

  /** The candidate positions that hold an unmasked token are at most the unmasked tokens. */
  lemma UnmaskedCandidates(c: Layout, row: seq<Score>, locals: seq<Local>, k: nat, ps: set<int>)
    requires Locals(c, row, locals, k)
    requires forall p :: p in ps ==> 0 <= p < c.ranks * k && Candidates(c, locals, k)[p].score.Fin?
    ensures |ps| <= |Unmasked(row)|
    decreases ps
  {
    var cands := Candidates(c, locals, k);
    var ids := set p | p in ps :: cands[p].id;
    forall p, q | p in ps && q in ps && cands[p].id == cands[q].id
      ensures p == q
    {
      Candidate(c, row, locals, k, p);
      CandidatesDistinct(c, row, locals, k, p, q);
    }
    ImageSize(cands, ps);
    forall x | x in ids
      ensures x in Unmasked(row)
    {
      var p :| p in ps && cands[p].id == x;
      Candidate(c, row, locals, k, p);
    }
    SubsetSize(ids, Unmasked(row));
  }

  lemma {:induction false} ImageSize(cands: seq<Packed>, ps: set<int>)
    requires forall p :: p in ps ==> 0 <= p < |cands|
    requires forall p, q :: p in ps && q in ps && cands[p].id == cands[q].id ==> p == q
    ensures |set p | p in ps :: cands[p].id| == |ps|
  {
    if ps != {} {
      var x := PickFrom(ps);
      ImageSize(cands, ps - {x});
      assert (set p | p in ps :: cands[p].id) == (set p | p in ps - {x} :: cands[p].id) + {cands[x].id};
    }
  }

  /**
   The condition is exact: on two or more ranks, when it fails some valid selection
   among the candidates takes padding and loses a token.
   */
  lemma LosingSelection(c: Layout, row: seq<Score>, locals: seq<Local>, k: nat) returns (pos: seq<int>)
    requires Locals(c, row, locals, k) && c.ranks >= 2 && !NothingToLose(c, row, k)
    ensures MergeOf(c, row, locals, k, pos)
    ensures !IsTopK(row, Merged(Candidates(c, locals, k), pos), k)
  {
    var cands := Candidates(c, locals, k);
    var pad := PaddingAt(c, row, locals, k);
    var avoid := MaskedAt(c, row, locals, k);
    WantedFits(c, row, locals, k, pad, avoid);
    pos := Selecting(FinPositions(cands) + {pad}, avoid, |cands|, k);
    TakesUnmasked(Scores(cands), pos, k);
    LosesToken(c, row, locals, k, pos, pad, avoid);
  }

  /** The unmasked candidates and one padding entry leave room, without the masked token. */
  lemma WantedFits(c: Layout, row: seq<Score>, locals: seq<Local>, k: nat, pad: nat, avoid: int)
    requires Locals(c, row, locals, k) && c.ranks >= 2 && |Unmasked(row)| < Min(k, |row|)
    requires pad < c.ranks * k && Candidates(c, locals, k)[pad] == Packed(-1, NegInf)
    requires 0 <= avoid < c.ranks * k ==>
      Candidates(c, locals, k)[avoid].id >= 0 && Candidates(c, locals, k)[avoid].score == NegInf
    ensures var want := FinPositions(Candidates(c, locals, k)) + {pad};
      want <= Interval(0, c.ranks * k) && avoid !in want && |want| <= k < c.ranks * k
  {
    var fin := FinPositions(Candidates(c, locals, k));
    MulMono(2, c.ranks, k);
    UnmaskedCandidates(c, row, locals, k, fin);
  }

  function FinPositions(cands: seq<Packed>): set<int> {
    set p | p in Interval(0, |cands|) && cands[p].score.Fin?
  }

  /** `k` of the positions below `n`: all of `want`, never `avoid`. */
  lemma Selecting(want: set<int>, avoid: int, n: nat, k: nat) returns (pos: seq<int>)
    requires want <= Interval(0, n) && avoid !in want && |want| <= k < n
    ensures |pos| == k && NoRepeat(pos) && want <= Chosen(pos) && avoid !in Chosen(pos)
    ensures forall i :: 0 <= i < k ==> 0 <= pos[i] < n
  {
    var all := Interval(0, n);
    assert all == (all - {avoid}) + (all * {avoid});
    SubsetSize(all * {avoid}, {avoid});
    var s := Between(want, all - {avoid}, k);
    pos := Listed(s);
  }

  /** Selecting all unmasked candidates is enough for a valid top-k of the candidates. */
  lemma TakesUnmasked(sc: seq<Score>, pos: seq<int>, k: nat)
    requires |pos| == k <= |sc| && NoRepeat(pos) && forall i :: 0 <= i < k ==> 0 <= pos[i] < |sc|
    requires forall p :: 0 <= p < |sc| && sc[p].Fin? ==> p in Chosen(pos)
    ensures IsTopK(sc, pos, k)
  {
    ChosenCount(pos);
  }

  lemma LosesToken(c: Layout, row: seq<Score>, locals: seq<Local>, k: nat, pos: seq<int>, pad: nat, avoid: int)
    requires MergeOf(c, row, locals, k, pos)
    requires pad in Chosen(pos) && pad < c.ranks * k && Candidates(c, locals, k)[pad].id == -1
    requires |row| < k ==> 0 <= avoid < c.ranks * k && avoid !in Chosen(pos) && Candidates(c, locals, k)[avoid].id >= 0
    ensures !IsTopK(row, Merged(Candidates(c, locals, k), pos), k)
  {
    var cands := Candidates(c, locals, k);
    var sel := Merged(cands, pos);
    var i :| 0 <= i < k && pos[i] == pad;
    assert sel[i] == -1;
    MergeSelects(c, row, locals, k, pos);
    ChosenCount(sel);
    ChosenBelow(sel, |row|, k);
    if |row| < k {
      Candidate(c, row, locals, k, avoid);
      var t := cands[avoid].id;
      assert t in Interval(0, |row|);
      if t in Chosen(sel) {
        var p := SelectedAt(c, row, locals, k, pos, t);
        CandidatesDistinct(c, row, locals, k, p, avoid);
      }
    }
  }

  /** A padding candidate exists when some rank owns fewer than `k` tokens. */
  lemma PaddingAt(c: Layout, row: seq<Score>, locals: seq<Local>, k: nat) returns (p: nat)
    requires Locals(c, row, locals, k) && exists r :: 0 <= r < c.ranks && LocalLen(c, |row|, r) < k
    ensures p < c.ranks * k && Candidates(c, locals, k)[p] == Packed(-1, NegInf)
  {
    var r :| 0 <= r < c.ranks && LocalLen(c, |row|, r) < k;
    var sel := locals[r].topk;
    assert LocalTopK(LocalRow(c, row, r), locals[r], k);
    ChosenCount(sel);
    var j :| 0 <= j < k && sel[j] < 0;
    Position(r, j, c.ranks, k);
    p := r * k + j;
    Candidate(c, row, locals, k, p);
  }

  /** In a row shorter than `k` every token is exchanged, the masked ones too. */
  lemma MaskedAt(c: Layout, row: seq<Score>, locals: seq<Local>, k: nat) returns (p: int)
    requires Locals(c, row, locals, k) && |Unmasked(row)| < Min(k, |row|)
    ensures |row| >= k ==> p == -1
    ensures |row| < k ==>
      0 <= p < c.ranks * k && Candidates(c, locals, k)[p].id >= 0 && Candidates(c, locals, k)[p].score == NegInf
  {
    if |row| >= k {
      return -1;
    }
    var all := Interval(0, |row|);
    assert all == Unmasked(row) + (all - Unmasked(row));
    var u := PickFrom(all - Unmasked(row));
    ShortRowExchanged(c, row, locals, k, u);
    p := ExchangedAt(c, row, locals, k, u);
  }

  lemma ShortRowExchanged(c: Layout, row: seq<Score>, locals: seq<Local>, k: nat, u: nat)
    requires Locals(c, row, locals, k) && u < |row| < k
    ensures Owner(c, u) < c.ranks && ToLocal(c, u) in locals[Owner(c, u)].topk
  {
    LocalOfGlobal(c, u);
    var r := Owner(c, u);
    assert LocalTopK(LocalRow(c, row, r), locals[r], k);
    InRange(c, u, |row|);
    LocalLenWithin(c, |row|, r);
    ChosenBelow(locals[r].topk, LocalLen(c, |row|, r), k);
    assert ToLocal(c, u) in Interval(0, LocalLen(c, |row|, r));
  }

  lemma {:induction false} LocalLenWithin(c: Layout, len: nat, r: nat)
    requires c.Valid() && r < c.ranks
    ensures LocalLen(c, len, r) <= len
  {
    if len == 0 {
      LocalLenZero(c, r);
    } else {
      LocalLenWithin(c, len - 1, r);
      LocalLenStep(c, len - 1, r);
    }
  }

  /** The merge is exact for every way of breaking ties if and only if the condition holds. */
  lemma MergeExactIff(c: Layout, row: seq<Score>, locals: seq<Local>, k: nat)
    requires Locals(c, row, locals, k) && c.ranks >= 2
    ensures NothingToLose(c, row, k) <==>
      forall pos :: MergeOf(c, row, locals, k, pos) ==> IsTopK(row, Merged(Candidates(c, locals, k), pos), k)
  {
    if NothingToLose(c, row, k) {
      forall pos | MergeOf(c, row, locals, k, pos)
        ensures IsTopK(row, Merged(Candidates(c, locals, k), pos), k)
      {
        MergeExact(c, row, locals, k, pos);
      }
    } else {
      var pos := LosingSelection(c, row, locals, k);
    }
  }

  // ---- a loss --------------------------------------------------------------------------------

  /** Four ranks, interleave 1, and a row of two masked tokens. */
  const LOSS_LAYOUT := Layout(4, 1)

  const LOSS_ROW: seq<Score> := [NegInf, NegInf]

  /** Every rank has logits; only the first two own a token. */
  function LossLocal(r: nat, k: nat): (l: Local)
    requires k > 0
    ensures |l.topk| == k && l.topk[0] == (if r < 2 then 0 else -1) && forall j :: 1 <= j < k ==> l.topk[j] == -1
  {
    Local([NegInf], 0, [if r < 2 then 0 else -1] + seq(k - 1, _ => -1))
  }

  function LossLocals(k: nat): (locals: seq<Local>)
    requires k > 0
    ensures |locals| == 4 && forall r :: 0 <= r < 4 ==> locals[r] == LossLocal(r, k)
  {
    seq(4, r requires 0 <= r => LossLocal(r, k))
  }

  /** The first `k` candidates: what a selector takes that orders equal scores by position. */
  function FirstPositions(k: nat): (pos: seq<int>)
    ensures |pos| == k && forall i :: 0 <= i < k ==> pos[i] == i
  {
    seq(k, i => i)
  }

  lemma LossLocalRow(r: nat)
    requires r < 4
    ensures LocalRow(LOSS_LAYOUT, LOSS_ROW, r) == if r < 2 then [NegInf] else []
  {
    assert LocalLen(LOSS_LAYOUT, 2, r) == if r < 2 then 1 else 0;
    if r < 2 {
      var only := LocalScore(LOSS_LAYOUT, LOSS_ROW, r, 0);
    }
  }

  /** A selection of one entry at the front, or of none. */
  lemma FrontOnly(sel: seq<int>, k: nat, x: int)
    requires |sel| == k > 0 && sel[0] == x >= -1 && forall j :: 1 <= j < k ==> sel[j] == -1
    ensures NoRepeat(sel) && Chosen(sel) == if x >= 0 then {x} else {}
  {
  }

  lemma LossLocalTopK(r: nat, k: nat)
    requires r < 4 && k > 1
    ensures LocalTopK(LocalRow(LOSS_LAYOUT, LOSS_ROW, r), LossLocal(r, k), k)
  {
    LossLocalRow(r);
    FrontOnly(LossLocal(r, k).topk, k, if r < 2 then 0 else -1);
    MaskedSelection(if r < 2 then [NegInf] else [], LossLocal(r, k), k);
  }

  lemma MaskedSelection(mine: seq<Score>, l: Local, k: nat)
    requires |mine| <= 1 < k && l.start == 0 && l.logits == [NegInf] && (mine == [] || mine == [NegInf])
    requires |l.topk| == k && l.topk[0] == |mine| - 1 && forall j :: 1 <= j < k ==> l.topk[j] == -1
    ensures LocalTopK(mine, l, k)
  {
    FrontOnly(l.topk, k, |mine| - 1);
    assert l.logits[0..|mine|] == mine;
  }

  lemma LossLocalsHold(k: nat)
    requires k > 1
    ensures Locals(LOSS_LAYOUT, LOSS_ROW, LossLocals(k), k)
  {
    forall r | 0 <= r < 4
      ensures LocalTopK(LocalRow(LOSS_LAYOUT, LOSS_ROW, r), LossLocals(k)[r], k)
    {
      LossLocalTopK(r, k);
    }
  }

  lemma LossCandidate(k: nat, p: nat)
    requires k > 1 && p < 4 * k
    ensures p / k < 4 && p % k < k
    ensures Candidates(LOSS_LAYOUT, LossLocals(k), k)[p]
         == Pack(LOSS_LAYOUT, LossLocal(p / k, k), p / k, LossLocal(p / k, k).topk[p % k])
  {
    RankOf(p, 4, k);
  }

  /** Every candidate is masked or padding. */
  lemma LossScores(k: nat, p: nat)
    requires k > 1 && p < 4 * k
    ensures Candidates(LOSS_LAYOUT, LossLocals(k), k)[p].score == NegInf
  {
    LossCandidate(k, p);
    LossPacked(p / k, p % k, k);
  }

  lemma LossIds(k: nat, p: nat)
    requires k > 1 && p < k
    ensures Candidates(LOSS_LAYOUT, LossLocals(k), k)[p].id == if p == 0 then 0 else -1
  {
    LossCandidate(k, p);
    DivUnique(p, k, 0, p);
    LossPacked(0, p, k);
  }

  lemma LossPacked(r: nat, j: nat, k: nat)
    requires r < 4 && j < k
    ensures Pack(LOSS_LAYOUT, LossLocal(r, k), r, LossLocal(r, k).topk[j]).score == NegInf
    ensures r == 0 ==> Pack(LOSS_LAYOUT, LossLocal(r, k), r, LossLocal(r, k).topk[j]).id == if j == 0 then 0 else -1
  {
  }

  /** Any `k` candidates are a valid selection. */
  lemma LossSelection(k: nat)
    requires k > 1
    ensures IsTopK(Scores(Candidates(LOSS_LAYOUT, LossLocals(k), k)), FirstPositions(k), k)
  {
    var sc := Scores(Candidates(LOSS_LAYOUT, LossLocals(k), k));
    forall p | 0 <= p < |sc|
      ensures sc[p] == NegInf
    {
      LossScores(k, p);
    }
    TakesUnmasked(sc, FirstPositions(k), k);
  }

  lemma LossMerged(k: nat)
    requires k > 1
    ensures Chosen(Merged(Candidates(LOSS_LAYOUT, LossLocals(k), k), FirstPositions(k))) == {0}
  {
    var sel := Merged(Candidates(LOSS_LAYOUT, LossLocals(k), k), FirstPositions(k));
    forall i | 0 <= i < k
      ensures sel[i] == if i == 0 then 0 else -1
    {
      LossIds(k, i);
    }
    FrontOnly(sel, k, 0);
  }

  /**
   Taking equal scores in the order of their positions picks token 0 and then the
   first rank's padding, and loses token 1, for every `k` above 1 and so for the 512,
   1024 and 2048 that the merge admits.
   */
  lemma MaskedTokenLost(k: nat)
    requires k > 1
    ensures MergeOf(LOSS_LAYOUT, LOSS_ROW, LossLocals(k), k, FirstPositions(k))
    ensures Chosen(Merged(Candidates(LOSS_LAYOUT, LossLocals(k), k), FirstPositions(k))) == {0}
    ensures !IsTopK(LOSS_ROW, Merged(Candidates(LOSS_LAYOUT, LossLocals(k), k), FirstPositions(k)), k)
  {
    LossLocalsHold(k);
    LossSelection(k);
    LossMerged(k);
  }
}
