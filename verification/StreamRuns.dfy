/**
 Many ranks, one stream and one arena each: every rank runs pack, all-gather and
 attend for one layer after the other, in order, but at its own pace. The
 all-gather is not atomic: it is a transfer between each pair of ranks, enabled
 once both have reached it, and a rank leaves it when its own transfers are done.
 */
module StreamRuns {
  import opened Seqs

  /** `jobs[l][r]` is the padded message of rank `r` for the `l`-th layer run. */
  type Jobs<R> = seq<seq<seq<R>>>

  datatype Stage = Pack | Exchange | Attend

  datatype Rank<R> = Rank(job: nat, stage: Stage, local: seq<R>, gathered: seq<R>)

  /** `sent[s][d]`: how many of the transfers from `s` to `d` have happened. */
  datatype State<R> = State(ranks: seq<Rank<R>>, sent: seq<seq<nat>>)

  datatype Step = DoPack(r: nat) | Transfer(src: nat, dst: nat) | Leave(r: nat) | DoAttend(r: nat)

  /** Every message of a job has the same size, and the regions hold it. */
  ghost predicate ValidJobs<R>(jobs: Jobs<R>, n: nat, capacity: nat) {
    forall l | 0 <= l < |jobs| ::
      |jobs[l]| == n && Size(jobs, l) <= capacity
      && forall r :: 0 <= r < n ==> |jobs[l][r]| == Size(jobs, l)
  }

  function Size<R>(jobs: Jobs<R>, l: nat): nat
    requires l < |jobs|
  {
    if jobs[l] == [] then 0 else |jobs[l][0]|
  }

  ghost predicate Shaped<R>(s: State<R>, n: nat, capacity: nat) {
    |s.ranks| == |s.sent| == n
    && (forall r :: 0 <= r < n ==>
          |s.sent[r]| == n && |s.ranks[r].local| == capacity && |s.ranks[r].gathered| == n * capacity)
  }

  /** Nothing run yet; the arenas may hold anything. */
  ghost predicate Initial<R>(s: State<R>, n: nat, capacity: nat) {
    Shaped(s, n, capacity)
    && (forall r :: 0 <= r < n ==> s.ranks[r].job == 0 && s.ranks[r].stage == Pack)
    && (forall i, j :: 0 <= i < n && 0 <= j < n ==> s.sent[i][j] == 0)
  }

  function Overwrite<R>(a: seq<R>, at: nat, b: seq<R>): (c: seq<R>)
    requires at + |b| <= |a|
    ensures |c| == |a|
  {
    a[..at] + b + a[at + |b|..]
  }

  predicate In<R>(s: State<R>, r: nat, stage: Stage, l: nat)
    requires r < |s.ranks|
  {
    s.ranks[r].stage == stage && s.ranks[r].job == l
  }

  ghost predicate Enabled<R>(jobs: Jobs<R>, s: State<R>, n: nat, capacity: nat, step: Step) {
    ValidJobs(jobs, n, capacity) && Shaped(s, n, capacity) &&
    match step
    case DoPack(r) => r < n && s.ranks[r].stage == Pack && s.ranks[r].job < |jobs|
    case Transfer(a, b) =>
      a < n && b < n && var l := s.ranks[a].job;
      l < |jobs| && In(s, a, Exchange, l) && In(s, b, Exchange, l) && s.sent[a][b] == l
    case Leave(r) =>
      r < n && s.ranks[r].stage == Exchange &&
      forall k :: 0 <= k < n ==> s.sent[r][k] == s.ranks[r].job + 1 && s.sent[k][r] == s.ranks[r].job + 1
    case DoAttend(r) => r < n && s.ranks[r].stage == Attend
  }

  lemma SliceFits(r: nat, n: nat, p: nat, capacity: nat)
    requires r < n && p <= capacity
    ensures 0 <= r * p <= r * p + p <= n * p <= n * capacity
  {
    MulMono(0, r, p);
    MulMono(r + 1, n, p);
    assert (r + 1) * p == r * p + p;
    MulMono(p, capacity, n);
  }

  ghost function Apply<R>(jobs: Jobs<R>, s: State<R>, n: nat, capacity: nat, step: Step): (s': State<R>)
    requires Enabled(jobs, s, n, capacity, step)
    ensures Shaped(s', n, capacity)
  {
    match step
    case DoPack(r) =>
      var k := s.ranks[r];
      s.(ranks := s.ranks[r := k.(stage := Exchange, local := Overwrite(k.local, 0, jobs[k.job][r]))])
    case Transfer(a, b) =>
      var p := Size(jobs, s.ranks[a].job);
      SliceFits(a, n, p, capacity);
      var k := s.ranks[b];
      State(s.ranks[b := k.(gathered := Overwrite(k.gathered, a * p, s.ranks[a].local[..p]))],
            s.sent[a := s.sent[a][b := s.sent[a][b] + 1]])
    case Leave(r) => s.(ranks := s.ranks[r := s.ranks[r].(stage := Attend)])
    case DoAttend(r) =>
      s.(ranks := s.ranks[r := s.ranks[r].(stage := Pack, job := s.ranks[r].job + 1)])
  }

  ghost predicate IsRun<R>(jobs: Jobs<R>, run: seq<State<R>>, steps: seq<Step>, n: nat, capacity: nat) {
    |run| == |steps| + 1 && ValidJobs(jobs, n, capacity) && Initial(run[0], n, capacity)
    && forall i :: 0 <= i < |steps| ==>
         Enabled(jobs, run[i], n, capacity, steps[i]) && run[i + 1] == Apply(jobs, run[i], n, capacity, steps[i])
  }

  // ---- the invariant -----------------------------------------------------------------

  /** How many exchanges a rank has left behind. */
  function Completed<R>(k: Rank<R>): nat { if k.stage == Attend then k.job + 1 else k.job }

  /** Rank `s`'s message of job `l` sits in its slice of `d`'s gathered region. */
  ghost predicate Delivered<R>(jobs: Jobs<R>, gathered: seq<R>, src: nat, l: nat)
    requires l < |jobs| && src < |jobs[l]|
  {
    var p := Size(jobs, l);
    0 <= src * p <= src * p + p <= |gathered| && gathered[src * p..src * p + p] == jobs[l][src]
  }

  /** A transfer counter is its ranks' completed exchanges, or one ahead inside an exchange. */
  ghost predicate Counter<R>(k: Rank<R>, sent: nat) {
    sent == Completed(k) || (k.stage == Exchange && sent == k.job + 1)
  }

  ghost predicate RankInv<R>(jobs: Jobs<R>, s: State<R>, n: nat, capacity: nat, r: nat)
    requires ValidJobs(jobs, n, capacity) && Shaped(s, n, capacity) && r < n
  {
    var k := s.ranks[r];
    && k.job <= |jobs| && (k.stage != Pack ==> k.job < |jobs|)
    && (k.stage == Exchange ==> k.local[..Size(jobs, k.job)] == jobs[k.job][r])
    && (forall x :: 0 <= x < n ==> Counter(k, s.sent[r][x]) && Counter(k, s.sent[x][r]))
    && (k.stage != Pack ==> forall x :: 0 <= x < n && s.sent[x][r] == k.job + 1 ==>
         Delivered(jobs, k.gathered, x, k.job))
  }

  ghost predicate Inv<R>(jobs: Jobs<R>, s: State<R>, n: nat, capacity: nat) {
    ValidJobs(jobs, n, capacity) && Shaped(s, n, capacity)
    && forall r :: 0 <= r < n ==> RankInv(jobs, s, n, capacity, r)
  }

  lemma LocalStepKeepsInv<R>(jobs: Jobs<R>, s: State<R>, n: nat, capacity: nat, step: Step)
    requires Inv(jobs, s, n, capacity) && Enabled(jobs, s, n, capacity, step) && !step.Transfer?
    ensures Inv(jobs, Apply(jobs, s, n, capacity, step), n, capacity)
  {
    var s' := Apply(jobs, s, n, capacity, step);
    forall r: nat | r < n
      ensures RankInv(jobs, s', n, capacity, r)
    {
      assert RankInv(jobs, s, n, capacity, r);
    }
  }

  lemma SlicesApart(a: nat, x: nat, p: nat)
    requires a != x
    ensures a * p + p <= x * p || x * p + p <= a * p
  {
    MulMono(Min(a, x) + 1, Max(a, x), p);
    assert (Min(a, x) + 1) * p == Min(a, x) * p + p;
  }

  /** Writing one slice delivers it and leaves the other slices alone. */
  lemma OverwriteDelivers<R>(jobs: Jobs<R>, g: seq<R>, a: nat, l: nat, x: nat)
    requires l < |jobs| && a < |jobs[l]| && x < |jobs[l]| && |jobs[l][a]| == |jobs[l][x]| == Size(jobs, l)
    requires 0 <= a * Size(jobs, l) <= a * Size(jobs, l) + Size(jobs, l) <= |g|
    requires x == a || Delivered(jobs, g, x, l)
    ensures Delivered(jobs, Overwrite(g, a * Size(jobs, l), jobs[l][a]), x, l)
  {
    var p := Size(jobs, l);
    var g' := Overwrite(g, a * p, jobs[l][a]);
    if x == a {
      assert g'[a * p..a * p + p] == jobs[l][a];
    } else {
      SlicesApart(a, x, p);
      assert g'[x * p..x * p + p] == g[x * p..x * p + p];
    }
  }

  lemma TransferDelivers<R>(jobs: Jobs<R>, s: State<R>, n: nat, capacity: nat, a: nat, b: nat, x: nat)
    requires Inv(jobs, s, n, capacity) && Enabled(jobs, s, n, capacity, Transfer(a, b)) && x < n
    requires Apply(jobs, s, n, capacity, Transfer(a, b)).sent[x][b] == s.ranks[a].job + 1
    ensures Delivered(jobs, Apply(jobs, s, n, capacity, Transfer(a, b)).ranks[b].gathered, x, s.ranks[a].job)
  {
    SliceFits(a, n, Size(jobs, s.ranks[a].job), capacity);
    assert RankInv(jobs, s, n, capacity, a) && RankInv(jobs, s, n, capacity, b);
    OverwriteDelivers(jobs, s.ranks[b].gathered, a, s.ranks[a].job, x);
  }

  lemma TransferKeepsRank<R>(jobs: Jobs<R>, s: State<R>, n: nat, capacity: nat, a: nat, b: nat, r: nat)
    requires Inv(jobs, s, n, capacity) && Enabled(jobs, s, n, capacity, Transfer(a, b)) && r < n
    ensures RankInv(jobs, Apply(jobs, s, n, capacity, Transfer(a, b)), n, capacity, r)
  {
    var s' := Apply(jobs, s, n, capacity, Transfer(a, b));
    assert RankInv(jobs, s, n, capacity, r);
    if r == b {
      forall x: nat | x < n && s'.sent[x][b] == s.ranks[a].job + 1
        ensures Delivered(jobs, s'.ranks[b].gathered, x, s.ranks[a].job)
      {
        TransferDelivers(jobs, s, n, capacity, a, b, x);
      }
    }
  }

  lemma TransferKeepsInv<R>(jobs: Jobs<R>, s: State<R>, n: nat, capacity: nat, a: nat, b: nat)
    requires Inv(jobs, s, n, capacity) && Enabled(jobs, s, n, capacity, Transfer(a, b))
    ensures Inv(jobs, Apply(jobs, s, n, capacity, Transfer(a, b)), n, capacity)
  {
    forall r: nat | r < n
      ensures RankInv(jobs, Apply(jobs, s, n, capacity, Transfer(a, b)), n, capacity, r)
    {
      TransferKeepsRank(jobs, s, n, capacity, a, b, r);
    }
  }

  lemma {:induction false} ReachableInv<R>(jobs: Jobs<R>, run: seq<State<R>>, steps: seq<Step>, n: nat, capacity: nat, i: nat)
    requires IsRun(jobs, run, steps, n, capacity) && i < |run|
    ensures Inv(jobs, run[i], n, capacity)
  {
    if i > 0 {
      ReachableInv(jobs, run, steps, n, capacity, i - 1);
      if steps[i - 1].Transfer? {
        TransferKeepsInv(jobs, run[i - 1], n, capacity, steps[i - 1].src, steps[i - 1].dst);
      } else {
        LocalStepKeepsInv(jobs, run[i - 1], n, capacity, steps[i - 1]);
      }
    }
  }

  // ---- safety and progress ---------------------------------------------------------------

  /**
   In every reachable state in which a rank attends to a job, its gathered region
   starts with exactly every rank's message of that job, rank by rank, however far
   the other ranks have drifted.
   */
  lemma AttendReadsItsLayer<R>(jobs: Jobs<R>, run: seq<State<R>>, steps: seq<Step>, n: nat, capacity: nat, i: nat, r: nat)
    requires IsRun(jobs, run, steps, n, capacity) && i < |run|
    requires r < |run[i].ranks| && run[i].ranks[r].stage == Attend
    ensures var k := run[i].ranks[r];
      && r < n && k.job < |jobs| && |Flatten(jobs[k.job])| == n * Size(jobs, k.job) <= |k.gathered|
      && k.gathered[..n * Size(jobs, k.job)] == Flatten(jobs[k.job])
  {
    ReachableInv(jobs, run, steps, n, capacity, i);
    AttendingHoldsAll(jobs, run[i], n, capacity, r);
  }

  lemma AttendingHoldsAll<R>(jobs: Jobs<R>, s: State<R>, n: nat, capacity: nat, r: nat)
    requires Inv(jobs, s, n, capacity) && r < n && s.ranks[r].stage == Attend
    ensures var k := s.ranks[r];
      && k.job < |jobs| && |Flatten(jobs[k.job])| == n * Size(jobs, k.job) <= |k.gathered|
      && k.gathered[..n * Size(jobs, k.job)] == Flatten(jobs[k.job])
  {
    assert RankInv(jobs, s, n, capacity, r);
    var k := s.ranks[r];
    var p, parts := Size(jobs, k.job), jobs[k.job];
    MulMono(p, capacity, n);
    forall x: nat | x < n
      ensures 0 <= x * p <= x * p + p <= |k.gathered| && k.gathered[x * p..x * p + p] == parts[x]
    {
      assert Counter(k, s.sent[x][r]);
      assert Delivered(jobs, k.gathered, x, k.job);
    }
    SlicesAreFlatten(k.gathered, parts, p);
  }

  lemma {:induction false} SlicesAreFlatten<R>(g: seq<R>, parts: seq<seq<R>>, p: nat)
    requires |parts| * p <= |g| && forall x :: 0 <= x < |parts| ==> |parts[x]| == p
    requires forall x :: 0 <= x < |parts| ==>
      0 <= x * p <= x * p + p <= |g| && g[x * p..x * p + p] == parts[x]
    ensures |Flatten(parts)| == |parts| * p
    ensures g[..|parts| * p] == Flatten(parts)
  {
    if parts != [] {
      var m := |parts| - 1;
      assert |parts| * p == m * p + p;
      SlicesAreFlatten(g, parts[..m], p);
      assert g[..m * p + p] == g[..m * p] + g[m * p..m * p + p];
    }
  }

  /** All layer runs are over. */
  predicate Done<R>(jobs: Jobs<R>, s: State<R>) {
    forall r :: 0 <= r < |s.ranks| ==> s.ranks[r].stage == Pack && s.ranks[r].job >= |jobs|
  }

  /** No reachable state is stuck before all ranks have run all layers. */
  lemma NeverStuck<R>(jobs: Jobs<R>, run: seq<State<R>>, steps: seq<Step>, n: nat, capacity: nat, i: nat) returns (step: Step)
    requires IsRun(jobs, run, steps, n, capacity) && i < |run| && !Done(jobs, run[i])
    ensures Enabled(jobs, run[i], n, capacity, step)
  {
    ReachableInv(jobs, run, steps, n, capacity, i);
    var s := run[i];
    if r :| 0 <= r < n && s.ranks[r].stage == Attend {
      return DoAttend(r);
    }
    if r :| 0 <= r < n && s.ranks[r].stage == Pack && s.ranks[r].job < |jobs| {
      return DoPack(r);
    }
    var any :| 0 <= any < n && s.ranks[any].stage == Exchange;
    var r := Hindmost(s, any);
    step := ExchangeStep(jobs, s, n, capacity, r);
  }

  /** Of the ranks inside an exchange, one with the smallest job. */
  lemma Hindmost<R>(s: State<R>, any: nat) returns (r: nat)
    requires any < |s.ranks| && s.ranks[any].stage == Exchange
    ensures r < |s.ranks| && s.ranks[r].stage == Exchange
    ensures forall x :: 0 <= x < |s.ranks| && s.ranks[x].stage == Exchange ==> s.ranks[r].job <= s.ranks[x].job
    decreases s.ranks[any].job
  {
    r := any;
    if x :| 0 <= x < |s.ranks| && s.ranks[x].stage == Exchange && s.ranks[x].job < s.ranks[any].job {
      r := Hindmost(s, x);
    }
  }

  lemma ExchangeStep<R>(jobs: Jobs<R>, s: State<R>, n: nat, capacity: nat, r: nat) returns (step: Step)
    requires Inv(jobs, s, n, capacity) && r < n && s.ranks[r].stage == Exchange
    requires forall x :: 0 <= x < n ==> s.ranks[x].stage == Exchange || (s.ranks[x].stage == Pack && s.ranks[x].job >= |jobs|)
    requires forall x :: 0 <= x < n && s.ranks[x].stage == Exchange ==> s.ranks[r].job <= s.ranks[x].job
    ensures Enabled(jobs, s, n, capacity, step)
  {
    var l := s.ranks[r].job;
    assert RankInv(jobs, s, n, capacity, r);
    if x :| 0 <= x < n && s.sent[r][x] != l + 1 {
      assert RankInv(jobs, s, n, capacity, x);
      return Transfer(r, x);
    }
    if x :| 0 <= x < n && s.sent[x][r] != l + 1 {
      assert RankInv(jobs, s, n, capacity, x);
      return Transfer(x, r);
    }
    step := Leave(r);
  }

  // ---- every run ends --------------------------------------------------------------------

  /** A rank's steps so far: pack, leave and attend of every job. */
  function Pace<R>(k: Rank<R>): nat {
    3 * k.job + (match k.stage case Pack => 0 case Exchange => 1 case Attend => 2)
  }

  function Paces<R>(s: State<R>): (p: seq<nat>)
    ensures |p| == |s.ranks| && forall r :: 0 <= r < |p| ==> p[r] == Pace(s.ranks[r])
  {
    seq(|s.ranks|, r requires 0 <= r < |s.ranks| => Pace(s.ranks[r]))
  }

  function SentTotals<R>(s: State<R>): (t: seq<nat>)
    ensures |t| == |s.sent| && forall a :: 0 <= a < |t| ==> t[a] == Sum(s.sent[a])
  {
    seq(|s.sent|, a requires 0 <= a < |s.sent| => Sum(s.sent[a]))
  }

  /** All steps that led to a state. */
  function Work<R>(s: State<R>): nat { Sum(Paces(s)) + Sum(SentTotals(s)) }

  lemma LocalStepWorks<R>(jobs: Jobs<R>, s: State<R>, n: nat, capacity: nat, step: Step, r: nat)
    requires Enabled(jobs, s, n, capacity, step)
    requires step == DoPack(r) || step == Leave(r) || step == DoAttend(r)
    ensures Work(Apply(jobs, s, n, capacity, step)) == Work(s) + 1
  {
    var s' := Apply(jobs, s, n, capacity, step);
    assert s'.sent == s.sent;
    SumBump(Paces(s), Paces(s'), r);
  }

  lemma TransferWorks<R>(jobs: Jobs<R>, s: State<R>, n: nat, capacity: nat, a: nat, b: nat)
    requires Enabled(jobs, s, n, capacity, Transfer(a, b))
    ensures Work(Apply(jobs, s, n, capacity, Transfer(a, b))) == Work(s) + 1
  {
    var s' := Apply(jobs, s, n, capacity, Transfer(a, b));
    assert Paces(s') == Paces(s);
    SumBump(s.sent[a], s'.sent[a], b);
    SumBump(SentTotals(s), SentTotals(s'), a);
  }

  /** Every step adds exactly one to the work. */
  lemma {:induction false} RunWorks<R>(jobs: Jobs<R>, run: seq<State<R>>, steps: seq<Step>, n: nat, capacity: nat, i: nat)
    requires IsRun(jobs, run, steps, n, capacity) && i < |run|
    ensures Work(run[i]) == i
  {
    if i == 0 {
      forall a | 0 <= a < n
        ensures SentTotals(run[0])[a] == 0
      {
        SumZeros(run[0].sent[a]);
      }
      SumZeros(SentTotals(run[0]));
      SumZeros(Paces(run[0]));
    } else {
      RunWorks(jobs, run, steps, n, capacity, i - 1);
      match steps[i - 1] {
        case Transfer(a, b) => TransferWorks(jobs, run[i - 1], n, capacity, a, b);
        case DoPack(r) => LocalStepWorks(jobs, run[i - 1], n, capacity, steps[i - 1], r);
        case Leave(r) => LocalStepWorks(jobs, run[i - 1], n, capacity, steps[i - 1], r);
        case DoAttend(r) => LocalStepWorks(jobs, run[i - 1], n, capacity, steps[i - 1], r);
      }
    }
  }

  /** Three local steps per rank and layer run, and one transfer per pair of ranks. */
  function AllWork(jobs: nat, n: nat): nat { n * (3 * jobs) + n * (n * jobs) }

  lemma WorkBound<R>(jobs: Jobs<R>, s: State<R>, n: nat, capacity: nat)
    requires Inv(jobs, s, n, capacity)
    ensures Work(s) <= AllWork(|jobs|, n)
    ensures Done(jobs, s) ==> Work(s) == AllWork(|jobs|, n)
  {
    forall r | 0 <= r < n
      ensures Paces(s)[r] <= 3 * |jobs| && SentTotals(s)[r] <= n * |jobs|
      ensures Done(jobs, s) ==> Paces(s)[r] == 3 * |jobs| && SentTotals(s)[r] == n * |jobs|
    {
      assert RankInv(jobs, s, n, capacity, r);
      SumAtMost(s.sent[r], |jobs|);
      if Done(jobs, s) {
        SumConstant(s.sent[r], |jobs|);
      }
    }
    SumAtMost(Paces(s), 3 * |jobs|);
    SumAtMost(SentTotals(s), n * |jobs|);
    if Done(jobs, s) {
      SumConstant(Paces(s), 3 * |jobs|);
      SumConstant(SentTotals(s), n * |jobs|);
    }
  }

  lemma RunBound<R>(jobs: Jobs<R>, run: seq<State<R>>, steps: seq<Step>, n: nat, capacity: nat)
    requires IsRun(jobs, run, steps, n, capacity)
    ensures |steps| <= AllWork(|jobs|, n) && (Done(jobs, run[|steps|]) ==> |steps| == AllWork(|jobs|, n))
  {
    ReachableInv(jobs, run, steps, n, capacity, |steps|);
    WorkBound(jobs, run[|steps|], n, capacity);
    RunWorks(jobs, run, steps, n, capacity, |steps|);
  }

  lemma Extended<R>(jobs: Jobs<R>, run: seq<State<R>>, steps: seq<Step>, n: nat, capacity: nat, step: Step)
    requires IsRun(jobs, run, steps, n, capacity) && Enabled(jobs, run[|steps|], n, capacity, step)
    ensures IsRun(jobs, run + [Apply(jobs, run[|steps|], n, capacity, step)], steps + [step], n, capacity)
  {
  }

  /**
   Every run ends: no run has more than `AllWork` steps, and a run has run all layers
   on all ranks if and only if it has made that many.
   */
  lemma RunsEnd<R>(jobs: Jobs<R>, run: seq<State<R>>, steps: seq<Step>, n: nat, capacity: nat)
    requires IsRun(jobs, run, steps, n, capacity)
    ensures |steps| <= AllWork(|jobs|, n)
    ensures |steps| == AllWork(|jobs|, n) <==> Done(jobs, run[|steps|])
  {
    RunBound(jobs, run, steps, n, capacity);
    if !Done(jobs, run[|steps|]) {
      var step := NeverStuck(jobs, run, steps, n, capacity, |steps|);
      Extended(jobs, run, steps, n, capacity, step);
      RunBound(jobs, run + [Apply(jobs, run[|steps|], n, capacity, step)], steps + [step], n, capacity);
    }
  }
}
