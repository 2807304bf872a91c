/**
 The racing compaction of one top-k row: every tile of the row first reserves a
 range of the output with one atomic add and then stores its valid slots there,
 lane by lane, while the other tiles do the same in any order.
 */
module Compaction {
  import opened Seqs

  /** What each lane of a tile computed: a slot to keep, or nothing. */
  type Tile = seq<Option<int>>

  /** The slots a tile keeps, in lane order. */
  function Kept(tile: Tile): seq<int> {
    if tile == [] then []
    else
      var last := tile[|tile| - 1];
      Kept(tile[..|tile| - 1]) + (if last.Some? then [last.value] else [])
  }

  /** `cumsum(valid) - valid`: the offset of a lane inside its tile's range. */
  function Offset(tile: Tile, lane: nat): nat
    requires lane < |tile|
  {
    |Kept(tile[..lane])|
  }

  function KeptAll(tiles: seq<Tile>): (r: seq<seq<int>>)
    ensures |r| == |tiles| && forall t :: 0 <= t < |tiles| ==> r[t] == Kept(tiles[t])
  {
    seq(|tiles|, t requires 0 <= t < |tiles| => Kept(tiles[t]))
  }

  function Width(tiles: seq<Tile>): nat { |Flatten(tiles)| }

  lemma {:induction false} LaneTarget(tile: Tile, lane: nat)
    requires lane < |tile| && tile[lane].Some?
    ensures Offset(tile, lane) < |Kept(tile)|
    ensures Kept(tile)[Offset(tile, lane)] == tile[lane].value
  {
    var n := |tile| - 1;
    if lane < n {
      LaneTarget(tile[..n], lane);
      assert tile[..n][..lane] == tile[..lane];
    }
  }

  /** Every kept position is some valid lane's target. */
  lemma {:induction false} LaneFor(tile: Tile, p: nat) returns (lane: nat)
    requires p < |Kept(tile)|
    ensures lane < |tile| && tile[lane].Some? && Offset(tile, lane) == p
  {
    var n := |tile| - 1;
    if p < |Kept(tile[..n])| {
      lane := LaneFor(tile[..n], p);
      assert tile[..n][..lane] == tile[..lane];
    } else {
      lane := n;
    }
  }

  lemma {:induction false} KeptFits(tiles: seq<Tile>)
    ensures |Flatten(KeptAll(tiles))| <= Width(tiles)
  {
    if tiles != [] {
      var n := |tiles| - 1;
      KeptFits(tiles[..n]);
      assert KeptAll(tiles)[..n] == KeptAll(tiles[..n]);
      KeptShorter(tiles[n]);
    }
  }

  lemma {:induction false} KeptShorter(tile: Tile)
    ensures |Kept(tile)| <= |tile|
  {
    if tile != [] {
      KeptShorter(tile[..|tile| - 1]);
    }
  }

  // ---- the kernel as a transition system -----------------------------------

  /**
   `base[t]` is what tile `t`'s atomic add returned, `stored[t]` the lanes whose
   store has happened. `log` is a history variable: the tiles in the order of
   their atomic adds.
   */
  datatype State = State(count: nat, base: seq<Option<nat>>, stored: seq<set<nat>>,
                         out: seq<int>, log: seq<nat>)

  datatype Step = Reserve(tile: nat) | Store(tile: nat, lane: nat)

  /** After `out.fill_(-1)` and `valid_counts.zero_()`. */
  function Initial(tiles: seq<Tile>): State {
    State(0, seq(|tiles|, _ => None), seq(|tiles|, _ => {}), seq(Width(tiles), _ => -1), [])
  }

  predicate WellFormed(tiles: seq<Tile>, s: State) {
    |s.base| == |s.stored| == |tiles| && |s.out| == Width(tiles)
  }

  predicate Enabled(tiles: seq<Tile>, s: State, step: Step) {
    WellFormed(tiles, s) && step.tile < |tiles| &&
    match step
    case Reserve(t) => s.base[t].None?
    case Store(t, lane) => s.base[t].Some? && lane < |tiles[t]| && lane !in s.stored[t]
  }

  /** A store outside the row would be lost here; `StoresInBounds` shows there is none. */
  function Write(out: seq<int>, p: nat, v: int): (r: seq<int>)
    ensures |r| == |out|
  {
    if p < |out| then out[p := v] else out
  }

  function Apply(tiles: seq<Tile>, s: State, step: Step): (s': State)
    requires Enabled(tiles, s, step)
    ensures WellFormed(tiles, s')
  {
    match step
    case Reserve(t) =>
      s.(count := s.count + |Kept(tiles[t])|, base := s.base[t := Some(s.count)], log := s.log + [t])
    case Store(t, lane) =>
      var s' := s.(stored := s.stored[t := s.stored[t] + {lane}]);
      match tiles[t][lane]
      case None => s'
      case Some(slot) => s'.(out := Write(s.out, s.base[t].value + Offset(tiles[t], lane), slot))
  }

  /** The state after a schedule, or nothing when a step of it was not enabled. */
  function Exec(tiles: seq<Tile>, schedule: seq<Step>): Option<State> {
    if schedule == [] then Some(Initial(tiles))
    else
      var before := Exec(tiles, schedule[..|schedule| - 1]);
      var step := schedule[|schedule| - 1];
      if before.Some? && Enabled(tiles, before.value, step)
      then Some(Apply(tiles, before.value, step))
      else None
  }

  /** All tiles have reserved and all lanes have stored. */
  ghost predicate Finished(tiles: seq<Tile>, s: State) {
    forall step :: !Enabled(tiles, s, step)
  }

  // ---- the invariant ---------------------------------------------------------

  /** Tiles below `n` that have not reserved yet. */
  function Pending(base: seq<Option<nat>>, n: nat): (r: seq<nat>)
    requires n <= |base|
    ensures forall i :: 0 <= i < |r| ==> r[i] < n
  {
    if n == 0 then []
    else Pending(base, n - 1) + (if base[n - 1].None? then [n - 1] else [])
  }

  function Upto(n: nat): seq<nat> { seq(n, i => i) }

  ghost predicate Ordered(tiles: seq<Tile>, s: State) {
    WellFormed(tiles, s)
    && (forall i :: 0 <= i < |s.log| ==> s.log[i] < |tiles|)
    && multiset(s.log + Pending(s.base, |tiles|)) == multiset(Upto(|tiles|))
  }

  /** The kept slots of the reserved tiles, in reservation order. */
  function Arranged(tiles: seq<Tile>, s: State): seq<seq<int>>
    requires forall i :: 0 <= i < |s.log| ==> s.log[i] < |tiles|
  {
    Select(KeptAll(tiles), s.log)
  }

  /** The counter and the ranges that the reserved tiles got. */
  ghost predicate Ranges(tiles: seq<Tile>, s: State) {
    Ordered(tiles, s)
    && s.count == |Flatten(Arranged(tiles, s))| <= |s.out|
    && (forall i :: 0 <= i < |s.log| ==> s.base[s.log[i]] == Some(Start(Lengths(Arranged(tiles, s)), i)))
    && (forall t, lane | 0 <= t < |tiles| && lane in s.stored[t] :: s.base[t].Some? && lane < |tiles[t]|)
  }

  /** Lane `lane` of tile `t` has its slot in the output. */
  ghost predicate Landed(tiles: seq<Tile>, s: State, t: nat, lane: nat)
    requires t < |tiles| && lane < |tiles[t]|
  {
    tiles[t][lane].Some? && t < |s.base| && s.base[t].Some? ==>
      s.base[t].value + Offset(tiles[t], lane) < s.count <= |s.out|
      && s.out[s.base[t].value + Offset(tiles[t], lane)] == tiles[t][lane].value
  }

  ghost predicate Inv(tiles: seq<Tile>, s: State) {
    Ranges(tiles, s)
    && (forall t, lane | 0 <= t < |tiles| && lane in s.stored[t] :: Landed(tiles, s, t, lane))
    && (forall p :: s.count <= p < |s.out| ==> s.out[p] == -1)
  }

  lemma {:induction false} PendingSame(base: seq<Option<nat>>, n: nat, t: nat, v: nat)
    requires n <= t < |base|
    ensures Pending(base[t := Some(v)], n) == Pending(base, n)
  {
    if n > 0 {
      PendingSame(base, n - 1, t, v);
    }
  }

  lemma {:induction false} PendingOpen(base: seq<Option<nat>>, n: nat, i: nat)
    requires n <= |base| && i < |Pending(base, n)|
    ensures base[Pending(base, n)[i]].None?
  {
    if i < |Pending(base, n - 1)| {
      PendingOpen(base, n - 1, i);
    }
  }

  /** A reservation takes its tile out of the pending ones, wherever it stands. */
  lemma {:induction false} PendingSplit(base: seq<Option<nat>>, n: nat, t: nat, v: nat) returns (a: seq<nat>, b: seq<nat>)
    requires t < n <= |base| && base[t].None?
    ensures Pending(base, n) == a + [t] + b && Pending(base[t := Some(v)], n) == a + b
  {
    if t == n - 1 {
      PendingSame(base, n - 1, t, v);
      a, b := Pending(base, n - 1), [];
    } else {
      a, b := PendingSplit(base, n - 1, t, v);
      b := b + (if base[n - 1].None? then [n - 1] else []);
    }
  }

  lemma PendingTaken(base: seq<Option<nat>>, n: nat, t: nat, v: nat)
    requires t < n <= |base| && base[t].None?
    ensures multiset(Pending(base, n)) == multiset(Pending(base[t := Some(v)], n)) + multiset{t}
  {
    var a, b := PendingSplit(base, n, t, v);
    MultisetInsert(a, [t], b);
  }

  lemma {:induction false} PendingAll(base: seq<Option<nat>>, n: nat)
    requires n <= |base| && forall t :: 0 <= t < n ==> base[t].None?
    ensures Pending(base, n) == Upto(n)
  {
    if n > 0 {
      PendingAll(base, n - 1);
    }
  }

  lemma {:induction false} PendingNone(base: seq<Option<nat>>, n: nat)
    requires n <= |base| && forall t :: 0 <= t < n ==> base[t].Some?
    ensures Pending(base, n) == []
  {
    if n > 0 {
      PendingNone(base, n - 1);
    }
  }

  lemma InInLog(tiles: seq<Tile>, s: State, t: nat) returns (i: nat)
    requires Ordered(tiles, s) && t < |tiles| && s.base[t].Some?
    ensures i < |s.log| && s.log[i] == t
  {
    var all := s.log + Pending(s.base, |tiles|);
    assert Upto(|tiles|)[t] == t;
    assert t in multiset(all);
    i :| 0 <= i < |all| && all[i] == t;
    if i >= |s.log| {
      PendingOpen(s.base, |tiles|, i - |s.log|);
    }
  }

  /** The whole reservation order keeps exactly the slots the tiles keep in tile order. */
  lemma ArrangedTotal(tiles: seq<Tile>, s: State)
    requires Ordered(tiles, s)
    ensures |Flatten(Arranged(tiles, s))| <= |s.out|
    ensures Pending(s.base, |tiles|) == [] ==>
      multiset(Flatten(Arranged(tiles, s))) == multiset(Flatten(KeptAll(tiles)))
  {
    var kept, rest := KeptAll(tiles), Pending(s.base, |tiles|);
    FlattenPermuted(kept, s.log + rest, Upto(|tiles|));
    assert Select(kept, Upto(|tiles|)) == kept;
    SelectConcat(kept, s.log, rest);
    FlattenConcat(Arranged(tiles, s), Select(kept, rest));
    KeptFits(tiles);
    SameSize(Flatten(Select(kept, s.log + rest)), Flatten(kept));
    if rest == [] {
      assert s.log + rest == s.log;
    }
  }

  lemma SameSize<T>(a: seq<T>, b: seq<T>)
    requires multiset(a) == multiset(b)
    ensures |a| == |b|
  {
    assert |multiset(a)| == |a| && |multiset(b)| == |b|;
  }

  /** A reserved tile's range holds its slots in the layout. */
  lemma Range(tiles: seq<Tile>, s: State, t: nat)
    requires Ranges(tiles, s) && t < |tiles| && s.base[t].Some?
    ensures s.base[t].value + |Kept(tiles[t])| <= s.count
    ensures Flatten(Arranged(tiles, s))[s.base[t].value..s.base[t].value + |Kept(tiles[t])|] == Kept(tiles[t])
  {
    var i := InInLog(tiles, s, t);
    FlattenAt(Arranged(tiles, s), i);
  }

  lemma InitialInv(tiles: seq<Tile>)
    ensures Inv(tiles, Initial(tiles))
  {
    var s := Initial(tiles);
    PendingAll(s.base, |tiles|);
    assert s.log + Pending(s.base, |tiles|) == Upto(|tiles|);
    assert Arranged(tiles, s) == [];
  }

  lemma ReserveOrdered(tiles: seq<Tile>, s: State, t: nat)
    requires Ordered(tiles, s) && Enabled(tiles, s, Reserve(t))
    ensures Ordered(tiles, Apply(tiles, s, Reserve(t)))
  {
    var s' := Apply(tiles, s, Reserve(t));
    PendingTaken(s.base, |tiles|, t, s.count);
    var rest, rest' := Pending(s.base, |tiles|), Pending(s'.base, |tiles|);
    assert multiset(s'.log + rest') == multiset(s.log) + multiset{t} + multiset(rest');
    assert multiset(s.log + rest) == multiset(s.log) + multiset(rest);
  }

  lemma ReserveArranged(tiles: seq<Tile>, s: State, t: nat)
    requires Ordered(tiles, s) && Enabled(tiles, s, Reserve(t))
    ensures forall i :: 0 <= i < |s.log| + 1 ==> Apply(tiles, s, Reserve(t)).log[i] < |tiles|
    ensures Arranged(tiles, Apply(tiles, s, Reserve(t))) == Arranged(tiles, s) + [Kept(tiles[t])]
    ensures Flatten(Arranged(tiles, Apply(tiles, s, Reserve(t)))) == Flatten(Arranged(tiles, s)) + Kept(tiles[t])
  {
    var parts := Arranged(tiles, s);
    assert (parts + [Kept(tiles[t])])[..|parts|] == parts;
    assert Arranged(tiles, Apply(tiles, s, Reserve(t))) == parts + [Kept(tiles[t])];
  }

  lemma StartsKept<T>(parts: seq<seq<T>>, last: seq<T>, i: nat)
    requires i <= |parts|
    ensures Start(Lengths(parts + [last]), i) == Start(Lengths(parts), i)
    ensures i == |parts| ==> Start(Lengths(parts), i) == |Flatten(parts)|
  {
    assert Lengths(parts + [last])[..i] == Lengths(parts)[..i];
    if i == |parts| {
      LengthsPrefix(parts, i);
      assert parts[..i] == parts;
    }
  }

  lemma ReserveRanges(tiles: seq<Tile>, s: State, t: nat)
    requires Ranges(tiles, s) && Enabled(tiles, s, Reserve(t))
    ensures Ranges(tiles, Apply(tiles, s, Reserve(t)))
  {
    var s', parts := Apply(tiles, s, Reserve(t)), Arranged(tiles, s);
    ReserveOrdered(tiles, s, t);
    ReserveArranged(tiles, s, t);
    ArrangedTotal(tiles, s');
    forall i | 0 <= i < |s'.log|
      ensures s'.base[s'.log[i]] == Some(Start(Lengths(parts + [Kept(tiles[t])]), i))
    {
      StartsKept(parts, Kept(tiles[t]), i);
      if i < |s.log| {
        assert s.base[s.log[i]].Some?;
      }
    }
  }

  lemma ReserveInv(tiles: seq<Tile>, s: State, t: nat)
    requires Inv(tiles, s) && Enabled(tiles, s, Reserve(t))
    ensures Inv(tiles, Apply(tiles, s, Reserve(t)))
  {
    var s' := Apply(tiles, s, Reserve(t));
    ReserveRanges(tiles, s, t);
    forall u, lane | 0 <= u < |tiles| && lane in s'.stored[u]
      ensures Landed(tiles, s', u, lane)
    {
      assert Landed(tiles, s, u, lane);
    }
  }

  lemma StoreRanges(tiles: seq<Tile>, s: State, t: nat, lane: nat)
    requires Ranges(tiles, s) && Enabled(tiles, s, Store(t, lane))
    ensures Ranges(tiles, Apply(tiles, s, Store(t, lane)))
    ensures Arranged(tiles, Apply(tiles, s, Store(t, lane))) == Arranged(tiles, s)
  {
    var s' := Apply(tiles, s, Store(t, lane));
    assert s'.log == s.log && s'.base == s.base && s'.count == s.count && |s'.out| == |s.out|;
    assert Ordered(tiles, s');
    forall u, x | 0 <= u < |tiles| && x in s'.stored[u]
      ensures s'.base[u].Some? && x < |tiles[u]|
    {
    }
  }

  lemma StoreInv(tiles: seq<Tile>, s: State, t: nat, lane: nat)
    requires Inv(tiles, s) && Enabled(tiles, s, Store(t, lane))
    ensures Inv(tiles, Apply(tiles, s, Store(t, lane)))
  {
    var s' := Apply(tiles, s, Store(t, lane));
    StoreRanges(tiles, s, t, lane);
    if tiles[t][lane].Some? {
      TargetValue(tiles, s, t, lane);
    }
    forall u, other | 0 <= u < |tiles| && other in s'.stored[u]
      ensures Landed(tiles, s', u, other)
    {
      StillLanded(tiles, s, t, lane, u, other);
    }
  }

  /** Two lanes that share a target, if any did, would hold the same slot. */
  lemma StillLanded(tiles: seq<Tile>, s: State, t: nat, lane: nat, u: nat, other: nat)
    requires Inv(tiles, s) && Enabled(tiles, s, Store(t, lane)) && u < |tiles|
    requires other in s.stored[u] || (u == t && other == lane)
    ensures other < |tiles[u]| && Landed(tiles, Apply(tiles, s, Store(t, lane)), u, other)
  {
    if tiles[t][lane].Some? {
      TargetValue(tiles, s, t, lane);
    }
    if tiles[u][other].Some? {
      TargetValue(tiles, s, u, other);
    }
    if other in s.stored[u] {
      assert Landed(tiles, s, u, other);
    }
  }

  /** A lane's target lies below the counter and is meant for that lane's slot. */
  lemma TargetValue(tiles: seq<Tile>, s: State, t: nat, lane: nat)
    requires Ranges(tiles, s) && t < |tiles| && s.base[t].Some?
    requires lane < |tiles[t]| && tiles[t][lane].Some?
    ensures s.base[t].value + Offset(tiles[t], lane) < s.count
    ensures Flatten(Arranged(tiles, s))[s.base[t].value + Offset(tiles[t], lane)] == tiles[t][lane].value
  {
    Range(tiles, s, t);
    LaneTarget(tiles[t], lane);
    var b, k := s.base[t].value, Kept(tiles[t]);
    assert Flatten(Arranged(tiles, s))[b..b + |k|][Offset(tiles[t], lane)] == k[Offset(tiles[t], lane)];
  }

  lemma {:induction false} ReachableInv(tiles: seq<Tile>, schedule: seq<Step>)
    requires Exec(tiles, schedule).Some?
    ensures Inv(tiles, Exec(tiles, schedule).value)
  {
    if schedule == [] {
      InitialInv(tiles);
    } else {
      var n := |schedule| - 1;
      ReachableInv(tiles, schedule[..n]);
      var s := Exec(tiles, schedule[..n]).value;
      match schedule[n]
      case Reserve(t) => ReserveInv(tiles, s, t);
      case Store(t, lane) => StoreInv(tiles, s, t, lane);
    }
  }

  // ---- what holds on every schedule -------------------------------------------

  /** No store ever leaves the row, in any reachable state. */
  lemma StoresInBounds(tiles: seq<Tile>, schedule: seq<Step>, t: nat, lane: nat)
    requires Exec(tiles, schedule).Some?
    requires Enabled(tiles, Exec(tiles, schedule).value, Store(t, lane)) && tiles[t][lane].Some?
    ensures var s := Exec(tiles, schedule).value;
      s.base[t].value + Offset(tiles[t], lane) < s.count <= |s.out|
  {
    ReachableInv(tiles, schedule);
    TargetValue(tiles, Exec(tiles, schedule).value, t, lane);
  }

  /** The ranges that two tiles reserved never overlap. */
  lemma RangesDisjoint(tiles: seq<Tile>, schedule: seq<Step>, t: nat, u: nat)
    requires Exec(tiles, schedule).Some? && t < |tiles| && u < |tiles| && t != u
    requires var s := Exec(tiles, schedule).value; s.base[t].Some? && s.base[u].Some?
    ensures var s := Exec(tiles, schedule).value;
      || s.base[t].value + |Kept(tiles[t])| <= s.base[u].value
      || s.base[u].value + |Kept(tiles[u])| <= s.base[t].value
  {
    ReachableInv(tiles, schedule);
    RangesApart(tiles, Exec(tiles, schedule).value, t, u);
  }

  lemma RangesApart(tiles: seq<Tile>, s: State, t: nat, u: nat)
    requires Inv(tiles, s) && t < |tiles| && u < |tiles| && t != u
    requires s.base[t].Some? && s.base[u].Some?
    ensures || s.base[t].value + |Kept(tiles[t])| <= s.base[u].value
            || s.base[u].value + |Kept(tiles[u])| <= s.base[t].value
  {
    var i := InInLog(tiles, s, t);
    var j := InInLog(tiles, s, u);
    var lens := Lengths(Arranged(tiles, s));
    var a, b := Min(i, j), Max(i, j);
    StartStep(lens, a);
    StartMono(lens, a + 1, b);
  }

  /**
   Whatever the schedule: once nothing is left to do, the first `count` entries
   are a permutation of the slots the tiles keep, and the rest of the row is -1.
   */
  lemma Compacted(tiles: seq<Tile>, schedule: seq<Step>)
    requires Exec(tiles, schedule).Some? && Finished(tiles, Exec(tiles, schedule).value)
    ensures var s := Exec(tiles, schedule).value;
      && s.count == |Flatten(KeptAll(tiles))| <= |s.out|
      && multiset(s.out[..s.count]) == multiset(Flatten(KeptAll(tiles)))
      && forall p :: s.count <= p < |s.out| ==> s.out[p] == -1
  {
    ReachableInv(tiles, schedule);
    FinishedContents(tiles, Exec(tiles, schedule).value);
  }

  lemma FinishedContents(tiles: seq<Tile>, s: State)
    requires Inv(tiles, s) && Finished(tiles, s)
    ensures s.count == |Flatten(KeptAll(tiles))| <= |s.out|
    ensures multiset(s.out[..s.count]) == multiset(Flatten(KeptAll(tiles)))
  {
    var flat := Flatten(Arranged(tiles, s));
    forall t | 0 <= t < |tiles|
      ensures s.base[t].Some?
    {
      assert !Enabled(tiles, s, Reserve(t));
    }
    PendingNone(s.base, |tiles|);
    ArrangedTotal(tiles, s);
    SameSize(flat, Flatten(KeptAll(tiles)));
    forall p | 0 <= p < s.count
      ensures s.out[p] == flat[p]
    {
      FinishedCell(tiles, s, p);
    }
    assert s.out[..s.count] == flat;
  }

  /** Every position below the counter is the target of some lane. */
  lemma CellLane(tiles: seq<Tile>, s: State, p: nat) returns (t: nat, lane: nat)
    requires Ranges(tiles, s) && p < s.count
    ensures t < |tiles| && s.base[t].Some? && lane < |tiles[t]| && tiles[t][lane].Some?
    ensures s.base[t].value + Offset(tiles[t], lane) == p
  {
    var parts := Arranged(tiles, s);
    FlattenLength(parts);
    var i := PartOf(Lengths(parts), p);
    t := s.log[i];
    lane := LaneFor(tiles[t], p - Start(Lengths(parts), i));
  }

  lemma FinishedCell(tiles: seq<Tile>, s: State, p: nat)
    requires Inv(tiles, s) && Finished(tiles, s) && p < s.count
    ensures s.out[p] == Flatten(Arranged(tiles, s))[p]
  {
    var t, lane := CellLane(tiles, s, p);
    assert !Enabled(tiles, s, Store(t, lane));
    TargetValue(tiles, s, t, lane);
    assert Landed(tiles, s, t, lane);
  }

  /** The part of a concatenation in which a position falls. */
  lemma {:induction false} PartOf(lens: seq<nat>, p: nat) returns (i: nat)
    requires p < Sum(lens)
    ensures i < |lens| && Start(lens, i) <= p < Start(lens, i) + lens[i]
  {
    var n := |lens| - 1;
    if p < Sum(lens[..n]) {
      i := PartOf(lens[..n], p);
      assert lens[..n][..i] == lens[..i];
    } else {
      i := n;
    }
  }

  // ---- the launch over a real output row ----------------------------------------

  /**
   Fills the row, then lets a scheduler pick any enabled step until none is left.
   `schedule` records what the scheduler did.
   */
  method LaunchRow(tiles: seq<Tile>, out: array<int>) returns (count: nat, ghost schedule: seq<Step>)
    requires out.Length == Width(tiles)
    modifies out
    ensures Exec(tiles, schedule).Some? && Finished(tiles, Exec(tiles, schedule).value)
    ensures count == |Flatten(KeptAll(tiles))| <= out.Length
    ensures multiset(out[..count]) == multiset(Flatten(KeptAll(tiles)))
    ensures forall p :: count <= p < out.Length ==> out[p] == -1
  {
    for p := 0 to out.Length
      invariant forall q :: 0 <= q < p ==> out[q] == -1
    {
      out[p] := -1;
    }
    count, schedule := 0, [];
    var base: seq<Option<nat>> := seq(|tiles|, _ => None);
    var todo: set<Step> := set t: nat | t < |tiles| :: Reserve(t);
    ghost var s := Initial(tiles);
    InitialInv(tiles);
    assert out[..] == s.out;
    FirstSteps(tiles);
    while todo != {}
      invariant Exec(tiles, schedule) == Some(s) && Inv(tiles, s)
      invariant s.count == count && s.base == base && s.out == out[..]
      invariant forall step :: step in todo <==> Enabled(tiles, s, step)
      decreases |Pending(s.base, |tiles|)|, todo
    {
      var step :| step in todo;
      TodoExact(tiles, s, todo, step);
      AfterStep(tiles, s, step);
      todo := NextTodo(tiles, todo, step);
      count, base := Perform(tiles, out, count, base, step, s);
      ExecStep(tiles, schedule, step);
      s, schedule := Apply(tiles, s, step), schedule + [step];
    }
    FinishedContents(tiles, s);
  }

  /** One kernel step on the real counter, registers and output row. */
  method Perform(tiles: seq<Tile>, out: array<int>, count: nat, base: seq<Option<nat>>, step: Step, ghost s: State)
    returns (count': nat, base': seq<Option<nat>>)
    requires Inv(tiles, s) && Enabled(tiles, s, step)
    requires s.count == count && s.base == base && s.out == out[..]
    modifies out
    ensures var s' := Apply(tiles, s, step);
      s'.count == count' && s'.base == base' && s'.out == out[..]
  {
    count', base' := count, base;
    match step {
      case Reserve(t) =>
        base' := base[t := Some(count)];
        count' := count + |Kept(tiles[t])|;
      case Store(t, lane) =>
        match tiles[t][lane] {
          case None =>
          case Some(slot) =>
            TargetValue(tiles, s, t, lane);
            out[base[t].value + Offset(tiles[t], lane)] := slot;
        }
    }
  }

  /** A reservation lets the tile's own stores start. */
  function NextTodo(tiles: seq<Tile>, todo: set<Step>, step: Step): set<Step>
    requires step.tile < |tiles|
  {
    if step.Reserve?
    then todo - {step} + set lane: nat | lane < |tiles[step.tile]| :: Store(step.tile, lane)
    else todo - {step}
  }

  lemma TodoExact(tiles: seq<Tile>, s: State, todo: set<Step>, step: Step)
    requires Inv(tiles, s) && Enabled(tiles, s, step)
    requires forall other :: other in todo <==> Enabled(tiles, s, other)
    ensures forall other :: other in NextTodo(tiles, todo, step) <==> Enabled(tiles, Apply(tiles, s, step), other)
  {
    EnabledAfter(tiles, s, step);
  }

  lemma ExecStep(tiles: seq<Tile>, schedule: seq<Step>, step: Step)
    requires Exec(tiles, schedule).Some? && Enabled(tiles, Exec(tiles, schedule).value, step)
    ensures Exec(tiles, schedule + [step]) == Some(Apply(tiles, Exec(tiles, schedule).value, step))
  {
    assert (schedule + [step])[..|schedule|] == schedule;
  }

  lemma FirstSteps(tiles: seq<Tile>)
    ensures forall step :: step in (set t: nat | t < |tiles| :: Reserve(t)) <==> Enabled(tiles, Initial(tiles), step)
  {
    forall step | Enabled(tiles, Initial(tiles), step)
      ensures step in (set t: nat | t < |tiles| :: Reserve(t))
    {
      assert step == Reserve(step.tile);
    }
  }

  /** What a step keeps, and that a reservation makes progress. */
  lemma AfterStep(tiles: seq<Tile>, s: State, step: Step)
    requires Inv(tiles, s) && Enabled(tiles, s, step)
    ensures Inv(tiles, Apply(tiles, s, step))
    ensures step.Reserve? ==>
      |Pending(Apply(tiles, s, step).base, |tiles|)| < |Pending(s.base, |tiles|)|
  {
    match step {
      case Reserve(t) =>
        ReserveInv(tiles, s, t);
        PendingShrinks(s.base, t, s.count);
      case Store(t, lane) =>
        StoreInv(tiles, s, t, lane);
    }
  }

  lemma PendingShrinks(base: seq<Option<nat>>, t: nat, v: nat)
    requires t < |base| && base[t].None?
    ensures |Pending(base[t := Some(v)], |base|)| < |Pending(base, |base|)|
  {
    PendingTaken(base, |base|, t, v);
    var rest := Pending(base[t := Some(v)], |base|);
    SameSize(Pending(base, |base|), rest + [t]);
  }

  lemma EnabledAfter(tiles: seq<Tile>, s: State, step: Step)
    requires WellFormed(tiles, s) && Enabled(tiles, s, step)
    requires forall t :: 0 <= t < |tiles| && s.base[t].None? ==> s.stored[t] == {}
    ensures forall other :: Enabled(tiles, Apply(tiles, s, step), other) <==>
      || (other != step && Enabled(tiles, s, other))
      || (step.Reserve? && other.Store? && other.tile == step.tile && other.lane < |tiles[step.tile]|)
  {
  }
}
