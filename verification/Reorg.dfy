/**
 `reorg_kvcache`: un-padding the all-gathered shards of one context chunk. First the
 loop on arbitrary tensors, then what it yields on the messages that the ranks
 really gather.
 */
module Reorg {
  import opened Seqs
  import opened Sharding
  import opened Attention
  import opened ChunkPlan

  // ---- the loop ------------------------------------------------------------------------

  /** A tensor slice: bounds beyond the end are clamped. */
  function Slice<R>(s: seq<R>, from: nat, len: nat): (r: seq<R>)
    ensures from + len <= |s| ==> |r| == len && forall x :: 0 <= x < len ==> r[x] == s[from + x]
  {
    s[Min(from, |s|)..Min(from + len, |s|)]
  }

  /** Where rank `r`'s padded tokens of a request lie in the gathered tensor. */
  function PieceStart(toks: nat, src: nat, r: nat): nat {
    Region(r, toks) + src
  }

  /** What rank `r` contributes to a request whose padded tokens start at `src` in every message. */
  function Piece<R>(gathered: seq<R>, toks: nat, src: nat, offset: nat, padded: nat, localLens: seq<nat>, r: nat): seq<R>
    requires r < |localLens|
  {
    Slice(gathered, PieceStart(toks, src, r), Taken(localLens[r], offset, padded))
  }

  function Pieces<R>(gathered: seq<R>, toks: nat, src: nat, offset: nat, padded: nat, localLens: seq<nat>)
    : (ps: seq<seq<R>>)
    ensures |ps| == |localLens|
    ensures forall r :: 0 <= r < |ps| ==> ps[r] == Piece(gathered, toks, src, offset, padded, localLens, r)
  {
    seq(|localLens|, r requires 0 <= r < |localLens| => Piece(gathered, toks, src, offset, padded, localLens, r))
  }

  /** All requests in batch order, each un-padded: its ranks' pieces one after the other. */
  function Requests<R>(gathered: seq<R>, toks: nat, offset: nat, padded: seq<nat>, localLens: seq<seq<nat>>)
    : (rs: seq<seq<R>>)
    requires |localLens| == |padded|
    ensures |rs| == |padded|
    ensures forall b :: 0 <= b < |rs| ==>
      rs[b] == Flatten(Pieces(gathered, toks, Start(padded, b), offset, padded[b], localLens[b]))
  {
    seq(|padded|, b requires 0 <= b < |padded| =>
      Flatten(Pieces(gathered, toks, Start(padded, b), offset, padded[b], localLens[b])))
  }

  /** The inner loop, over the ranks. */
  method UnpadRequest<R>(gathered: seq<R>, toks: nat, src: nat, offset: nat, padded: nat, localLens: seq<nat>)
    returns (cur: seq<R>)
    ensures cur == Flatten(Pieces(gathered, toks, src, offset, padded, localLens))
  {
    cur := [];
    ghost var ps := Pieces(gathered, toks, src, offset, padded, localLens);
    for r := 0 to |localLens|
      invariant cur == Flatten(ps[..r])
    {
      var len := Min(Max(0, localLens[r] - offset), padded);
      if len != 0 {
        cur := cur + Slice(gathered, PieceStart(toks, src, r), len);
      }
      FlattenStep(ps, r);
    }
    assert ps[..|localLens|] == ps;
  }

  lemma RequestStep<R>(rows: seq<seq<R>>, b: nat)
    requires b < |rows|
    ensures Flatten(rows[..b + 1]) == Flatten(rows[..b]) + rows[b]
    ensures MaxOf(Lengths(rows)[..b + 1]) == Max(MaxOf(Lengths(rows)[..b]), |rows[b]|)
  {
    FlattenStep(rows, b);
    assert Lengths(rows)[..b + 1][..b] == Lengths(rows)[..b];
  }

  /** The outer loop, over the requests. */
  method UnpadRequests<R>(gathered: seq<R>, padded: seq<nat>, localLens: seq<seq<nat>>, offset: nat, toks: nat)
    returns (kv: seq<R>, longest: nat)
    requires |localLens| == |padded|
    ensures kv == Flatten(Requests(gathered, toks, offset, padded, localLens))
    ensures longest == MaxOf(Lengths(Requests(gathered, toks, offset, padded, localLens)))
  {
    ghost var rows := Requests(gathered, toks, offset, padded, localLens);
    kv, longest := [], 0;
    var src := 0;
    for b := 0 to |padded|
      invariant src == Start(padded, b)
      invariant kv == Flatten(rows[..b]) && longest == MaxOf(Lengths(rows)[..b])
    {
      var cur := UnpadRequest(gathered, toks, src, offset, padded[b], localLens[b]);
      RequestStep(rows, b);
      StartStep(padded, b);
      kv, longest, src := kv + cur, Max(longest, |cur|), src + padded[b];
    }
    assert rows[..|padded|] == rows && Lengths(rows)[..|padded|] == Lengths(rows);
  }

  /**
   The whole routine. `ok` says that it returns: there is a segment to concatenate
   (concatenating none raises) and the closing assertions hold.
   */
  method ReorgKvCache<R>(gathered: seq<R>, padded: seq<nat>, localLens: seq<seq<nat>>, sumSeqLen: nat, maxSeqLen: nat,
                         chunkSize: nat, chunkIdx: nat, toks: nat)
    returns (kv: seq<R>, ok: bool)
    requires |localLens| == |padded|
    ensures var rows := Requests(gathered, toks, Region(chunkIdx, chunkSize), padded, localLens);
      && kv == Flatten(rows)
      && (ok <==> kv != [] && |kv| == sumSeqLen && MaxOf(Lengths(rows)) == maxSeqLen)
  {
    var longest;
    kv, longest := UnpadRequests(gathered, padded, localLens, Region(chunkIdx, chunkSize), toks);
    ok := kv != [] && |kv| == sumSeqLen && longest == maxSeqLen;
  }

  // ---- what the ranks gather ---------------------------------------------------------------

  /** `read(r, b, i)`: what rank `r`'s pages hold for request `b` at local position `i`. */
  type Pages<!R> = (nat, nat, nat) -> R

  /**
   A rank's pages hold its share of the context; behind its own length they may
   hold anything.
   */
  ghost predicate Sharded<R>(p: Plan, read: Pages<R>, kv: (nat, nat) -> R) {
    p.Valid()
    && forall r, b, x | 0 <= r < p.c.ranks && 0 <= b < |p.ctx| && 0 <= x < LocalLen(p.c, p.ctx[b], r) ::
         read(r, b, x) == kv(b, ToGlobal(p.c, x, r))
  }

  /** `cp_gather_cache` for one request: the padded local chunk, from the chunk's local start on. */
  function LocalRow<R>(p: Plan, i: nat, read: Pages<R>, r: nat, b: nat): (row: seq<R>)
    requires p.Valid() && b < |p.ctx|
    ensures |row| == p.PaddedLen(i, b)
    ensures forall x :: 0 <= x < |row| ==> row[x] == read(r, b, p.LocalStart(i) + x)
  {
    var first := p.LocalStart(i);
    seq(p.PaddedLen(i, b), x requires 0 <= x => read(r, b, first + x))
  }

  function LocalRows<R>(p: Plan, i: nat, read: Pages<R>, r: nat): (rows: seq<seq<R>>)
    requires p.Valid()
    ensures |rows| == |p.ctx| && forall b :: 0 <= b < |rows| ==> rows[b] == LocalRow(p, i, read, r, b)
  {
    seq(|p.ctx|, b requires 0 <= b < |p.ctx| => LocalRow(p, i, read, r, b))
  }

  function LocalGathers<R>(p: Plan, i: nat, read: Pages<R>): (ms: seq<seq<R>>)
    requires p.Valid()
    ensures |ms| == p.c.ranks && forall r :: 0 <= r < |ms| ==> ms[r] == Flatten(LocalRows(p, i, read, r))
  {
    seq(p.c.ranks, r requires 0 <= r < p.c.ranks => Flatten(LocalRows(p, i, read, r)))
  }

  function AllGather<R>(p: Plan, i: nat, read: Pages<R>): seq<R>
    requires p.Valid()
  {
    Flatten(LocalGathers(p, i, read))
  }

  lemma LocalRowsLength<R>(p: Plan, i: nat, read: Pages<R>, r: nat)
    requires p.Valid()
    ensures Lengths(LocalRows(p, i, read, r)) == p.PaddedLens(i)
    ensures |Flatten(LocalRows(p, i, read, r))| == Toks(p, i)
  {
    assert Lengths(LocalRows(p, i, read, r)) == p.PaddedLens(i);
    FlattenLength(LocalRows(p, i, read, r));
  }

  /** Request `b` of rank `r` sits at `r * toks` plus the request's padded start. */
  lemma GatheredAt<R>(p: Plan, i: nat, read: Pages<R>, r: nat, b: nat)
    requires p.Valid() && r < p.c.ranks && b < |p.ctx|
    ensures var at := PieceStart(Toks(p, i), Start(p.PaddedLens(i), b), r);
      at + p.PaddedLen(i, b) <= |AllGather(p, i, read)|
      && AllGather(p, i, read)[at..at + p.PaddedLen(i, b)] == LocalRow(p, i, read, r, b)
  {
    var ms := LocalGathers(p, i, read);
    forall q | 0 <= q < |ms|
      ensures |ms[q]| == Toks(p, i)
    {
      LocalRowsLength(p, i, read, q);
    }
    LocalRowsLength(p, i, read, r);
    FlattenNested(ms, Toks(p, i), r, LocalRows(p, i, read, r), b);
  }

  // ---- what the routine yields -----------------------------------------------------------------

  function Range(lo: nat, hi: nat): (s: seq<nat>)
    requires lo <= hi
    ensures |s| == hi - lo && forall k :: 0 <= k < |s| ==> s[k] == lo + k
  {
    seq(hi - lo, k requires 0 <= k => lo + k)
  }

  /** `f(first)`, `f(first + 1)`, ..., `n` of them. */
  function Consecutive(f: nat -> nat, first: nat, n: nat): (s: seq<nat>)
    ensures |s| == n && forall x :: 0 <= x < n ==> s[x] == f(first + x)
  {
    seq(n, x requires 0 <= x => f(first + x))
  }

  function CountBelow(key: nat -> nat, n: nat, k: nat): nat {
    if n == 0 then 0 else CountBelow(key, n - 1, k) + (if key(n - 1) == k then 1 else 0)
  }

  lemma RangeSnoc(lo: nat, hi: nat)
    requires lo < hi
    ensures Range(lo, hi) == Range(lo, hi - 1) + [hi - 1]
  {
  }

  lemma ConsecutiveSnoc(f: nat -> nat, first: nat, n: nat)
    ensures Consecutive(f, first, n + 1) == Consecutive(f, first, n) + [f(first + n)]
  {
  }

  lemma BucketSnoc<T>(key: T -> nat, ts: seq<T>, x: T, k: nat)
    ensures Bucket(key, ts + [x], k) == Bucket(key, ts, k) + (if key(x) == k then [x] else [])
  {
    assert (ts + [x])[..|ts|] == ts;
  }

  ghost predicate Finds(key: nat -> nat, f: nat -> nat, t: nat, k: nat) {
    key(t) == k ==> f(CountBelow(key, t, k)) == t
  }

  lemma {:induction false} CountMono(key: nat -> nat, lo: nat, hi: nat, k: nat)
    requires lo <= hi
    ensures CountBelow(key, lo, k) <= CountBelow(key, hi, k)
    decreases hi - lo
  {
    if lo < hi {
      CountMono(key, lo, hi - 1, k);
    }
  }

  /** The list `BucketOfRange` speaks of. */
  function Listed(key: nat -> nat, f: nat -> nat, lo: nat, hi: nat, k: nat): seq<nat>
    requires lo <= hi
  {
    CountMono(key, lo, hi, k);
    Consecutive(f, CountBelow(key, lo, k), CountBelow(key, hi, k) - CountBelow(key, lo, k))
  }

  lemma ListedStep(key: nat -> nat, f: nat -> nat, lo: nat, hi: nat, k: nat)
    requires lo < hi && Finds(key, f, hi - 1, k)
    ensures Listed(key, f, lo, hi, k) == Listed(key, f, lo, hi - 1, k) + (if key(hi - 1) == k then [hi - 1] else [])
  {
    CountMono(key, lo, hi - 1, k);
    ConsecutiveSnoc(f, CountBelow(key, lo, k), CountBelow(key, hi - 1, k) - CountBelow(key, lo, k));
  }

  /**
   If `f` finds a member of bucket `k` from the number of members before it, then
   filtering a range lists consecutive values of `f`.
   */
  lemma {:induction false} BucketOfRange(key: nat -> nat, f: nat -> nat, lo: nat, hi: nat, k: nat)
    requires lo <= hi && forall t: nat :: t < hi ==> Finds(key, f, t, k)
    ensures Bucket<nat>(key, Range(lo, hi), k) == Listed(key, f, lo, hi, k)
    decreases hi - lo
  {
    if lo < hi {
      BucketOfRange(key, f, lo, hi - 1, k);
      RangeSnoc(lo, hi);
      BucketSnoc<nat>(key, Range(lo, hi - 1), hi - 1, k);
      ListedStep(key, f, lo, hi, k);
    }
  }

  function Globals(c: Layout, r: nat): nat -> nat
    requires c.Valid()
  {
    x => ToGlobal(c, x, r)
  }

  lemma {:induction false} CountIsLocalLen(c: Layout, n: nat, r: nat)
    requires c.Valid() && r < c.ranks
    ensures CountBelow(OwnerKey(c), n, r) == LocalLen(c, n, r)
  {
    if n == 0 {
      LocalLenZero(c, r);
    } else {
      CountIsLocalLen(c, n - 1, r);
      LocalLenStep(c, n - 1, r);
    }
  }

  lemma NextOwned(c: Layout, t: nat, r: nat)
    requires c.Valid() && r < c.ranks
    ensures Finds(OwnerKey(c), Globals(c, r), t, r)
  {
    CountIsLocalLen(c, t, r);
    LocalIsRank(c, t);
    LocalOfGlobal(c, t);
  }

  /** The tokens of a range that one rank owns are those at consecutive local positions. */
  lemma OwnedRange(c: Layout, lo: nat, hi: nat, r: nat)
    requires c.Valid() && r < c.ranks && lo <= hi
    ensures LocalLen(c, lo, r) <= LocalLen(c, hi, r)
    ensures Bucket<nat>(OwnerKey(c), Range(lo, hi), r)
         == Consecutive(Globals(c, r), LocalLen(c, lo, r), LocalLen(c, hi, r) - LocalLen(c, lo, r))
  {
    forall t: nat | t < hi
      ensures Finds(OwnerKey(c), Globals(c, r), t, r)
    {
      NextOwned(c, t, r);
    }
    BucketOfRange(OwnerKey(c), Globals(c, r), lo, hi, r);
    CountIsLocalLen(c, lo, r);
    CountIsLocalLen(c, hi, r);
  }

  function LocalLens(p: Plan): (s: seq<seq<nat>>)
    requires p.Valid()
    ensures |s| == |p.ctx| && forall b :: 0 <= b < |s| ==> s[b] == LensOf(p.c, p.ctx[b])
  {
    seq(|p.ctx|, b requires 0 <= b < |p.ctx| => LensOf(p.c, p.ctx[b]))
  }

  /** The un-padded requests of chunk `i`, as the routine computes them. */
  function Unpadded<R>(p: Plan, i: nat, read: Pages<R>): (rs: seq<seq<R>>)
    requires p.Valid()
    ensures |rs| == |p.ctx|
  {
    Requests(AllGather(p, i, read), Toks(p, i), p.LocalStart(i), p.PaddedLens(i), LocalLens(p))
  }

  function RankPieces<R>(p: Plan, i: nat, read: Pages<R>, b: nat): (ps: seq<seq<R>>)
    requires p.Valid() && b < |p.ctx|
    ensures |ps| == p.c.ranks
  {
    Pieces(AllGather(p, i, read), Toks(p, i), Start(p.PaddedLens(i), b), p.LocalStart(i), p.PaddedLen(i, b),
           LensOf(p.c, p.ctx[b]))
  }

  /** A rank's piece is the chunk's local positions up to the rank's own length. */
  lemma PieceReads<R>(p: Plan, i: nat, read: Pages<R>, b: nat, r: nat)
    requires p.Valid() && b < |p.ctx| && r < p.c.ranks
    ensures p.TakenLen(i, b, r) <= p.PaddedLen(i, b)
    ensures RankPieces(p, i, read, b)[r] == LocalRow(p, i, read, r, b)[..p.TakenLen(i, b, r)]
  {
    GatheredAt(p, i, read, r, b);
    PieceIsPrefix(AllGather(p, i, read), Toks(p, i), Start(p.PaddedLens(i), b), p.LocalStart(i), p.PaddedLen(i, b),
                  LensOf(p.c, p.ctx[b]), r, LocalRow(p, i, read, r, b));
  }

  lemma PieceIsPrefix<R>(gathered: seq<R>, toks: nat, src: nat, offset: nat, padded: nat, localLens: seq<nat>, r: nat,
                         row: seq<R>)
    requires r < |localLens| && |row| == padded
    requires PieceStart(toks, src, r) + padded <= |gathered|
    requires gathered[PieceStart(toks, src, r)..PieceStart(toks, src, r) + padded] == row
    ensures Piece(gathered, toks, src, offset, padded, localLens, r) == row[..Taken(localLens[r], offset, padded)]
  {
    var at := PieceStart(toks, src, r);
    var n := Taken(localLens[r], offset, padded);
    assert gathered[at..at + n] == gathered[at..at + padded][..n];
  }

  /** A rank's piece is its share of the tokens of the chunk's span. */
  lemma PieceHolds<R>(p: Plan, i: nat, read: Pages<R>, kv: (nat, nat) -> R, b: nat, r: nat)
    requires Sharded(p, read, kv) && b < |p.ctx| && r < p.c.ranks
    ensures RankPieces(p, i, read, b)[r]
         == Wanted(kv, b, Bucket(OwnerKey(p.c), Range(From(p, i, p.ctx[b]), To(p, i, p.ctx[b])), r))
  {
    PieceReads(p, i, read, b, r);
    OwnedSpan(p, i, b, r);
    PrefixHolds(p, i, read, kv, b, r);
  }

  lemma OwnedSpan(p: Plan, i: nat, b: nat, r: nat)
    requires p.Valid() && b < |p.ctx| && r < p.c.ranks
    ensures Bucket(OwnerKey(p.c), Range(From(p, i, p.ctx[b]), To(p, i, p.ctx[b])), r)
         == Consecutive(Globals(p.c, r), LocalLen(p.c, From(p, i, p.ctx[b]), r), p.TakenLen(i, b, r))
  {
    ShareBounds(p, i, b, r);
    OwnedRange(p.c, From(p, i, p.ctx[b]), To(p, i, p.ctx[b]), r);
  }

  lemma PrefixHolds<R>(p: Plan, i: nat, read: Pages<R>, kv: (nat, nat) -> R, b: nat, r: nat)
    requires Sharded(p, read, kv) && b < |p.ctx| && r < p.c.ranks
    ensures p.TakenLen(i, b, r) <= p.PaddedLen(i, b)
    ensures LocalRow(p, i, read, r, b)[..p.TakenLen(i, b, r)]
         == Wanted(kv, b, Consecutive(Globals(p.c, r), LocalLen(p.c, From(p, i, p.ctx[b]), r), p.TakenLen(i, b, r)))
  {
    ShareBounds(p, i, b, r);
    PrefixReads(p, read, kv, b, r, LocalRow(p, i, read, r, b), p.TakenLen(i, b, r), p.LocalStart(i),
                LocalLen(p.c, From(p, i, p.ctx[b]), r));
  }

  lemma ShareBounds(p: Plan, i: nat, b: nat, r: nat)
    requires p.Valid() && b < |p.ctx| && r < p.c.ranks
    ensures p.TakenLen(i, b, r) <= p.PaddedLen(i, b)
    ensures p.TakenLen(i, b, r) == LocalLen(p.c, To(p, i, p.ctx[b]), r) - LocalLen(p.c, From(p, i, p.ctx[b]), r)
    ensures p.TakenLen(i, b, r) > 0 ==> p.LocalStart(i) == LocalLen(p.c, From(p, i, p.ctx[b]), r)
    ensures LocalLen(p.c, From(p, i, p.ctx[b]), r) + p.TakenLen(i, b, r) <= LocalLen(p.c, p.ctx[b], r)
  {
    TakenIsShare(p, i, b, r);
    LocalLenMono(p.c, To(p, i, p.ctx[b]), p.ctx[b], r);
  }

  lemma PrefixReads<R>(p: Plan, read: Pages<R>, kv: (nat, nat) -> R, b: nat, r: nat, row: seq<R>, n: nat, at: nat, first: nat)
    requires Sharded(p, read, kv) && b < |p.ctx| && r < p.c.ranks && n <= |row|
    requires forall x :: 0 <= x < |row| ==> row[x] == read(r, b, at + x)
    requires n > 0 ==> at == first && first + n <= LocalLen(p.c, p.ctx[b], r)
    ensures row[..n] == Wanted(kv, b, Consecutive(Globals(p.c, r), first, n))
  {
    PieceEqual(p, read, kv, b, r, row[..n], at, first);
  }

  lemma PieceEqual<R>(p: Plan, read: Pages<R>, kv: (nat, nat) -> R, b: nat, r: nat, piece: seq<R>, at: nat, first: nat)
    requires Sharded(p, read, kv) && b < |p.ctx| && r < p.c.ranks
    requires forall x :: 0 <= x < |piece| ==> piece[x] == read(r, b, at + x)
    requires |piece| > 0 ==> at == first && first + |piece| <= LocalLen(p.c, p.ctx[b], r)
    ensures piece == Wanted(kv, b, Consecutive(Globals(p.c, r), first, |piece|))
  {
    var ts := Consecutive(Globals(p.c, r), first, |piece|);
    forall x | 0 <= x < |piece|
      ensures piece[x] == Wanted(kv, b, ts)[x]
    {
      assert ts[x] == ToGlobal(p.c, first + x, r);
    }
  }

  /** Un-padded, request `b` of chunk `i` holds exactly the tokens of the chunk's span, each once. */
  lemma RequestHoldsSpan<R>(p: Plan, i: nat, read: Pages<R>, kv: (nat, nat) -> R, b: nat)
    requires Sharded(p, read, kv) && b < |p.ctx|
    ensures multiset(Unpadded(p, i, read)[b])
         == multiset(Wanted(kv, b, Range(From(p, i, p.ctx[b]), To(p, i, p.ctx[b]))))
    ensures |Unpadded(p, i, read)[b]| == p.CurLens(i)[b]
  {
    var ts := Range(From(p, i, p.ctx[b]), To(p, i, p.ctx[b]));
    var parts, recs := Buckets(OwnerKey(p.c), ts, p.c.ranks), RankPieces(p, i, read, b);
    forall r | 0 <= r < p.c.ranks
      ensures recs[r] == Wanted(kv, b, parts[r]) && |recs[r]| == p.TakenLen(i, b, r)
    {
      PieceHolds(p, i, read, kv, b, r);
      PieceReads(p, i, read, b, r);
    }
    forall k | 0 <= k < |ts|
      ensures OwnerKey(p.c)(ts[k]) < p.c.ranks
    {
      LocalOfGlobal(p.c, ts[k]);
    }
    FlattenWanted(kv, b, parts, recs);
    BucketsPartition(OwnerKey(p.c), ts, p.c.ranks);
    WantedPermuted(kv, b, Flatten(parts), ts);
    FlattenLength(recs);
    assert Lengths(recs) == p.TakenLens(i, b);
    assert Unpadded(p, i, read)[b] == Flatten(recs);
  }

  lemma UnpaddedLengths<R>(p: Plan, i: nat, read: Pages<R>, kv: (nat, nat) -> R)
    requires Sharded(p, read, kv)
    ensures Lengths(Unpadded(p, i, read)) == p.CurLens(i)
    ensures |Flatten(Unpadded(p, i, read))| == Sum(p.CurLens(i))
  {
    forall b | 0 <= b < |p.ctx|
      ensures |Unpadded(p, i, read)[b]| == p.CurLens(i)[b]
    {
      RequestHoldsSpan(p, i, read, kv, b);
    }
    assert Lengths(Unpadded(p, i, read)) == p.CurLens(i);
    FlattenLength(Unpadded(p, i, read));
  }

  /** A chunk that is not skipped has a segment to concatenate. */
  lemma NeverEmpty<R>(p: Plan, i: nat, read: Pages<R>, kv: (nat, nat) -> R)
    requires Sharded(p, read, kv) && Toks(p, i) > 0
    ensures Flatten(Unpadded(p, i, read)) != []
  {
    SkippedIff(p, i);
    MaxOfBounds(p.ctx);
    var b :| 0 <= b < |p.ctx| && p.ctx[b] == MaxOf(p.ctx);
    TakenTotal(p, i, b);
    StripePositive(p.c);
    SpanCases(p);
    EntryBelowSum(p.CurLens(i), b);
    UnpaddedLengths(p, i, read, kv);
  }

  /** `[i * mcc, min(len, (i + 1) * mcc))`, empty behind the context's end. */
  function ChunkRange(p: Plan, i: nat, b: nat): seq<nat>
    requires p.Valid() && b < |p.ctx|
  {
    Range(Min(p.ctx[b], p.ChunkStart(i)), Min(p.ctx[b], p.ChunkStart(i) + p.mcc))
  }

  /** Part `b` of a concatenation is a stretch of the cumulative lengths. */
  ghost predicate IsStretch<R>(all: seq<R>, lens: seq<nat>, b: nat, part: seq<R>) {
    b < |lens| && |all| == Sum(lens) && Start(lens, b) + lens[b] <= |all|
    && all[Start(lens, b)..Start(lens, b) + lens[b]] == part
  }

  lemma StretchOf<R>(rows: seq<seq<R>>, b: nat)
    requires b < |rows|
    ensures IsStretch(Flatten(rows), Lengths(rows), b, rows[b])
  {
    FlattenAt(rows, b);
  }

  /** Whole stripes, or one chunk enough: the planner's own range of tokens, each once. */
  lemma RequestHoldsChunk<R>(p: Plan, i: nat, read: Pages<R>, kv: (nat, nat) -> R, b: nat)
    requires Sharded(p, read, kv) && b < |p.ctx|
    requires p.mcc == p.Span() || (i == 0 && MaxOf(p.ctx) <= p.mcc)
    ensures multiset(Unpadded(p, i, read)[b]) == multiset(Wanted(kv, b, ChunkRange(p, i, b)))
  {
    RequestHoldsSpan(p, i, read, kv, b);
    SpanIsChunk(p, i, b);
  }

  /** And request `b` is the stretch `[cu[b], cu[b + 1])` of the planner's cumulative lengths. */
  lemma RequestIsStretch<R>(p: Plan, i: nat, read: Pages<R>, kv: (nat, nat) -> R, b: nat)
    requires Sharded(p, read, kv) && b < |p.ctx|
    requires p.mcc == p.Span() || (i == 0 && MaxOf(p.ctx) <= p.mcc)
    ensures IsStretch(Flatten(Unpadded(p, i, read)), p.SeqLens(i), b, Unpadded(p, i, read)[b])
  {
    SameLens(p, i);
    UnpaddedLengths(p, i, read, kv);
    StretchOf(Unpadded(p, i, read), b);
  }

  lemma SpanIsChunk(p: Plan, i: nat, b: nat)
    requires p.Valid() && b < |p.ctx|
    requires p.mcc == p.Span() || (i == 0 && MaxOf(p.ctx) <= p.mcc)
    ensures Range(From(p, i, p.ctx[b]), To(p, i, p.ctx[b])) == ChunkRange(p, i, b)
  {
    MaxOfBounds(p.ctx);
    SpanCases(p);
  }

  // ---- all chunks together ---------------------------------------------------------------------

  function SpanRanges(p: Plan, len: nat, n: nat): (s: seq<seq<nat>>)
    requires p.Valid()
    ensures |s| == n && forall i :: 0 <= i < n ==> s[i] == Range(From(p, i, len), To(p, i, len))
  {
    seq(n, i requires 0 <= i < n => Range(From(p, i, len), To(p, i, len)))
  }

  /** The spans of the first `n` chunks, one after the other, are the context's first tokens. */
  lemma {:induction false} SpansTile(p: Plan, len: nat, n: nat)
    requires p.Valid()
    ensures 0 <= n * p.Span() && Flatten(SpanRanges(p, len, n)) == Range(0, Min(len, n * p.Span()))
  {
    MulMono(0, n, p.Span());
    if n > 0 {
      SpansTile(p, len, n - 1);
      Distribute(n - 1, 1, p.Span());
      assert SpanRanges(p, len, n)[..n - 1] == SpanRanges(p, len, n - 1);
    }
  }

  /** All chunks cover every context exactly once. */
  lemma ChunksCover(p: Plan, b: nat)
    requires p.Valid() && b < |p.ctx|
    ensures Flatten(SpanRanges(p, p.ctx[b], p.Chunks())) == Range(0, p.ctx[b])
  {
    SpansTile(p, p.ctx[b], p.Chunks());
    MaxOfBounds(p.ctx);
    RoundUpLeast(MaxOf(p.ctx), p.mcc);
    SpanCases(p);
    MulMono(p.mcc, p.Span(), p.Chunks());
  }

  function ChunkRanges<R>(p: Plan, kv: (nat, nat) -> R, b: nat): (s: seq<seq<R>>)
    requires p.Valid() && b < |p.ctx|
    ensures |s| == p.Chunks()
    ensures forall i :: 0 <= i < |s| ==> s[i] == Wanted(kv, b, SpanRanges(p, p.ctx[b], p.Chunks())[i])
  {
    var ranges := SpanRanges(p, p.ctx[b], p.Chunks());
    seq(p.Chunks(), i requires 0 <= i < p.Chunks() => Wanted(kv, b, ranges[i]))
  }

  /** The keys of request `b`, chunk after chunk, are its whole context, each token once. */
  lemma ContextCovered<R>(p: Plan, read: Pages<R>, kv: (nat, nat) -> R, b: nat, keys: seq<seq<R>>)
    requires Sharded(p, read, kv) && b < |p.ctx| && |keys| == p.Chunks()
    requires forall i :: 0 <= i < |keys| ==> keys[i] == Unpadded(p, i, read)[b]
    ensures multiset(Flatten(keys)) == multiset(Wanted(kv, b, Range(0, p.ctx[b])))
  {
    forall i | 0 <= i < p.Chunks()
      ensures multiset(keys[i]) == multiset(ChunkRanges(p, kv, b)[i])
    {
      RequestHoldsSpan(p, i, read, kv, b);
    }
    FlattenSame(keys, ChunkRanges(p, kv, b));
    FlattenWanted(kv, b, SpanRanges(p, p.ctx[b], p.Chunks()), ChunkRanges(p, kv, b));
    ChunksCover(p, b);
  }
}
