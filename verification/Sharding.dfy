/**
 The token-interleaved sharding of a KV cache over `D` ranks in runs of `I`
 consecutive tokens, and how many tokens each rank owns.
 */
module Sharding {
  import opened Seqs

  /** How many ranks share the cache, and how many tokens in a row one rank keeps. */
  datatype Layout = Layout(ranks: nat, interleave: nat) {
    predicate Valid() { ranks > 0 && interleave > 0 }

    /** Tokens in one round over all ranks. */
    function Stripe(): nat { ranks * interleave }
  }

  lemma StripePositive(c: Layout)
    requires c.Valid()
    ensures c.Stripe() > 0
  {
    MulMono(1, c.ranks, c.interleave);
  }

  function Owner(c: Layout, t: nat): nat
    requires c.Valid()
  {
    (t / c.interleave) % c.ranks
  }

  function OwnerKey(c: Layout): nat -> nat
    requires c.Valid()
  {
    t => Owner(c, t)
  }

  /** `_global_to_local_position` */
  function ToLocal(c: Layout, t: nat): nat
    requires c.Valid()
  {
    StripePositive(c);
    t / c.Stripe() * c.interleave + t % c.interleave
  }

  /** `_local_to_global_position` */
  function ToGlobal(c: Layout, i: nat, rank: nat): nat
    requires c.Valid()
  {
    i / c.interleave * c.Stripe() + rank * c.interleave + i % c.interleave
  }

  /** Closed form of `get_dcp_local_seq_lens`: full rounds, then the clamped remainder. */
  function LocalLen(c: Layout, len: nat, rank: nat): nat
    requires c.Valid()
  {
    StripePositive(c);
    len / c.Stripe() * c.interleave
    + Max(0, Min(len % c.Stripe() - rank * c.interleave, c.interleave))
  }

  /** What `LocalLen` stands for: the tokens below `len` that `rank` owns, counted. */
  function OwnedCount(c: Layout, len: nat, rank: nat): nat
    requires c.Valid()
  {
    if len == 0 then 0
    else OwnedCount(c, len - 1, rank) + (if Owner(c, len - 1) == rank then 1 else 0)
  }

  // ---- one token: round, rank, offset -------------------------------------

  lemma DivMod(n: nat, d: nat)
    requires d > 0
    ensures n == n / d * d + n % d && 0 <= n % d < d
  {
  }

  /** Every token is `q * Stripe + r * I + o` for a round, a rank and an offset. */
  lemma Split(c: Layout, t: nat) returns (q: nat, r: nat, o: nat)
    requires c.Valid()
    ensures r < c.ranks && o < c.interleave
    ensures t == q * c.Stripe() + r * c.interleave + o
  {
    var n := t / c.interleave;
    q, r, o := n / c.ranks, n % c.ranks, t % c.interleave;
    DivMod(t, c.interleave);
    DivMod(n, c.ranks);
    Distribute(q * c.ranks, r, c.interleave);
    Assoc(q, c.ranks, c.interleave);
  }

  lemma SplitParts(c: Layout, t: nat, q: nat, r: nat, o: nat)
    requires c.Valid() && r < c.ranks && o < c.interleave
    requires t == q * c.Stripe() + r * c.interleave + o
    ensures c.Stripe() > 0 && 0 <= r * c.interleave + o < c.Stripe()
    ensures t / c.Stripe() == q && t % c.Stripe() == r * c.interleave + o
    ensures Owner(c, t) == r && t % c.interleave == o
    ensures ToLocal(c, t) == q * c.interleave + o
  {
    StripePositive(c);
    MulMono(0, r, c.interleave);
    MulMono(r + 1, c.ranks, c.interleave);
    assert (r + 1) * c.interleave == r * c.interleave + c.interleave;
    DivUnique(t, c.Stripe(), q, r * c.interleave + o);
    assert t == (q * c.ranks + r) * c.interleave + o;
    DivUnique(t, c.interleave, q * c.ranks + r, o);
    DivUnique(q * c.ranks + r, c.ranks, q, r);
  }

  /** Where a token lives: run `r` of round `q` belongs to rank `r`, as that rank's `q`-th run. */
  lemma TokenPlace(c: Layout, q: nat, r: nat, o: nat)
    requires c.Valid() && r < c.ranks && o < c.interleave
    ensures 0 <= (q * c.ranks + r) * c.interleave + o && 0 <= q * c.interleave + o
    ensures var t := (q * c.ranks + r) * c.interleave + o;
      Owner(c, t) == r && ToLocal(c, t) == q * c.interleave + o && ToGlobal(c, q * c.interleave + o, r) == t
  {
    MulMono(0, q, c.ranks);
    MulMono(0, q * c.ranks + r, c.interleave);
    MulMono(0, q, c.interleave);
    Distribute(q * c.ranks, r, c.interleave);
    Assoc(q, c.ranks, c.interleave);
    var t := (q * c.ranks + r) * c.interleave + o;
    SplitParts(c, t, q, r, o);
    LocalOfGlobal(c, t);
  }

  /** A rank's local positions and the tokens it owns are in bijection. */
  lemma GlobalOfLocal(c: Layout, i: nat, rank: nat)
    requires c.Valid() && rank < c.ranks
    ensures Owner(c, ToGlobal(c, i, rank)) == rank
    ensures ToLocal(c, ToGlobal(c, i, rank)) == i
  {
    SplitParts(c, ToGlobal(c, i, rank), i / c.interleave, rank, i % c.interleave);
  }

  lemma LocalOfGlobal(c: Layout, t: nat)
    requires c.Valid()
    ensures Owner(c, t) < c.ranks
    ensures ToGlobal(c, ToLocal(c, t), Owner(c, t)) == t
  {
    var q, r, o := Split(c, t);
    SplitParts(c, t, q, r, o);
    DivUnique(q * c.interleave + o, c.interleave, q, o);
  }

  // ---- counting -------------------------------------------------------------

  lemma LocalLenSplit(c: Layout, len: nat, q: nat, r: nat, o: nat, rank: nat)
    requires c.Valid() && r < c.ranks && o < c.interleave && rank < c.ranks
    requires len == q * c.Stripe() + r * c.interleave + o
    ensures LocalLen(c, len, rank)
         == q * c.interleave + (if rank < r then c.interleave else if rank == r then o else 0)
  {
    SplitParts(c, len, q, r, o);
    if rank < r {
      MulMono(rank + 1, r, c.interleave);
      assert (rank + 1) * c.interleave == rank * c.interleave + c.interleave;
    } else if r < rank {
      MulMono(r + 1, rank, c.interleave);
      assert (r + 1) * c.interleave == r * c.interleave + c.interleave;
    }
  }

  /** One more token lengthens exactly its owner's shard. */
  lemma LocalLenStep(c: Layout, len: nat, rank: nat)
    requires c.Valid() && rank < c.ranks
    ensures LocalLen(c, len + 1, rank)
         == LocalLen(c, len, rank) + (if Owner(c, len) == rank then 1 else 0)
  {
    var q, r, o := Split(c, len);
    SplitParts(c, len, q, r, o);
    LocalLenSplit(c, len, q, r, o, rank);
    if o + 1 < c.interleave {
      LocalLenSplit(c, len + 1, q, r, o + 1, rank);
    } else if r + 1 < c.ranks {
      assert (r + 1) * c.interleave == r * c.interleave + c.interleave;
      LocalLenSplit(c, len + 1, q, r + 1, 0, rank);
    } else {
      assert (q + 1) * c.Stripe() == q * c.Stripe() + c.ranks * c.interleave;
      assert (r + 1) * c.interleave == r * c.interleave + c.interleave;
      assert (q + 1) * c.interleave == q * c.interleave + c.interleave;
      LocalLenSplit(c, len + 1, q + 1, 0, 0, rank);
    }
  }

  lemma LocalLenZero(c: Layout, rank: nat)
    requires c.Valid() && rank < c.ranks
    ensures LocalLen(c, 0, rank) == 0
  {
    LocalLenSplit(c, 0, 0, 0, 0, rank);
  }

  /** The closed form counts the owned tokens. */
  lemma {:induction false} LocalLenIsCount(c: Layout, len: nat, rank: nat)
    requires c.Valid() && rank < c.ranks
    ensures LocalLen(c, len, rank) == OwnedCount(c, len, rank)
  {
    if len == 0 {
      LocalLenZero(c, rank);
    } else {
      LocalLenIsCount(c, len - 1, rank);
      LocalLenStep(c, len - 1, rank);
    }
  }

  lemma {:induction false} LocalLenMono(c: Layout, a: nat, b: nat, rank: nat)
    requires c.Valid() && rank < c.ranks && a <= b
    ensures LocalLen(c, a, rank) <= LocalLen(c, b, rank)
    decreases b - a
  {
    if a < b {
      LocalLenStep(c, b - 1, rank);
      LocalLenMono(c, a, b - 1, rank);
    }
  }

  /** A token's local position is the number of tokens its owner holds before it. */
  lemma LocalIsRank(c: Layout, t: nat)
    requires c.Valid()
    ensures Owner(c, t) < c.ranks
    ensures ToLocal(c, t) == LocalLen(c, t, Owner(c, t))
  {
    var q, r, o := Split(c, t);
    SplitParts(c, t, q, r, o);
    LocalLenSplit(c, t, q, r, o, r);
  }

  /** The test the kernels make on one shard decides membership in the whole sequence. */
  lemma InRange(c: Layout, t: nat, len: nat)
    requires c.Valid()
    ensures Owner(c, t) < c.ranks
    ensures t < len <==> ToLocal(c, t) < LocalLen(c, len, Owner(c, t))
  {
    LocalIsRank(c, t);
    var r := Owner(c, t);
    if t < len {
      LocalLenStep(c, t, r);
      LocalLenMono(c, t + 1, len, r);
    } else {
      LocalLenMono(c, len, t, r);
    }
  }

  lemma InRangeLocal(c: Layout, i: nat, rank: nat, len: nat)
    requires c.Valid() && rank < c.ranks
    ensures i < LocalLen(c, len, rank) <==> ToGlobal(c, i, rank) < len
  {
    GlobalOfLocal(c, i, rank);
    InRange(c, ToGlobal(c, i, rank), len);
  }

  function LensOf(c: Layout, len: nat): (s: seq<nat>)
    requires c.Valid()
    ensures |s| == c.ranks && forall r :: 0 <= r < c.ranks ==> s[r] == LocalLen(c, len, r)
  {
    seq(c.ranks, r requires 0 <= r < c.ranks => LocalLen(c, len, r))
  }

  lemma LensStep(c: Layout, len: nat)
    requires c.Valid()
    ensures Owner(c, len) < c.ranks
    ensures forall r :: 0 <= r < c.ranks ==>
      LensOf(c, len + 1)[r] == LensOf(c, len)[r] + (if Owner(c, len) == r then 1 else 0)
  {
    LocalOfGlobal(c, len);
    forall r | 0 <= r < c.ranks
      ensures LensOf(c, len + 1)[r] == LensOf(c, len)[r] + (if Owner(c, len) == r then 1 else 0)
    {
      LocalLenStep(c, len, r);
    }
  }

  lemma LensZero(c: Layout)
    requires c.Valid()
    ensures Sum(LensOf(c, 0)) == 0
  {
    forall r | 0 <= r < c.ranks
      ensures LensOf(c, 0)[r] == 0
    {
      LocalLenZero(c, r);
    }
    SumZeros(LensOf(c, 0));
  }

  /** Sharding loses and duplicates nothing: the shard lengths add up. */
  lemma {:induction false} LensSum(c: Layout, len: nat)
    requires c.Valid()
    ensures Sum(LensOf(c, len)) == len
  {
    if len == 0 {
      LensZero(c);
    } else {
      LensSum(c, len - 1);
      LensStep(c, len - 1);
      SumBump(LensOf(c, len - 1), LensOf(c, len), Owner(c, len - 1));
    }
  }

  // ---- owned selections -----------------------------------------------------

  /** The tokens below `len` that `rank` owns. */
  function Owned(c: Layout, len: nat, rank: nat): set<nat>
    requires c.Valid()
  {
    set t: nat | t < len && Owner(c, t) == rank
  }

  lemma OwnedStep(c: Layout, len: nat, rank: nat)
    requires c.Valid()
    ensures Owned(c, 0, rank) == {} && len !in Owned(c, len, rank)
    ensures Owned(c, len + 1, rank) == Owned(c, len, rank) + (if Owner(c, len) == rank then {len} else {})
  {
  }

  lemma {:induction false} OwnedSize(c: Layout, len: nat, rank: nat)
    requires c.Valid() && rank < c.ranks
    ensures |Owned(c, len, rank)| == OwnedCount(c, len, rank) == LocalLen(c, len, rank)
  {
    LocalLenIsCount(c, len, rank);
    OwnedIsCount(c, len, rank);
  }

  lemma {:induction false} OwnedIsCount(c: Layout, len: nat, rank: nat)
    requires c.Valid()
    ensures |Owned(c, len, rank)| == OwnedCount(c, len, rank)
  {
    if len == 0 {
      OwnedStep(c, 0, rank);
    } else {
      OwnedIsCount(c, len - 1, rank);
      OwnedStep(c, len - 1, rank);
    }
  }

  /**
   The per-row clamp of the stock path, `minimum(valid_counts, per_token_lens)`,
   never drops a winner: distinct causal ids that one rank owns are at most the
   rank's per-token local length.
   */
  lemma ClampIsIdle(c: Layout, len: nat, rank: nat, ids: set<nat>)
    requires c.Valid() && rank < c.ranks
    requires forall t :: t in ids ==> t < len && Owner(c, t) == rank
    ensures Min(|ids|, LocalLen(c, len, rank)) == |ids|
  {
    OwnedSize(c, len, rank);
    SubsetSize(ids, Owned(c, len, rank));
  }

  lemma {:induction false} SubsetSize<T>(a: set<T>, b: set<T>)
    requires a <= b
    ensures |a| <= |b|
    ensures |a| == |b| ==> a == b
  {
    if a != {} {
      var x :| x in a;
      SubsetSize(a - {x}, b - {x});
    }
  }

  // ---- reading a logical cache ------------------------------------------------

  /** The records of request `b`'s tokens `ts` in a logical cache. */
  function Wanted<R>(kv: (nat, nat) -> R, b: nat, ts: seq<nat>): (rs: seq<R>)
    ensures |rs| == |ts| && forall k :: 0 <= k < |rs| ==> rs[k] == kv(b, ts[k])
  {
    Map(t => kv(b, t), ts)
  }

  lemma WantedPermuted<R>(kv: (nat, nat) -> R, b: nat, xs: seq<nat>, ys: seq<nat>)
    requires multiset(xs) == multiset(ys)
    ensures multiset(Wanted(kv, b, xs)) == multiset(Wanted(kv, b, ys))
  {
    MapPermuted(t => kv(b, t), xs, ys);
  }

  lemma FlattenWanted<R>(kv: (nat, nat) -> R, b: nat, parts: seq<seq<nat>>, recs: seq<seq<R>>)
    requires |recs| == |parts| && forall r :: 0 <= r < |parts| ==> recs[r] == Wanted(kv, b, parts[r])
    ensures Flatten(recs) == Wanted(kv, b, Flatten(parts))
  {
    FlattenMap(t => kv(b, t), parts, recs);
  }
}
