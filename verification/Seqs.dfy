/** Sequences, sums and concatenations that every other module builds on. */
module Seqs {

  datatype Option<+T> = None | Some(value: T)

  function Min(a: int, b: int): int { if a < b then a else b }

  function Max(a: int, b: int): int { if a < b then b else a }

  /** Ceiling division of non-negative numbers; `_cdiv` and `cdiv` in the source. */
  function CeilDiv(x: nat, y: nat): nat
    requires y > 0
  {
    (x + y - 1) / y
  }

  function RoundUp(x: nat, y: nat): nat
    requires y > 0
  {
    CeilDiv(x, y) * y
  }

  // ---- arithmetic -------------------------------------------------------

  lemma MulMono(a: int, b: int, c: int)
    requires a <= b && 0 <= c
    ensures a * c <= b * c
  {
  }

  lemma Exchange(a: int, b: int, c: int)
    ensures a * (b * c) == b * (a * c)
  {
  }

  lemma Assoc(a: int, b: int, c: int)
    ensures a * (b * c) == (a * b) * c
  {
  }

  lemma Distribute(a: int, b: int, c: int)
    ensures (a + b) * c == a * c + b * c
  {
  }

  lemma NotAbove(d: nat, x: nat, y: nat)
    requires d > 0 && d * x <= d * y
    ensures x <= y
  {
    if y < x {
      MulMono(y + 1, x, d);
    }
  }

  lemma NoMultipleBetween(k: int, d: int)
    requires -d < k * d < d
    ensures k == 0
  {
    if k > 0 {
      MulMono(1, k, d);
    } else if k < 0 {
      MulMono(k, -1, d);
    }
  }

  lemma DivUnique(x: int, d: int, q: int, m: int)
    requires 0 <= m < d && x == q * d + m
    ensures x / d == q && x % d == m
  {
    var q', m' := x / d, x % d;
    assert x == q' * d + m';
    assert (q - q') * d == m' - m;
    NoMultipleBetween(q - q', d);
  }

  /** `RoundUp(x, y)` is the least multiple of `y` that is at least `x`. */
  lemma RoundUpLeast(x: nat, y: nat)
    requires y > 0
    ensures x <= RoundUp(x, y) < x + y
    ensures RoundUp(x, y) % y == 0
    ensures forall k: nat :: x <= k * y ==> RoundUp(x, y) <= k * y
  {
    var c := CeilDiv(x, y);
    assert x + y - 1 == c * y + (x + y - 1) % y;
    DivUnique(c * y, y, c, 0);
    forall k: nat | x <= k * y
      ensures c * y <= k * y
    {
      assert (k + 1) * y == k * y + y;
      if k < c {
        MulMono(k + 1, c, y);
      }
    }
  }

  lemma RoundUpMono(a: nat, b: nat, y: nat)
    requires y > 0 && a <= b
    ensures RoundUp(a, y) <= RoundUp(b, y)
  {
    RoundUpLeast(a, y);
    RoundUpLeast(b, y);
    assert RoundUp(b, y) == CeilDiv(b, y) * y;
  }

  lemma RoundUpExact(x: nat, y: nat)
    requires y > 0
    ensures RoundUp(x, y) == x <==> x % y == 0
  {
    RoundUpLeast(x, y);
    if x % y == 0 {
      assert x == x / y * y;
    }
  }

  // ---- sums -------------------------------------------------------------

  function Sum(s: seq<nat>): nat {
    if s == [] then 0 else Sum(s[..|s| - 1]) + s[|s| - 1]
  }

  /** The exclusive prefix sum: where entry `i` starts. */
  function Start(s: seq<nat>, i: nat): nat
    requires i <= |s|
  {
    Sum(s[..i])
  }

  lemma StartStep(s: seq<nat>, i: nat)
    requires i < |s|
    ensures Start(s, i + 1) == Start(s, i) + s[i]
  {
    assert s[..i + 1][..i] == s[..i];
  }

  lemma {:induction false} StartMono(s: seq<nat>, i: nat, j: nat)
    requires i <= j <= |s|
    ensures Start(s, i) <= Start(s, j)
    decreases j - i
  {
    if i < j {
      StartStep(s, j - 1);
      StartMono(s, i, j - 1);
    }
  }

  lemma {:induction false} SumPointwise(a: seq<nat>, b: seq<nat>)
    requires |a| == |b| && forall i :: 0 <= i < |a| ==> a[i] <= b[i]
    ensures Sum(a) <= Sum(b)
    ensures (exists i :: 0 <= i < |a| && a[i] < b[i]) ==> Sum(a) < Sum(b)
  {
    if |a| > 0 {
      SumPointwise(a[..|a| - 1], b[..|b| - 1]);
      if i :| 0 <= i < |a| && a[i] < b[i] {
        if i < |a| - 1 {
          assert a[..|a| - 1][i] < b[..|b| - 1][i];
        }
      }
    }
  }

  /** Raising one entry by one raises the sum by one. */
  lemma {:induction false} SumBump(a: seq<nat>, b: seq<nat>, k: nat)
    requires |a| == |b| && k < |a| && b[k] == a[k] + 1
    requires forall i :: 0 <= i < |a| && i != k ==> b[i] == a[i]
    ensures Sum(b) == Sum(a) + 1
  {
    var n := |a| - 1;
    if k == n {
      assert a[..n] == b[..n];
    } else {
      SumBump(a[..n], b[..n], k);
    }
  }

  lemma {:induction false} SumZeros(s: seq<nat>)
    requires forall i :: 0 <= i < |s| ==> s[i] == 0
    ensures Sum(s) == 0
  {
    if s != [] {
      SumZeros(s[..|s| - 1]);
    }
  }

  lemma {:induction false} SumAtMost(s: seq<nat>, bound: nat)
    requires forall i :: 0 <= i < |s| ==> s[i] <= bound
    ensures Sum(s) <= |s| * bound
  {
    if s != [] {
      SumAtMost(s[..|s| - 1], bound);
      Distribute(|s| - 1, 1, bound);
    }
  }

  lemma {:induction false} SumConstant(s: seq<nat>, x: nat)
    requires forall i :: 0 <= i < |s| ==> s[i] == x
    ensures Sum(s) == |s| * x
  {
    if s != [] {
      SumConstant(s[..|s| - 1], x);
      Distribute(|s| - 1, 1, x);
    }
  }

  function MaxOf(s: seq<nat>): nat {
    if s == [] then 0 else Max(MaxOf(s[..|s| - 1]), s[|s| - 1])
  }

  lemma {:induction false} MaxOfBounds(s: seq<nat>)
    ensures forall i :: 0 <= i < |s| ==> s[i] <= MaxOf(s)
    ensures s != [] ==> MaxOf(s) in s
  {
    if s != [] {
      var p := s[..|s| - 1];
      MaxOfBounds(p);
      forall i | 0 <= i < |s|
        ensures s[i] <= MaxOf(s)
      {
        if i < |p| {
          assert p[i] <= MaxOf(p);
        }
      }
    }
  }

  // ---- concatenation ----------------------------------------------------

  function Flatten<T>(ss: seq<seq<T>>): seq<T> {
    if ss == [] then [] else Flatten(ss[..|ss| - 1]) + ss[|ss| - 1]
  }

  function Lengths<T>(ss: seq<seq<T>>): (r: seq<nat>)
    ensures |r| == |ss| && forall i :: 0 <= i < |r| ==> r[i] == |ss[i]|
  {
    seq(|ss|, i requires 0 <= i < |ss| => |ss[i]|)
  }

  lemma FlattenStep<T>(ss: seq<seq<T>>, i: nat)
    requires i < |ss|
    ensures Flatten(ss[..i + 1]) == Flatten(ss[..i]) + ss[i]
  {
    assert ss[..i + 1][..i] == ss[..i];
  }

  /** Part `i` occupies the positions from the prefix sum of the lengths on. */
  lemma FlattenAt<T>(ss: seq<seq<T>>, i: nat)
    requires i < |ss|
    ensures |Flatten(ss)| == Sum(Lengths(ss))
    ensures Start(Lengths(ss), i) + |ss[i]| <= |Flatten(ss)|
    ensures Flatten(ss)[Start(Lengths(ss), i)..Start(Lengths(ss), i) + |ss[i]|] == ss[i]
  {
    FlattenLength(ss);
    LengthsPrefix(ss, i);
    FlattenAround(ss, i);
    MiddleSlice(Flatten(ss[..i]), ss[i], Flatten(ss[i + 1..]));
  }

  lemma FlattenAround<T>(ss: seq<seq<T>>, i: nat)
    requires i < |ss|
    ensures Flatten(ss) == Flatten(ss[..i]) + ss[i] + Flatten(ss[i + 1..])
  {
    assert ss == ss[..i + 1] + ss[i + 1..];
    FlattenConcat(ss[..i + 1], ss[i + 1..]);
    FlattenStep(ss, i);
  }

  lemma MiddleSlice<T>(a: seq<T>, x: seq<T>, b: seq<T>)
    ensures |a| + |x| <= |a + x + b| && (a + x + b)[|a|..|a| + |x|] == x
  {
  }

  lemma LengthsPrefix<T>(ss: seq<seq<T>>, i: nat)
    requires i <= |ss|
    ensures Start(Lengths(ss), i) == Sum(Lengths(ss[..i])) == |Flatten(ss[..i])|
  {
    assert Lengths(ss)[..i] == Lengths(ss[..i]);
    FlattenLength(ss[..i]);
  }

  lemma {:induction false} FlattenLength<T>(ss: seq<seq<T>>)
    ensures |Flatten(ss)| == Sum(Lengths(ss))
  {
    if ss != [] {
      var n := |ss| - 1;
      FlattenLength(ss[..n]);
      assert Lengths(ss[..n]) == Lengths(ss)[..n];
    }
  }

  /** Parts of one common length `n`: part `i` starts at `i * n`. */
  lemma {:induction false} FlattenUniform<T>(ss: seq<seq<T>>, n: nat, i: nat)
    requires i < |ss| && forall j :: 0 <= j < |ss| ==> |ss[j]| == n
    ensures 0 <= i * n <= i * n + n <= |Flatten(ss)|
    ensures Flatten(ss)[i * n..i * n + n] == ss[i]
  {
    var p, m := ss[..|ss| - 1], |ss| - 1;
    UniformLength(p, n);
    MulMono(0, i, n);
    if i < m {
      FlattenUniform(p, n, i);
      assert Flatten(ss)[i * n..i * n + n] == Flatten(p)[i * n..i * n + n];
    }
  }

  /** Where part `r` starts among parts of one size. */
  function Region(r: nat, size: nat): nat {
    MulMono(0, r, size);
    r * size
  }

  /** Inside one of several parts of one size, which is itself a concatenation. */
  lemma FlattenNested<T>(ms: seq<seq<T>>, size: nat, r: nat, rows: seq<seq<T>>, b: nat)
    requires r < |ms| && b < |rows| && ms[r] == Flatten(rows)
    requires forall j :: 0 <= j < |ms| ==> |ms[j]| == size
    ensures Region(r, size) + Start(Lengths(rows), b) + |rows[b]| <= |Flatten(ms)|
    ensures var at := Region(r, size) + Start(Lengths(rows), b); Flatten(ms)[at..at + |rows[b]|] == rows[b]
  {
    FlattenUniform(ms, size, r);
    FlattenAt(rows, b);
    SliceOfSlice(Flatten(ms), ms[r], Region(r, size), Start(Lengths(rows), b), |rows[b]|);
  }

  lemma SliceOfSlice<T>(all: seq<T>, part: seq<T>, at: nat, start: nat, len: nat)
    requires start + len <= |part| && at + |part| <= |all| && all[at..at + |part|] == part
    ensures all[at + start..at + start + len] == part[start..start + len]
  {
    var a, b := all[at + start..at + start + len], part[start..start + len];
    forall x | 0 <= x < len
      ensures a[x] == b[x]
    {
      assert all[at..at + |part|][start + x] == part[start + x];
    }
  }

  lemma {:induction false} UniformLength<T>(ss: seq<seq<T>>, n: nat)
    requires forall j :: 0 <= j < |ss| ==> |ss[j]| == n
    ensures |Flatten(ss)| == |ss| * n
  {
    if ss != [] {
      UniformLength(ss[..|ss| - 1], n);
      assert |ss| * n == (|ss| - 1) * n + n;
    }
  }

  lemma {:induction false} FlattenConcat<T>(a: seq<seq<T>>, b: seq<seq<T>>)
    ensures Flatten(a + b) == Flatten(a) + Flatten(b)
  {
    if b == [] {
      assert a + b == a;
    } else {
      var n := |b| - 1;
      FlattenConcat(a, b[..n]);
      assert (a + b)[..|a + b| - 1] == a + b[..n];
      ConcatAssoc(Flatten(a), Flatten(b[..n]), b[n]);
    }
  }

  lemma ConcatAssoc<T>(a: seq<T>, b: seq<T>, c: seq<T>)
    ensures (a + b) + c == a + (b + c)
  {
  }

  /** Reordering the parts only reorders the concatenation. */
  lemma {:induction false} FlattenPermuted<T>(parts: seq<seq<T>>, a: seq<nat>, b: seq<nat>)
    requires multiset(a) == multiset(b)
    requires forall i :: 0 <= i < |a| ==> a[i] < |parts|
    requires forall i :: 0 <= i < |b| ==> b[i] < |parts|
    ensures multiset(Flatten(Select(parts, a))) == multiset(Flatten(Select(parts, b)))
  {
    if a == [] {
      assert |b| == |multiset(b)| == |multiset(a)|;
    } else {
      var n := |a| - 1;
      assert a[n] in multiset(a);
      var j :| 0 <= j < |b| && b[j] == a[n];
      RemoveAt(a, n);
      RemoveAt(b, j);
      assert a[..n] + a[n + 1..] == a[..n];
      FlattenPermuted(parts, a[..n], b[..j] + b[j + 1..]);
      SelectStep(parts, a, n);
      SelectSplit(parts, b, j);
    }
  }

  lemma RemoveAt<T>(s: seq<T>, j: nat)
    requires j < |s|
    ensures multiset(s[..j] + s[j + 1..]) == multiset(s) - multiset{s[j]}
    ensures |s[..j] + s[j + 1..]| == |s| - 1
  {
    SplitAt(s, j);
  }

  lemma SplitAt<T>(s: seq<T>, j: nat)
    requires j < |s|
    ensures s == s[..j] + [s[j]] + s[j + 1..]
  {
  }

  function Select<T>(parts: seq<seq<T>>, order: seq<nat>): (r: seq<seq<T>>)
    requires forall i :: 0 <= i < |order| ==> order[i] < |parts|
    ensures |r| == |order| && forall i :: 0 <= i < |r| ==> r[i] == parts[order[i]]
  {
    seq(|order|, i requires 0 <= i < |order| => parts[order[i]])
  }

  lemma SelectStep<T>(parts: seq<seq<T>>, a: seq<nat>, n: nat)
    requires forall i :: 0 <= i < |a| ==> a[i] < |parts|
    requires n == |a| - 1
    ensures Flatten(Select(parts, a)) == Flatten(Select(parts, a[..n])) + parts[a[n]]
  {
    assert Select(parts, a)[..n] == Select(parts, a[..n]);
  }

  lemma SelectSplit<T>(parts: seq<seq<T>>, b: seq<nat>, j: nat)
    requires j < |b| && forall i :: 0 <= i < |b| ==> b[i] < |parts|
    ensures multiset(Flatten(Select(parts, b)))
         == multiset(Flatten(Select(parts, b[..j] + b[j + 1..]))) + multiset(parts[b[j]])
  {
    SelectConcat(parts, b[..j], b[j + 1..]);
    SelectConcat(parts, b[..j] + [b[j]], b[j + 1..]);
    SelectConcat(parts, b[..j], [b[j]]);
    SplitAt(b, j);
    assert Select(parts, [b[j]]) == [parts[b[j]]];
    FlattenInsert(Select(parts, b[..j]), parts[b[j]], Select(parts, b[j + 1..]));
  }

  lemma SelectConcat<T>(parts: seq<seq<T>>, a: seq<nat>, b: seq<nat>)
    requires forall i :: 0 <= i < |a| ==> a[i] < |parts|
    requires forall i :: 0 <= i < |b| ==> b[i] < |parts|
    ensures Select(parts, a + b) == Select(parts, a) + Select(parts, b)
  {
  }

  lemma FlattenInsert<T>(l: seq<seq<T>>, x: seq<T>, r: seq<seq<T>>)
    ensures multiset(Flatten(l + [x] + r)) == multiset(Flatten(l + r)) + multiset(x)
  {
    FlattenConcat(l + [x], r);
    FlattenConcat(l, r);
    assert (l + [x])[..|l|] == l;
    MultisetInsert(Flatten(l), x, Flatten(r));
  }

  lemma MultisetInsert<T>(a: seq<T>, x: seq<T>, b: seq<T>)
    ensures multiset(a + x + b) == multiset(a + b) + multiset(x)
  {
  }

  ghost predicate Distinct<T>(s: seq<T>) { forall i, j :: 0 <= i < j < |s| ==> s[i] != s[j] }

  /** Entry `q` of every row. */
  function Column<T>(rows: seq<seq<T>>, q: nat): (r: seq<T>)
    requires forall i :: 0 <= i < |rows| ==> q < |rows[i]|
    ensures |r| == |rows| && forall i :: 0 <= i < |r| ==> r[i] == rows[i][q]
  {
    seq(|rows|, i requires 0 <= i < |rows| => rows[i][q])
  }

  /** Reordering inside every part only reorders the concatenation. */
  lemma {:induction false} FlattenSame<R>(a: seq<seq<R>>, b: seq<seq<R>>)
    requires |a| == |b| && forall i :: 0 <= i < |a| ==> multiset(a[i]) == multiset(b[i])
    ensures multiset(Flatten(a)) == multiset(Flatten(b))
  {
    if a != [] {
      FlattenSame(a[..|a| - 1], b[..|a| - 1]);
    }
  }

  // ---- mapping ------------------------------------------------------------

  function Map<A, B>(f: A -> B, s: seq<A>): (r: seq<B>)
    ensures |r| == |s| && forall i :: 0 <= i < |r| ==> r[i] == f(s[i])
  {
    seq(|s|, i requires 0 <= i < |s| => f(s[i]))
  }

  lemma MapInsert<A, B>(f: A -> B, l: seq<A>, x: A, r: seq<A>)
    ensures multiset(Map(f, l + [x] + r)) == multiset(Map(f, l + r)) + multiset{f(x)}
  {
    assert Map(f, l + [x] + r) == Map(f, l) + [f(x)] + Map(f, r);
    assert Map(f, l + r) == Map(f, l) + Map(f, r);
    MultisetInsert(Map(f, l), [f(x)], Map(f, r));
  }

  /** Mapping a permutation gives a permutation. */
  lemma {:induction false} MapPermuted<A, B>(f: A -> B, a: seq<A>, b: seq<A>)
    requires multiset(a) == multiset(b)
    ensures multiset(Map(f, a)) == multiset(Map(f, b))
  {
    if a == [] {
      assert |b| == |multiset(b)| == |multiset(a)|;
    } else {
      var x := a[0];
      assert x in multiset(a);
      var j :| 0 <= j < |b| && b[j] == x;
      RemoveAt(a, 0);
      RemoveAt(b, j);
      MapPermuted(f, a[..0] + a[1..], b[..j] + b[j + 1..]);
      SplitAt(a, 0);
      SplitAt(b, j);
      MapInsert(f, a[..0], x, a[1..]);
      MapInsert(f, b[..j], x, b[j + 1..]);
    }
  }

  /** Mapping part by part is mapping the concatenation. */
  lemma {:induction false} FlattenMap<A, B>(f: A -> B, parts: seq<seq<A>>, mapped: seq<seq<B>>)
    requires |mapped| == |parts| && forall i :: 0 <= i < |parts| ==> mapped[i] == Map(f, parts[i])
    ensures Flatten(mapped) == Map(f, Flatten(parts))
  {
    if parts != [] {
      var n := |parts| - 1;
      FlattenMap(f, parts[..n], mapped[..n]);
    }
  }
}
