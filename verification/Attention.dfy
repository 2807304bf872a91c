/**
 Softmax attention in exact reals, for one query head and one output coordinate: a
 key contributes a positive weight (the exponential of its score) and a value. A
 partial result carries the normalised output and the denominator, which stands for
 the exponential of the log-sum-exp.
 */
module Attention {
  import opened Seqs

  datatype Partial = Partial(out: real, den: real)

  ghost predicate Positive<T(!new)>(w: T -> real) { forall x: T :: w(x) > 0.0 }

  function Total<T>(f: T -> real, ts: seq<T>): real {
    if ts == [] then 0.0 else Total(f, ts[..|ts| - 1]) + f(ts[|ts| - 1])
  }

  function Weighted<T>(w: T -> real, v: T -> real): T -> real { x => w(x) * v(x) }

  function Den<T>(w: T -> real, ts: seq<T>): real { Total(w, ts) }

  function Num<T>(w: T -> real, v: T -> real, ts: seq<T>): real { Total(Weighted(w, v), ts) }

  /** A weighted mean; with nothing to attend to, zero output and zero denominator. */
  function Mean(num: real, den: real): Partial {
    Partial(if den == 0.0 then 0.0 else num / den, den)
  }

  function Attend<T>(w: T -> real, v: T -> real, ts: seq<T>): Partial {
    Mean(Num(w, v, ts), Den(w, ts))
  }

  /** `merge_attn_states`: the denominator-weighted mean of two partial results. */
  function Merge(p: Partial, s: Partial): Partial {
    Mean(p.out * p.den + s.out * s.den, p.den + s.den)
  }

  function TotalDen(ps: seq<Partial>): real {
    if ps == [] then 0.0 else TotalDen(ps[..|ps| - 1]) + ps[|ps| - 1].den
  }

  function TotalNum(ps: seq<Partial>): real {
    if ps == [] then 0.0 else TotalNum(ps[..|ps| - 1]) + ps[|ps| - 1].out * ps[|ps| - 1].den
  }

  /** The correction over all ranks: one denominator-weighted mean of all partials. */
  function Combine(ps: seq<Partial>): Partial {
    Mean(TotalNum(ps), TotalDen(ps))
  }

  // ---- sums over keys -------------------------------------------------------------

  lemma {:induction false} DenPositive<T(!new)>(w: T -> real, ts: seq<T>)
    requires Positive(w)
    ensures Den(w, ts) >= 0.0
    ensures Den(w, ts) == 0.0 <==> ts == []
  {
    if ts != [] {
      DenPositive(w, ts[..|ts| - 1]);
      assert w(ts[|ts| - 1]) > 0.0;
    }
  }

  /** A partial result gives back its numerator. */
  lemma NumBack<T(!new)>(w: T -> real, v: T -> real, ts: seq<T>)
    requires Positive(w)
    ensures Attend(w, v, ts).out * Attend(w, v, ts).den == Num(w, v, ts)
  {
    DenPositive(w, ts);
  }

  lemma {:induction false} TotalConcat<T>(f: T -> real, a: seq<T>, b: seq<T>)
    ensures Total(f, a + b) == Total(f, a) + Total(f, b)
  {
    if b == [] {
      assert a + b == a;
    } else {
      var n := |b| - 1;
      assert (a + b)[..|a + b| - 1] == a + b[..n];
      TotalConcat(f, a, b[..n]);
    }
  }

  lemma TotalSplit<T>(f: T -> real, s: seq<T>, j: nat)
    requires j < |s|
    ensures Total(f, s) == Total(f, s[..j] + s[j + 1..]) + f(s[j])
  {
    SplitAt(s, j);
    TotalInsert(f, s[..j], s[j], s[j + 1..]);
  }

  lemma TotalInsert<T>(f: T -> real, l: seq<T>, x: T, r: seq<T>)
    ensures Total(f, l + [x] + r) == Total(f, l + r) + f(x)
  {
    TotalConcat(f, l + [x], r);
    TotalSnoc(f, l, x);
    TotalConcat(f, l, r);
  }

  lemma TotalSnoc<T>(f: T -> real, s: seq<T>, x: T)
    ensures Total(f, s + [x]) == Total(f, s) + f(x)
  {
    assert (s + [x])[..|s|] == s;
  }

  lemma {:induction false} TotalPermuted<T>(f: T -> real, a: seq<T>, b: seq<T>)
    requires multiset(a) == multiset(b)
    ensures Total(f, a) == Total(f, b)
  {
    if a == [] {
      assert |b| == |multiset(b)| == |multiset(a)|;
    } else {
      var n := |a| - 1;
      assert a[n] in multiset(a);
      var j :| 0 <= j < |b| && b[j] == a[n];
      RemoveAt(a, n);
      RemoveAt(b, j);
      assert a[..n] + a[n + 1..] == a[..n];
      TotalPermuted(f, a[..n], b[..j] + b[j + 1..]);
      TotalSplit(f, b, j);
    }
  }

  /** Attention depends on the selected keys only, not on their order. */
  lemma AttendPermuted<T>(w: T -> real, v: T -> real, a: seq<T>, b: seq<T>)
    requires multiset(a) == multiset(b)
    ensures Attend(w, v, a) == Attend(w, v, b)
  {
    TotalPermuted(w, a, b);
    TotalPermuted(Weighted(w, v), a, b);
  }

  /** Merging two partial results is attending to both key lists at once. */
  lemma MergeAttend<T(!new)>(w: T -> real, v: T -> real, a: seq<T>, b: seq<T>)
    requires Positive(w)
    ensures Merge(Attend(w, v, a), Attend(w, v, b)) == Attend(w, v, a + b)
  {
    TotalConcat(w, a, b);
    TotalConcat(Weighted(w, v), a, b);
    NumBack(w, v, a);
    NumBack(w, v, b);
  }

  /** The partial result of every key list. */
  function AttendRows<T>(w: T -> real, v: T -> real, rows: seq<seq<T>>): (r: seq<Partial>)
    ensures |r| == |rows| && forall q :: 0 <= q < |r| ==> r[q] == Attend(w, v, rows[q])
  {
    seq(|rows|, q requires 0 <= q < |rows| => Attend(w, v, rows[q]))
  }

  /** `p` stands for attention to the keys of `part`. */
  ghost predicate StandsFor<T>(w: T -> real, v: T -> real, part: seq<T>, p: Partial) {
    p.den == Den(w, part) && p.out * p.den == Num(w, v, part)
  }

  function Totals<T>(f: T -> real, parts: seq<seq<T>>): real {
    if parts == [] then 0.0 else Totals(f, parts[..|parts| - 1]) + Total(f, parts[|parts| - 1])
  }

  lemma {:induction false} TotalFlatten<T>(f: T -> real, parts: seq<seq<T>>)
    ensures Total(f, Flatten(parts)) == Totals(f, parts)
  {
    if parts != [] {
      var n := |parts| - 1;
      TotalFlatten(f, parts[..n]);
      TotalConcat(f, Flatten(parts[..n]), parts[n]);
    }
  }

  lemma {:induction false} TotalsOf<T(!new)>(w: T -> real, v: T -> real, parts: seq<seq<T>>, ps: seq<Partial>)
    requires |ps| == |parts| && forall r :: 0 <= r < |ps| ==> StandsFor(w, v, parts[r], ps[r])
    ensures TotalDen(ps) == Totals(w, parts) && TotalNum(ps) == Totals(Weighted(w, v), parts)
  {
    if parts != [] {
      var n := |parts| - 1;
      TotalsOf(w, v, parts[..n], ps[..n]);
      assert StandsFor(w, v, parts[n], ps[n]);
    }
  }

  /** The cross-rank correction is exact, also for ranks that attend to nothing. */
  lemma CombineAttend<T(!new)>(w: T -> real, v: T -> real, parts: seq<seq<T>>)
    requires Positive(w)
    ensures Combine(AttendRows(w, v, parts)) == Attend(w, v, Flatten(parts))
  {
    var ps := AttendRows(w, v, parts);
    forall r | 0 <= r < |ps|
      ensures StandsFor(w, v, parts[r], ps[r])
    {
      NumBack(w, v, parts[r]);
    }
    TotalsOf(w, v, parts, ps);
    TotalFlatten(w, parts);
    TotalFlatten(Weighted(w, v), parts);
  }

  // ---- what the result is ------------------------------------------------------------

  /** One key: its value, with its weight as the denominator; no key: nothing. */
  lemma AttendOne<T(!new)>(w: T -> real, v: T -> real, x: T)
    requires Positive(w)
    ensures Attend(w, v, [x]) == Partial(v(x), w(x)) && Attend(w, v, []) == Partial(0.0, 0.0)
  {
    assert [] + [x] == [x] && w(x) > 0.0;
    TotalSnoc(w, [], x);
    TotalSnoc(Weighted(w, v), [], x);
    NumBack(w, v, [x]);
    Cancel(Attend(w, v, [x]).out, v(x), w(x));
  }

  lemma Cancel(x: real, y: real, d: real)
    requires d > 0.0 && x * d == y * d
    ensures x == y
  {
    assert (x - y) * d == 0.0;
  }

  /** A merge keeps the total weight and the weighted total; without weight it is zero. */
  lemma MergeWeighs(p: Partial, s: Partial)
    requires p.den >= 0.0 && s.den >= 0.0
    ensures Merge(p, s).den == p.den + s.den
    ensures p.den + s.den > 0.0 ==> Merge(p, s).out * (p.den + s.den) == p.out * p.den + s.out * s.den
    ensures p.den + s.den == 0.0 ==> Merge(p, s).out == 0.0
  {
  }

  /** One more key adds its weight and its weighted value. */
  lemma AttendMore<T(!new)>(w: T -> real, v: T -> real, ts: seq<T>, x: T)
    requires Positive(w)
    ensures Attend(w, v, ts + [x]).den == Attend(w, v, ts).den + w(x)
    ensures Attend(w, v, ts + [x]).out * (Attend(w, v, ts).den + w(x)) == Attend(w, v, ts).out * Attend(w, v, ts).den + v(x) * w(x)
  {
    AttendOne(w, v, x);
    MergeAttend(w, v, ts, [x]);
    DenPositive(w, ts);
    assert w(x) > 0.0;
    MergeWeighs(Attend(w, v, ts), Attend(w, v, [x]));
  }

  lemma {:induction false} NumWithin<T(!new)>(w: T -> real, v: T -> real, ts: seq<T>, lo: real, hi: real)
    requires Positive(w) && forall i :: 0 <= i < |ts| ==> lo <= v(ts[i]) <= hi
    ensures lo * Den(w, ts) <= Num(w, v, ts) <= hi * Den(w, ts)
  {
    if ts != [] {
      var n := |ts| - 1;
      NumWithin(w, v, ts[..n], lo, hi);
      assert w(ts[n]) > 0.0;
      WithinStep(lo, hi, Den(w, ts[..n]), Num(w, v, ts[..n]), w(ts[n]), v(ts[n]));
    }
  }

  lemma WithinStep(lo: real, hi: real, den: real, num: real, w: real, v: real)
    requires lo * den <= num <= hi * den && lo <= v <= hi && w > 0.0
    ensures lo * (den + w) <= num + w * v <= hi * (den + w)
  {
    assert lo * w <= v * w <= hi * w;
  }

  /** The output lies between the smallest and the largest value attended to. */
  lemma AttendWithin<T(!new)>(w: T -> real, v: T -> real, ts: seq<T>, lo: real, hi: real)
    requires Positive(w) && ts != [] && forall i :: 0 <= i < |ts| ==> lo <= v(ts[i]) <= hi
    ensures lo <= Attend(w, v, ts).out <= hi
  {
    DenPositive(w, ts);
    NumWithin(w, v, ts, lo, hi);
    QuotientWithin(lo, hi, Num(w, v, ts), Den(w, ts));
  }

  lemma QuotientWithin(lo: real, hi: real, num: real, den: real)
    requires den > 0.0 && lo * den <= num <= hi * den
    ensures lo <= num / den <= hi
  {
    var q := num / den;
    assert q * den == num;
    assert (q - lo) * den >= 0.0 && (hi - q) * den >= 0.0;
  }

  // ---- partitions -------------------------------------------------------------------

  function Bucket<T>(key: T -> nat, ts: seq<T>, k: nat): (r: seq<T>)
    ensures forall i :: 0 <= i < |r| ==> r[i] in ts && key(r[i]) == k
  {
    if ts == [] then []
    else
      var last := ts[|ts| - 1];
      Bucket(key, ts[..|ts| - 1], k) + (if key(last) == k then [last] else [])
  }

  function Buckets<T>(key: T -> nat, ts: seq<T>, n: nat): (r: seq<seq<T>>)
    ensures |r| == n && forall k :: 0 <= k < n ==> r[k] == Bucket(key, ts, k)
  {
    seq(n, k requires 0 <= k < n => Bucket(key, ts, k))
  }

  lemma {:induction false} FlattenBump<T>(bs: seq<seq<T>>, k: nat, x: T)
    requires k < |bs|
    ensures multiset(Flatten(bs[k := bs[k] + [x]])) == multiset(Flatten(bs)) + multiset{x}
  {
    var n, bs' := |bs| - 1, bs[k := bs[k] + [x]];
    if k == n {
      assert bs'[..n] == bs[..n];
    } else {
      FlattenBump(bs[..n], k, x);
      assert bs'[..n] == bs[..n][k := bs[k] + [x]];
    }
  }

  lemma {:induction false} FlattenNothing<T>(bs: seq<seq<T>>)
    requires forall k :: 0 <= k < |bs| ==> bs[k] == []
    ensures Flatten(bs) == []
  {
    if bs != [] {
      FlattenNothing(bs[..|bs| - 1]);
    }
  }

  /** Splitting by a key into `n` buckets loses and repeats nothing. */
  lemma {:induction false} BucketsPartition<T>(key: T -> nat, ts: seq<T>, n: nat)
    requires forall i :: 0 <= i < |ts| ==> key(ts[i]) < n
    ensures multiset(Flatten(Buckets(key, ts, n))) == multiset(ts)
  {
    if ts == [] {
      FlattenNothing(Buckets(key, ts, n));
    } else {
      var m := |ts| - 1;
      BucketsPartition(key, ts[..m], n);
      FlattenBump(Buckets(key, ts[..m], n), key(ts[m]), ts[m]);
      BucketsStep(key, ts, n);
      assert ts == ts[..m] + [ts[m]];
    }
  }

  lemma BucketsStep<T>(key: T -> nat, ts: seq<T>, n: nat)
    requires ts != [] && key(ts[|ts| - 1]) < n
    ensures var before := Buckets(key, ts[..|ts| - 1], n);
      var k := key(ts[|ts| - 1]);
      Buckets(key, ts, n) == before[k := before[k] + [ts[|ts| - 1]]]
  {
    var before, last := Buckets(key, ts[..|ts| - 1], n), ts[|ts| - 1];
    var after := before[key(last) := before[key(last)] + [last]];
    forall j | 0 <= j < n
      ensures Bucket(key, ts, j) == after[j]
    {
      assert Bucket(key, ts, j) == before[j] + (if key(last) == j then [last] else []);
    }
    assert Buckets(key, ts, n) == after;
  }

  // ---- the chunked fold -----------------------------------------------------------------

  ghost predicate HoldsResult(out: array<real>, lse: array<real>, want: seq<Partial>)
    reads out, lse
  {
    out.Length == lse.Length == |want|
    && forall q :: 0 <= q < |want| ==> Partial(out[q], lse[q]) == want[q]
  }

  /** `run_prefill_context_chunk`: fresh output and LSE tensors for one chunk. */
  method RunContextChunk<T>(w: T -> real, v: T -> real, rows: seq<seq<T>>)
    returns (out: array<real>, lse: array<real>)
    ensures fresh(out) && fresh(lse) && out != lse
    ensures HoldsResult(out, lse, AttendRows(w, v, rows))
  {
    out, lse := new real[|rows|], new real[|rows|];
    for q := 0 to |rows|
      invariant forall p :: 0 <= p < q ==> Partial(out[p], lse[p]) == Attend(w, v, rows[p])
    {
      var a := Attend(w, v, rows[q]);
      out[q], lse[q] := a.out, a.den;
    }
  }

  /** `merge_attn_states`: the destination must be none of the buffers it reads. */
  method MergeAttnStates(out: array<real>, lse: array<real>, prefixOut: array<real>, prefixLse: array<real>,
                         suffixOut: array<real>, suffixLse: array<real>)
    requires out.Length == lse.Length == prefixOut.Length == prefixLse.Length == suffixOut.Length == suffixLse.Length
    requires out != lse && {out, lse} !! {prefixOut, prefixLse, suffixOut, suffixLse}
    modifies out, lse
    ensures forall q :: 0 <= q < out.Length ==>
      Partial(out[q], lse[q]) == Merge(Partial(prefixOut[q], prefixLse[q]), Partial(suffixOut[q], suffixLse[q]))
  {
    for q := 0 to out.Length
      invariant forall p :: 0 <= p < q ==>
        Partial(out[p], lse[p]) == Merge(Partial(prefixOut[p], prefixLse[p]), Partial(suffixOut[p], suffixLse[p]))
    {
      var m := Merge(Partial(prefixOut[q], prefixLse[q]), Partial(suffixOut[q], suffixLse[q]));
      out[q], lse[q] := m.out, m.den;
    }
  }

  datatype Buffers = Unset | Set(out: array<real>, lse: array<real>)

  /** Two distinct tensors of one length. */
  ghost predicate Ready(b: Buffers, rows: nat) {
    b.Set? && b.out != b.lse && b.out.Length == b.lse.Length == rows
  }

  /** No tensor of `a` is a tensor of `b`. */
  ghost predicate Apart(a: Buffers, b: Buffers) {
    a.Set? && b.Set? ==> {a.out, a.lse} !! {b.out, b.lse}
  }

  /**
   Merges a computed chunk into the merge buffer, allocated on first use, and swaps:
   the merge buffer becomes the running result and the old result the merge buffer.
   */
  method MergeAndSwap(output: Buffers, merge: Buffers, attnOut: array<real>, attnLse: array<real>)
    returns (output': Buffers, merge': Buffers)
    requires Ready(output, attnOut.Length) && Ready(Set(attnOut, attnLse), attnOut.Length)
    requires merge.Set? ==> Ready(merge, attnOut.Length)
    requires Apart(output, merge) && Apart(output, Set(attnOut, attnLse)) && Apart(merge, Set(attnOut, attnLse))
    modifies if merge.Set? then {merge.out, merge.lse} else {}
    ensures Ready(output', attnOut.Length) && merge' == output && Apart(output', merge')
    ensures if merge.Set? then output' == merge else fresh(output'.out) && fresh(output'.lse)
    ensures forall q :: 0 <= q < attnOut.Length ==>
      Partial(output'.out[q], output'.lse[q])
      == Merge(Partial(output.out[q], output.lse[q]), Partial(attnOut[q], attnLse[q]))
  {
    var target := merge;
    if target.Unset? {
      var mergeOut, mergeLse := new real[attnOut.Length], new real[attnOut.Length];
      target := Set(mergeOut, mergeLse);
    }
    MergeAttnStates(target.out, target.lse, output.out, output.lse, attnOut, attnLse);
    output', merge' := target, output;
  }

  function Append<T>(seen: seq<seq<T>>, chunk: seq<seq<T>>): (r: seq<seq<T>>)
    requires |seen| == |chunk|
    ensures |r| == |seen| && forall q :: 0 <= q < |r| ==> r[q] == seen[q] + chunk[q]
  {
    seq(|seen|, q requires 0 <= q < |seen| => seen[q] + chunk[q])
  }

  lemma AppendNothing<T>(seen: seq<seq<T>>, chunk: seq<seq<T>>)
    requires |seen| == |chunk|
    ensures (forall q :: 0 <= q < |seen| ==> seen[q] == []) ==> Append(seen, chunk) == chunk
    ensures (forall q :: 0 <= q < |seen| ==> chunk[q] == []) ==> Append(seen, chunk) == seen
  {
    assert forall q :: 0 <= q < |seen| ==> [] + chunk[q] == chunk[q] && seen[q] + [] == seen[q];
  }

  /** The running result is one-shot attention over the keys seen so far. */
  ghost predicate Progress<T>(w: T -> real, v: T -> real, output: Buffers, merge: Buffers, seen: seq<seq<T>>)
    reads if output.Set? then {output.out, output.lse} else {}
  {
    && (output.Set? ==> Ready(output, |seen|) && HoldsResult(output.out, output.lse, AttendRows(w, v, seen)))
    && (output.Unset? ==> merge.Unset? && forall q :: 0 <= q < |seen| ==> seen[q] == [])
    && (merge.Set? ==> Ready(merge, |seen|))
    && Apart(output, merge)
  }

  /** One computed chunk: its attention becomes, or is merged into, the running result. */
  method AddChunk<T(!new)>(w: T -> real, v: T -> real, chunk: seq<seq<T>>, output: Buffers, merge: Buffers,
                           ghost seen: seq<seq<T>>)
    returns (output': Buffers, merge': Buffers)
    requires Positive(w) && |chunk| == |seen| && Progress(w, v, output, merge, seen)
    modifies if merge.Set? then {merge.out, merge.lse} else {}
    ensures output'.Set? && Progress(w, v, output', merge', Append(seen, chunk))
    ensures output' == merge || (fresh(output'.out) && fresh(output'.lse))
    ensures merge' == output || merge' == merge
  {
    var attnOut, attnLse := RunContextChunk(w, v, chunk);
    MergeRows(w, v, seen, chunk);
    if output.Unset? {
      AppendNothing(seen, chunk);
      return Set(attnOut, attnLse), merge;
    }
    output', merge' := MergeAndSwap(output, merge, attnOut, attnLse);
  }

  lemma MergeRows<T(!new)>(w: T -> real, v: T -> real, seen: seq<seq<T>>, chunk: seq<seq<T>>)
    requires Positive(w) && |seen| == |chunk|
    ensures forall q :: 0 <= q < |seen| ==>
      AttendRows(w, v, Append(seen, chunk))[q] == Merge(AttendRows(w, v, seen)[q], AttendRows(w, v, chunk)[q])
  {
    forall q | 0 <= q < |seen|
      ensures AttendRows(w, v, Append(seen, chunk))[q] == Merge(AttendRows(w, v, seen)[q], AttendRows(w, v, chunk)[q])
    {
      MergeAttend(w, v, seen[q], chunk[q]);
    }
  }

  /** One iteration: a chunk with no tokens is skipped. */
  method FoldChunk<T(!new)>(w: T -> real, v: T -> real, chunk: seq<seq<T>>, tot: nat, output: Buffers, merge: Buffers,
                            ghost seen: seq<seq<T>>)
    returns (output': Buffers, merge': Buffers)
    requires Positive(w) && |chunk| == |seen| && Progress(w, v, output, merge, seen)
    requires EmptyWhenSkipped(chunk, tot)
    modifies if merge.Set? then {merge.out, merge.lse} else {}
    ensures Progress(w, v, output', merge', Append(seen, chunk))
    ensures output'.Unset? <==> output.Unset? && tot == 0
    ensures output' == output || output' == merge || (fresh(output'.out) && fresh(output'.lse))
    ensures merge' == output || merge' == merge
  {
    output', merge' := output, merge;
    if tot == 0 {
      AppendNothing(seen, chunk);
    } else {
      output', merge' := AddChunk(w, v, chunk, output, merge, seen);
    }
  }

  /** The keys that all rows meet in `chunks`. */
  function Columns<T>(chunks: seq<seq<seq<T>>>, rows: nat): (s: seq<seq<T>>)
    requires forall i :: 0 <= i < |chunks| ==> |chunks[i]| == rows
    ensures |s| == rows && forall q :: 0 <= q < rows ==> s[q] == Flatten(Column(chunks, q))
  {
    seq(rows, q requires 0 <= q < rows => Flatten(Column(chunks, q)))
  }

  lemma ColumnsStep<T>(chunks: seq<seq<seq<T>>>, rows: nat, i: nat)
    requires i < |chunks| && forall j :: 0 <= j < |chunks| ==> |chunks[j]| == rows
    ensures Columns(chunks[..i + 1], rows) == Append(Columns(chunks[..i], rows), chunks[i])
  {
    forall q | 0 <= q < rows
      ensures Flatten(Column(chunks[..i + 1], q)) == Flatten(Column(chunks[..i], q)) + chunks[i][q]
    {
      assert Column(chunks[..i + 1], q)[..i] == Column(chunks[..i], q);
    }
  }

  ghost predicate AllSkipped(seqTot: seq<nat>, n: nat)
    requires n <= |seqTot|
  {
    forall j :: 0 <= j < n ==> seqTot[j] == 0
  }

  /** A chunk without tokens gives no row anything to attend to. */
  ghost predicate EmptyWhenSkipped<T>(chunk: seq<seq<T>>, tot: nat) {
    tot == 0 ==> forall q :: 0 <= q < |chunk| ==> chunk[q] == []
  }

  /** The loop: the running result stands for all chunks so far. */
  method FoldAll<T(!new)>(w: T -> real, v: T -> real, chunks: seq<seq<seq<T>>>, rows: nat, seqTot: seq<nat>)
    returns (output: Buffers, ghost merge: Buffers)
    requires Positive(w) && |seqTot| == |chunks|
    requires forall i :: 0 <= i < |chunks| ==> |chunks[i]| == rows
    requires forall i :: 0 <= i < |chunks| ==> EmptyWhenSkipped(chunks[i], seqTot[i])
    ensures output.Unset? <==> AllSkipped(seqTot, |chunks|)
    ensures Progress(w, v, output, merge, Columns(chunks, rows))
  {
    output := Unset;
    var spare := Unset;
    for i := 0 to |chunks|
      invariant output.Unset? <==> AllSkipped(seqTot, i)
      invariant Progress(w, v, output, spare, Columns(chunks[..i], rows))
      invariant output.Set? ==> fresh(output.out) && fresh(output.lse)
      invariant spare.Set? ==> fresh(spare.out) && fresh(spare.lse)
    {
      output, spare := FoldChunk(w, v, chunks[i], seqTot[i], output, spare, Columns(chunks[..i], rows));
      ColumnsStep(chunks, rows, i);
    }
    assert chunks[..|chunks|] == chunks;
    merge := spare;
  }

  /**
   The merge loop over context chunks. A chunk with no tokens is skipped; from the
   second computed chunk on, the running result and the merge buffer swap roles.
   `seqTot` are the per-chunk token totals.
   */
  method FoldChunks<T(!new)>(w: T -> real, v: T -> real, chunks: seq<seq<seq<T>>>, rows: nat, seqTot: seq<nat>)
    returns (output: Buffers)
    requires Positive(w) && |seqTot| == |chunks|
    requires forall i :: 0 <= i < |chunks| ==> |chunks[i]| == rows
    requires forall i :: 0 <= i < |chunks| ==> EmptyWhenSkipped(chunks[i], seqTot[i])
    ensures output.Unset? <==> forall i :: 0 <= i < |chunks| ==> seqTot[i] == 0
    ensures output.Set? ==> output.out.Length == output.lse.Length == rows
    ensures output.Set? ==> forall q :: 0 <= q < rows ==>
      Partial(output.out[q], output.lse[q]) == Attend(w, v, Flatten(Column(chunks, q)))
  {
    ghost var merge;
    output, merge := FoldAll(w, v, chunks, rows, seqTot);
    assert forall q :: 0 <= q < rows ==>
      AttendRows(w, v, Columns(chunks, rows))[q] == Attend(w, v, Flatten(Column(chunks, q)));
  }
}
