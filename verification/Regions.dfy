/** Stretches of a buffer: what lies where, and what a copy leaves alone. */
module Regions {
  /** `piece` lies in `s` from `at` on. */
  ghost predicate Has<T>(s: seq<T>, at: nat, piece: seq<T>) {
    at + |piece| <= |s| && s[at..at + |piece|] == piece
  }

  /** Two sequences agree outside `[from, to)`. */
  ghost predicate SameOutside<T>(a: seq<T>, b: seq<T>, from: nat, to: nat) {
    |a| == |b| && forall x :: 0 <= x < |a| && (x < from || to <= x) ==> a[x] == b[x]
  }

  lemma HasKept<T>(a: seq<T>, b: seq<T>, from: nat, to: nat, at: nat, piece: seq<T>)
    requires SameOutside(a, b, from, to) && Has(a, at, piece)
    requires at + |piece| <= from || to <= at
    ensures Has(b, at, piece)
  {
    assert forall x :: at <= x < at + |piece| ==> a[x] == b[x];
  }

  lemma SameWider<T>(a: seq<T>, b: seq<T>, from: nat, to: nat, from': nat, to': nat)
    requires SameOutside(a, b, from, to) && from' <= from && to <= to'
    ensures SameOutside(a, b, from', to')
  {
  }

  lemma SameTwice<T>(a: seq<T>, b: seq<T>, c: seq<T>, from: nat, to: nat)
    requires SameOutside(a, b, from, to) && SameOutside(b, c, from, to)
    ensures SameOutside(a, c, from, to)
  {
  }

  /** Adjacent pieces make up one piece. */
  lemma HasConcat<T>(s: seq<T>, at: nat, a: seq<T>, b: seq<T>)
    requires Has(s, at, a) && Has(s, at + |a|, b)
    ensures Has(s, at, a + b)
  {
    assert s[at..at + |a| + |b|] == s[at..at + |a|] + s[at + |a|..at + |a| + |b|];
  }

  /** `dst[at : at + len(src)].copy_(src)` */
  method CopyInto<T>(dst: array<T>, at: nat, src: seq<T>)
    requires at + |src| <= dst.Length
    modifies dst
    ensures Has(dst[..], at, src) && SameOutside(old(dst[..]), dst[..], at, at + |src|)
  {
    for x := 0 to |src|
      invariant dst[at..at + x] == src[..x]
      invariant forall y :: 0 <= y < dst.Length && (y < at || at + |src| <= y) ==> dst[y] == old(dst[..])[y]
    {
      dst[at + x] := src[x];
    }
  }
}
