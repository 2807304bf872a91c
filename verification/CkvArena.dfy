/**
 The arena of one worker: a local region in which the rank packs its message, and
 behind it the region that receives every rank's message.
 */
module CkvArena {
  import opened Seqs
  import opened Regions
  import opened Sharding
  import opened CkvGather
  import opened CkvBuilder

  class Arena {
    const cfg: Config
    const rank: nat
    const data: array<Record>

    ghost predicate Valid()
    {
      ValidConfig(cfg) && rank < cfg.layout.ranks
      && data.Length == (cfg.layout.ranks + 1) * Capacity(cfg)
    }

    constructor (cfg: Config, rank: nat)
      requires ValidConfig(cfg) && rank < cfg.layout.ranks
      ensures Valid() && this.cfg == cfg && this.rank == rank && fresh(data)
    {
      this.cfg, this.rank := cfg, rank;
      data := new Record[(cfg.layout.ranks + 1) * Capacity(cfg)](_ => BLANK);
    }

    /**
     `_dcp_gather_ckv`: packs the local pages, zero-pads, and takes part in the
     all-gather. Refuses, touching nothing, when the batch is not eligible.
     `messages` stands for what the collective delivers, rank by rank.
     */
    method GatherCkv(meta: Metadata, capturing: bool, sh: Shard, cu: array<nat>, messages: seq<seq<Record>>,
                     ghost shards: seq<Shard>)
      returns (ok: bool)
      requires Valid() && meta == Built(cfg, meta.batch, rank)
      requires AllHold(cfg.layout, meta.batch.seqLens, shards) && shards[rank] == sh
      requires messages == Messages(cfg.layout, meta.batch.seqLens, PAGE, shards)
      requires cu.Length > |meta.batch.seqLens|
      requires Gated(cfg, meta.batch) ==> forall b :: 0 <= b <= |meta.batch.seqLens| ==>
        cu[b] == Start(ReqLens(cfg.layout, meta.batch.seqLens, rank), b)
      modifies data
      ensures ok <==> Eligible(cfg, meta, meta.batch.numTokens, capturing)
      ensures !ok ==> unchanged(data)
      ensures ok ==> |Gathered(cfg.layout, meta.batch.seqLens, PAGE, shards)| == cfg.layout.ranks * meta.paddedTotal
      ensures ok ==> Has(data[..], 0, Message(cfg.layout, meta.batch.seqLens, PAGE, sh, rank))
      ensures ok ==> Has(data[..], Capacity(cfg), Gathered(cfg.layout, meta.batch.seqLens, PAGE, shards))
      ensures ok ==> Untouched(old(data[..]), data[..], meta.paddedTotal, Capacity(cfg))
      ensures ok ==> Untouched(old(data[..]), data[..], EndOfLive(meta.paddedTotal), data.Length)
    {
      ok := Eligible(cfg, meta, meta.batch.numTokens, capturing);
      if ok {
        PackAndReceive(meta.batch.seqLens, meta.localTotal, meta.paddedTotal, sh, cu, messages, shards);
      }
    }

    /** The part behind the refusal. */
    method PackAndReceive(seqLens: seq<nat>, localTotal: nat, padded: nat, sh: Shard, cu: array<nat>,
                          messages: seq<seq<Record>>, ghost shards: seq<Shard>)
      requires Valid() && AllHold(cfg.layout, seqLens, shards) && shards[rank] == sh
      requires messages == Messages(cfg.layout, seqLens, PAGE, shards)
      requires cu.Length > |seqLens|
      requires forall b :: 0 <= b <= |seqLens| ==> cu[b] == Start(ReqLens(cfg.layout, seqLens, rank), b)
      requires localTotal == Sum(ReqLens(cfg.layout, seqLens, rank))
      requires padded == Padded(cfg.layout, seqLens, PAGE) <= Capacity(cfg)
      modifies data
      ensures |Gathered(cfg.layout, seqLens, PAGE, shards)| == cfg.layout.ranks * padded
      ensures Has(data[..], 0, Message(cfg.layout, seqLens, PAGE, sh, rank))
      ensures Has(data[..], Capacity(cfg), Gathered(cfg.layout, seqLens, PAGE, shards))
      ensures Untouched(old(data[..]), data[..], padded, Capacity(cfg))
      ensures Untouched(old(data[..]), data[..], EndOfLive(padded), data.Length)
    {
      RegionsFit(cfg.layout.ranks, padded, Capacity(cfg));
      CapacityWithin();
      UniformLength(messages, padded);
      ghost var was := data[..];
      PackLocal(seqLens, sh, cu, localTotal, padded);
      ghost var packed := data[..];
      ReceiveAll(messages, padded);
      HasKept(packed, data[..], Capacity(cfg), EndOfLive(padded), 0, messages[rank]);
      BehindKept(was, packed, data[..], padded, Capacity(cfg), EndOfLive(padded));
    }

    static lemma BehindKept<T>(a: seq<T>, b: seq<T>, c: seq<T>, p: nat, from: nat, to: nat)
      requires Untouched(a, b, p, |a|) && SameOutside(b, c, from, to) && p <= from <= to
      ensures Untouched(a, c, p, from) && Untouched(a, c, to, |a|)
    {
    }

    /** Where the live part of the gathered region ends. */
    ghost function EndOfLive(padded: nat): nat
      requires ValidConfig(cfg)
    {
      Capacity(cfg) + Region(cfg.layout.ranks, padded)
    }

    /** Two states agree on `[from, to)`. */
    static ghost predicate Untouched<T>(a: seq<T>, b: seq<T>, from: nat, to: nat) {
      |a| == |b| && forall x :: from <= x < to && x < |a| ==> a[x] == b[x]
    }

    lemma CapacityWithin()
      requires Valid()
      ensures Capacity(cfg) <= data.Length
    {
      MulMono(1, cfg.layout.ranks + 1, Capacity(cfg));
    }

    /** The packed rows in front, and everything from `bound` on as in `was`. */
    ghost predicate Packed(rows: seq<seq<Record>>, bound: nat, was: seq<Record>)
      reads data
    {
      |Flatten(rows)| <= bound <= data.Length == |was|
      && data[..|Flatten(rows)|] == Flatten(rows) && data[bound..] == was[bound..]
    }

    /** Local token `i` of request `b` is the record of its page and offset. */
    ghost predicate CellPacked(seqLens: seq<nat>, sh: Shard, b: nat, i: nat)
      requires Valid() && b < |seqLens|
      reads data
    {
      var at := Start(ReqLens(cfg.layout, seqLens, rank), b) + i;
      at < data.Length && Readable(sh, b, i) && data[at] == sh.pages[sh.table[b][i / 64]][i % 64]
    }

    /** `cp_gather_cache` into the front of the local region, then zeros up to `padded`. */
    method PackLocal(seqLens: seq<nat>, sh: Shard, cu: array<nat>, localTotal: nat, padded: nat)
      requires Valid() && Holds(cfg.layout, seqLens, sh, rank)
      requires cu.Length > |seqLens|
      requires forall b :: 0 <= b <= |seqLens| ==> cu[b] == Start(ReqLens(cfg.layout, seqLens, rank), b)
      requires localTotal == Sum(ReqLens(cfg.layout, seqLens, rank))
      requires padded == Padded(cfg.layout, seqLens, PAGE) <= data.Length
      modifies data
      ensures data[..padded] == Message(cfg.layout, seqLens, PAGE, sh, rank)
      ensures data[padded..] == old(data[padded..])
      ensures Untouched(old(data[..]), data[..], padded, data.Length)
      ensures forall b, i :: 0 <= b < |seqLens| && 0 <= i < LocalLen(cfg.layout, seqLens[b], rank) ==> CellPacked(seqLens, sh, b, i)
    {
      ghost var was := data[..];
      ghost var rows := Rows(cfg.layout, seqLens, sh, rank);
      RowsLength(cfg.layout, seqLens, sh, rank);
      TotalFits(cfg.layout, seqLens, PAGE, rank);
      PackRows(seqLens, sh, cu, padded, rows);
      ZeroTail(localTotal, padded, Flatten(rows));
      SameSuffix(was, data[..], padded);
      forall b, i | 0 <= b < |seqLens| && 0 <= i < LocalLen(cfg.layout, seqLens[b], rank)
        ensures CellPacked(seqLens, sh, b, i)
      {
        MessageCell(seqLens, sh, padded, b, i);
      }
    }

    lemma MessageCell(seqLens: seq<nat>, sh: Shard, padded: nat, b: nat, i: nat)
      requires Valid() && Holds(cfg.layout, seqLens, sh, rank) && padded == Padded(cfg.layout, seqLens, PAGE) <= data.Length
      requires data[..padded] == Message(cfg.layout, seqLens, PAGE, sh, rank)
      requires b < |seqLens| && i < LocalLen(cfg.layout, seqLens[b], rank)
      ensures CellPacked(seqLens, sh, b, i)
    {
      MessageAt(cfg.layout, seqLens, PAGE, sh, rank, b, i);
      assert data[..padded][Start(ReqLens(cfg.layout, seqLens, rank), b) + i] == At(sh, b, i);
    }

    static lemma SameSuffix<T>(a: seq<T>, b: seq<T>, p: nat)
      requires |a| == |b| && p <= |a| && a[p..] == b[p..]
      ensures Untouched(a, b, p, |a|)
    {
      forall x | p <= x < |a|
        ensures a[x] == b[x]
      {
        assert a[p..][x - p] == b[p..][x - p];
      }
    }

    /** The requests, back to back. */
    method PackRows(seqLens: seq<nat>, sh: Shard, cu: array<nat>, padded: nat, ghost rows: seq<seq<Record>>)
      requires Valid() && Holds(cfg.layout, seqLens, sh, rank) && rows == Rows(cfg.layout, seqLens, sh, rank)
      requires cu.Length > |rows| && forall b :: 0 <= b <= |rows| ==> cu[b] == Start(Lengths(rows), b)
      requires Sum(Lengths(rows)) <= padded <= data.Length
      modifies data
      ensures Packed(rows, padded, old(data[..]))
    {
      ghost var was := data[..];
      LengthsPrefix(rows, 0);
      for b := 0 to |seqLens|
        invariant Packed(rows[..b], padded, was) && cu[b] == |Flatten(rows[..b])|
      {
        PrefixLength(rows, Lengths(rows), b);
        RowCells(seqLens, sh, rows, b);
        CopyRow(sh, b, cu[b], cu[b + 1], padded, rows[..b], rows[b], was);
        assert rows[..b + 1] == rows[..b] + [rows[b]];
      }
      assert rows[..|seqLens|] == rows;
    }

    lemma RowCells(seqLens: seq<nat>, sh: Shard, rows: seq<seq<Record>>, b: nat)
      requires Valid() && Holds(cfg.layout, seqLens, sh, rank) && rows == Rows(cfg.layout, seqLens, sh, rank)
      requires b < |seqLens|
      ensures forall i :: 0 <= i < |rows[b]| ==> Readable(sh, b, i) && rows[b][i] == At(sh, b, i)
    {
      assert rows[b] == Row(cfg.layout, seqLens, sh, rank, b);
    }

    static lemma PrefixLength(rows: seq<seq<Record>>, lens: seq<nat>, b: nat)
      requires b < |rows| && lens == Lengths(rows)
      ensures Start(lens, b + 1) == Start(lens, b) + |rows[b]| <= Sum(lens)
      ensures |Flatten(rows[..b + 1])| == Start(lens, b + 1)
    {
      StartStep(lens, b);
      StartMono(lens, b + 1, |lens|);
      assert lens[..|lens|] == lens;
      LengthsPrefix(rows, b + 1);
    }

    /** One request's local tokens, page by page, behind the rows packed so far. */
    method CopyRow(sh: Shard, b: nat, from: nat, to: nat, bound: nat, ghost rows: seq<seq<Record>>, ghost row: seq<Record>,
                   ghost was: seq<Record>)
      requires Packed(rows, bound, was) && from == |Flatten(rows)| && from + |row| == to <= bound
      requires forall i :: 0 <= i < |row| ==> Readable(sh, b, i) && row[i] == At(sh, b, i)
      modifies data
      ensures Packed(rows + [row], bound, was)
    {
      for i := 0 to to - from
        invariant data[..from] == Flatten(rows) && data[from..from + i] == row[..i]
        invariant data[bound..] == was[bound..]
      {
        data[from + i] := At(sh, b, i);
      }
      assert (rows + [row])[..|rows|] == rows;
      assert data[..to] == data[..from] + data[from..to];
    }

    /** The zero padding behind the packed rows. */
    method ZeroTail(localTotal: nat, padded: nat, ghost packed: seq<Record>)
      requires localTotal == |packed| <= padded <= data.Length && data[..localTotal] == packed
      modifies data
      ensures data[..padded] == packed + seq(padded - |packed|, _ => BLANK)
      ensures data[padded..] == old(data[padded..])
    {
      for p := localTotal to padded
        invariant data[..localTotal] == packed
        invariant forall q :: localTotal <= q < p ==> data[q] == BLANK
        invariant data[padded..] == old(data[padded..])
      {
        data[p] := BLANK;
      }
    }

    /** The all-gather: message `r` lands at `r * padded` of the gathered region. */
    method ReceiveAll(messages: seq<seq<Record>>, padded: nat)
      requires Valid() && |messages| == cfg.layout.ranks
      requires forall r :: 0 <= r < |messages| ==> |messages[r]| == padded
      requires padded <= Capacity(cfg) <= data.Length && messages[rank] == data[..padded]
      modifies data
      ensures Has(data[..], Capacity(cfg), Flatten(messages))
      ensures SameOutside(old(data[..]), data[..], Capacity(cfg), EndOfLive(padded))
    {
      UniformLength(messages, padded);
      RegionsFit(cfg.layout.ranks, padded, Capacity(cfg));
      CopyInto(data, Capacity(cfg), Flatten(messages));
    }
  }
}
