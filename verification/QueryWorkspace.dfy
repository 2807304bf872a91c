/**
 `dcp_all_gather_query_in_workspace`: gathering every rank's query heads into one
 query workspace, chunk by chunk through a scratch area. A tuple query is staged
 inside the rows of the workspace that the same chunk overwrites afterwards.
 */
module QueryWorkspace {
  import opened Seqs
  import opened Regions

  /** One head of one token's query: BF16 patterns. */
  type Head = seq<bv16>

  /** A rank's query: one tensor, or the noPE and RoPE parts still apart. */
  datatype Query = Tensor(q: seq<Head>) | Parts(nope: seq<Head>, pe: seq<Head>) {
    predicate Shaped(n: nat) {
      match this
      case Tensor(q) => |q| == n
      case Parts(nope, pe) => |nope| == n && |pe| == n
    }

    /** The query heads as the kernel sees them, token after token. */
    function Heads(): (s: seq<Head>)
      requires Parts? ==> |nope| == |pe|
      ensures Tensor? ==> s == q
      ensures Parts? ==> |s| == |nope| && forall i :: 0 <= i < |s| ==> s[i] == nope[i] + pe[i]
    {
      match this
      case Tensor(q) => q
      case Parts(nope, pe) => seq(|nope|, i requires 0 <= i < |nope| => nope[i] + pe[i])
    }
  }

  const HEAD_ALIGNMENT: nat := 8

  const TOPOLOGIES: set<(nat, nat)> := {(4, 4), (6, 2), (6, 3), (6, 6), (8, 2), (8, 4), (8, 8)}

  /** Ranks, local heads, heads per workspace row, rows of the workspace. */
  datatype Geometry = Geometry(ranks: nat, heads: nat, kernelHeads: nat, maxBatched: nat) {
    predicate Valid() { ranks > 0 && heads > 0 && ranks * heads <= kernelHeads }

    /** Where token `t`'s row starts, and where `t` rows end. */
    function RowStart(t: nat): nat {
      MulMono(0, t, kernelHeads);
      t * kernelHeads
    }

    /** The local heads of `n` tokens. */
    function HeadsOf(n: nat): nat {
      MulMono(0, n, heads);
      n * heads
    }

    /** Where head 0 of rank `r` lies in token `t`'s row. */
    function Pos(t: nat, r: nat): nat { t * kernelHeads + r * heads }
  }

  /** `_validate_dcp_prefill_workspace_contract`, without the fixed head dimensions. */
  predicate Supported(g: Geometry, tp: nat, numTokens: nat) {
    1025 <= numTokens <= g.maxBatched && (tp, g.ranks) in TOPOLOGIES && g.ranks > 1 && g.Valid()
    && g.kernelHeads % HEAD_ALIGNMENT == 0
  }

  // ---- rows of the workspace -------------------------------------------------------

  /** Rows do not overlap, and inside a row ranks do not overlap. */
  lemma PosApart(g: Geometry, t: nat, r: nat, t': nat, r': nat)
    requires g.Valid() && r < g.ranks && r' < g.ranks
    requires t < t' || (t == t' && r < r')
    ensures g.Pos(t, r) + g.heads <= g.Pos(t', r')
    ensures g.Pos(t, r) + g.heads <= g.RowStart(t) + g.kernelHeads
  {
    MulMono(r + 1, g.ranks, g.heads);
    Distribute(r, 1, g.heads);
    MulMono(0, r', g.heads);
    if t < t' {
      MulMono(t + 1, t', g.kernelHeads);
      Distribute(t, 1, g.kernelHeads);
    } else {
      MulMono(r + 1, r', g.heads);
    }
  }

  lemma PosInRow(g: Geometry, t: nat, r: nat)
    requires g.Valid() && r < g.ranks
    ensures g.RowStart(t) <= g.Pos(t, r) && g.Pos(t, r) + g.heads <= (t + 1) * g.kernelHeads
  {
    MulMono(r + 1, g.ranks, g.heads);
    Distribute(r, 1, g.heads);
    Distribute(t, 1, g.kernelHeads);
    MulMono(0, r, g.heads);
  }

  // ---- the three steps of a chunk -----------------------------------------------------

  /** `x` heads of token `t` of a query. */
  function TokenHeads(q: seq<Head>, t: nat, heads: nat): (s: seq<Head>)
    ensures t * heads + heads <= |q| && 0 <= t * heads ==> |s| == heads && s == q[t * heads..t * heads + heads]
  {
    if 0 <= t * heads && t * heads + heads <= |q| then q[t * heads..t * heads + heads] else []
  }

  /** `all_gather_into_tensor`: the messages, rank after rank, at the front of the scratch area. */
  method AllGatherInto(scratch: array<Head>, messages: seq<seq<Head>>, len: nat)
    requires forall r :: 0 <= r < |messages| ==> |messages[r]| == len
    requires Region(|messages|, len) <= scratch.Length
    modifies scratch
    ensures forall r :: 0 <= r < |messages| ==> Has(scratch[..], Region(r, len), messages[r])
  {
    for r := 0 to |messages|
      invariant forall q :: 0 <= q < r ==> Has(scratch[..], Region(q, len), messages[q])
    {
      RegionsApart(r, |messages|, len);
      ghost var was := scratch[..];
      CopyInto(scratch, Region(r, len), messages[r]);
      forall q | 0 <= q < r
        ensures Has(scratch[..], Region(q, len), messages[q])
      {
        RegionsApart(q, r, len);
        HasKept(was, scratch[..], Region(r, len), Region(r, len) + len, Region(q, len), messages[q]);
      }
    }
  }

  lemma RegionsApart(q: nat, r: nat, len: nat)
    requires q < r
    ensures Region(q, len) + len <= Region(r, len)
  {
    MulMono(q + 1, r, len);
    Distribute(q, 1, len);
  }

  /** Cell `(r, i)` of a chunk: token `first + i`'s heads from rank `r` are in their place. */
  ghost predicate Cell(g: Geometry, ws: seq<Head>, first: nat, messages: seq<seq<Head>>, r: nat, i: nat)
    requires r < |messages|
  {
    Has(ws, g.Pos(first + i, r), TokenHeads(messages[r], i, g.heads))
  }

  /** All cells of ranks below `r`, and the first `i` of rank `r`. */
  ghost predicate Placed(g: Geometry, ws: seq<Head>, first: nat, rows: nat, messages: seq<seq<Head>>, r: nat, i: nat) {
    forall q, j :: 0 <= q < |messages| && 0 <= j < rows && (q < r || (q == r && j < i)) ==>
      Cell(g, ws, first, messages, q, j)
  }

  ghost predicate ChunkMessages(g: Geometry, messages: seq<seq<Head>>, rows: nat) {
    |messages| == g.ranks && forall r :: 0 <= r < |messages| ==> |messages[r]| == g.HeadsOf(rows)
  }

  lemma TokenFits(g: Geometry, message: seq<Head>, rows: nat, i: nat)
    requires i < rows && |message| == g.HeadsOf(rows)
    ensures 0 <= i * g.heads && i * g.heads + g.heads <= |message|
    ensures |TokenHeads(message, i, g.heads)| == g.heads
  {
    MulMono(i + 1, rows, g.heads);
    Distribute(i, 1, g.heads);
    MulMono(0, i, g.heads);
  }

  lemma CellKept(g: Geometry, before: seq<Head>, after: seq<Head>, first: nat, rows: nat, messages: seq<seq<Head>>,
                 r: nat, i: nat, q: nat, j: nat)
    requires g.Valid() && ChunkMessages(g, messages, rows) && r < g.ranks && i < rows && j < rows
    requires q < r || (q == r && j < i)
    requires SameOutside(before, after, g.Pos(first + i, r), g.Pos(first + i, r) + g.heads)
    requires Cell(g, before, first, messages, q, j)
    ensures Cell(g, after, first, messages, q, j)
  {
    if j < i || (j == i && q < r) {
      PosApart(g, first + j, q, first + i, r);
    } else {
      PosApart(g, first + i, r, first + j, q);
    }
    TokenFits(g, messages[q], rows, j);
    HasKept(before, after, g.Pos(first + i, r), g.Pos(first + i, r) + g.heads, g.Pos(first + j, q),
            TokenHeads(messages[q], j, g.heads));
  }

  lemma PlacedStep(g: Geometry, before: seq<Head>, after: seq<Head>, first: nat, rows: nat, messages: seq<seq<Head>>,
                   r: nat, i: nat)
    requires g.Valid() && ChunkMessages(g, messages, rows) && r < g.ranks && i < rows
    requires SameOutside(before, after, g.Pos(first + i, r), g.Pos(first + i, r) + g.heads)
    requires Placed(g, before, first, rows, messages, r, i) && Cell(g, after, first, messages, r, i)
    ensures Placed(g, after, first, rows, messages, r, i + 1)
  {
    forall q, j | 0 <= q < |messages| && 0 <= j < rows && (q < r || (q == r && j < i))
      ensures Cell(g, after, first, messages, q, j)
    {
      CellKept(g, before, after, first, rows, messages, r, i, q, j);
    }
  }

  /** Where one token of one rank's message lies in the scratch area. */
  lemma ScratchCell(g: Geometry, scratch: seq<Head>, messages: seq<seq<Head>>, rows: nat, r: nat, i: nat)
    requires ChunkMessages(g, messages, rows) && r < g.ranks && i < rows
    requires Has(scratch, Region(r, g.HeadsOf(rows)), messages[r])
    ensures (r * rows + i) * g.heads == r * g.HeadsOf(rows) + i * g.heads
    ensures 0 <= (r * rows + i) * g.heads && Has(scratch, (r * rows + i) * g.heads, TokenHeads(messages[r], i, g.heads))
  {
    TokenFits(g, messages[r], rows, i);
    Distribute(r * rows, i, g.heads);
    Assoc(r, rows, g.heads);
    var at := r * g.HeadsOf(rows);
    var token := TokenHeads(messages[r], i, g.heads);
    forall x | 0 <= x < g.heads
      ensures scratch[at + i * g.heads..at + i * g.heads + g.heads][x] == token[x]
    {
      assert scratch[at..at + |messages[r]|][i * g.heads + x] == messages[r][i * g.heads + x];
    }
  }

  /** One cell: a strided copy of one token's heads. */
  method PlaceCell(g: Geometry, ws: array<Head>, scratch: array<Head>, first: nat, rows: nat, r: nat, i: nat,
                   ghost messages: seq<seq<Head>>)
    requires ws != scratch && g.Valid() && ChunkMessages(g, messages, rows) && r < g.ranks && i < rows
    requires Has(scratch[..], Region(r, g.HeadsOf(rows)), messages[r])
    requires g.RowStart(first + rows) <= ws.Length
    modifies ws
    ensures Cell(g, ws[..], first, messages, r, i)
    ensures SameOutside(old(ws[..]), ws[..], g.Pos(first + i, r), g.Pos(first + i, r) + g.heads)
  {
    ScratchCell(g, scratch[..], messages, rows, r, i);
    TokenFits(g, messages[r], rows, i);
    PosInRow(g, first + i, r);
    MulMono(first + i + 1, first + rows, g.kernelHeads);
    var at := (r * rows + i) * g.heads;
    CopyInto(ws, g.Pos(first + i, r), scratch[at..at + g.heads]);
  }

  /** Copying the gathered chunk to its rows, rank after rank. */
  method PlaceChunk(g: Geometry, ws: array<Head>, scratch: array<Head>, first: nat, rows: nat,
                    ghost messages: seq<seq<Head>>)
    requires ws != scratch && g.Valid() && ChunkMessages(g, messages, rows)
    requires forall r :: 0 <= r < g.ranks ==>
      Has(scratch[..], Region(r, g.HeadsOf(rows)), messages[r])
    requires g.RowStart(first + rows) <= ws.Length
    modifies ws
    ensures Placed(g, ws[..], first, rows, messages, g.ranks, 0)
    ensures SameOutside(old(ws[..]), ws[..], g.RowStart(first), g.RowStart(first + rows))
  {
    for r := 0 to g.ranks
      invariant Placed(g, ws[..], first, rows, messages, r, 0)
      invariant SameOutside(old(ws[..]), ws[..], g.RowStart(first), g.RowStart(first + rows))
    {
      for i := 0 to rows
        invariant Placed(g, ws[..], first, rows, messages, r, i)
        invariant SameOutside(old(ws[..]), ws[..], g.RowStart(first), g.RowStart(first + rows))
      {
        ghost var before := ws[..];
        PlaceCell(g, ws, scratch, first, rows, r, i, messages);
        PlacedStep(g, before, ws[..], first, rows, messages, r, i);
        InsideChunk(g, first, rows, i, r);
        SameWider(before, ws[..], g.Pos(first + i, r), g.Pos(first + i, r) + g.heads,
                  g.RowStart(first), g.RowStart(first + rows));
      }
    }
  }

  lemma InsideChunk(g: Geometry, first: nat, rows: nat, i: nat, r: nat)
    requires g.Valid() && i < rows && r < g.ranks
    ensures 0 <= g.RowStart(first) <= g.Pos(first + i, r)
    ensures g.Pos(first + i, r) + g.heads <= g.RowStart(first + rows)
  {
    PosInRow(g, first + i, r);
    MulMono(0, first, g.kernelHeads);
    MulMono(first, first + i, g.kernelHeads);
    MulMono(first + i + 1, first + rows, g.kernelHeads);
  }

  // ---- one chunk ---------------------------------------------------------------------------

  /** Rows `[first, first + rows)` of a query. */
  function ChunkOf(q: seq<Head>, first: nat, rows: nat, heads: nat): (s: seq<Head>)
    ensures 0 <= first * heads <= first * heads + rows * heads <= |q| ==>
      s == q[first * heads..first * heads + rows * heads]
  {
    if 0 <= first * heads <= first * heads + rows * heads <= |q| then q[first * heads..first * heads + rows * heads]
    else []
  }

  lemma ChunkFits(q: seq<Head>, first: nat, rows: nat, heads: nat, n: nat)
    requires |q| == n * heads && first + rows <= n
    ensures 0 <= first * heads <= first * heads + rows * heads <= |q|
    ensures |ChunkOf(q, first, rows, heads)| == rows * heads
    ensures forall i :: 0 <= i < rows ==>
      TokenHeads(ChunkOf(q, first, rows, heads), i, heads) == TokenHeads(q, first + i, heads)
  {
    MulMono(0, first, heads);
    MulMono(0, rows, heads);
    Distribute(first, rows, heads);
    MulMono(first + rows, n, heads);
    forall i | 0 <= i < rows
      ensures TokenHeads(ChunkOf(q, first, rows, heads), i, heads) == TokenHeads(q, first + i, heads)
    {
      TokenOfChunk(q, first, rows, heads, n, i);
    }
  }

  lemma TokenOfChunk(q: seq<Head>, first: nat, rows: nat, heads: nat, n: nat, i: nat)
    requires |q| == n * heads && first + rows <= n && i < rows
    requires 0 <= first * heads <= first * heads + rows * heads <= |q|
    ensures TokenHeads(ChunkOf(q, first, rows, heads), i, heads) == TokenHeads(q, first + i, heads)
  {
    MulMono(i + 1, rows, heads);
    Distribute(i, 1, heads);
    MulMono(0, i, heads);
    Distribute(first, i, heads);
    SliceOfSlice(q, ChunkOf(q, first, rows, heads), first * heads, i * heads, heads);
  }

  function Chunks(queries: seq<seq<Head>>, first: nat, rows: nat, heads: nat): (ms: seq<seq<Head>>)
    ensures |ms| == |queries| && forall r :: 0 <= r < |ms| ==> ms[r] == ChunkOf(queries[r], first, rows, heads)
  {
    seq(|queries|, r requires 0 <= r < |queries| => ChunkOf(queries[r], first, rows, heads))
  }

  /** Every rank's query has `n` tokens. */
  ghost predicate SameShape(g: Geometry, queries: seq<seq<Head>>, n: nat) {
    |queries| == g.ranks && forall r :: 0 <= r < |queries| ==> |queries[r]| == g.HeadsOf(n)
  }

  /**
   This rank's message: a slice of the tensor query, or of the workspace, where the
   two parts of a tuple query have been joined at the chunk's own rows.
   */
  method LocalChunk(g: Geometry, ws: array<Head>, query: Query, first: nat, rows: nat, n: nat)
    returns (local: seq<Head>)
    requires g.Valid() && query.Shaped(g.HeadsOf(n)) && first + rows <= n && g.RowStart(first + rows) <= ws.Length
    modifies ws
    ensures local == ChunkOf(query.Heads(), first, rows, g.heads)
    ensures SameOutside(old(ws[..]), ws[..], g.RowStart(first), g.RowStart(first + rows))
  {
    ChunkFits(query.Heads(), first, rows, g.heads, n);
    var from, len := first * g.heads, g.HeadsOf(rows);
    match query
    case Tensor(q) =>
      local := q[from..from + len];
    case Parts(nope, pe) =>
      StageFits(g, first, rows);
      var at := g.RowStart(first);
      var joined := Parts(nope[from..from + len], pe[from..from + len]).Heads();
      CopyInto(ws, at, joined);
      local := ws[at..at + len];
  }

  /** The staged chunk lies inside the rows that the chunk itself fills. */
  lemma StageFits(g: Geometry, first: nat, rows: nat)
    requires g.Valid()
    ensures 0 <= g.RowStart(first)
    ensures g.RowStart(first) + g.HeadsOf(rows) <= g.RowStart(first + rows)
  {
    MulMono(0, first, g.kernelHeads);
    Distribute(first, rows, g.kernelHeads);
    MulMono(1, g.ranks, g.heads);
    Commute(g.heads, g.kernelHeads, rows);
  }

  lemma Commute(a: nat, b: nat, rows: nat)
    requires a <= b
    ensures rows * a <= rows * b
  {
    MulMono(a, b, rows);
  }

  /** Token `t`'s row holds every rank's heads of that token. */
  ghost predicate Assembled(g: Geometry, ws: seq<Head>, queries: seq<seq<Head>>, t: nat) {
    |queries| == g.ranks
    && forall r :: 0 <= r < |queries| ==> Has(ws, g.Pos(t, r), TokenHeads(queries[r], t, g.heads))
  }

  lemma PlacedAssembles(g: Geometry, ws: seq<Head>, first: nat, rows: nat, queries: seq<seq<Head>>, n: nat, t: nat)
    requires g.Valid() && SameShape(g, queries, n) && first + rows <= n && first <= t < first + rows
    requires Placed(g, ws, first, rows, Chunks(queries, first, rows, g.heads), g.ranks, 0)
    ensures Assembled(g, ws, queries, t)
  {
    forall r | 0 <= r < g.ranks
      ensures Has(ws, g.Pos(t, r), TokenHeads(queries[r], t, g.heads))
    {
      ChunkFits(queries[r], first, rows, g.heads, n);
      assert Cell(g, ws, first, Chunks(queries, first, rows, g.heads), r, t - first);
    }
  }

  /** A chunk leaves every row outside it as it was. */
  lemma AssembledKept(g: Geometry, before: seq<Head>, after: seq<Head>, first: nat, rows: nat, queries: seq<seq<Head>>,
                      n: nat, t: nat)
    requires g.Valid() && SameShape(g, queries, n) && t < first && t < n && Assembled(g, before, queries, t)
    requires 0 <= g.RowStart(first)
    requires SameOutside(before, after, g.RowStart(first), g.RowStart(first + rows))
    ensures Assembled(g, after, queries, t)
  {
    forall r | 0 <= r < g.ranks
      ensures Has(after, g.Pos(t, r), TokenHeads(queries[r], t, g.heads))
    {
      PosInRow(g, t, r);
      MulMono(t + 1, first, g.kernelHeads);
      TokenFits(g, queries[r], n, t);
      HasKept(before, after, g.RowStart(first), g.RowStart(first + rows), g.Pos(t, r),
              TokenHeads(queries[r], t, g.heads));
    }
  }

  /**
   One iteration of the loop. `queries` are all ranks' queries: what the collective
   brings in from the other ranks; this rank's message is `query`'s, as staged.
   */
  method GatherChunk(g: Geometry, ws: array<Head>, scratch: array<Head>, query: Query, queries: seq<seq<Head>>, rank: nat,
                     first: nat, rows: nat, n: nat)
    requires ws != scratch && g.Valid() && SameShape(g, queries, n) && query.Shaped(g.HeadsOf(n))
    requires rank < g.ranks && queries[rank] == query.Heads()
    requires first + rows <= n && g.RowStart(first + rows) <= ws.Length && Region(g.ranks, g.HeadsOf(rows)) <= scratch.Length
    modifies ws, scratch
    ensures forall t :: first <= t < first + rows ==> Assembled(g, ws[..], queries, t)
    ensures SameOutside(old(ws[..]), ws[..], g.RowStart(first), g.RowStart(first + rows))
  {
    ghost var before := ws[..];
    var local := LocalChunk(g, ws, query, first, rows, n);
    ghost var staged := ws[..];
    var messages := Chunks(queries, first, rows, g.heads)[rank := local];
    assert messages == Chunks(queries, first, rows, g.heads);
    forall r | 0 <= r < g.ranks
      ensures |messages[r]| == g.HeadsOf(rows)
    {
      ChunkFits(queries[r], first, rows, g.heads, n);
    }
    AllGatherInto(scratch, messages, g.HeadsOf(rows));
    PlaceChunk(g, ws, scratch, first, rows, messages);
    SameTwice(before, staged, ws[..], g.RowStart(first), g.RowStart(first + rows));
    forall t | first <= t < first + rows
      ensures Assembled(g, ws[..], queries, t)
    {
      PlacedAssembles(g, ws[..], first, rows, queries, n, t);
    }
  }

  // ---- the loop ---------------------------------------------------------------------------------

  lemma CapacityHolds(g: Geometry, rows: nat, len: nat)
    requires g.Valid()
    ensures g.ranks * g.heads > 0
    ensures rows <= len / (g.ranks * g.heads) ==> Region(g.ranks, g.HeadsOf(rows)) <= len
  {
    MulMono(1, g.ranks, g.heads);
    var d := g.ranks * g.heads;
    Exchange(g.ranks, rows, g.heads);
    if rows <= len / d {
      MulMono(rows, len / d, d);
    }
  }

  /**
   For every token count and every scratch area: it fails, leaving the workspace as it
   was, exactly if the scratch area cannot hold one gathered row; otherwise it ends
   with every token's row assembled and the rows behind the tokens untouched.
   */
  method GatherQuery(g: Geometry, ws: array<Head>, scratch: array<Head>, query: Query, queries: seq<seq<Head>>, rank: nat,
                     n: nat)
    returns (ok: bool)
    requires ws != scratch && g.Valid() && SameShape(g, queries, n) && query.Shaped(g.HeadsOf(n))
    requires rank < g.ranks && queries[rank] == query.Heads() && g.RowStart(n) <= ws.Length
    modifies ws, scratch
    ensures g.ranks * g.heads > 0 && (ok <==> scratch.Length / (g.ranks * g.heads) > 0)
    ensures !ok ==> ws[..] == old(ws[..]) && scratch[..] == old(scratch[..])
    ensures ok ==> forall t :: 0 <= t < n ==> Assembled(g, ws[..], queries, t)
    ensures SameOutside(old(ws[..]), ws[..], 0, g.RowStart(n))
  {
    CapacityHolds(g, 0, scratch.Length);
    var capacity := scratch.Length / (g.ranks * g.heads);
    ok := capacity > 0;
    if !ok {
      return;
    }
    var first := 0;
    while first < n
      invariant 0 <= first <= n
      invariant forall t :: 0 <= t < first ==> Assembled(g, ws[..], queries, t)
      invariant SameOutside(old(ws[..]), ws[..], 0, g.RowStart(n))
    {
      var rows := Min(capacity, n - first);
      CapacityHolds(g, rows, scratch.Length);
      first := NextChunk(g, ws, scratch, query, queries, rank, first, rows, n);
    }
  }

  method NextChunk(g: Geometry, ws: array<Head>, scratch: array<Head>, query: Query, queries: seq<seq<Head>>, rank: nat,
                   first: nat, rows: nat, n: nat)
    returns (next: nat)
    requires ws != scratch && g.Valid() && SameShape(g, queries, n) && query.Shaped(g.HeadsOf(n))
    requires rank < g.ranks && queries[rank] == query.Heads() && g.RowStart(n) <= ws.Length
    requires first + rows <= n && Region(g.ranks, g.HeadsOf(rows)) <= scratch.Length
    requires forall t :: 0 <= t < first ==> Assembled(g, ws[..], queries, t)
    modifies ws, scratch
    ensures next == first + rows
    ensures forall t :: 0 <= t < next ==> Assembled(g, ws[..], queries, t)
    ensures SameOutside(old(ws[..]), ws[..], 0, g.RowStart(n))
  {
    ghost var before := ws[..];
    MulMono(first + rows, n, g.kernelHeads);
    MulMono(0, first, g.kernelHeads);
    GatherChunk(g, ws, scratch, query, queries, rank, first, rows, n);
    SameWider(before, ws[..], g.RowStart(first), g.RowStart(first + rows), 0, g.RowStart(n));
    forall t | 0 <= t < first
      ensures Assembled(g, ws[..], queries, t)
    {
      AssembledKept(g, before, ws[..], first, rows, queries, n, t);
    }
    next := first + rows;
  }

  // ---- the result as a whole ------------------------------------------------------------------

  /** Token `t`'s heads of all ranks, the unchunked all-gather along the head dimension. */
  function GlobalRow(queries: seq<seq<Head>>, t: nat, heads: nat): (row: seq<Head>) {
    if queries == [] then [] else GlobalRow(queries[..|queries| - 1], t, heads) + TokenHeads(queries[|queries| - 1], t, heads)
  }

  lemma {:induction false} RowPieces(g: Geometry, ws: seq<Head>, queries: seq<seq<Head>>, t: nat, n: nat)
    requires t < n && forall r :: 0 <= r < |queries| ==>
      |queries[r]| == g.HeadsOf(n) && Has(ws, g.Pos(t, r), TokenHeads(queries[r], t, g.heads))
    requires 0 <= g.RowStart(t) <= |ws|
    ensures |GlobalRow(queries, t, g.heads)| == |queries| * g.heads
    ensures Has(ws, g.RowStart(t), GlobalRow(queries, t, g.heads))
  {
    if queries != [] {
      var m := |queries| - 1;
      RowPieces(g, ws, queries[..m], t, n);
      TokenFits(g, queries[m], n, t);
      Distribute(m, 1, g.heads);
      HasConcat(ws, g.RowStart(t), GlobalRow(queries[..m], t, g.heads), TokenHeads(queries[m], t, g.heads));
    }
  }

  /** The returned view `q_workspace[:num_tokens, :ranks * heads]` is the all-gathered query. */
  lemma ViewIsAllGather(g: Geometry, ws: seq<Head>, queries: seq<seq<Head>>, n: nat, t: nat)
    requires g.Valid() && SameShape(g, queries, n) && t < n && Assembled(g, ws, queries, t)
    requires g.RowStart(n) <= |ws|
    ensures 0 <= g.RowStart(t) && g.RowStart(t) + g.ranks * g.heads <= |ws|
    ensures ws[g.RowStart(t)..g.RowStart(t) + g.ranks * g.heads] == GlobalRow(queries, t, g.heads)
  {
    MulMono(0, t, g.kernelHeads);
    MulMono(t, n, g.kernelHeads);
    RowPieces(g, ws, queries, t, n);
  }

  /** The same head by head: row `t`, head `r * heads + h` is head `h` of rank `r`'s token `t`. */
  lemma HeadInPlace(g: Geometry, ws: seq<Head>, queries: seq<seq<Head>>, n: nat, t: nat, r: nat, h: nat)
    requires g.Valid() && SameShape(g, queries, n) && t < n && Assembled(g, ws, queries, t) && r < g.ranks && h < g.heads
    ensures 0 <= t * g.heads + h < |queries[r]| && 0 <= t * g.kernelHeads + r * g.heads + h < |ws|
    ensures ws[t * g.kernelHeads + r * g.heads + h] == queries[r][t * g.heads + h]
  {
    TokenFits(g, queries[r], n, t);
    MulMono(0, t, g.kernelHeads);
    MulMono(0, r, g.heads);
    var piece, at := TokenHeads(queries[r], t, g.heads), g.Pos(t, r);
    assert Has(ws, at, piece);
    assert ws[at..at + |piece|][h] == piece[h] == queries[r][t * g.heads..t * g.heads + g.heads][h];
  }

  /** What a call finds: the parallel sizes, the mode, and the query's and the group's own numbers. */
  datatype Setting = Setting(tp: nat, nonDbo: bool, capturing: bool, queryHeads: nat, sameDevice: bool,
                             groupRanks: nat, groupRank: nat)

  datatype Outcome = Gathered | Unsupported | Capturing | QueryMismatch | GroupMismatch | ScratchTooSmall

  /** The query and all ranks' queries, when the query's heads are the plan's. */
  ghost predicate Matching(g: Geometry, query: Query, queries: seq<seq<Head>>, rank: nat, n: nat) {
    SameShape(g, queries, n) && query.Shaped(g.HeadsOf(n)) && rank < g.ranks && queries[rank] == query.Heads()
  }

  /** The whole routine, with its refusals; a refused call changes nothing. */
  method AllGatherQueryInWorkspace(g: Geometry, s: Setting, ws: array<Head>, scratch: array<Head>, query: Query,
                                   queries: seq<seq<Head>>, rank: nat, n: nat)
    returns (outcome: Outcome)
    requires ws != scratch && ws.Length == g.maxBatched * g.kernelHeads
    requires s.queryHeads == g.heads ==> Matching(g, query, queries, rank, n)
    modifies ws, scratch
    ensures outcome.Unsupported? <==>
      !(1025 <= n <= g.maxBatched && s.nonDbo
        && (s.tp, g.ranks) in {(4, 4), (6, 2), (6, 3), (6, 6), (8, 2), (8, 4), (8, 8)}
        && g.heads > 0 && g.ranks * g.heads <= g.kernelHeads && g.kernelHeads % 8 == 0)
    ensures outcome.Capturing? <==> !outcome.Unsupported? && s.capturing
    ensures outcome.QueryMismatch? <==>
      !outcome.Unsupported? && !s.capturing && (s.queryHeads != g.heads || !s.sameDevice)
    ensures outcome.GroupMismatch? <==>
      && !outcome.Unsupported? && !s.capturing && s.queryHeads == g.heads && s.sameDevice
      && (s.groupRanks != g.ranks || s.groupRank != rank)
    ensures outcome.ScratchTooSmall? <==>
      && !outcome.Unsupported? && !s.capturing && s.queryHeads == g.heads && s.sameDevice
      && s.groupRanks == g.ranks && s.groupRank == rank && scratch.Length < g.ranks * g.heads
    ensures outcome.Gathered? <==>
      && 1025 <= n <= g.maxBatched && s.nonDbo
      && (s.tp, g.ranks) in {(4, 4), (6, 2), (6, 3), (6, 6), (8, 2), (8, 4), (8, 8)}
      && g.heads > 0 && g.ranks * g.heads <= g.kernelHeads && g.kernelHeads % 8 == 0
      && !s.capturing && s.queryHeads == g.heads && s.sameDevice && s.groupRanks == g.ranks && s.groupRank == rank
      && scratch.Length >= g.ranks * g.heads
    ensures !outcome.Gathered? ==> ws[..] == old(ws[..]) && scratch[..] == old(scratch[..])
    ensures outcome.Gathered? ==> forall t :: 0 <= t < n ==> Assembled(g, ws[..], queries, t)
    ensures outcome.Gathered? ==> SameOutside(old(ws[..]), ws[..], 0, g.RowStart(n))
  {
    if !Supported(g, s.tp, n) || !s.nonDbo {
      return Unsupported;
    }
    if s.capturing {
      return Capturing;
    }
    if s.queryHeads != g.heads || !s.sameDevice {
      return QueryMismatch;
    }
    if s.groupRanks != g.ranks || s.groupRank != rank {
      return GroupMismatch;
    }
    MulMono(n, g.maxBatched, g.kernelHeads);
    var ok := GatherQuery(g, ws, scratch, query, queries, rank, n);
    CapacityHolds(g, 1, scratch.Length);
    CapacityPositive(g.ranks * g.heads, scratch.Length);
    outcome := if ok then Gathered else ScratchTooSmall;
  }

  lemma CapacityPositive(d: nat, len: nat)
    requires d > 0
    ensures len / d > 0 <==> len >= d
  {
    if len >= d {
      NotAbove(d, 1, len / d);
    }
  }
}
