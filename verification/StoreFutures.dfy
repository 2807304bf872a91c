/**
 The LMCache worker adapter's book of transfers: per request a list of store futures
 with the CUDA IPC events that must outlive them, and one retrieve future with its
 event.
 */
module StoreFutures {
  import opened Seqs

  /** Identities of the future and event objects. */
  type Future = nat
  type Event = nat
  type Request = string

  type FutureLists = map<Request, seq<Future>>
  type EventLists = map<Request, seq<Event>>

  // ---- polling one request ------------------------------------------------------------

  /** The futures of a list that answer `query()` with false in this poll. */
  function Pending(fs: seq<Future>, seen: set<Future>): (p: seq<Future>)
    ensures forall f :: f in p <==> f in fs && f !in seen
  {
    if fs == [] then []
    else
      var last := fs[|fs| - 1];
      Pending(fs[..|fs| - 1], seen) + (if last in seen then [] else [last])
  }

  function PendingEvents(fs: seq<Future>, es: seq<Event>, seen: set<Future>): (p: seq<Event>)
    requires |es| == |fs|
    ensures |p| == |Pending(fs, seen)|
  {
    if fs == [] then []
    else
      var n := |fs| - 1;
      PendingEvents(fs[..n], es[..n], seen) + (if fs[n] in seen then [] else [es[n]])
  }

  /** The futures whose result is taken, in order. */
  function Consumed(fs: seq<Future>, seen: set<Future>): (c: seq<Future>)
    ensures forall f :: f in c <==> f in fs && f in seen
  {
    if fs == [] then []
    else
      var last := fs[|fs| - 1];
      Consumed(fs[..|fs| - 1], seen) + (if last in seen then [last] else [])
  }

  /** Filtering both lists keeps every future beside its own event. */
  lemma {:induction false} PendingPairs(fs: seq<Future>, es: seq<Event>, seen: set<Future>, i: nat) returns (j: nat)
    requires |es| == |fs| && i < |Pending(fs, seen)|
    ensures j < |fs| && fs[j] !in seen
    ensures Pending(fs, seen)[i] == fs[j] && PendingEvents(fs, es, seen)[i] == es[j]
  {
    var n := |fs| - 1;
    if i < |Pending(fs[..n], seen)| {
      j := PendingPairs(fs[..n], es[..n], seen, i);
    } else {
      j := n;
    }
  }

  /** And it keeps the order of submission. */
  lemma {:induction false} PendingOrder(fs: seq<Future>, seen: set<Future>, a: nat, b: nat) returns (i: nat, j: nat)
    requires a < b < |Pending(fs, seen)|
    ensures i < j < |fs| && Pending(fs, seen)[a] == fs[i] && Pending(fs, seen)[b] == fs[j]
  {
    var n := |fs| - 1;
    if b < |Pending(fs[..n], seen)| {
      i, j := PendingOrder(fs[..n], seen, a, b);
    } else {
      i := PendingPairs(fs[..n], fs[..n], seen, a);
      j := n;
    }
  }

  /** Nothing is lost or doubled: a list splits into what is consumed and what stays. */
  lemma {:induction false} Splits(fs: seq<Future>, seen: set<Future>)
    ensures multiset(Consumed(fs, seen)) + multiset(Pending(fs, seen)) == multiset(fs)
  {
    if fs != [] {
      var init, last := fs[..|fs| - 1], fs[|fs| - 1];
      Splits(init, seen);
      assert fs == init + [last];
      assert multiset(fs) == multiset(init) + multiset{last};
    }
  }

  // ---- polling all requests --------------------------------------------------------------

  function Get<V>(m: map<Request, seq<V>>, r: Request): seq<V> { if r in m then m[r] else [] }

  /** `setdefault(r, [])` */
  function SetDefault<V>(m: map<Request, seq<V>>, r: Request): (m': map<Request, seq<V>>)
    ensures m' == m[r := Get(m, r)]
  {
    if r in m then m else m[r := []]
  }

  ghost predicate Aligned(futures: FutureLists, events: EventLists) {
    forall r :: r in futures ==> |Get(events, r)| == |futures[r]|
  }

  /** The future lists after the requests of `polled` have been polled. */
  function FuturesAfter(futures: FutureLists, polled: set<Request>, seen: set<Future>): FutureLists {
    map r | r in futures && (r in polled ==> Pending(futures[r], seen) != []) ::
      if r in polled then Pending(futures[r], seen) else futures[r]
  }

  /** The events still held for a list whose futures and events have equal lengths. */
  function Held(fs: seq<Future>, es: seq<Event>, seen: set<Future>): seq<Event> {
    if |es| == |fs| then PendingEvents(fs, es, seen) else es
  }

  function EventsAfter(futures: FutureLists, events: EventLists, polled: set<Request>, seen: set<Future>): EventLists {
    map r | r in events && (r in polled ==> Held(Get(futures, r), events[r], seen) != []) ::
      if r in polled then Held(Get(futures, r), events[r], seen) else events[r]
  }

  function Drained(futures: FutureLists, polled: set<Request>, seen: set<Future>): set<Request> {
    set r | r in futures && r in polled && Pending(futures[r], seen) == []
  }

  function Taken(futures: FutureLists, polled: set<Request>, seen: set<Future>): map<Request, seq<Future>> {
    map r | r in futures && r in polled :: Consumed(futures[r], seen)
  }

  /** Polling one more request replaces its list by what is pending, or drops an empty one. */
  function Replace<V>(m: map<Request, seq<V>>, r: Request, list: seq<V>): map<Request, seq<V>> {
    if list != [] then m[r := list] else m - {r}
  }

  lemma PollFutures(futures: FutureLists, polled: set<Request>, seen: set<Future>, r: Request)
    requires r in futures && r !in polled
    ensures FuturesAfter(futures, polled + {r}, seen)
         == Replace(FuturesAfter(futures, polled, seen), r, Pending(futures[r], seen))
  {
  }

  lemma PollEvents(futures: FutureLists, events: EventLists, polled: set<Request>, seen: set<Future>, r: Request)
    requires r in futures && r !in polled && |Get(events, r)| == |futures[r]|
    ensures Get(EventsAfter(futures, events, polled, seen), r) == Get(events, r)
    ensures EventsAfter(futures, events, polled + {r}, seen)
         == Replace(EventsAfter(futures, events, polled, seen), r, PendingEvents(futures[r], Get(events, r), seen))
  {
    assert r !in events ==> futures[r] == [];
  }

  lemma PollReport(futures: FutureLists, polled: set<Request>, seen: set<Future>, r: Request)
    requires r in futures && r !in polled
    ensures Drained(futures, polled + {r}, seen)
         == Drained(futures, polled, seen) + (if Pending(futures[r], seen) == [] then {r} else {})
    ensures Taken(futures, polled + {r}, seen) == Taken(futures, polled, seen)[r := Consumed(futures[r], seen)]
  {
  }

  /** The adapter's transfer fields. */
  class WorkerAdapter {
    var storeFutures: FutureLists
    var storeEvents: EventLists
    var retrieveFutures: map<Request, (Future, seq<nat>)>
    var retrieveEvents: map<Request, Event>
    var finishedStores: set<Request>

    /** Every retrieve future has its event, and no event outlives its future. */
    ghost predicate RetrievesInStep()
      reads this
    {
      retrieveFutures.Keys == retrieveEvents.Keys
    }

    /** The store book of the adapter is the one of `w`. */
    ghost predicate Shows(w: World)
      reads this
    {
      storeFutures == w.futures && storeEvents == w.events
    }

    /** The retrieve book of the adapter is the one of `w`. */
    ghost predicate ShowsRetrieves(w: Retrieves)
      reads this
    {
      retrieveFutures.Keys == w.futures.Keys && retrieveEvents == w.events
      && forall r :: r in w.futures ==> retrieveFutures[r].0 == w.futures[r]
    }

    constructor ()
      ensures ShowsRetrieves(NO_RETRIEVES)
      ensures Shows(START) && RetrievesInStep()
      ensures storeFutures == map[] && storeEvents == map[] && finishedStores == {}
      ensures retrieveFutures == map[] && retrieveEvents == map[]
    {
      storeFutures, storeEvents, finishedStores := map[], map[], {};
      retrieveFutures, retrieveEvents := map[], map[];
    }

    /** One store of a chunked prefill: nothing in flight is overwritten. */
    method SubmitStore(r: Request, future: Future, event: Event)
      modifies this
      ensures finishedStores == old(finishedStores) - {r}
      ensures storeFutures == old(storeFutures)[r := Get(old(storeFutures), r) + [future]]
      ensures storeEvents == old(storeEvents)[r := Get(old(storeEvents), r) + [event]]
      ensures retrieveFutures == old(retrieveFutures) && retrieveEvents == old(retrieveEvents)
      ensures forall w: World :: old(Shows(w)) ==> Shows(Next(w, Step.Submit(r, future, event)))
    {
      finishedStores := finishedStores - {r};
      storeFutures := SetDefault(storeFutures, r);
      storeFutures := storeFutures[r := storeFutures[r] + [future]];
      storeEvents := SetDefault(storeEvents, r);
      storeEvents := storeEvents[r := storeEvents[r] + [event]];
    }

    /** The inner loop: which futures and events of one request stay. `seen` answers the queries. */
    method PollRequest(fs: seq<Future>, es: seq<Event>, seen: set<Future>)
      returns (pendingFutures: seq<Future>, pendingEvents: seq<Event>, taken: seq<Future>)
      requires |es| == |fs|
      ensures pendingFutures == Pending(fs, seen) && pendingEvents == PendingEvents(fs, es, seen)
      ensures taken == Consumed(fs, seen)
    {
      pendingFutures, pendingEvents, taken := [], [], [];
      for i := 0 to |fs|
        invariant pendingFutures == Pending(fs[..i], seen) && pendingEvents == PendingEvents(fs[..i], es[..i], seen)
        invariant taken == Consumed(fs[..i], seen)
      {
        assert fs[..i + 1][..i] == fs[..i] && es[..i + 1][..i] == es[..i];
        if fs[i] !in seen {
          pendingFutures, pendingEvents := pendingFutures + [fs[i]], pendingEvents + [es[i]];
        } else {
          taken := taken + [fs[i]];
        }
      }
      assert fs[..|fs|] == fs && es[..|fs|] == es;
    }

    /**
     `_poll_store_futures`. `taken[r]` are the futures of `r` whose result was taken.
     With aligned lists the mismatch error is not raised.
     */
    method PollStoreFutures(seen: set<Future>)
      returns (finished: set<Request>, taken: map<Request, seq<Future>>, ok: bool)
      modifies this`storeFutures, this`storeEvents
      ensures ok <==> Aligned(old(storeFutures), old(storeEvents))
      ensures ok ==> storeFutures == FuturesAfter(old(storeFutures), old(storeFutures).Keys, seen)
      ensures ok ==> storeEvents == EventsAfter(old(storeFutures), old(storeEvents), old(storeFutures).Keys, seen)
      ensures ok ==> finished == Drained(old(storeFutures), old(storeFutures).Keys, seen)
      ensures ok ==> taken == Taken(old(storeFutures), old(storeFutures).Keys, seen)
      ensures ok ==> forall w: World, after: set<Future> :: old(Shows(w)) ==> Shows(Next(w, Step.Poll(seen, after)))
    {
      var futures, events := storeFutures, storeEvents;
      var todo := futures.Keys;
      ghost var polled: set<Request> := {};
      finished, taken := {}, map[];
      while todo != {}
        invariant todo !! polled && todo + polled == futures.Keys
        invariant forall r :: r in polled ==> |Get(events, r)| == |futures[r]|
        invariant storeFutures == FuturesAfter(futures, polled, seen)
        invariant storeEvents == EventsAfter(futures, events, polled, seen)
        invariant finished == Drained(futures, polled, seen) && taken == Taken(futures, polled, seen)
      {
        var r :| r in todo;
        var fs, es := futures[r], Get(storeEvents, r);
        assert es == Get(events, r);
        if |fs| != |es| {
          return finished, taken, false;
        }
        PollFutures(futures, polled, seen, r);
        PollEvents(futures, events, polled, seen, r);
        PollReport(futures, polled, seen, r);
        var pf, pe, consumed := PollRequest(fs, es, seen);
        taken := taken[r := consumed];
        if pf != [] {
          storeFutures, storeEvents := storeFutures[r := pf], storeEvents[r := pe];
        } else {
          storeFutures, storeEvents := storeFutures - {r}, storeEvents - {r};
          finished := finished + {r};
        }
        todo, polled := todo - {r}, polled + {r};
      }
      ok := true;
    }
  
    /** A retrieve has one future and one event per request; a second one replaces both. */
    method SubmitRetrieve(r: Request, future: Future, blocks: seq<nat>, event: Event)
      modifies this`retrieveFutures, this`retrieveEvents
      ensures retrieveFutures == old(retrieveFutures)[r := (future, blocks)]
      ensures retrieveEvents == old(retrieveEvents)[r := event]
      ensures old(RetrievesInStep()) ==> RetrievesInStep()
      ensures forall w: Retrieves :: old(ShowsRetrieves(w)) ==> ShowsRetrieves(RetrieveNext(w, Retrieve(r, future, event)))
    {
      retrieveFutures := retrieveFutures[r := (future, blocks)];
      retrieveEvents := retrieveEvents[r := event];
    }

    /** The retrieve half of processing finished transfers: collect, then remove from both maps. */
    method PollRetrieves(seen: set<Future>) returns (finished: set<Request>)
      modifies this`retrieveFutures, this`retrieveEvents
      ensures finished == set r | r in old(retrieveFutures) && old(retrieveFutures)[r].0 in seen
      ensures retrieveFutures == old(retrieveFutures) - finished && retrieveEvents == old(retrieveEvents) - finished
      ensures old(RetrievesInStep()) ==> RetrievesInStep()
      ensures forall w: Retrieves, after: set<Future> ::
        old(ShowsRetrieves(w)) ==> ShowsRetrieves(RetrieveNext(w, PollAll(seen, after)))
    {
      finished := {};
      var todo := retrieveFutures.Keys;
      while todo != {}
        invariant todo <= retrieveFutures.Keys
        invariant finished == set r | r in retrieveFutures && r !in todo && retrieveFutures[r].0 in seen
      {
        var r :| r in todo;
        if retrieveFutures[r].0 in seen {
          finished := finished + {r};
        }
        todo := todo - {r};
      }
      ghost var before, beforeEvents := retrieveFutures, retrieveEvents;
      todo := finished;
      while todo != {}
        invariant todo <= finished
        invariant retrieveFutures == before - (finished - todo) && retrieveEvents == beforeEvents - (finished - todo)
      {
        var r :| r in todo;
        retrieveFutures, retrieveEvents := retrieveFutures - {r}, retrieveEvents - {r};
        todo := todo - {r};
        assert finished - todo == (finished - (todo + {r})) + {r};
      }
      assert finished - todo == finished;
      forall w: Retrieves | old(ShowsRetrieves(w))
        ensures finished == Finished(w.futures, seen)
      {
      }
    }

    /** The clear path drops all transfers and their events. */
    method Clear()
      modifies this
      ensures storeFutures == map[] && storeEvents == map[] && retrieveFutures == map[] && retrieveEvents == map[]
      ensures finishedStores == old(finishedStores) && RetrievesInStep()
      ensures forall w: World :: old(Shows(w)) ==> Shows(Next(w, Step.Clear))
    {
      storeFutures, retrieveFutures := map[], map[];
      storeEvents, retrieveEvents := map[], map[];
    }
  }

  // ---- runs ---------------------------------------------------------------------------------

  /**
   The store book with its surroundings: what was ever submitted, which transfers are
   done, whose results have been taken, and what the clear path dropped.
   */
  datatype World = World(futures: FutureLists, events: EventLists, submitted: map<Future, (Request, Event)>,
                         done: set<Future>, taken: set<Future>, dropped: set<Future>)

  const START: World := World(map[], map[], map[], {}, {}, {})

  /**
   Transfers complete at any time, also while a poll is under way: its queries may
   answer true for everything that is done when it ends, and do so for everything that
   was done when it began.
   */
  datatype Step =
    | Submit(r: Request, future: Future, event: Event)
    | Complete(future: Future)
    | Poll(seen: set<Future>, doneAfter: set<Future>)
    | Clear

  function Listed(futures: FutureLists): set<Future> { set r, f | r in futures && f in futures[r] :: f }

  function TakenNow(w: World, seen: set<Future>): set<Future> {
    set r, f | r in w.futures && f in Consumed(w.futures[r], seen) :: f
  }

  ghost predicate Enabled(w: World, s: Step) {
    match s
    case Submit(_, f, _) => f !in w.submitted
    case Complete(f) => f in w.submitted
    case Poll(seen, after) => w.done <= after <= w.submitted.Keys && w.done <= seen <= after
    case Clear => true
  }

  function Next(w: World, s: Step): World {
    match s
    case Submit(r, f, e) =>
      w.(futures := w.futures[r := Get(w.futures, r) + [f]], events := w.events[r := Get(w.events, r) + [e]],
         submitted := w.submitted[f := (r, e)])
    case Complete(f) => w.(done := w.done + {f})
    case Poll(seen, after) =>
      w.(futures := FuturesAfter(w.futures, w.futures.Keys, seen),
         events := EventsAfter(w.futures, w.events, w.futures.Keys, seen),
         done := after, taken := w.taken + TakenNow(w, seen))
    case Clear => w.(futures := map[], events := map[], dropped := w.dropped + Listed(w.futures))
  }

  ghost predicate Reachable(run: seq<World>, steps: seq<Step>) {
    |run| == |steps| + 1 && run[0] == START
    && forall i :: 0 <= i < |steps| ==> Enabled(run[i], steps[i]) && run[i + 1] == Next(run[i], steps[i])
  }

  /** One request's lists: aligned, pairing every future with the event it was submitted with. */
  ghost predicate Paired(w: World, r: Request) {
    r in w.futures && r in w.events
    && |w.events[r]| == |w.futures[r]| > 0 && Distinct(w.futures[r])
    && forall i :: 0 <= i < |w.futures[r]| ==>
         w.futures[r][i] in w.submitted && w.submitted[w.futures[r][i]] == (r, w.events[r][i])
  }

  /** A submitted future is in its request's list until it is taken or dropped, and only until then. */
  ghost predicate Tracked(w: World, f: Future) {
    f in w.submitted
    && (f in Get(w.futures, w.submitted[f].0) <==> f !in w.taken && f !in w.dropped)
    && !(f in w.taken && f in w.dropped)
  }

  ghost predicate Inv(w: World) {
    && w.futures.Keys == w.events.Keys
    && (forall r :: r in w.futures ==> Paired(w, r))
    && (forall f :: f in w.submitted ==> Tracked(w, f))
    && w.taken <= w.done <= w.submitted.Keys && w.dropped <= w.submitted.Keys
  }

  lemma SubmitKeeps(w: World, r: Request, f: Future, e: Event)
    requires Inv(w) && f !in w.submitted
    ensures Inv(Next(w, Submit(r, f, e)))
  {
    var w' := Next(w, Submit(r, f, e));
    forall q | q in w'.futures
      ensures Paired(w', q)
    {
      assert q in w.futures ==> Paired(w, q);
      assert f !in Get(w.futures, q);
    }
    forall g | g in w'.submitted
      ensures Tracked(w', g)
    {
      assert g in w.submitted ==> Tracked(w, g);
    }
  }

  lemma {:induction false} PendingDistinct(fs: seq<Future>, seen: set<Future>)
    requires Distinct(fs)
    ensures Distinct(Pending(fs, seen))
  {
    if fs != [] {
      PendingDistinct(fs[..|fs| - 1], seen);
    }
  }

  lemma PollPairs(w: World, seen: set<Future>, after: set<Future>, r: Request)
    requires Inv(w) && r in Next(w, Poll(seen, after)).futures
    ensures Paired(Next(w, Poll(seen, after)), r)
  {
    assert Paired(w, r);
    var fs, es := w.futures[r], w.events[r];
    PendingDistinct(fs, seen);
    forall i | 0 <= i < |Pending(fs, seen)|
      ensures Pending(fs, seen)[i] in w.submitted
      ensures w.submitted[Pending(fs, seen)[i]] == (r, PendingEvents(fs, es, seen)[i])
    {
      var j := PendingPairs(fs, es, seen, i);
    }
  }

  lemma StillListed(futures: FutureLists, seen: set<Future>, r: Request, f: Future)
    ensures f in Get(FuturesAfter(futures, futures.Keys, seen), r) <==> f in Get(futures, r) && f !in seen
  {
  }

  lemma TakenIff(w: World, seen: set<Future>, f: Future)
    requires Inv(w) && f in w.submitted
    ensures f in TakenNow(w, seen) <==> f in Get(w.futures, w.submitted[f].0) && f in seen
  {
    var r := w.submitted[f].0;
    if f in Get(w.futures, r) && f in seen {
      assert r in w.futures && f in Consumed(w.futures[r], seen);
    }
    if f in TakenNow(w, seen) {
      var q :| q in w.futures && f in Consumed(w.futures[q], seen);
      assert Paired(w, q);
    }
  }

  lemma PollTracks(w: World, seen: set<Future>, after: set<Future>, f: Future)
    requires Inv(w) && Enabled(w, Poll(seen, after)) && f in w.submitted
    ensures Tracked(Next(w, Poll(seen, after)), f)
  {
    assert Tracked(w, f);
    StillListed(w.futures, seen, w.submitted[f].0, f);
    TakenIff(w, seen, f);
  }

  lemma PollKeys(w: World, seen: set<Future>)
    requires Inv(w)
    ensures FuturesAfter(w.futures, w.futures.Keys, seen).Keys
         == EventsAfter(w.futures, w.events, w.futures.Keys, seen).Keys
  {
    forall r | r in w.futures
      ensures Pending(w.futures[r], seen) != [] <==> Held(w.futures[r], w.events[r], seen) != []
    {
      assert Paired(w, r);
    }
  }

  lemma PollKeeps(w: World, seen: set<Future>, after: set<Future>)
    requires Inv(w) && Enabled(w, Poll(seen, after))
    ensures Inv(Next(w, Poll(seen, after)))
    ensures TakenNow(w, seen) !! w.taken && TakenNow(w, seen) <= after
  {
    var w' := Next(w, Poll(seen, after));
    PollKeys(w, seen);
    forall r | r in w'.futures
      ensures Paired(w', r)
    {
      PollPairs(w, seen, after, r);
    }
    forall f | f in w'.submitted
      ensures Tracked(w', f)
    {
      PollTracks(w, seen, after, f);
    }
    forall f | f in TakenNow(w, seen)
      ensures f !in w.taken && f in after
    {
      var r :| r in w.futures && f in Consumed(w.futures[r], seen);
      assert Paired(w, r);
      assert Tracked(w, f);
    }
  }

  lemma ClearKeeps(w: World)
    requires Inv(w)
    ensures Inv(Next(w, Clear))
  {
    var w' := Next(w, Clear);
    forall f | f in Listed(w.futures)
      ensures f in w.submitted && f in Get(w.futures, w.submitted[f].0)
    {
      var r :| r in w.futures && f in w.futures[r];
      assert Paired(w, r);
    }
    forall f | f in w'.submitted
      ensures Tracked(w', f)
    {
      assert Tracked(w, f);
    }
  }

  lemma CompleteKeeps(w: World, f: Future)
    requires Inv(w) && f in w.submitted
    ensures Inv(Next(w, Complete(f)))
  {
    var w' := Next(w, Complete(f));
    forall r | r in w'.futures
      ensures Paired(w', r)
    {
      assert Paired(w, r);
    }
    forall g | g in w'.submitted
      ensures Tracked(w', g)
    {
      assert Tracked(w, g);
    }
  }

  /** The invariant holds in every state of every run. */
  lemma {:induction false} ReachableInv(run: seq<World>, steps: seq<Step>, i: nat)
    requires Reachable(run, steps) && i < |run|
    ensures Inv(run[i])
  {
    if i > 0 {
      ReachableInv(run, steps, i - 1);
      match steps[i - 1] {
        case Submit(r, f, e) => SubmitKeeps(run[i - 1], r, f, e);
        case Complete(f) => CompleteKeeps(run[i - 1], f);
        case Poll(seen, after) => PollKeeps(run[i - 1], seen, after);
        case Clear => ClearKeeps(run[i - 1]);
      }
    }
  }

  /** The mismatch error of the poll is unreachable. */
  lemma MismatchUnreachable(run: seq<World>, steps: seq<Step>, i: nat)
    requires Reachable(run, steps) && i < |run|
    ensures Aligned(run[i].futures, run[i].events)
  {
    ReachableInv(run, steps, i);
    forall r | r in run[i].futures
      ensures |Get(run[i].events, r)| == |run[i].futures[r]|
    {
      assert Paired(run[i], r);
    }
  }

  /** The adapter holds a future's own event, beside the future. */
  ghost predicate HoldsEvent(w: World, f: Future, r: Request, e: Event) {
    r in w.futures && r in w.events
    && exists k :: 0 <= k < |w.futures[r]| && k < |w.events[r]| && w.futures[r][k] == f && w.events[r][k] == e
  }

  /**
   An event is held exactly while its future is unconsumed (and was not dropped by
   the clear path).
   */
  lemma EventLifetime(run: seq<World>, steps: seq<Step>, i: nat, f: Future)
    requires Reachable(run, steps) && i < |run| && f in run[i].submitted
    ensures var (r, e) := run[i].submitted[f];
      HoldsEvent(run[i], f, r, e) <==> f !in run[i].taken && f !in run[i].dropped
  {
    var w := run[i];
    var r, e := w.submitted[f].0, w.submitted[f].1;
    ReachableInv(run, steps, i);
    assert Tracked(w, f);
    if f in Get(w.futures, r) {
      assert Paired(w, r);
      var k :| 0 <= k < |w.futures[r]| && w.futures[r][k] == f;
      assert w.submitted[f] == (r, w.events[r][k]);
    }
  }

  /** No result is taken twice, and none before its transfer is done. */
  lemma TakenOnce(run: seq<World>, steps: seq<Step>, i: nat)
    requires Reachable(run, steps) && i < |steps| && steps[i].Poll?
    ensures TakenNow(run[i], steps[i].seen) !! run[i].taken
    ensures run[i + 1].taken == run[i].taken + TakenNow(run[i], steps[i].seen)
    ensures TakenNow(run[i], steps[i].seen) <= steps[i].doneAfter
    ensures forall r :: r in run[i].futures ==> Distinct(Consumed(run[i].futures[r], steps[i].seen))
  {
    ReachableInv(run, steps, i);
    PollKeeps(run[i], steps[i].seen, steps[i].doneAfter);
    forall r | r in run[i].futures
      ensures Distinct(Consumed(run[i].futures[r], steps[i].seen))
    {
      assert Paired(run[i], r);
      ConsumedDistinct(run[i].futures[r], steps[i].seen);
    }
  }

  lemma {:induction false} ConsumedDistinct(fs: seq<Future>, seen: set<Future>)
    requires Distinct(fs)
    ensures Distinct(Consumed(fs, seen))
  {
    if fs != [] {
      ConsumedDistinct(fs[..|fs| - 1], seen);
    }
  }

  lemma {:induction false} NothingPending(fs: seq<Future>, seen: set<Future>)
    requires forall f :: f in fs ==> f in seen
    ensures Pending(fs, seen) == []
  {
    if fs != [] {
      NothingPending(fs[..|fs| - 1], seen);
    }
  }

  /** What a poll reports: the requests it drained. */
  function Report(w: World, seen: set<Future>): set<Request> { Drained(w.futures, w.futures.Keys, seen) }

  /**
   A poll reports a request if and only if the request had transfers outstanding and
   has none after the poll; then every store ever submitted for it is taken or
   dropped. If all its transfers were done when the poll began, it is reported.
   */
  lemma ReportedIffDrained(run: seq<World>, steps: seq<Step>, i: nat, r: Request)
    requires Reachable(run, steps) && i < |steps| && steps[i].Poll?
    ensures r in Report(run[i], steps[i].seen) <==> r in run[i].futures && r !in run[i + 1].futures
    ensures r in Report(run[i], steps[i].seen) ==>
      forall f :: f in run[i].submitted && run[i].submitted[f].0 == r ==>
        f in run[i + 1].taken || f in run[i + 1].dropped
    ensures r in run[i].futures && (forall f :: f in run[i].futures[r] ==> f in run[i].done) ==>
      r in Report(run[i], steps[i].seen)
  {
    ReachableInv(run, steps, i);
    ReachableInv(run, steps, i + 1);
    if r in Report(run[i], steps[i].seen) {
      forall f | f in run[i].submitted && run[i].submitted[f].0 == r
        ensures f in run[i + 1].taken || f in run[i + 1].dropped
      {
        assert Tracked(run[i + 1], f);
      }
    }
    if r in run[i].futures && forall f :: f in run[i].futures[r] ==> f in run[i].done {
      NothingPending(run[i].futures[r], steps[i].seen);
    }
  }

  // ---- runs of the retrieve side -----------------------------------------------------------

  /** The retrieve book: one future and one event per request, and all futures ever submitted. */
  datatype Retrieves = Retrieves(futures: map<Request, Future>, events: map<Request, Event>, submitted: set<Future>,
                                 done: set<Future>)

  const NO_RETRIEVES: Retrieves := Retrieves(map[], map[], {}, {})

  datatype RetrieveStep =
    | Retrieve(r: Request, future: Future, event: Event)
    | Arrive(future: Future)
    | PollAll(seen: set<Future>, doneAfter: set<Future>)
    | Drop

  ghost predicate RetrieveEnabled(w: Retrieves, s: RetrieveStep) {
    match s
    case Retrieve(_, f, _) => f !in w.submitted
    case Arrive(f) => f in w.submitted
    case PollAll(seen, after) => w.done <= after <= w.submitted && w.done <= seen <= after
    case Drop => true
  }

  function Finished(futures: map<Request, Future>, seen: set<Future>): set<Request> {
    set r | r in futures && futures[r] in seen
  }

  function RetrieveNext(w: Retrieves, s: RetrieveStep): Retrieves {
    match s
    case Retrieve(r, f, e) =>
      w.(futures := w.futures[r := f], events := w.events[r := e], submitted := w.submitted + {f})
    case Arrive(f) => w.(done := w.done + {f})
    case PollAll(seen, after) =>
      w.(futures := w.futures - Finished(w.futures, seen), events := w.events - Finished(w.futures, seen), done := after)
    case Drop => w.(futures := map[], events := map[])
  }

  ghost predicate RetrieveRun(run: seq<Retrieves>, steps: seq<RetrieveStep>) {
    |run| == |steps| + 1 && run[0] == NO_RETRIEVES
    && forall i :: 0 <= i < |steps| ==> RetrieveEnabled(run[i], steps[i]) && run[i + 1] == RetrieveNext(run[i], steps[i])
  }

  /** The request's entry holds this future and this event. */
  predicate HoldsRetrieve(w: Retrieves, r: Request, f: Future, e: Event) {
    r in w.futures && w.futures[r] == f && r in w.events && w.events[r] == e
  }

  /** The step takes the future's result. */
  predicate Takes(w: Retrieves, s: RetrieveStep, r: Request, f: Future) {
    s.PollAll? && r in w.futures && w.futures[r] == f && f in s.seen
  }

  predicate Resubmits(s: RetrieveStep, r: Request) { s.Retrieve? && s.r == r }

  lemma {:induction false} RetrieveSubmitted(run: seq<Retrieves>, steps: seq<RetrieveStep>, i: nat, j: nat)
    requires RetrieveRun(run, steps) && i < j < |run| && steps[i].Retrieve?
    ensures steps[i].future in run[j].submitted
  {
    if i + 1 < j {
      RetrieveSubmitted(run, steps, i, j - 1);
    }
  }

  /**
   As long as its future is neither consumed nor dropped, a retrieve's event is held
   if and only if the request has not been submitted again: a second retrieve gives up
   the event of one that is still in flight.
   */
  lemma {:induction false} RetrieveEventLifetime(run: seq<Retrieves>, steps: seq<RetrieveStep>, i: nat, j: nat)
    requires RetrieveRun(run, steps) && i < j < |run| && steps[i].Retrieve?
    requires forall k :: i < k < j ==> !Takes(run[k], steps[k], steps[i].r, steps[i].future) && !steps[k].Drop?
    ensures HoldsRetrieve(run[j], steps[i].r, steps[i].future, steps[i].event)
       <==> forall k :: i < k < j ==> !Resubmits(steps[k], steps[i].r)
  {
    if i + 1 < j {
      RetrieveEventLifetime(run, steps, i, j - 1);
      RetrieveSubmitted(run, steps, i, j - 1);
      RetrieveStepKeeps(run[j - 1], steps[j - 1], steps[i].r, steps[i].future, steps[i].event);
    }
  }

  /** One step, for a future that was submitted before. */
  lemma RetrieveStepKeeps(w: Retrieves, s: RetrieveStep, r: Request, f: Future, e: Event)
    requires RetrieveEnabled(w, s) && f in w.submitted && !Takes(w, s, r, f) && !s.Drop?
    ensures HoldsRetrieve(RetrieveNext(w, s), r, f, e) <==> HoldsRetrieve(w, r, f, e) && !Resubmits(s, r)
  {
  }

  /** A consumed retrieve's future was done, and its event is released with it. */
  lemma RetrieveReleased(w: Retrieves, s: RetrieveStep, r: Request, f: Future)
    requires RetrieveEnabled(w, s) && Takes(w, s, r, f)
    ensures f in RetrieveNext(w, s).done && r !in RetrieveNext(w, s).futures && r !in RetrieveNext(w, s).events
  {
  }
}
