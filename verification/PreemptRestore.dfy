/**
 The one-shot restore of preempted requests from LMCache: a lookup is submitted once,
 polled until it answers, and only one may be in flight at a time.
 */
module PreemptRestore {
  import opened Seqs

  type Request = string

  /** `check_lookup_result`: the lookup is pending, has found `ret` tokens, or raises. */
  datatype Check = Pending | Found(ret: nat) | Raises

  /**
   One call for a preempted request, with the answers it gets from the scheduler
   adapter and the tracker. A missing chunk size is a raise.
   */
  datatype Call = Call(rid: Request, computed: nat, submitRaises: bool, check: Check, blocksPerChunk: Option<nat>,
                       trackerRaises: bool)

  /** `(None, True)` is `Wait`; otherwise the tokens to load and whether loading is asynchronous. */
  datatype Reply = Wait | Load(tokens: nat, isAsync: bool)

  const MISS := Load(0, false)

  datatype State = State(submitted: set<Request>, active: set<Request>, finished: set<Request>)

  const START := State({}, {}, {})

  /** The request has a lookup in flight, after submitting it now if need be. */
  predicate Polls(s: State, c: Call) {
    c.rid !in s.finished && (c.rid in s.submitted || (s.active == {} && !c.submitRaises))
  }

  function Retire(s: State, rid: Request): State {
    State(s.submitted - {rid}, s.active - {rid}, s.finished + {rid})
  }

  function Next(s: State, c: Call): State {
    if c.rid in s.finished then s
    else if c.rid !in s.submitted && s.active != {} then s
    else if Polls(s, c) && c.check.Pending? then
      if c.rid in s.submitted then s else State(s.submitted + {c.rid}, s.active + {c.rid}, s.finished)
    else Retire(s, c.rid)
  }

  /** `ret` is whole chunks, the chunk size is known and the tracker takes it. */
  predicate Acceptable(ret: nat, c: Call, block: nat) {
    c.blocksPerChunk.Some? && !c.trackerRaises
    && c.blocksPerChunk.value * block != 0 && ret % (c.blocksPerChunk.value * block) == 0
  }

  /** The lookup found something acceptable. */
  predicate Restores(s: State, c: Call, block: nat) {
    Polls(s, c) && c.check.Found? && c.check.ret > 0 && Acceptable(c.check.ret, c, block)
  }

  function Answer(s: State, c: Call, block: nat): Reply {
    if Polls(s, c) && c.check.Pending? then Wait
    else if Restores(s, c, block) then
      var need := Max(0, c.check.ret - c.computed);
      Load(need, need > 0)
    else MISS
  }

  // ---- the connector -------------------------------------------------------------------

  class Tracker {
    var storedBlocks: nat
    var vllmHitBlocks: nat
    var lmcacheHitBlocks: nat
  }

  class Connector {
    const block: nat
    var submitted: set<Request>
    var active: set<Request>
    var finished: set<Request>

    constructor (block: nat)
      ensures this.block == block && Value() == START
    {
      this.block := block;
      submitted, active, finished := {}, {}, {};
    }

    ghost function Value(): State
      reads this
    {
      State(submitted, active, finished)
    }

    /**
     The branch of `get_num_new_matched_tokens` for a preempted request. `submits` says
     that the call reached `maybe_submit_lookup_request`.
     */
    method MatchPreempted(c: Call, tracker: Tracker) returns (reply: Reply, submits: bool)
      modifies this, tracker
      ensures submits <==> c.rid !in old(finished) && c.rid !in old(submitted) && old(active) == {}
      ensures Value() == Next(old(Value()), c) && reply == Answer(old(Value()), c, block)
      ensures Restores(old(Value()), c, block) ==> block > 0
      ensures Restores(old(Value()), c, block) ==> tracker.storedBlocks == old(tracker.storedBlocks) + c.check.ret / block
      ensures Restores(old(Value()), c, block) ==> tracker.vllmHitBlocks == c.computed / block
      ensures Restores(old(Value()), c, block) ==> tracker.lmcacheHitBlocks == c.check.ret / block
      ensures !Restores(old(Value()), c, block) ==> unchanged(tracker)
    {
      var rid := c.rid;
      reply, submits := MISS, false;
      if rid in finished {
        return;
      }
      if rid !in submitted {
        if active != {} {
          return;
        }
        submits := true;
        if c.submitRaises {
          Finish(rid);
          return;
        }
        submitted, active := submitted + {rid}, active + {rid};
      }
      match c.check {
        case Raises =>
          Finish(rid);
        case Pending =>
          reply := Wait;
        case Found(ret) =>
          Finish(rid);
          if ret != 0 {
            reply := Accept(ret, c, tracker);
          }
      }
    }

    /** A request never tries again after its final answer. */
    method Finish(rid: Request)
      modifies this
      ensures Value() == Retire(old(Value()), rid)
    {
      submitted, active, finished := submitted - {rid}, active - {rid}, finished + {rid};
    }

    /** The second guarded block: any failure in it falls back to recomputing. */
    method Accept(ret: nat, c: Call, tracker: Tracker) returns (reply: Reply)
      modifies tracker
      ensures !Acceptable(ret, c, block) ==> reply == MISS && unchanged(tracker)
      ensures Acceptable(ret, c, block) ==> block > 0 && reply == Load(Max(0, ret - c.computed), ret > c.computed)
      ensures Acceptable(ret, c, block) ==> tracker.storedBlocks == old(tracker.storedBlocks) + ret / block
      ensures Acceptable(ret, c, block) ==> tracker.vllmHitBlocks == c.computed / block
      ensures Acceptable(ret, c, block) ==> tracker.lmcacheHitBlocks == ret / block
    {
      if c.blocksPerChunk.None? {
        return MISS;
      }
      var chunk := c.blocksPerChunk.value * block;
      if chunk == 0 {
        return MISS;  // the remainder raises
      }
      if ret % chunk != 0 {
        return MISS;
      }
      if c.trackerRaises {
        return MISS;
      }
      tracker.storedBlocks := tracker.storedBlocks + ret / block;
      tracker.vllmHitBlocks := c.computed / block;
      tracker.lmcacheHitBlocks := ret / block;
      var need := Max(0, ret - c.computed);
      return Load(need, need > 0);
    }
  }

  // ---- runs ------------------------------------------------------------------------------

  ghost predicate IsRun(run: seq<State>, calls: seq<Call>) {
    |run| == |calls| + 1 && run[0] == START && forall i :: 0 <= i < |calls| ==> run[i + 1] == Next(run[i], calls[i])
  }

  ghost predicate Inv(s: State) {
    s.submitted == s.active && |s.active| <= 1 && s.active !! s.finished
  }

  lemma OneActive(s: State, a: Request)
    requires Inv(s) && a in s.active
    ensures s.active == {a}
  {
    if b :| b in s.active && b != a {
      SubsetOfTwo(s.active, a, b);
    }
  }

  lemma SubsetOfTwo(s: set<Request>, a: Request, b: Request)
    requires a in s && b in s && a != b
    ensures |s| >= 2
  {
    assert |s - {a}| == |s| - 1 && b in s - {a};
  }

  lemma NextKeeps(s: State, c: Call)
    requires Inv(s)
    ensures Inv(Next(s, c))
  {
    if c.rid in s.active {
      OneActive(s, c.rid);
      assert s.active - {c.rid} == {};
    }
  }

  /** In every reachable state: submitted is active, at most one request is, and it is not finished. */
  lemma {:induction false} ReachableInv(run: seq<State>, calls: seq<Call>, i: nat)
    requires IsRun(run, calls) && i < |run|
    ensures Inv(run[i])
  {
    if i > 0 {
      ReachableInv(run, calls, i - 1);
      NextKeeps(run[i - 1], calls[i - 1]);
    }
  }

  /** Once tried, always tried; once finished, always finished. */
  lemma {:induction false} TriedStays(run: seq<State>, calls: seq<Call>, i: nat, j: nat)
    requires IsRun(run, calls) && i <= j < |run|
    ensures run[i].submitted + run[i].finished <= run[j].submitted + run[j].finished
    ensures run[i].finished <= run[j].finished
  {
    if i < j {
      TriedStays(run, calls, i, j - 1);
    }
  }

  /**
   A request's lookup is submitted at most once ever, even counting submissions that
   raise: after a call that submits it, no later call can.
   */
  lemma SubmittedOnce(run: seq<State>, calls: seq<Call>, i: nat, j: nat)
    requires IsRun(run, calls) && i < j < |calls| && calls[i].rid == calls[j].rid
    requires calls[i].rid !in run[i].finished && calls[i].rid !in run[i].submitted && run[i].active == {}
    ensures calls[j].rid in run[j].finished || calls[j].rid in run[j].submitted
  {
    assert calls[i].rid in run[i + 1].submitted + run[i + 1].finished;
    TriedStays(run, calls, i + 1, j);
  }

  /** Only the active request is told to wait, and it stays active. */
  lemma WaitsOnlyIfActive(run: seq<State>, calls: seq<Call>, i: nat, block: nat)
    requires IsRun(run, calls) && i < |calls| && Answer(run[i], calls[i], block) == Wait
    ensures run[i + 1].active == {calls[i].rid} && (run[i].active == {} || run[i].active == {calls[i].rid})
  {
    ReachableInv(run, calls, i);
    if calls[i].rid in run[i].active {
      OneActive(run[i], calls[i].rid);
    }
  }

  /** After its final answer a request is always answered `(0, False)`; so it restores at most once. */
  lemma FinishedForGood(run: seq<State>, calls: seq<Call>, i: nat, j: nat, block: nat)
    requires IsRun(run, calls) && i < j < |calls| && calls[i].rid == calls[j].rid
    requires calls[i].rid in run[i + 1].finished
    ensures Answer(run[j], calls[j], block) == MISS && run[j + 1] == run[j]
    ensures Restores(run[i], calls[i], block) ==> !Restores(run[j], calls[j], block)
  {
    TriedStays(run, calls, i + 1, j);
  }

  /**
   Every answer but waiting and being turned away is final: it leaves the request
   finished, whether the lookup answered, found nothing or raised, already when it was
   submitted; a request that was not finished before frees the guard.
   */
  lemma FinalAnswerRetires(s: State, c: Call, block: nat)
    requires Inv(s)
    ensures c.rid in Next(s, c).finished
       <==> Answer(s, c, block) != Wait && (c.rid in s.finished || c.rid in s.submitted || s.active == {})
    ensures c.rid !in s.finished && c.rid in Next(s, c).finished ==> Next(s, c).active == {}
  {
    if c.rid in s.active {
      OneActive(s, c.rid);
    }
  }

  /** A finished request, or one that meets another's lookup, is turned away and changes nothing. */
  lemma TurnedAway(s: State, c: Call, block: nat)
    requires c.rid in s.finished || (c.rid !in s.submitted && s.active != {})
    ensures Answer(s, c, block) == Load(0, false) && Next(s, c) == s && !Restores(s, c, block)
  {
  }

  /** A submission that raises finishes the request at once. */
  lemma SubmissionRaised(s: State, c: Call, block: nat)
    requires c.rid !in s.finished && c.rid !in s.submitted && s.active == {} && c.submitRaises
    ensures Answer(s, c, block) == Load(0, false) && !Restores(s, c, block)
    ensures Next(s, c).finished == s.finished + {c.rid} && Next(s, c).submitted == s.submitted && Next(s, c).active == {}
  {
  }

  /**
   A request whose lookup is in flight, from before or submitted by this very call:
   it waits while the lookup is pending, and otherwise is finished. It loads exactly
   when the lookup found tokens, in whole chunks of a known positive size, that the
   tracker takes; the load is what was found beyond what is computed.
   */
  lemma LookupAnswered(s: State, c: Call, block: nat)
    requires Inv(s) && c.rid !in s.finished && (c.rid in s.submitted || (s.active == {} && !c.submitRaises))
    ensures c.check == Pending ==>
      Answer(s, c, block) == Wait && Next(s, c) == State({c.rid}, {c.rid}, s.finished)
    ensures c.check != Pending ==> Next(s, c) == State({}, {}, s.finished + {c.rid})
    ensures c.check == Raises ==> Answer(s, c, block) == Load(0, false)
    ensures forall ret: nat, n: nat :: c.check == Found(ret) && c.blocksPerChunk == Some(n) ==>
      Answer(s, c, block)
      == if ret > 0 && n * block > 0 && ret % (n * block) == 0 && !c.trackerRaises
         then Load(if ret > c.computed then ret - c.computed else 0, ret > c.computed) else Load(0, false)
    ensures c.check.Found? && c.blocksPerChunk == None ==> Answer(s, c, block) == Load(0, false)
    ensures Restores(s, c, block) <==>
      && c.check.Found? && c.check.ret > 0 && c.blocksPerChunk.Some? && c.blocksPerChunk.value * block > 0
      && c.check.ret % (c.blocksPerChunk.value * block) == 0 && !c.trackerRaises
  {
    if c.rid in s.active {
      OneActive(s, c.rid);
    }
    if c.blocksPerChunk.Some? {
      MulMono(0, c.blocksPerChunk.value, block);
    }
  }

  /**
   A reply asks for tokens exactly when the lookup found more whole chunks than are
   computed; then the computed and the loaded tokens together are what was found.
   */
  lemma RestoreExact(s: State, c: Call, block: nat)
    ensures Answer(s, c, block) != Wait && Answer(s, c, block) != MISS
       <==> Restores(s, c, block) && c.check.ret > c.computed
    ensures Restores(s, c, block) ==>
      && Answer(s, c, block).Load?
      && c.computed + Answer(s, c, block).tokens == Max(c.check.ret, c.computed)
      && (Answer(s, c, block).isAsync <==> Answer(s, c, block).tokens > 0)
    ensures Restores(s, c, block) ==> block > 0 && c.check.ret % block == 0
    ensures Restores(s, c, block) ==>
      c.blocksPerChunk.value * block > 0 && c.check.ret % (c.blocksPerChunk.value * block) == 0
  {
    if Restores(s, c, block) {
      var blocks, chunk := c.blocksPerChunk.value, c.blocksPerChunk.value * block;
      var n := c.check.ret / chunk;
      assert c.check.ret == n * chunk;
      Assoc(n, blocks, block);
      MulMono(0, blocks, n);
      DivUnique(c.check.ret, block, n * blocks, 0);
    }
  }

  /**
   The guard has no way out but the active request itself: as long as that request
   does not call again, every other preempted request is turned away and nothing
   changes.
   */
  lemma {:induction false} OthersWaitForActive(run: seq<State>, calls: seq<Call>, i: nat, j: nat, a: Request, block: nat)
    requires IsRun(run, calls) && i <= j < |calls| && a in run[i].active
    requires forall k :: i <= k <= j ==> calls[k].rid != a
    ensures run[j] == run[i] && run[j + 1] == run[i] && Answer(run[j], calls[j], block) == MISS
  {
    ReachableInv(run, calls, i);
    OneActive(run[i], a);
    if i < j {
      OthersWaitForActive(run, calls, i, j - 1, a, block);
    }
  }
}
