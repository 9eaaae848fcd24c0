/**
 * The request queue of src/shell-polkit-authentication-agent.c: one current
 * request, a list of scheduled ones, and completions that may happen while
 * the signal that starts a request is still being emitted.
 */
module PolkitQueue {
  import opened Lists
  import opened Wrappers

  /**
   * An AuthRequest. `calls` are the calls of
   * shell_polkit_authentication_agent_complete, with their dismissed
   * argument, that the handler of "initiate" makes before it returns.
   */
  datatype Request = Request(id: nat, calls: seq<bool>)

  datatype Agent = Agent(
    current: Option<Request>,
    scheduled: seq<Request>,
    arrived: seq<Request>,              // history: all requests, in order of arrival
    initiated: seq<Request>,            // history: emissions of "initiate"
    finished: seq<(Request, bool)>,     // history: completions of a current request, with the dismissed flag
    dropped: seq<Request>)              // history: completions of a scheduled request

  const INITIAL := Agent(None, [], [], [], [], [])

  // ---- The operations -------------------------------------------------------------

  /** Initiating and completing requests neither adds nor drops any, and the history stays. */
  predicate OnlyGrows(a: Agent, b: Agent) {
    b.arrived == a.arrived && b.dropped == a.dropped && a.initiated <= b.initiated && a.finished <= b.finished
  }

  /** maybe_process_next_request */
  function MaybeProcess(a: Agent): (b: Agent)
    ensures |b.scheduled| <= |a.scheduled| && OnlyGrows(a, b)
    decreases |a.scheduled|, 0, 0
  {
    if a.current.None? && a.scheduled != [] then
      var r := a.scheduled[0];
      RunCalls(a.(current := Some(r), scheduled := a.scheduled[1..], initiated := a.initiated + [r]), r.calls)
    else a
  }

  /** What a signal handler does to the agent before it returns. */
  function RunCalls(a: Agent, calls: seq<bool>): (b: Agent)
    ensures |b.scheduled| <= |a.scheduled| && OnlyGrows(a, b)
    decreases |a.scheduled|, 2, |calls|
  {
    if calls == [] then a else RunCalls(Complete(a, calls[0]), calls[1..])
  }

  /** shell_polkit_authentication_agent_complete: refused when nothing is current. */
  function Complete(a: Agent, dismissed: bool): (b: Agent)
    ensures |b.scheduled| <= |a.scheduled| && OnlyGrows(a, b)
    ensures a.current.Some? ==> a.finished + [(a.current.value, dismissed)] <= b.finished
    decreases |a.scheduled|, 1, 0
  {
    if a.current.None? then a
    else MaybeProcess(a.(current := None, finished := a.finished + [(a.current.value, dismissed)]))
  }

  /** initiate_authentication */
  function Initiate(a: Agent, r: Request): Agent {
    MaybeProcess(a.(scheduled := a.scheduled + [r], arrived := a.arrived + [r]))
  }

  /** handle_cancelled_in_idle; `calls` are what the handler of "cancel" does. */
  function Cancelled(a: Agent, r: Request, calls: seq<bool>): Agent {
    if a.current == Some(r) then RunCalls(a, calls)
    else a.(scheduled := Without(a.scheduled, r), dropped := a.dropped + [r])
  }

  // ---- Invariant --------------------------------------------------------------------

  /** The arrivals that were not dropped while waiting, in order. */
  function Kept(arrived: seq<Request>, dropped: seq<Request>): seq<Request> {
    if arrived == [] then []
    else
      var n := |arrived| - 1;
      Kept(arrived[..n], dropped) + if arrived[n] in dropped then [] else [arrived[n]]
  }

  function Firsts(fs: seq<(Request, bool)>): (rs: seq<Request>)
    ensures |rs| == |fs|
  {
    seq(|fs|, i requires 0 <= i < |fs| => fs[i].0)
  }

  function Now(a: Agent): seq<Request> {
    if a.current.Some? then [a.current.value] else []
  }

  /**
   * Requests are initiated in the order of arrival, leaving out those that
   * were dropped while waiting; they are finished in the order of initiation;
   * and what is not finished or dropped is current or scheduled.
   */
  ghost predicate Core(a: Agent) {
    && Distinct(a.arrived)
    && Distinct(a.dropped)
    && (forall r :: r in a.dropped ==> r in a.arrived)
    && Kept(a.arrived, a.dropped) == a.initiated + a.scheduled
    && a.initiated == Firsts(a.finished) + Now(a)
  }

  /** Requests wait only behind a current one. */
  predicate Quiet(a: Agent) {
    a.scheduled != [] ==> a.current.Some?
  }

  ghost predicate Inv(a: Agent) {
    Core(a) && Quiet(a)
  }

  predicate Live(a: Agent, r: Request) {
    a.current == Some(r) || r in a.scheduled
  }

  // ---- Preservation -------------------------------------------------------------------

  lemma StartKeeps(a: Agent)
    requires Core(a) && a.current.None? && a.scheduled != []
    ensures var r := a.scheduled[0];
            Core(a.(current := Some(r), scheduled := a.scheduled[1..], initiated := a.initiated + [r]))
  {
    var r := a.scheduled[0];
    assert a.initiated + a.scheduled == (a.initiated + [r]) + a.scheduled[1..];
  }

  lemma FinishKeeps(a: Agent, dismissed: bool)
    requires Core(a) && a.current.Some?
    ensures Core(a.(current := None, finished := a.finished + [(a.current.value, dismissed)]))
  {
    var f := a.finished + [(a.current.value, dismissed)];
    assert Firsts(f) == Firsts(a.finished) + [a.current.value];
    assert Firsts(f) + [] == Firsts(f);
  }

  lemma {:induction false} MaybeProcessKeeps(a: Agent)
    requires Core(a)
    ensures Inv(MaybeProcess(a))
    decreases |a.scheduled|, 0, 0
  {
    hide Core;
    if a.current.None? && a.scheduled != [] {
      StartKeeps(a);
      var r := a.scheduled[0];
      RunCallsKeeps(a.(current := Some(r), scheduled := a.scheduled[1..], initiated := a.initiated + [r]), r.calls);
    }
  }

  lemma {:induction false} RunCallsKeeps(a: Agent, calls: seq<bool>)
    requires Inv(a)
    ensures Inv(RunCalls(a, calls))
    decreases |a.scheduled|, 2, |calls|
  {
    hide Core;
    if calls != [] {
      CompleteKeeps(a, calls[0]);
      RunCallsKeeps(Complete(a, calls[0]), calls[1..]);
    }
  }

  lemma {:induction false} CompleteKeeps(a: Agent, dismissed: bool)
    requires Inv(a)
    ensures Inv(Complete(a, dismissed))
    decreases |a.scheduled|, 1, 0
  {
    hide Core;
    if a.current.Some? {
      FinishKeeps(a, dismissed);
      MaybeProcessKeeps(a.(current := None, finished := a.finished + [(a.current.value, dismissed)]));
    }
  }

  lemma {:induction false} KeptIn(arrived: seq<Request>, dropped: seq<Request>, r: Request)
    ensures r in Kept(arrived, dropped) <==> r in arrived && r !in dropped
  {
    if arrived != [] { KeptIn(arrived[..|arrived| - 1], dropped, r); }
  }

  lemma ArriveKeeps(a: Agent, r: Request)
    requires Core(a) && r !in a.arrived
    ensures Core(a.(scheduled := a.scheduled + [r], arrived := a.arrived + [r]))
  {
    assert (a.arrived + [r])[..|a.arrived|] == a.arrived;
    assert r !in a.dropped;
    assert a.initiated + a.scheduled + [r] == a.initiated + (a.scheduled + [r]);
  }

  lemma {:induction false} WithoutAppend(xs: seq<Request>, ys: seq<Request>, r: Request)
    requires r !in xs
    ensures Without(xs + ys, r) == xs + Without(ys, r)
  {
    if xs == [] {
      assert xs + ys == ys;
    } else {
      assert (xs + ys)[1..] == xs[1..] + ys;
      WithoutAppend(xs[1..], ys, r);
    }
  }

  /** Dropping one more request removes it from the kept ones. */
  lemma {:induction false} KeptDrop(arrived: seq<Request>, dropped: seq<Request>, r: Request)
    requires Distinct(arrived)
    ensures Kept(arrived, dropped + [r]) == Without(Kept(arrived, dropped), r)
  {
    if arrived != [] {
      var n := |arrived| - 1;
      var front := Kept(arrived[..n], dropped);
      KeptDrop(arrived[..n], dropped, r);
      KeptIn(arrived[..n], dropped, r);
      var last := if arrived[n] in dropped then [] else [arrived[n]];
      if r in front {
        assert arrived[n] != r;
        WithoutFront(front, last, r);
      } else {
        WithoutAppend(front, last, r);
        WithoutNone(front, r);
      }
    }
  }

  lemma {:induction false} WithoutFront(xs: seq<Request>, ys: seq<Request>, r: Request)
    requires r in xs
    ensures Without(xs + ys, r) == Without(xs, r) + ys
  {
    assert (xs + ys)[1..] == xs[1..] + ys;
    if xs[0] != r { WithoutFront(xs[1..], ys, r); }
  }

  lemma {:induction false} KeptDistinct(arrived: seq<Request>, dropped: seq<Request>)
    requires Distinct(arrived)
    ensures Distinct(Kept(arrived, dropped))
  {
    if arrived != [] {
      var n := |arrived| - 1;
      KeptDistinct(arrived[..n], dropped);
      KeptIn(arrived[..n], dropped, arrived[n]);
    }
  }

  lemma NotInFront(xs: seq<Request>, ys: seq<Request>, i: nat)
    requires Distinct(xs + ys) && i < |ys|
    ensures ys[i] !in xs
  {
    forall k | 0 <= k < |xs| ensures xs[k] != ys[i] {
      assert (xs + ys)[k] == xs[k] && (xs + ys)[|xs| + i] == ys[i];
    }
  }

  lemma DropKeeps(a: Agent, r: Request)
    requires Core(a) && r in a.scheduled
    ensures Core(a.(scheduled := Without(a.scheduled, r), dropped := a.dropped + [r]))
  {
    KeptIn(a.arrived, a.dropped, r);
    KeptDistinct(a.arrived, a.dropped);
    KeptDrop(a.arrived, a.dropped, r);
    var i :| 0 <= i < |a.scheduled| && a.scheduled[i] == r;
    assert (a.initiated + a.scheduled)[|a.initiated| + i] == r;
    assert r in a.initiated + a.scheduled;
    NotInFront(a.initiated, a.scheduled, i);
    WithoutAppend(a.initiated, a.scheduled, r);
  }

  // ---- Runs ------------------------------------------------------------------------------

  datatype Op =
    | Arrive(request: Request)
    | CancelIdle(request: Request, calls: seq<bool>)
    | CompleteCall(dismissed: bool)

  /** Requests are new objects, and an idle callback finds its request alive. */
  predicate Legal(a: Agent, op: Op) {
    match op
    case Arrive(r) => r !in a.arrived
    case CancelIdle(r, _) => Live(a, r)
    case CompleteCall(_) => true
  }

  function Apply(a: Agent, op: Op): Agent {
    match op
    case Arrive(r) => Initiate(a, r)
    case CancelIdle(r, calls) => Cancelled(a, r, calls)
    case CompleteCall(dismissed) => Complete(a, dismissed)
  }

  lemma ApplyKeeps(a: Agent, op: Op)
    requires Inv(a) && Legal(a, op)
    ensures Inv(Apply(a, op))
  {
    hide Core;
    match op
    case Arrive(r) =>
      ArriveKeeps(a, r);
      MaybeProcessKeeps(a.(scheduled := a.scheduled + [r], arrived := a.arrived + [r]));
    case CancelIdle(r, calls) =>
      if a.current == Some(r) { RunCallsKeeps(a, calls); } else { DropKeeps(a, r); }
    case CompleteCall(dismissed) => CompleteKeeps(a, dismissed);
  }

  ghost predicate IsRun(agents: seq<Agent>, ops: seq<Op>) {
    && |agents| == |ops| + 1
    && agents[0] == INITIAL
    && forall i :: 0 <= i < |ops| ==> Legal(agents[i], ops[i]) && agents[i + 1] == Apply(agents[i], ops[i])
  }

  /** The requests that callers have made, in order */
  function Arrivals(ops: seq<Op>): seq<Request> {
    if ops == [] then []
    else
      var op := ops[|ops| - 1];
      Arrivals(ops[..|ops| - 1]) + if op.Arrive? then [op.request] else []
  }

  lemma {:induction false} ArrivedIs(agents: seq<Agent>, ops: seq<Op>, n: nat)
    requires IsRun(agents, ops) && n < |agents|
    ensures agents[n].arrived == Arrivals(ops[..n])
  {
    hide MaybeProcess;
    hide RunCalls;
    hide Complete;
    hide Legal;
    if n > 0 {
      ArrivedIs(agents, ops, n - 1);
      assert ops[..n][..n - 1] == ops[..n - 1];
    }
  }

  // ---- One call at a time ----------------------------------------------------------------

  /**
   * The same without recursion: calls are taken one at a time from a list, and
   * those of the handler of a request that is initiated come before the rest.
   */
  function Drain(a: Agent, calls: seq<bool>): Agent
    decreases |a.scheduled|, |calls|
  {
    if calls == [] then a
    else match a.current
      case None => Drain(a, calls[1..])
      case Some(r) =>
        var b := a.(current := None, finished := a.finished + [(r, calls[0])]);
        if b.scheduled == [] then Drain(b, calls[1..])
        else
          var next := b.scheduled[0];
          Drain(b.(current := Some(next), scheduled := b.scheduled[1..], initiated := b.initiated + [next]),
                next.calls + calls[1..])
  }

  lemma {:induction false} DrainAppend(a: Agent, calls: seq<bool>, more: seq<bool>)
    ensures Drain(a, calls + more) == Drain(Drain(a, calls), more)
    decreases |a.scheduled|, |calls|
  {
    if calls == [] {
      assert calls + more == more;
    } else {
      assert (calls + more)[1..] == calls[1..] + more;
      match a.current
      case None => DrainAppend(a, calls[1..], more);
      case Some(r) =>
        var b := a.(current := None, finished := a.finished + [(r, calls[0])]);
        if b.scheduled == [] {
          DrainAppend(b, calls[1..], more);
        } else {
          var next := b.scheduled[0];
          var c := b.(current := Some(next), scheduled := b.scheduled[1..], initiated := b.initiated + [next]);
          assert next.calls + (calls[1..] + more) == next.calls + calls[1..] + more;
          DrainAppend(c, next.calls + calls[1..], more);
        }
    }
  }

  /** Handlers that call back into the agent come to the same as a list of calls. */
  lemma {:induction false} RunCallsDrains(a: Agent, calls: seq<bool>)
    ensures RunCalls(a, calls) == Drain(a, calls)
    decreases |a.scheduled|, 2, |calls|
  {
    if calls != [] {
      CompleteDrains(a, calls[0]);
      RunCallsDrains(Complete(a, calls[0]), calls[1..]);
      DrainAppend(a, [calls[0]], calls[1..]);
      assert [calls[0]] + calls[1..] == calls;
    }
  }

  lemma {:induction false} CompleteDrains(a: Agent, dismissed: bool)
    ensures Complete(a, dismissed) == Drain(a, [dismissed])
    decreases |a.scheduled|, 1, 0
  {
    if a.current.Some? {
      var b := a.(current := None, finished := a.finished + [(a.current.value, dismissed)]);
      if b.scheduled != [] {
        var next := b.scheduled[0];
        var c := b.(current := Some(next), scheduled := b.scheduled[1..], initiated := b.initiated + [next]);
        RunCallsDrains(c, next.calls);
        assert next.calls + [] == next.calls;
      }
    }
  }

  /** What an operation does to an agent none of whose requests wait for nobody, by the list of calls */
  function Served(a: Agent, op: Op): Agent {
    match op
    case Arrive(r) =>
      var b := a.(arrived := a.arrived + [r]);
      if a.current.Some? then b.(scheduled := b.scheduled + [r])
      else Drain(b.(current := Some(r), initiated := b.initiated + [r]), r.calls)
    case CancelIdle(r, calls) =>
      if a.current == Some(r) then Drain(a, calls)
      else a.(scheduled := Without(a.scheduled, r), dropped := a.dropped + [r])
    case CompleteCall(dismissed) => Drain(a, [dismissed])
  }

  /** Every step of a run serves its operation by the list of calls. */
  lemma OneCallAtATime(agents: seq<Agent>, ops: seq<Op>, n: nat)
    requires IsRun(agents, ops) && n < |ops|
    ensures agents[n + 1] == Served(agents[n], ops[n])
  {
    RunKeeps(agents, ops, n);
    hide Core;
    var a := agents[n];
    match ops[n]
    case Arrive(r) =>
      var b := a.(scheduled := a.scheduled + [r], arrived := a.arrived + [r]);
      if a.current.None? {
        assert b.scheduled == [r] && b.scheduled[1..] == [];
        RunCallsDrains(b.(current := Some(r), scheduled := [], initiated := b.initiated + [r]), r.calls);
        assert a.scheduled == [];
      }
    case CancelIdle(r, calls) => RunCallsDrains(a, calls);
    case CompleteCall(dismissed) => CompleteDrains(a, dismissed);
  }

  lemma {:induction false} RunKeeps(agents: seq<Agent>, ops: seq<Op>, n: nat)
    requires IsRun(agents, ops) && n < |agents|
    ensures Inv(agents[n])
  {
    hide Apply;
    hide Legal;
    if n > 0 {
      hide Inv;
      RunKeeps(agents, ops, n - 1);
      ApplyKeeps(agents[n - 1], ops[n - 1]);
    }
  }

  /** How often a request has been completed, in whichever way. */
  function Completions(a: Agent): seq<Request> {
    Firsts(a.finished) + a.dropped
  }

  /**
   * In every run, a request that has arrived is in memory, for an idle to
   * find, if and only if it has not been completed.
   */
  lemma GoneWhenCompleted(agents: seq<Agent>, ops: seq<Op>, n: nat, r: Request)
    requires IsRun(agents, ops) && n < |agents| && r in Arrivals(ops[..n])
    ensures Live(agents[n], r) <==> r !in Completions(agents[n])
  {
    var a := agents[n];
    ExactlyOnePlace(agents, ops, n, r);
    assert r in Completions(a) <==> r in multiset(Completions(a));
    assert r in a.scheduled <==> r in multiset(a.scheduled);
    assert r in Now(a) <==> r in multiset(Now(a));
  }

  /**
   * In every run, each request that has arrived is in exactly one place: it
   * is current, or waiting, or has been completed, and that exactly once.
   */
  lemma ExactlyOnePlace(agents: seq<Agent>, ops: seq<Op>, n: nat, r: Request)
    requires IsRun(agents, ops) && n < |agents| && r in Arrivals(ops[..n])
    ensures var a := agents[n];
            multiset(Completions(a))[r] + multiset(Now(a))[r] + multiset(a.scheduled)[r] == 1
  {
    hide IsRun;
    RunKeeps(agents, ops, n);
    ArrivedIs(agents, ops, n);
    var a := agents[n];
    KeptIn(a.arrived, a.dropped, r);
    KeptDistinct(a.arrived, a.dropped);
    DistinctCount(a.dropped, r);
    DistinctCount(Kept(a.arrived, a.dropped), r);
    assert Kept(a.arrived, a.dropped) == Firsts(a.finished) + Now(a) + a.scheduled;
  }

  lemma {:induction false} DistinctCount(rs: seq<Request>, r: Request)
    requires Distinct(rs)
    ensures multiset(rs)[r] == if r in rs then 1 else 0
  {
    if rs != [] {
      var n := |rs| - 1;
      assert rs == rs[..n] + [rs[n]];
      DistinctCount(rs[..n], r);
    }
  }

  /**
   * In every run, initiations follow arrivals, completions of initiated
   * requests follow initiations, and no one waits for nobody.
   */
  lemma Fifo(agents: seq<Agent>, ops: seq<Op>, n: nat)
    requires IsRun(agents, ops) && n < |agents|
    ensures var a := agents[n]; var kept := Kept(Arrivals(ops[..n]), a.dropped);
            && kept == a.initiated + a.scheduled
            && Firsts(a.finished) <= a.initiated && |a.initiated| - |a.finished| <= 1
            && (a.current.None? ==> a.initiated == kept && Firsts(a.finished) == a.initiated)
  {
    hide IsRun;
    RunKeeps(agents, ops, n);
    ArrivedIs(agents, ops, n);
    var a := agents[n];
    if a.current.None? {
      assert a.initiated + [] == a.initiated;
      assert Firsts(a.finished) + [] == Firsts(a.finished);
    }
  }

  // ---- The object ---------------------------------------------------------------------------

  class AuthenticationAgent {
    var currentRequest: Option<Request>
    var scheduledRequests: seq<Request>
    ghost var arrived: seq<Request>
    ghost var initiated: seq<Request>
    ghost var finished: seq<(Request, bool)>
    ghost var dropped: seq<Request>

    ghost function View(): Agent
      reads this
    {
      Agent(currentRequest, scheduledRequests, arrived, initiated, finished, dropped)
    }

    constructor ()
      ensures View() == INITIAL
    {
      currentRequest, scheduledRequests := None, [];
      arrived, initiated, finished, dropped := [], [], [], [];
    }

    /** auth_request_complete */
    method AuthRequestComplete(request: Request, dismissed: bool)
      requires currentRequest == Some(request) || request in scheduledRequests
      modifies this
      ensures View() ==
        if old(currentRequest) == Some(request) then Complete(old(View()), dismissed)
        else old(View()).(scheduled := Without(old(scheduledRequests), request), dropped := old(dropped) + [request])
      decreases |scheduledRequests|, 1, 0
    {
      if currentRequest == Some(request) {
        finished := finished + [(request, dismissed)];
        currentRequest := None;
        MaybeProcessNextRequest();
      } else {
        scheduledRequests := Without(scheduledRequests, request);
        dropped := dropped + [request];
      }
    }

    /** maybe_process_next_request, and the handler of the "initiate" signal it emits */
    method MaybeProcessNextRequest()
      modifies this
      ensures View() == MaybeProcess(old(View()))
      decreases |scheduledRequests|, 0, 0
    {
      if currentRequest.None? && scheduledRequests != [] {
        var request := scheduledRequests[0];
        currentRequest := Some(request);
        scheduledRequests := scheduledRequests[1..];
        initiated := initiated + [request];
        HandleSignal(request.calls);
      }
    }

    /** The calls a signal handler makes. */
    method HandleSignal(calls: seq<bool>)
      modifies this
      ensures View() == RunCalls(old(View()), calls)
      decreases |scheduledRequests|, 2, |calls|
    {
      if calls != [] {
        CompleteRequest(calls[0]);
        HandleSignal(calls[1..]);
      }
    }

    /** shell_polkit_authentication_agent_complete */
    method CompleteRequest(dismissed: bool)
      modifies this
      ensures View() == Complete(old(View()), dismissed)
      ensures old(currentRequest).Some? ==> old(finished) + [(old(currentRequest).value, dismissed)] <= finished
      decreases |scheduledRequests|, 1, 1
    {
      if currentRequest.None? { return; }
      AuthRequestComplete(currentRequest.value, dismissed);
    }

    /** initiate_authentication */
    method InitiateAuthentication(request: Request)
      modifies this
      ensures View() == Initiate(old(View()), request)
      ensures arrived == old(arrived) + [request]
      ensures old(currentRequest).Some? ==> scheduledRequests == old(scheduledRequests) + [request]
      ensures old(currentRequest).None? && old(scheduledRequests) == [] ==> old(initiated) + [request] <= initiated
    {
      scheduledRequests := scheduledRequests + [request];
      arrived := arrived + [request];
      MaybeProcessNextRequest();
    }

    /**
     * handle_cancelled_in_idle, and the handler of the "cancel" signal it may
     * emit. The idle holds a pointer to its request: `dangling` when the
     * request has been freed, where the original goes on reading and nothing
     * more can be said (GoneWhenCompleted).
     */
    method HandleCancelledInIdle(request: Request, calls: seq<bool>) returns (dangling: bool)
      modifies this
      ensures dangling <==> !Live(old(View()), request)
      ensures !dangling ==> View() == Cancelled(old(View()), request, calls)
      ensures !dangling && old(currentRequest) != Some(request) ==>
                dropped == old(dropped) + [request] && scheduledRequests == Without(old(scheduledRequests), request)
    {
      if currentRequest == Some(request) {
        HandleSignal(calls);
      } else {
        if request !in scheduledRequests { return true; }
        AuthRequestComplete(request, false);
      }
      return false;
    }
  }
}
