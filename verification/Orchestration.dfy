/**
 Bounded parallel workflows: children are spawned in waves, waited on, closed, and optionally reviewed.

 The controller is arbitrary: any spawn may fail or be cancelled, any wait may fail or be cancelled, any close may
 fail. Cancellation arrives only where a workflow waits for a spawn or for a child.
*/
module Orchestration {
  import opened Basics

  datatype Request = Request(role: string, brief: string, parent: Option<nat>)

  datatype ChildStatus = Completed | NotCompleted

  datatype Receipt = Receipt(child: nat, status: ChildStatus, summary: Option<string>)

  /** How a child ends, when it can be waited for at all. */
  datatype Fate = Ends(status: ChildStatus, summary: Option<string>) | WaitFails

  datatype Answer = Granted | Refused | Interrupted

  datatype Event = Spawned(child: nat, request: Request) | CloseCalled(child: nat)

  /** All calls to the controller so far, the newest last. */
  datatype Trace = Start | Then(before: Trace, event: Event)

  datatype Error = CleanupFailed(children: seq<nat>) | SpawnFailed | InvalidInput

  datatype Exit<+T> = Returned(value: T) | Failed(error: Error) | Cancelled

  function Unclosed(t: Trace): set<nat> {
    match t
    case Start => {}
    case Then(before, Spawned(child, _)) => Unclosed(before) + {child}
    case Then(before, CloseCalled(child)) => Unclosed(before) - {child}
  }

  /** How many children are open, counted call by call. */
  function OpenCount(t: Trace): int {
    match t
    case Start => 0
    case Then(before, Spawned(_, _)) => OpenCount(before) + 1
    case Then(before, CloseCalled(child)) => if child in Unclosed(before) then OpenCount(before) - 1 else OpenCount(before)
  }

  /** At no point of the trace were more than `n` children open. */
  predicate Bounded(t: Trace, n: nat) {
    OpenCount(t) <= n && (t.Then? ==> Bounded(t.before, n))
  }

  /** No child is spawned while it is already there. */
  predicate Fresh(t: Trace) {
    t.Then? ==> Fresh(t.before) && (t.event.Spawned? ==> t.event.child !in Unclosed(t.before))
  }

  predicate Prefix(p: Trace, t: Trace) { p == t || (t.Then? && Prefix(p, t.before)) }

  lemma {:induction false} OpenCountIs(t: Trace)
    requires Fresh(t)
    ensures OpenCount(t) == |Unclosed(t)|
  {
    if t.Then? {
      OpenCountIs(t.before);
    }
  }

  /** What the bound means: after every call so far, at most `n` children were spawned and not closed. */
  lemma {:induction false} NeverMoreOpen(t: Trace, p: Trace, n: nat)
    requires Fresh(t) && Bounded(t, n) && Prefix(p, t)
    ensures |Unclosed(p)| <= n
  {
    if p == t {
      OpenCountIs(t);
    } else {
      NeverMoreOpen(t.before, p, n);
    }
  }

  /** What each child was spawned for. */
  function Requests(t: Trace): map<nat, Request> {
    match t
    case Start => map[]
    case Then(before, Spawned(child, request)) => Requests(before)[child := request]
    case Then(before, CloseCalled(_)) => Requests(before)
  }

  /** Exactly the children from `a` up to but not including `b` are open. */
  ghost predicate OpenAre(t: Trace, a: int, b: int) {
    forall child: nat :: child in Unclosed(t) <==> a <= child < b
  }

  /** `children` lists the children from `first` on. */
  predicate From(children: seq<nat>, first: int) {
    forall i :: 0 <= i < |children| ==> children[i] == first + i
  }

  lemma {:induction false} InRange(children: seq<nat>, first: int, child: nat)
    requires From(children, first)
    ensures child in children <==> first <= child < first + |children|
  {
    if first <= child < first + |children| {
      assert children[child - first] == child;
    }
  }

  /** The only surface a workflow uses. Its answers are arbitrary functions of the call and child numbers. */
  class Controller {
    const maxConcurrentChildren: int
    const onSpawn: nat -> Answer
    const cancelsWait: nat -> bool
    const fate: nat -> Fate
    const closeFails: nat -> bool
    var spawned: nat
    var attempts: nat
    var waits: nat
    ghost var trace: Trace

    constructor (max: int, onSpawn: nat -> Answer, cancelsWait: nat -> bool, fate: nat -> Fate, closeFails: nat -> bool)
      ensures Valid() && trace == Start && spawned == 0 && maxConcurrentChildren == max
      ensures this.onSpawn == onSpawn && this.cancelsWait == cancelsWait && this.fate == fate && this.closeFails == closeFails
    {
      maxConcurrentChildren, this.onSpawn, this.cancelsWait, this.fate, this.closeFails := max, onSpawn, cancelsWait, fate, closeFails;
      spawned, attempts, waits, trace := 0, 0, 0, Start;
    }

    /** Child ids are never used twice. */
    ghost predicate Valid() reads this {
      && Fresh(trace)
      && (forall child :: child in Unclosed(trace) ==> child < spawned)
      && (forall child :: child in Requests(trace) ==> child < spawned)
    }

    /** Nothing is refused, nothing interrupted, and every close succeeds. */
    ghost predicate Cooperates() {
      (forall n :: onSpawn(n).Granted?) && (forall n :: !cancelsWait(n)) && (forall n :: !closeFails(n))
    }

    function Limit(): (n: nat)
      ensures n >= 1
    {
      Max(1, maxConcurrentChildren)
    }

    /** What waiting for a child gives: its final receipt, unless the wait fails. */
    function WaitResult(child: nat): Option<Receipt> {
      match fate(child)
      case Ends(status, summary) => Some(Receipt(child, status, summary))
      case WaitFails => None
    }

    method SpawnAgent(request: Request) returns (answer: Answer, child: nat)
      requires Valid()
      modifies this`spawned, this`attempts, this`trace
      ensures Valid()
      ensures answer.Granted? ==> child == old(spawned) && spawned == child + 1 && child !in Unclosed(old(trace))
                                  && trace == Then(old(trace), Spawned(child, request))
      ensures !answer.Granted? ==> spawned == old(spawned) && trace == old(trace)
      ensures Cooperates() ==> answer.Granted?
    {
      answer, child := onSpawn(attempts), spawned;
      attempts := attempts + 1;
      if answer.Granted? {
        spawned := spawned + 1;
        trace := Then(trace, Spawned(child, request));
      }
    }

    /** Waits for several children at once; one that fails does not hurt the others. */
    method WaitAll(children: seq<nat>) returns (interrupted: bool, results: seq<Option<Receipt>>)
      modifies this`waits
      ensures Cooperates() ==> !interrupted
      ensures !interrupted ==> |results| == |children| && forall i :: 0 <= i < |children| ==> results[i] == WaitResult(children[i])
    {
      interrupted := cancelsWait(waits);
      waits := waits + 1;
      results := [];
      for i := 0 to |children|
        invariant |results| == i && forall j :: 0 <= j < i ==> results[j] == WaitResult(children[j])
      {
        results := results + [WaitResult(children[i])];
      }
    }

    method CloseAgent(child: nat) returns (ok: bool)
      requires Valid()
      modifies this`trace
      ensures Valid() && trace == Then(old(trace), CloseCalled(child)) && ok == !closeFails(child)
    {
      ok := !closeFails(child);
      trace := Then(trace, CloseCalled(child));
      assert Unclosed(trace) == Unclosed(old(trace)) - {child};
      assert Requests(trace) == Requests(old(trace));
    }

    /** Attempts to close every child, whatever happens to the others. */
    method CloseAll(children: seq<nat>) returns (failed: seq<nat>)
      requires Valid() && Bounded(trace, Limit())
      modifies this`trace
      ensures Valid() && Bounded(trace, Limit()) && Requests(trace) == Requests(old(trace))
      ensures forall child :: child in Unclosed(trace) <==> child in Unclosed(old(trace)) && child !in children
      ensures forall child :: child in failed <==> child in children && closeFails(child)
      ensures Cooperates() ==> failed == []
    {
      failed := [];
      for i := 0 to |children|
        invariant Valid() && Bounded(trace, Limit()) && Requests(trace) == Requests(old(trace))
        invariant forall child :: child in Unclosed(trace) <==> child in Unclosed(old(trace)) && child !in children[..i]
        invariant forall child :: child in failed <==> child in children[..i] && closeFails(child)
      {
        assert children[..i + 1] == children[..i] + [children[i]];
        var ok := CloseAgent(children[i]);
        if !ok {
          failed := failed + [children[i]];
        }
      }
      assert children[..|children|] == children;
      if failed != [] {
        assert failed[0] in failed && closeFails(failed[0]);
      }
    }
  }

  // ---------------------------------------------------------------- one bounded fan-out

  /** `receipts[i]` is what waiting for the child of request `i` gave, `failures` the children whose wait failed, and
      `openFinal` the children of the last wave, which are left open for the caller. */
  datatype Wave = Wave(receipts: seq<Option<Receipt>>, failures: seq<nat>, openFinal: seq<nat>)

  /** The first `n` requests were asked of the children from `first` on, in order. */
  ghost predicate AskedFor(t: Trace, first: nat, requests: seq<Request>, n: nat)
    requires n <= |requests|
  {
    forall child :: first <= child < first + n ==> child in Requests(t) && Requests(t)[child] == requests[child - first]
  }

  /** The children among the `n` from `first` on whose wait failed. */
  function WaitFailures(c: Controller, first: nat, n: nat): seq<nat> {
    if n == 0 then []
    else WaitFailures(c, first, n - 1) + (if c.WaitResult(first + n - 1).None? then [first + n - 1] else [])
  }

  lemma {:induction false} OpenOneMore(before: Trace, child: nat, request: Request, a: int)
    requires OpenAre(before, a, child) && a <= child
    ensures OpenAre(Then(before, Spawned(child, request)), a, child + 1)
  {
    assert Unclosed(Then(before, Spawned(child, request))) == Unclosed(before) + {child};
  }

  /** Closes the children that are open. */
  method CloseWave(c: Controller, children: seq<nat>, ghost from: nat) returns (failed: seq<nat>)
    requires c.Valid() && Bounded(c.trace, c.Limit())
    requires From(children, from) && OpenAre(c.trace, from, from + |children|)
    modifies c`trace
    ensures c.Valid() && Bounded(c.trace, c.Limit()) && OpenAre(c.trace, 0, 0) && Requests(c.trace) == Requests(old(c.trace))
    ensures forall child: nat :: child in failed <==> child in children && c.closeFails(child)
    ensures c.Cooperates() ==> failed == []
  {
    forall child: nat ensures child in children <==> from <= child < from + |children| {
      InRange(children, from, child);
    }
    failed := c.CloseAll(children);
  }

  /** Spawns requests `start .. end` one by one; stops at the first that is not granted. */
  method SpawnChunk(c: Controller, requests: seq<Request>, start: nat, end: nat, ghost first: nat)
    returns (answer: Answer, children: seq<nat>)
    requires c.Valid() && OpenAre(c.trace, 0, 0) && Bounded(c.trace, c.Limit())
    requires start <= end <= |requests| && end - start <= c.Limit()
    requires c.spawned == first + start && AskedFor(c.trace, first, requests, start)
    modifies c`spawned, c`attempts, c`trace
    ensures c.Valid() && Bounded(c.trace, c.Limit()) && OpenAre(c.trace, first + start, first + start + |children|)
    ensures From(children, first + start) && |children| <= end - start && c.spawned == first + start + |children|
    ensures AskedFor(c.trace, first, requests, start + |children|)
    ensures answer.Granted? ==> |children| == end - start
    ensures c.Cooperates() ==> answer.Granted?
  {
    answer, children := Granted, [];
    OpenCountIs(c.trace);
    assert Unclosed(c.trace) == {};
    for i := start to end
      invariant c.Valid() && Bounded(c.trace, c.Limit()) && OpenAre(c.trace, first + start, first + i)
      invariant |children| == i - start && From(children, first + start) && c.spawned == first + i
      invariant AskedFor(c.trace, first, requests, i) && answer.Granted? && OpenCount(c.trace) == i - start
    {
      ghost var before := c.trace;
      var child;
      answer, child := c.SpawnAgent(requests[i]);
      if !answer.Granted? {
        return;
      }
      OpenOneMore(before, child, requests[i], first + start);
      children := children + [child];
    }
  }

  /** Where the last wave starts when the requests from `at` on are run in waves of `limit`. */
  function LastWave(at: nat, n: nat, limit: nat): (start: nat)
    requires limit > 0 && at <= n
    ensures at <= start <= n
    decreases n - at
  {
    if n - at <= limit then at else LastWave(at + limit, n, limit)
  }

  /** Before the last wave come full ones, and it takes what they leave over: at least one request, where there is one. */
  lemma {:induction false} LastWaveIs(at: nat, n: nat, limit: nat) returns (full: nat)
    requires limit > 0 && at <= n
    ensures LastWave(at, n, limit) == at + full * limit
    ensures n - LastWave(at, n, limit) <= limit && (at < n ==> LastWave(at, n, limit) < n)
    decreases n - at
  {
    if n - at <= limit {
      full := 0;
    } else {
      full := LastWaveIs(at + limit, n, limit);
      full := full + 1;
    }
  }

  /** Waves that have come to `at` end with the last one, `open` children of which are open once it is reached. */
  predicate OnTrack(at: nat, n: nat, limit: nat, open: nat)
    requires limit > 0 && at <= n
  {
    if at < n then open == 0 && LastWave(at, n, limit) == LastWave(0, n, limit)
    else at - open == LastWave(0, n, limit)
  }

  lemma {:induction false} NextOnTrack(at: nat, n: nat, limit: nat)
    requires limit > 0 && at < n && OnTrack(at, n, limit, 0)
    ensures var end := Min(at + limit, n);
            OnTrack(end, n, limit, if end == n then end - at else 0)
  {
    if at + limit == n {
      assert LastWave(at, n, limit) == at;
    }
  }

  /** What a fan-out over all requests leaves behind. */
  ghost predicate WaveDone(c: Controller, first: nat, n: nat, wave: Wave) {
    && |wave.receipts| == n && (forall i :: 0 <= i < n ==> wave.receipts[i] == c.WaitResult(first + i))
    && wave.failures == WaitFailures(c, first, n)
    && |wave.openFinal| <= Min(n, c.Limit()) && From(wave.openFinal, first + n - |wave.openFinal|)
    && n - |wave.openFinal| == LastWave(0, n, c.Limit())
  }

  /** Takes over the results of one chunk of waits. */
  method TakeResults(c: Controller, ghost first: nat, ghost start: nat, children: seq<nat>, results: seq<Option<Receipt>>,
                     receipts: seq<Option<Receipt>>, failures: seq<nat>)
    returns (receipts': seq<Option<Receipt>>, failures': seq<nat>)
    requires |receipts| == start && (forall i :: 0 <= i < start ==> receipts[i] == c.WaitResult(first + i))
    requires failures == WaitFailures(c, first, start)
    requires From(children, first + start) && |results| == |children|
    requires forall i :: 0 <= i < |children| ==> results[i] == c.WaitResult(children[i])
    ensures |receipts'| == start + |children| && (forall i :: 0 <= i < start + |children| ==> receipts'[i] == c.WaitResult(first + i))
    ensures failures' == WaitFailures(c, first, start + |children|)
  {
    receipts', failures' := receipts, failures;
    for i := 0 to |children|
      invariant |receipts'| == start + i && (forall j :: 0 <= j < start + i ==> receipts'[j] == c.WaitResult(first + j))
      invariant failures' == WaitFailures(c, first, start + i)
    {
      if results[i].None? {
        failures' := failures' + [children[i]];
      }
      receipts' := receipts' + [results[i]];
    }
  }

  /** One wave: its children are spawned and waited on together. Unless all of that succeeds, they are closed again. */
  method OneWave(c: Controller, requests: seq<Request>, start: nat, end: nat, ghost first: nat)
    returns (exit: Exit<seq<Option<Receipt>>>, children: seq<nat>)
    requires c.Valid() && OpenAre(c.trace, 0, 0) && Bounded(c.trace, c.Limit())
    requires start <= end <= |requests| && end - start <= c.Limit()
    requires c.spawned == first + start && AskedFor(c.trace, first, requests, start)
    modifies c
    ensures c.Valid() && Bounded(c.trace, c.Limit())
    ensures exit.Returned? ==>
              && OpenAre(c.trace, first + start, first + end) && c.spawned == first + end
              && From(children, first + start) && |children| == |exit.value| == end - start
              && AskedFor(c.trace, first, requests, end)
              && forall i :: 0 <= i < |children| ==> exit.value[i] == c.WaitResult(children[i])
    ensures !exit.Returned? ==> OpenAre(c.trace, 0, 0) && exit != Failed(InvalidInput)
    ensures c.Cooperates() ==> exit.Returned?
  {
    var answer;
    answer, children := SpawnChunk(c, requests, start, end, first);
    if !answer.Granted? {
      var failed := CloseWave(c, children, first + start);
      exit := if answer.Interrupted? then Cancelled else if failed != [] then Failed(CleanupFailed(failed)) else Failed(SpawnFailed);
      return;
    }
    var interrupted, results := c.WaitAll(children);
    if interrupted {
      var _ := CloseWave(c, children, first + start);
      return Cancelled, children;
    }
    exit := Returned(results);
  }

  /** One wave and what becomes of it: its results are taken over, and it is closed unless it is the last. */
  method NextWave(c: Controller, requests: seq<Request>, start: nat, end: nat, ghost first: nat,
                  receipts: seq<Option<Receipt>>, failures: seq<nat>)
    returns (exit: Exit<seq<nat>>, receipts': seq<Option<Receipt>>, failures': seq<nat>)
    requires c.Valid() && OpenAre(c.trace, 0, 0) && Bounded(c.trace, c.Limit())
    requires start <= end <= |requests| && end - start <= c.Limit()
    requires c.spawned == first + start && AskedFor(c.trace, first, requests, start)
    requires |receipts| == start && (forall i :: 0 <= i < start ==> receipts[i] == c.WaitResult(first + i))
    requires failures == WaitFailures(c, first, start)
    modifies c
    ensures c.Valid() && Bounded(c.trace, c.Limit())
    ensures exit.Returned? ==>
              && AskedFor(c.trace, first, requests, end) && c.spawned == first + end
              && |receipts'| == end && (forall i :: 0 <= i < end ==> receipts'[i] == c.WaitResult(first + i))
              && failures' == WaitFailures(c, first, end)
              && From(exit.value, first + end - |exit.value|) && OpenAre(c.trace, c.spawned - |exit.value|, c.spawned)
              && |exit.value| == if end == |requests| then end - start else 0
    ensures !exit.Returned? ==> OpenAre(c.trace, 0, 0) && exit != Failed(InvalidInput)
    ensures c.Cooperates() ==> exit.Returned?
  {
    receipts', failures' := receipts, failures;
    var wave, children := OneWave(c, requests, start, end, first);
    if !wave.Returned? {
      exit := if wave.Cancelled? then Cancelled else Failed(wave.error);
      return;
    }
    receipts', failures' := TakeResults(c, first, start, children, wave.value, receipts, failures);
    if end == |requests| {
      exit := Returned(children);
    } else {
      var failed := CloseWave(c, children, first + start);
      exit := if failed != [] then Failed(CleanupFailed(failed)) else Returned([]);
    }
  }

  /** Spawns every request in waves of at most the limit, and closes each wave but the last before the next. */
  method RunWave(c: Controller, requests: seq<Request>) returns (exit: Exit<Wave>)
    requires c.Valid() && OpenAre(c.trace, 0, 0) && Bounded(c.trace, c.Limit())
    modifies c
    ensures c.Valid() && Bounded(c.trace, Max(1, c.maxConcurrentChildren))
    ensures exit.Returned? ==>
              && WaveDone(c, old(c.spawned), |requests|, exit.value)
              && OpenAre(c.trace, c.spawned - |exit.value.openFinal|, c.spawned)
              && AskedFor(c.trace, old(c.spawned), requests, |requests|)
              && c.spawned == old(c.spawned) + |requests|
    ensures exit.Returned? ==>
              |requests| - |exit.value.openFinal| == LastWave(0, |requests|, Max(1, c.maxConcurrentChildren))
    ensures !exit.Returned? ==> OpenAre(c.trace, 0, 0) && exit != Failed(InvalidInput)
    ensures c.Cooperates() ==> exit.Returned?
  {
    var receipts, failures, openFinal := [], [], [];
    ghost var first := c.spawned;
    var start := 0;
    while start < |requests|
      invariant 0 <= start <= |requests| && c.Valid() && Bounded(c.trace, c.Limit()) && c.spawned == first + start
      invariant |receipts| == start && (forall i :: 0 <= i < start ==> receipts[i] == c.WaitResult(first + i))
      invariant failures == WaitFailures(c, first, start) && AskedFor(c.trace, first, requests, start)
      invariant OpenAre(c.trace, c.spawned - |openFinal|, c.spawned) && OnTrack(start, |requests|, c.Limit(), |openFinal|)
      invariant |openFinal| <= Min(start, c.Limit()) && From(openFinal, first + start - |openFinal|)
    {
      var end := Min(start + c.Limit(), |requests|);
      var wave;
      wave, receipts, failures := NextWave(c, requests, start, end, first, receipts, failures);
      if !wave.Returned? {
        return if wave.Cancelled? then Cancelled else Failed(wave.error);
      }
      openFinal := wave.value;
      NextOnTrack(start, |requests|, c.Limit());
      start := end;
    }
    return Returned(Wave(receipts, failures, openFinal));
  }

  lemma {:induction false} FailuresAre(c: Controller, first: nat, n: nat, child: nat)
    ensures child in WaitFailures(c, first, n) <==> first <= child < first + n && c.WaitResult(child).None?
  {
    if n > 0 {
      FailuresAre(c, first, n - 1, child);
    }
  }

  /** Exactly when every child left open was waited on successfully: no wait for a request of the last wave fails. */
  lemma {:induction false} OpenFinalMayHaveFailed(c: Controller, first: nat, n: nat, wave: Wave)
    requires WaveDone(c, first, n, wave)
    ensures (forall child :: child in wave.openFinal ==> c.WaitResult(child).Some?)
            <==> (forall child: nat | first + LastWave(0, n, c.Limit()) <= child < first + n :: c.fate(child).Ends?)
  {
    var from := first + LastWave(0, n, c.Limit());
    forall child: nat ensures child in wave.openFinal <==> from <= child < first + n
      ensures c.WaitResult(child).Some? <==> c.fate(child).Ends?
    {
      InRange(wave.openFinal, from, child);
    }
  }

  /** Such a wave, for any requests: every wait fails, and the last children are left open all the same. */
  method FailedChildrenStayOpen(requests: seq<Request>, max: int) returns (wave: Wave)
    requires requests != []
    ensures wave.openFinal != [] && (forall child :: child in wave.openFinal ==> child in wave.failures)
    ensures |wave.receipts| == |requests| && forall i :: 0 <= i < |wave.receipts| ==> wave.receipts[i].None?
  {
    var c := new Controller(max, n => Granted, n => false, child => WaitFails, child => false);
    var exit := RunWave(c, requests);
    wave := exit.value;
    ghost var full := LastWaveIs(0, |requests|, c.Limit());
    forall child | child in wave.openFinal ensures child in wave.failures {
      InRange(wave.openFinal, |requests| - |wave.openFinal|, child);
      FailuresAre(c, 0, |requests|, child);
    }
  }

  // ---------------------------------------------------------------- the results of the children

  /** What one request came to. */
  datatype Grade<+R> = Missing | Unfinished | Unreadable | Usable(result: R)

  /** A result is usable when its child completed, it parses, and it speaks about the request it was made for. */
  function GradeOf<K(==), R>(receipt: Option<Receipt>, key: K, parse: string -> Option<R>, keyOf: R -> K): Grade<R> {
    if receipt.None? then Missing
    else if receipt.value.status != Completed || receipt.value.summary.None? then Unfinished
    else
      var parsed := parse(receipt.value.summary.value);
      if parsed.None? || keyOf(parsed.value) != key then Unreadable else Usable(parsed.value)
  }

  function Results<R>(grades: seq<Grade<R>>, n: nat): seq<R>
    requires n <= |grades|
  {
    if n == 0 then [] else Results(grades, n - 1) + (if grades[n - 1].Usable? then [grades[n - 1].result] else [])
  }

  /** The places of the requests with the given grade. */
  function Places<R(==)>(grades: seq<Grade<R>>, grade: Grade<R>, n: nat): seq<nat>
    requires n <= |grades|
  {
    if n == 0 then [] else Places(grades, grade, n - 1) + (if grades[n - 1] == grade then [n - 1] else [])
  }

  /** Every request came to exactly one thing. */
  lemma {:induction false} EveryRequestCounts<R>(grades: seq<Grade<R>>, n: nat)
    requires n <= |grades|
    ensures |Results(grades, n)| + |Places(grades, Missing, n)| + |Places(grades, Unfinished, n)|
            + |Places(grades, Unreadable, n)| == n
  {
    if n > 0 {
      EveryRequestCounts(grades, n - 1);
    }
  }

  /** Sorts the receipts of a fan-out. `childIds` are those that were waited for, the other lists hold places. */
  method Collect<K(==), R(==)>(keys: seq<K>, receipts: seq<Option<Receipt>>, parse: string -> Option<R>, keyOf: R -> K,
                               suspicious: R -> bool)
    returns (results: seq<R>, unfinished: seq<nat>, unreadable: seq<nat>, doubtful: bool, ghost grades: seq<Grade<R>>)
    requires |keys| == |receipts|
    ensures |grades| == |keys| && forall i :: 0 <= i < |keys| ==> grades[i] == GradeOf(receipts[i], keys[i], parse, keyOf)
    ensures results == Results(grades, |keys|)
    ensures unfinished == Places(grades, Unfinished, |keys|) && unreadable == Places(grades, Unreadable, |keys|)
    ensures doubtful <==> exists i :: 0 <= i < |grades| && (!grades[i].Usable? || suspicious(grades[i].result))
  {
    results, unfinished, unreadable, doubtful := [], [], [], false;
    grades := seq(|keys|, i requires 0 <= i < |keys| => GradeOf(receipts[i], keys[i], parse, keyOf));
    for i := 0 to |keys|
      invariant results == Results(grades, i)
      invariant unfinished == Places(grades, Unfinished, i) && unreadable == Places(grades, Unreadable, i)
      invariant doubtful <==> exists j :: 0 <= j < i && (!grades[j].Usable? || suspicious(grades[j].result))
    {
      var receipt := receipts[i];
      if receipt.None? {
        doubtful := true;
      } else if receipt.value.status != Completed || receipt.value.summary.None? {
        unfinished := unfinished + [i];
        doubtful := true;
      } else {
        var parsed := parse(receipt.value.summary.value);
        if parsed.None? || keyOf(parsed.value) != keys[i] {
          unreadable := unreadable + [i];
          doubtful := true;
        } else {
          results := results + [parsed.value];
          doubtful := doubtful || suspicious(parsed.value);
        }
      }
    }
  }

  // ---------------------------------------------------------------- the reviewing child

  /** The last worker of the fan-out that completed and is still open. */
  method SelectCompletedParent(receipts: seq<Option<Receipt>>, open: seq<nat>) returns (parent: Option<nat>)
    ensures parent.Some? ==> exists i :: 0 <= i < |receipts| && Suits(receipts[i], open) && receipts[i].value.child == parent.value
                                         && forall j :: i < j < |receipts| ==> !Suits(receipts[j], open)
    ensures parent.None? ==> forall i :: 0 <= i < |receipts| ==> !Suits(receipts[i], open)
    ensures parent.Some? ==>
              exists i :: 0 <= i < |receipts| && receipts[i] == Some(Receipt(parent.value, Completed, SummaryOf(receipts[i])))
    ensures parent.Some? ==> parent.value in open
    ensures parent.None? ==> forall i :: 0 <= i < |receipts| && receipts[i].Some? && receipts[i].value.status == Completed ==>
              receipts[i].value.child !in open
  {
    var i := |receipts|;
    while i > 0
      invariant 0 <= i <= |receipts| && forall j :: i <= j < |receipts| ==> !Suits(receipts[j], open)
    {
      i := i - 1;
      if Suits(receipts[i], open) {
        return Some(receipts[i].value.child);
      }
    }
    return None;
  }

  function SummaryOf(receipt: Option<Receipt>): Option<string> { if receipt.Some? then receipt.value.summary else None }

  predicate Suits(receipt: Option<Receipt>, open: seq<nat>) {
    receipt.Some? && receipt.value.child in open && receipt.value.status == Completed
  }

  /** Every open child is on one of the lists its workflow still holds. */
  ghost predicate Held(t: Trace, open: seq<nat>, reviewers: seq<nat>) {
    forall child :: child in Unclosed(t) ==> child in open || child in reviewers
  }

  /** Spawns and waits for one reviewing child. */
  method RunReviewer(c: Controller, request: Request) returns (exit: Exit<Option<Receipt>>, reviewers: seq<nat>)
    requires c.Valid() && Bounded(c.trace, c.Limit()) && OpenCount(c.trace) < c.Limit()
    modifies c
    ensures c.Valid() && Bounded(c.trace, c.Limit())
    ensures forall child :: child in Unclosed(c.trace) ==> child in Unclosed(old(c.trace)) || child in reviewers
    ensures forall child :: child in Requests(old(c.trace)) ==>
              child in Requests(c.trace) && Requests(c.trace)[child] == Requests(old(c.trace))[child]
    ensures exit.Returned? && exit.value.Some? ==>
              reviewers == [exit.value.value.child] && exit.value == c.WaitResult(reviewers[0])
              && reviewers[0] in Requests(c.trace) && Requests(c.trace)[reviewers[0]] == request
    ensures exit != Failed(InvalidInput)
    ensures c.Cooperates() ==> exit == Returned(c.WaitResult(old(c.spawned))) && c.spawned == old(c.spawned) + 1
  {
    var answer, child := c.SpawnAgent(request);
    if !answer.Granted? {
      return if answer.Interrupted? then Cancelled else Returned(None), [];
    }
    reviewers := [child];
    var interrupted, results := c.WaitAll([child]);
    if interrupted {
      var _ := c.CloseAll([child]);
      return Cancelled, reviewers;
    }
    if results[0].None? {
      var failed := c.CloseAll([child]);
      return if failed != [] then Failed(CleanupFailed(failed)) else Returned(None), reviewers;
    }
    return Returned(results[0]), reviewers;
  }

  method Others(open: seq<nat>, parent: nat) returns (siblings: seq<nat>)
    ensures forall child :: child in siblings <==> child in open && child != parent
  {
    siblings := [];
    for i := 0 to |open|
      invariant forall child :: child in siblings <==> child in open[..i] && child != parent
    {
      assert open[..i + 1] == open[..i] + [open[i]];
      if open[i] != parent {
        siblings := siblings + [open[i]];
      }
    }
    assert open[..|open|] == open;
  }

  lemma {:induction false} OnlyOneOpen(t: Trace, parent: nat)
    requires Fresh(t) && forall child :: child in Unclosed(t) ==> child == parent
    ensures OpenCount(t) <= 1
  {
    OpenCountIs(t);
    SingletonCardinality(Unclosed(t), parent);
  }

  /** Closes the siblings and nests the reviewing child under the surviving worker where the limit allows two children;
      otherwise closes all workers first. `open'` are the workers the caller still holds. */
  method SpawnReviewer(c: Controller, receipts: seq<Option<Receipt>>, open: seq<nat>, brief: string)
    returns (exit: Exit<Option<Receipt>>, open': seq<nat>, reviewers: seq<nat>)
    requires c.Valid() && Bounded(c.trace, c.Limit()) && Held(c.trace, open, [])
    modifies c
    ensures c.Valid() && Bounded(c.trace, c.Limit()) && Held(c.trace, open', reviewers)
    ensures forall child :: child in Requests(old(c.trace)) ==>
              child in Requests(c.trace) && Requests(c.trace)[child] == Requests(old(c.trace))[child]
    ensures exit.Returned? && exit.value.Some? ==>
              reviewers == [exit.value.value.child] && exit.value == c.WaitResult(reviewers[0])
              && reviewers[0] in Requests(c.trace) && Requests(c.trace)[reviewers[0]].role == "reviewer"
              && Requests(c.trace)[reviewers[0]].brief == brief
              && (Requests(c.trace)[reviewers[0]].parent.Some? <==>
                    c.maxConcurrentChildren >= 2 && exists i :: 0 <= i < |receipts| && Suits(receipts[i], open))
              && (Requests(c.trace)[reviewers[0]].parent.Some? ==>
                    exists i :: 0 <= i < |receipts| && Suits(receipts[i], open)
                                && Requests(c.trace)[reviewers[0]].parent == Some(receipts[i].value.child)
                                && forall j :: i < j < |receipts| ==> !Suits(receipts[j], open))
    ensures exit != Failed(InvalidInput)
    ensures c.Cooperates() ==> exit == Returned(c.WaitResult(old(c.spawned))) && c.spawned == old(c.spawned) + 1
  {
    open', reviewers := open, [];
    var parent := SelectCompletedParent(receipts, open);
    if parent.Some? && c.maxConcurrentChildren >= 2 {
      var siblings := Others(open, parent.value);
      var failed := c.CloseAll(siblings);
      if failed != [] {
        return Failed(CleanupFailed(failed)), open, [];
      }
      open' := [parent.value];
      OnlyOneOpen(c.trace, parent.value);
      exit, reviewers := RunReviewer(c, Request("reviewer", brief, parent));
    } else {
      var failed := c.CloseAll(open);
      if failed != [] {
        return Failed(CleanupFailed(failed)), open, [];
      }
      open' := [];
      assert Unclosed(c.trace) == {};
      OpenCountIs(c.trace);
      exit, reviewers := RunReviewer(c, Request("reviewer", brief, None));
    }
  }

  /** The `finally` block: every child still held is closed, each once. */
  method CloseRemaining(c: Controller, held: seq<nat>) returns (failed: seq<nat>)
    requires c.Valid() && Bounded(c.trace, c.Limit()) && Held(c.trace, held, [])
    modifies c`trace
    ensures c.Valid() && Bounded(c.trace, c.Limit()) && Unclosed(c.trace) == {} && Requests(c.trace) == Requests(old(c.trace))
    ensures c.Cooperates() ==> failed == []
  {
    var remaining := Dedupe(held);
    failed := c.CloseAll(remaining);
  }

  method Dedupe(children: seq<nat>) returns (unique: seq<nat>)
    ensures forall child :: child in unique <==> child in children
    ensures forall i, j | 0 <= i < j < |unique| :: unique[i] != unique[j]
  {
    unique := [];
    for i := 0 to |children|
      invariant forall child :: child in unique <==> child in children[..i]
      invariant forall j, k | 0 <= j < k < |unique| :: unique[j] != unique[k]
    {
      assert children[..i + 1] == children[..i] + [children[i]];
      if children[i] !in unique {
        unique := unique + [children[i]];
      }
    }
    assert children[..|children|] == children;
  }

  // ---------------------------------------------------------------- the workflows

  datatype Trouble = NothingUsable | ReviewMissing | ReviewUnreadable

  datatype Outcome<+R, +V> = Outcome(results: seq<R>, waitFailed: seq<nat>, unfinished: seq<nat>, unreadable: seq<nat>,
                                     review: Option<V>, trouble: Option<Trouble>)

  /** What the receipt of the reviewing child is worth. */
  function ReviewOf<V>(receipt: Option<Receipt>, parse: string -> Option<V>): (Option<V>, Option<Trouble>) {
    if receipt.None? || receipt.value.status != Completed || receipt.value.summary.None? then (None, Some(ReviewMissing))
    else
      var review := parse(receipt.value.summary.value);
      (review, if review.None? then Some(ReviewUnreadable) else None)
  }

  /** Each request is graded by what waiting for its own child gave. */
  ghost predicate Graded<K, R>(c: Controller, first: nat, keys: seq<K>, parse: string -> Option<R>, keyOf: R -> K,
                               grades: seq<Grade<R>>)
  {
    |grades| == |keys| && forall i :: 0 <= i < |keys| ==> grades[i] == GradeOf(c.WaitResult(first + i), keys[i], parse, keyOf)
  }

  ghost predicate Doubtful<R(!new)>(grades: seq<Grade<R>>, suspicious: R -> bool) {
    exists i :: 0 <= i < |grades| && (!grades[i].Usable? || suspicious(grades[i].result))
  }

  /** The outcome of a workflow over the children from `first` on. */
  ghost predicate OutcomeOf<R, V>(c: Controller, first: nat, grades: seq<Grade<R>>, reviewed: bool, outcome: Outcome<R, V>) {
    && outcome.results == Results(grades, |grades|)
    && outcome.waitFailed == WaitFailures(c, first, |grades|)
    && outcome.unfinished == Places(grades, Unfinished, |grades|) && outcome.unreadable == Places(grades, Unreadable, |grades|)
    && (outcome.trouble == Some(NothingUsable) <==> outcome.results == [])
    && (outcome.review.Some? ==> reviewed && outcome.trouble.None?)
    && (outcome.results != [] && reviewed ==> outcome.review.Some? || outcome.trouble.Some?)
    && (outcome.results != [] && !reviewed ==> outcome.review.None? && outcome.trouble.None?)
  }

  // ---------------------------------------------------------------- the outcome, from what the children came to

  /** The child completed, and its summary parses as `r`, which speaks about `key`. */
  predicate Delivers<K(==), R(==)>(fate: Fate, key: K, parse: string -> Option<R>, keyOf: R -> K, r: R) {
    fate.Ends? && fate.status == Completed && fate.summary.Some? && parse(fate.summary.value) == Some(r) && keyOf(r) == key
  }

  /** The child delivers something. */
  predicate DeliversAny<K(==), R>(fate: Fate, key: K, parse: string -> Option<R>, keyOf: R -> K) {
    && fate.Ends? && fate.status == Completed && fate.summary.Some?
    && parse(fate.summary.value).Some? && keyOf(parse(fate.summary.value).value) == key
  }

  lemma {:induction false} UsableDelivers<K, R>(c: Controller, child: nat, key: K, parse: string -> Option<R>, keyOf: R -> K)
    ensures var grade := GradeOf(c.WaitResult(child), key, parse, keyOf);
            && (forall r :: Delivers(c.fate(child), key, parse, keyOf, r) <==> grade == Usable(r))
            && (DeliversAny(c.fate(child), key, parse, keyOf) <==> grade.Usable?)
            && (grade == Missing <==> c.fate(child).WaitFails?)
            && (grade == Unfinished <==> c.fate(child).Ends? && !(c.fate(child).status == Completed && c.fate(child).summary.Some?))
            && (grade == Unreadable <==>
                  c.fate(child).Ends? && c.fate(child).status == Completed && c.fate(child).summary.Some?
                  && !DeliversAny(c.fate(child), key, parse, keyOf))
  {
  }

  lemma {:induction false} InResults<R>(grades: seq<Grade<R>>, n: nat, r: R)
    requires n <= |grades|
    ensures r in Results(grades, n) <==> exists i :: 0 <= i < n && grades[i] == Usable(r)
  {
    if n > 0 {
      InResults(grades, n - 1, r);
    }
  }

  lemma {:induction false} InPlaces<R>(grades: seq<Grade<R>>, grade: Grade<R>, n: nat, i: nat)
    requires n <= |grades|
    ensures i in Places(grades, grade, n) <==> i < n && grades[i] == grade
  {
    if n > 0 {
      InPlaces(grades, grade, n - 1, i);
    }
  }

  /** Two results come in the order of their requests. */
  lemma {:induction false} ResultsInOrder<R>(grades: seq<Grade<R>>, n: nat, a: nat, b: nat) returns (i: nat, j: nat)
    requires n <= |grades| && a < b < |Results(grades, n)|
    ensures i < j < n && grades[i] == Usable(Results(grades, n)[a]) && grades[j] == Usable(Results(grades, n)[b])
  {
    if b < |Results(grades, n - 1)| {
      i, j := ResultsInOrder(grades, n - 1, a, b);
    } else {
      i := ResultAt(grades, n - 1, a);
      j := n - 1;
    }
  }

  lemma {:induction false} ResultAt<R>(grades: seq<Grade<R>>, n: nat, a: nat) returns (i: nat)
    requires n <= |grades| && a < |Results(grades, n)|
    ensures i < n && grades[i] == Usable(Results(grades, n)[a])
  {
    if a < |Results(grades, n - 1)| {
      i := ResultAt(grades, n - 1, a);
    } else {
      i := n - 1;
    }
  }

  /** The outcome in terms of the children's fates: the results are exactly what was delivered, and every other request is
      listed for its own reason. */
  ghost predicate Sorted<K, R(!new), V>(c: Controller, first: nat, keys: seq<K>, parse: string -> Option<R>, keyOf: R -> K,
                                        outcome: Outcome<R, V>)
  {
    && Delivered(c, first, keys, parse, keyOf, outcome.results)
    && Listed(c, first, keys, parse, keyOf, outcome.waitFailed, outcome.unfinished, outcome.unreadable)
  }

  ghost predicate Delivered<K, R(!new)>(c: Controller, first: nat, keys: seq<K>, parse: string -> Option<R>, keyOf: R -> K,
                                        results: seq<R>)
  {
    && (forall r :: r in results <==> exists i :: 0 <= i < |keys| && Delivers(c.fate(first + i), keys[i], parse, keyOf, r))
    && (forall a, b | 0 <= a < b < |results| :: FromEarlier(c, first, keys, parse, keyOf, results[a], results[b]))
  }

  /** `r` comes from an earlier request than `s`. */
  ghost predicate FromEarlier<K, R>(c: Controller, first: nat, keys: seq<K>, parse: string -> Option<R>, keyOf: R -> K,
                                    r: R, s: R)
  {
    exists i, j :: 0 <= i < j < |keys| && Delivers(c.fate(first + i), keys[i], parse, keyOf, r)
                   && Delivers(c.fate(first + j), keys[j], parse, keyOf, s)
  }

  ghost predicate Listed<K, R>(c: Controller, first: nat, keys: seq<K>, parse: string -> Option<R>, keyOf: R -> K,
                               waitFailed: seq<nat>, unfinished: seq<nat>, unreadable: seq<nat>)
  {
    && (forall child: nat :: child in waitFailed <==> first <= child < first + |keys| && c.fate(child).WaitFails?)
    && (forall i: nat :: i in unfinished <==>
          i < |keys| && c.fate(first + i).Ends?
          && !(c.fate(first + i).status == Completed && c.fate(first + i).summary.Some?))
    && (forall i: nat :: i in unreadable <==>
          i < |keys| && c.fate(first + i).Ends? && c.fate(first + i).status == Completed && c.fate(first + i).summary.Some?
          && !DeliversAny(c.fate(first + i), keys[i], parse, keyOf))
  }

  /** Something calls for a review: a request without a result, or a result that is suspicious. */
  ghost predicate CallsForReview<K, R(!new)>(c: Controller, first: nat, keys: seq<K>, parse: string -> Option<R>, keyOf: R -> K,
                                             suspicious: R -> bool)
  {
    || (exists i :: 0 <= i < |keys| && !DeliversAny(c.fate(first + i), keys[i], parse, keyOf))
    || (exists i, r :: 0 <= i < |keys| && Delivers(c.fate(first + i), keys[i], parse, keyOf, r) && suspicious(r))
  }

  lemma {:induction false} DoubtCalls<K, R(!new)>(c: Controller, first: nat, keys: seq<K>, parse: string -> Option<R>,
                                                  keyOf: R -> K, suspicious: R -> bool, grades: seq<Grade<R>>)
    requires Graded(c, first, keys, parse, keyOf, grades)
    ensures Doubtful(grades, suspicious) <==> CallsForReview(c, first, keys, parse, keyOf, suspicious)
  {
    forall i | 0 <= i < |keys|
      ensures grades[i].Usable? <==> DeliversAny(c.fate(first + i), keys[i], parse, keyOf)
      ensures forall r :: Delivers(c.fate(first + i), keys[i], parse, keyOf, r) <==> grades[i] == Usable(r)
    {
      UsableDelivers(c, first + i, keys[i], parse, keyOf);
    }
    if Doubtful(grades, suspicious) {
      var i :| 0 <= i < |grades| && (!grades[i].Usable? || suspicious(grades[i].result));
      if grades[i].Usable? {
        assert Delivers(c.fate(first + i), keys[i], parse, keyOf, grades[i].result);
      }
    }
  }

  lemma {:induction false} DeliveredBy<K, R(!new)>(c: Controller, first: nat, keys: seq<K>, parse: string -> Option<R>,
                                                   keyOf: R -> K, grades: seq<Grade<R>>)
    requires Graded(c, first, keys, parse, keyOf, grades)
    ensures Delivered(c, first, keys, parse, keyOf, Results(grades, |keys|))
  {
    var n, results := |keys|, Results(grades, |keys|);
    forall i: nat | i < n ensures forall r :: Delivers(c.fate(first + i), keys[i], parse, keyOf, r) <==> grades[i] == Usable(r) {
      UsableDelivers(c, first + i, keys[i], parse, keyOf);
    }
    forall r ensures r in results <==> exists i :: 0 <= i < n && Delivers(c.fate(first + i), keys[i], parse, keyOf, r) {
      InResults(grades, n, r);
    }
    forall a, b | 0 <= a < b < |results| ensures FromEarlier(c, first, keys, parse, keyOf, results[a], results[b]) {
      var i, j := ResultsInOrder(grades, n, a, b);
      assert Delivers(c.fate(first + i), keys[i], parse, keyOf, results[a]);
      assert Delivers(c.fate(first + j), keys[j], parse, keyOf, results[b]);
    }
  }

  lemma {:induction false} ListedBy<K, R>(c: Controller, first: nat, keys: seq<K>, parse: string -> Option<R>, keyOf: R -> K,
                                          grades: seq<Grade<R>>)
    requires Graded(c, first, keys, parse, keyOf, grades)
    ensures var n := |keys|;
            Listed(c, first, keys, parse, keyOf, WaitFailures(c, first, n), Places(grades, Unfinished, n),
                   Places(grades, Unreadable, n))
  {
    var n := |keys|;
    forall child: nat ensures child in WaitFailures(c, first, n) <==> first <= child < first + n && c.fate(child).WaitFails? {
      FailuresAre(c, first, n, child);
    }
    forall i: nat
      ensures i in Places(grades, Unfinished, n) <==> i < n && grades[i] == Unfinished
      ensures i in Places(grades, Unreadable, n) <==> i < n && grades[i] == Unreadable
      ensures i < n ==>
                var fate := c.fate(first + i);
                (grades[i] == Unfinished <==> fate.Ends? && !(fate.status == Completed && fate.summary.Some?))
                && (grades[i] == Unreadable <==>
                      fate.Ends? && fate.status == Completed && fate.summary.Some? && !DeliversAny(fate, keys[i], parse, keyOf))
    {
      InPlaces(grades, Unfinished, n, i);
      InPlaces(grades, Unreadable, n, i);
      if i < n {
        UsableDelivers(c, first + i, keys[i], parse, keyOf);
      }
    }
  }

  lemma {:induction false} SortedBy<K, R(!new), V>(c: Controller, first: nat, keys: seq<K>, parse: string -> Option<R>,
                                                   keyOf: R -> K, grades: seq<Grade<R>>, reviewed: bool, outcome: Outcome<R, V>)
    requires Graded(c, first, keys, parse, keyOf, grades) && OutcomeOf(c, first, grades, reviewed, outcome)
    ensures Sorted(c, first, keys, parse, keyOf, outcome)
  {
    DeliveredBy(c, first, keys, parse, keyOf, grades);
    ListedBy(c, first, keys, parse, keyOf, grades);
  }

  /** What the review is worth, from what the reviewing child came to. */
  ghost predicate ReviewedBy<V>(fate: Fate, parse: string -> Option<V>, review: Option<V>, trouble: Option<Trouble>) {
    var reported := fate.Ends? && fate.status == Completed && fate.summary.Some?;
    && (reported ==> review == parse(fate.summary.value))
    && (!reported ==> review.None?)
    && (trouble == Some(ReviewMissing) <==> !reported)
    && (trouble == Some(ReviewUnreadable) <==> reported && parse(fate.summary.value).None?)
    && trouble != Some(NothingUsable)
  }

  /** How a workflow over the `n` children from `first` on ends when the controller refuses nothing: without a result there is
      nothing to review; otherwise one more child reviews exactly when that is called for. */
  ghost predicate EndsWell<R, V>(c: Controller, first: nat, n: nat, spawned: nat, called: bool, parse: string -> Option<V>,
                                 outcome: Outcome<R, V>)
  {
    if outcome.results == [] then
      spawned == first + n && outcome.review.None? && outcome.trouble == Some(NothingUsable)
    else if called then
      spawned == first + n + 1 && ReviewedBy(c.fate(first + n), parse, outcome.review, outcome.trouble)
    else
      spawned == first + n && outcome.review.None? && outcome.trouble.None?
  }

  lemma {:induction false} ReviewIs<V>(c: Controller, child: nat, parse: string -> Option<V>)
    ensures var verdict := ReviewOf(c.WaitResult(child), parse);
            ReviewedBy(c.fate(child), parse, verdict.0, verdict.1)
  {
  }

  lemma {:induction false} HeldFrom(t: Trace, children: seq<nat>, from: int)
    requires From(children, from) && OpenAre(t, from, from + |children|)
    ensures Held(t, children, [])
  {
    forall child: nat | child in Unclosed(t) ensures child in children {
      InRange(children, from, child);
    }
  }

  /** What a fan-out leaves to the review: the receipts, the children still open, and the sorted results. */
  datatype Collected<+R> = Collected(receipts: seq<Option<Receipt>>, open: seq<nat>, waitFailed: seq<nat>, results: seq<R>,
                                     unfinished: seq<nat>, unreadable: seq<nat>, doubtful: bool)

  /** Fans out over all requests and sorts what comes back. */
  method Gather<K(==), R(==,!new)>(c: Controller, keys: seq<K>, requests: seq<Request>, parse: string -> Option<R>,
                                   keyOf: R -> K, suspicious: R -> bool)
    returns (exit: Exit<Collected<R>>, ghost grades: seq<Grade<R>>)
    requires c.Valid() && OpenAre(c.trace, 0, 0) && Bounded(c.trace, c.Limit()) && |keys| == |requests|
    modifies c
    ensures c.Valid() && Bounded(c.trace, c.Limit())
    ensures !exit.Returned? ==> Unclosed(c.trace) == {} && exit != Failed(InvalidInput)
    ensures exit.Returned? ==>
              && AskedFor(c.trace, old(c.spawned), requests, |requests|) && c.spawned == old(c.spawned) + |keys|
              && Graded(c, old(c.spawned), keys, parse, keyOf, grades) && Held(c.trace, exit.value.open, [])
              && exit.value.results == Results(grades, |grades|)
              && exit.value.waitFailed == WaitFailures(c, old(c.spawned), |grades|)
              && exit.value.unfinished == Places(grades, Unfinished, |grades|)
              && exit.value.unreadable == Places(grades, Unreadable, |grades|)
              && (exit.value.doubtful <==> CallsForReview(c, old(c.spawned), keys, parse, keyOf, suspicious))
              && (exit.value.doubtful <==> Doubtful(grades, suspicious))
    ensures c.Cooperates() ==> exit.Returned?
  {
    grades := [];
    var fanOut := RunWave(c, requests);
    if !fanOut.Returned? {
      exit := if fanOut.Cancelled? then Cancelled else Failed(fanOut.error);
      return;
    }
    var wave := fanOut.value;
    HeldFrom(c.trace, wave.openFinal, c.spawned - |wave.openFinal|);
    var results, unfinished, unreadable, doubtful;
    results, unfinished, unreadable, doubtful, grades := Collect(keys, wave.receipts, parse, keyOf, suspicious);
    DoubtCalls(c, old(c.spawned), keys, parse, keyOf, suspicious, grades);
    exit := Returned(Collected(wave.receipts, wave.openFinal, wave.failures, results, unfinished, unreadable, doubtful));
  }

  /** The part the two workflows share: fan out, collect, review where needed, and close everything on every exit. */
  method Workflow<K(==), R(==,!new), V>(c: Controller, keys: seq<K>, requests: seq<Request>, parse: string -> Option<R>,
                                        keyOf: R -> K, suspicious: R -> bool, alwaysReview: bool, reviewBrief: string,
                                        parseReview: string -> Option<V>)
    returns (exit: Exit<Outcome<R, V>>, ghost grades: seq<Grade<R>>, ghost called: bool)
    requires c.Valid() && OpenAre(c.trace, 0, 0) && Bounded(c.trace, c.Limit()) && |keys| == |requests|
    modifies c
    ensures c.Valid() && Bounded(c.trace, Max(1, c.maxConcurrentChildren)) && Unclosed(c.trace) == {}
    ensures exit.Returned? ==>
              && AskedFor(c.trace, old(c.spawned), requests, |requests|)
              && Graded(c, old(c.spawned), keys, parse, keyOf, grades)
              && OutcomeOf(c, old(c.spawned), grades, called, exit.value)
              && Sorted(c, old(c.spawned), keys, parse, keyOf, exit.value)
              && (called <==> alwaysReview || CallsForReview(c, old(c.spawned), keys, parse, keyOf, suspicious))
              && (called <==> alwaysReview || Doubtful(grades, suspicious))
    ensures exit != Failed(InvalidInput)
    ensures c.Cooperates() ==>
              exit.Returned? && EndsWell(c, old(c.spawned), |keys|, c.spawned, called, parseReview, exit.value)
  {
    ghost var first := c.spawned;
    called := false;
    var gathered;
    gathered, grades := Gather(c, keys, requests, parse, keyOf, suspicious);
    if !gathered.Returned? {
      exit := if gathered.Cancelled? then Cancelled else Failed(gathered.error);
      return;
    }
    var w := gathered.value;
    called := alwaysReview || w.doubtful;
    var reviewing := w.results != [] && (alwaysReview || w.doubtful);
    var review := ReviewAndClose(c, w.receipts, w.open, reviewing, reviewBrief, parseReview);
    match review {
      case Returned(verdict) =>
        var outcome := Assembled(w.results, w.waitFailed, w.unfinished, w.unreadable, verdict);
        OutcomeIs(c, first, grades, reviewing, called, outcome, verdict);
        SortedBy(c, first, keys, parse, keyOf, grades, called, outcome);
        exit := Returned(outcome);
      case Failed(error) => exit := Failed(error);
      case Cancelled => exit := Cancelled;
    }
  }

  function Assembled<R(==), V>(results: seq<R>, waitFailed: seq<nat>, unfinished: seq<nat>, unreadable: seq<nat>,
                               verdict: (Option<V>, Option<Trouble>)): Outcome<R, V>
  {
    Outcome(results, waitFailed, unfinished, unreadable, verdict.0, if results == [] then Some(NothingUsable) else verdict.1)
  }

  lemma {:induction false} OutcomeIs<R, V>(c: Controller, first: nat, grades: seq<Grade<R>>, reviewing: bool, wanted: bool,
                                           outcome: Outcome<R, V>, verdict: (Option<V>, Option<Trouble>))
    requires outcome == Assembled(Results(grades, |grades|), WaitFailures(c, first, |grades|),
                                  Places(grades, Unfinished, |grades|), Places(grades, Unreadable, |grades|), verdict)
    requires reviewing == (outcome.results != [] && wanted)
    requires !reviewing ==> verdict == (None, None)
    requires reviewing ==> (verdict.0.Some? <==> verdict.1.None?) && verdict.1 != Some(NothingUsable)
    ensures OutcomeOf(c, first, grades, wanted, outcome)
  {
  }

  /** The review, where one is wanted, and the `finally` that closes everything still held, whatever happened. */
  method ReviewAndClose<V>(c: Controller, receipts: seq<Option<Receipt>>, workers: seq<nat>, reviewing: bool, brief: string,
                           parse: string -> Option<V>)
    returns (exit: Exit<(Option<V>, Option<Trouble>)>)
    requires c.Valid() && Bounded(c.trace, c.Limit()) && Held(c.trace, workers, [])
    modifies c
    ensures c.Valid() && Bounded(c.trace, c.Limit()) && Unclosed(c.trace) == {}
    ensures forall child :: child in Requests(old(c.trace)) ==>
              child in Requests(c.trace) && Requests(c.trace)[child] == Requests(old(c.trace))[child]
    ensures exit != Failed(InvalidInput) && (c.Cooperates() ==> exit.Returned?)
    ensures !reviewing ==> c.spawned == old(c.spawned) && (exit.Returned? ==> exit.value == (None, None))
    ensures exit.Returned? && reviewing ==> (exit.value.0.Some? <==> exit.value.1.None?) && exit.value.1 != Some(NothingUsable)
    ensures c.Cooperates() && reviewing ==>
              c.spawned == old(c.spawned) + 1
              && ReviewedBy(c.fate(old(c.spawned)), parse, exit.value.0, exit.value.1)
  {
    var open, reviewers, review, trouble := workers, [], None, None;
    var broken: Option<Exit<()>> := None;
    if reviewing {
      var reviewExit;
      reviewExit, open, reviewers := SpawnReviewer(c, receipts, open, brief);
      review, trouble, broken := Concluded(reviewExit, parse);
      ReviewIs(c, old(c.spawned), parse);
    }
    var failed := CloseRemaining(c, open + reviewers);
    if failed != [] {
      exit := Failed(CleanupFailed(failed));
    } else if broken.Some? {
      exit := if broken.value.Failed? then Failed(broken.value.error) else Cancelled;
    } else {
      exit := Returned((review, trouble));
    }
  }

  /** What the end of the review means for the outcome, or how it breaks the workflow. */
  method Concluded<V>(reviewExit: Exit<Option<Receipt>>, parse: string -> Option<V>)
    returns (review: Option<V>, trouble: Option<Trouble>, broken: Option<Exit<()>>)
    ensures broken.None? <==> reviewExit.Returned?
    ensures broken.Some? ==> !broken.value.Returned? && review.None? && trouble.None?
    ensures broken.Some? && broken.value.Failed? ==> reviewExit == Failed(broken.value.error)
    ensures reviewExit.Returned? ==> (review, trouble) == ReviewOf(reviewExit.value, parse)
    ensures broken.None? ==> (review.Some? <==> trouble.None?) && trouble != Some(NothingUsable)
  {
    review, trouble, broken := None, None, None;
    match reviewExit {
      case Returned(receipt) =>
        var verdict := ReviewOf(receipt, parse);
        review, trouble := verdict.0, verdict.1;
      case Failed(error) => broken := Some(Failed(error));
      case Cancelled => broken := Some(Cancelled);
    }
  }

  predicate Distinct<K(==)>(keys: seq<K>) {
    forall i, j | 0 <= i < j < |keys| :: keys[i] != keys[j]
  }

  method HasDuplicate<K(==)>(keys: seq<K>) returns (duplicate: bool)
    ensures duplicate <==> !Distinct(keys)
  {
    var seen: seq<K> := [];
    for i := 0 to |keys|
      invariant seen == keys[..i] && Distinct(seen)
    {
      assert keys[..i + 1] == keys[..i] + [keys[i]];
      if keys[i] in seen {
        var j :| 0 <= j < i && keys[j] == keys[i];
        assert keys[j] == keys[i];
        return true;
      }
      seen := seen + [keys[i]];
    }
    assert keys[..|keys|] == keys;
    return false;
  }

  /** One request per key, in order. */
  function Briefs<K>(role: string, keys: seq<K>, brief: K -> string): (r: seq<Request>)
    ensures |r| == |keys|
  {
    seq(|keys|, i requires 0 <= i < |keys| => Request(role, brief(keys[i]), None))
  }

  datatype Suggestion = Suggestion(document: int, category: string, confidence: real, needsReview: bool)

  function DocumentOf(s: Suggestion): int { s.document }

  /** Classifies two or more documents; advisory only. Bad input is refused before anything is spawned. `called` tells whether
      a review is called for: by a document without a result, or by a result that asks for one, is not confident enough, or
      names a category that is not offered. */
  method ClassifyDocuments<V>(c: Controller, documents: seq<int>, brief: int -> string, allowed: seq<string>, threshold: real,
                              parse: string -> Option<Suggestion>, reviewBrief: string, parseReview: string -> Option<V>)
    returns (exit: Exit<Outcome<Suggestion, V>>, ghost grades: seq<Grade<Suggestion>>, ghost called: bool)
    requires c.Valid() && OpenAre(c.trace, 0, 0) && Bounded(c.trace, c.Limit())
    modifies c
    ensures c.Valid() && Bounded(c.trace, Max(1, c.maxConcurrentChildren)) && Unclosed(c.trace) == {}
    ensures |documents| < 2 || !Distinct(documents) ==> exit == Failed(InvalidInput) && c.trace == old(c.trace)
    ensures exit.Returned? ==>
              && Graded(c, old(c.spawned), documents, parse, DocumentOf, grades)
              && OutcomeOf(c, old(c.spawned), grades, called, exit.value)
              && (forall i :: 0 <= i < |documents| ==>
                    old(c.spawned) + i in Requests(c.trace)
                    && Requests(c.trace)[old(c.spawned) + i] == Request("classifier", brief(documents[i]), None))
              && Sorted(c, old(c.spawned), documents, parse, DocumentOf, exit.value)
    ensures exit.Returned? ==>
              var first := old(c.spawned);
              called <==>
              || (exists i :: 0 <= i < |documents| && !DeliversAny(c.fate(first + i), documents[i], parse, DocumentOf))
              || (exists s :: s in exit.value.results
                              && (s.needsReview || s.confidence < threshold || (allowed != [] && s.category !in allowed)))
    ensures c.Cooperates() && exit.Returned? ==>
              EndsWell(c, old(c.spawned), |documents|, c.spawned, called, parseReview, exit.value)
    ensures exit == Failed(InvalidInput) <==> |documents| < 2 || !Distinct(documents)
    ensures c.Cooperates() ==> exit.Returned? || exit == Failed(InvalidInput)
  {
    grades, called := [], false;
    assert Unclosed(c.trace) == {};
    var duplicate := HasDuplicate(documents);
    if |documents| < 2 || duplicate {
      return Failed(InvalidInput), [], false;
    }
    var requests := Briefs("classifier", documents, brief);
    exit, grades, called := Workflow(c, documents, requests, parse, DocumentOf, SuspicionRule(allowed, threshold),
                                     false, reviewBrief, parseReview);
    if exit.Returned? {
      SuspicionIs(c, old(c.spawned), documents, parse, allowed, threshold, exit.value);
    }
  }

  function SuspicionRule(allowed: seq<string>, threshold: real): Suggestion -> bool { s => Suspicious(s, allowed, threshold) }

  /** A review is called for by a document without a result, or by a result that asks for one, is not confident enough, or names
      a category that is not offered. */
  lemma {:induction false} SuspicionIs<V>(c: Controller, first: nat, documents: seq<int>, parse: string -> Option<Suggestion>,
                                          allowed: seq<string>, threshold: real, outcome: Outcome<Suggestion, V>)
    requires Sorted(c, first, documents, parse, DocumentOf, outcome)
    ensures CallsForReview(c, first, documents, parse, DocumentOf, SuspicionRule(allowed, threshold)) <==>
            || (exists i :: 0 <= i < |documents| && !DeliversAny(c.fate(first + i), documents[i], parse, DocumentOf))
            || (exists s :: s in outcome.results
                            && (s.needsReview || s.confidence < threshold || (allowed != [] && s.category !in allowed)))
  {
    var rule := SuspicionRule(allowed, threshold);
    if i, s :| 0 <= i < |documents| && Delivers(c.fate(first + i), documents[i], parse, DocumentOf, s) && rule(s) {
      assert s in outcome.results && Suspicious(s, allowed, threshold);
    }
    if s :| s in outcome.results && Suspicious(s, allowed, threshold) {
      var i :| 0 <= i < |documents| && Delivers(c.fate(first + i), documents[i], parse, DocumentOf, s);
      assert rule(s);
    }
  }

  predicate Suspicious(s: Suggestion, allowed: seq<string>, threshold: real) {
    s.needsReview || s.confidence < threshold || (allowed != [] && s.category !in allowed)
  }

  datatype Finding = Finding(branch: string, hypothesis: string)

  function BranchOf(f: Finding): string { f.branch }

  /** Investigates two or more branches; the findings are always reviewed. */
  method InvestigateRootCause<V>(c: Controller, contextGiven: bool, branches: seq<string>, usable: string -> bool,
                                 brief: string -> string,
                                 parse: string -> Option<Finding>, reviewBrief: string, parseReview: string -> Option<V>)
    returns (exit: Exit<Outcome<Finding, V>>, ghost grades: seq<Grade<Finding>>)
    requires c.Valid() && OpenAre(c.trace, 0, 0) && Bounded(c.trace, c.Limit())
    modifies c
    ensures c.Valid() && Bounded(c.trace, Max(1, c.maxConcurrentChildren)) && Unclosed(c.trace) == {}
    ensures !contextGiven || |branches| < 2 || !Distinct(branches) || (exists i :: 0 <= i < |branches| && !usable(branches[i])) ==>
              exit == Failed(InvalidInput) && c.trace == old(c.trace)
    ensures exit.Returned? ==>
              && Graded(c, old(c.spawned), branches, parse, BranchOf, grades)
              && OutcomeOf(c, old(c.spawned), grades, true, exit.value)
              && (forall i :: 0 <= i < |branches| ==>
                    old(c.spawned) + i in Requests(c.trace)
                    && Requests(c.trace)[old(c.spawned) + i] == Request("investigator", brief(branches[i]), None))
    ensures exit.Returned? ==> Sorted(c, old(c.spawned), branches, parse, BranchOf, exit.value)
    ensures c.Cooperates() && exit.Returned? ==>
              EndsWell(c, old(c.spawned), |branches|, c.spawned, true, parseReview, exit.value)
    ensures c.Cooperates() ==> exit.Returned? || exit == Failed(InvalidInput)
    ensures exit == Failed(InvalidInput) ==>
              !contextGiven || |branches| < 2 || !Distinct(branches) || exists i :: 0 <= i < |branches| && !usable(branches[i])
  {
    grades := [];
    assert Unclosed(c.trace) == {};
    var duplicate := HasDuplicate(branches);
    if !contextGiven || |branches| < 2 || duplicate || exists i :: 0 <= i < |branches| && !usable(branches[i]) {
      return Failed(InvalidInput), [];
    }
    var requests := Briefs("investigator", branches, brief);
    ghost var called;
    exit, grades, called := Workflow(c, branches, requests, parse, BranchOf, f => false, true, reviewBrief, parseReview);
  }

  /** Distinct requests give distinct results: no two results of a workflow speak about the same request. */
  lemma {:induction false} ResultsAreDistinct<K, R>(c: Controller, first: nat, keys: seq<K>, parse: string -> Option<R>,
                                                    keyOf: R -> K, grades: seq<Grade<R>>, n: nat)
    requires Distinct(keys) && Graded(c, first, keys, parse, keyOf, grades) && n <= |grades|
    ensures forall r :: r in Results(grades, n) ==> exists i :: 0 <= i < n && keyOf(r) == keys[i]
    ensures forall i, j | 0 <= i < j < |Results(grades, n)| :: keyOf(Results(grades, n)[i]) != keyOf(Results(grades, n)[j])
  {
    if n > 0 {
      ResultsAreDistinct(c, first, keys, parse, keyOf, grades, n - 1);
      var front := Results(grades, n - 1);
      if grades[n - 1].Usable? {
        forall i | 0 <= i < |front| ensures keyOf(front[i]) != keyOf(grades[n - 1].result) {
          assert front[i] in front;
        }
      }
    }
  }
}
