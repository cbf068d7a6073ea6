/**
 Summaries of device query results: workers claim a result, ask a model with no transaction open, and deliver one
 message. A claim that is too old may be taken over, so the claim time doubles as a fencing token.
*/
module SummaryWorker {
  import opened Basics

  datatype Status = Pending | Generating | Completed | Fallback

  datatype Row = Row(content: string, status: Status, startedAt: Option<int>, summary: Option<string>)

  const STALE_AFTER: nat := 300_000_000

  predicate Done(row: Row) { row.status == Completed || row.status == Fallback }

  predicate MayClaim(row: Row, at: int) {
    || row.status == Pending
    || (row.status == Generating && row.startedAt.Some? && row.startedAt.value < at - STALE_AFTER)
  }

  predicate OwnsClaim(row: Row, at: int) { row.status == Generating && row.startedAt == Some(at) }

  /** What one result, its workers and the chat went through; the newest event is last. */
  datatype Event = Claimed(worker: nat, at: int) | Delivered(worker: nat, at: int)

  datatype Log = Start | Then(before: Log, event: Event)

  /** A worker that claimed at `at` and has not ended yet. */
  datatype State = State(row: Option<Row>, working: map<nat, int>, messages: seq<string>, log: Log)

  datatype Step =
    | Create(content: string)
    | Claim(worker: nat, at: int)
    | Finish(worker: nat, text: string, good: bool)
    | Die(worker: nat)

  const INITIAL: State := State(None, map[], [], Start)

  /** Every update is conditional; a step that is not possible leaves the state unchanged. Clocks are not trusted:
      `at` is arbitrary. */
  function Next(s: State, a: Step): State {
    match a
    case Create(content) => if s.row.Some? then s else s.(row := Some(Row(content, Pending, None, None)))
    case Claim(worker, at) =>
      if s.row.None? || worker in s.working || !MayClaim(s.row.value, at) then s
      else State(Some(s.row.value.(status := Generating, startedAt := Some(at))), s.working[worker := at], s.messages,
                 Then(s.log, Claimed(worker, at)))
    case Finish(worker, text, good) =>
      if s.row.None? || worker !in s.working then s
      else if OwnsClaim(s.row.value, s.working[worker]) then
        State(Some(s.row.value.(status := if good then Completed else Fallback, summary := Some(text))),
              s.working - {worker}, s.messages + [text], Then(s.log, Delivered(worker, s.working[worker])))
      else s.(working := s.working - {worker})
    case Die(worker) => s.(working := s.working - {worker})
  }

  function Run(steps: seq<Step>, n: nat): State
    requires n <= |steps|
  {
    if n == 0 then INITIAL else Next(Run(steps, n - 1), steps[n - 1])
  }

  // ---------------------------------------------------------------- fencing

  /** The last claim. */
  function LastClaim(log: Log): Option<Event> {
    if log.Start? then None else if log.event.Claimed? then Some(log.event) else LastClaim(log.before)
  }

  /** Claim times strictly increase, nothing follows a delivery, and a delivery is that of the last claim. */
  predicate Fenced(log: Log) {
    log.Then? ==>
      && Fenced(log.before)
      && (log.before.Then? ==> !log.before.event.Delivered?)
      && match log.event
         case Claimed(_, at) => LastClaim(log.before).Some? ==> LastClaim(log.before).value.at + STALE_AFTER < at
         case Delivered(worker, at) => LastClaim(log.before) == Some(Claimed(worker, at))
  }

  function Deliveries(log: Log): nat {
    if log.Start? then 0 else Deliveries(log.before) + (if log.event.Delivered? then 1 else 0)
  }

  predicate HasDelivered(log: Log) { log.Then? && log.event.Delivered? }

  predicate ClaimedAt(log: Log, worker: nat, at: int) {
    log.Then? && (log.event == Claimed(worker, at) || ClaimedAt(log.before, worker, at))
  }

  ghost predicate Inv(s: State) {
    && Fenced(s.log)
    && (s.row.None? ==> s.log == Start && s.working == map[] && s.messages == [])
    && (forall w :: w in s.working ==> ClaimedAt(s.log, w, s.working[w]))
    && (s.row.Some? ==>
          && (Done(s.row.value) <==> HasDelivered(s.log))
          && (s.row.value.status == Pending <==> s.log == Start)
          && (s.row.value.status == Generating ==>
                LastClaim(s.log).Some? && s.row.value.startedAt == Some(LastClaim(s.log).value.at))
          && s.messages == (if Done(s.row.value) && s.row.value.summary.Some? then [s.row.value.summary.value] else [])
          && (Done(s.row.value) <==> s.row.value.summary.Some?))
  }

  /** In a fenced log the last claim is the latest one in time, and no two claims share a time. */
  lemma {:induction false} ClaimsAreOrdered(log: Log, worker: nat, at: int)
    requires Fenced(log) && ClaimedAt(log, worker, at)
    ensures LastClaim(log).Some? && at <= LastClaim(log).value.at
    ensures at == LastClaim(log).value.at ==> LastClaim(log).value == Claimed(worker, at)
  {
    if log.event != Claimed(worker, at) {
      ClaimsAreOrdered(log.before, worker, at);
    }
  }

  lemma {:induction false} FinishKeepsInv(s: State, a: Step)
    requires Inv(s) && a.Finish?
    ensures Inv(Next(s, a))
  {
    if s.row.Some? && a.worker in s.working && OwnsClaim(s.row.value, s.working[a.worker]) {
      ClaimsAreOrdered(s.log, a.worker, s.working[a.worker]);
    }
  }

  lemma {:induction false} NextKeepsInv(s: State, a: Step)
    requires Inv(s)
    ensures Inv(Next(s, a))
  {
    if a.Finish? {
      FinishKeepsInv(s, a);
    }
  }

  lemma {:induction false} RunInv(steps: seq<Step>, n: nat)
    requires n <= |steps|
    ensures Inv(Run(steps, n))
  {
    if n > 0 {
      RunInv(steps, n - 1);
      NextKeepsInv(Run(steps, n - 1), steps[n - 1]);
    }
  }

  lemma {:induction false} FencedDeliversOnce(log: Log)
    requires Fenced(log)
    ensures Deliveries(log) <= 1 && (Deliveries(log) == 1 <==> HasDelivered(log))
  {
    if log.Then? {
      FencedDeliversOnce(log.before);
    }
  }

  /** However live, late and dead workers interleave: at most one finish succeeds, claim times strictly increase,
      and there is exactly one message, the stored summary, if and only if the result is completed or fallback. */
  lemma {:induction false} DeliveredAtMostOnce(steps: seq<Step>)
    ensures var s := Run(steps, |steps|);
            && Fenced(s.log) && Deliveries(s.log) <= 1 && |s.messages| == Deliveries(s.log)
            && (s.messages != [] <==> s.row.Some? && Done(s.row.value))
            && (s.messages != [] ==> s.row.value.summary == Some(s.messages[0]))
  {
    RunInv(steps, |steps|);
    FencedDeliversOnce(Run(steps, |steps|).log);
  }

  /** A worker delivers if and only if its claim is the last one and nothing was delivered yet: a worker that was
      taken over delivers nothing, whatever its clock said. */
  lemma {:induction false} OnlyLastClaimDelivers(steps: seq<Step>, worker: nat, text: string, good: bool)
    requires worker in Run(steps, |steps|).working
    ensures var s := Run(steps, |steps|);
            var s' := Next(s, Finish(worker, text, good));
            s'.messages == s.messages + [text]
            <==> !HasDelivered(s.log) && LastClaim(s.log) == Some(Claimed(worker, s.working[worker]))
  {
    var s := Run(steps, |steps|);
    RunInv(steps, |steps|);
    ClaimsAreOrdered(s.log, worker, s.working[worker]);
    assert s.messages != s.messages + [text] by {
      assert |s.messages + [text]| == |s.messages| + 1;
    }
  }

  /** Exactly when a claim succeeds, in every run: nothing was delivered yet, and the last claim, if there is one, is more than
      five minutes old. */
  lemma {:induction false} ClaimableExactly(steps: seq<Step>, worker: nat, at: int)
    requires var s := Run(steps, |steps|); s.row.Some? && worker !in s.working
    ensures var s := Run(steps, |steps|);
            worker in Next(s, Claim(worker, at)).working
            <==> !HasDelivered(s.log) && (LastClaim(s.log).Some? ==> LastClaim(s.log).value.at < at - 300_000_000)
  {
    var s := Run(steps, |steps|);
    RunInv(steps, |steps|);
    NoClaimYet(s.log);
  }

  /** The first event is a claim. */
  lemma {:induction false} NoClaimYet(log: Log)
    requires Fenced(log)
    ensures LastClaim(log).None? <==> log.Start?
  {
    if log.Then? {
      NoClaimYet(log.before);
    }
  }

  /** A worker that died does not block the summary: five minutes after the last claim another worker can claim it, and when that
      worker finishes undisturbed the summary is delivered. */
  lemma {:induction false} StuckClaimIsTakenOver(steps: seq<Step>, worker: nat, at: int, text: string, good: bool)
    requires var s := Run(steps, |steps|);
             s.row.Some? && worker !in s.working && !HasDelivered(s.log)
             && (LastClaim(s.log).Some? ==> LastClaim(s.log).value.at < at - 300_000_000)
    ensures var s := Next(Next(Run(steps, |steps|), Claim(worker, at)), Finish(worker, text, good));
            s.messages == [text] && s.row.Some? && s.row.value.summary == Some(text)
            && s.row.value.status == if good then Completed else Fallback
  {
    var s := Run(steps, |steps|);
    RunInv(steps, |steps|);
    NoClaimYet(s.log);
  }

  /** The stored output never changes, and a delivered summary stays. */
  lemma {:induction false} ResultIsKept(steps: seq<Step>, m: nat, n: nat)
    requires m <= n <= |steps| && Run(steps, m).row.Some?
    ensures Run(steps, n).row.Some? && Run(steps, n).row.value.content == Run(steps, m).row.value.content
    ensures Done(Run(steps, m).row.value) ==>
              Run(steps, n).row == Run(steps, m).row && Run(steps, n).messages == Run(steps, m).messages
    decreases n - m
  {
    if m < n {
      ResultIsKept(steps, m, n - 1);
    }
  }

  // ---------------------------------------------------------------- the code of one worker

  datatype Delivery = New(content: string, status: Status) | Existing(content: string, status: Status) | InProgress | NotFound

  lemma {:induction false} RunSnoc(steps: seq<Step>, a: Step, n: nat)
    requires n <= |steps|
    ensures Run(steps + [a], n) == Run(steps, n)
    ensures Run(steps + [a], |steps| + 1) == Next(Run(steps, |steps|), a)
  {
    SamePrefix(steps, a, n);
    SamePrefix(steps, a, |steps|);
  }

  lemma {:induction false} SamePrefix(steps: seq<Step>, a: Step, n: nat)
    requires n <= |steps|
    ensures Run(steps + [a], n) == Run(steps, n)
  {
    if n > 0 {
      SamePrefix(steps, a, n - 1);
    }
  }

  /** The result of one proposal and the run that led to its state. */
  class StoredResult {
    var state: State
    ghost var steps: seq<Step>

    ghost predicate Valid() reads this { state == Run(steps, |steps|) }

    constructor ()
      ensures Valid() && steps == []
    {
      state, steps := INITIAL, [];
    }

    method Await(others: seq<Step>)
      requires Valid()
      modifies this
      ensures Valid() && steps == old(steps) + others
    {
      for i := 0 to |others|
        invariant Valid() && steps == old(steps) + others[..i]
      {
        RunSnoc(steps, others[i], |steps|);
        assert others[..i + 1] == others[..i] + [others[i]];
        state, steps := Next(state, others[i]), steps + [others[i]];
      }
      assert others[..|others|] == others;
    }

    method CreateForProposal(content: string) returns (stored: Row)
      requires Valid()
      modifies this
      ensures Valid() && steps == old(steps) + [Create(content)]
      ensures state.row == Some(stored)
      ensures stored == if old(state).row.Some? then old(state).row.value else Row(content, Pending, None, None)
    {
      RunSnoc(steps, Create(content), |steps|);
      steps := steps + [Create(content)];
      if state.row.Some? {
        return state.row.value;
      }
      stored := Row(content, Pending, None, None);
      state := state.(row := Some(stored));
    }

    method ClaimSummary(worker: nat, at: int, staleBefore: int) returns (claimed: bool)
      requires Valid() && worker !in state.working && staleBefore == at - STALE_AFTER
      modifies this
      ensures Valid() && steps == old(steps) + [Claim(worker, at)]
      ensures claimed <==>
                old(state).row.Some?
                && var row := old(state).row.value;
                   row.status == Pending
                   || (row.status == Generating && row.startedAt.Some? && row.startedAt.value < at - 300_000_000)
      ensures claimed <==> worker in state.working
      ensures claimed ==> state.working[worker] == at && state.row.Some? && OwnsClaim(state.row.value, at)
      ensures !claimed ==> state == old(state)
    {
      RunSnoc(steps, Claim(worker, at), |steps|);
      steps := steps + [Claim(worker, at)];
      if state.row.None? {
        return false;
      }
      var row := state.row.value;
      var expired := row.status == Generating && row.startedAt.Some? && row.startedAt.value < staleBefore;
      claimed := row.status == Pending || expired;
      if claimed {
        state := State(Some(row.(status := Generating, startedAt := Some(at))), state.working[worker := at], state.messages,
                       Then(state.log, Claimed(worker, at)));
      }
    }

    /** The summary and the chat message are written in one transaction, or neither is. */
    method FinishSummary(worker: nat, at: int, text: string, good: bool) returns (finished: bool)
      requires Valid() && worker in state.working && state.working[worker] == at
      modifies this
      ensures Valid() && steps == old(steps) + [Finish(worker, text, good)]
      ensures finished <==>
                old(state).row.Some? && old(state).row.value.status == Generating && old(state).row.value.startedAt == Some(at)
      ensures finished ==> state.row.Some? && Done(state.row.value) && state.row.value.summary == Some(text)
                           && (state.row.value.status == Completed <==> good)
      ensures state.messages == if finished then old(state).messages + [text] else old(state).messages
      ensures !finished ==> state.row == old(state).row
    {
      RunSnoc(steps, Finish(worker, text, good), |steps|);
      steps := steps + [Finish(worker, text, good)];
      finished := state.row.Some? && state.row.value.status == Generating && state.row.value.startedAt == Some(at);
      if finished {
        state := State(Some(state.row.value.(status := if good then Completed else Fallback, summary := Some(text))),
                       state.working - {worker}, state.messages + [text], Then(state.log, Delivered(worker, at)));
      } else if state.row.Some? {
        state := state.(working := state.working - {worker});
      }
    }

    function ExistingDelivery(): Delivery
      reads this
    {
      if state.row.None? then NotFound
      else if !Done(state.row.value) || state.row.value.summary.None? then InProgress
      else Existing(state.row.value.summary.value, state.row.value.status)
    }

    /** A claimed worker's way to the end: ask the model while others go on, then deliver or report what is there. */
    method Finalize(worker: nat, at: int, others: seq<Step>, reply: Option<string>, echoes: bool, fallback: string)
      returns (delivery: Delivery)
      requires Valid() && worker in state.working && state.working[worker] == at && state.row.Some?
      requires forall i :: 0 <= i < |others| ==> !Mine(others[i], worker)
      modifies this
      ensures Valid() && !delivery.NotFound? && state.row.Some?
      ensures var good := reply.Some? && !echoes;
              steps == old(steps) + others + [Finish(worker, if good then reply.value else fallback, good)]
      ensures delivery.New? <==>
                var s := Run(old(steps) + others, |old(steps) + others|); s.row.Some? && OwnsClaim(s.row.value, at)
      ensures delivery.InProgress? ==> !Done(state.row.value)
      ensures delivery.New? ==>
                && state.messages == [delivery.content] && state.row.value.summary == Some(delivery.content)
                && state.row.value.status == delivery.status
                && (delivery.status == Completed ==> reply == Some(delivery.content) && !echoes)
                && (delivery.status == Fallback ==> (reply.None? || echoes) && delivery.content == fallback)
      ensures delivery.Existing? ==> state.messages == [delivery.content] && state.row.value.status == delivery.status
      ensures delivery.New? ==> delivery.status == (if reply.Some? && !echoes then Completed else Fallback)
    {
      OthersKeepMine(steps, others, worker, at);
      Await(others);
      var good := reply.Some? && !echoes;
      var text := if good then reply.value else fallback;
      var finished := FinishSummary(worker, at, text, good);
      DeliveredAtMostOnce(steps);
      if !finished {
        return ExistingDelivery();
      }
      return New(text, if good then Completed else Fallback);
    }

    /** One worker. `isDeviceQuery` is what the proposal says; `reply` is the model's summary, or nothing when the call
        failed or came back empty; `others` is what other workers do while the model is asked. */
    method Deliver(worker: nat, at: int, isDeviceQuery: bool, others: seq<Step>, reply: Option<string>, echoes: bool, fallback: string)
      returns (delivery: Delivery)
      requires Valid() && worker !in state.working
      requires forall i :: 0 <= i < |others| ==> !Mine(others[i], worker)
      modifies this
      ensures Valid()
      ensures delivery.New? ==>
                && state.messages == [delivery.content] && state.row.Some? && state.row.value.summary == Some(delivery.content)
                && state.row.value.status == delivery.status
                && (delivery.status == Completed ==> reply == Some(delivery.content) && !echoes)
                && (delivery.status == Fallback ==> (reply.None? || echoes) && delivery.content == fallback)
      ensures delivery.Existing? ==>
                state.messages == [delivery.content] && state.row.Some? && state.row.value.status == delivery.status
      ensures delivery.NotFound? <==> old(state).row.None? || !isDeviceQuery
      ensures isDeviceQuery && old(state).row.Some? ==>
                && (old(state).row.value.status == Completed || old(state).row.value.status == Fallback ==> delivery.Existing?)
                && (delivery.InProgress? ==> state.row.Some? && !Done(state.row.value))
                && var row := old(state).row.value;
                   var free := row.status == Pending
                               || (row.status == Generating && row.startedAt.Some? && row.startedAt.value < at - 300_000_000);
                   && (others == [] && free ==> delivery.New?)
                   && (row.status == Generating && !free ==> delivery.InProgress?)
      ensures delivery.NotFound? ==> steps == old(steps)
      ensures delivery.New? ==> delivery.status == (if reply.Some? && !echoes then Completed else Fallback)
    {
      if !isDeviceQuery || state.row.None? {
        return NotFound;
      }
      DeliveredAtMostOnce(steps);
      if Done(state.row.value) {
        return ExistingDelivery();
      }
      var claimed := ClaimSummary(worker, at, at - STALE_AFTER);
      if !claimed {
        return ExistingDelivery();
      }
      assert others == [] ==> steps + others == steps;
      delivery := Finalize(worker, at, others, reply, echoes, fallback);
    }
  }

  predicate Mine(a: Step, worker: nat) { !a.Create? && a.worker == worker }

  lemma {:induction false} OthersKeepMine(steps: seq<Step>, others: seq<Step>, worker: nat, at: int)
    requires forall i :: 0 <= i < |others| ==> !Mine(others[i], worker)
    requires var s := Run(steps, |steps|); s.row.Some? && worker in s.working && s.working[worker] == at
    ensures var s := Run(steps + others, |steps + others|); s.row.Some? && worker in s.working && s.working[worker] == at
    decreases |others|
  {
    if others == [] {
      assert steps + others == steps;
    } else {
      var front, last := others[..|others| - 1], others[|others| - 1];
      OthersKeepMine(steps, front, worker, at);
      assert steps + others == (steps + front) + [last];
      RunSnoc(steps + front, last, |steps + front|);
    }
  }
}
