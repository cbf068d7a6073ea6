/**
 The agent loop: call the model, handle every tool call it asks for, append the results, repeat. The model, the
 tools and everybody else's steps are arbitrary; what the loop guarantees does not depend on them.
*/
module RunLoop {
  import opened Basics
  import opened Transcript
  import Compaction
  import opened ModelWindow
  import opened BudgetTracking
  import opened Compactor

  datatype Control = Fine | Rejected | Failed | Clarification | PendingApproval

  /** One tool call: dispatched to the tool, answered by the hook in its place, or ended by an exception. */
  datatype Handling = Dispatched(control: Control, content: string) | Blocked(control: Control, content: string) | Broken

  datatype Reply = Reply(error: bool, content: string, calls: seq<Call>, cost: real, prompt: int, completion: int,
                         modelKey: ModelKey)

  datatype Reason = FinalAnswer | BudgetExceeded | EarlyExit | LlmError

  datatype Ended =
    | Stopped(reason: Reason, answer: Option<string>, control: Option<Control>, usageIndex: Option<nat>)
    | Raised

  const MAX_FAILED_ROUNDS: nat := 3
  const SKIPPED: string := "skipped: waiting for the result of the previous tool call"

  /** Everything outside of the loop, by step number. */
  datatype World = World(
    others: nat -> seq<Compaction.Step>,
    whileSummarising: nat -> seq<Compaction.Step>,
    summary: nat -> Summary,
    threshold: nat,
    estimate: seq<Message> -> nat,
    reply: nat -> Reply,
    handling: (nat, nat) -> Handling)

  /** What one step did: the summariser's charge if it was called, what the model was shown and answered, how the
      calls of its answer were handled, in order, and whether the money was over the limit as the model was called. */
  datatype Record = Record(summary: Option<real>, history: seq<Entry>, reply: Option<Reply>, handled: seq<Handling>,
                           overAtCall: bool)

  predicate IsFailure(h: Handling) {
    !h.Broken? && (h.control == Rejected || h.control == Failed || h.control == Clarification)
  }

  predicate Pauses(h: Handling) { !h.Broken? && h.control == PendingApproval }

  predicate AllFailed(r: Record) {
    r.handled != [] && forall i :: 0 <= i < |r.handled| ==> IsFailure(r.handled[i])
  }

  /** How many of the first `n` rounds, counted from the last of them, failed altogether. */
  function FailedTail(records: seq<Record>, n: nat): nat
    requires n <= |records|
  {
    if n == 0 || !AllFailed(records[n - 1]) then 0 else 1 + FailedTail(records, n - 1)
  }

  // ---------------------------------------------------------------- the rows of a turn

  function ResultRow(call: Call, content: string): Message { Message(Tool, content, [], Some(call.id), None) }

  function AssistantRow(content: string, calls: seq<Call>): Message { Message(Assistant, content, calls, None, None) }

  /** The result row of call `i`; calls after a pause are answered with a note. */
  function CallRow(calls: seq<Call>, handled: seq<Handling>, i: nat): Message
    requires i < |calls|
  {
    ResultRow(calls[i], if i < |handled| && !handled[i].Broken? then handled[i].content else SKIPPED)
  }

  /** The rows of a round: the reply, then one result per call, in order. */
  function RoundRows(content: string, calls: seq<Call>, handled: seq<Handling>): seq<Message> {
    [AssistantRow(content, calls)] + seq(|calls|, i requires 0 <= i < |calls| => CallRow(calls, handled, i))
  }

  function RecordRows(r: Record): seq<Message> {
    if r.reply.None? || r.reply.value.error || !ValidCharge(r.reply.value) then []
    else if r.reply.value.calls == [] then [AssistantRow(r.reply.value.content, [])]
    else if r.handled == [] || r.handled[|r.handled| - 1].Broken? then []
    else RoundRows(r.reply.value.content, r.reply.value.calls, r.handled)
  }

  /** The rows of the first `n` steps. */
  function Rows(records: seq<Record>, n: nat): seq<Message>
    requires n <= |records|
  {
    if n == 0 then [] else Rows(records, n - 1) + RecordRows(records[n - 1])
  }

  /** How many rows a step leaves. */
  function Count(r: Record): nat {
    if r.reply.None? || r.reply.value.error || !ValidCharge(r.reply.value) then 0
    else if r.reply.value.calls == [] then 1
    else if r.handled == [] || r.handled[|r.handled| - 1].Broken? then 0
    else 1 + |r.reply.value.calls|
  }

  function RowCount(records: seq<Record>, n: nat): nat
    requires n <= |records|
  {
    if n == 0 then 0 else RowCount(records, n - 1) + Count(records[n - 1])
  }

  lemma {:induction false} FirstRow(r: Record)
    ensures |RecordRows(r)| == Count(r)
    ensures Count(r) > 0 ==>
              r.reply.Some? && RecordRows(r)[0] == AssistantRow(r.reply.value.content, r.reply.value.calls)
  {
  }

  lemma {:induction false} RowsCounted(records: seq<Record>, n: nat)
    requires n <= |records|
    ensures |Rows(records, n)| == RowCount(records, n)
  {
    if n > 0 {
      RowsCounted(records, n - 1);
      FirstRow(records[n - 1]);
    }
  }

  lemma {:induction false} RecordIsLegal(r: Record)
    ensures WellFormed(RecordRows(r))
  {
    var rows := RecordRows(r);
    if rows != [] {
      assert UnitSize(rows[0]) == |rows| && UnitAt(rows, 0);
    }
  }

  /** Whatever the model and the tools do, a step leaves the rows of the turn a legal history. */
  lemma {:induction false} StillLegal(rows: seq<Message>, r: Record)
    requires WellFormed(rows)
    ensures WellFormed(rows + RecordRows(r))
  {
    RecordIsLegal(r);
    WellFormedConcat(rows, RecordRows(r));
  }

  lemma {:induction false} TurnIsLegal(records: seq<Record>, n: nat)
    requires n <= |records|
    ensures WellFormed(Rows(records, n))
  {
    if n > 0 {
      TurnIsLegal(records, n - 1);
      StillLegal(Rows(records, n - 1), records[n - 1]);
    }
  }

  // ---------------------------------------------------------------- what a turn may do

  /** What a step charged. A failed reply is not charged, an invalid charge is refused. */
  function Charge(r: Record): real {
    SummaryCharge(r)
    + (if r.reply.Some? && !r.reply.value.error && ValidCharge(r.reply.value) then r.reply.value.cost else 0.0)
  }

  function SummaryCharge(r: Record): real { if r.summary.Some? then r.summary.value else 0.0 }

  predicate ValidCharge(reply: Reply) { reply.cost >= 0.0 && reply.prompt >= 0 && reply.completion >= 0 }

  /** What the first `n` steps charged. */
  function Spent(records: seq<Record>, n: nat): real
    requires n <= |records|
  {
    if n == 0 then 0.0 else Spent(records, n - 1) + Charge(records[n - 1])
  }

  /** Every model call is shown the instructions, the summary and a legal stretch of the transcript. */
  ghost predicate LegalPrompt(history: seq<Entry>, systemPrompt: Option<string>, isRoot: bool) {
    exists summary: Option<string>, shown: seq<Message> ::
      WellFormed(shown) && PromptIs(history, systemPrompt, summary, shown) && (summary.Some? ==> isRoot)
  }

  /** What step `k` did came from the world, for its own step and call numbers. */
  predicate FromWorld(r: Record, k: nat, world: World, isRoot: bool) {
    && (r.summary.Some? ==> isRoot && r.summary.value == world.summary(k).cost && r.summary.value >= 0.0)
    && (r.reply.Some? ==> r.reply.value == world.reply(k))
    && (r.reply.None? ==> isRoot && world.summary(k).cost < 0.0 && r.summary.None?)
    && (forall i :: 0 <= i < |r.handled| ==> r.handled[i] == world.handling(k, i))
  }

  /** Calls are handled only when the reply was paid for and the budget holds; then all of them are, in order, up
      to the first that pauses or breaks the turn. */
  predicate WellHandled(r: Record, over: bool) {
    if r.reply.None? || r.reply.value.error || !ValidCharge(r.reply.value) || over then r.handled == []
    else
      && |r.handled| <= |r.reply.value.calls| && (r.handled == [] ==> r.reply.value.calls == [])
      && (forall i :: 0 <= i < |r.handled| - 1 ==> !r.handled[i].Broken? && !Pauses(r.handled[i]))
      && (0 < |r.handled| < |r.reply.value.calls| ==> r.handled[|r.handled| - 1].Broken? || Pauses(r.handled[|r.handled| - 1]))
  }

  /** How a step ends the turn, if it does. `failed` counts the failed rounds in a row, this one included, and
      `rows` the rows of the turn before it. */
  function Verdict(r: Record, over: bool, failed: nat, rows: nat): Option<Ended> {
    if r.reply.None? then Some(Ended.Raised)
    else if r.reply.value.error then Some(Stopped(LlmError, None, None, None))
    else if !ValidCharge(r.reply.value) then Some(Ended.Raised)
    else if r.reply.value.calls == [] then Some(Stopped(FinalAnswer, Some(r.reply.value.content), None, Some(rows)))
    else if over || r.handled == [] then Some(Stopped(BudgetExceeded, None, None, None))
    else
      var last := r.handled[|r.handled| - 1];
      if last.Broken? then Some(Ended.Raised)
      else if Pauses(last) then Some(Stopped(EarlyExit, None, Some(PendingApproval), Some(rows)))
      else if failed >= MAX_FAILED_ROUNDS then Some(Stopped(EarlyExit, None, Some(last.control), None))
      else None
  }

  function Over(records: seq<Record>, k: nat, used: real, max: real): bool
    requires k < |records|
  {
    used + Spent(records, k + 1) > max
  }

  /** The limit was crossed by the time step `k` came to its model call. */
  function Crossed(records: seq<Record>, k: nat, used: real, max: real): bool
    requires k < |records|
  {
    used + Spent(records, k) + SummaryCharge(records[k]) > max
  }

  function VerdictAt(records: seq<Record>, k: nat, used: real, max: real): Option<Ended>
    requires k < |records|
  {
    Verdict(records[k], Over(records, k, used, max), FailedTail(records, k + 1), RowCount(records, k))
  }

  ghost predicate StepAt(records: seq<Record>, k: nat, used: real, max: real, world: World, isRoot: bool, systemPrompt: Option<string>)
    requires k < |records|
  {
    && FromWorld(records[k], k, world, isRoot)
    && WellHandled(records[k], Over(records, k, used, max))
    && (records[k].reply.Some? ==> LegalPrompt(records[k].history, systemPrompt, isRoot))
    && (records[k].overAtCall <==> records[k].reply.Some? && Crossed(records, k, used, max))
  }

  /** The first `n` steps are the world's and none of them ends the turn. */
  ghost predicate Going(records: seq<Record>, n: nat, used: real, max: real, world: World, isRoot: bool, systemPrompt: Option<string>)
    requires n <= |records|
  {
    && (forall k :: 0 <= k < |records| ==> StepAt(records, k, used, max, world, isRoot, systemPrompt))
    && (forall k :: 0 <= k < n ==> VerdictAt(records, k, used, max).None?)
  }

  /** A whole turn: no more steps than were left, and it ends as its last step says, or because no step was left. */
  ghost predicate Turn(records: seq<Record>, ended: Ended, used: real, max: real, left: int, world: World,
                       isRoot: bool, systemPrompt: Option<string>)
  {
    && |records| <= Max(0, left)
    && Going(records, Max(0, |records| - 1), used, max, world, isRoot, systemPrompt)
    && if records == [] || VerdictAt(records, |records| - 1, used, max).None?
       then |records| >= left && ended == Stopped(BudgetExceeded, None, None, None)
       else VerdictAt(records, |records| - 1, used, max) == Some(ended)
  }

  /** A step whose verdict ends the turn is the last one. */
  lemma {:induction false} LastVerdict(records: seq<Record>, ended: Ended, used: real, max: real, left: int, world: World,
                                       isRoot: bool, systemPrompt: Option<string>, k: nat)
    requires Turn(records, ended, used, max, left, world, isRoot, systemPrompt)
    requires k < |records| && VerdictAt(records, k, used, max).Some?
    ensures k == |records| - 1 && VerdictAt(records, k, used, max) == Some(ended)
  {
  }

  /** Once the money is over the limit no tool is dispatched and no further step follows, so at most the one model
      call of that step was made, even when the summariser's charge crossed the limit before it. */
  lemma {:induction false} OverBudgetStops(records: seq<Record>, ended: Ended, used: real, max: real, left: int,
                                           world: World, isRoot: bool, systemPrompt: Option<string>, k: nat)
    requires Turn(records, ended, used, max, left, world, isRoot, systemPrompt)
    requires k < |records| && used + Spent(records, k + 1) > max
    ensures k == |records| - 1 && records[k].handled == []
  {
    assert StepAt(records, k, used, max, world, isRoot, systemPrompt);
    LastVerdict(records, ended, used, max, left, world, isRoot, systemPrompt, k);
  }

  lemma {:induction false} WithinBefore(records: seq<Record>, n: nat, used: real, max: real, world: World, isRoot: bool,
                                        systemPrompt: Option<string>, k: nat)
    requires k <= n <= |records| && Going(records, n, used, max, world, isRoot, systemPrompt) && used <= max
    ensures used + Spent(records, k) <= max
  {
    if k > 0 {
      assert VerdictAt(records, k - 1, used, max).None?;
    }
  }

  /** The model is called over the limit at most once in a turn that starts within it, in its last step, whose calls are not
      handled; and it was the summariser's charge of that step that crossed the limit, so the turn is a root turn. */
  lemma {:induction false} OverLimitCallIsLast(records: seq<Record>, ended: Ended, used: real, max: real, left: int,
                                               world: World, isRoot: bool, systemPrompt: Option<string>, k: nat)
    requires Turn(records, ended, used, max, left, world, isRoot, systemPrompt) && used <= max
    requires k < |records| && records[k].overAtCall
    ensures k == |records| - 1 && records[k].handled == []
    ensures isRoot && records[k].summary.Some? && used + Spent(records, k) <= max
            && used + Spent(records, k) + records[k].summary.value > max
  {
    assert StepAt(records, k, used, max, world, isRoot, systemPrompt);
    WithinBefore(records, |records| - 1, used, max, world, isRoot, systemPrompt, k);
    LastVerdict(records, ended, used, max, left, world, isRoot, systemPrompt, k);
  }

  function OverLimitCalls(records: seq<Record>, n: nat): nat
    requires n <= |records|
  {
    if n == 0 then 0 else OverLimitCalls(records, n - 1) + (if records[n - 1].overAtCall then 1 else 0)
  }

  lemma {:induction false} NoneOverLimit(records: seq<Record>, n: nat)
    requires n <= |records| && forall k :: 0 <= k < n ==> !records[k].overAtCall
    ensures OverLimitCalls(records, n) == 0
  {
    if n > 0 {
      NoneOverLimit(records, n - 1);
    }
  }

  /** Exactly when a turn that starts within the limit calls the model over it, and then once: its last step made a model call
      after its summary was charged past the limit. */
  lemma {:induction false} OverLimitCallsExactly(records: seq<Record>, ended: Ended, used: real, max: real, left: int,
                                                 world: World, isRoot: bool, systemPrompt: Option<string>)
    requires Turn(records, ended, used, max, left, world, isRoot, systemPrompt) && used <= max
    ensures OverLimitCalls(records, |records|)
            == var n := |records| - 1;
               if records != [] && records[n].reply.Some? && records[n].summary.Some?
                  && used + Spent(records, n) + records[n].summary.value > max
               then 1 else 0
    ensures OverLimitCalls(records, |records|) > 0 ==> isRoot
  {
    if records != [] {
      var n := |records| - 1;
      forall k | 0 <= k < n ensures !records[k].overAtCall {
        if records[k].overAtCall {
          OverLimitCallIsLast(records, ended, used, max, left, world, isRoot, systemPrompt, k);
        }
      }
      NoneOverLimit(records, n);
      WithinBefore(records, n, used, max, world, isRoot, systemPrompt, n);
      assert StepAt(records, n, used, max, world, isRoot, systemPrompt);
    }
  }

  /** Such a turn: nothing spent of a limit of one, a summary for two, and the model is still asked for its answer. */
  lemma {:induction false} SummaryCrossesTheLimit(estimate: seq<Message> -> nat) returns (world: World, records: seq<Record>)
    ensures Turn(records, Stopped(FinalAnswer, Some("done"), None, Some(0)), 0.0, 1.0, 1, world, true, None)
    ensures |records| == 1 && records[0].overAtCall && records[0].summary == Some(2.0)
  {
    var reply := Reply(false, "done", [], 0.5, 10, 1, 0);
    world := World(n => [], n => [], n => Summary(false, Some("so far"), 2.0), 0, estimate, n => reply, (n, i) => Broken);
    var history := [];
    assert WellFormed([]) && PromptIs(history, None, None, []);
    records := [Record(Some(2.0), history, Some(reply), [], true)];
    assert LegalPrompt(history, None, true);
    OneRecord(records[0]);
    assert VerdictAt(records, 0, 0.0, 1.0) == Some(Stopped(FinalAnswer, Some("done"), None, Some(0)));
    assert StepAt(records, 0, 0.0, 1.0, world, true, None);
  }

  lemma {:induction false} OneRecord(r: Record)
    ensures [] + [r] == [r] && Spent([r], 1) == Charge(r) && Spent([r], 0) == 0.0 && RowCount([r], 0) == 0
  {
  }

  /** Nothing is handled after a call that waits for an approval, and the turn ends with it. */
  lemma {:induction false} PauseStops(records: seq<Record>, ended: Ended, used: real, max: real, left: int, world: World,
                                      isRoot: bool, systemPrompt: Option<string>, k: nat, i: nat)
    requires Turn(records, ended, used, max, left, world, isRoot, systemPrompt)
    requires k < |records| && i < |records[k].handled| && Pauses(records[k].handled[i])
    ensures k == |records| - 1 && i == |records[k].handled| - 1
    ensures ended == Stopped(EarlyExit, None, Some(PendingApproval), Some(RowCount(records, k)))
  {
    assert StepAt(records, k, used, max, world, isRoot, systemPrompt);
    LastVerdict(records, ended, used, max, left, world, isRoot, systemPrompt, k);
  }

  function ModelCalls(records: seq<Record>, n: nat): nat
    requires n <= |records|
  {
    if n == 0 then 0 else ModelCalls(records, n - 1) + (if records[n - 1].reply.Some? then 1 else 0)
  }

  function SummariserCalls(records: seq<Record>, n: nat): nat
    requires n <= |records|
  {
    if n == 0 then 0 else SummariserCalls(records, n - 1) + (if records[n - 1].summary.Some? then 1 else 0)
  }

  lemma {:induction false} OneCallAStep(records: seq<Record>, n: nat)
    requires n <= |records|
    ensures ModelCalls(records, n) <= n && SummariserCalls(records, n) <= n
  {
    if n > 0 {
      OneCallAStep(records, n - 1);
    }
  }

  /** At most as many model calls, and as many summariser calls, as steps were left; no summariser call for a child. */
  lemma {:induction false} CallsWithinSteps(records: seq<Record>, ended: Ended, used: real, max: real, left: int,
                                            world: World, isRoot: bool, systemPrompt: Option<string>)
    requires Turn(records, ended, used, max, left, world, isRoot, systemPrompt)
    ensures ModelCalls(records, |records|) <= Max(0, left) && SummariserCalls(records, |records|) <= Max(0, left)
    ensures !isRoot ==> forall k :: 0 <= k < |records| ==> records[k].summary.None?
  {
    OneCallAStep(records, |records|);
    forall k | 0 <= k < |records| && !isRoot ensures records[k].summary.None? {
      assert StepAt(records, k, used, max, world, isRoot, systemPrompt);
    }
  }

  lemma {:induction false} ThreeInARow(records: seq<Record>, k: nat)
    requires k + 3 <= |records| && AllFailed(records[k]) && AllFailed(records[k + 1]) && AllFailed(records[k + 2])
    ensures FailedTail(records, k + 3) == 3 + FailedTail(records, k)
  {
    assert FailedTail(records, k + 1) == 1 + FailedTail(records, k);
    assert FailedTail(records, k + 2) == 1 + FailedTail(records, k + 1);
  }

  /** Three failed rounds in a row end the turn, with the control of the last failure. */
  lemma {:induction false} ThreeFailuresStop(records: seq<Record>, ended: Ended, used: real, max: real, left: int,
                                             world: World, isRoot: bool, systemPrompt: Option<string>, k: nat)
    requires Turn(records, ended, used, max, left, world, isRoot, systemPrompt)
    requires k + 3 <= |records| && AllFailed(records[k]) && AllFailed(records[k + 1]) && AllFailed(records[k + 2])
    ensures k + 3 == |records| && ended.Stopped? && ended.reason == EarlyExit
    ensures var last := records[k + 2].handled; ended.control == Some(last[|last| - 1].control)
  {
    ThreeInARow(records, k);
    FailedRoundEnds(records, k + 2, used, max, world, isRoot, systemPrompt);
    LastVerdict(records, ended, used, max, left, world, isRoot, systemPrompt, k + 2);
  }

  lemma {:induction false} FailedRoundEnds(records: seq<Record>, k: nat, used: real, max: real, world: World,
                                           isRoot: bool, systemPrompt: Option<string>)
    requires k < |records| && StepAt(records, k, used, max, world, isRoot, systemPrompt)
    requires AllFailed(records[k]) && FailedTail(records, k + 1) >= MAX_FAILED_ROUNDS
    ensures var last := records[k].handled;
            VerdictAt(records, k, used, max) == Some(Stopped(EarlyExit, None, Some(last[|last| - 1].control), None))
  {
    var last := records[k].handled;
    assert IsFailure(last[|last| - 1]);
  }

  // ---------------------------------------------------------------- exactly when a turn ends how

  lemma {:induction false} TailIsFailed(records: seq<Record>, n: nat, d: nat)
    requires n <= |records| && d < FailedTail(records, n)
    ensures d < n && AllFailed(records[n - 1 - d])
  {
    if d > 0 {
      TailIsFailed(records, n - 1, d - 1);
    }
  }

  /** Every handled call of a round was rejected, failed, or asked for a clarification, and there was one. */
  predicate RoundOfFailures(r: Record) {
    r.handled != [] && forall i :: 0 <= i < |r.handled| ==>
                         !r.handled[i].Broken? && r.handled[i].control in {Rejected, Failed, Clarification}
  }

  predicate WaitsForApproval(r: Record) {
    exists i :: 0 <= i < |r.handled| && !r.handled[i].Broken? && r.handled[i].control == PendingApproval
  }

  lemma {:induction false} RoundFailed(r: Record)
    ensures AllFailed(r) <==> RoundOfFailures(r)
  {
  }

  /** Exactly when a turn exits early: a call of its last round waits for an approval, or its last three rounds, and not
      fewer, were nothing but failures. */
  lemma {:induction false} EarlyExitExactly(records: seq<Record>, ended: Ended, used: real, max: real, left: int,
                                            world: World, isRoot: bool, systemPrompt: Option<string>)
    requires Turn(records, ended, used, max, left, world, isRoot, systemPrompt)
    ensures var n := |records|;
            ended.Stopped? && ended.reason == EarlyExit <==>
            || (n >= 1 && WaitsForApproval(records[n - 1]))
            || (n >= 3 && RoundOfFailures(records[n - 1]) && RoundOfFailures(records[n - 2]) && RoundOfFailures(records[n - 3]))
  {
    var n := |records|;
    if ended.Stopped? && ended.reason == EarlyExit {
      assert StepAt(records, n - 1, used, max, world, isRoot, systemPrompt);
      var last := records[n - 1].handled;
      assert last != [] && !last[|last| - 1].Broken?;
      if !Pauses(last[|last| - 1]) {
        TailIsFailed(records, n, 0);
        TailIsFailed(records, n, 1);
        TailIsFailed(records, n, 2);
        RoundFailed(records[n - 1]);
        RoundFailed(records[n - 2]);
        RoundFailed(records[n - 3]);
      }
    } else {
      if n >= 1 {
        var last := records[n - 1];
        forall i | 0 <= i < |last.handled| ensures !Pauses(last.handled[i]) {
          if Pauses(last.handled[i]) {
            PauseStops(records, ended, used, max, left, world, isRoot, systemPrompt, n - 1, i);
          }
        }
      }
      if n >= 3 && RoundOfFailures(records[n - 1]) && RoundOfFailures(records[n - 2]) && RoundOfFailures(records[n - 3]) {
        RoundFailed(records[n - 1]);
        RoundFailed(records[n - 2]);
        RoundFailed(records[n - 3]);
        ThreeFailuresStop(records, ended, used, max, left, world, isRoot, systemPrompt, n - 3);
      }
    }
  }

  /** The last reply came, was no error, and can be booked. */
  predicate Booked(records: seq<Record>) {
    records != []
    && var reply := records[|records| - 1].reply;
    reply.Some? && !reply.value.error && reply.value.cost >= 0.0 && reply.value.prompt >= 0 && reply.value.completion >= 0
  }

  /** Exactly when a turn ends with an answer: its last reply asks for no call. The answer is that reply. */
  lemma {:induction false} FinalAnswerExactly(records: seq<Record>, ended: Ended, used: real, max: real, left: int,
                                              world: World, isRoot: bool, systemPrompt: Option<string>)
    requires Turn(records, ended, used, max, left, world, isRoot, systemPrompt)
    ensures ended.Stopped? && ended.reason == FinalAnswer <==>
            Booked(records) && records[|records| - 1].reply.value.calls == []
    ensures ended.Stopped? ==>
              (ended.answer.Some? <==> ended.reason == FinalAnswer)
              && (ended.answer.Some? ==> ended.answer.value == records[|records| - 1].reply.value.content)
              && (ended.usageIndex.Some? <==>
                    ended.reason == FinalAnswer || (ended.reason == EarlyExit && ended.control == Some(PendingApproval)))
  {
    if records != [] {
      assert StepAt(records, |records| - 1, used, max, world, isRoot, systemPrompt);
    }
  }

  /** Exactly when a turn ends with a model error, and exactly when it raises: compaction was charged an invalid sum, the reply
      was, or the handling of a call broke. */
  lemma {:induction false} ErrorsExactly(records: seq<Record>, ended: Ended, used: real, max: real, left: int, world: World,
                                         isRoot: bool, systemPrompt: Option<string>)
    requires Turn(records, ended, used, max, left, world, isRoot, systemPrompt)
    ensures ended.Stopped? && ended.reason == LlmError <==>
            records != [] && records[|records| - 1].reply.Some? && records[|records| - 1].reply.value.error
    ensures ended.Raised? <==>
            records != []
            && var last := records[|records| - 1];
            || last.reply.None?
            || (!last.reply.value.error && !Booked(records))
            || exists i :: 0 <= i < |last.handled| && last.handled[i].Broken?
  {
    if records != [] {
      var last := records[|records| - 1];
      assert StepAt(records, |records| - 1, used, max, world, isRoot, systemPrompt);
      if ended.Raised? && last.handled != [] {
        assert last.handled[|last.handled| - 1].Broken?;
      }
    }
  }

  /** A turn says that the budget is exceeded only when no step was left or the money is over the limit, and then no call of
      its last step was handled unless it was the last step left. */
  lemma {:induction false} OnlyLimitsExceed(records: seq<Record>, ended: Ended, used: real, max: real, left: int,
                                            world: World, isRoot: bool, systemPrompt: Option<string>)
    requires Turn(records, ended, used, max, left, world, isRoot, systemPrompt)
    requires ended.Stopped? && ended.reason == BudgetExceeded
    ensures |records| >= left || (used + Spent(records, |records|) > max && records[|records| - 1].handled == [])
  {
    if records != [] {
      assert StepAt(records, |records| - 1, used, max, world, isRoot, systemPrompt);
    }
  }

  /** The rows of a round in full: the reply with its calls, then for each call its own result, or the note for a skipped one. */
  lemma {:induction false} RowsOfRound(r: Record, i: nat)
    requires r.reply.Some? && i < |r.reply.value.calls| && RecordRows(r) != []
    ensures var reply := r.reply.value;
            && |RecordRows(r)| == 1 + |reply.calls|
            && RecordRows(r)[0] == Message(Assistant, reply.content, reply.calls, None, None)
            && RecordRows(r)[1 + i].role == Tool && RecordRows(r)[1 + i].answers == Some(reply.calls[i].id)
            && RecordRows(r)[1 + i].calls == [] && RecordRows(r)[1 + i].id == None
            && (i < |r.handled| && !r.handled[i].Broken? ==> RecordRows(r)[1 + i].content == r.handled[i].content)
            && (i >= |r.handled| ==> RecordRows(r)[1 + i].content == "skipped: waiting for the result of the previous tool call")
  {
  }

  /** The row that carries the usage of the turn is the reply that ended it. */
  lemma {:induction false} UsageRowIsTheReply(records: seq<Record>, ended: Ended, used: real, max: real, left: int,
                                              world: World, isRoot: bool, systemPrompt: Option<string>)
    requires Turn(records, ended, used, max, left, world, isRoot, systemPrompt)
    requires ended.Stopped? && ended.usageIndex.Some?
    ensures records != [] && records[|records| - 1].reply.Some? && ended.usageIndex.value < |Rows(records, |records|)|
    ensures var reply := records[|records| - 1].reply.value;
            Rows(records, |records|)[ended.usageIndex.value] == AssistantRow(reply.content, reply.calls)
  {
    var n := |records| - 1;
    RowsCounted(records, n);
    FirstRow(records[n]);
    SplitAt(Rows(records, n), RecordRows(records[n]));
  }

  lemma {:induction false} SplitAt(a: seq<Message>, b: seq<Message>)
    requires b != []
    ensures (a + b)[|a|] == b[0]
  {
  }

  // ---------------------------------------------------------------- the loop

  lemma {:induction false} Frame(records: seq<Record>, r: Record, n: nat)
    requires n <= |records|
    ensures Rows(records + [r], n) == Rows(records, n)
    ensures Spent(records + [r], n) == Spent(records, n)
    ensures FailedTail(records + [r], n) == FailedTail(records, n)
    ensures RowCount(records + [r], n) == RowCount(records, n)
  {
    if n > 0 {
      Frame(records, r, n - 1);
    }
  }

  predicate Totals(records: seq<Record>, rows: seq<Message>, spent: real, failed: nat) {
    Rows(records, |records|) == rows && Spent(records, |records|) == spent && FailedTail(records, |records|) == failed
  }

  lemma {:induction false} OneMoreTotals(records: seq<Record>, r: Record, rows: seq<Message>, spent: real, failed: nat)
    requires Totals(records, rows, spent, failed)
    ensures Totals(records + [r], rows + RecordRows(r), spent + Charge(r), if AllFailed(r) then 1 + failed else 0)
    ensures Rows(records + [r], |records|) == rows
  {
    Frame(records, r, |records|);
  }

  /** One more step of a turn that goes on. */
  lemma {:induction false} OneMoreStep(records: seq<Record>, r: Record, used: real, max: real, world: World, isRoot: bool,
                                       systemPrompt: Option<string>)
    requires Going(records, |records|, used, max, world, isRoot, systemPrompt)
    requires StepAt(records + [r], |records|, used, max, world, isRoot, systemPrompt)
    ensures Going(records + [r], |records|, used, max, world, isRoot, systemPrompt)
  {
    var more := records + [r];
    forall k | 0 <= k < |records|
      ensures StepAt(more, k, used, max, world, isRoot, systemPrompt) && VerdictAt(more, k, used, max).None?
    {
      Frame(records, r, k);
      Frame(records, r, k + 1);
      assert more[k] == records[k];
      assert StepAt(records, k, used, max, world, isRoot, systemPrompt) && VerdictAt(records, k, used, max).None?;
    }
  }

  /** Step `r` after a turn that goes on, seen through the running totals. */
  lemma {:induction false} StepTaken(records: seq<Record>, r: Record, rows: seq<Message>, cost: real, failed: nat,
                                     used: real, max: real, world: World, isRoot: bool, systemPrompt: Option<string>)
    requires Going(records, |records|, used, max, world, isRoot, systemPrompt)
    requires Totals(records, rows, cost - used, failed)
    requires FromWorld(r, |records|, world, isRoot) && (r.reply.Some? ==> LegalPrompt(r.history, systemPrompt, isRoot))
    requires WellHandled(r, cost + Charge(r) > max)
    requires r.overAtCall <==> r.reply.Some? && cost + SummaryCharge(r) > max
    ensures Going(records + [r], |records|, used, max, world, isRoot, systemPrompt)
    ensures Totals(records + [r], rows + RecordRows(r), cost + Charge(r) - used, if AllFailed(r) then failed + 1 else 0)
    ensures VerdictAt(records + [r], |records|, used, max)
            == Verdict(r, cost + Charge(r) > max, if AllFailed(r) then failed + 1 else 0, |rows|)
  {
    OneMoreTotals(records, r, rows, cost - used, failed);
    RowsCounted(records + [r], |records|);
    OneMoreStep(records, r, used, max, world, isRoot, systemPrompt);
  }

  lemma {:induction false} TurnOver(records: seq<Record>, ended: Ended, used: real, max: real, left: int, world: World,
                                    isRoot: bool, systemPrompt: Option<string>)
    requires records != [] && |records| <= left
    requires Going(records, |records| - 1, used, max, world, isRoot, systemPrompt)
    requires VerdictAt(records, |records| - 1, used, max) == Some(ended)
    ensures Turn(records, ended, used, max, left, world, isRoot, systemPrompt)
  {
  }

  lemma {:induction false} StepGoesOn(records: seq<Record>, used: real, max: real, world: World, isRoot: bool,
                                      systemPrompt: Option<string>)
    requires records != []
    requires Going(records, |records| - 1, used, max, world, isRoot, systemPrompt)
    requires VerdictAt(records, |records| - 1, used, max).None?
    ensures Going(records, |records|, used, max, world, isRoot, systemPrompt)
  {
  }

  lemma {:induction false} NoStepLeft(records: seq<Record>, used: real, max: real, left: int, world: World, isRoot: bool,
                                      systemPrompt: Option<string>)
    requires |records| <= Max(0, left) && |records| >= left
    requires Going(records, |records|, used, max, world, isRoot, systemPrompt)
    ensures Turn(records, Stopped(BudgetExceeded, None, None, None), used, max, left, world, isRoot, systemPrompt)
  {
  }

  /** Handles the calls of one reply up to a pause or an exception. */
  method HandleCalls(world: World, step: nat, calls: seq<Call>) returns (handled: seq<Handling>)
    requires calls != []
    ensures 0 < |handled| <= |calls|
    ensures forall i :: 0 <= i < |handled| ==> handled[i] == world.handling(step, i)
    ensures forall i :: 0 <= i < |handled| - 1 ==> !handled[i].Broken? && !Pauses(handled[i])
    ensures |handled| < |calls| ==> handled[|handled| - 1].Broken? || Pauses(handled[|handled| - 1])
  {
    handled := [];
    for index := 0 to |calls|
      invariant |handled| == index
      invariant forall i :: 0 <= i < |handled| ==> handled[i] == world.handling(step, i)
      invariant forall i :: 0 <= i < |handled| ==> !handled[i].Broken? && !Pauses(handled[i])
    {
      var h := world.handling(step, index);
      handled := handled + [h];
      if h.Broken? || Pauses(h) {
        return;
      }
    }
  }

  /** Are all results of a round failures? */
  method EveryFailed(handled: seq<Handling>) returns (all: bool)
    ensures all <==> handled != [] && forall i :: 0 <= i < |handled| ==> IsFailure(handled[i])
  {
    for i := 0 to |handled|
      invariant forall j :: 0 <= j < i ==> IsFailure(handled[j])
    {
      if !IsFailure(handled[i]) {
        return false;
      }
    }
    return handled != [];
  }

  /** The transcript rows of a round are appended one after the other. */
  method AppendRound(pending: seq<Message>, content: string, calls: seq<Call>, handled: seq<Handling>)
    returns (r: seq<Message>)
    ensures r == pending + RoundRows(content, calls, handled)
  {
    r := pending + [AssistantRow(content, calls)];
    ghost var rows := RoundRows(content, calls, handled);
    for i := 0 to |calls|
      invariant r == pending + rows[..i + 1]
    {
      var text := SKIPPED;
      if i < |handled| && !handled[i].Broken? {
        text := handled[i].content;
      }
      r := r + [ResultRow(calls[i], text)];
      assert rows[i + 1] == CallRow(calls, handled, i);
      assert rows[..i + 2] == rows[..i + 1] + [rows[i + 1]];
    }
    assert rows[..|calls| + 1] == rows;
  }

  lemma {:induction false} PromptIsLegal(steps: seq<Compaction.Step>, isRoot: bool, systemPrompt: Option<string>,
                                         pending: seq<Message>, history: seq<Entry>)
    requires WellFormed(pending)
    requires var s, summary := Compaction.Run(steps), if isRoot then Compaction.Run(steps).summary else None;
             PromptIs(history, systemPrompt, summary, Shown(s.rows, summary.Some?, s.boundary, pending))
    ensures LegalPrompt(history, systemPrompt, isRoot)
  {
    var s := Compaction.Run(steps);
    var summary := if isRoot then s.summary else None;
    var n := Compaction.RunChain(steps);
    ShownIsLegal(s.rows, summary.Some?, s.boundary, pending);
  }

  /** Before a model call: others go on, the root compacts when that is needed, and the prompt is built from what is
      committed by then and what is pending. */
  method Prepare(conversation: Conversation, budget: Budget, me: nat, isRoot: bool, systemPrompt: Option<string>, world: World,
                 step: nat, pending: seq<Message>, lastPromptTokens: Option<int>)
    returns (raised: bool, summary: Option<real>, history: seq<Entry>)
    requires conversation.Valid() && budget.Valid() && Foreign(world.whileSummarising(step), me) && WellFormed(pending)
    modifies conversation, budget`costUsed, budget`promptUsed, budget`completionUsed, budget`usageByModel, budget`charges
    ensures conversation.Valid() && budget.Valid()
    ensures raised || summary.Some? <==>
              isRoot && Needed(Compaction.Run(old(conversation.steps) + world.others(step)), pending, world.threshold,
                               lastPromptTokens, world.estimate)
    ensures raised ==> summary.None? && world.summary(step).cost < 0.0
    ensures summary.Some? ==> summary.value == world.summary(step).cost && summary.value >= 0.0
    ensures budget.costUsed == old(budget.costUsed) + (if summary.Some? then summary.value else 0.0)
    ensures !raised ==> forall text :: Instructions(text) in history <==> systemPrompt == Some(text)
    ensures !raised ==> forall text :: SummaryNote(text) in history <==> isRoot && conversation.state.summary == Some(text)
    ensures !raised ==>
              var s, text := conversation.state, if isRoot then conversation.state.summary else None;
              PromptIs(history, systemPrompt, text, Shown(s.rows, text.Some?, s.boundary, pending))
    ensures !raised ==> LegalPrompt(history, systemPrompt, isRoot)
  {
    raised, summary, history := false, None, [];
    conversation.Await(world.others(step));
    if isRoot {
      var outcome, charged := EnsureRootCompaction(conversation, budget, me, pending, world.threshold, lastPromptTokens,
                                                   world.estimate, world.whileSummarising(step), world.summary(step));
      if outcome.Raised? {
        return true, None, [];
      }
      summary := if charged then Some(world.summary(step).cost) else None;
    }
    history := BuildModelHistory(conversation.state.rows, conversation.state.summary, conversation.state.boundary,
                                 isRoot, systemPrompt, pending);
    PromptIsLegal(conversation.steps, isRoot, systemPrompt, pending, history);
  }

  /** The calls of a reply that is paid for, and whether the turn ends with them. */
  method Round(world: World, step: nat, reply: Reply, failedRounds: nat, pending: seq<Message>,
               ghost summary: Option<real>, ghost history: seq<Entry>, ghost overAtCall: bool)
    returns (ended: Option<Ended>, failed: nat, more: seq<Message>, ghost r: Record)
    requires !reply.error && ValidCharge(reply) && reply.calls != []
    ensures r == Record(summary, history, Some(reply), r.handled, overAtCall)
    ensures forall i :: 0 <= i < |r.handled| ==> r.handled[i] == world.handling(step, i)
    ensures WellHandled(r, false)
    ensures ended == Verdict(r, false, if AllFailed(r) then failedRounds + 1 else 0, |pending|)
    ensures more == pending + RecordRows(r)
    ensures ended.None? ==> failed == if AllFailed(r) then failedRounds + 1 else 0
  {
    var handled := HandleCalls(world, step, reply.calls);
    failed, more, r := failedRounds, pending, Record(summary, history, Some(reply), handled, overAtCall);
    var last := handled[|handled| - 1];
    if last.Broken? {
      return Some(Ended.Raised), failed, more, r;
    }
    var exitIndex := |more|;
    more := AppendRound(pending, reply.content, reply.calls, handled);
    if Pauses(last) {
      return Some(Stopped(EarlyExit, None, Some(PendingApproval), Some(exitIndex))), failed, more, r;
    }
    var all := EveryFailed(handled);
    ended := None;
    if all {
      failed := failedRounds + 1;
      if failed >= MAX_FAILED_ROUNDS {
        ended := Some(Stopped(EarlyExit, None, Some(last.control), None));
      }
    } else {
      failed := 0;
    }
  }

  /** After a model call: the charge, the calls, and whether the turn ends here. */
  method Answered(budget: Budget, world: World, step: nat, reply: Reply, failedRounds: nat, pending: seq<Message>,
                  ghost summary: Option<real>, ghost history: seq<Entry>)
    returns (ended: Option<Ended>, failed: nat, more: seq<Message>, ghost r: Record)
    requires budget.Valid() && reply == world.reply(step)
    modifies budget`costUsed, budget`promptUsed, budget`completionUsed, budget`usageByModel, budget`charges
    ensures budget.Valid()
    ensures r.summary == summary && r.history == history && r.reply == Some(reply)
    ensures r.overAtCall <==> old(budget.costUsed) > budget.maxCost
    ensures forall i :: 0 <= i < |r.handled| ==> r.handled[i] == world.handling(step, i)
    ensures WellHandled(r, budget.costUsed > budget.maxCost)
    ensures budget.costUsed == old(budget.costUsed) + (if !reply.error && ValidCharge(reply) then reply.cost else 0.0)
    ensures ended == Verdict(r, budget.costUsed > budget.maxCost, if AllFailed(r) then failedRounds + 1 else 0, |pending|)
    ensures more == pending + RecordRows(r)
    ensures ended.None? ==> failed == if AllFailed(r) then failedRounds + 1 else 0
  {
    ghost var over := budget.costUsed > budget.maxCost;
    failed, more, r := failedRounds, pending, Record(summary, history, Some(reply), [], over);
    if reply.error {
      return Some(Stopped(LlmError, None, None, None)), failed, more, r;
    }
    var charged := budget.RecordCost(Some(reply.modelKey), reply.cost, reply.prompt, reply.completion);
    if charged == Invalid {
      return Some(Ended.Raised), failed, more, r;
    }
    if reply.calls == [] {
      more := pending + [AssistantRow(reply.content, [])];
      return Some(Stopped(FinalAnswer, Some(reply.content), None, Some(|more| - 1))), failed, more, r;
    }
    if charged == Exceeded {
      return Some(Stopped(BudgetExceeded, None, None, None)), failed, more, r;
    }
    ended, failed, more, r := Round(world, step, reply, failedRounds, pending, summary, history, over);
  }

  /** One step of the loop after it has been reserved. */
  method Step(conversation: Conversation, budget: Budget, me: nat, isRoot: bool, systemPrompt: Option<string>, world: World,
              step: nat, pending: seq<Message>, failedRounds: nat, lastPromptTokens: Option<int>,
              ghost used: real, ghost records: seq<Record>)
    returns (ended: Option<Ended>, failed: nat, rows: seq<Message>, tokens: Option<int>, ghost r: Record)
    requires conversation.Valid() && budget.Valid() && Foreign(world.whileSummarising(step), me)
    requires step == |records| && Totals(records, pending, budget.costUsed - used, failedRounds) && WellFormed(pending)
    requires Going(records, |records|, used, budget.maxCost, world, isRoot, systemPrompt)
    modifies conversation, budget`costUsed, budget`promptUsed, budget`completionUsed, budget`usageByModel, budget`charges
    ensures conversation.Valid() && budget.Valid()
    ensures Going(records + [r], step, used, budget.maxCost, world, isRoot, systemPrompt)
    ensures VerdictAt(records + [r], step, used, budget.maxCost) == ended
    ensures Totals(records + [r], rows, budget.costUsed - used, if AllFailed(r) then failedRounds + 1 else 0)
    ensures ended.None? ==> failed == if AllFailed(r) then failedRounds + 1 else 0
    ensures WellFormed(rows)
  {
    ghost var cost := budget.costUsed;
    var raised, summary, history := Prepare(conversation, budget, me, isRoot, systemPrompt, world, step, pending, lastPromptTokens);
    if raised {
      r := Record(None, [], None, [], false);
      ended, failed, rows, tokens := Some(Ended.Raised), failedRounds, pending, lastPromptTokens;
      StepTaken(records, r, pending, cost, failedRounds, used, budget.maxCost, world, isRoot, systemPrompt);
    } else {
      var reply := world.reply(step);
      tokens := Some(reply.prompt);
      ended, failed, rows, r := Answered(budget, world, step, reply, failedRounds, pending, summary, history);
      StepTaken(records, r, pending, cost, failedRounds, used, budget.maxCost, world, isRoot, systemPrompt);
      StillLegal(pending, r);
    }
  }

  /** A reserved step, and whether the turn ends with it. */
  method Pass(conversation: Conversation, budget: Budget, me: nat, isRoot: bool, systemPrompt: Option<string>, world: World,
              step: nat, pending: seq<Message>, failedRounds: nat, lastPromptTokens: Option<int>,
              ghost used: real, ghost left: int, ghost records: seq<Record>)
    returns (ended: Option<Ended>, failed: nat, rows: seq<Message>, tokens: Option<int>, ghost more: seq<Record>)
    requires conversation.Valid() && budget.Valid() && Foreign(world.whileSummarising(step), me)
    requires step == |records| && Totals(records, pending, budget.costUsed - used, failedRounds) && WellFormed(pending)
    requires Going(records, |records|, used, budget.maxCost, world, isRoot, systemPrompt)
    requires |records| < left
    modifies conversation, budget`costUsed, budget`promptUsed, budget`completionUsed, budget`usageByModel, budget`charges
    ensures conversation.Valid() && budget.Valid() && WellFormed(rows) && |more| == step + 1
    ensures ended.Some? ==> Turn(more, ended.value, used, budget.maxCost, left, world, isRoot, systemPrompt)
    ensures ended.None? ==> Going(more, |more|, used, budget.maxCost, world, isRoot, systemPrompt)
    ensures Totals(more, rows, budget.costUsed - used, FailedTail(more, |more|))
    ensures ended.None? ==> failed == FailedTail(more, |more|)
  {
    ghost var r;
    ended, failed, rows, tokens, r := Step(conversation, budget, me, isRoot, systemPrompt, world, step, pending,
                                           failedRounds, lastPromptTokens, used, records);
    more := records + [r];
    if ended.Some? {
      TurnOver(more, ended.value, used, budget.maxCost, left, world, isRoot, systemPrompt);
    } else {
      StepGoesOn(more, used, budget.maxCost, world, isRoot, systemPrompt);
    }
  }

  /** One turn. `pending` are its rows; they are written when it stops and dropped when it raises. */
  method Run(conversation: Conversation, budget: Budget, me: nat, isRoot: bool, systemPrompt: Option<string>, world: World)
    returns (ended: Ended, pending: seq<Message>, ghost records: seq<Record>)
    requires conversation.Valid() && budget.Valid()
    requires forall k :: Foreign(world.whileSummarising(k), me)
    modifies conversation, budget
    ensures conversation.Valid() && budget.Valid()
    ensures Turn(records, ended, old(budget.costUsed), budget.maxCost, budget.maxSteps - old(budget.stepsUsed), world,
                 isRoot, systemPrompt)
    ensures pending == Rows(records, |records|) && WellFormed(pending)
    ensures budget.costUsed == old(budget.costUsed) + Spent(records, |records|)
  {
    ghost var used := budget.costUsed;
    ghost var left := budget.maxSteps - budget.stepsUsed;
    pending, records := [], [];
    TurnIsLegal(records, 0);
    var failedRounds, step, lastPromptTokens, verdict := 0, 0, None, None;
    while true
      invariant conversation.Valid() && budget.Valid() && WellFormed(pending)
      invariant step == |records| && left == budget.maxSteps - budget.stepsUsed + step && step <= Max(0, left)
      invariant Totals(records, pending, budget.costUsed - used, failedRounds)
      invariant Going(records, |records|, used, budget.maxCost, world, isRoot, systemPrompt)
      decreases budget.maxSteps - budget.stepsUsed
    {
      var reserved := budget.ReserveStep();
      if !reserved {
        NoStepLeft(records, used, budget.maxCost, left, world, isRoot, systemPrompt);
        return Stopped(BudgetExceeded, None, None, None), pending, records;
      }
      verdict, failedRounds, pending, lastPromptTokens, records :=
        Pass(conversation, budget, me, isRoot, systemPrompt, world, step, pending, failedRounds, lastPromptTokens, used, left,
             records);
      if verdict.Some? {
        return verdict.value, pending, records;
      }
      step := step + 1;
    }
  }

  /** The first step of a root turn that needs compaction and whose summary crosses the limit: the model is called over the
      limit all the same, and the turn ends with that step. */
  method FirstStepCrosses(conversation: Conversation, budget: Budget, me: nat, systemPrompt: Option<string>, world: World)
    returns (ended: Option<Ended>, ghost r: Record)
    requires conversation.Valid() && budget.Valid() && Foreign(world.whileSummarising(0), me)
    requires budget.costUsed <= budget.maxCost < budget.costUsed + world.summary(0).cost
    requires Needed(Compaction.Run(conversation.steps + world.others(0)), [], world.threshold, None, world.estimate)
    modifies conversation, budget`costUsed, budget`promptUsed, budget`completionUsed, budget`usageByModel, budget`charges
    ensures r.reply == Some(world.reply(0)) && r.summary == Some(world.summary(0).cost)
    ensures r.overAtCall && r.handled == [] && ended.Some? && budget.costUsed > budget.maxCost
  {
    TurnIsLegal([], 0);
    var raised, summary, history := Prepare(conversation, budget, me, true, systemPrompt, world, 0, [], None);
    var failed, more;
    ended, failed, more, r := Answered(budget, world, 0, world.reply(0), 0, [], summary, history);
  }

  // ---------------------------------------------------------------- writing the turn

  /** The same row as the database stores it. */
  function Numbered(messages: seq<Message>, first: int): (r: seq<Message>)
    ensures |r| == |messages|
  {
    seq(|messages|, i requires 0 <= i < |messages| => messages[i].(id := Some(first + i)))
  }

  lemma {:induction false} NumberedIsLegal(messages: seq<Message>, first: int, i: nat)
    requires i <= |messages| && LegalFrom(messages, i)
    ensures LegalFrom(Numbered(messages, first), i)
    decreases |messages| - i
  {
    if i < |messages| {
      NumberedIsLegal(messages, first, i + UnitSize(messages[i]));
      assert forall k :: i < k < i + UnitSize(messages[i]) ==> Answers(messages[k], messages[i].calls[k - i - 1]);
    }
  }

  lemma {:induction false} AppendIsStored(rows: seq<Message>, batch: seq<Message>, first: int)
    requires Compaction.Stored(rows) && (rows != [] ==> rows[|rows| - 1].id.value < first)
    ensures Compaction.Stored(rows + Numbered(batch, first))
  {
    var more := rows + Numbered(batch, first);
    forall i, j | 0 <= i < j < |more| ensures more[i].id.value < more[j].id.value {
      assert i < |rows| ==> more[i].id.value <= rows[|rows| - 1].id.value;
    }
  }

  /** Writes the rows of a turn in one transaction; the id of the row that carries its usage comes back. */
  method PersistTranscript(conversation: Conversation, messages: seq<Message>, usageIndex: Option<nat>, first: int)
    returns (usageId: Option<int>)
    requires conversation.Valid() && WellFormed(messages)
    requires usageIndex.Some? && messages != [] ==> usageIndex.value < |messages|
    requires forall i :: 0 <= i < |conversation.state.rows| && conversation.state.rows[i].id.Some? ==>
               conversation.state.rows[i].id.value < first
    modifies conversation
    ensures conversation.Valid()
    ensures conversation.state.rows == old(conversation.state.rows) + Numbered(messages, first)
    ensures conversation.state.summary == old(conversation.state.summary)
            && conversation.state.boundary == old(conversation.state.boundary)
    ensures usageId == if messages != [] && usageIndex.Some? then Some(first + usageIndex.value) else None
  {
    if messages == [] {
      assert conversation.state.rows + Numbered(messages, first) == conversation.state.rows;
      return None;
    }
    ghost var n := Compaction.RunChain(conversation.steps);
    var batch := [];
    for i := 0 to |messages|
      invariant batch == Numbered(messages, first)[..i]
    {
      batch := batch + [messages[i].(id := Some(first + i))];
    }
    assert batch == Numbered(messages, first);
    NumberedIsLegal(messages, first, 0);
    AppendIsStored(conversation.state.rows, messages, first);
    ghost var before := conversation.state.rows;
    conversation.Await([Compaction.Append(batch)]);
    assert conversation.steps == old(conversation.steps) + [Compaction.Append(batch)];
    RunSnoc(old(conversation.steps), Compaction.Append(batch));
    return if usageIndex.Some? then Some(first + usageIndex.value) else None;
  }

  lemma {:induction false} UsageRowIsStored(before: seq<Message>, pending: seq<Message>, first: int, index: nat)
    requires index < |pending| && pending[index].role == Assistant
    ensures var rows := before + Numbered(pending, first);
            exists i | |before| <= i < |rows| :: rows[i].id == Some(first + index) && rows[i].role == Assistant
  {
    var rows := before + Numbered(pending, first);
    assert rows[|before| + index] == pending[index].(id := Some(first + index));
  }

  /** Ends a turn: its rows are written when it stopped, nothing is when it raised. */
  method Finish(conversation: Conversation, ended: Ended, pending: seq<Message>, newId: seq<Message> -> int)
    returns (usageId: Option<int>)
    requires conversation.Valid() && WellFormed(pending)
    requires ended.Stopped? && ended.usageIndex.Some? ==>
               ended.usageIndex.value < |pending| && pending[ended.usageIndex.value].role == Assistant
    requires forall rows: seq<Message>, i | 0 <= i < |rows| && rows[i].id.Some? :: rows[i].id.value < newId(rows)
    modifies conversation
    ensures conversation.Valid()
    ensures var before := old(conversation.state.rows);
            conversation.state.rows == if ended.Stopped? then before + Numbered(pending, newId(before)) else before
    ensures usageId.Some? <==> ended.Stopped? && ended.usageIndex.Some?
    ensures usageId.Some? ==>
              exists i | |old(conversation.state.rows)| <= i < |conversation.state.rows| ::
                conversation.state.rows[i].id == usageId && conversation.state.rows[i].role == Assistant
  {
    usageId := None;
    if ended.Stopped? {
      ghost var before := conversation.state.rows;
      usageId := PersistTranscript(conversation, pending, ended.usageIndex, newId(conversation.state.rows));
      if ended.usageIndex.Some? {
        UsageRowIsStored(before, pending, newId(before), ended.usageIndex.value);
      }
    }
  }

  /** A whole turn: its rows are written when it stops, and nothing is when it raises. */
  method RunAndPersist(conversation: Conversation, budget: Budget, me: nat, isRoot: bool, systemPrompt: Option<string>,
                       world: World, newId: seq<Message> -> int)
    returns (ended: Ended, usageId: Option<int>, ghost before: seq<Message>, ghost records: seq<Record>)
    requires conversation.Valid() && budget.Valid()
    requires forall k :: Foreign(world.whileSummarising(k), me)
    requires forall rows: seq<Message>, i | 0 <= i < |rows| && rows[i].id.Some? :: rows[i].id.value < newId(rows)
    modifies conversation, budget
    ensures conversation.Valid() && budget.Valid()
    ensures Turn(records, ended, old(budget.costUsed), budget.maxCost, budget.maxSteps - old(budget.stepsUsed), world,
                 isRoot, systemPrompt)
    ensures conversation.state.rows
            == if ended.Stopped? then before + Numbered(Rows(records, |records|), newId(before)) else before
    ensures usageId.Some? <==> ended.Stopped? && ended.usageIndex.Some?
    ensures usageId.Some? ==>
              exists i | |before| <= i < |conversation.state.rows| ::
                conversation.state.rows[i].id == usageId && conversation.state.rows[i].role == Assistant
  {
    ghost var used := budget.costUsed;
    ghost var left := budget.maxSteps - budget.stepsUsed;
    var pending;
    ended, pending, records := Run(conversation, budget, me, isRoot, systemPrompt, world);
    before := conversation.state.rows;
    if ended.Stopped? && ended.usageIndex.Some? {
      UsageRowIsTheReply(records, ended, used, budget.maxCost, left, world, isRoot, systemPrompt);
    }
    usageId := Finish(conversation, ended, pending, newId);
  }
}
