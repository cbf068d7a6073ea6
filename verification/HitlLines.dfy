/**
 When two calls' lines have a permission to send again between them, in every run of the protocol.

 A line is prompt when its call is still in charge of the proposal as the line goes out, and late when the
 call's outcome was already written off, or its coroutine is gone, while its thread kept running.
*/
module HitlLines {
  import opened Basics
  import opened HitlProposal
  import opened HitlRuns

  /** What permits sending again: a human retry authorisation, or the revert of a read-only command. */
  predicate SendAgain(event: Event, pid: int) {
    event == Retried(pid) || (event.Reverted? && event.pid == pid && event.reason == ReadOnlyFailed)
  }

  ghost predicate AgainBetween(log: seq<Event>, i: nat, k: nat, pid: int)
    requires k <= |log|
  {
    exists j :: i < j < k && SendAgain(log[j], pid)
  }

  predicate EmitsAt(s: State, a: Step) {
    s.up && a.Emit? && a.exec in s.execs && s.execs[a.exec].worker.Open?
  }

  /** A line goes out while its call is in charge. */
  predicate PromptAt(s: State, a: Step) { EmitsAt(s, a) && Owns(s.execs[a.exec]) }

  /** The places in the log of the prompt lines of a run. */
  ghost function PromptLines(steps: seq<Step>): set<nat> {
    if steps == [] then {}
    else
      var front, last := steps[..|steps| - 1], steps[|steps| - 1];
      PromptLines(front) + (if PromptAt(Run(front), last) then {|Run(front).log|} else {})
  }

  /** Lines of two calls for one proposal. */
  predicate Rivals(a: Event, b: Event) { a.Line? && b.Line? && a.pid == b.pid && a.exec != b.exec }

  /** Between the lines `i` and `k` of two calls something permitted sending again. */
  ghost predicate Apart(log: seq<Event>, i: nat, k: nat)
    requires i < k < |log|
  {
    Rivals(log[i], log[k]) ==> AgainBetween(log, i, k, log[i].pid)
  }

  /** Since line `i` something permitted sending again. */
  ghost predicate Over(log: seq<Event>, i: nat) {
    i < |log| && log[i].Line? && AgainBetween(log, i, |log|, log[i].pid)
  }

  ghost predicate PromptInv(s: State, prompt: set<nat>) {
    && (forall i :: i in prompt ==> i < |s.log| && s.log[i].Line?)
    && (forall i, k | i in prompt && k in prompt && i < k :: Apart(s.log, i, k))
    && (forall i, f | i in prompt && f in s.execs && Owns(s.execs[f]) && s.execs[f].pid == s.log[i].pid ::
          s.log[i].exec == f || Over(s.log, i))
    && (forall i | i in prompt :: StatusOf(s.rows, s.log[i].pid) == Approved ==> Over(s.log, i))
  }

  lemma {:induction false} AgainLonger(log: seq<Event>, event: Event, i: nat, k: nat, pid: int)
    requires i < k <= |log| && AgainBetween(log, i, k, pid)
    ensures AgainBetween(log + [event], i, k, pid)
    ensures k == |log| ==> AgainBetween(log + [event], i, |log| + 1, pid)
  {
    var j :| i < j < k && SendAgain(log[j], pid);
    assert (log + [event])[j] == log[j];
  }

  /** What was over stays over. */
  lemma {:induction false} OverKept(s: State, a: Step, i: nat)
    requires Over(s.log, i)
    ensures i < |Next(s, a).log| && Next(s, a).log[i] == s.log[i] && Over(Next(s, a).log, i)
  {
    NextLog(s, a);
    if Next(s, a).log != s.log {
      AgainLonger(s.log, Next(s, a).log[|s.log|], i, |s.log|, s.log[i].pid);
    }
  }

  /** Only the call in charge reverts. */
  lemma {:induction false} RevertedByOwner(s: State, a: Step)
    requires Inv(s) && LastEvent(s, Next(s, a)).Some? && LastEvent(s, Next(s, a)).value.Reverted?
    ensures var event := LastEvent(s, Next(s, a)).value;
            event.exec in s.execs && Owns(s.execs[event.exec]) && s.execs[event.exec].pid == event.pid
            && (event.reason == DispatchFailedBeforeSend || event.reason == ReadOnlyFailed)
  {
    if s.up && ExecStep(a) && a.exec in s.execs {
      assert ExecInv(s, a.exec);
    }
  }

  lemma {:induction false} NextOrderEffect(s: State, a: Step, pid: int)
    requires Inv(s)
    ensures OrderEffect(StatusOf(s.rows, pid), StatusOf(Next(s, a).rows, pid), LastEvent(s, Next(s, a)), pid)
  {
    if s.up && ExecStep(a) {
      if a.exec in s.execs {
        StepOrderEffect(s, a, pid);
      }
    } else {
      OtherOrderEffect(s, a, pid);
    }
  }

  /** A call that sent a line is not the one whose claim is reverted as never sent. */
  lemma {:induction false} SentIsNotUnsent(s: State, i: nat, event: Event)
    requires Inv(s) && i + 1 < |s.log| && s.log[i].Line? && s.log[|s.log| - 1] == event
    requires event.Reverted? && event.reason == DispatchFailedBeforeSend
    ensures event.exec != s.log[i].exec
  {
  }

  /** Once a row is APPROVED again, every prompt line of it is over. */
  lemma {:induction false} ApprovedIsOver(s: State, a: Step, prompt: set<nat>, i: nat)
    requires Inv(s) && OrderInv(s) && PromptInv(s, prompt) && i in prompt
    requires StatusOf(Next(s, a).rows, s.log[i].pid) == Approved
    ensures Over(Next(s, a).log, i)
  {
    var s' := Next(s, a);
    var pid := s.log[i].pid;
    NextLog(s, a);
    NextOrderEffect(s, a, pid);
    if StatusOf(s.rows, pid) == Approved {
      OverKept(s, a, i);
    } else {
      assert RowOrder(s, pid);
      assert ClaimedBefore(s.log, i, pid, s.log[i].exec);
      var event := LastEvent(s, s').value;
      assert s'.log[|s.log|] == event && Releases(event, pid);
      if !SendAgain(event, pid) {
        RevertedByOwner(s, a);
        NextKeepsInv(s, a);
        assert s'.log[i] == s.log[i];
        SentIsNotUnsent(s', i, event);
        OverKept(s, a, i);
      }
    }
  }

  /** A call comes to be in charge only by a claim on an APPROVED row. */
  lemma {:induction false} NewOwner(s: State, a: Step, f: nat)
    requires f in Next(s, a).execs && Owns(Next(s, a).execs[f])
    requires !(f in s.execs && Owns(s.execs[f]))
    ensures StatusOf(s.rows, Next(s, a).execs[f].pid) == Approved
  {
  }

  lemma {:induction false} PidsKept(s: State, a: Step, f: nat)
    requires f in s.execs
    ensures f in Next(s, a).execs && Next(s, a).execs[f].pid == s.execs[f].pid
  {
  }

  /** Lines of another call than the one in charge are over. */
  lemma {:induction false} OwnerIsAlone(s: State, a: Step, prompt: set<nat>, i: nat, f: nat)
    requires Inv(s) && OrderInv(s) && PromptInv(s, prompt) && i in prompt
    requires f in Next(s, a).execs && Owns(Next(s, a).execs[f]) && Next(s, a).execs[f].pid == s.log[i].pid
    requires s.log[i].exec != f
    ensures Over(Next(s, a).log, i)
  {
    NextLog(s, a);
    if f in s.execs {
      PidsKept(s, a, f);
    }
    if !(f in s.execs && Owns(s.execs[f])) {
      NewOwner(s, a, f);
    }
    OverKept(s, a, i);
  }

  /** The effect of a prompt line. */
  lemma {:induction false} PromptEffect(s: State, a: Step)
    requires Inv(s) && PromptAt(s, a)
    ensures var s' := Next(s, a);
            s'.rows == s.rows && s'.log == s.log + [Line(s.execs[a.exec].pid, a.exec)]
            && StatusOf(s.rows, s.execs[a.exec].pid) == Executing
            && (forall f :: f in s'.execs && Owns(s'.execs[f]) ==>
                  f in s.execs && Owns(s.execs[f]) && s'.execs[f].pid == s.execs[f].pid)
  {
    assert ExecInv(s, a.exec);
  }

  /** A step that sends no prompt line keeps what is known of the earlier ones. */
  lemma {:induction false} OldLinesKept(s: State, a: Step, prompt: set<nat>)
    requires Inv(s) && OrderInv(s) && PromptInv(s, prompt)
    ensures PromptInv(Next(s, a), prompt)
  {
    var s' := Next(s, a);
    NextLog(s, a);
    assert forall i :: i in prompt ==> s'.log[i] == s.log[i];
    forall i, k | i in prompt && k in prompt && i < k ensures Apart(s'.log, i, k) {
      assert Apart(s.log, i, k);
      if Rivals(s.log[i], s.log[k]) && s'.log != s.log {
        AgainLonger(s.log, s'.log[|s.log|], i, k, s.log[i].pid);
      }
    }
    forall i, f | i in prompt && f in s'.execs && Owns(s'.execs[f]) && s'.execs[f].pid == s'.log[i].pid
      ensures s'.log[i].exec == f || Over(s'.log, i)
    {
      if s.log[i].exec != f {
        OwnerIsAlone(s, a, prompt, i, f);
      }
    }
    forall i | i in prompt && StatusOf(s'.rows, s'.log[i].pid) == Approved ensures Over(s'.log, i) {
      ApprovedIsOver(s, a, prompt, i);
    }
  }

  /** A prompt line itself. */
  lemma {:induction false} NewLineKept(s: State, a: Step, prompt: set<nat>)
    requires Inv(s) && PromptInv(s, prompt) && PromptInv(Next(s, a), prompt) && PromptAt(s, a)
    ensures PromptInv(Next(s, a), prompt + {|s.log|})
  {
    var s' := Next(s, a);
    var n := |s.log|;
    PromptEffect(s, a);
    assert s'.log[n] == Line(s.execs[a.exec].pid, a.exec);
    forall i | i in prompt ensures Apart(s'.log, i, n) {
      if Rivals(s'.log[i], s'.log[n]) {
        assert s'.log[i] == s.log[i] && Over(s.log, i);
        AgainLonger(s.log, s'.log[n], i, n, s.log[i].pid);
      }
    }
    forall f | f in s'.execs && Owns(s'.execs[f]) && s'.execs[f].pid == s'.log[n].pid ensures f == s'.log[n].exec {
      assert f in s.execs && Owns(s.execs[f]) && Owns(s.execs[a.exec]);
    }
  }

  lemma {:induction false} RunPrompt(steps: seq<Step>)
    ensures PromptInv(Run(steps), PromptLines(steps))
  {
    if steps != [] {
      var front, last := steps[..|steps| - 1], steps[|steps| - 1];
      RunPrompt(front);
      RunInv(front);
      RunOrdered(front);
      OldLinesKept(Run(front), last, PromptLines(front));
      if PromptAt(Run(front), last) {
        NewLineKept(Run(front), last, PromptLines(front));
      }
    }
  }

  /** For a command that is not read-only, what lies between is a human retry authorisation. */
  lemma {:induction false} AgainIsHuman(s: State, i: nat, k: nat, pid: int)
    requires Inv(s) && i < k < |s.log| && AgainBetween(s.log, i, k, pid)
    requires pid in s.rows && s.rows[pid].action != DeviceQuery
    ensures exists j :: i < j < k && s.log[j] == Retried(pid)
  {
    var j :| i < j < k && SendAgain(s.log[j], pid);
    if s.log[j].Reverted? {
      assert LogInv(s);
    }
  }

  /** In every run, two prompt lines of different calls for one proposal have between them a human retry
      authorisation or, for a read-only command only, the revert that lets it be sent again. */
  lemma {:induction false} DecisionBetweenPromptLines(steps: seq<Step>, i: nat, k: nat)
    requires i in PromptLines(steps) && k in PromptLines(steps) && i < k
    ensures k < |Run(steps).log| && Apart(Run(steps).log, i, k)
    ensures var s := Run(steps);
            Rivals(s.log[i], s.log[k]) && s.log[i].pid in s.rows && s.rows[s.log[i].pid].action != DeviceQuery ==>
              exists j :: i < j < k && s.log[j] == Retried(s.log[i].pid)
  {
    var s := Run(steps);
    RunPrompt(steps);
    RunInv(steps);
    if Rivals(s.log[i], s.log[k]) && s.log[i].pid in s.rows && s.rows[s.log[i].pid].action != DeviceQuery {
      AgainIsHuman(s, i, k, s.log[i].pid);
    }
  }

  /** All lines of different calls for one proposal are apart. */
  ghost predicate AllApart(log: seq<Event>) {
    forall i, k | 0 <= i < k < |log| :: Apart(log, i, k)
  }

  /** A line of call `e` for `pid` would follow a line of another call with nothing in between that permits it. */
  ghost predicate Crowded(log: seq<Event>, pid: int, e: nat) {
    exists i :: 0 <= i < |log| && Rivals(log[i], Line(pid, e)) && !AgainBetween(log, i, |log|, pid)
  }

  /** The step puts out such a line. */
  ghost predicate CrowdsAt(s: State, a: Step) {
    EmitsAt(s, a) && Crowded(s.log, s.execs[a.exec].pid, a.exec)
  }

  ghost predicate NeverCrowds(steps: seq<Step>) {
    steps != [] ==>
      NeverCrowds(steps[..|steps| - 1]) && !CrowdsAt(Run(steps[..|steps| - 1]), steps[|steps| - 1])
  }

  /** What lies between two lines does not depend on what follows. */
  lemma {:induction false} AgainShorter(log: seq<Event>, event: Event, i: nat, k: nat, pid: int)
    requires i < k <= |log| && AgainBetween(log + [event], i, k, pid)
    ensures AgainBetween(log, i, k, pid)
  {
    var j :| i < j < k && SendAgain((log + [event])[j], pid);
    assert (log + [event])[j] == log[j];
  }

  lemma {:induction false} ApartFrame(log: seq<Event>, event: Event, i: nat, k: nat)
    requires i < k < |log|
    ensures Apart(log + [event], i, k) <==> Apart(log, i, k)
  {
    if Rivals(log[i], log[k]) {
      if AgainBetween(log, i, k, log[i].pid) {
        AgainLonger(log, event, i, k, log[i].pid);
      }
      if AgainBetween(log + [event], i, k, log[i].pid) {
        AgainShorter(log, event, i, k, log[i].pid);
      }
    }
  }

  lemma {:induction false} LastApart(log: seq<Event>, event: Event, i: nat)
    requires i < |log|
    ensures Apart(log + [event], i, |log|) <==> (Rivals(log[i], event) ==> AgainBetween(log, i, |log|, log[i].pid))
  {
    if Rivals(log[i], event) {
      if AgainBetween(log, i, |log|, log[i].pid) {
        AgainLonger(log, event, i, |log|, log[i].pid);
      }
      if AgainBetween(log + [event], i, |log|, log[i].pid) {
        AgainShorter(log, event, i, |log|, log[i].pid);
      }
    }
  }

  /** One more entry in the log. */
  lemma {:induction false} AllApartAppend(log: seq<Event>, event: Event)
    ensures AllApart(log + [event]) <==> AllApart(log) && !(event.Line? && Crowded(log, event.pid, event.exec))
  {
    var log' := log + [event];
    if AllApart(log') {
      forall i, k | 0 <= i < k < |log| ensures Apart(log, i, k) {
        assert Apart(log', i, k);
        ApartFrame(log, event, i, k);
      }
      if event.Line? {
        forall i | 0 <= i < |log| && Rivals(log[i], event) ensures AgainBetween(log, i, |log|, event.pid) {
          assert Apart(log', i, |log|);
          LastApart(log, event, i);
        }
      }
    } else {
      var i, k :| 0 <= i < k < |log'| && !Apart(log', i, k);
      if k < |log| {
        ApartFrame(log, event, i, k);
      } else {
        LastApart(log, event, i);
        assert Rivals(log[i], Line(event.pid, event.exec));
      }
    }
  }

  lemma {:induction false} EmitAppends(s: State, a: Step)
    requires EmitsAt(s, a)
    ensures Next(s, a).log == s.log + [Line(s.execs[a.exec].pid, a.exec)]
  {
  }

  /** The step that breaks it: an emission next to another call's line. */
  lemma {:induction false} StepKeepsApart(s: State, a: Step)
    ensures AllApart(Next(s, a).log) <==> AllApart(s.log) && !CrowdsAt(s, a)
  {
    if EmitsAt(s, a) {
      EmitAppends(s, a);
      AllApartAppend(s.log, Line(s.execs[a.exec].pid, a.exec));
    } else {
      NextLog(s, a);
      if Next(s, a).log != s.log {
        var event := Next(s, a).log[|s.log|];
        if event.Line? {
          LinesAreEmitted(s, a);
        }
        AllApartAppend(s.log, event);
      }
    }
  }

  /** Exactly when all lines of a run are apart: no line goes out while the log holds a line of another call for the same
      proposal, with nothing since that permits sending again. */
  lemma {:induction false} ApartExactly(steps: seq<Step>)
    ensures AllApart(Run(steps).log) <==> NeverCrowds(steps)
  {
    if steps != [] {
      ApartExactly(steps[..|steps| - 1]);
      StepKeepsApart(Run(steps[..|steps| - 1]), steps[|steps| - 1]);
    }
  }

  ghost predicate LateAt(steps: seq<Step>, i: nat) { i !in PromptLines(steps) }

  /** When a line goes out too close to another call's line, one of the two is late. */
  lemma {:induction false} CrowdingIsLate(steps: seq<Step>, a: Step, i: nat)
    requires EmitsAt(Run(steps), a) && i < |Run(steps).log|
    requires var s := Run(steps); var pid := s.execs[a.exec].pid;
             Rivals(s.log[i], Line(pid, a.exec)) && !AgainBetween(s.log, i, |s.log|, pid)
    ensures LateAt(steps, i) || !PromptAt(Run(steps), a)
  {
    var s := Run(steps);
    RunPrompt(steps);
  }

  /** So the lines of a run are all apart if and only if each late line is apart from the other calls' lines. */
  lemma {:induction false} LateLinesDecide(steps: seq<Step>)
    ensures var log := Run(steps).log;
            AllApart(log) <==>
            forall i, k | 0 <= i < k < |log| && (LateAt(steps, i) || LateAt(steps, k)) :: Apart(log, i, k)
  {
    var log := Run(steps).log;
    RunPrompt(steps);
    forall i, k | 0 <= i < k < |log| && !LateAt(steps, i) && !LateAt(steps, k) ensures Apart(log, i, k) {}
  }

  /** Every caller waits for its thread: no line goes out after its call is no longer in charge. */
  ghost predicate AllPrompt(steps: seq<Step>) {
    steps != [] ==>
      && AllPrompt(steps[..|steps| - 1])
      && (EmitsAt(Run(steps[..|steps| - 1]), steps[|steps| - 1]) ==> PromptAt(Run(steps[..|steps| - 1]), steps[|steps| - 1]))
  }

  /** Only an emitting step adds a line. */
  lemma {:induction false} LinesAreEmitted(s: State, a: Step)
    requires LastEvent(s, Next(s, a)).Some? && LastEvent(s, Next(s, a)).value.Line?
    ensures EmitsAt(s, a)
  {
  }

  lemma {:induction false} AllPromptLines(steps: seq<Step>)
    requires AllPrompt(steps)
    ensures forall i :: 0 <= i < |Run(steps).log| && Run(steps).log[i].Line? ==> i in PromptLines(steps)
  {
    if steps != [] {
      var front, last := steps[..|steps| - 1], steps[|steps| - 1];
      AllPromptLines(front);
      NextLog(Run(front), last);
      var log, log' := Run(front).log, Run(steps).log;
      forall i | 0 <= i < |log'| && log'[i].Line? ensures i in PromptLines(steps) {
        if i < |log| {
          assert log'[i] == log[i];
        } else {
          LinesAreEmitted(Run(front), last);
        }
      }
    }
  }

  /** If every caller waits for its thread, all lines are apart. */
  lemma {:induction false} WaitingKeepsLinesApart(steps: seq<Step>)
    requires AllPrompt(steps)
    ensures AllApart(Run(steps).log)
  {
    AllPromptLines(steps);
    RunPrompt(steps);
    var log := Run(steps).log;
    forall i, k | 0 <= i < k < |log| ensures Apart(log, i, k) {}
  }

  // ---------------------------------------------------------------- a late line

  lemma {:induction false} ControlIsApproved() returns (steps: seq<Step>)
    ensures var s := Run(steps);
            && s.up && s.rows == map[1 := Decide(true, 7).Update(Fresh(1, DeviceControl))]
            && s.execs == map[0 := Exec(1, Preflight(CLAIM_TRIES), Unsubmitted)]
            && s.log == [Decision(1, true)]
  {
    steps := ThreeMore([], Propose(1, 1, DeviceControl), HumanDecide(1, true, 7), Call(0, 1));
  }

  lemma {:induction false} WrittenOff(s: State, e: nat, pid: int)
    requires s.up && e in s.execs && s.execs[e].pid == pid && s.execs[e].pc == Awaiting
    requires pid in s.rows && s.rows[pid].status == Executing
    ensures var s' := Next(s, GiveUp(e));
            && s'.up && s'.execs == s.execs[e := s.execs[e].(pc := Gone)] && s'.log == s.log + [Doubted(pid, e)]
            && s'.rows == s.rows[pid := MarkUnknown(DispatchOutcomeUnknown).Update(s.rows[pid])]
  {
  }

  lemma {:induction false} FirstCallIsWrittenOff() returns (steps: seq<Step>)
    ensures var s := Run(steps);
            && s.up && 1 in s.rows && s.rows[1].status == Unknown && s.rows[1].action == DeviceControl
            && s.execs == map[0 := Exec(1, Gone, Open(false))]
            && s.log == [Decision(1, true), ClaimedBy(1, 0), Doubted(1, 0)]
  {
    var half := ControlIsApproved();
    steps := ThreeMore(half, TryClaim(0, 0), Submit(0), GiveUp(0));
    CalledClaims(Run(half), 0, 1);
    WrittenOff(Next(Next(Run(half), TryClaim(0, 0)), Submit(0)), 0, 1);
  }

  lemma {:induction false} SecondCallIsInCharge() returns (steps: seq<Step>)
    ensures var s := Run(steps);
            && s.up && 1 in s.rows && s.rows[1].action == DeviceControl
            && s.execs == map[0 := Exec(1, Gone, Open(false)), 1 := Exec(1, Awaiting, Open(false))]
            && s.log == [Decision(1, true), ClaimedBy(1, 0), Doubted(1, 0), Retried(1), ClaimedBy(1, 1)]
  {
    var first := FirstCallIsWrittenOff();
    var retry := HumanResolve(1, AllowRetry, 7, 0);
    RunSnoc(first, retry);
    steps := ThreeMore(first + [retry], Call(1, 1), TryClaim(1, 0), Submit(1));
    ClaimAndSubmit(Run(first + [retry]), 1, 1);
  }

  /** A state-changing command whose first call was written off: a retry is authorised, the second call sends a
      line, and then the thread of the first call sends one too, with nothing in between. */
  lemma {:induction false} LateLineAfterRetry()
    ensures exists steps: seq<Step> :: var s := Run(steps);
              && 1 in s.rows && s.rows[1].action == DeviceControl && |s.log| == 7
              && s.log[5] == Line(1, 1) && s.log[6] == Line(1, 0)
              && 0 in s.execs && s.execs[0].pc == Gone
              && !Apart(s.log, 5, 6)
  {
    var steps := SecondCallIsInCharge();
    var s := Run(steps);
    RunSnoc(steps, Emit(1));
    var s1 := Run(steps + [Emit(1)]);
    assert s1.log == s.log + [Line(1, 1)];
    RunSnoc(steps + [Emit(1)], Emit(0));
    var s2 := Run(steps + [Emit(1)] + [Emit(0)]);
    assert s2.log == s1.log + [Line(1, 0)];
    assert !AgainBetween(s2.log, 5, 6, 1);
  }
}
