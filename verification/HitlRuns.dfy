/**
 Whole runs of the approval-execution protocol.

 Any number of callers run `execute_approved_proposal` concurrently. Each caller is an `Exec`: a coroutine
 with a program counter, plus the device worker thread it may have submitted. The thread cannot be cancelled,
 so it keeps its own state and can put lines on the wire after its coroutine is gone. Every database update
 is one atomic step. A crash ends all coroutines and threads; a restart runs the startup reconciliation.

 `log` is the ghost record of what happened, in order: decisions, claims, command lines that reached the
 device, and releases of a claim.
*/
module HitlRuns {
  import opened Basics
  import opened HitlProposal

  /** Where one call of execute_approved_proposal stands. A claim is tried at most twice. */
  datatype Coroutine =
    | Preflight(tries: nat)
    | Claimed
    | Awaiting
    | Replied(ok: bool, dispatched: bool)
    | Gone

  /** The device worker thread of one call. `sent`: at least one command line reached the device. */
  datatype Worker = Unsubmitted | Open(sent: bool) | Closed(sent: bool)

  datatype Exec = Exec(pid: int, pc: Coroutine, worker: Worker)

  datatype Event =
    | Decision(pid: int, approve: bool)
    | ClaimedBy(pid: int, exec: nat)
    | Line(pid: int, exec: nat)
    | Reverted(pid: int, exec: nat, reason: Reason)
    | Finished(pid: int, exec: nat)
    | Doubted(pid: int, exec: nat)
    | Retried(pid: int)
    | Confirmed(pid: int)
    | Crashed
    | Restarted

  datatype State = State(up: bool, rows: Rows, execs: map<nat, Exec>, log: seq<Event>)

  datatype Step =
    | Propose(pid: int, session: int, action: Action)
    | HumanDecide(pid: int, approve: bool, reviewer: int)
    | HumanResolve(pid: int, resolution: Resolution, user: int, now: int)
    | WithdrawPending(pid: int, owner: int)
    | Call(exec: nat, pid: int)
    | Leave(exec: nat)
    | BlockByPolicy(exec: nat)
    | TryClaim(exec: nat, now: int)
    | Submit(exec: nat)
    | Emit(exec: nat)
    | Reply(exec: nat, ok: bool, dispatched: bool)
    | GiveUp(exec: nat)
    | Requeue(exec: nat)
    | Finish(exec: nat, now: int)
    | Crash
    | Restart

  const CLAIM_TRIES: nat := 2

  const INITIAL: State := State(true, map[], map[], [])

  /** The reason for which a failed call may put its proposal straight back to APPROVED, if any. */
  function RetryableReason(dispatched: bool, action: Action): Option<Reason> {
    if !dispatched then Some(DispatchFailedBeforeSend)
    else if action == DeviceQuery then Some(ReadOnlyFailed)
    else None
  }

  /** One update of row `pid`, with `event` recorded when it took effect. */
  function Update(s: State, pid: int, t: Transition, event: Event): State {
    if Enabled(s.rows, pid, t) then s.(rows := Transit(s.rows, pid, t).1, log := s.log + [event]) else s
  }

  function WithExec(s: State, e: nat, x: Exec): State { s.(execs := s.execs[e := x]) }

  /** The coroutine of `e` ends, leaving its thread as it is. */
  function Ended(s: State, e: nat): State
    requires e in s.execs
  {
    WithExec(s, e, s.execs[e].(pc := Gone))
  }

  function Killed(x: Exec): Exec {
    Exec(x.pid, Gone, if x.worker.Open? then Closed(x.worker.sent) else x.worker)
  }

  /** Steps other than a restart. A step that is not possible leaves the state unchanged. */
  function NextUp(s: State, a: Step): State {
    match a
    case Propose(pid, session, action) =>
      if pid in s.rows then s else s.(rows := s.rows[pid := Fresh(session, action)])
    case HumanDecide(pid, approve, reviewer) =>
      Update(s, pid, Decide(approve, reviewer), Decision(pid, approve))
    case HumanResolve(pid, resolution, user, now) =>
      Update(s, pid, Resolve(resolution, user, now),
             if resolution.AllowRetry? then Retried(pid) else Confirmed(pid))
    case WithdrawPending(pid, owner) => Update(s, pid, Withdraw(owner), Decision(pid, false))
    case Call(e, pid) =>
      if e in s.execs then s else WithExec(s, e, Exec(pid, Preflight(CLAIM_TRIES), Unsubmitted))
    case Crash =>
      s.(up := false, log := s.log + [Crashed], execs := map e | e in s.execs :: Killed(s.execs[e]))
    case Restart => s
    case _ => if a.exec in s.execs then NextExec(s, a, a.exec, s.execs[a.exec]) else s
  }

  predicate ExecStep(a: Step) {
    || a.Leave? || a.BlockByPolicy? || a.TryClaim? || a.Submit? || a.Emit?
    || a.Reply? || a.GiveUp? || a.Requeue? || a.Finish?
  }

  /** One step of the call `e`, which stands at `x`. */
  function NextExec(s: State, a: Step, e: nat, x: Exec): State
    requires ExecStep(a) && e in s.execs && s.execs[e] == x
  {
    match a
    case Leave(_) => Ended(s, e)
    case BlockByPolicy(_) =>
      if x.pc == Preflight(CLAIM_TRIES) then
        Ended(Update(s, x.pid, RejectForPolicy, Decision(x.pid, false)), e)
      else s
    case TryClaim(_, now) =>
      if !x.pc.Preflight? || x.pc.tries == 0 then s
      else if Enabled(s.rows, x.pid, Claim(now)) then
        WithExec(Update(s, x.pid, Claim(now), ClaimedBy(x.pid, e)), e, x.(pc := Claimed))
      else WithExec(s, e, x.(pc := Preflight(x.pc.tries - 1)))
    case Submit(_) =>
      if x.pc == Claimed then WithExec(s, e, x.(pc := Awaiting, worker := Open(false))) else s
    case Emit(_) =>
      if x.worker.Open? then
        WithExec(s, e, x.(worker := Open(true))).(log := s.log + [Line(x.pid, e)])
      else s
    case Reply(_, ok, dispatched) =>
      // The executor reports `dispatched = false` only when no command line was sent
      // (DeviceExecutor.RunDeviceCommand proves this of the thread's code).
      if x.worker.Open? && (x.worker.sent ==> dispatched) then
        WithExec(s, e, Exec(x.pid, if x.pc == Awaiting then Replied(ok, dispatched) else x.pc, Closed(x.worker.sent)))
      else s
    case GiveUp(_) =>
      if x.pc.Claimed? || x.pc.Awaiting? || x.pc.Replied? then
        Ended(Update(s, x.pid, MarkUnknown(DispatchOutcomeUnknown), Doubted(x.pid, e)), e)
      else s
    case Requeue(_) =>
      if x.pc.Replied? && !x.pc.ok && x.pid in s.rows then
        var reason := RetryableReason(x.pc.dispatched, s.rows[x.pid].action);
        if reason.Some? then
          Ended(Update(s, x.pid, RevertUnexecuted(reason.value), Reverted(x.pid, e, reason.value)), e)
        else s
      else s
    case Finish(_, now) =>
      if x.pc.Replied? && x.pc.ok then
        Ended(Update(s, x.pid, MarkExecuted(now), Finished(x.pid, e)), e)
      else s
  }

  function Next(s: State, a: Step): State {
    if s.up then NextUp(s, a)
    else if a.Restart? then s.(up := true, rows := Recovered(s.rows), log := s.log + [Restarted])
    else s
  }

  /** Every run: any steps, in any order, from the empty system. */
  function Run(steps: seq<Step>): State {
    if steps == [] then INITIAL else Next(Run(steps[..|steps| - 1]), steps[|steps| - 1])
  }

  /** The same from any state, front to back. */
  function Replayed(s: State, steps: seq<Step>): State
    decreases |steps|
  {
    if steps == [] then s else Replayed(Next(s, steps[0]), steps[1..])
  }

  /** Running back to front from the empty system is running front to back. */
  lemma {:induction false} ReplayFrom(front: seq<Step>, rest: seq<Step>)
    ensures Replayed(Run(front), rest) == Run(front + rest)
    decreases |rest|
  {
    if rest == [] {
      assert front + rest == front;
    } else {
      assert (front + [rest[0]])[..|front|] == front;
      assert front + rest == (front + [rest[0]]) + rest[1..];
      ReplayFrom(front + [rest[0]], rest[1..]);
    }
  }

  // ---------------------------------------------------------------- what is counted

  /** The calls whose command lines reached the device for this proposal. */
  function Senders(log: seq<Event>, pid: int): set<nat> {
    set i | 0 <= i < |log| && log[i].Line? && log[i].pid == pid :: log[i].exec
  }

  /** Human authorisations to send again. */
  function Retries(log: seq<Event>, pid: int): nat {
    if log == [] then 0
    else Retries(log[..|log| - 1], pid) + (if log[|log| - 1] == Retried(pid) then 1 else 0)
  }

  /** Reverts of read-only commands that may have reached the device. */
  function ReadOnlyReverts(log: seq<Event>, pid: int): nat {
    if log == [] then 0
    else
      var last := log[|log| - 1];
      ReadOnlyReverts(log[..|log| - 1], pid)
      + (if last.Reverted? && last.pid == pid && last.reason == ReadOnlyFailed then 1 else 0)
  }

  // ---------------------------------------------------------------- invariant

  predicate Owns(x: Exec) { x.pc.Claimed? || x.pc.Awaiting? || x.pc.Replied? }

  /** Lines of this call reached the device, or still can. */
  predicate MaySend(x: Exec) {
    x.pc.Claimed? || x.worker.Open? || (x.worker.Closed? && x.worker.sent)
  }

  ghost predicate ExecInv(s: State, e: nat)
    requires e in s.execs
  {
    var x := s.execs[e];
    && (x.pc.Preflight? ==> x.worker == Unsubmitted)
    && (x.pc.Claimed? ==> x.worker == Unsubmitted)
    && (x.pc.Awaiting? ==> x.worker.Open?)
    && (x.pc.Replied? ==> x.worker.Closed? && (x.worker.sent ==> x.pc.dispatched))
    && (Owns(x) ==> x.pid in s.rows && s.rows[x.pid].status == Executing)
    && (!s.up ==> x.pc.Gone? && !x.worker.Open?)
  }

  /** At most one live call owns a claim. */
  ghost predicate UniqueOwner(s: State) {
    forall e, f | e in s.execs && f in s.execs && Owns(s.execs[e]) && Owns(s.execs[f]) ::
      s.execs[e].pid == s.execs[f].pid ==> e == f
  }

  ghost predicate HasOwner(s: State, pid: int) {
    exists e :: e in s.execs && Owns(s.execs[e]) && s.execs[e].pid == pid
  }

  /** Calls that are no longer in charge but whose lines reached the device, or still can. */
  ghost function Spent(s: State, pid: int): set<nat> {
    set e | e in s.execs && s.execs[e].pid == pid && MaySend(s.execs[e]) && !Owns(s.execs[e])
  }

  /** One sending is covered by the approval itself once the claim has left APPROVED for good or in doubt. */
  ghost function Slack(s: State, pid: int): nat
    requires pid in s.rows
  {
    var status := s.rows[pid].status;
    if status == Executed || status == Unknown || (status == Executing && !HasOwner(s, pid)) then 1 else 0
  }

  ghost predicate Accounted(s: State, pid: int) {
    if pid in s.rows then |Spent(s, pid)| <= Retries(s.log, pid) + ReadOnlyReverts(s.log, pid) + Slack(s, pid)
    else forall e :: e in s.execs && s.execs[e].pid == pid ==> !MaySend(s.execs[e])
  }

  /** What the log says about each call. */
  ghost predicate LogInv(s: State) {
    && (forall i :: 0 <= i < |s.log| && s.log[i].Line? ==>
          var e := s.log[i].exec;
          e in s.execs && s.execs[e].pid == s.log[i].pid && !s.execs[e].worker.Unsubmitted? && s.execs[e].worker.sent)
    && (forall i :: 0 <= i < |s.log| && s.log[i].Reverted? ==>
          var e := s.log[i].exec;
          e in s.execs && s.execs[e].pc.Gone? && s.execs[e].pid == s.log[i].pid && s.execs[e].pid in s.rows
          && (s.log[i].reason == DispatchFailedBeforeSend ==> s.execs[e].worker == Closed(false))
          && (s.log[i].reason == ReadOnlyFailed ==> s.rows[s.log[i].pid].action == DeviceQuery))
  }

  ghost predicate Inv(s: State) {
    && (forall e :: e in s.execs ==> ExecInv(s, e))
    && UniqueOwner(s)
    && LogInv(s)
  }

  lemma {:induction false} StepKeepsExecs(s: State, a: Step, e: nat)
    requires Inv(s) && s.up && ExecStep(a) && e in s.execs
    ensures var s' := NextExec(s, a, e, s.execs[e]);
            forall f :: f in s'.execs ==> ExecInv(s', f)
  {
    var x := s.execs[e];
    var s' := NextExec(s, a, e, x);
    forall f | f in s'.execs ensures ExecInv(s', f) {
      if f != e {
        assert s'.execs[f] == s.execs[f] && ExecInv(s, f);
      } else {
        assert ExecInv(s, e);
      }
    }
  }

  lemma {:induction false} StepKeepsUnique(s: State, a: Step, e: nat)
    requires Inv(s) && s.up && ExecStep(a) && e in s.execs
    ensures UniqueOwner(NextExec(s, a, e, s.execs[e]))
  {
  }

  lemma {:induction false} RequeueKeepsLog(s: State, a: Step, e: nat)
    requires Inv(s) && s.up && a.Requeue? && e in s.execs
    ensures LogInv(NextExec(s, a, e, s.execs[e]))
  {
    assert ExecInv(s, e);
  }

  lemma {:induction false} EmitKeepsLog(s: State, a: Step, e: nat)
    requires Inv(s) && s.up && a.Emit? && e in s.execs
    ensures LogInv(NextExec(s, a, e, s.execs[e]))
  {
  }

  /** A call only moves forward: it does not come back once gone, and what was sent stays sent. */
  predicate Forward(x: Exec, x': Exec) {
    && x'.pid == x.pid
    && (x.pc.Gone? ==> x'.pc.Gone?)
    && (x.worker.Closed? ==> x'.worker == x.worker)
    && (!x.worker.Unsubmitted? && x.worker.sent ==> !x'.worker.Unsubmitted? && x'.worker.sent)
  }

  lemma {:induction false} OtherSteps(s: State, a: Step, e: nat)
    requires e in s.execs && ExecInv(s, e) && ExecStep(a) && !a.Requeue? && !a.Emit?
    ensures var s' := NextExec(s, a, e, s.execs[e]);
            && e in s'.execs && s'.execs == s.execs[e := s'.execs[e]] && Forward(s.execs[e], s'.execs[e])
            && s'.rows.Keys == s.rows.Keys && (forall p :: p in s.rows ==> s'.rows[p].action == s.rows[p].action)
            && (s'.log == s.log
                || (|s'.log| == |s.log| + 1 && s'.log[..|s.log|] == s.log
                    && !s'.log[|s.log|].Line? && !s'.log[|s.log|].Reverted?))
  {
  }

  lemma {:induction false} LogFrame(s: State, s': State, e: nat)
    requires LogInv(s) && e in s.execs && e in s'.execs
    requires s'.execs == s.execs[e := s'.execs[e]] && Forward(s.execs[e], s'.execs[e])
    requires s'.rows.Keys == s.rows.Keys && forall p :: p in s.rows ==> s'.rows[p].action == s.rows[p].action
    requires s'.log == s.log
             || (|s'.log| == |s.log| + 1 && s'.log[..|s.log|] == s.log
                 && !s'.log[|s.log|].Line? && !s'.log[|s.log|].Reverted?)
    ensures LogInv(s')
  {
    forall i | 0 <= i < |s'.log| && (s'.log[i].Line? || s'.log[i].Reverted?)
      ensures i < |s.log| && s'.log[i] == s.log[i]
    {
      assert i < |s.log| ==> s'.log[..|s.log|][i] == s'.log[i];
    }
  }

  /** The other steps add no entry that the invariant speaks of. */
  lemma {:induction false} OtherKeepsLog(s: State, a: Step, e: nat)
    requires Inv(s) && s.up && ExecStep(a) && !a.Requeue? && !a.Emit? && e in s.execs
    ensures LogInv(NextExec(s, a, e, s.execs[e]))
  {
    OtherSteps(s, a, e);
    LogFrame(s, NextExec(s, a, e, s.execs[e]), e);
  }

  lemma {:induction false} StepKeepsLog(s: State, a: Step, e: nat)
    requires Inv(s) && s.up && ExecStep(a) && e in s.execs
    ensures LogInv(NextExec(s, a, e, s.execs[e]))
  {
    if a.Requeue? {
      RequeueKeepsLog(s, a, e);
    } else if a.Emit? {
      EmitKeepsLog(s, a, e);
    } else {
      OtherKeepsLog(s, a, e);
    }
  }

  /** Steps of people, crashes and restarts. */
  lemma {:induction false} OuterKeepsExecs(s: State, a: Step)
    requires Inv(s) && !(s.up && ExecStep(a))
    ensures forall f :: f in Next(s, a).execs ==> ExecInv(Next(s, a), f)
  {
    var s' := Next(s, a);
    forall f | f in s'.execs ensures ExecInv(s', f) {
      if f in s.execs {
        assert ExecInv(s, f);
      }
    }
  }

  lemma {:induction false} OuterKeepsUnique(s: State, a: Step)
    requires UniqueOwner(s) && !(s.up && ExecStep(a))
    ensures UniqueOwner(Next(s, a))
  {
  }

  lemma {:induction false} OuterKeepsLog(s: State, a: Step)
    requires LogInv(s) && !(s.up && ExecStep(a))
    ensures LogInv(Next(s, a))
  {
  }

  lemma {:induction false} NextKeepsInv(s: State, a: Step)
    requires Inv(s)
    ensures Inv(Next(s, a))
  {
    if s.up && ExecStep(a) {
      if a.exec in s.execs {
        StepKeepsExecs(s, a, a.exec);
        StepKeepsUnique(s, a, a.exec);
        StepKeepsLog(s, a, a.exec);
      }
    } else {
      OuterKeepsExecs(s, a);
      OuterKeepsUnique(s, a);
      OuterKeepsLog(s, a);
    }
  }

  // ---------------------------------------------------------------- accounting

  lemma {:induction false} Appended(log: seq<Event>, event: Event, pid: int)
    ensures Retries(log + [event], pid) == Retries(log, pid) + (if event == Retried(pid) then 1 else 0)
    ensures ReadOnlyReverts(log + [event], pid) == ReadOnlyReverts(log, pid)
            + (if event.Reverted? && event.pid == pid && event.reason == ReadOnlyFailed then 1 else 0)
  {
    assert (log + [event])[..|log|] == log;
  }

  ghost function Allowance(s: State, pid: int): nat {
    Retries(s.log, pid) + ReadOnlyReverts(s.log, pid)
  }

  /** What one step of a call does, as far as the account of its proposal is concerned. */
  ghost predicate Effect(x: Exec, x': Exec, status: Status, status': Status, extra: int) {
    if !Owns(x) then
      if Owns(x') then !MaySend(x) && status == Approved && status' == Executing && extra == 0
      else (MaySend(x') ==> MaySend(x)) && extra == 0
           && (status' == status || (status == Approved && status' == Rejected))
    else if Owns(x') then status' == status && extra == 0
    else
      status == Executing
      && if status' == Approved then extra >= (if MaySend(x') then 1 else 0)
         else extra == 0 && (status' == Executing || status' == Unknown || status' == Executed)
  }

  /** What one more event adds to the allowance of `pid`. */
  function Weight(event: Event, pid: int): nat {
    if event == Retried(pid) then 1
    else if event.Reverted? && event.pid == pid && event.reason == ReadOnlyFailed then 1
    else 0
  }

  /** The weight of what was appended on the way from `s` to `s'`. */
  function Gained(s: State, s': State, pid: int): nat {
    if |s'.log| == |s.log| + 1 then Weight(s'.log[|s.log|], pid) else 0
  }

  lemma {:induction false} GainedIsAllowance(s: State, s': State, pid: int)
    requires s'.log == s.log || (|s'.log| == |s.log| + 1 && s'.log[..|s.log|] == s.log)
    ensures Allowance(s', pid) == Allowance(s, pid) + Gained(s, s', pid)
  {
    if |s'.log| == |s.log| + 1 {
      Appended(s.log, s'.log[|s.log|], pid);
      assert s'.log == s.log + [s'.log[|s.log|]];
    }
  }

  lemma {:induction false} StepFrame(s: State, a: Step, e: nat)
    requires s.up && ExecStep(a) && e in s.execs
    ensures var s' := NextExec(s, a, e, s.execs[e]);
            && e in s'.execs && s'.execs == s.execs[e := s'.execs[e]] && s'.execs[e].pid == s.execs[e].pid
            && s'.rows.Keys == s.rows.Keys
  {
  }

  predicate Settling(a: Step) { a.GiveUp? || a.Requeue? || a.Finish? }

  lemma {:induction false} SettlingEffect(s: State, a: Step, e: nat)
    requires s.up && Settling(a) && e in s.execs && s.execs[e].pid in s.rows && ExecInv(s, e)
    ensures var s' := NextExec(s, a, e, s.execs[e]);
            var pid := s.execs[e].pid;
            && e in s'.execs && pid in s'.rows
            && Effect(s.execs[e], s'.execs[e], s.rows[pid].status, s'.rows[pid].status, Gained(s, s', pid))
  {
  }

  lemma {:induction false} MovingEffect(s: State, a: Step, e: nat)
    requires s.up && ExecStep(a) && !Settling(a) && e in s.execs && s.execs[e].pid in s.rows && ExecInv(s, e)
    ensures var s' := NextExec(s, a, e, s.execs[e]);
            var pid := s.execs[e].pid;
            && e in s'.execs && pid in s'.rows
            && Effect(s.execs[e], s'.execs[e], s.rows[pid].status, s'.rows[pid].status, Gained(s, s', pid))
  {
  }

  lemma {:induction false} StepLog(s: State, a: Step, e: nat)
    requires s.up && ExecStep(a) && e in s.execs
    ensures var s' := NextExec(s, a, e, s.execs[e]);
            s'.log == s.log || (|s'.log| == |s.log| + 1 && s'.log[..|s.log|] == s.log)
  {
  }

  lemma {:induction false} StepEffect(s: State, a: Step, e: nat)
    requires Inv(s) && s.up && ExecStep(a) && e in s.execs && s.execs[e].pid in s.rows
    ensures var s' := NextExec(s, a, e, s.execs[e]);
            var pid := s.execs[e].pid;
            && e in s'.execs && s'.execs == s.execs[e := s'.execs[e]] && s'.execs[e].pid == pid
            && s'.rows.Keys == s.rows.Keys
            && Effect(s.execs[e], s'.execs[e], s.rows[pid].status, s'.rows[pid].status,
                      Allowance(s', pid) - Allowance(s, pid))
  {
    StepFrame(s, a, e);
    StepLog(s, a, e);
    if Settling(a) {
      SettlingEffect(s, a, e);
    } else {
      MovingEffect(s, a, e);
    }
    GainedIsAllowance(s, NextExec(s, a, e, s.execs[e]), s.execs[e].pid);
  }

  lemma {:induction false} StepElsewhereShape(s: State, a: Step, e: nat, pid: int)
    requires s.up && ExecStep(a) && e in s.execs && s.execs[e].pid != pid
    ensures var s' := NextExec(s, a, e, s.execs[e]);
            && e in s'.execs && s'.execs == s.execs[e := s'.execs[e]] && s'.execs[e].pid != pid
            && s'.rows.Keys == s.rows.Keys && (pid in s.rows ==> s'.rows[pid] == s.rows[pid])
            && Gained(s, s', pid) == 0
  {
  }

  lemma {:induction false} StepElsewhere(s: State, a: Step, e: nat, pid: int)
    requires s.up && ExecStep(a) && e in s.execs && s.execs[e].pid != pid
    ensures var s' := NextExec(s, a, e, s.execs[e]);
            && e in s'.execs && s'.execs == s.execs[e := s'.execs[e]] && s'.execs[e].pid != pid
            && s'.rows.Keys == s.rows.Keys && (pid in s.rows ==> s'.rows[pid] == s.rows[pid])
            && Allowance(s', pid) == Allowance(s, pid)
  {
    StepElsewhereShape(s, a, e, pid);
    StepLog(s, a, e);
    GainedIsAllowance(s, NextExec(s, a, e, s.execs[e]), pid);
  }

  lemma {:induction false} OwnerFrame(s: State, s': State, e: nat, pid: int)
    requires e in s.execs && e in s'.execs && s'.execs == s.execs[e := s'.execs[e]]
    requires s'.execs[e].pid == s.execs[e].pid
    requires UniqueOwner(s)
    ensures s.execs[e].pid != pid ==> (HasOwner(s', pid) <==> HasOwner(s, pid)) && Spent(s', pid) == Spent(s, pid)
    ensures s.execs[e].pid == pid ==>
              HasOwner(s', pid) == (Owns(s'.execs[e]) || (!Owns(s.execs[e]) && HasOwner(s, pid)))
    ensures s.execs[e].pid == pid ==>
              Spent(s', pid) <= Spent(s, pid) + (if MaySend(s'.execs[e]) && !Owns(s'.execs[e]) then {e} else {})
  {
    if HasOwner(s, pid) {
      var f :| f in s.execs && Owns(s.execs[f]) && s.execs[f].pid == pid;
      assert f != e ==> s'.execs[f] == s.execs[f];
    }
    if HasOwner(s', pid) {
      var f :| f in s'.execs && Owns(s'.execs[f]) && s'.execs[f].pid == pid;
      assert f != e ==> s'.execs[f] == s.execs[f];
    }
  }

  lemma {:induction false} StepKeepsAccount(s: State, a: Step, e: nat, pid: int)
    requires Inv(s) && s.up && ExecStep(a) && e in s.execs && Accounted(s, pid)
    ensures Accounted(NextExec(s, a, e, s.execs[e]), pid)
  {
    var x := s.execs[e];
    var s' := NextExec(s, a, e, x);
    assert ExecInv(s, e);
    if x.pid != pid {
      StepElsewhere(s, a, e, pid);
      OwnerFrame(s, s', e, pid);
    } else if pid in s.rows {
      StepEffect(s, a, e);
      OwnerFrame(s, s', e, pid);
      EffectKeepsAccount(s, s', e, pid);
    } else {
      StepKeepsExecs(s, a, e);
      UnknownRow(s, a, e);
    }
  }

  lemma {:induction false} UnknownRow(s: State, a: Step, e: nat)
    requires Inv(s) && s.up && ExecStep(a) && e in s.execs && s.execs[e].pid !in s.rows
    requires Accounted(s, s.execs[e].pid)
    ensures Accounted(NextExec(s, a, e, s.execs[e]), s.execs[e].pid)
  {
    assert ExecInv(s, e);
  }

  lemma {:induction false} EffectKeepsAccount(s: State, s': State, e: nat, pid: int)
    requires e in s.execs && e in s'.execs && s.execs[e].pid == pid && pid in s.rows && pid in s'.rows
    requires Accounted(s, pid)
    requires Effect(s.execs[e], s'.execs[e], s.rows[pid].status, s'.rows[pid].status,
                    Allowance(s', pid) - Allowance(s, pid))
    requires HasOwner(s', pid) == (Owns(s'.execs[e]) || (!Owns(s.execs[e]) && HasOwner(s, pid)))
    requires Spent(s', pid) <= Spent(s, pid) + (if MaySend(s'.execs[e]) && !Owns(s'.execs[e]) then {e} else {})
    ensures Accounted(s', pid)
  {
    var x, x' := s.execs[e], s'.execs[e];
    if MaySend(x') && !Owns(x') {
      if Owns(x) {
        SubsetCardinality(Spent(s', pid), Spent(s, pid) + {e});
        assert HasOwner(s, pid);
      } else {
        assert e in Spent(s, pid);
        SubsetCardinality(Spent(s', pid), Spent(s, pid));
      }
    } else {
      SubsetCardinality(Spent(s', pid), Spent(s, pid));
    }
  }

  lemma {:induction false} HumanKeepsAccount(s: State, t: Transition, target: int, event: Event, pid: int)
    requires Inv(s) && Accounted(s, pid)
    requires t.Decide? || t.Withdraw? || t.Resolve?
    requires t.Resolve? && t.resolution.AllowRetry? ==> event == Retried(target)
    requires !event.Reverted?
    ensures Accounted(Update(s, target, t, event), pid)
  {
    var s' := Update(s, target, t, event);
    assert Spent(s', pid) == Spent(s, pid);
    assert HasOwner(s', pid) <==> HasOwner(s, pid);
    if s'.log != s.log {
      Appended(s.log, event, pid);
    }
  }

  lemma {:induction false} CrashKeepsAccount(s: State, pid: int)
    requires Inv(s) && s.up && Accounted(s, pid)
    ensures Accounted(NextUp(s, Crash), pid)
  {
    var s' := NextUp(s, Crash);
    Appended(s.log, Crashed, pid);
    assert !HasOwner(s', pid);
    if pid in s.rows {
      if HasOwner(s, pid) {
        var e :| e in s.execs && Owns(s.execs[e]) && s.execs[e].pid == pid;
        assert ExecInv(s, e);
        assert Spent(s', pid) <= Spent(s, pid) + {e};
        SubsetCardinality(Spent(s', pid), Spent(s, pid) + {e});
      } else {
        assert Spent(s', pid) <= Spent(s, pid);
        SubsetCardinality(Spent(s', pid), Spent(s, pid));
      }
    }
  }

  lemma {:induction false} RestartKeepsAccount(s: State, pid: int)
    requires Inv(s) && !s.up && Accounted(s, pid)
    ensures Accounted(Next(s, Restart), pid)
  {
    Appended(s.log, Restarted, pid);
    assert Spent(Next(s, Restart), pid) == Spent(s, pid);
    assert forall e :: e in s.execs ==> ExecInv(s, e);
    assert !HasOwner(s, pid);
  }

  lemma {:induction false} NextKeepsAccount(s: State, a: Step, pid: int)
    requires Inv(s) && Accounted(s, pid)
    ensures Accounted(Next(s, a), pid)
  {
    if !s.up {
      if a.Restart? {
        RestartKeepsAccount(s, pid);
      }
    } else if ExecStep(a) {
      if a.exec in s.execs {
        StepKeepsAccount(s, a, a.exec, pid);
      }
    } else {
      match a
      case HumanDecide(p, approve, reviewer) =>
        HumanKeepsAccount(s, Decide(approve, reviewer), p, Decision(p, approve), pid);
      case WithdrawPending(p, owner) => HumanKeepsAccount(s, Withdraw(owner), p, Decision(p, false), pid);
      case HumanResolve(p, resolution, user, now) =>
        HumanKeepsAccount(s, Resolve(resolution, user, now), p,
                          if resolution.AllowRetry? then Retried(p) else Confirmed(p), pid);
      case Crash => CrashKeepsAccount(s, pid);
      case Propose(p, _, _) => ProposeKeepsAccount(s, a, pid);
      case Call(e, _) => CallKeepsAccount(s, a, pid);
      case _ =>
    }
  }

  lemma {:induction false} ProposeKeepsAccount(s: State, a: Step, pid: int)
    requires Inv(s) && s.up && Accounted(s, pid) && a.Propose?
    ensures Accounted(Next(s, a), pid)
  {
    var s' := Next(s, a);
    assert Spent(s', pid) == Spent(s, pid);
    assert HasOwner(s', pid) <==> HasOwner(s, pid);
    if pid !in s.rows {
      assert Spent(s, pid) == {};
    }
  }

  lemma {:induction false} CallKeepsAccount(s: State, a: Step, pid: int)
    requires Inv(s) && s.up && Accounted(s, pid) && a.Call?
    ensures Accounted(Next(s, a), pid)
  {
    if a.exec !in s.execs {
      var s' := Next(s, a);
      assert Spent(s', pid) == Spent(s, pid);
      assert HasOwner(s', pid) <==> HasOwner(s, pid) by {
        forall f | f in s.execs ensures f in s'.execs && s'.execs[f] == s.execs[f] {}
      }
    }
  }

  lemma {:induction false} RunInv(steps: seq<Step>)
    ensures Inv(Run(steps))
  {
    if steps != [] {
      RunInv(steps[..|steps| - 1]);
      NextKeepsInv(Run(steps[..|steps| - 1]), steps[|steps| - 1]);
    }
  }

  lemma {:induction false} RunAccounted(steps: seq<Step>, pid: int)
    ensures Accounted(Run(steps), pid)
  {
    if steps == [] {
      assert Spent(INITIAL, pid) == {};
    } else {
      RunInv(steps[..|steps| - 1]);
      RunAccounted(steps[..|steps| - 1], pid);
      NextKeepsAccount(Run(steps[..|steps| - 1]), steps[|steps| - 1], pid);
    }
  }

  lemma {:induction false} SendersMaySend(s: State, pid: int)
    requires Inv(s)
    ensures forall e :: e in Senders(s.log, pid) ==>
                          e in s.execs && s.execs[e].pid == pid && MaySend(s.execs[e])
  {
  }

  lemma {:induction false} SendersBound(s: State, pid: int)
    requires Inv(s) && Accounted(s, pid)
    ensures |Senders(s.log, pid)| <= 1 + Allowance(s, pid)
    ensures pid !in s.rows ==> Senders(s.log, pid) == {}
    ensures pid in s.rows && s.rows[pid].status in {Pending, Approved, Rejected} ==>
              |Senders(s.log, pid)| <= Allowance(s, pid)
  {
    SendersMaySend(s, pid);
    forall e | e in s.execs ensures ExecInv(s, e) {}
    if HasOwner(s, pid) {
      var e :| e in s.execs && Owns(s.execs[e]) && s.execs[e].pid == pid;
      assert ExecInv(s, e);
      assert Senders(s.log, pid) <= Spent(s, pid) + {e};
      SubsetCardinality(Senders(s.log, pid), Spent(s, pid) + {e});
    } else {
      assert Senders(s.log, pid) <= Spent(s, pid);
      SubsetCardinality(Senders(s.log, pid), Spent(s, pid));
    }
  }

  lemma {:induction false} NoReadOnlyReverts(s: State, log: seq<Event>, pid: int)
    requires Inv(s) && log <= s.log
    requires pid in s.rows && s.rows[pid].action != DeviceQuery
    ensures ReadOnlyReverts(log, pid) == 0
  {
    if log != [] {
      assert log[|log| - 1] == s.log[|log| - 1];
      NoReadOnlyReverts(s, log[..|log| - 1], pid);
    }
  }

  /** Safety over whole runs. However callers, cancellations, crashes and restarts interleave, the calls whose
      command lines reach the device for a proposal number at most one plus the human retry authorisations,
      plus, for read-only queries, the reverts the protocol permits because a query changes nothing. */
  lemma {:induction false} SendsAreAuthorised(steps: seq<Step>, pid: int)
    ensures var s := Run(steps);
            |Senders(s.log, pid)| <= 1 + Retries(s.log, pid) + ReadOnlyReverts(s.log, pid)
    ensures var s := Run(steps);
            pid in s.rows && s.rows[pid].action != DeviceQuery ==>
              |Senders(s.log, pid)| <= 1 + Retries(s.log, pid)
    ensures var s := Run(steps);
            pid in s.rows && s.rows[pid].action != DeviceQuery
            && s.rows[pid].status in {Pending, Approved, Rejected} ==>
              |Senders(s.log, pid)| <= Retries(s.log, pid)
  {
    var s := Run(steps);
    RunInv(steps);
    RunAccounted(steps, pid);
    SendersBound(s, pid);
    if pid in s.rows && s.rows[pid].action != DeviceQuery {
      NoReadOnlyReverts(s, s.log, pid);
    }
  }

  /** At most one live call is in charge of a proposal, and only while the row says EXECUTING; a proposal whose
      call was cut off between its claim and its `try` stays EXECUTING with nobody in charge. */
  lemma {:induction false} OneOwner(steps: seq<Step>, e: nat, f: nat)
    requires var s := Run(steps); e in s.execs && f in s.execs && Owns(s.execs[e]) && Owns(s.execs[f])
    ensures var s := Run(steps);
            && (s.execs[e].pid == s.execs[f].pid ==> e == f)
            && s.execs[e].pid in s.rows && s.rows[s.execs[e].pid].status == Executing
  {
    RunInv(steps);
    assert ExecInv(Run(steps), e);
  }

  // ---------------------------------------------------------------- the order of events

  predicate Releases(event: Event, pid: int) {
    event == Retried(pid) || (event.Reverted? && event.pid == pid)
  }

  ghost predicate ApprovedBefore(log: seq<Event>, n: nat, pid: int)
    requires n <= |log|
  {
    exists j :: 0 <= j < n && log[j] == Decision(pid, true)
  }

  ghost predicate ReleasedBetween(log: seq<Event>, i: nat, k: nat, pid: int)
    requires k <= |log|
  {
    exists j :: i < j < k && Releases(log[j], pid)
  }

  ghost predicate ClaimedBefore(log: seq<Event>, n: nat, pid: int, e: nat)
    requires n <= |log|
  {
    exists j :: 0 <= j < n && log[j] == ClaimedBy(pid, e)
  }

  predicate IsClaim(event: Event, pid: int) { event.ClaimedBy? && event.pid == pid }

  /** The order the log must show: approval before claim, release between claims, claim before lines. */
  ghost predicate Ordered(log: seq<Event>) {
    && (forall i :: 0 <= i < |log| && log[i].ClaimedBy? ==> ApprovedBefore(log, i, log[i].pid))
    && (forall i, k :: 0 <= i < k < |log| && log[i].ClaimedBy? && IsClaim(log[k], log[i].pid) ==>
          ReleasedBetween(log, i, k, log[i].pid))
    && (forall i :: 0 <= i < |log| && log[i].Line? ==> ClaimedBefore(log, i, log[i].pid, log[i].exec))
  }

  ghost predicate RowOrder(s: State, pid: int) {
    if pid !in s.rows || s.rows[pid].status == Pending then
      forall i :: 0 <= i < |s.log| ==> !IsClaim(s.log[i], pid)
    else
      && (s.rows[pid].status != Rejected ==> ApprovedBefore(s.log, |s.log|, pid))
      && (s.rows[pid].status == Approved ==>
            forall i :: 0 <= i < |s.log| && IsClaim(s.log[i], pid) ==> ReleasedBetween(s.log, i, |s.log|, pid))
  }

  ghost predicate OrderInv(s: State) {
    && Ordered(s.log)
    && (forall pid :: RowOrder(s, pid))
    && (forall e :: e in s.execs && (Owns(s.execs[e]) || !s.execs[e].worker.Unsubmitted?) ==>
          ClaimedBefore(s.log, |s.log|, s.execs[e].pid, e))
  }

  /** Facts about the log survive a longer log. */
  lemma {:induction false} Longer(log: seq<Event>, event: Event)
    ensures forall n, pid :: 0 <= n <= |log| && ApprovedBefore(log, n, pid) ==> ApprovedBefore(log + [event], n, pid)
    ensures forall pid :: ApprovedBefore(log, |log|, pid) ==> ApprovedBefore(log + [event], |log| + 1, pid)
    ensures forall i, k, pid :: 0 <= i < k <= |log| && ReleasedBetween(log, i, k, pid) ==>
                                  ReleasedBetween(log + [event], i, k, pid)
    ensures forall i, pid :: 0 <= i < |log| && ReleasedBetween(log, i, |log|, pid) ==>
                               ReleasedBetween(log + [event], i, |log| + 1, pid)
    ensures forall n, pid, e :: 0 <= n <= |log| && ClaimedBefore(log, n, pid, e) ==>
                                  ClaimedBefore(log + [event], n, pid, e)
    ensures forall pid, e :: ClaimedBefore(log, |log|, pid, e) ==> ClaimedBefore(log + [event], |log| + 1, pid, e)
  {
    forall n, pid | 0 <= n <= |log| && ApprovedBefore(log, n, pid)
      ensures ApprovedBefore(log + [event], n, pid)
    {
      var j :| 0 <= j < n && log[j] == Decision(pid, true);
      assert (log + [event])[j] == Decision(pid, true);
    }
    forall pid | ApprovedBefore(log, |log|, pid) ensures ApprovedBefore(log + [event], |log| + 1, pid) {
      var j :| 0 <= j < |log| && log[j] == Decision(pid, true);
      assert (log + [event])[j] == Decision(pid, true);
    }
    forall i, k, pid | 0 <= i < k <= |log| && ReleasedBetween(log, i, k, pid)
      ensures ReleasedBetween(log + [event], i, k, pid)
    {
      var j :| i < j < k && Releases(log[j], pid);
      assert Releases((log + [event])[j], pid);
    }
    forall i, pid | 0 <= i < |log| && ReleasedBetween(log, i, |log|, pid)
      ensures ReleasedBetween(log + [event], i, |log| + 1, pid)
    {
      var j :| i < j < |log| && Releases(log[j], pid);
      assert Releases((log + [event])[j], pid);
    }
    forall n, pid, e | 0 <= n <= |log| && ClaimedBefore(log, n, pid, e)
      ensures ClaimedBefore(log + [event], n, pid, e)
    {
      var j :| 0 <= j < n && log[j] == ClaimedBy(pid, e);
      assert (log + [event])[j] == ClaimedBy(pid, e);
    }
    forall pid, e | ClaimedBefore(log, |log|, pid, e)
      ensures ClaimedBefore(log + [event], |log| + 1, pid, e)
    {
      var j :| 0 <= j < |log| && log[j] == ClaimedBy(pid, e);
      assert (log + [event])[j] == ClaimedBy(pid, e);
    }
  }

  ghost predicate ClaimInOrder(log: seq<Event>, k: nat)
    requires k < |log| && log[k].ClaimedBy?
  {
    && ApprovedBefore(log, k, log[k].pid)
    && forall i :: 0 <= i < k && IsClaim(log[i], log[k].pid) ==> ReleasedBetween(log, i, k, log[k].pid)
  }

  /** The log in order, entry by entry. */
  lemma {:induction false} OrderedIs(log: seq<Event>)
    ensures Ordered(log) <==>
            && (forall k :: 0 <= k < |log| && log[k].ClaimedBy? ==> ClaimInOrder(log, k))
            && (forall k :: 0 <= k < |log| && log[k].Line? ==> ClaimedBefore(log, k, log[k].pid, log[k].exec))
  {
    if Ordered(log) {
      forall k | 0 <= k < |log| && log[k].ClaimedBy? ensures ClaimInOrder(log, k) {}
    }
  }

  lemma {:induction false} OldEntries(log: seq<Event>, event: Event, k: nat)
    requires k < |log|
    ensures (log + [event])[k] == log[k]
    ensures log[k].ClaimedBy? && ClaimInOrder(log, k) ==> ClaimInOrder(log + [event], k)
    ensures log[k].Line? && ClaimedBefore(log, k, log[k].pid, log[k].exec) ==>
              ClaimedBefore(log + [event], k, log[k].pid, log[k].exec)
  {
    Longer(log, event);
  }

  lemma {:induction false} NewEntry(s: State, event: Event)
    requires OrderInv(s)
    ensures event.ClaimedBy? && event.pid in s.rows && s.rows[event.pid].status == Approved ==>
              ClaimInOrder(s.log + [event], |s.log|)
    ensures event.Line? && ClaimedBefore(s.log, |s.log|, event.pid, event.exec) ==>
              ClaimedBefore(s.log + [event], |s.log|, event.pid, event.exec)
  {
    Longer(s.log, event);
    if event.ClaimedBy? {
      assert RowOrder(s, event.pid);
    }
  }

  /** When appending `event` keeps the log in order. */
  lemma {:induction false} OrderedAppend(s: State, event: Event)
    requires OrderInv(s)
    requires event.ClaimedBy? ==> event.pid in s.rows && s.rows[event.pid].status == Approved
    requires event.Line? ==> ClaimedBefore(s.log, |s.log|, event.pid, event.exec)
    ensures Ordered(s.log + [event])
  {
    var log' := s.log + [event];
    OrderedIs(s.log);
    OrderedIs(log');
    NewEntry(s, event);
    forall k | 0 <= k < |s.log| && (log'[k].ClaimedBy? || log'[k].Line?)
      ensures log'[k] == s.log[k]
      ensures log'[k].ClaimedBy? ==> ClaimInOrder(log', k)
      ensures log'[k].Line? ==> ClaimedBefore(log', k, log'[k].pid, log'[k].exec)
    {
      OldEntries(s.log, event, k);
    }
  }

  /** The status of a row, with a row that does not exist counted as not yet decided. */
  function StatusOf(rows: Rows, pid: int): Status { if pid in rows then rows[pid].status else Pending }

  /** How one step may move the status of `pid`, given the event it appended, if any. */
  predicate OrderEffect(status: Status, status': Status, event: Option<Event>, pid: int) {
    && (event.Some? && IsClaim(event.value, pid) ==> status == Approved && status' == Executing)
    && (status' == Approved ==>
          || status == Approved
          || (event.Some? && Releases(event.value, pid) && status != Pending && status != Rejected)
          || (status == Pending && event == Some(Decision(pid, true))))
    && (status == Pending ==> status' == Pending || status' == Rejected || status' == Approved)
    && (status' == Pending ==> status == Pending)
    && (status == Rejected ==> status' == Rejected)
  }

  function LastEvent(s: State, s': State): Option<Event> {
    if |s'.log| == |s.log| + 1 then Some(s'.log[|s.log|]) else None
  }

  lemma {:induction false} StepOrderEffect(s: State, a: Step, pid: int)
    requires Inv(s) && s.up && ExecStep(a) && a.exec in s.execs
    ensures var s' := NextExec(s, a, a.exec, s.execs[a.exec]);
            OrderEffect(StatusOf(s.rows, pid), StatusOf(s'.rows, pid), LastEvent(s, s'), pid)
  {
    assert ExecInv(s, a.exec);
  }

  lemma {:induction false} OtherOrderEffect(s: State, a: Step, pid: int)
    requires !(s.up && ExecStep(a))
    ensures OrderEffect(StatusOf(s.rows, pid), StatusOf(Next(s, a).rows, pid), LastEvent(s, Next(s, a)), pid)
  {
  }

  lemma {:induction false} EffectKeepsRowOrder(s: State, s': State, pid: int)
    requires RowOrder(s, pid) && s.rows.Keys <= s'.rows.Keys
    requires s'.log == s.log || (|s'.log| == |s.log| + 1 && s'.log == s.log + [s'.log[|s.log|]])
    requires OrderEffect(StatusOf(s.rows, pid), StatusOf(s'.rows, pid), LastEvent(s, s'), pid)
    ensures RowOrder(s', pid)
  {
    if s'.log != s.log {
      Longer(s.log, s'.log[|s.log|]);
    }
  }

  lemma {:induction false} NextLog(s: State, a: Step)
    ensures var s' := Next(s, a);
            && (s'.log == s.log || (|s'.log| == |s.log| + 1 && s'.log == s.log + [s'.log[|s.log|]]))
            && s.rows.Keys <= s'.rows.Keys
  {
    if s.up && ExecStep(a) && a.exec in s.execs {
      StepLog(s, a, a.exec);
    }
  }

  lemma {:induction false} ClaimantsKept(s: State, a: Step)
    requires Inv(s) && OrderInv(s)
    ensures var s' := Next(s, a);
            forall e :: e in s'.execs && (Owns(s'.execs[e]) || !s'.execs[e].worker.Unsubmitted?) ==>
                          ClaimedBefore(s'.log, |s'.log|, s'.execs[e].pid, e)
  {
    var s' := Next(s, a);
    NextLog(s, a);
    if s'.log != s.log {
      Longer(s.log, s'.log[|s.log|]);
    }
    forall e | e in s'.execs && (Owns(s'.execs[e]) || !s'.execs[e].worker.Unsubmitted?)
      ensures ClaimedBefore(s'.log, |s'.log|, s'.execs[e].pid, e)
    {
      if s.up && a.TryClaim? && a.exec == e && e in s.execs && !Owns(s.execs[e]) && s.execs[e].worker.Unsubmitted? {
        assert ExecInv(s, e);
        assert s'.log[|s.log|] == ClaimedBy(s.execs[e].pid, e);
      } else {
        ClaimantWasOne(s, a, e);
      }
    }
  }

  lemma {:induction false} ClaimantWasOne(s: State, a: Step, e: nat)
    requires e in Next(s, a).execs
    requires Owns(Next(s, a).execs[e]) || !Next(s, a).execs[e].worker.Unsubmitted?
    requires !(s.up && a.TryClaim? && a.exec == e && e in s.execs && !Owns(s.execs[e])
               && s.execs[e].worker.Unsubmitted?)
    ensures e in s.execs && s.execs[e].pid == Next(s, a).execs[e].pid
    ensures Owns(s.execs[e]) || !s.execs[e].worker.Unsubmitted?
  {
    if s.up && ExecStep(a) && a.exec in s.execs {
      StepFrame(s, a, a.exec);
    }
  }

  /** A claim is recorded for an APPROVED row only. */
  lemma {:induction false} ClaimIsDue(s: State, a: Step)
    requires LastEvent(s, Next(s, a)).Some? && LastEvent(s, Next(s, a)).value.ClaimedBy?
    ensures StatusOf(s.rows, LastEvent(s, Next(s, a)).value.pid) == Approved
  {
  }

  /** A line is recorded only for a call whose thread was started. */
  lemma {:induction false} LineIsDue(s: State, a: Step)
    requires LastEvent(s, Next(s, a)).Some? && LastEvent(s, Next(s, a)).value.Line?
    ensures var event := LastEvent(s, Next(s, a)).value;
            event.exec in s.execs && s.execs[event.exec].pid == event.pid && !s.execs[event.exec].worker.Unsubmitted?
  {
  }

  lemma {:induction false} EventInOrder(s: State, a: Step)
    requires Inv(s) && OrderInv(s)
    ensures Ordered(Next(s, a).log)
  {
    var s' := Next(s, a);
    NextLog(s, a);
    if s'.log != s.log {
      var event := s'.log[|s.log|];
      if event.ClaimedBy? {
        ClaimIsDue(s, a);
      } else if event.Line? {
        LineIsDue(s, a);
      }
      OrderedAppend(s, event);
    }
  }

  lemma {:induction false} NextKeepsOrder(s: State, a: Step)
    requires Inv(s) && OrderInv(s)
    ensures OrderInv(Next(s, a))
  {
    var s' := Next(s, a);
    NextLog(s, a);
    EventInOrder(s, a);
    ClaimantsKept(s, a);
    forall pid ensures RowOrder(s', pid) {
      if s.up && ExecStep(a) {
        if a.exec in s.execs {
          StepOrderEffect(s, a, pid);
        }
      } else {
        OtherOrderEffect(s, a, pid);
      }
      assert RowOrder(s, pid);
      EffectKeepsRowOrder(s, s', pid);
    }
  }

  lemma {:induction false} RunOrdered(steps: seq<Step>)
    ensures OrderInv(Run(steps))
  {
    if steps != [] {
      var before := steps[..|steps| - 1];
      RunOrdered(before);
      RunInv(before);
      NextKeepsOrder(Run(before), steps[|steps| - 1]);
    }
  }

  /** In every run: each claim of a proposal comes after a decision approving it, and between any two claims of
      it there is a revert or a human retry authorisation; lines come only from a call that claimed first;
      and a call whose claim was reverted as never sent put no line on the device, then or later. */
  lemma {:induction false} ClaimsFollowDecisions(steps: seq<Step>, pid: int)
    ensures var log := Run(steps).log;
            forall i :: 0 <= i < |log| && IsClaim(log[i], pid) ==> ApprovedBefore(log, i, pid)
    ensures var log := Run(steps).log;
            forall i, k :: 0 <= i < k < |log| && IsClaim(log[i], pid) && IsClaim(log[k], pid) ==>
                             ReleasedBetween(log, i, k, pid)
    ensures var log := Run(steps).log;
            forall i :: 0 <= i < |log| && log[i].Line? ==> ClaimedBefore(log, i, log[i].pid, log[i].exec)
    ensures var log := Run(steps).log;
            forall i, k :: 0 <= i < |log| && 0 <= k < |log| && log[i].Reverted?
                           && log[i].reason == DispatchFailedBeforeSend && log[k].Line? ==>
                             log[k].exec != log[i].exec
  {
    RunOrdered(steps);
    RunInv(steps);
  }

  // ---------------------------------------------------------------- what the protocol does not promise

  lemma {:induction false} RunSnoc(steps: seq<Step>, a: Step)
    ensures Run(steps + [a]) == Next(Run(steps), a)
  {
    assert (steps + [a])[..|steps|] == steps;
  }

  lemma {:induction false} NoRetries(log: seq<Event>, pid: int)
    requires forall i :: 0 <= i < |log| ==> log[i] != Retried(pid)
    ensures Retries(log, pid) == 0
  {
    if log != [] {
      NoRetries(log[..|log| - 1], pid);
    }
  }

  function Below(n: nat): (r: set<nat>)
    ensures |r| == n && (forall e :: e in r ==> e < n)
  {
    if n == 0 then {} else Below(n - 1) + {n - 1}
  }

  /** An approved query 1, sent by the calls 0 .. n-1 so far, with no retry authorisation. */
  ghost predicate SentBy(s: State, n: nat) {
    && s.up && 1 in s.rows && s.rows[1].status == Approved && s.rows[1].action == DeviceQuery
    && (forall e :: e in s.execs ==> e < n)
    && (forall i :: 0 <= i < |s.log| ==> s.log[i] != Retried(1))
    && Senders(s.log, 1) == Below(n)
  }

  /** A new call claims an approved proposal and hands it to its thread. */
  lemma {:induction false} ClaimAndSubmit(s: State, e: nat, pid: int)
    requires s.up && e !in s.execs && pid in s.rows && s.rows[pid].status == Approved
    ensures var s3 := Next(Next(Next(s, Call(e, pid)), TryClaim(e, 0)), Submit(e));
            && s3.up && s3.execs == s.execs[e := Exec(pid, Awaiting, Open(false))]
            && s3.rows == s.rows[pid := Claim(0).Update(s.rows[pid])] && s3.log == s.log + [ClaimedBy(pid, e)]
  {
    var called := Next(s, Call(e, pid));
    assert called == s.(execs := s.execs[e := Exec(pid, Preflight(CLAIM_TRIES), Unsubmitted)]);
    CalledClaims(called, e, pid);
  }

  lemma {:induction false} CalledClaims(s: State, e: nat, pid: int)
    requires s.up && e in s.execs && s.execs[e] == Exec(pid, Preflight(CLAIM_TRIES), Unsubmitted)
    requires pid in s.rows && s.rows[pid].status == Approved
    ensures var s2 := Next(Next(s, TryClaim(e, 0)), Submit(e));
            && s2.up && s2.execs == s.execs[e := Exec(pid, Awaiting, Open(false))]
            && s2.rows == s.rows[pid := Claim(0).Update(s.rows[pid])] && s2.log == s.log + [ClaimedBy(pid, e)]
  {
    var claimed := Next(s, TryClaim(e, 0));
    assert claimed.execs == s.execs[e := Exec(pid, Claimed, Unsubmitted)];
  }

  lemma {:induction false} OneFailure(s: State, n: nat)
    requires s.up && n in s.execs && s.execs[n] == Exec(1, Awaiting, Open(false))
    requires 1 in s.rows && s.rows[1].status == Executing && s.rows[1].action == DeviceQuery
    ensures var s3 := Next(Next(Next(s, Emit(n)), Reply(n, false, true)), Requeue(n));
            && s3.up && s3.execs == s.execs[n := Exec(1, Gone, Closed(true))]
            && s3.rows == s.rows[1 := RevertUnexecuted(ReadOnlyFailed).Update(s.rows[1])]
            && s3.log == s.log + [Line(1, n), Reverted(1, n, ReadOnlyFailed)]
  {
    var s1 := Next(s, Emit(n));
    assert s1.log == s.log + [Line(1, n)];
    var s2 := Next(s1, Reply(n, false, true));
    assert s2.log == s1.log && s2.execs[n] == Exec(1, Replied(false, true), Closed(true));
    assert Next(s2, Requeue(n)).log == s2.log + [Reverted(1, n, ReadOnlyFailed)];
  }

  lemma {:induction false} OneMoreSender(log: seq<Event>, n: nat)
    ensures Senders(log + [ClaimedBy(1, n), Line(1, n), Reverted(1, n, ReadOnlyFailed)], 1) == Senders(log, 1) + {n}
  {
    var log' := log + [ClaimedBy(1, n), Line(1, n), Reverted(1, n, ReadOnlyFailed)];
    assert log'[|log| + 1] == Line(1, n);
    forall e | e in Senders(log, 1) ensures e in Senders(log', 1) {
      var i :| 0 <= i < |log| && log[i].Line? && log[i].pid == 1 && log[i].exec == e;
      assert log'[i] == log[i];
    }
  }

  lemma {:induction false} ThreeMore(steps: seq<Step>, a: Step, b: Step, c: Step) returns (more: seq<Step>)
    ensures Run(more) == Next(Next(Next(Run(steps), a), b), c)
  {
    RunSnoc(steps, a);
    RunSnoc(steps + [a], b);
    RunSnoc(steps + [a] + [b], c);
    more := steps + [a] + [b] + [c];
  }

  /** Some run reaches it. */
  ghost predicate QuerySentBy(n: nat) { exists steps: seq<Step> :: SentBy(Run(steps), n) }

  lemma {:induction false} SendOnceMore(steps: seq<Step>, n: nat)
    requires SentBy(Run(steps), n)
    ensures QuerySentBy(n + 1)
  {
    var s := Run(steps);
    var half := ThreeMore(steps, Call(n, 1), TryClaim(n, 0), Submit(n));
    ClaimAndSubmit(s, n, 1);
    var more := ThreeMore(half, Emit(n), Reply(n, false, true), Requeue(n));
    OneFailure(Run(half), n);
    SentOnce(s, Run(half), Run(more), n);
  }

  lemma {:induction false} SentOnce(s: State, half: State, s': State, n: nat)
    requires SentBy(s, n) && half.log == s.log + [ClaimedBy(1, n)]
    requires half.execs == s.execs[n := Exec(1, Awaiting, Open(false))] && half.rows == s.rows[1 := Claim(0).Update(s.rows[1])]
    requires s'.up && s'.execs == half.execs[n := Exec(1, Gone, Closed(true))]
    requires s'.rows == half.rows[1 := RevertUnexecuted(ReadOnlyFailed).Update(half.rows[1])]
    requires s'.log == half.log + [Line(1, n), Reverted(1, n, ReadOnlyFailed)]
    ensures SentBy(s', n + 1)
  {
    LogOnce(s.log, half.log, s'.log, n);
    OneMoreSender(s.log, n);
  }

  lemma {:induction false} LogOnce(a: seq<Event>, b: seq<Event>, c: seq<Event>, n: nat)
    requires b == a + [ClaimedBy(1, n)] && c == b + [Line(1, n), Reverted(1, n, ReadOnlyFailed)]
    requires forall i :: 0 <= i < |a| ==> a[i] != Retried(1)
    ensures c == a + [ClaimedBy(1, n), Line(1, n), Reverted(1, n, ReadOnlyFailed)]
    ensures forall i :: 0 <= i < |c| ==> c[i] != Retried(1)
  {
  }

  lemma {:induction false} ApprovedQuery()
    ensures QuerySentBy(0)
  {
    var propose, approve := Propose(1, 1, DeviceQuery), HumanDecide(1, true, 7);
    RunSnoc([], propose);
    RunSnoc([] + [propose], approve);
    var s := Run([] + [propose] + [approve]);
    assert s.log == [Decision(1, true)];
    assert Senders(s.log, 1) == {};
  }

  lemma {:induction false} QueryRun(n: nat)
    ensures QuerySentBy(n)
  {
    if n == 0 {
      ApprovedQuery();
    } else {
      QueryRun(n - 1);
      var steps: seq<Step> :| SentBy(Run(steps), n - 1);
      SendOnceMore(steps, n - 1);
    }
  }

  /** For read-only queries there is no bound by human decisions: one approved query that keeps failing after
      the device was reached may be sent any number of times with no further decision. */
  lemma {:induction false} QueriesMayBeResent(n: nat)
    ensures exists steps: seq<Step> :: var s := Run(steps);
              1 in s.rows && s.rows[1].action == DeviceQuery && Retries(s.log, 1) == 0 && |Senders(s.log, 1)| == n
  {
    QueryRun(n);
    var steps: seq<Step> :| SentBy(Run(steps), n);
    NoRetries(Run(steps).log, 1);
  }
}
