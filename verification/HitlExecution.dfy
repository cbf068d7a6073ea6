/**
 One call of `execute_approved_proposal`, step by step, while everybody else keeps running.

 The call performs its own protocol steps on the shared system; before each of its reads and writes the
 environment may have performed any steps that are not this call's own (`env`). What a call reads from the
 outside world (authorisation, policy, the executor's answer, failures) is its `Script`.
*/
module HitlExecution {
  import opened Basics
  import opened HitlProposal
  import opened HitlRuns

  /** Outcome of the checks made before a claim. */
  datatype Precheck = Pass | Hold | Blacklisted

  /** What becomes of the call after its claim was committed. */
  datatype Attempt =
    | CutBeforeTry                        // cancelled between the commit and the `try`
    | RaisedBeforeSubmit                  // no session for the execution could be opened
    | Raised(sent: bool, cancelled: bool) // exception or cancellation inside the `try`
    | Answered(sent: bool, ok: bool, dispatched: bool)

  /** How the transaction that writes EXECUTED ends. */
  datatype Finishing = Finishes | FinishFails | FinishCancelled

  datatype Script = Script(authorised: bool, precheck: Precheck, attempt: Attempt, finishing: Finishing, now: int, polls: nat)

  datatype Answer = Summary(status: Status) | ResumeError | TransitionError | CancelledError

  /** Steps that are not taken by call `e`, and during which the process stays up. */
  predicate Foreign(steps: seq<Step>, e: nat) {
    forall i :: 0 <= i < |steps| ==>
                  !steps[i].Crash? && !(steps[i].Call? && steps[i].exec == e) && !(ExecStep(steps[i]) && steps[i].exec == e)
  }

  /** While a call owns its claim nobody else can move the row. */
  lemma {:induction false} OwnedRowIsStable(s: State, a: Step, e: nat)
    requires Inv(s) && s.up && e in s.execs && Foreign([a], e)
    ensures var s' := Next(s, a);
            && s'.up && e in s'.execs && s'.execs[e] == s.execs[e]
            && (Owns(s.execs[e]) ==>
                  s.execs[e].pid in s.rows && s.execs[e].pid in s'.rows
                  && s'.rows[s.execs[e].pid] == s.rows[s.execs[e].pid])
  {
    assert [a][0] == a;
    assert ExecInv(s, e);
    if ExecStep(a) && a.exec in s.execs {
      assert ExecInv(s, a.exec);
    }
  }

  lemma {:induction false} OthersKeep(s: State, steps: seq<Step>, e: nat)
    requires Inv(s) && s.up && e in s.execs && Foreign(steps, e)
    ensures var s' := Replayed(s, steps);
            && Inv(s') && s'.up && e in s'.execs && s'.execs[e] == s.execs[e]
            && (Owns(s.execs[e]) ==>
                  s.execs[e].pid in s.rows && s.execs[e].pid in s'.rows
                  && s'.rows[s.execs[e].pid] == s.rows[s.execs[e].pid])
    decreases |steps|
  {
    if steps == [] {
      assert ExecInv(s, e);
    } else {
      assert Foreign([steps[0]], e) && Foreign(steps[1..], e);
      OwnedRowIsStable(s, steps[0], e);
      NextKeepsInv(s, steps[0]);
      OthersKeep(Next(s, steps[0]), steps[1..], e);
    }
  }

  /** Nobody else does anything. */
  ghost predicate Undisturbed(env: nat -> seq<Step>) { forall i :: env(i) == [] }

  /** How a row must stand after an answered call: the executor's answer decides, and doubt wins over success. */
  predicate Outcome(p: Proposal, ok: bool, dispatched: bool, finishFails: bool) {
    if ok then p.status == if finishFails then Unknown else Executed
    else if !dispatched then p.status == Approved && p.reason == Some(DispatchFailedBeforeSend)
    else if p.action == DeviceQuery then p.status == Approved && p.reason == Some(ReadOnlyFailed)
    else p.status == Unknown
  }

  /** What a re-read row means to a call that does not own it: EXECUTED is the end, APPROVED may be tried, and nothing else
      can be resumed. A missing row counts as PENDING. */
  predicate AnsweredByStatus(r: Result<(), Answer>, status: Status) {
    && (r.Ok? <==> status == Approved)
    && (r == Err(Summary(Executed)) <==> status == Executed)
    && (r == Err(ResumeError) <==> status != Approved && status != Executed)
  }

  /** Nobody moves a row that is EXECUTED or REJECTED. */
  lemma {:induction false} SettledRowStays(s: State, a: Step, pid: int)
    requires pid in s.rows && Settled(s.rows[pid])
    ensures pid in Next(s, a).rows && Next(s, a).rows[pid] == s.rows[pid]
  {
  }

  lemma {:induction false} SettledRowStaysAll(s: State, steps: seq<Step>, pid: int)
    requires pid in s.rows && Settled(s.rows[pid])
    ensures pid in Replayed(s, steps).rows && Replayed(s, steps).rows[pid] == s.rows[pid]
    decreases |steps|
  {
    if steps != [] {
      SettledRowStays(s, steps[0], pid);
      SettledRowStaysAll(Next(s, steps[0]), steps[1..], pid);
    }
  }

  /** The answers of a call that did not claim, and the row they leave: refused by authorisation or a failed check, rejected by
      policy, and otherwise what the row says. */
  predicate RefusalFits(answer: Answer, status: Status, script: Script) {
    && (answer == Summary(Executed) ==> status == Executed)
    && (answer == ResumeError ==> status != Executed)
    && (answer == Summary(Approved) ==> !script.authorised || script.precheck.Hold?)
    && (answer == Summary(Rejected) ==> script.authorised && script.precheck.Blacklisted? && status == Rejected)
    && (answer == TransitionError ==> script.authorised && script.precheck.Blacklisted?)
    && (answer == Summary(Executed) || answer == ResumeError || answer == Summary(Approved) || answer == Summary(Rejected)
        || answer == TransitionError)
  }

  /** The answer when nobody else does anything, by the status of the row and what the checks say. */
  predicate AnsweredAlone(r: Result<(), Answer>, status: Status, script: Script) {
    && (status == Executed ==> r == Err(Summary(Executed)))
    && (status != Executed && status != Approved ==> r == Err(ResumeError))
    && (status == Approved ==>
          if !script.authorised || script.precheck.Hold? then r == Err(Summary(Approved))
          else if script.precheck.Blacklisted? then r == Err(Summary(Rejected))
          else r.Ok?)
  }

  ghost predicate SettledAt(s: State, pid: int) { pid in s.rows && Settled(s.rows[pid]) }

  class System {
    var s: State

    constructor (s: State)
      ensures this.s == s
    {
      this.s := s;
    }

    /** One atomic step of the call itself. */
    method Do(a: Step)
      requires Inv(s)
      modifies this
      ensures s == Next(old(s), a) && Inv(s)
    {
      s := Next(s, a);
      NextKeepsInv(old(s), a);
    }

    /** One attempt to claim the row. */
    method Claim(e: nat, now: int) returns (won: bool)
      requires Inv(s) && s.up && e in s.execs && s.execs[e].pc.Preflight? && s.execs[e].pc.tries > 0
      modifies this
      ensures Inv(s) && s.up && e in s.execs
      ensures won <==> e in old(s).execs && Enabled(old(s).rows, old(s).execs[e].pid, Transition.Claim(now))
      ensures won ==> s.execs[e] == old(s).execs[e].(pc := Claimed)
                      && s.execs[e].pid in s.rows && s.rows[s.execs[e].pid].status == Executing
      ensures !won ==> s.rows == old(s).rows && s.execs[e] == old(s).execs[e].(pc := Preflight(old(s).execs[e].pc.tries - 1))
    {
      Do(TryClaim(e, now));
      won := s.execs[e].pc == Claimed;
    }

    /** The preflight found the command blacklisted: reject the proposal if it is still approved. */
    method Block(e: nat)
      requires Inv(s) && s.up && e in s.execs && s.execs[e].pc == Preflight(CLAIM_TRIES)
      modifies this
      ensures Inv(s) && s.up && e in s.execs && s.execs[e] == old(s).execs[e].(pc := Gone)
      ensures s.rows == Transit(old(s).rows, old(s).execs[e].pid, RejectForPolicy).1
    {
      Do(BlockByPolicy(e));
    }

    /** Hands the command to the device worker, which may put lines on the device. */
    method Dispatch(e: nat, sent: bool, others: seq<Step>)
      requires Inv(s) && s.up && e in s.execs && s.execs[e].pc == Claimed && s.execs[e].worker == Unsubmitted
      requires Foreign(others, e)
      modifies this
      ensures Inv(s) && s.up && e in s.execs
      ensures s.execs[e] == old(s).execs[e].(pc := Awaiting, worker := Open(sent))
      ensures s.execs[e].pid in s.rows && s.execs[e].pid in old(s).rows
              && s.rows[s.execs[e].pid] == old(s).rows[s.execs[e].pid]
    {
      assert ExecInv(s, e);
      Do(Submit(e));
      if sent {
        Await(others, e);
        Do(Emit(e));
      }
    }

    /** The worker thread returns its result to the waiting call. */
    method Receive(e: nat, ok: bool, dispatched: bool)
      requires Inv(s) && s.up && e in s.execs && s.execs[e].pc == Awaiting && s.execs[e].worker.Open?
      requires s.execs[e].worker.sent ==> dispatched
      modifies this
      ensures Inv(s) && s.up && e in s.execs && s.rows == old(s).rows
      ensures s.execs[e] == Exec(old(s).execs[e].pid, Replied(ok, dispatched), Closed(old(s).execs[e].worker.sent))
    {
      Do(Reply(e, ok, dispatched));
    }

    /** Writes UNKNOWN: whether the command took effect cannot be told. */
    method MarkUnknown(e: nat)
      requires Inv(s) && s.up && e in s.execs && Owns(s.execs[e])
      modifies this
      ensures Inv(s) && s.up && e in s.execs && s.execs[e] == old(s).execs[e].(pc := Gone)
      ensures s.execs[e].pid in s.rows && s.execs[e].pid in old(s).rows && s.rows[s.execs[e].pid].status == Unknown
      ensures s.rows[s.execs[e].pid].action == old(s).rows[s.execs[e].pid].action
    {
      assert ExecInv(s, e);
      Do(GiveUp(e));
    }

    /** Writes what the executor's answer calls for. */
    method Settle(e: nat, pid: int, finishFails: bool, now: int)
      requires Inv(s) && s.up && e in s.execs && s.execs[e].pid == pid && s.execs[e].pc.Replied?
      modifies this
      ensures Inv(s) && s.up && e in s.execs && s.execs[e] == old(s).execs[e].(pc := Gone)
      ensures pid in s.rows && pid in old(s).rows && s.rows[pid].action == old(s).rows[pid].action
      ensures Outcome(s.rows[pid], old(s).execs[e].pc.ok, old(s).execs[e].pc.dispatched, finishFails)
    {
      assert ExecInv(s, e);
      var ok, dispatched := s.execs[e].pc.ok, s.execs[e].pc.dispatched;
      if !ok {
        var reason := RetryableReason(dispatched, s.rows[pid].action);
        if reason.Some? {
          Do(Requeue(e));
        } else {
          MarkUnknown(e);
        }
      } else if finishFails {
        MarkUnknown(e);
      } else {
        Do(Finish(e, now));
      }
    }

    /** Whatever everybody else does while the call waits. */
    method Await(others: seq<Step>, ghost e: nat)
      requires Inv(s) && s.up && e in s.execs && Foreign(others, e)
      modifies this
      ensures s == Replayed(old(s), others)
      ensures forall pid :: SettledAt(old(s), pid) ==> pid in s.rows && s.rows[pid] == old(s).rows[pid]
      ensures Inv(s) && s.up && e in s.execs && s.execs[e] == old(s).execs[e]
      ensures Owns(s.execs[e]) ==> s.execs[e].pid in s.rows && s.execs[e].pid in old(s).rows
                                   && s.rows[s.execs[e].pid] == old(s).rows[s.execs[e].pid]
    {
      OthersKeep(s, others, e);
      forall pid | SettledAt(s, pid) ensures pid in Replayed(s, others).rows && Replayed(s, others).rows[pid] == s.rows[pid] {
        SettledRowStaysAll(s, others, pid);
      }
      var i := 0;
      while i < |others|
        invariant 0 <= i <= |others|
        invariant Replayed(s, others[i..]) == Replayed(old(s), others)
      {
        s := Next(s, others[i]);
        i := i + 1;
      }
    }

    /** Waits for another caller to settle the row. `Ok` only when it went back to APPROVED. */
    method PollExecuting(e: nat, pid: int, env: nat -> seq<Step>, first: nat, polls: nat)
      returns (r: Result<(), Answer>)
      requires Inv(s) && s.up && e in s.execs && !Owns(s.execs[e])
      requires forall i :: Foreign(env(i), e)
      modifies this
      ensures Inv(s) && s.up && e in s.execs && s.execs[e] == old(s).execs[e]
      ensures polls > 0 || StatusOf(old(s).rows, pid) == Executing ==> AnsweredByStatus(r, StatusOf(s.rows, pid))
      ensures polls == 0 ==> r == Err(ResumeError) && s == old(s)
      ensures Undisturbed(env) ==> s == old(s)
      ensures SettledAt(old(s), pid) ==> pid in s.rows && s.rows[pid] == old(s).rows[pid]
    {
      var i := 0;
      while i < polls
        invariant Inv(s) && s.up && e in s.execs && s.execs[e] == old(s).execs[e]
        invariant Undisturbed(env) ==> s == old(s)
        invariant SettledAt(old(s), pid) ==> pid in s.rows && s.rows[pid] == old(s).rows[pid]
        invariant i <= polls && (i == 0 ==> s == old(s))
        invariant i > 0 ==> StatusOf(s.rows, pid) == Executing
      {
        Await(env(first + i), e);
        if pid !in s.rows {
          return Err(ResumeError);
        }
        var status := s.rows[pid].status;
        if status == Executed {
          return Err(Summary(Executed));
        }
        if status == Approved {
          return Ok(());
        }
        if status != Executing {
          return Err(ResumeError);
        }
        i := i + 1;
      }
      r := Err(ResumeError);
    }

    /** After a lost claim: re-read the row and go to a summary, an error, a wait, or another try. */
    method HandleClaimConflict(e: nat, pid: int, env: nat -> seq<Step>, first: nat, polls: nat)
      returns (r: Result<(), Answer>)
      requires Inv(s) && s.up && e in s.execs && !Owns(s.execs[e])
      requires forall i :: Foreign(env(i), e)
      modifies this
      ensures Inv(s) && s.up && e in s.execs && s.execs[e] == old(s).execs[e]
      ensures AnsweredByStatus(r, StatusOf(s.rows, pid))
      ensures SettledAt(old(s), pid) ==> pid in s.rows && s.rows[pid] == old(s).rows[pid]
    {
      Await(env(first), e);
      if pid !in s.rows {
        return Err(ResumeError);
      }
      var status := s.rows[pid].status;
      if status == Executed {
        return Err(Summary(Executed));
      }
      if status == Unknown {
        return Err(ResumeError);
      }
      if status == Executing {
        r := PollExecuting(e, pid, env, first + 1, polls);
        return;
      }
      if status == Approved {
        return Ok(());
      }
      r := Err(ResumeError);
    }

    /** The row as it is at first: waits while another call executes it, and goes on only when it is APPROVED. */
    method AwaitApproved(e: nat, pid: int, env: nat -> seq<Step>, polls: nat) returns (r: Result<(), Answer>)
      requires Inv(s) && s.up && e in s.execs && !Owns(s.execs[e])
      requires forall i :: Foreign(env(i), e)
      modifies this
      ensures Inv(s) && s.up && e in s.execs && s.execs[e] == old(s).execs[e]
      ensures AnsweredByStatus(r, StatusOf(s.rows, pid))
      ensures SettledAt(old(s), pid) ==> pid in s.rows && s.rows[pid] == old(s).rows[pid]
      ensures Undisturbed(env) ==> s == old(s)
    {
      Await(env(0), e);
      if pid !in s.rows {
        return Err(ResumeError);
      }
      if s.rows[pid].status == Executed {
        return Err(Summary(Executed));
      }
      if s.rows[pid].status == Executing {
        r := PollExecuting(e, pid, env, 1, polls);
        if r.Err? {
          return;
        }
      }
      r := if s.rows[pid].status == Approved then Ok(()) else Err(ResumeError);
    }

    /** Re-checks authorisation and policy, then claims the row. `Ok` exactly when this call owns the claim. A row that is
        EXECUTED or REJECTED at the start decides the answer, whatever others do. */
    method PreflightAndClaim(e: nat, pid: int, script: Script, env: nat -> seq<Step>)
      returns (r: Result<(), Answer>)
      requires Inv(s) && s.up && e in s.execs && s.execs[e] == Exec(pid, Preflight(CLAIM_TRIES), Unsubmitted)
      requires forall i :: Foreign(env(i), e)
      modifies this
      ensures Inv(s) && s.up && e in s.execs
      ensures r.Ok? ==> s.execs[e] == Exec(pid, Claimed, Unsubmitted) && script.authorised && script.precheck.Pass?
      ensures r.Ok? ==> pid in s.rows && s.rows[pid].status == Executing
      ensures r.Err? ==> s.execs[e].worker == Unsubmitted && !Owns(s.execs[e])
      ensures r.Err? ==> RefusalFits(r.error, StatusOf(s.rows, pid), script)
      ensures StatusOf(old(s).rows, pid) == Executed ==> r == Err(Summary(Executed))
      ensures StatusOf(old(s).rows, pid) == Rejected ==> r == Err(ResumeError)
      ensures SettledAt(old(s), pid) ==> pid in s.rows && s.rows[pid] == old(s).rows[pid]
      ensures Undisturbed(env) ==> AnsweredAlone(r, StatusOf(old(s).rows, pid), script)
    {
      r := AwaitApproved(e, pid, env, script.polls);
      if r.Ok? {
        r := ClaimApproved(e, pid, script, env);
      }
    }

    /** The part of it after the row was read as APPROVED. */
    method ClaimApproved(e: nat, pid: int, script: Script, env: nat -> seq<Step>)
      returns (r: Result<(), Answer>)
      requires Inv(s) && s.up && e in s.execs && s.execs[e] == Exec(pid, Preflight(CLAIM_TRIES), Unsubmitted)
      requires StatusOf(s.rows, pid) == Approved && forall i :: Foreign(env(i), e)
      modifies this
      ensures Inv(s) && s.up && e in s.execs
      ensures r.Ok? ==> s.execs[e] == Exec(pid, Claimed, Unsubmitted) && script.authorised && script.precheck.Pass?
      ensures r.Ok? ==> pid in s.rows && s.rows[pid].status == Executing
      ensures r.Err? ==> s.execs[e].worker == Unsubmitted && !Owns(s.execs[e])
      ensures r.Err? ==> RefusalFits(r.error, StatusOf(s.rows, pid), script)
      ensures Undisturbed(env) ==> AnsweredAlone(r, Approved, script)
    {
      Await(env(script.polls + 1), e);
      if !script.authorised || script.precheck.Hold? {
        return Err(Summary(Approved));
      }
      if script.precheck.Blacklisted? {
        var approved := pid in s.rows && s.rows[pid].status == Approved;
        Block(e);
        return Err(if approved then Summary(Rejected) else TransitionError);
      }
      var won := Claim(e, script.now);
      if won {
        return Ok(());
      }
      r := SecondClaim(e, pid, script, env);
    }

    /** The first claim was lost: once the row is APPROVED again, one more try; without it, the row is not APPROVED. */
    method SecondClaim(e: nat, pid: int, script: Script, env: nat -> seq<Step>)
      returns (r: Result<(), Answer>)
      requires Inv(s) && s.up && e in s.execs && s.execs[e] == Exec(pid, Preflight(1), Unsubmitted)
      requires forall i :: Foreign(env(i), e)
      modifies this
      ensures Inv(s) && s.up && e in s.execs
      ensures r.Ok? ==> s.execs[e] == Exec(pid, Claimed, Unsubmitted)
      ensures r.Ok? ==> pid in s.rows && s.rows[pid].status == Executing
      ensures r.Err? ==> s.execs[e].worker == Unsubmitted && !Owns(s.execs[e])
      ensures r.Err? ==> r.error == if StatusOf(s.rows, pid) == Executed then Summary(Executed) else ResumeError
      ensures r.Err? && StatusOf(s.rows, pid) == Approved ==> s.execs[e].pc == Preflight(0)
    {
      r := HandleClaimConflict(e, pid, env, script.polls + 2, script.polls);
      if r.Err? {
        return;
      }
      Await(env(2 * script.polls + 3), e);
      var won := Claim(e, script.now);
      if won {
        return Ok(());
      }
      r := HandleClaimConflict(e, pid, env, 2 * script.polls + 4, script.polls);
      if r.Ok? {
        r := Err(ResumeError);
      }
    }

    /** The whole call. Whatever the environment does, a call that claimed leaves the row as its own outcome
        demands, and a call that did not claim put nothing on the device. */
    method ExecuteApproved(e: nat, pid: int, script: Script, env: nat -> seq<Step>)
      returns (answer: Answer, claimed: bool)
      requires Inv(s) && s.up && e !in s.execs
      requires forall i :: Foreign(env(i), e)
      requires script.attempt.Answered? && script.attempt.sent ==> script.attempt.dispatched
      modifies this
      ensures Inv(s) && s.up && e in s.execs
      ensures !claimed ==> s.execs[e].worker == Unsubmitted && e !in Senders(s.log, pid)
      ensures !claimed ==> RefusalFits(answer, StatusOf(s.rows, pid), script)
      ensures claimed ==> script.authorised && script.precheck.Pass? && pid in s.rows && s.execs[e].pc == Gone
      ensures StatusOf(old(s).rows, pid) == Executed ==> !claimed && answer == Summary(Executed)
      ensures StatusOf(old(s).rows, pid) == Rejected ==> !claimed && answer == ResumeError
      ensures Undisturbed(env) && StatusOf(old(s).rows, pid) != Approved && StatusOf(old(s).rows, pid) != Executed ==>
                !claimed && answer == ResumeError
      ensures Undisturbed(env) && StatusOf(old(s).rows, pid) == Approved ==>
                && (claimed <==> script.authorised && script.precheck.Pass?)
                && (!script.authorised || script.precheck.Hold? ==> answer == Summary(Approved))
                && (script.authorised && script.precheck.Blacklisted? ==> answer == Summary(Rejected))
      ensures claimed ==>
                match script.attempt
                case CutBeforeTry => s.rows[pid].status == Executing && answer == CancelledError
                case RaisedBeforeSubmit => s.rows[pid].status == Unknown && answer == Summary(Unknown)
                case Raised(sent, cancelled) =>
                  && s.rows[pid].status == Unknown && s.execs[e].worker == Open(sent)
                  && answer == (if cancelled then CancelledError else Summary(Unknown))
                case Answered(sent, ok, dispatched) =>
                  && answer == (if ok && script.finishing.FinishCancelled? then CancelledError else Summary(s.rows[pid].status))
                  && s.execs[e].worker == Closed(sent)
                  && Outcome(s.rows[pid], ok, dispatched, !script.finishing.Finishes?)
    {
      Do(Call(e, pid));
      var prepared := PreflightAndClaim(e, pid, script, env);
      claimed := prepared.Ok?;
      if !claimed {
        answer := prepared.error;
        return;
      }
      var n := 3 * script.polls + 6;
      Await(env(n), e);
      if script.attempt.CutBeforeTry? {
        Do(Leave(e));
        return CancelledError, true;
      }
      if script.attempt.RaisedBeforeSubmit? {
        MarkUnknown(e);
        return Summary(Unknown), true;
      }
      Dispatch(e, script.attempt.sent, env(n + 1));
      Await(env(n + 2), e);
      if script.attempt.Raised? {
        MarkUnknown(e);
        return if script.attempt.cancelled then CancelledError else Summary(Unknown), true;
      }
      Receive(e, script.attempt.ok, script.attempt.dispatched);
      Await(env(n + 3), e);
      Settle(e, pid, !script.finishing.Finishes?, script.now);
      answer := if script.attempt.ok && script.finishing.FinishCancelled? then CancelledError else Summary(s.rows[pid].status);
    }
  }
}
