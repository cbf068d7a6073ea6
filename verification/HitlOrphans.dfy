/**
 Claims that nobody is in charge of any more: how a run comes to leave a row EXECUTING without a live call,
 and that nothing but the recovery at the next start ends it.
*/
module HitlOrphans {
  import opened Basics
  import opened HitlProposal
  import opened HitlRuns

  ghost predicate Orphaned(s: State, pid: int) {
    pid in s.rows && s.rows[pid].status == Executing && !HasOwner(s, pid)
  }

  /** The step ends the call in charge of `pid` without a status update: the call is cut off, as by a cancellation between
      its claim and its `try`, or the process ends. */
  predicate CutsOff(s: State, a: Step, pid: int) {
    s.up && (a.Crash? || (a.Leave? && a.exec in s.execs && Owns(s.execs[a.exec]) && s.execs[a.exec].pid == pid))
  }

  predicate Recovers(s: State, a: Step) { !s.up && a.Restart? }

  /** A step of a call that is not in charge leaves an orphaned row and its missing owner as they are. */
  lemma {:induction false} ForeignStep(s: State, a: Step, pid: int)
    requires Inv(s) && Orphaned(s, pid) && s.up && ExecStep(a) && a.exec in s.execs
    ensures Orphaned(Next(s, a), pid) && Next(s, a).rows[pid] == s.rows[pid]
  {
    var s' := Next(s, a);
    StepFrame(s, a, a.exec);
    assert ExecInv(s, a.exec);
    if s.execs[a.exec].pid == pid {
      assert !Owns(s.execs[a.exec]);
    }
    OwnerFrame(s, s', a.exec, pid);
  }

  lemma {:induction false} OuterStep(s: State, a: Step, pid: int)
    requires Inv(s) && Orphaned(s, pid) && !(s.up && ExecStep(a)) && !Recovers(s, a)
    ensures Orphaned(Next(s, a), pid) && Next(s, a).rows[pid] == s.rows[pid]
  {
  }

  lemma {:induction false} OrphanStays(s: State, a: Step, pid: int)
    requires Inv(s) && Orphaned(s, pid) && !Recovers(s, a)
    ensures Orphaned(Next(s, a), pid) && Next(s, a).rows[pid] == s.rows[pid]
  {
    if s.up && ExecStep(a) {
      if a.exec in s.execs {
        ForeignStep(s, a, pid);
      }
    } else {
      OuterStep(s, a, pid);
    }
  }

  /** No step of `more`, taken from `s` on, is the recovery at a restart. */
  predicate NoRecovery(s: State, more: seq<Step>)
    decreases |more|
  {
    more != [] ==> !Recovers(s, more[0]) && NoRecovery(Next(s, more[0]), more[1..])
  }

  lemma {:induction false} OrphanUntilRecovery(s: State, more: seq<Step>, pid: int)
    requires Inv(s) && Orphaned(s, pid) && NoRecovery(s, more)
    ensures Orphaned(Replayed(s, more), pid) && Replayed(s, more).rows[pid] == s.rows[pid]
    decreases |more|
  {
    if more != [] {
      OrphanStays(s, more[0], pid);
      NextKeepsInv(s, more[0]);
      OrphanUntilRecovery(Next(s, more[0]), more[1..], pid);
    }
  }

  /** Once orphaned, a row stays exactly as it is, with nobody in charge, until a restart recovers the system. */
  lemma {:induction false} OrphanUntilRestart(steps: seq<Step>, more: seq<Step>, pid: int)
    requires Orphaned(Run(steps), pid) && NoRecovery(Run(steps), more)
    ensures Orphaned(Run(steps + more), pid) && Run(steps + more).rows[pid] == Run(steps).rows[pid]
  {
    RunInv(steps);
    OrphanUntilRecovery(Run(steps), more, pid);
    ReplayFrom(steps, more);
  }

  /** The recovery releases it, to UNKNOWN and nothing else. */
  lemma {:induction false} RestartReleases(s: State, pid: int)
    requires Orphaned(s, pid) && !s.up
    ensures Next(s, Restart).rows[pid] == MarkUnknown(DispatchOutcomeUnknown).Update(s.rows[pid])
  {
  }

  /** In every run: a step changes an orphaned row if and only if it is the recovery at a restart. */
  lemma {:induction false} OnlyRestartReleases(steps: seq<Step>, a: Step, pid: int)
    requires Orphaned(Run(steps), pid)
    ensures var s, s' := Run(steps), Run(steps + [a]);
            && pid in s'.rows
            && (s'.rows[pid] != s.rows[pid] <==> Recovers(s, a))
            && (Orphaned(s', pid) <==> !Recovers(s, a))
            && (Recovers(s, a) ==> s'.rows[pid].status == Unknown)
  {
    RunSnoc(steps, a);
    RunInv(steps);
    if Recovers(Run(steps), a) {
      RestartReleases(Run(steps), pid);
    } else {
      OrphanStays(Run(steps), a, pid);
    }
  }

  /** A row comes to be EXECUTING only by a claim, which puts a call in charge. */
  lemma {:induction false} ClaimHasOwner(s: State, a: Step, pid: int)
    requires StatusOf(s.rows, pid) != Executing && StatusOf(Next(s, a).rows, pid) == Executing
    ensures HasOwner(Next(s, a), pid)
  {
    var x := Next(s, a).execs[a.exec];
    assert Owns(x) && x.pid == pid;
  }

  lemma {:induction false} WasClaimed(s: State, a: Step, pid: int)
    requires Inv(s) && !Orphaned(s, pid) && Orphaned(Next(s, a), pid)
    ensures pid in s.rows && s.rows[pid].status == Executing && s.up
  {
    if StatusOf(s.rows, pid) != Executing {
      ClaimHasOwner(s, a, pid);
    }
    assert forall e :: e in s.execs ==> ExecInv(s, e);
  }

  /** A call in charge that takes a step of its own stays in charge, settles its row, or is cut off. */
  lemma {:induction false} OwnerStep(s: State, a: Step, pid: int)
    requires Inv(s) && s.up && ExecStep(a) && a.exec in s.execs && s.execs[a.exec].pid == pid && Owns(s.execs[a.exec])
    ensures a.Leave? ==> Orphaned(Next(s, a), pid)
    ensures !a.Leave? ==> !Orphaned(Next(s, a), pid)
  {
    var s' := Next(s, a);
    assert ExecInv(s, a.exec);
    StepFrame(s, a, a.exec);
    OwnerFrame(s, s', a.exec, pid);
    if !a.Leave? && !Settling(a) {
      assert Owns(s'.execs[a.exec]);
    }
  }

  lemma {:induction false} BystanderStep(s: State, a: Step, pid: int)
    requires Inv(s) && s.up && ExecStep(a) && HasOwner(s, pid)
    requires a.exec in s.execs ==> !(s.execs[a.exec].pid == pid && Owns(s.execs[a.exec]))
    ensures HasOwner(Next(s, a), pid)
  {
    if a.exec in s.execs {
      StepFrame(s, a, a.exec);
      OwnerFrame(s, Next(s, a), a.exec, pid);
    }
  }

  lemma {:induction false} OuterOwner(s: State, a: Step, pid: int)
    requires Inv(s) && s.up && !ExecStep(a) && HasOwner(s, pid)
    ensures a.Crash? <==> !HasOwner(Next(s, a), pid)
  {
    var s' := Next(s, a);
    var e :| e in s.execs && Owns(s.execs[e]) && s.execs[e].pid == pid;
    if !a.Crash? {
      assert e in s'.execs && s'.execs[e] == s.execs[e];
    }
  }

  lemma {:induction false} CrashOrphans(s: State, pid: int)
    requires Inv(s) && s.up && HasOwner(s, pid)
    ensures Orphaned(Next(s, Crash), pid)
  {
    var e :| e in s.execs && Owns(s.execs[e]) && s.execs[e].pid == pid;
    assert ExecInv(s, e);
  }

  lemma {:induction false} BecomesOrphan(s: State, a: Step, pid: int)
    requires Inv(s) && !Orphaned(s, pid) && Orphaned(Next(s, a), pid)
    ensures HasOwner(s, pid) && CutsOff(s, a, pid)
  {
    WasClaimed(s, a, pid);
    if ExecStep(a) {
      if a.exec in s.execs && s.execs[a.exec].pid == pid && Owns(s.execs[a.exec]) {
        OwnerStep(s, a, pid);
      } else {
        BystanderStep(s, a, pid);
      }
    } else {
      OuterOwner(s, a, pid);
    }
  }

  /** In every run: a step leaves a row orphaned that was not if and only if it cuts off the call in charge. */
  lemma {:induction false} OrphanedExactly(steps: seq<Step>, a: Step, pid: int)
    ensures var s, s' := Run(steps), Run(steps + [a]);
            !Orphaned(s, pid) && Orphaned(s', pid) <==> HasOwner(s, pid) && CutsOff(s, a, pid)
  {
    var s := Run(steps);
    RunSnoc(steps, a);
    RunInv(steps);
    if !Orphaned(s, pid) && Orphaned(Next(s, a), pid) {
      BecomesOrphan(s, a, pid);
    } else if HasOwner(s, pid) && CutsOff(s, a, pid) {
      if a.Crash? {
        CrashOrphans(s, pid);
      } else {
        OwnerStep(s, a, pid);
      }
    }
  }

  lemma {:induction false} CancelledClaim(s: State, e: nat, pid: int)
    requires s.up && s.execs == map[e := Exec(pid, Preflight(CLAIM_TRIES), Unsubmitted)]
    requires pid in s.rows && s.rows[pid].status == Approved
    ensures var s2 := Next(Next(s, TryClaim(e, 0)), Leave(e));
            && s2.up && Orphaned(s2, pid) && s2.rows[pid].action == s.rows[pid].action
            && s2.log == s.log + [ClaimedBy(pid, e)]
  {
    var claimed := Next(s, TryClaim(e, 0));
    assert claimed.execs == map[e := Exec(pid, Claimed, Unsubmitted)];
    assert Next(claimed, Leave(e)).execs == map[e := Exec(pid, Gone, Unsubmitted)];
  }

  /** Such a run: a call claims an approved proposal and is cancelled before its `try`. */
  lemma {:induction false} ClaimThenCancel(action: Action)
    ensures exists steps: seq<Step> :: var s := Run(steps);
              s.up && Orphaned(s, 1) && s.rows[1].action == action && s.log == [Decision(1, true), ClaimedBy(1, 0)]
  {
    var half := ThreeMore([], Propose(1, 1, action), HumanDecide(1, true, 7), Call(0, 1));
    var s := Run(half);
    assert s.log == [Decision(1, true)] && s.execs == map[0 := Exec(1, Preflight(CLAIM_TRIES), Unsubmitted)];
    RunSnoc(half, TryClaim(0, 0));
    RunSnoc(half + [TryClaim(0, 0)], Leave(0));
    CancelledClaim(s, 0, 1);
  }
}
