/**
 Approval proposals: one row per proposed device action, moved between six states by
 compare-and-swap updates (`UPDATE ... WHERE id = ? AND status = ?`).

 `Transit` is the meaning of one such update on the whole table; the methods of `ProposalTable`
 perform it in place.
*/
module HitlProposal {
  import opened Basics

  datatype Status = Pending | Approved | Rejected | Executing | Executed | Unknown

  datatype Action = Notify | DeviceQuery | DeviceControl

  datatype Reason =
    | DispatchFailedBeforeSend
    | ReadOnlyFailed
    | PolicyBlacklisted
    | DispatchOutcomeUnknown
    | RetryAuthorized
    | ManualConfirmed
    | ExecutorSucceeded
    | WithdrawnOnArchive

  datatype Resolution = ConfirmExecuted | AllowRetry

  datatype Proposal = Proposal(
    session: int,
    action: Action,
    status: Status,
    reason: Option<Reason>,
    reviewedBy: Option<int>,
    executionStartedAt: Option<int>,
    executedAt: Option<int>,
    resolvedBy: Option<int>)

  datatype Error =
    | NotFound
    | InvalidTransition(current: Status, target: Status)
    | UnsupportedReason

  type Rows = map<int, Proposal>

  function Fresh(session: int, action: Action): Proposal {
    Proposal(session, action, Pending, None, None, None, None, None)
  }

  /** The updates the code can issue against one row. */
  datatype Transition =
    | Decide(approve: bool, reviewer: int)
    | Claim(now: int)
    | RevertUnexecuted(reason: Reason)
    | RejectForPolicy
    | MarkUnknown(reason: Reason)
    | Resolve(resolution: Resolution, user: int, now: int)
    | MarkExecuted(now: int)
    | Withdraw(owner: int)
  {
    /** The status the row must have for the update to take effect. */
    function Source(): Status {
      match this
      case Decide(_, _) => Pending
      case Withdraw(_) => Pending
      case Claim(_) => Approved
      case RejectForPolicy => Approved
      case RevertUnexecuted(_) => Executing
      case MarkUnknown(_) => Executing
      case MarkExecuted(_) => Executing
      case Resolve(_, _, _) => Unknown
    }

    function Target(): Status {
      match this
      case Decide(approve, _) => if approve then Approved else Rejected
      case Withdraw(_) => Rejected
      case Claim(_) => Executing
      case RejectForPolicy => Rejected
      case RevertUnexecuted(_) => Approved
      case MarkUnknown(_) => Unknown
      case MarkExecuted(_) => Executed
      case Resolve(resolution, _, _) => if resolution.ConfirmExecuted? then Executed else Approved
    }

    /** Only fixed reason codes may be written. */
    predicate Supported() {
      match this
      case RevertUnexecuted(reason) => reason.DispatchFailedBeforeSend? || reason.ReadOnlyFailed?
      case MarkUnknown(reason) => reason.DispatchOutcomeUnknown?
      case _ => true
    }

    function Update(p: Proposal): Proposal {
      match this
      case Decide(_, reviewer) => p.(status := Target(), reviewedBy := Some(reviewer))
      case Withdraw(owner) =>
        p.(status := Rejected, reason := Some(WithdrawnOnArchive), reviewedBy := Some(owner))
      case Claim(now) => p.(status := Executing, executionStartedAt := Some(now), reason := None)
      case RejectForPolicy => p.(status := Rejected, reason := Some(PolicyBlacklisted))
      case RevertUnexecuted(reason) =>
        p.(status := Approved, reason := Some(reason), executionStartedAt := None)
      case MarkUnknown(reason) => p.(status := Unknown, reason := Some(reason))
      case MarkExecuted(now) =>
        p.(status := Executed, reason := Some(ExecutorSucceeded), executedAt := Some(now))
      case Resolve(resolution, user, now) =>
        if resolution.ConfirmExecuted? then
          p.(status := Executed, reason := Some(ManualConfirmed), executedAt := Some(now), resolvedBy := Some(user))
        else
          p.(status := Approved, reason := Some(RetryAuthorized), executionStartedAt := None, resolvedBy := Some(user))
    }
  }

  /** Can `t` take effect on row `id`? */
  predicate Enabled(rows: Rows, id: int, t: Transition) {
    t.Supported() && id in rows && rows[id].status == t.Source()
  }

  /** One update: its answer and the table it leaves behind. */
  function Transit(rows: Rows, id: int, t: Transition): (Result<Proposal, Error>, Rows) {
    if !t.Supported() then (Err(UnsupportedReason), rows)
    else if id !in rows then (Err(NotFound), rows)
    else if rows[id].status != t.Source() then (Err(InvalidTransition(rows[id].status, t.Target())), rows)
    else (Ok(t.Update(rows[id])), rows[id := t.Update(rows[id])])
  }

  /** Startup recovery: whatever was executing when the process died is of unknown outcome. */
  function Recovered(rows: Rows): Rows {
    map id | id in rows ::
      if rows[id].status == Executing then MarkUnknown(DispatchOutcomeUnknown).Update(rows[id]) else rows[id]
  }

  function ExecutingIds(rows: Rows): set<int> {
    set id | id in rows && rows[id].status == Executing
  }

  // ---------------------------------------------------------------- the state diagram

  /** The documented diagram, edge by edge. */
  predicate Edge(from: Status, to: Status) {
    || (from == Pending && (to == Approved || to == Rejected))
    || (from == Approved && (to == Executing || to == Rejected))
    || (from == Executing && (to == Executed || to == Unknown || to == Approved))
    || (from == Unknown && (to == Executed || to == Approved))
  }

  /** The updates realise exactly the documented diagram: no other edge, and none missing. */
  lemma {:induction false} EdgesAreExact(from: Status, to: Status)
    ensures Edge(from, to) <==>
            exists t: Transition, p: Proposal ::
              t.Supported() && p.status == from && t.Source() == from && t.Update(p).status == to
  {
    if Edge(from, to) {
      var t :=
        match from
        case Pending => Decide(to == Approved, 0)
        case Approved => if to == Executing then Claim(0) else RejectForPolicy
        case Executing =>
          if to == Executed then MarkExecuted(0)
          else if to == Unknown then MarkUnknown(DispatchOutcomeUnknown)
          else RevertUnexecuted(DispatchFailedBeforeSend)
        case _ => Resolve(if to == Executed then ConfirmExecuted else AllowRetry, 0, 0);
      var p := Fresh(0, Notify).(status := from);
      assert t.Supported() && p.status == from && t.Source() == from && t.Update(p).status == to;
    }
  }

  /** A table after any sequence of updates, including ones that fail. */
  function TransitAll(rows: Rows, ts: seq<(int, Transition)>): Rows {
    if ts == [] then rows else TransitAll(Transit(rows, ts[0].0, ts[0].1).1, ts[1..])
  }

  predicate Settled(p: Proposal) { p.status == Executed || p.status == Rejected }

  /** EXECUTED and REJECTED are final: no sequence of updates ever touches such a row again. */
  lemma {:induction false} SettledForever(rows: Rows, ts: seq<(int, Transition)>, id: int)
    requires id in rows && Settled(rows[id])
    ensures id in TransitAll(rows, ts) && TransitAll(rows, ts)[id] == rows[id]
  {
    if ts != [] {
      SettledForever(Transit(rows, ts[0].0, ts[0].1).1, ts[1..], id);
    }
  }

  /** What the columns of a row say about each other. */
  predicate RowInv(p: Proposal) {
    && (p.status != Pending ==> p.reviewedBy.Some?)
    && (p.status == Pending ==> p == Fresh(p.session, p.action))
    && (p.status == Executing ==> p.executionStartedAt.Some? && p.reason.None?)
    && (p.status == Approved ==> p.executionStartedAt.None? && p.executedAt.None?)
    && (p.status == Unknown ==> p.executionStartedAt.Some? && p.reason == Some(DispatchOutcomeUnknown))
    && (p.executedAt.Some? <==> p.status == Executed)
    && (p.reason == Some(RetryAuthorized) || p.reason == Some(ManualConfirmed) ==> p.resolvedBy.Some?)
  }

  predicate TableInv(rows: Rows) {
    forall id :: id in rows ==> RowInv(rows[id])
  }

  /** Over every sequence of updates: no row is past PENDING without the person who decided it on record, a start time is
      recorded exactly while one is owed, and a row is EXECUTED exactly when it has an execution time. */
  lemma {:induction false} TableInvKept(rows: Rows, ts: seq<(int, Transition)>)
    requires TableInv(rows)
    ensures TableInv(TransitAll(rows, ts)) && TransitAll(rows, ts).Keys == rows.Keys
  {
    if ts != [] {
      TableInvKept(Transit(rows, ts[0].0, ts[0].1).1, ts[1..]);
    }
  }

  lemma {:induction false} RecoveredKeepsTable(rows: Rows)
    requires TableInv(rows)
    ensures TableInv(Recovered(rows)) && Recovered(rows).Keys == rows.Keys
    ensures ExecutingIds(Recovered(rows)) == {}
    ensures forall id :: id in rows ==>
                           (Recovered(rows)[id].status == Unknown <==>
                            rows[id].status == Unknown || rows[id].status == Executing)
    ensures forall id :: id in rows && rows[id].status != Executing ==> Recovered(rows)[id] == rows[id]
  {
    assert forall id :: id in rows ==> Recovered(rows)[id].status != Executing;
  }

  // ---------------------------------------------------------------- the table, updated in place

  /** One compare-and-swap: the row must exist and stand at `from`; it then becomes `row` of itself, and nothing else changes.
      Otherwise nothing changes at all, and the error names what was wrong. */
  ghost predicate CompareAndSet(before: Rows, after: Rows, r: Result<Proposal, Error>, id: int, from: Status, target: Status,
                                row: Proposal -> Proposal)
  {
    if id !in before then r == Err(NotFound) && after == before
    else if before[id].status != from then r == Err(InvalidTransition(before[id].status, target)) && after == before
    else r == Ok(row(before[id])) && after == before[id := row(before[id])]
  }

  class ProposalTable {
    var rows: Rows

    constructor ()
      ensures rows == map[]
    {
      rows := map[];
    }

    method Create(id: int, session: int, action: Action)
      requires id !in rows
      modifies this
      ensures rows == old(rows)[id := Fresh(session, action)]
    {
      rows := rows[id := Proposal(session, action, Pending, None, None, None, None, None)];
    }

    /** The shape every compare-and-swap answer takes once the row did not match. */
    method Refuse(id: int, target: Status) returns (r: Result<Proposal, Error>)
      ensures r == if id in rows then Err(InvalidTransition(rows[id].status, target)) else Err(NotFound)
    {
      if id in rows {
        r := Err(InvalidTransition(rows[id].status, target));
      } else {
        r := Err(NotFound);
      }
    }

    method Decide(id: int, approve: bool, reviewer: int) returns (r: Result<Proposal, Error>)
      modifies this
      ensures (r, rows) == Transit(old(rows), id, Transition.Decide(approve, reviewer))
      ensures CompareAndSet(old(rows), rows, r, id, Pending, if approve then Approved else Rejected,
                            (p: Proposal) => p.(status := if approve then Approved else Rejected, reviewedBy := Some(reviewer)))
    {
      if id !in rows || rows[id].status != Pending {
        r := Refuse(id, if approve then Approved else Rejected);
        return;
      }
      var decided := rows[id].(status := if approve then Approved else Rejected, reviewedBy := Some(reviewer));
      rows := rows[id := decided];
      r := Ok(decided);
    }

    method ClaimExecution(id: int, now: int) returns (r: Result<Proposal, Error>)
      modifies this
      ensures (r, rows) == Transit(old(rows), id, Claim(now))
      ensures CompareAndSet(old(rows), rows, r, id, Approved, Executing,
                            (p: Proposal) => p.(status := Executing, executionStartedAt := Some(now), reason := None))
    {
      if id !in rows || rows[id].status != Approved {
        r := Refuse(id, Executing);
        return;
      }
      var claimed := rows[id].(status := Executing, executionStartedAt := Some(now), reason := None);
      rows := rows[id := claimed];
      r := Ok(claimed);
    }

    method Revert(id: int, reason: Reason) returns (r: Result<Proposal, Error>)
      modifies this
      ensures (r, rows) == Transit(old(rows), id, RevertUnexecuted(reason))
      ensures reason == DispatchFailedBeforeSend || reason == ReadOnlyFailed ==>
                CompareAndSet(old(rows), rows, r, id, Executing, Approved,
                              (p: Proposal) => p.(status := Approved, reason := Some(reason), executionStartedAt := None))
      ensures reason != DispatchFailedBeforeSend && reason != ReadOnlyFailed ==> r == Err(UnsupportedReason) && rows == old(rows)
    {
      if reason != DispatchFailedBeforeSend && reason != ReadOnlyFailed {
        return Err(UnsupportedReason);
      }
      if id !in rows || rows[id].status != Executing {
        r := Refuse(id, Approved);
        return;
      }
      var reverted := rows[id].(status := Approved, reason := Some(reason), executionStartedAt := None);
      rows := rows[id := reverted];
      r := Ok(reverted);
    }

    method RejectForPolicy(id: int) returns (r: Result<Proposal, Error>)
      modifies this
      ensures (r, rows) == Transit(old(rows), id, Transition.RejectForPolicy)
      ensures CompareAndSet(old(rows), rows, r, id, Approved, Rejected,
                            (p: Proposal) => p.(status := Rejected, reason := Some(PolicyBlacklisted)))
    {
      if id !in rows || rows[id].status != Approved {
        r := Refuse(id, Rejected);
        return;
      }
      var rejected := rows[id].(status := Rejected, reason := Some(PolicyBlacklisted));
      rows := rows[id := rejected];
      r := Ok(rejected);
    }

    method MarkUnknown(id: int, reason: Reason) returns (r: Result<Proposal, Error>)
      modifies this
      ensures (r, rows) == Transit(old(rows), id, Transition.MarkUnknown(reason))
      ensures reason == DispatchOutcomeUnknown ==>
                CompareAndSet(old(rows), rows, r, id, Executing, Unknown,
                              (p: Proposal) => p.(status := Unknown, reason := Some(DispatchOutcomeUnknown)))
      ensures reason != DispatchOutcomeUnknown ==> r == Err(UnsupportedReason) && rows == old(rows)
    {
      if reason != DispatchOutcomeUnknown {
        return Err(UnsupportedReason);
      }
      if id !in rows || rows[id].status != Executing {
        r := Refuse(id, Unknown);
        return;
      }
      var unknown := rows[id].(status := Unknown, reason := Some(reason));
      rows := rows[id := unknown];
      r := Ok(unknown);
    }

    method ResolveUnknown(id: int, resolution: Resolution, user: int, now: int) returns (r: Result<Proposal, Error>)
      modifies this
      ensures (r, rows) == Transit(old(rows), id, Resolve(resolution, user, now))
      ensures resolution == ConfirmExecuted ==>
                CompareAndSet(old(rows), rows, r, id, Unknown, Executed,
                              (p: Proposal) => p.(status := Executed, reason := Some(ManualConfirmed), executedAt := Some(now),
                                      resolvedBy := Some(user)))
      ensures resolution == AllowRetry ==>
                CompareAndSet(old(rows), rows, r, id, Unknown, Approved,
                              (p: Proposal) => p.(status := Approved, reason := Some(RetryAuthorized), executionStartedAt := None,
                                      resolvedBy := Some(user)))
    {
      var target := if resolution == ConfirmExecuted then Executed else Approved;
      if id !in rows || rows[id].status != Unknown {
        r := Refuse(id, target);
        return;
      }
      var resolved := rows[id].(status := target, resolvedBy := Some(user));
      if resolution == ConfirmExecuted {
        resolved := resolved.(reason := Some(ManualConfirmed), executedAt := Some(now));
      } else {
        resolved := resolved.(reason := Some(RetryAuthorized), executionStartedAt := None);
      }
      rows := rows[id := resolved];
      r := Ok(resolved);
    }

    method MarkExecuted(id: int, now: int) returns (r: Result<Proposal, Error>)
      modifies this
      ensures (r, rows) == Transit(old(rows), id, Transition.MarkExecuted(now))
      ensures CompareAndSet(old(rows), rows, r, id, Executing, Executed,
                            (p: Proposal) => p.(status := Executed, reason := Some(ExecutorSucceeded), executedAt := Some(now)))
    {
      if id !in rows || rows[id].status != Executing {
        r := Refuse(id, Executed);
        return;
      }
      var executed := rows[id].(status := Executed, reason := Some(ExecutorSucceeded), executedAt := Some(now));
      rows := rows[id := executed];
      r := Ok(executed);
    }

    method RecoverExecuting() returns (changed: nat)
      modifies this
      ensures rows == Recovered(old(rows))
      ensures rows.Keys == old(rows).Keys
      ensures forall id :: id in old(rows) ==>
                rows[id] == if old(rows)[id].status == Executing
                            then old(rows)[id].(status := Unknown, reason := Some(DispatchOutcomeUnknown)) else old(rows)[id]
      ensures changed == |ExecutingIds(old(rows))|
    {
      changed := |set id | id in rows && rows[id].status == Executing|;
      rows := map id | id in rows ::
        if rows[id].status == Executing then
          rows[id].(status := Unknown, reason := Some(DispatchOutcomeUnknown))
        else rows[id];
      assert forall id :: id in rows ==> rows[id] == Recovered(old(rows))[id];
    }
  }
}
