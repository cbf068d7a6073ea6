/**
 Session rows: the turn lease (claim, stale takeover, check, release, startup recovery) and archiving, which settles
 the session's proposals for good.
*/
module AgentSessions {
  import opened Basics
  import opened HitlProposal

  datatype Lease = Lease(token: nat, started: int)

  /** `children` counts the child agents that are requested, spawning or running. */
  datatype Session = Session(active: bool, owner: int, lease: Option<Lease>, children: nat)

  type Sessions = map<int, Session>

  /** A lease that started before the limit may be taken over; one that started exactly at it may not. */
  predicate Stale(lease: Lease, now: int, timeout: nat) { lease.started < now - timeout }

  predicate MayClaim(sessions: Sessions, id: int, now: int, timeout: nat) {
    id in sessions && sessions[id].active && (sessions[id].lease.None? || Stale(sessions[id].lease.value, now, timeout))
  }

  predicate Holds(sessions: Sessions, id: int, token: nat) {
    id in sessions && sessions[id].lease.Some? && sessions[id].lease.value.token == token
  }

  function WithLease(sessions: Sessions, id: int, lease: Option<Lease>): Sessions
    requires id in sessions
  {
    sessions[id := sessions[id].(lease := lease)]
  }

  function Claimed(sessions: Sessions, id: int, token: nat, now: int, timeout: nat): Sessions {
    if MayClaim(sessions, id, now, timeout) then WithLease(sessions, id, Some(Lease(token, now))) else sessions
  }

  function Released(sessions: Sessions, id: int, token: nat): Sessions {
    if Holds(sessions, id, token) then WithLease(sessions, id, None) else sessions
  }

  function LeasesCleared(sessions: Sessions): Sessions {
    map id | id in sessions :: sessions[id].(lease := None)
  }

  function Leased(sessions: Sessions): set<int> { set id | id in sessions && sessions[id].lease.Some? }

  /** The proposals of a session in one of the given states. */
  function InState(rows: Rows, session: int, states: set<Status>): set<int> {
    set id | id in rows && rows[id].session == session && rows[id].status in states
  }

  const UNSETTLED: set<Status> := {Approved, Executing, HitlProposal.Unknown}

  datatype ArchiveOutcome = Archived | NotFound | ActiveTurn | ActiveChildren | UnsettledProposals

  function ArchiveVerdict(sessions: Sessions, rows: Rows, id: int, now: int, timeout: nat): ArchiveOutcome {
    if id !in sessions || !sessions[id].active then ArchiveOutcome.NotFound
    else if sessions[id].lease.Some? && !Stale(sessions[id].lease.value, now, timeout) then ActiveTurn
    else if sessions[id].children > 0 then ActiveChildren
    else if InState(rows, id, UNSETTLED) != {} then UnsettledProposals
    else Archived
  }

  /** The pending proposals of the session withdrawn in the owner's name. */
  function Withdrawn(rows: Rows, session: int, owner: int): Rows {
    map id | id in rows ::
      if rows[id].session == session && rows[id].status == Pending then Withdraw(owner).Update(rows[id]) else rows[id]
  }

  lemma {:induction false} WithdrawnIs(before: Rows, after: Rows, session: int, owner: int)
    requires after.Keys == before.Keys
    requires forall p :: p in after ==>
               after[p] == if p in InState(before, session, {Pending}) then Withdraw(owner).Update(before[p]) else before[p]
    ensures after == Withdrawn(before, session, owner)
  {
    var w := Withdrawn(before, session, owner);
    assert w.Keys == after.Keys;
    assert forall p :: p in after ==> after[p] == w[p];
  }

  /** Every proposal of the session is EXECUTED or REJECTED. */
  ghost predicate AllSettled(rows: Rows, session: int) {
    forall id :: id in rows && rows[id].session == session ==> Settled(rows[id])
  }

  /** Archiving leaves only settled proposals behind. */
  lemma {:induction false} ArchiveSettles(sessions: Sessions, rows: Rows, id: int, now: int, timeout: nat)
    requires ArchiveVerdict(sessions, rows, id, now, timeout) == Archived
    ensures AllSettled(Withdrawn(rows, id, sessions[id].owner), id)
  {
    forall p | p in rows && rows[p].session == id ensures Settled(Withdrawn(rows, id, sessions[id].owner)[p]) {
      assert p !in InState(rows, id, UNSETTLED);
    }
  }

  /** What a compare-and-swap on the token buys: a stale holder's release leaves a newer lease alone. */
  lemma {:induction false} StaleReleaseIsHarmless(sessions: Sessions, id: int, old': nat, new': nat, now: int, timeout: nat)
    requires MayClaim(sessions, id, now, timeout) && old' != new'
    ensures var claimed := Claimed(sessions, id, new', now, timeout);
            Holds(claimed, id, new') && Released(claimed, id, old') == claimed && !Holds(claimed, id, old')
  {
  }

  class SessionTable {
    const timeout: nat
    var sessions: Sessions
    var proposals: Rows

    constructor (timeout: nat)
      ensures sessions == map[] && proposals == map[] && this.timeout == timeout
    {
      this.timeout, sessions, proposals := timeout, map[], map[];
    }

    method ClaimTurn(id: int, token: nat, now: int) returns (claimed: bool)
      modifies this`sessions
      ensures claimed <==>
                id in old(sessions) && old(sessions)[id].active
                && (old(sessions)[id].lease.None? || old(sessions)[id].lease.value.started < now - timeout)
      ensures sessions == if claimed then old(sessions)[id := old(sessions)[id].(lease := Some(Lease(token, now)))] else old(sessions)
      ensures sessions == Claimed(old(sessions), id, token, now, timeout)
    {
      var staleBefore := now - timeout;
      if id !in sessions || !sessions[id].active {
        return false;
      }
      var row := sessions[id];
      if row.lease.Some? && !(row.lease.value.started < staleBefore) {
        return false;
      }
      sessions := sessions[id := row.(lease := Some(Lease(token, now)))];
      return true;
    }

    method HoldsTurn(id: int, token: nat) returns (holds: bool)
      ensures holds <==> id in sessions && sessions[id].lease.Some? && sessions[id].lease.value.token == token
      ensures holds <==> Holds(sessions, id, token)
    {
      holds := id in sessions && sessions[id].lease.Some? && sessions[id].lease.value.token == token;
    }

    method ReleaseTurn(id: int, token: nat) returns (released: bool)
      modifies this`sessions
      ensures released <==> id in old(sessions) && old(sessions)[id].lease.Some? && old(sessions)[id].lease.value.token == token
      ensures sessions == if released then old(sessions)[id := old(sessions)[id].(lease := None)] else old(sessions)
      ensures sessions == Released(old(sessions), id, token)
    {
      released := id in sessions && sessions[id].lease.Some? && sessions[id].lease.value.token == token;
      if released {
        sessions := sessions[id := sessions[id].(lease := None)];
      }
    }

    method RecoverActiveTurns() returns (cleared: nat)
      modifies this`sessions
      ensures sessions == LeasesCleared(old(sessions)) && sessions.Keys == old(sessions).Keys
      ensures forall id :: id in sessions ==> sessions[id] == old(sessions)[id].(lease := None)
      ensures cleared == |Leased(old(sessions))|
    {
      cleared := |Leased(sessions)|;
      sessions := map id | id in sessions :: sessions[id].(lease := None);
    }

    method Archive(id: int, now: int) returns (outcome: ArchiveOutcome, withdrawn: set<int>)
      modifies this
      ensures outcome == ArchiveVerdict(old(sessions), old(proposals), id, now, timeout)
      ensures outcome == ArchiveOutcome.NotFound <==> id !in old(sessions) || !old(sessions)[id].active
      ensures outcome != ArchiveOutcome.NotFound ==>
                var row, rows := old(sessions)[id], old(proposals);
                var leased := row.lease.Some? && row.lease.value.started >= now - timeout;
                var unsettled := exists p :: p in rows && rows[p].session == id
                                             && (rows[p].status == Approved || rows[p].status == Executing
                                                 || rows[p].status == HitlProposal.Unknown);
                && (outcome == ActiveTurn <==> leased)
                && (outcome == ActiveChildren <==> !leased && row.children > 0)
                && (outcome == UnsettledProposals <==> !leased && row.children == 0 && unsettled)
                && (outcome == Archived <==> !leased && row.children == 0 && !unsettled)
      ensures outcome == Archived ==>
                && sessions == old(sessions)[id := old(sessions)[id].(active := false)]
                && proposals == Withdrawn(old(proposals), id, old(sessions)[id].owner)
                && withdrawn == InState(old(proposals), id, {Pending})
                && (forall p :: p in old(proposals) ==>
                      p in proposals
                      && proposals[p] == if old(proposals)[p].session == id && old(proposals)[p].status == Pending
                                         then old(proposals)[p].(status := Rejected, reason := Some(WithdrawnOnArchive),
                                                                 reviewedBy := Some(old(sessions)[id].owner))
                                         else old(proposals)[p])
                && AllSettled(proposals, id)
      ensures outcome != Archived ==> sessions == old(sessions) && proposals == old(proposals) && withdrawn == {}
    {
      withdrawn := {};
      if id !in sessions || !sessions[id].active {
        return ArchiveOutcome.NotFound, {};
      }
      var row := sessions[id];
      if row.lease.Some? && row.lease.value.started >= now - timeout {
        return ActiveTurn, {};
      }
      if row.children > 0 {
        return ActiveChildren, {};
      }
      var open := InState(proposals, id, {Pending} + UNSETTLED);
      var unsettled := set p | p in open && proposals[p].status != Pending;
      assert unsettled == InState(proposals, id, UNSETTLED);
      if p :| p in unsettled {
        assert p in InState(proposals, id, UNSETTLED);
        return UnsettledProposals, {};
      }
      forall p | p in open ensures proposals[p].status == Pending {
        assert proposals[p].status != Pending ==> p in unsettled;
      }
      assert open == InState(proposals, id, {Pending});
      ghost var before := proposals;
      ArchiveSettles(sessions, before, id, now, timeout);
      WithdrawAll(open, row.owner);
      withdrawn := open;
      sessions := sessions[id := row.(active := false)];
      outcome := Archived;
      WithdrawnIs(before, proposals, id, row.owner);
    }

    /** Withdraws the given pending proposals row by row. */
    method WithdrawAll(open: set<int>, owner: int)
      requires open <= proposals.Keys
      modifies this`proposals
      ensures proposals.Keys == old(proposals).Keys
      ensures forall p :: p in proposals ==>
                proposals[p] == if p in open then Withdraw(owner).Update(old(proposals)[p]) else old(proposals)[p]
    {
      ghost var before := proposals;
      var left, more := open, true;
      while more
        invariant left <= open && proposals.Keys == before.Keys
        invariant forall p :: p in before ==>
          proposals[p] == if p in open && p !in left then Withdraw(owner).Update(before[p]) else before[p]
        invariant !more ==> forall p :: p in open ==> p !in left
        decreases |left|, more
      {
        if p :| p in left {
          proposals := proposals[p := proposals[p].(status := Rejected, reason := Some(WithdrawnOnArchive),
                                                    reviewedBy := Some(owner))];
          left := left - {p};
        } else {
          more := false;
        }
      }
    }
  }
}
