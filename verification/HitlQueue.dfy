/**
 Persisted execution requests, the bounded in-process execution queue, and what a restart does with both.

 A partial unique index allows one open request per proposal; an update or insert that would break it fails
 and leaves the table unchanged.
*/
module HitlQueue {
  import opened Basics
  import opened HitlProposal

  datatype RequestStatus = Queued | Running | AwaitingCredential | Finished | Abandoned {
    predicate IsOpen() { Queued? || Running? || AwaitingCredential? }
  }

  datatype CredentialKind = NoCredential | StaticCredential | DynamicCredential

  datatype Request = Request(
    requestId: int,
    pid: int,
    attempt: nat,
    actor: Option<int>,
    status: RequestStatus,
    kind: CredentialKind,
    startedAt: Option<int>,
    finishedAt: Option<int>)

  type Requests = seq<Request>

  /** The partial unique index on open requests, and the unique request id. */
  ghost predicate Indexed(rows: Requests) {
    && (forall i, j | 0 <= i < j < |rows| :: rows[i].requestId != rows[j].requestId)
    && (forall i, j | 0 <= i < j < |rows| ::
          rows[i].status.IsOpen() && rows[j].status.IsOpen() ==> rows[i].pid != rows[j].pid)
  }

  predicate HasOpen(rows: Requests, pid: int) {
    exists i :: 0 <= i < |rows| && rows[i].pid == pid && rows[i].status.IsOpen()
  }

  function WithStatus(row: Request, status: RequestStatus, now: int): Request {
    row.(status := status,
         startedAt := if status == Running && row.startedAt.None? then Some(now) else row.startedAt,
         finishedAt := if status == Finished || status == Abandoned then Some(now) else row.finishedAt)
  }

  /** Another open request of the same proposal stands in the way of opening row `i`. */
  predicate Blocked(rows: Requests, i: nat)
    requires i < |rows|
  {
    exists j :: 0 <= j < |rows| && j != i && rows[j].pid == rows[i].pid && rows[j].status.IsOpen()
  }

  /** The table after a status write by request id; the index may refuse it. */
  function StatusSet(rows: Requests, requestId: int, status: RequestStatus, now: int): (r: Requests)
    ensures |r| == |rows|
  {
    seq(|rows|, i requires 0 <= i < |rows| =>
      if rows[i].requestId != requestId || (status.IsOpen() && Blocked(rows, i)) then rows[i]
      else WithStatus(rows[i], status, now))
  }

  /** What a status write does to row `i`, column by column: only the row with this id changes, and not when another open request
      of its proposal stands in the way; the first RUNNING is the start, an end is the finish. */
  ghost predicate Written(before: Requests, after: Request, i: nat, requestId: int, status: RequestStatus, now: int)
    requires i < |before|
  {
    var row := before[i];
    if row.requestId != requestId
       || (status.IsOpen() && exists j :: 0 <= j < |before| && j != i && before[j].pid == row.pid && before[j].status.IsOpen())
    then after == row
    else
      && after.status == status
      && after.requestId == row.requestId && after.pid == row.pid && after.attempt == row.attempt
      && after.actor == row.actor && after.kind == row.kind
      && (status == Running && row.startedAt.None? ==> after.startedAt == Some(now))
      && (status != Running || row.startedAt.Some? ==> after.startedAt == row.startedAt)
      && (status == Finished || status == Abandoned ==> after.finishedAt == Some(now))
      && (status != Finished && status != Abandoned ==> after.finishedAt == row.finishedAt)
  }

  /** The whole table after a status write. */
  ghost predicate WrittenAll(before: Requests, after: Requests, requestId: int, status: RequestStatus, now: int) {
    |after| == |before| && forall i :: 0 <= i < |after| ==> Written(before, after[i], i, requestId, status, now)
  }

  /** Open requests are those that wait, run, or need a password. */
  lemma {:induction false} OpenAre(status: RequestStatus)
    ensures status.IsOpen() <==> status != Finished && status != Abandoned
  {
  }

  // ---------------------------------------------------------------- restart, as a function of the database

  /** What startup recovery makes of one request, given the already reconciled proposals. */
  function RecoveredRow(row: Request, proposals: Rows, now: int): Request {
    if !row.status.IsOpen() then row
    else if row.pid !in proposals || proposals[row.pid].status != Approved then WithStatus(row, Abandoned, now)
    else if row.kind == DynamicCredential then WithStatus(row, AwaitingCredential, now)
    else if row.status == Running then WithStatus(row, Queued, now)
    else row
  }

  function RecoveredRequests(rows: Requests, proposals: Rows, now: int): (r: Requests)
    ensures |r| == |rows|
  {
    seq(|rows|, i requires 0 <= i < |rows| => RecoveredRow(rows[i], proposals, now))
  }

  /** A request the queue may start on its own: queued, no password needed, and a known initiator. */
  predicate Startable(row: Request) {
    row.status == Queued && row.kind != DynamicCredential && row.actor.Some?
  }

  /** Restart safety. After the proposals and then the requests are recovered, nothing is EXECUTING, each
      proposal still has at most one open request, every open request belongs to an APPROVED proposal, requests
      that need a password wait for one, and no request of a proposal that was EXECUTING stays open. */
  lemma {:induction false} RestartIsSafe(proposals: Rows, rows: Requests, now: int)
    requires Indexed(rows)
    ensures var after := Recovered(proposals);
            ExecutingIds(after) == {} && Indexed(RecoveredRequests(rows, after, now))
    ensures var after := Recovered(proposals);
            var r := RecoveredRequests(rows, after, now);
            forall i :: 0 <= i < |r| && r[i].status.IsOpen() ==>
                          && r[i].pid in after && after[r[i].pid].status == Approved
                          && after[r[i].pid] == proposals[r[i].pid]
                          && (r[i].kind == DynamicCredential ==> r[i].status == AwaitingCredential)
                          && (r[i].kind != DynamicCredential ==>
                                r[i].status == if rows[i].status == AwaitingCredential then AwaitingCredential else Queued)
    ensures var r := RecoveredRequests(rows, Recovered(proposals), now);
            forall i :: 0 <= i < |r| && r[i].pid in proposals && proposals[r[i].pid].status == Executing ==>
                          !r[i].status.IsOpen() && !Startable(r[i])
  {
    var after := Recovered(proposals);
    assert forall id :: id in proposals ==> after[id].status != Executing;
    var r := RecoveredRequests(rows, after, now);
    forall i | 0 <= i < |r|
      ensures r[i].pid == rows[i].pid && r[i].requestId == rows[i].requestId && r[i].kind == rows[i].kind
      ensures r[i].status.IsOpen() ==> rows[i].status.IsOpen()
    {}
  }

  /** Requests of an approved proposal that wait for a password although their stored kind needs none. */
  predicate Stranded(row: Request, proposals: Rows) {
    row.status == AwaitingCredential && row.kind != DynamicCredential
    && row.pid in proposals && proposals[row.pid].status == Approved
  }

  /** Every surviving request without a dynamic password is queued again exactly when none was stranded. */
  lemma {:induction false} QueuedUnlessStranded(proposals: Rows, rows: Requests, now: int)
    requires Indexed(rows)
    ensures var r := RecoveredRequests(rows, Recovered(proposals), now);
            (forall i :: 0 <= i < |r| && r[i].status.IsOpen() && r[i].kind != DynamicCredential ==> r[i].status == Queued)
            <==> (forall i :: 0 <= i < |rows| ==> !Stranded(rows[i], proposals))
  {
    var after := Recovered(proposals);
    var r := RecoveredRequests(rows, after, now);
    RestartIsSafe(proposals, rows, now);
    forall i | 0 <= i < |rows|
      ensures Stranded(rows[i], proposals) <==>
              r[i].status.IsOpen() && r[i].kind != DynamicCredential && r[i].status != Queued
    {
      assert r[i] == RecoveredRow(rows[i], after, now);
    }
  }

  /** A request that waited or ran, needs no password, and has an initiator, of a proposal that was APPROVED. */
  predicate Resumable(row: Request, proposals: Rows) {
    && (row.status == Queued || row.status == Running) && row.kind != DynamicCredential && row.actor.Some?
    && row.pid in proposals && proposals[row.pid].status == Approved
  }

  /** What recovery makes of request `i`, in the columns that decide about its start. */
  lemma {:induction false} StartableAfterRecovery(proposals: Rows, rows: Requests, now: int, i: nat)
    requires i < |rows|
    ensures var row := RecoveredRequests(rows, Recovered(proposals), now)[i];
            && (Startable(row) <==> Resumable(rows[i], proposals))
            && row.pid == rows[i].pid && row.requestId == rows[i].requestId && row.actor == rows[i].actor && row.kind == rows[i].kind
  {
  }

  /** Exactly the open requests of proposals that are not APPROVED any more are closed, as abandoned, with the time of the
      recovery; the others keep everything but their status. */
  lemma {:induction false} RecoveryCloses(proposals: Rows, rows: Requests, now: int, i: nat)
    requires i < |rows|
    ensures var row := RecoveredRequests(rows, Recovered(proposals), now)[i];
            var lost := rows[i].pid !in proposals || proposals[rows[i].pid].status != Approved;
            var open := rows[i].status != Finished && rows[i].status != Abandoned;
            && (open && lost ==> row == rows[i].(status := Abandoned, finishedAt := Some(now)))
            && (!(open && lost) ==> row == rows[i].(status := row.status))
            && (!open ==> row == rows[i])
  {
    assert RecoveredRequests(rows, Recovered(proposals), now)[i] == RecoveredRow(rows[i], Recovered(proposals), now);
  }

  // ---------------------------------------------------------------- the table, updated in place

  class ExecutionRequests {
    var rows: Requests

    constructor ()
      ensures rows == []
    {
      rows := [];
    }

    /** False when the unique index refuses the insert. */
    method CreateOpen(pid: int, requestId: int, actor: int, kind: CredentialKind) returns (ok: bool)
      requires Indexed(rows)
      modifies this
      ensures Indexed(rows)
      ensures ok <==> !HasOpen(old(rows), pid) && forall i :: 0 <= i < |old(rows)| ==> old(rows)[i].requestId != requestId
      ensures rows == if ok then old(rows) + [Request(requestId, pid, 1, Some(actor), Queued, kind, None, None)] else old(rows)
    {
      var i := 0;
      while i < |rows|
        invariant 0 <= i <= |rows|
        invariant forall j :: 0 <= j < i ==> rows[j].requestId != requestId
        invariant forall j :: 0 <= j < i ==> !(rows[j].pid == pid && rows[j].status.IsOpen())
      {
        if rows[i].requestId == requestId || (rows[i].pid == pid && rows[i].status.IsOpen()) {
          return false;
        }
        i := i + 1;
      }
      rows := rows + [Request(requestId, pid, 1, Some(actor), Queued, kind, None, None)];
      ok := true;
    }

    /** Position of the request with this id, if it still exists. */
    method Find(requestId: int) returns (at: Option<nat>)
      ensures at.None? ==> forall i :: 0 <= i < |rows| ==> rows[i].requestId != requestId
      ensures at.Some? ==> at.value < |rows| && rows[at.value].requestId == requestId
    {
      var i := 0;
      while i < |rows|
        invariant 0 <= i <= |rows|
        invariant forall j :: 0 <= j < i ==> rows[j].requestId != requestId
      {
        if rows[i].requestId == requestId {
          return Some(i);
        }
        i := i + 1;
      }
      at := None;
    }

    /** A short transaction; a missing row, or a refusal by the index, changes nothing. */
    method SetStatus(requestId: int, status: RequestStatus, now: int)
      requires Indexed(rows)
      modifies this
      ensures Indexed(rows) && rows == StatusSet(old(rows), requestId, status, now)
      ensures WrittenAll(old(rows), rows, requestId, status, now)
    {
      var at := Find(requestId);
      if at.None? {
        return;
      }
      var k := at.value;
      if status.IsOpen() {
        var j := 0;
        while j < |rows|
          invariant 0 <= j <= |rows|
          invariant forall m :: 0 <= m < j && m != k ==> !(rows[m].pid == rows[k].pid && rows[m].status.IsOpen())
        {
          if j != k && rows[j].pid == rows[k].pid && rows[j].status.IsOpen() {
            return;
          }
          j := j + 1;
        }
      }
      rows := rows[k := WithStatus(rows[k], status, now)];
    }

    /** The user typed the password again: same request, next attempt. */
    method ResumeAwaiting(k: nat, actor: int)
      requires Indexed(rows) && k < |rows| && rows[k].status == AwaitingCredential
      modifies this
      ensures Indexed(rows)
      ensures rows == old(rows)[k := old(rows)[k].(status := Queued, attempt := old(rows)[k].attempt + 1,
                                                   actor := Some(actor), finishedAt := None)]
    {
      rows := rows[k := rows[k].(status := Queued, attempt := rows[k].attempt + 1, actor := Some(actor), finishedAt := None)];
    }

    /** Startup: settle every open request against the reconciled proposals, in one transaction. */
    method RecoverOpen(proposals: Rows, now: int)
      requires Indexed(rows)
      modifies this
      ensures rows == RecoveredRequests(old(rows), proposals, now)
    {
      var i := 0;
      while i < |rows|
        invariant 0 <= i <= |rows| == |old(rows)|
        invariant forall j :: 0 <= j < i ==> rows[j] == RecoveredRow(old(rows)[j], proposals, now)
        invariant forall j :: i <= j < |rows| ==> rows[j] == old(rows)[j]
      {
        var row := rows[i];
        if row.status.IsOpen() {
          if row.pid !in proposals || proposals[row.pid].status != Approved {
            rows := rows[i := WithStatus(row, Abandoned, now)];
          } else if row.kind == DynamicCredential {
            rows := rows[i := WithStatus(row, AwaitingCredential, now)];
          } else if row.status == Running {
            rows := rows[i := WithStatus(row, Queued, now)];
          }
        }
        i := i + 1;
      }
    }
  }

  // ---------------------------------------------------------------- the in-process queue

  class ExecutionTicket {
    const pid: int
    const requestId: int
    var running: bool
    var started: bool
    var kind: CredentialKind
    var actor: Option<int>

    constructor (pid: int, requestId: int)
      ensures this.pid == pid && this.requestId == requestId && !running && !started
    {
      this.pid := pid;
      this.requestId := requestId;
      running := false;
      started := false;
      kind := NoCredential;
      actor := None;
    }
  }

  /** How one background task ends. */
  datatype TaskEnd = Completed | NotResumable | CancelledTask | Failed

  /** The status that the end of a background job leaves its request in, if it writes one. */
  function EndStatus(end: TaskEnd, running: bool, kind: CredentialKind): Option<RequestStatus> {
    if !end.CancelledTask? then Some(Finished)
    else if running then Some(Abandoned)
    else if kind == DynamicCredential then Some(AwaitingCredential)
    else None
  }

  /** Every ticket that was there is still there. */
  ghost predicate Kept(before: map<int, ExecutionTicket>, after: map<int, ExecutionTicket>) {
    forall pid :: pid in before ==> pid in after && after[pid] == before[pid]
  }

  lemma {:induction false} KeptGrows(before: map<int, ExecutionTicket>, after: map<int, ExecutionTicket>)
    requires Kept(before, after)
    ensures |before| <= |after|
  {
    assert forall pid :: pid in before ==> pid in after;
    SubsetCardinality(before.Keys, after.Keys);
    assert |before.Keys| == |before| && |after.Keys| == |after|;
  }

  /** How far a pump has come after the first `k` rows: what can be started is, or the queue is full. */
  ghost predicate Progress(rows: Requests, k: nat, begun: set<int>, full: bool)
    requires k <= |rows|
  {
    forall i :: 0 <= i < k && Startable(rows[i]) ==> rows[i].pid in begun || full
  }

  /** The job of the ticket was started for this request. */
  ghost predicate StartedFor(t: ExecutionTicket, row: Request)
    reads t
  {
    t.started && t.pid == row.pid && t.actor == row.actor && t.kind == row.kind
  }

  class HitlExecutionQueue {
    const maxRunning: nat
    const maxQueued: nat
    var tickets: map<int, ExecutionTicket>
    var accepting: bool
    var freeSlots: nat
    ghost var holders: set<ExecutionTicket>

    ghost predicate Valid()
      reads this, tickets.Values, holders
    {
      && |tickets| <= maxRunning + maxQueued
      && (forall pid :: pid in tickets ==> tickets[pid].pid == pid)
      && freeSlots + |holders| == maxRunning
      && (forall t :: t in holders ==> t.running && t.started)
    }

    constructor (maxRunning: nat, maxQueued: nat)
      ensures Valid() && tickets == map[] && accepting && holders == {}
      ensures this.maxRunning == maxRunning && this.maxQueued == maxQueued
    {
      this.maxRunning := maxRunning;
      this.maxQueued := maxQueued;
      tickets := map[];
      accepting := true;
      freeSlots := maxRunning;
      holders := {};
    }

    /** A new place for the proposal; null when it already has one, or the queue is full or closing. */
    method Reserve(pid: int, requestId: int) returns (t: ExecutionTicket?)
      requires Valid()
      modifies this`tickets
      ensures Valid()
      ensures t == null <==> !accepting || pid in old(tickets) || |old(tickets)| >= maxRunning + maxQueued
      ensures t == null ==> tickets == old(tickets)
      ensures t != null ==> fresh(t) && t.pid == pid && t.requestId == requestId && !t.started && !t.running
                            && tickets == old(tickets)[pid := t]
    {
      if !accepting || pid in tickets || |tickets| >= maxRunning + maxQueued {
        return null;
      }
      t := new ExecutionTicket(pid, requestId);
      tickets := tickets[pid := t];
    }

    /** Picks up a persisted request; a proposal that already has a ticket keeps it. */
    method Adopt(pid: int, requestId: int) returns (t: ExecutionTicket?)
      requires Valid()
      modifies this`tickets
      ensures Valid()
      ensures pid in old(tickets) ==> t == old(tickets)[pid] && tickets == old(tickets)
      ensures pid !in old(tickets) && (!accepting || |old(tickets)| >= maxRunning + maxQueued) ==>
                t == null && tickets == old(tickets)
      ensures pid !in old(tickets) && accepting && |old(tickets)| < maxRunning + maxQueued ==>
                t != null && fresh(t) && t.pid == pid && t.requestId == requestId && !t.started && !t.running
                && tickets == old(tickets)[pid := t]
    {
      if pid in tickets {
        return tickets[pid];
      }
      if !accepting || |tickets| >= maxRunning + maxQueued {
        return null;
      }
      t := new ExecutionTicket(pid, requestId);
      tickets := tickets[pid := t];
    }

    /** Gives the place back, unless another ticket has taken it. */
    method Release(t: ExecutionTicket)
      requires Valid()
      modifies this`tickets
      ensures Valid()
      ensures tickets == if t.pid in old(tickets) && old(tickets)[t.pid] == t then old(tickets) - {t.pid} else old(tickets)
      ensures t !in tickets.Values && tickets.Values <= old(tickets.Values)
    {
      if t.pid in tickets && tickets[t.pid] == t {
        assert |tickets - {t.pid}| <= |tickets| by {
          SubsetCardinality((tickets - {t.pid}).Keys, tickets.Keys);
          assert |(tickets - {t.pid}).Keys| == |tickets - {t.pid}|;
        }
        tickets := tickets - {t.pid};
      }
      forall pid | pid in tickets ensures tickets[pid] != t {
        assert tickets[pid].pid == pid;
      }
    }

    /** Starts the background task once; a second start of the same ticket does nothing. */
    method Start(t: ExecutionTicket, actor: int, kind: CredentialKind)
      requires Valid()
      modifies t
      ensures Valid() && t.started && t.running == old(t.running)
      ensures old(t.started) ==> t.kind == old(t.kind) && t.actor == old(t.actor)
      ensures !old(t.started) ==> t.kind == kind && t.actor == Some(actor)
    {
      if t.started {
        return;
      }
      t.kind := kind;
      t.actor := Some(actor);
      t.started := true;
    }

    /** A background job gets past the semaphore. */
    method EnterSlot(t: ExecutionTicket)
      requires Valid() && t.started && t !in holders && freeSlots > 0
      modifies this`freeSlots, this`holders, t
      ensures Valid() && holders == old(holders) + {t} && t.running && t.started && t.kind == old(t.kind)
      ensures |holders| <= maxRunning
    {
      freeSlots := freeSlots - 1;
      holders := holders + {t};
      t.running := true;
    }

    method LeaveSlot(t: ExecutionTicket)
      requires Valid() && t in holders
      modifies this`freeSlots, this`holders
      ensures Valid() && holders == old(holders) - {t}
    {
      freeSlots := freeSlots + 1;
      holders := holders - {t};
    }

    /** Slot and place of a task that ends are given back, and its request gets its last status: finished, unless the task was
        cancelled; then abandoned if it ran, waiting for a password if it was queued with a dynamic one, and otherwise as it is. */
    method Close(t: ExecutionTicket, end: TaskEnd, requests: ExecutionRequests, now: int)
      requires Valid() && t.started && (t in holders <==> t.running)
      requires Indexed(requests.rows)
      modifies this, requests
      ensures Valid() && Indexed(requests.rows) && holders == old(holders) - {t} && accepting == old(accepting)
      ensures tickets == if t.pid in old(tickets) && old(tickets)[t.pid] == t then old(tickets) - {t.pid} else old(tickets)
      ensures t !in tickets.Values && tickets.Values <= old(tickets.Values)
      ensures !end.CancelledTask? ==> WrittenAll(old(requests.rows), requests.rows, t.requestId, Finished, now)
      ensures end.CancelledTask? && t.running ==> WrittenAll(old(requests.rows), requests.rows, t.requestId, Abandoned, now)
      ensures end.CancelledTask? && !t.running && t.kind == DynamicCredential ==>
                WrittenAll(old(requests.rows), requests.rows, t.requestId, AwaitingCredential, now)
      ensures end.CancelledTask? && !t.running && t.kind != DynamicCredential ==> requests.rows == old(requests.rows)
    {
      var status := EndStatus(end, t.running, t.kind);
      if status.Some? {
        requests.SetStatus(t.requestId, status.value, now);
      }
      if t.running {
        LeaveSlot(t);
      }
      Release(t);
    }

    /** The end of a task: slot and place are given back, the request gets its last status, and after an orderly
        end the persisted queue is looked at again. */
    method EndTask(t: ExecutionTicket, end: TaskEnd, requests: ExecutionRequests, now: int)
      requires Valid() && t.started && (t in holders <==> t.running)
      requires Indexed(requests.rows)
      requires end.Completed? || end.NotResumable? ==> t.running
      modifies this, requests, t, tickets.Values
      ensures Valid() && Indexed(requests.rows) && holders == old(holders) - {t}
      ensures !end.CancelledTask? ==> WrittenAll(old(requests.rows), requests.rows, t.requestId, Finished, now)
      ensures end.CancelledTask? && old(t.running) ==>
                WrittenAll(old(requests.rows), requests.rows, t.requestId, Abandoned, now)
      ensures end.CancelledTask? && !old(t.running) && old(t.kind) == DynamicCredential ==>
                WrittenAll(old(requests.rows), requests.rows, t.requestId, AwaitingCredential, now)
      ensures end.CancelledTask? && !old(t.running) && old(t.kind) != DynamicCredential ==> requests.rows == old(requests.rows)
      ensures forall pid :: pid in old(tickets) && old(tickets)[pid] != t ==> pid in tickets && tickets[pid] == old(tickets)[pid]
      ensures t !in tickets.Values && fresh(tickets.Values - old(tickets.Values))
      ensures end.CancelledTask? || end.Failed? || !old(accepting) ==> tickets.Keys <= old(tickets).Keys
      ensures (end.Completed? || end.NotResumable?) && old(accepting) ==>
                forall i :: 0 <= i < |requests.rows|
                            && requests.rows[i].status == Queued && requests.rows[i].kind != DynamicCredential
                            && requests.rows[i].actor.Some? ==>
                  (requests.rows[i].pid in tickets && tickets[requests.rows[i].pid].started)
                  || |tickets| >= maxRunning + maxQueued
    {
      Close(t, end, requests, now);
      if (end.Completed? || end.NotResumable?) && accepting {
        Pump(requests);
      }
    }

    /** Proposals whose background task has been started. */
    ghost function Started(): set<int>
      reads this, tickets.Values
    {
      set pid | pid in tickets && tickets[pid].started
    }

    predicate Full()
      reads this
    {
      |tickets| >= maxRunning + maxQueued
    }

    /** Starts one persisted request, unless it needs a password or there is no room. */
    method PumpOne(row: Request)
      requires Valid() && accepting
      modifies this`tickets, tickets.Values
      ensures Valid() && Kept(old(tickets), tickets)
      ensures fresh(tickets.Values - old(tickets.Values))
      ensures old(Started()) <= Started() <= old(Started()) + (if Startable(row) then {row.pid} else {})
      ensures tickets.Keys - old(tickets).Keys <= Started()
      ensures Startable(row) ==> row.pid in Started() || Full()
      ensures row.pid in Started() && row.pid !in old(Started()) ==>
                StartedFor(tickets[row.pid], row) && (row.pid !in old(tickets) ==> tickets[row.pid].requestId == row.requestId)
      ensures forall pid :: pid in old(Started()) ==>
                old(tickets)[pid].actor == old(tickets[pid].actor) && old(tickets)[pid].kind == old(tickets[pid].kind)
    {
      if !Startable(row) {
        return;
      }
      var t := Adopt(row.pid, row.requestId);
      assert Started() == old(Started());
      if t != null && !t.started {
        Start(t, row.actor.value, row.kind);
        assert forall pid :: pid in tickets && pid != row.pid ==> tickets[pid] != t;
        assert Started() == old(Started()) + {row.pid};
      }
    }

    /** Whatever was started since `first` was started for one of the first `k` rows, with its initiator and credentials. */
    ghost predicate Served(rows: Requests, k: nat, first: set<int>)
      requires k <= |rows|
      reads this, tickets.Values
    {
      forall pid :: pid in Started() && pid !in first ==>
                      exists i :: 0 <= i < k && Startable(rows[i]) && StartedFor(tickets[pid], rows[i])
    }

    /** One more row of the persisted queue. */
    method PumpRow(rows: Requests, k: nat, ghost first: set<int>)
      requires Valid() && accepting && k < |rows| && Progress(rows, k, Started(), Full()) && Served(rows, k, first)
      modifies this`tickets, tickets.Values
      ensures Valid() && Kept(old(tickets), tickets)
      ensures Progress(rows, k + 1, Started(), Full()) && Served(rows, k + 1, first)
      ensures fresh(tickets.Values - old(tickets.Values))
      ensures tickets.Keys - old(tickets).Keys <= Started() && old(Started()) <= Started()
    {
      PumpOne(rows[k]);
      KeptGrows(old(tickets), tickets);
      forall pid | pid in Started() && pid !in first
        ensures exists i :: 0 <= i < k + 1 && Startable(rows[i]) && StartedFor(tickets[pid], rows[i])
      {
        if pid in old(Started()) {
          var i :| 0 <= i < k && Startable(rows[i]) && old(StartedFor(tickets[pid], rows[i]));
          assert StartedFor(tickets[pid], rows[i]);
        } else {
          assert StartedFor(tickets[pid], rows[k]);
        }
      }
    }

    /** Starts persisted requests that need no password, as far as there is room: every one, unless the queue is full, and
        nothing else. */
    method Pump(requests: ExecutionRequests)
      requires Valid()
      modifies this`tickets, tickets.Values
      ensures Valid() && Kept(old(tickets), tickets) && fresh(tickets.Values - old(tickets.Values))
      ensures tickets.Keys - old(tickets).Keys <= Started() && old(Started()) <= Started()
      ensures !accepting ==> tickets == old(tickets) && Started() == old(Started())
      ensures forall pid :: pid in Started() && pid !in old(Started()) ==>
                exists i :: 0 <= i < |requests.rows|
                            && requests.rows[i].status == Queued && requests.rows[i].kind != DynamicCredential
                            && requests.rows[i].actor.Some? && StartedFor(tickets[pid], requests.rows[i])
      ensures accepting ==> forall i :: 0 <= i < |requests.rows|
                                        && requests.rows[i].status == Queued && requests.rows[i].kind != DynamicCredential
                                        && requests.rows[i].actor.Some? ==>
                (requests.rows[i].pid in tickets && tickets[requests.rows[i].pid].started)
                || |tickets| >= maxRunning + maxQueued
    {
      if !accepting {
        return;
      }
      var rows := requests.rows;
      ghost var first := Started();
      var k := 0;
      while k < |rows|
        invariant 0 <= k <= |rows|
        invariant Valid() && accepting && Kept(old(tickets), tickets)
        invariant fresh(tickets.Values - old(tickets.Values))
        invariant tickets.Keys - old(tickets).Keys <= Started() && first <= Started()
        invariant Progress(rows, k, Started(), Full()) && Served(rows, k, first)
      {
        PumpRow(rows, k, first);
        k := k + 1;
      }
    }
  }

  /** How a request gets stranded: it was stored as static, its asset was switched to dynamic credentials before
      the user retried, and the retry was cancelled while still queued. */
  lemma {:induction false} StrandedByCredentialChange(row: Request, proposals: Rows, now: int)
    requires row.status == Queued && row.kind == StaticCredential
    requires row.pid in proposals && proposals[row.pid].status == Approved
    ensures var status := EndStatus(CancelledTask, false, DynamicCredential);
            status.Some? && Stranded(StatusSet([row], row.requestId, status.value, now)[0], proposals)
            && RecoveredRequests(StatusSet([row], row.requestId, status.value, now), Recovered(proposals), now)[0].status
               == AwaitingCredential
  {
    assert !Blocked([row], 0);
  }

  /** Process start: reconcile proposals, settle requests, then start what may be started: over the tables as the last process
      left them, every request that waited or ran, without a dynamic password and with an initiator, of a proposal that was
      APPROVED, and nothing else, as far as there is room. */
  method Restart(table: ProposalTable, requests: ExecutionRequests, queue: HitlExecutionQueue, now: int)
    requires queue.Valid() && queue.tickets == map[] && queue.accepting
    requires Indexed(requests.rows)
    modifies table, requests, queue
    ensures queue.Valid()
    ensures table.rows == Recovered(old(table.rows))
    ensures requests.rows == RecoveredRequests(old(requests.rows), table.rows, now) && Indexed(requests.rows)
    ensures ExecutingIds(table.rows) == {}
    ensures forall i :: 0 <= i < |old(requests.rows)| ==>
              var row := old(requests.rows)[i];
              (row.status == Queued || row.status == Running) && row.kind != DynamicCredential && row.actor.Some?
              && row.pid in old(table.rows) && old(table.rows)[row.pid].status == Approved ==>
                (row.pid in queue.tickets && queue.tickets[row.pid].started)
                || |queue.tickets| >= queue.maxRunning + queue.maxQueued
    ensures forall pid :: pid in queue.tickets ==>
              && pid in old(table.rows) && old(table.rows)[pid].status == Approved
              && table.rows[pid] == old(table.rows)[pid]
              && exists i :: 0 <= i < |old(requests.rows)|
                             && (old(requests.rows)[i].status == Queued || old(requests.rows)[i].status == Running)
                             && old(requests.rows)[i].kind != DynamicCredential && old(requests.rows)[i].actor.Some?
                             && StartedFor(queue.tickets[pid], old(requests.rows)[i])
  {
    var changed := table.RecoverExecuting();
    ghost var before := requests.rows;
    requests.RecoverOpen(table.rows, now);
    RestartIsSafe(old(table.rows), before, now);
    queue.Pump(requests);
    forall i | 0 <= i < |before| && Resumable(before[i], old(table.rows))
      ensures (before[i].pid in queue.tickets && queue.tickets[before[i].pid].started)
              || |queue.tickets| >= queue.maxRunning + queue.maxQueued
    {
      StartableAfterRecovery(old(table.rows), before, now, i);
    }
    forall pid | pid in queue.tickets
      ensures pid in old(table.rows) && old(table.rows)[pid].status == Approved && table.rows[pid] == old(table.rows)[pid]
      ensures exists i :: 0 <= i < |before| && Resumable(before[i], old(table.rows)) && StartedFor(queue.tickets[pid], before[i])
    {
      assert pid in queue.Started();
      var i :| 0 <= i < |requests.rows| && Startable(requests.rows[i]) && StartedFor(queue.tickets[pid], requests.rows[i]);
      StartableAfterRecovery(old(table.rows), before, now, i);
    }
  }
}
