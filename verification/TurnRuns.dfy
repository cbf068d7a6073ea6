/**
 Turns over whole runs: claims, stale takeovers, atomic writes, releases, restarts and archiving in any interleaving,
 with the proposals that turns and their children create on the way.
*/
module TurnRuns {
  import opened Basics
  import opened HitlProposal
  import opened AgentSessions
  import opened Transcript

  /** A turn. `claimedAt` is when its lease started; `running` is about the coroutine, whatever the lease says. */
  datatype Turn = Turn(session: int, claimedAt: int, running: bool, wrote: bool)

  datatype Event =
    | Took(session: int, token: nat)
    | GaveBack(session: int, token: nat)
    | Cleared
    | Wrote(session: int, token: nat, batch: seq<Message>)

  /** All events so far, the newest last. */
  datatype Log = Start | Then(before: Log, event: Event)

  datatype State = State(now: int, timeout: nat, sessions: Sessions, turns: map<nat, Turn>, proposals: Rows, log: Log)

  datatype Step =
    | Tick(d: nat)
    | OpenSession(session: int, owner: int)
    | Claim(session: int, token: nat)
    | Persist(token: nat, batch: seq<Message>)
    | Finish(token: nat)
    | Restart
    | SpawnChild(token: nat)
    | ChildEnds(session: int)
    | Propose(token: nat, proposal: int, action: Action)
    | ChildProposes(session: int, proposal: int, action: Action)
    | Transition(proposal: int, transition: HitlProposal.Transition)
    | Archive(session: int)

  function Initial(timeout: nat): State { State(0, timeout, map[], map[], map[], Start) }

  predicate Running(s: State, token: nat) { token in s.turns && s.turns[token].running }

  /** The turn outlived its lease. */
  predicate Overdue(s: State, token: nat)
    requires token in s.turns
  {
    s.turns[token].claimedAt < s.now - s.timeout
  }

  function Stopped(s: State, token: nat): State
    requires token in s.turns
  {
    s.(turns := s.turns[token := s.turns[token].(running := false)])
  }

  function WithProposal(s: State, session: int, proposal: int, action: Action): State {
    if proposal in s.proposals then s else s.(proposals := s.proposals[proposal := Fresh(session, action)])
  }

  /** A step that is not possible leaves the state unchanged. */
  function Next(s: State, a: Step): State {
    match a
    case Tick(d) => s.(now := s.now + d)
    case OpenSession(session, owner) =>
      if session in s.sessions then s else s.(sessions := s.sessions[session := Session(true, owner, None, 0)])
    case Claim(session, token) =>
      // Tokens are never used twice.
      if token in s.turns || !MayClaim(s.sessions, session, s.now, s.timeout) then s
      else s.(sessions := Claimed(s.sessions, session, token, s.now, s.timeout),
              turns := s.turns[token := Turn(session, s.now, true, false)],
              log := Then(s.log, Took(session, token)))
    case Persist(token, batch) =>
      if !Running(s, token) || s.turns[token].wrote || batch == [] then s
      else if Holds(s.sessions, s.turns[token].session, token) then
        s.(turns := s.turns[token := s.turns[token].(wrote := true)],
           log := Then(s.log, Wrote(s.turns[token].session, token, batch)))
      else Stopped(s, token)
    case Finish(token) =>
      if !Running(s, token) then s
      else
        var session := s.turns[token].session;
        if Holds(s.sessions, session, token) then
          Stopped(s, token).(sessions := Released(s.sessions, session, token), log := Then(s.log, GaveBack(session, token)))
        else Stopped(s, token)
    case Restart =>
      s.(sessions := LeasesCleared(s.sessions), turns := map t | t in s.turns :: s.turns[t].(running := false),
         log := Then(s.log, Cleared))
    case SpawnChild(token) =>
      if !Running(s, token) || s.turns[token].session !in s.sessions then s
      else
        var session := s.turns[token].session;
        s.(sessions := s.sessions[session := s.sessions[session].(children := s.sessions[session].children + 1)])
    case ChildEnds(session) =>
      if session !in s.sessions || s.sessions[session].children == 0 then s
      else s.(sessions := s.sessions[session := s.sessions[session].(children := s.sessions[session].children - 1)])
    case Propose(token, proposal, action) =>
      if Running(s, token) then WithProposal(s, s.turns[token].session, proposal, action) else s
    case ChildProposes(session, proposal, action) =>
      if session in s.sessions && s.sessions[session].children > 0 then WithProposal(s, session, proposal, action) else s
    case Transition(proposal, transition) => s.(proposals := Transit(s.proposals, proposal, transition).1)
    case Archive(session) =>
      if ArchiveVerdict(s.sessions, s.proposals, session, s.now, s.timeout) != Archived then s
      else s.(sessions := s.sessions[session := s.sessions[session].(active := false)],
              proposals := Withdrawn(s.proposals, session, s.sessions[session].owner))
  }

  /** Every run, as the state after its steps; `Run(timeout, steps, n)` has taken the first `n`. */
  function Run(timeout: nat, steps: seq<Step>, n: nat): State
    requires n <= |steps|
  {
    if n == 0 then Initial(timeout) else Next(Run(timeout, steps, n - 1), steps[n - 1])
  }

  // ---------------------------------------------------------------- writes follow the lease

  /** Who holds the lease of a session, from the log alone: the last to take it, unless given back or cleared. */
  function Holder(log: Log, session: int): Option<nat> {
    match log
    case Start => None
    case Then(before, Took(s, token)) => if s == session then Some(token) else Holder(before, session)
    case Then(before, GaveBack(s, token)) => if s == session then None else Holder(before, session)
    case Then(before, Cleared) => None
    case Then(before, Wrote(_, _, _)) => Holder(before, session)
  }

  /** Only the holder ever wrote, and each turn once. */
  predicate WritesAreHeld(log: Log) {
    log.Then? ==>
      && WritesAreHeld(log.before)
      && (log.event.Wrote? ==> Holder(log.before, log.event.session) == Some(log.event.token) && !HasWritten(log.before, log.event.token))
  }

  predicate HasWritten(log: Log, token: nat) {
    log.Then? && ((log.event.Wrote? && log.event.token == token) || HasWritten(log.before, token))
  }

  predicate HasTaken(log: Log, token: nat) {
    log.Then? && ((log.event.Took? && log.event.token == token) || HasTaken(log.before, token))
  }

  /** The transcript of a session: the batches written to it, whole and in order. */
  function TranscriptOf(log: Log, session: int): seq<Message> {
    if log.Start? then []
    else TranscriptOf(log.before, session) + (if log.event.Wrote? && log.event.session == session then log.event.batch else [])
  }

  /** What a session row, the turns and the log say about each other. */
  ghost predicate LeaseInv(s: State) {
    && (forall id :: id in s.sessions ==>
          Holder(s.log, id) == (if s.sessions[id].lease.Some? then Some(s.sessions[id].lease.value.token) else None))
    && (forall id :: id in s.sessions && s.sessions[id].lease.Some? ==>
          var lease := s.sessions[id].lease.value;
          lease.token in s.turns && s.turns[lease.token].session == id && s.turns[lease.token].claimedAt == lease.started)
    && (forall t :: t in s.turns ==> s.turns[t].session in s.sessions && s.turns[t].claimedAt <= s.now)
    && (forall t :: HasWritten(s.log, t) <==> t in s.turns && s.turns[t].wrote)
    && (forall id :: id !in s.sessions ==> Holder(s.log, id) == None)
  }

  /** A running turn holds its lease unless it is overdue. */
  ghost predicate Punctual(s: State) {
    forall t :: t in s.turns && s.turns[t].running && !Overdue(s, t) ==> Holds(s.sessions, s.turns[t].session, t)
  }

  /** Steps that leave turns, log and leases alone. */
  predicate Quiet(a: Step) { !(a.Claim? || a.Persist? || a.Finish? || a.Restart?) }

  lemma {:induction false} QuietSteps(s: State, a: Step)
    requires Quiet(a)
    ensures var s' := Next(s, a);
            && s'.log == s.log && s'.turns == s.turns && s'.now >= s.now && s'.timeout == s.timeout
            && (forall id :: id in s.sessions ==> id in s'.sessions && s'.sessions[id].lease == s.sessions[id].lease)
            && (forall id :: id in s'.sessions && id !in s.sessions ==> s'.sessions[id].lease == None)
  {
  }

  lemma {:induction false} LeaseFrame(s: State, s': State)
    requires LeaseInv(s) && s'.log == s.log && s'.turns == s.turns && s'.now >= s.now
    requires forall id :: id in s.sessions ==> id in s'.sessions && s'.sessions[id].lease == s.sessions[id].lease
    requires forall id :: id in s'.sessions && id !in s.sessions ==> s'.sessions[id].lease == None
    ensures LeaseInv(s')
  {
  }

  lemma {:induction false} ClaimKeepsLease(s: State, a: Step)
    requires LeaseInv(s) && a.Claim?
    ensures LeaseInv(Next(s, a))
  {
  }

  lemma {:induction false} RefusedPersistKeepsLease(s: State, a: Step)
    requires LeaseInv(s) && a.Persist? && Next(s, a).log == s.log
    ensures LeaseInv(Next(s, a))
  {
  }

  lemma {:induction false} WritingKeepsLease(s: State, a: Step)
    requires LeaseInv(s) && a.Persist? && Next(s, a).log != s.log
    ensures LeaseInv(Next(s, a))
  {
    var s' := Next(s, a);
    assert s'.log.before == s.log && s'.log.event == Wrote(s.turns[a.token].session, a.token, a.batch);
    forall t ensures HasWritten(s'.log, t) <==> t in s'.turns && s'.turns[t].wrote {
      assert HasWritten(s.log, t) <==> t in s.turns && s.turns[t].wrote;
    }
  }

  lemma {:induction false} FinishKeepsLease(s: State, a: Step)
    requires LeaseInv(s) && a.Finish?
    ensures LeaseInv(Next(s, a))
  {
  }

  lemma {:induction false} RestartKeepsLease(s: State, a: Step)
    requires LeaseInv(s) && a.Restart?
    ensures LeaseInv(Next(s, a))
  {
    var s' := Next(s, a);
    forall t ensures HasWritten(s'.log, t) <==> t in s'.turns && s'.turns[t].wrote {
      assert HasWritten(s.log, t) <==> t in s.turns && s.turns[t].wrote;
    }
  }

  lemma {:induction false} NextKeepsLease(s: State, a: Step)
    requires LeaseInv(s)
    ensures LeaseInv(Next(s, a))
  {
    if Quiet(a) {
      QuietSteps(s, a);
      LeaseFrame(s, Next(s, a));
    } else if a.Claim? {
      ClaimKeepsLease(s, a);
    } else if a.Persist? {
      if Next(s, a).log == s.log {
        RefusedPersistKeepsLease(s, a);
      } else {
        WritingKeepsLease(s, a);
      }
    } else if a.Finish? {
      FinishKeepsLease(s, a);
    } else {
      RestartKeepsLease(s, a);
    }
  }

  lemma {:induction false} NextKeepsWrites(s: State, a: Step)
    requires LeaseInv(s) && WritesAreHeld(s.log)
    ensures WritesAreHeld(Next(s, a).log)
  {
    if Quiet(a) {
      QuietSteps(s, a);
    }
  }

  lemma {:induction false} NextKeepsPunctual(s: State, a: Step)
    requires LeaseInv(s) && Punctual(s)
    ensures Punctual(Next(s, a))
  {
    if Quiet(a) {
      QuietSteps(s, a);
    }
  }

  lemma {:induction false} RunInv(timeout: nat, steps: seq<Step>, n: nat)
    requires n <= |steps|
    ensures var s := Run(timeout, steps, n);
            LeaseInv(s) && WritesAreHeld(s.log) && Punctual(s) && s.timeout == timeout
  {
    if n > 0 {
      RunInv(timeout, steps, n - 1);
      var s, a := Run(timeout, steps, n - 1), steps[n - 1];
      NextKeepsLease(s, a);
      NextKeepsWrites(s, a);
      NextKeepsPunctual(s, a);
    }
  }

  /** In every run: a batch is written only by the turn that holds the lease of its session at that moment, whole,
      and once; a superseded turn writes nothing and ends. */
  lemma {:induction false} TurnsWriteOnlyWhileCurrent(timeout: nat, steps: seq<Step>, token: nat, batch: seq<Message>)
    requires var s := Run(timeout, steps, |steps|); Running(s, token) && !s.turns[token].wrote && batch != []
    ensures var s := Run(timeout, steps, |steps|);
            var s' := Next(s, Persist(token, batch));
            var session := s.turns[token].session;
            && WritesAreHeld(s'.log)
            && if Holder(s.log, session) == Some(token) then TranscriptOf(s'.log, session) == TranscriptOf(s.log, session) + batch
               else s'.log == s.log && !Running(s', token)
  {
    RunInv(timeout, steps, |steps|);
    NextKeepsWrites(Run(timeout, steps, |steps|), Persist(token, batch));
  }

  /** At most one turn of a session that is not overdue is running, and it is the one that holds the lease. */
  lemma {:induction false} OnePunctualTurn(timeout: nat, steps: seq<Step>, t: nat, u: nat)
    requires var s := Run(timeout, steps, |steps|);
             Running(s, t) && Running(s, u) && s.turns[t].session == s.turns[u].session && !Overdue(s, t) && !Overdue(s, u)
    ensures t == u && Holder(Run(timeout, steps, |steps|).log, Run(timeout, steps, |steps|).turns[t].session) == Some(t)
  {
    RunInv(timeout, steps, |steps|);
  }

  /** In every run: the check on the session row, and with it the answer of `HoldsTurn`, says of a token exactly whether it was
      the last to take the lease, with no giving back and no restart since. */
  lemma {:induction false} HoldsMeansCurrent(timeout: nat, steps: seq<Step>, session: int, token: nat)
    ensures var s := Run(timeout, steps, |steps|);
            Holds(s.sessions, session, token) <==> Holder(s.log, session) == Some(token)
  {
    RunInv(timeout, steps, |steps|);
    assert session in Run(timeout, steps, |steps|).sessions || Holder(Run(timeout, steps, |steps|).log, session) == None;
  }

  // ---------------------------------------------------------------- losing the lease is final

  /** A turn that once held the lease and does not any more. */
  predicate Superseded(log: Log, session: int, token: nat) {
    HasTaken(log, token) && Holder(log, session) != Some(token)
  }

  ghost predicate TakenInv(s: State) {
    forall t :: HasTaken(s.log, t) ==> t in s.turns
  }

  lemma {:induction false} NextKeepsTaken(s: State, a: Step)
    requires TakenInv(s)
    ensures TakenInv(Next(s, a))
  {
    if Quiet(a) {
      QuietSteps(s, a);
    }
  }

  lemma {:induction false} RunTaken(timeout: nat, steps: seq<Step>, n: nat)
    requires n <= |steps|
    ensures TakenInv(Run(timeout, steps, n))
  {
    if n > 0 {
      RunTaken(timeout, steps, n - 1);
      NextKeepsTaken(Run(timeout, steps, n - 1), steps[n - 1]);
    }
  }

  lemma {:induction false} StaysSuperseded(s: State, a: Step, session: int, token: nat)
    requires TakenInv(s) && Superseded(s.log, session, token)
    ensures Superseded(Next(s, a).log, session, token)
    ensures HasWritten(Next(s, a).log, token) && LeaseInv(s) && token in s.turns && s.turns[token].session == session ==>
              HasWritten(s.log, token)
  {
    if Quiet(a) {
      QuietSteps(s, a);
    }
  }

  lemma {:induction false} TurnsStay(s: State, a: Step, token: nat)
    requires token in s.turns
    ensures token in Next(s, a).turns && Next(s, a).turns[token].session == s.turns[token].session
    ensures Next(s, a).turns[token].claimedAt == s.turns[token].claimedAt
  {
    if Quiet(a) {
      QuietSteps(s, a);
    }
  }

  predicate Lost(s: State, session: int, token: nat) {
    token in s.turns && s.turns[token].session == session && Superseded(s.log, session, token)
  }

  lemma {:induction false} LostStays(s: State, a: Step, session: int, token: nat)
    requires TakenInv(s) && LeaseInv(s) && Lost(s, session, token)
    ensures Lost(Next(s, a), session, token)
    ensures HasWritten(Next(s, a).log, token) ==> HasWritten(s.log, token)
  {
    StaysSuperseded(s, a, session, token);
    TurnsStay(s, a, token);
  }

  /** Once a turn has lost its lease it never holds it again, and never writes from then on. */
  lemma {:induction false} SupersededForever(timeout: nat, steps: seq<Step>, m: nat, n: nat, session: int, token: nat)
    requires m <= n <= |steps| && Lost(Run(timeout, steps, m), session, token)
    ensures Lost(Run(timeout, steps, n), session, token)
    ensures HasWritten(Run(timeout, steps, n).log, token) ==> HasWritten(Run(timeout, steps, m).log, token)
    decreases n - m
  {
    if m < n {
      SupersededForever(timeout, steps, m, n - 1, session, token);
      RunTaken(timeout, steps, n - 1);
      RunInv(timeout, steps, n - 1);
      LostStays(Run(timeout, steps, n - 1), steps[n - 1], session, token);
    }
  }

  // ---------------------------------------------------------------- archive is final

  /** The children of a session are counted one by one: one more for each that a running turn spawns, one less for each that ends,
      and no other step counts. */
  lemma {:induction false} ChildrenAreCounted(s: State, a: Step, session: int)
    requires session in s.sessions
    ensures session in Next(s, a).sessions
    ensures var before, after := s.sessions[session].children, Next(s, a).sessions[session].children;
            if a.SpawnChild? && Running(s, a.token) && s.turns[a.token].session == session then after == before + 1
            else if a.ChildEnds? && a.session == session && before > 0 then after == before - 1
            else after == before
  {
  }

  predicate IsArchived(s: State, session: int) { session in s.sessions && !s.sessions[session].active }

  /** A turn that has outlived its lease neither proposes nor spawns. */
  predicate Timely(s: State, a: Step) {
    && (a.Propose? && Running(s, a.token) ==> !Overdue(s, a.token))
    && (a.SpawnChild? && Running(s, a.token) ==> !Overdue(s, a.token))
  }

  predicate TimelyRun(timeout: nat, steps: seq<Step>, n: nat)
    requires n <= |steps|
  {
    n == 0 || (TimelyRun(timeout, steps, n - 1) && Timely(Run(timeout, steps, n - 1), steps[n - 1]))
  }

  /** Whatever still runs in an archived session is overdue. */
  ghost predicate OnlyOverdue(s: State) {
    forall t :: Running(s, t) && IsArchived(s, s.turns[t].session) ==> Overdue(s, t)
  }

  /** Archiving is refused while a turn holds a fresh lease, so whatever still runs is overdue. */
  lemma {:induction false} ArchivedUnderOverdue(s: State, session: int, t: nat)
    requires LeaseInv(s) && Punctual(s) && Running(s, t) && s.turns[t].session == session
    requires ArchiveVerdict(s.sessions, s.proposals, session, s.now, s.timeout) == Archived
    ensures Overdue(s, t)
  {
    var row := s.sessions[session];
    assert Overdue(s, t) || Holds(s.sessions, session, t);
  }

  lemma {:induction false} ArchiveKeepsOnlyOverdue(s: State, a: Step)
    requires LeaseInv(s) && Punctual(s) && OnlyOverdue(s) && a.Archive?
    ensures OnlyOverdue(Next(s, a))
  {
    var s' := Next(s, a);
    forall t | Running(s', t) && IsArchived(s', s'.turns[t].session) ensures Overdue(s', t) {
      if s'.turns[t].session == a.session && !IsArchived(s, a.session) {
        ArchivedUnderOverdue(s, a.session, t);
      }
    }
  }

  lemma {:induction false} NextKeepsOnlyOverdue(s: State, a: Step)
    requires LeaseInv(s) && OnlyOverdue(s) && !a.Archive?
    ensures OnlyOverdue(Next(s, a))
  {
  }

  lemma {:induction false} RunOnlyOverdue(timeout: nat, steps: seq<Step>, n: nat)
    requires n <= |steps|
    ensures OnlyOverdue(Run(timeout, steps, n))
  {
    if n > 0 {
      RunOnlyOverdue(timeout, steps, n - 1);
      RunInv(timeout, steps, n - 1);
      if steps[n - 1].Archive? {
        ArchiveKeepsOnlyOverdue(Run(timeout, steps, n - 1), steps[n - 1]);
      } else {
        NextKeepsOnlyOverdue(Run(timeout, steps, n - 1), steps[n - 1]);
      }
    }
  }

  ghost predicate ArchivedIsQuiet(s: State) {
    forall id :: IsArchived(s, id) ==> s.sessions[id].children == 0 && AllSettled(s.proposals, id)
  }

  lemma {:induction false} ArchivingIsQuiet(s: State, a: Step)
    requires a.Archive? && ArchivedIsQuiet(s)
    ensures ArchivedIsQuiet(Next(s, a))
  {
    if ArchiveVerdict(s.sessions, s.proposals, a.session, s.now, s.timeout) == Archived {
      ArchiveSettles(s.sessions, s.proposals, a.session, s.now, s.timeout);
    }
  }

  lemma {:induction false} TimelyIsQuiet(s: State, a: Step)
    requires OnlyOverdue(s) && ArchivedIsQuiet(s) && Timely(s, a) && !a.Archive?
    ensures ArchivedIsQuiet(Next(s, a))
  {
    var s' := Next(s, a);
    forall id | IsArchived(s', id) ensures s'.sessions[id].children == 0 && AllSettled(s'.proposals, id) {
      assert IsArchived(s, id);
    }
  }

  /** As long as no turn proposes or spawns after it has outlived its lease, an archived session has only EXECUTED and
      REJECTED proposals, now and ever after. */
  lemma {:induction false} ArchiveIsFinal(timeout: nat, steps: seq<Step>, n: nat)
    requires n <= |steps| && TimelyRun(timeout, steps, n)
    ensures ArchivedIsQuiet(Run(timeout, steps, n))
  {
    if n > 0 {
      ArchiveIsFinal(timeout, steps, n - 1);
      RunOnlyOverdue(timeout, steps, n - 1);
      var s, a := Run(timeout, steps, n - 1), steps[n - 1];
      if a.Archive? {
        ArchivingIsQuiet(s, a);
      } else {
        TimelyIsQuiet(s, a);
      }
    }
  }

  /** A new proposal in the session, by one of its turns or children that still run. */
  predicate ProposesIn(s: State, a: Step, session: int) {
    || (a.Propose? && Running(s, a.token) && s.turns[a.token].session == session && a.proposal !in s.proposals)
    || (a.ChildProposes? && a.session == session && session in s.sessions && s.sessions[session].children > 0
        && a.proposal !in s.proposals)
  }

  /** One step after archiving: a new proposal is the only way to lose what archiving settled. */
  lemma {:induction false} ProposalsUnsettle(s: State, a: Step, session: int)
    requires IsArchived(s, session) && AllSettled(s.proposals, session)
    ensures AllSettled(Next(s, a).proposals, session) <==> !ProposesIn(s, a, session)
  {
    var s' := Next(s, a);
    if ProposesIn(s, a, session) {
      assert !Settled(s'.proposals[a.proposal]);
    } else {
      forall p | p in s'.proposals && s'.proposals[p].session == session ensures Settled(s'.proposals[p]) {
        assert p in s.proposals ==> s.proposals[p].session == s'.proposals[p].session;
      }
    }
  }

  /** Step `m` archives the session. */
  predicate ArchivesAt(timeout: nat, steps: seq<Step>, m: nat, session: int)
    requires m < |steps|
  {
    var s := Run(timeout, steps, m);
    steps[m] == Archive(session) && ArchiveVerdict(s.sessions, s.proposals, session, s.now, s.timeout) == Archived
  }

  lemma {:induction false} StaysArchived(s: State, a: Step, session: int)
    requires IsArchived(s, session)
    ensures IsArchived(Next(s, a), session)
  {
  }

  /** What the archiving step does. */
  lemma {:induction false} ArchivingStep(s: State, session: int)
    requires ArchiveVerdict(s.sessions, s.proposals, session, s.now, s.timeout) == Archived
    ensures var s' := Next(s, Archive(session));
            IsArchived(s', session) && s'.sessions[session].children == 0 && AllSettled(s'.proposals, session)
  {
    ArchiveSettles(s.sessions, s.proposals, session, s.now, s.timeout);
  }

  lemma {:induction false} ArchivedForever(timeout: nat, steps: seq<Step>, m: nat, k: nat, session: int)
    requires m < k <= |steps| && ArchivesAt(timeout, steps, m, session)
    ensures IsArchived(Run(timeout, steps, k), session)
    decreases k
  {
    if k == m + 1 {
      ArchivingStep(Run(timeout, steps, m), session);
    } else {
      ArchivedForever(timeout, steps, m, k - 1, session);
      StaysArchived(Run(timeout, steps, k - 1), steps[k - 1], session);
    }
  }

  /** After `k` steps all proposals of the session are EXECUTED or REJECTED. */
  ghost predicate SettledAt(timeout: nat, steps: seq<Step>, k: nat, session: int)
    requires k <= |steps|
  {
    AllSettled(Run(timeout, steps, k).proposals, session)
  }

  /** Step `k` is a new proposal by a turn or child of the session that still runs. */
  predicate ProposesAt(timeout: nat, steps: seq<Step>, k: nat, session: int)
    requires k < |steps|
  {
    ProposesIn(Run(timeout, steps, k), steps[k], session)
  }

  lemma {:induction false} SettledNext(timeout: nat, steps: seq<Step>, m: nat, k: nat, session: int)
    requires m < k < |steps| && ArchivesAt(timeout, steps, m, session) && SettledAt(timeout, steps, k, session)
    ensures SettledAt(timeout, steps, k + 1, session) <==> !ProposesAt(timeout, steps, k, session)
  {
    ArchivedForever(timeout, steps, m, k, session);
    ProposalsUnsettle(Run(timeout, steps, k), steps[k], session);
  }

  lemma {:induction false} SettledWhileNoneProposes(timeout: nat, steps: seq<Step>, m: nat, n: nat, session: int)
    requires m < n <= |steps| && ArchivesAt(timeout, steps, m, session)
    requires forall k | m < k < n :: !ProposesAt(timeout, steps, k, session)
    ensures SettledAt(timeout, steps, n, session)
    decreases n
  {
    if n == m + 1 {
      ArchivingStep(Run(timeout, steps, m), session);
    } else {
      SettledWhileNoneProposes(timeout, steps, m, n - 1, session);
      SettledNext(timeout, steps, m, n - 1, session);
    }
  }

  /** Exactly when archiving is final, in every run: from the step that archives a session up to step `n`, all its proposals
      stay EXECUTED or REJECTED if and only if no turn or child of it that still runs creates a proposal in between. */
  lemma {:induction false} SettledUntilProposal(timeout: nat, steps: seq<Step>, m: nat, n: nat, session: int)
    requires m < n <= |steps| && ArchivesAt(timeout, steps, m, session)
    ensures (forall k | m < k <= n :: SettledAt(timeout, steps, k, session))
            <==> (forall k | m < k < n :: !ProposesAt(timeout, steps, k, session))
  {
    if forall k | m < k <= n :: SettledAt(timeout, steps, k, session) {
      forall k | m < k < n ensures !ProposesAt(timeout, steps, k, session) {
        SettledNext(timeout, steps, m, k, session);
      }
    }
    if forall k | m < k < n :: !ProposesAt(timeout, steps, k, session) {
      forall k | m < k <= n ensures SettledAt(timeout, steps, k, session) {
        SettledWhileNoneProposes(timeout, steps, m, k, session);
      }
    }
  }

  /** Step `j` is a turn of the session, overdue by then, that spawns a child. */
  predicate OverdueSpawns(timeout: nat, steps: seq<Step>, j: nat, session: int)
    requires j < |steps|
  {
    var s, a := Run(timeout, steps, j), steps[j];
    a.SpawnChild? && Running(s, a.token) && s.turns[a.token].session == session && Overdue(s, a.token)
  }

  lemma {:induction false} SpawnAddsChild(s: State, a: Step, session: int)
    requires IsArchived(s, session) && s.sessions[session].children == 0 && IsArchived(Next(s, a), session)
    requires Next(s, a).sessions[session].children > 0
    ensures a.SpawnChild? && Running(s, a.token) && s.turns[a.token].session == session
  {
  }

  /** A child that an archived session has was spawned since, by an overdue turn. */
  lemma {:induction false} ChildrenAreLate(timeout: nat, steps: seq<Step>, m: nat, k: nat, session: int)
    requires m < k <= |steps| && ArchivesAt(timeout, steps, m, session)
    ensures IsArchived(Run(timeout, steps, k), session)
    ensures Run(timeout, steps, k).sessions[session].children > 0 ==>
              exists j :: m < j < k && OverdueSpawns(timeout, steps, j, session)
    decreases k
  {
    ArchivedForever(timeout, steps, m, k, session);
    if k == m + 1 {
      ArchivingStep(Run(timeout, steps, m), session);
    } else if Run(timeout, steps, k).sessions[session].children > 0 {
      ChildrenAreLate(timeout, steps, m, k - 1, session);
      var s := Run(timeout, steps, k - 1);
      if s.sessions[session].children == 0 {
        SpawnAddsChild(s, steps[k - 1], session);
        RunOnlyOverdue(timeout, steps, k - 1);
        assert OverdueSpawns(timeout, steps, k - 1, session);
      }
    }
  }

  /** Who proposes in an archived session: a turn that has outlived its lease, or a child that such a turn spawned after the
      session was archived. */
  lemma {:induction false} LateProposerIsOverdue(timeout: nat, steps: seq<Step>, m: nat, k: nat, session: int)
    requires m < k < |steps| && ArchivesAt(timeout, steps, m, session)
    requires ProposesAt(timeout, steps, k, session)
    ensures || (steps[k].Propose? && Running(Run(timeout, steps, k), steps[k].token)
                && Overdue(Run(timeout, steps, k), steps[k].token))
            || (steps[k].ChildProposes? && exists j :: m < j < k && OverdueSpawns(timeout, steps, j, session))
  {
    RunOnlyOverdue(timeout, steps, k);
    ChildrenAreLate(timeout, steps, m, k, session);
  }

  lemma {:induction false} StaleLeaseIsArchived(timeout: nat) returns (s: State)
    ensures s == Next(Next(Next(Next(Initial(timeout), OpenSession(1, 9)), Step.Claim(1, 5)), Tick(timeout + 1)), Archive(1))
    ensures IsArchived(s, 1) && Running(s, 5) && s.turns[5].session == 1 && 100 !in s.proposals
  {
    var s1 := Next(Initial(timeout), OpenSession(1, 9));
    assert s1.sessions[1] == Session(true, 9, None, 0) && s1.turns == map[];
    var s2 := Next(s1, Step.Claim(1, 5));
    assert s2.sessions[1] == Session(true, 9, Some(Lease(5, 0)), 0) && s2.turns[5] == Turn(1, 0, true, false);
    var s3 := Next(s2, Tick(timeout + 1));
    assert InState(s3.proposals, 1, UNSETTLED) == {};
    assert ArchiveVerdict(s3.sessions, s3.proposals, 1, s3.now, timeout) == Archived;
    s := Next(s3, Archive(1));
  }

  /** Such a run exists for every lease time: an overdue turn proposes after its session was archived. */
  lemma {:induction false} OverdueTurnProposesAfterArchive(timeout: nat)
    ensures var steps := [OpenSession(1, 9), Step.Claim(1, 5), Tick(timeout + 1), Archive(1), Propose(5, 100, DeviceControl)];
            var s := Run(timeout, steps, 5);
            IsArchived(s, 1) && 100 in s.proposals && s.proposals[100].session == 1 && s.proposals[100].status == Pending
  {
    var steps := [OpenSession(1, 9), Step.Claim(1, 5), Tick(timeout + 1), Archive(1), Propose(5, 100, DeviceControl)];
    assert Run(timeout, steps, 0) == Initial(timeout);
    assert Run(timeout, steps, 1) == Next(Run(timeout, steps, 0), steps[0]);
    assert Run(timeout, steps, 2) == Next(Run(timeout, steps, 1), steps[1]);
    assert Run(timeout, steps, 3) == Next(Run(timeout, steps, 2), steps[2]);
    assert Run(timeout, steps, 4) == Next(Run(timeout, steps, 3), steps[3]);
    var s4 := StaleLeaseIsArchived(timeout);
    assert Run(timeout, steps, 4) == s4;
    assert Run(timeout, steps, 5) == Next(s4, steps[4]);
  }
}
