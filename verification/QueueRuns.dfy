/**
 Runs of the execution queue: who holds which ticket, and how many background jobs a proposal can have at a time.

 A caller that decides or retries a proposal takes a ticket, commits its transaction, and then starts the job of the
 ticket; when the commit fails it gives the ticket back. Between taking and starting it waits, so other callers, the
 pump, ending jobs and a shutdown come in between.
*/
module QueueRuns {
  import opened Basics

  datatype Phase = Unstarted | Working | Done

  datatype Ticket = Ticket(pid: int, phase: Phase)

  /** A caller between taking its ticket and starting it. One that decides gives the ticket back whenever its commit
      fails; one that retries does so only while the job has not been started. */
  datatype Hold = Hold(ticket: nat, decides: bool)

  /** `places` is the ticket of each proposal that has one; `closing` the tickets whose jobs a shutdown has cancelled and
      waits for. */
  datatype State = State(capacity: nat, tickets: map<nat, Ticket>, places: map<int, nat>, held: map<nat, Hold>,
                         accepting: bool, closing: set<nat>)

  datatype Step =
    | Reserve(caller: nat, pid: int, ticket: nat, decides: bool)
    | Adopt(caller: nat, pid: int, ticket: nat)
    | Fail(caller: nat)
    | Start(caller: nat)
    | Pump(pid: int, ticket: nat)
    | JobEnds(ticket: nat)
    | ShutdownBegins
    | ShutdownEnds

  function Initial(capacity: nat): State { State(capacity, map[], map[], map[], true, {}) }

  predicate HasRoom(s: State) { s.accepting && |s.places| < s.capacity }

  predicate InPlace(s: State, t: nat) {
    t in s.tickets && s.tickets[t].pid in s.places && s.places[s.tickets[t].pid] == t
  }

  /** A new ticket with the number `t`, which was never used before, takes the place of its proposal. */
  function Placed(s: State, pid: int, t: nat): State {
    s.(tickets := s.tickets[t := Ticket(pid, Unstarted)], places := s.places[pid := t])
  }

  function Released(s: State, t: nat): State {
    if InPlace(s, t) then s.(places := s.places - {s.tickets[t].pid}) else s
  }

  function InPhase(s: State, t: nat, phase: Phase): State
    requires t in s.tickets
  {
    s.(tickets := s.tickets[t := s.tickets[t].(phase := phase)])
  }

  function Started(s: State, t: nat): State
    requires t in s.tickets
  {
    if s.tickets[t].phase == Unstarted then InPhase(s, t, Working) else s
  }

  /** Does a caller whose commit failed give its ticket back? */
  predicate GivesBack(s: State, h: Hold) {
    h.ticket in s.tickets && (h.decides || s.tickets[h.ticket].phase == Unstarted)
  }

  /** A step that is not possible leaves the state unchanged. */
  function Next(s: State, a: Step): State {
    match a
    case Reserve(caller, pid, t, decides) =>
      if caller in s.held || t in s.tickets || pid in s.places || !HasRoom(s) then s
      else Placed(s, pid, t).(held := s.held[caller := Hold(t, decides)])
    case Adopt(caller, pid, t) =>
      if caller in s.held then s
      else if pid in s.places then s.(held := s.held[caller := Hold(s.places[pid], false)])
      else if t in s.tickets || !HasRoom(s) then s
      else Placed(s, pid, t).(held := s.held[caller := Hold(t, false)])
    case Fail(caller) =>
      if caller !in s.held then s
      else
        var rest := s.(held := s.held - {caller});
        if GivesBack(s, s.held[caller]) then Released(rest, s.held[caller].ticket) else rest
    case Start(caller) =>
      if caller !in s.held || s.held[caller].ticket !in s.tickets then s
      else Started(s.(held := s.held - {caller}), s.held[caller].ticket)
    case Pump(pid, t) =>
      if pid in s.places then (if s.places[pid] in s.tickets then Started(s, s.places[pid]) else s)
      else if t in s.tickets || !HasRoom(s) then s
      else Started(Placed(s, pid, t), t)
    case JobEnds(t) =>
      if t in s.tickets && s.tickets[t].phase == Working then InPhase(Released(s, t), t, Done) else s
    case ShutdownBegins =>
      s.(accepting := false, closing := set pid | pid in s.places && IsWorking(s, s.places[pid]) :: s.places[pid])
    case ShutdownEnds =>
      if MayClear(s) then s.(places := map[], accepting := true, closing := {}) else s
  }

  predicate IsWorking(s: State, t: nat) { t in s.tickets && s.tickets[t].phase == Working }

  /** A shutdown that has seen the jobs it cancelled end. */
  predicate MayClear(s: State) {
    !s.accepting && forall t :: t in s.closing ==> !IsWorking(s, t)
  }

  /** All steps, from the state `s`. */
  function Replayed(s: State, steps: seq<Step>): State
    decreases |steps|
  {
    if steps == [] then s else Replayed(Next(s, steps[0]), steps[1..])
  }

  /** Every run: any steps, in any order, from the empty queue. */
  function Run(capacity: nat, steps: seq<Step>): State { Replayed(Initial(capacity), steps) }

  // ---------------------------------------------------------------- live tickets and their places

  ghost predicate Awaited(s: State, t: nat) {
    exists c :: c in s.held && s.held[c].ticket == t
  }

  /** Its job runs, or somebody may still start it. */
  ghost predicate Live(s: State, t: nat) {
    t in s.tickets && (s.tickets[t].phase == Working || (s.tickets[t].phase == Unstarted && Awaited(s, t)))
  }

  /** A live ticket that has lost its place. */
  ghost predicate Stray(s: State, t: nat) { Live(s, t) && !InPlace(s, t) }

  ghost predicate NoStray(s: State) { forall t :: !Stray(s, t) }

  /** Two jobs of one proposal at the same time. */
  ghost predicate TwoJobs(s: State, pid: int) {
    exists t, u :: t != u && IsWorking(s, t) && IsWorking(s, u) && s.tickets[t].pid == pid && s.tickets[u].pid == pid
  }

  ghost predicate Inv(s: State) {
    && (forall pid :: pid in s.places ==>
          s.places[pid] in s.tickets && s.tickets[s.places[pid]].pid == pid && s.tickets[s.places[pid]].phase != Done)
    && (forall c :: c in s.held ==> s.held[c].ticket in s.tickets)
  }

  lemma {:induction false} TakingKeepsInv(s: State, a: Step)
    requires Inv(s) && (a.Reserve? || a.Adopt? || a.Pump?)
    ensures Inv(Next(s, a))
  {
  }

  lemma {:induction false} EndingKeepsInv(s: State, a: Step)
    requires Inv(s) && (a.JobEnds? || a.Fail?)
    ensures Inv(Next(s, a))
  {
  }

  lemma {:induction false} NextKeepsInv(s: State, a: Step)
    requires Inv(s)
    ensures Inv(Next(s, a))
  {
    if a.Reserve? || a.Adopt? || a.Pump? {
      TakingKeepsInv(s, a);
    } else if a.JobEnds? || a.Fail? {
      EndingKeepsInv(s, a);
    }
  }

  lemma {:induction false} ReplayKeepsInv(s: State, steps: seq<Step>)
    requires Inv(s)
    ensures Inv(Replayed(s, steps))
    decreases |steps|
  {
    if steps != [] {
      NextKeepsInv(s, steps[0]);
      ReplayKeepsInv(Next(s, steps[0]), steps[1..]);
    }
  }

  /** The step takes away the place of a live ticket: a failed caller gives back a ticket that another caller holds too, or
      whose job runs; or a shutdown clears the places while one of them is live. */
  ghost predicate Drops(s: State, a: Step) {
    match a
    case Fail(c) =>
      && c in s.held && GivesBack(s, s.held[c]) && InPlace(s, s.held[c].ticket)
      && (IsWorking(s, s.held[c].ticket) || exists d :: d != c && d in s.held && s.held[d].ticket == s.held[c].ticket)
    case ShutdownEnds => MayClear(s) && exists pid :: pid in s.places && Live(s, s.places[pid])
    case _ => false
  }

  lemma {:induction false} FailDrops(s: State, c: nat)
    requires Inv(s) && NoStray(s) && c in s.held
    ensures NoStray(Next(s, Fail(c))) <==> !Drops(s, Fail(c))
  {
    var s', t := Next(s, Fail(c)), s.held[c].ticket;
    if Drops(s, Fail(c)) {
      if !IsWorking(s, t) {
        var d :| d != c && d in s.held && s.held[d].ticket == t;
        assert d in s'.held && s'.held[d].ticket == t;
      }
      assert Stray(s', t);
    } else {
      forall u ensures !Stray(s', u) {
        assert !Stray(s, u);
        if Live(s', u) {
          assert Live(s, u);
        }
      }
    }
  }

  lemma {:induction false} ClearDrops(s: State)
    requires Inv(s) && NoStray(s)
    ensures NoStray(Next(s, ShutdownEnds)) <==> !Drops(s, ShutdownEnds)
  {
    var s' := Next(s, ShutdownEnds);
    if Drops(s, ShutdownEnds) {
      var pid :| pid in s.places && Live(s, s.places[pid]);
      assert s'.held == s.held && s'.tickets == s.tickets;
      assert Stray(s', s.places[pid]);
    } else if MayClear(s) {
      forall u ensures !Stray(s', u) {
        assert !Stray(s, u) && (Live(s', u) <==> Live(s, u));
        if InPlace(s, u) {
          assert s.tickets[u].pid in s.places;
        }
      }
    }
  }

  lemma {:induction false} TakingDropsNothing(s: State, a: Step)
    requires Inv(s) && NoStray(s) && (a.Reserve? || a.Adopt? || a.Pump?)
    ensures NoStray(Next(s, a))
  {
    var s' := Next(s, a);
    forall u ensures !Stray(s', u) {
      assert !Stray(s, u);
      if Live(s', u) && u in s.tickets && !Live(s, u) {
        assert a.pid in s.places && u == s.places[a.pid];
      }
    }
  }

  lemma {:induction false} RunningDropsNothing(s: State, a: Step)
    requires Inv(s) && NoStray(s) && (a.Start? || a.JobEnds? || a.ShutdownBegins?)
    ensures NoStray(Next(s, a))
  {
    var s' := Next(s, a);
    forall u ensures !Stray(s', u) {
      assert !Stray(s, u);
      if Live(s', u) {
        assert Live(s, u);
      }
    }
  }

  /** Where nothing has strayed, a ticket goes astray with exactly the steps that drop one. */
  lemma {:induction false} StraysAreDropped(s: State, a: Step)
    requires Inv(s) && NoStray(s)
    ensures NoStray(Next(s, a)) <==> !Drops(s, a)
  {
    match a
    case Fail(c) =>
      if c in s.held {
        FailDrops(s, c);
      }
    case ShutdownEnds => ClearDrops(s);
    case Start(_) => RunningDropsNothing(s, a);
    case JobEnds(_) => RunningDropsNothing(s, a);
    case ShutdownBegins => RunningDropsNothing(s, a);
    case _ => TakingDropsNothing(s, a);
  }

  /** No step of the run takes away the place of a live ticket. */
  ghost predicate DropFree(s: State, steps: seq<Step>)
    decreases |steps|
  {
    steps != [] ==> !Drops(s, steps[0]) && DropFree(Next(s, steps[0]), steps[1..])
  }

  lemma {:induction false} NoStrayNoTwo(s: State, pid: int)
    requires Inv(s) && NoStray(s)
    ensures !TwoJobs(s, pid)
  {
    forall t, u | IsWorking(s, t) && IsWorking(s, u) && s.tickets[t].pid == pid && s.tickets[u].pid == pid ensures t == u {
      assert !Stray(s, t) && !Stray(s, u);
    }
  }

  lemma {:induction false} DropFreeKeeps(s: State, steps: seq<Step>)
    requires Inv(s) && NoStray(s) && DropFree(s, steps)
    ensures Inv(Replayed(s, steps)) && NoStray(Replayed(s, steps))
    decreases |steps|
  {
    if steps != [] {
      NextKeepsInv(s, steps[0]);
      StraysAreDropped(s, steps[0]);
      DropFreeKeeps(Next(s, steps[0]), steps[1..]);
    }
  }

  /** In every run that drops no live ticket, a proposal never has two jobs at a time. */
  lemma {:induction false} OneJobUnlessDropped(capacity: nat, steps: seq<Step>, pid: int)
    requires DropFree(Initial(capacity), steps)
    ensures !TwoJobs(Run(capacity, steps), pid)
  {
    DropFreeKeeps(Initial(capacity), steps);
    NoStrayNoTwo(Run(capacity, steps), pid);
  }

  // ---------------------------------------------------------------- places and ends

  lemma {:induction false} NextKeepsCapacity(s: State, a: Step)
    requires |s.places| <= s.capacity
    ensures |Next(s, a).places| <= Next(s, a).capacity == s.capacity
  {
    var s' := Next(s, a);
    if s'.places.Keys <= s.places.Keys {
      SubsetCardinality(s'.places.Keys, s.places.Keys);
      assert |s'.places.Keys| == |s'.places| && |s.places.Keys| == |s.places|;
    }
  }

  /** Never more tickets in the table than there are places. */
  lemma {:induction false} WithinCapacity(s: State, steps: seq<Step>)
    requires |s.places| <= s.capacity
    ensures |Replayed(s, steps).places| <= Replayed(s, steps).capacity == s.capacity
    decreases |steps|
  {
    if steps != [] {
      NextKeepsCapacity(s, steps[0]);
      WithinCapacity(Next(s, steps[0]), steps[1..]);
    }
  }

  /** Nobody new gets a place while the queue is closing, or when it is full; with room and no ticket yet, everybody does. */
  lemma {:induction false} PlacesAreGiven(s: State, caller: nat, pid: int, t: nat, decides: bool)
    requires caller !in s.held && t !in s.tickets && pid !in s.places
    ensures var s' := Next(s, Reserve(caller, pid, t, decides));
            if s.accepting && |s.places| < s.capacity
            then && s'.places == s.places[pid := t] && s'.held == s.held[caller := Hold(t, decides)]
                 && s'.tickets[t] == Ticket(pid, Unstarted)
            else s' == s
    ensures var s' := Next(s, Adopt(caller, pid, t));
            if s.accepting && |s.places| < s.capacity
            then && s'.places == s.places[pid := t] && s'.held == s.held[caller := Hold(t, false)]
                 && s'.tickets[t] == Ticket(pid, Unstarted)
            else s' == s
    ensures var s' := Next(s, Pump(pid, t));
            if s.accepting && |s.places| < s.capacity
            then s'.places == s.places[pid := t] && s'.held == s.held && s'.tickets[t] == Ticket(pid, Working)
            else s' == s
  {
  }

  /** A job that ends is done for good and gives its place back, if it still had it; nothing else changes. */
  lemma {:induction false} EndedIsDone(s: State, t: nat)
    requires IsWorking(s, t)
    ensures var s' := Next(s, JobEnds(t));
            && s'.tickets == s.tickets[t := s.tickets[t].(phase := Done)] && s'.held == s.held
            && s'.places == (if InPlace(s, t) then s.places - {s.tickets[t].pid} else s.places)
  {
  }

  /** A shutdown takes nothing new, notes the jobs that run, and clears the places once all of those have ended. */
  lemma {:induction false} ShutdownWaits(s: State)
    requires Inv(s)
    ensures var s' := Next(s, ShutdownBegins);
            !s'.accepting && s'.places == s.places
            && forall t :: t in s'.closing <==> IsWorking(s, t) && InPlace(s, t)
    ensures var s' := Next(s, ShutdownEnds);
            if s.accepting || exists t :: t in s.closing && IsWorking(s, t) then s' == s
            else s'.accepting && s'.places == map[] && s'.tickets == s.tickets && s'.held == s.held
  {
  }

  // ---------------------------------------------------------------- what a dropped ticket leads to

  /** The job of a stray ticket runs. */
  lemma {:induction false} StrayStarts(s: State, t: nat) returns (more: seq<Step>)
    requires Inv(s) && Stray(s, t)
    ensures |more| <= 1 && DropFree(s, more) && Replayed(s, more).places == s.places
    ensures var s' := Replayed(s, more);
            Inv(s') && IsWorking(s', t) && s'.tickets[t].pid == s.tickets[t].pid && HasRoom(s') == HasRoom(s)
            && s'.tickets.Keys == s.tickets.Keys
  {
    if s.tickets[t].phase == Working {
      more := [];
    } else {
      var c :| c in s.held && s.held[c].ticket == t;
      more := [Start(c)];
      NextKeepsInv(s, Start(c));
      assert [Start(c)][1..] == [];
      assert Replayed(Next(s, Start(c)), []) == Next(s, Start(c));
      assert DropFree(Next(s, Start(c)), []);
    }
  }

  lemma {:induction false} PumpAddsJob(s: State, t: nat, fresh': nat)
    requires Inv(s) && IsWorking(s, t) && !InPlace(s, t) && fresh' !in s.tickets
    requires s.tickets[t].pid in s.places || HasRoom(s)
    ensures TwoJobs(Next(s, Pump(s.tickets[t].pid, fresh')), s.tickets[t].pid)
  {
    var pid := s.tickets[t].pid;
    var s' := Next(s, Pump(pid, fresh'));
    var u := if pid in s.places then s.places[pid] else fresh';
    assert t != u && IsWorking(s', t) && IsWorking(s', u) && s'.tickets[t].pid == pid && s'.tickets[u].pid == pid;
  }

  lemma {:induction false} UnusedTicket(tickets: set<nat>) returns (t: nat)
    ensures t !in tickets
  {
    t := Above(tickets);
    assert forall u :: u in tickets ==> u < t;
  }

  /** A number above all of a set. */
  ghost function Above(s: set<nat>): (n: nat)
    ensures forall u :: u in s ==> u < n
  {
    if s == {} then 0
    else
      var x :| x in s;
      var n := Above(s - {x});
      assert forall u :: u in s ==> u == x || u in s - {x};
      if x < n then n else x + 1
  }

  lemma {:induction false} ReplayAppend(s: State, a: seq<Step>, b: Step)
    ensures Replayed(s, a + [b]) == Next(Replayed(s, a), b)
    ensures DropFree(s, a) && !Drops(Replayed(s, a), b) ==> DropFree(s, a + [b])
    decreases |a|
  {
    if a == [] {
      assert [] + [b] == [b] && [b][1..] == [];
      assert Replayed(Next(s, b), []) == Next(s, b);
      assert DropFree(Next(s, b), []);
    } else {
      assert (a + [b])[1..] == a[1..] + [b] && (a + [b])[0] == a[0];
      ReplayAppend(Next(s, a[0]), a[1..], b);
    }
  }

  /** From a state with a stray ticket two jobs of its proposal are at most two steps away, and nothing else need be dropped. */
  lemma {:induction false} StrayMeansTwo(s: State, t: nat) returns (more: seq<Step>)
    requires Inv(s) && Stray(s, t) && (s.tickets[t].pid in s.places || HasRoom(s))
    ensures |more| <= 2 && DropFree(s, more) && TwoJobs(Replayed(s, more), s.tickets[t].pid)
  {
    var pid := s.tickets[t].pid;
    var first := StrayStarts(s, t);
    var s' := Replayed(s, first);
    var u := UnusedTicket(s'.tickets.Keys);
    PumpAddsJob(s', t, u);
    ReplayAppend(s, first, Pump(pid, u));
    more := first + [Pump(pid, u)];
  }

  /** More steps, which drop nothing, after which some proposal has two jobs. */
  ghost predicate LeadsToTwo(s: State, more: seq<Step>) {
    DropFree(s, more) && exists pid :: TwoJobs(Replayed(s, more), pid)
  }

  lemma {:induction false} TwoJobsExactly(s: State)
    requires Inv(s) && HasRoom(s)
    ensures (exists more :: LeadsToTwo(s, more)) <==> !NoStray(s)
  {
    if NoStray(s) {
      forall more ensures !LeadsToTwo(s, more) {
        if DropFree(s, more) {
          DropFreeKeeps(s, more);
          forall pid ensures !TwoJobs(Replayed(s, more), pid) {
            NoStrayNoTwo(Replayed(s, more), pid);
          }
        }
      }
    } else {
      var t :| Stray(s, t);
      var more := StrayMeansTwo(s, t);
      assert LeadsToTwo(s, more);
    }
  }

  /** In every run: as long as the queue has room, two jobs of one proposal are still to come without any live ticket being
      dropped from now on if and only if one has been dropped already, and its job runs or may still be started. */
  lemma {:induction false} TwoJobsAhead(capacity: nat, steps: seq<Step>)
    requires HasRoom(Run(capacity, steps))
    ensures (exists more :: LeadsToTwo(Run(capacity, steps), more)) <==> !NoStray(Run(capacity, steps))
  {
    ReplayKeepsInv(Initial(capacity), steps);
    TwoJobsExactly(Run(capacity, steps));
  }

  /** The step that decides it: after a run without drops, one more step opens the way to two jobs of a proposal if and only
      if it drops a live ticket. */
  lemma {:induction false} DropDecides(capacity: nat, steps: seq<Step>, a: Step)
    requires DropFree(Initial(capacity), steps) && HasRoom(Next(Run(capacity, steps), a))
    ensures (exists more :: LeadsToTwo(Next(Run(capacity, steps), a), more)) <==> Drops(Run(capacity, steps), a)
  {
    var s := Run(capacity, steps);
    DropFreeKeeps(Initial(capacity), steps);
    StraysAreDropped(s, a);
    NextKeepsInv(s, a);
    TwoJobsExactly(Next(s, a));
  }

  /** One ticket of proposal 7 that has lost its place, in the hands of caller `c`. */
  function Astray(c: nat, decides: bool): State {
    State(1, map[10 := Ticket(7, Unstarted)], map[], map[c := Hold(10, decides)], true, {})
  }

  /** Its holder starts it, and another retry starts a new one. */
  lemma {:induction false} StartedTwice(c: nat, decides: bool, d: nat)
    requires c != d
    ensures TwoJobs(Next(Next(Next(Astray(c, decides), Start(c)), Adopt(d, 7, 12)), Start(d)), 7)
  {
    var s1 := Next(Astray(c, decides), Start(c));
    assert s1 == State(1, map[10 := Ticket(7, Working)], map[], map[], true, {});
    var s2 := Next(s1, Adopt(d, 7, 12));
    assert s2.tickets == map[10 := Ticket(7, Working), 12 := Ticket(7, Unstarted)] && s2.held == map[d := Hold(12, false)];
    var s3 := Next(s2, Start(d));
    assert IsWorking(s3, 10) && IsWorking(s3, 12);
  }

  lemma {:induction false} DroppedByFailure()
    ensures var s := Next(Next(Initial(1), Adopt(1, 7, 10)), Adopt(2, 7, 11));
            Drops(s, Fail(1)) && Next(s, Fail(1)) == Astray(2, false)
  {
    var s1 := Next(Initial(1), Adopt(1, 7, 10));
    assert s1 == State(1, map[10 := Ticket(7, Unstarted)], map[7 := 10], map[1 := Hold(10, false)], true, {});
    var s2 := Next(s1, Adopt(2, 7, 11));
    assert s2 == s1.(held := map[1 := Hold(10, false), 2 := Hold(10, false)]);
    var s3 := Next(s2, Fail(1));
    assert s3.held == map[2 := Hold(10, false)] && s3.places == map[];
  }

  lemma {:induction false} DroppedByShutdown()
    ensures var s := Next(Next(Initial(1), Reserve(1, 7, 10, true)), ShutdownBegins);
            Drops(s, ShutdownEnds) && Next(s, ShutdownEnds) == Astray(1, true)
  {
    var s1 := Next(Initial(1), Reserve(1, 7, 10, true));
    assert s1 == State(1, map[10 := Ticket(7, Unstarted)], map[7 := 10], map[1 := Hold(10, true)], true, {});
    var s2 := Next(s1, ShutdownBegins);
    assert s2 == s1.(accepting := false);
    assert Awaited(s2, 10) && 7 in s2.places;
  }

  /** Two retries adopt the same ticket; the commit of one fails and gives it back; the other starts it without a place; a
      third retry gets a new ticket and starts it. */
  lemma {:induction false} TwoRetriesTwoJobs()
    ensures TwoJobs(Run(1, [Adopt(1, 7, 10), Adopt(2, 7, 11), Fail(1), Start(2), Adopt(3, 7, 12), Start(3)]), 7)
  {
    DroppedByFailure();
    StartedTwice(2, false, 3);
    SixSteps(Initial(1), [Adopt(1, 7, 10), Adopt(2, 7, 11), Fail(1), Start(2), Adopt(3, 7, 12), Start(3)]);
  }

  /** A shutdown clears the places while a caller still waits for its commit. */
  lemma {:induction false} ShutdownTwoJobs()
    ensures TwoJobs(Run(1, [Reserve(1, 7, 10, true), ShutdownBegins, ShutdownEnds, Start(1), Adopt(2, 7, 12), Start(2)]), 7)
  {
    DroppedByShutdown();
    StartedTwice(1, true, 2);
    SixSteps(Initial(1), [Reserve(1, 7, 10, true), ShutdownBegins, ShutdownEnds, Start(1), Adopt(2, 7, 12), Start(2)]);
  }

  lemma {:induction false} SixSteps(s: State, a: seq<Step>)
    requires |a| == 6
    ensures Replayed(s, a) == Next(Next(Next(Next(Next(Next(s, a[0]), a[1]), a[2]), a[3]), a[4]), a[5])
  {
    ReplayAppend(s, a[..5], a[5]);
    ReplayAppend(s, a[..4], a[4]);
    ReplayAppend(s, a[..3], a[3]);
    ReplayAppend(s, a[..2], a[2]);
    ReplayAppend(s, a[..1], a[1]);
    ReplayAppend(s, a[..0], a[0]);
    assert a == a[..5] + [a[5]] && a[..5] == a[..4] + [a[4]] && a[..4] == a[..3] + [a[3]] && a[..3] == a[..2] + [a[2]];
    assert a[..2] == a[..1] + [a[1]] && a[..1] == a[..0] + [a[0]] && a[..0] == [];
  }
}
