/**
 The status-change log behind the bar. A probe with an unchanged status moves the current row's time forward;
 only a changed status adds a row. The log is a run-length compression of the probes, and it means the same.
*/
module MonitorLog {
  import opened Basics
  import opened Uptime

  /** One probe recorded on top of the rows of its target, oldest first. */
  function RecordInto(rows: seq<Event>, status: string, at: int): seq<Event> {
    if rows != [] && rows[|rows| - 1].status == status then rows[..|rows| - 1] + [Event(status, at)]
    else rows + [Event(status, at)]
  }

  /** The rows left by recording all probes in order. */
  function Compressed(probes: seq<Event>): seq<Event> {
    if probes == [] then []
    else RecordInto(Compressed(probes[..|probes| - 1]), probes[|probes| - 1].status, probes[|probes| - 1].at)
  }

  lemma {:induction false} GoverningAppend(events: seq<Event>, e: Event, u: int)
    ensures Governing(events + [e], u)
            == var g := Governing(events, u);
               if g.Some? && g.value.at <= e.at then g else if e.at > u && (g.None? || e.at < g.value.at) then Some(e) else g
  {
    if events == [] {
      assert [] + [e] == [e] && [e][1..] == [];
    } else {
      GoverningAppend(events[1..], e, u);
      assert (events + [e])[1..] == events[1..] + [e];
    }
  }

  /** In rows in order of time a later last time extends the last status and changes nothing before. */
  lemma {:induction false} MovedRow(rows: seq<Event>, at: int, u: int)
    requires rows != [] && Ascending(rows) && rows[|rows| - 1].at <= at
    ensures var last := rows[|rows| - 1];
            var moved := rows[..|rows| - 1] + [Event(last.status, at)];
            && Ascending(moved)
            && (u < last.at ==> Governing(moved, u).Some? && Governing(rows, u).Some?
                                && Governing(moved, u).value.status == Governing(rows, u).value.status)
            && (last.at <= u ==> Governing(rows, u) == None
                                 && Governing(moved, u) == if u < at then Some(Event(last.status, at)) else None)
  {
    var last, front := rows[|rows| - 1], rows[..|rows| - 1];
    assert rows == front + [last];
    GoverningAppend(front, last, u);
    GoverningAppend(front, Event(last.status, at), u);
    GoverningIsEarliest(front, u);
    GoverningIsEarliest(rows, u);
    if Governing(front, u).Some? {
      var i :| 0 <= i < |front| && front[i] == Governing(front, u).value;
      assert rows[i].at <= last.at;
    }
  }

  /** The compressed rows are in order of time and end with the last probe. */
  ghost predicate EndsLike(rows: seq<Event>, probes: seq<Event>) {
    && Ascending(rows) && |rows| <= |probes|
    && (probes != [] ==> rows != [] && rows[|rows| - 1] == probes[|probes| - 1])
  }

  lemma {:induction false} CompressedEnds(probes: seq<Event>)
    requires Ascending(probes)
    ensures EndsLike(Compressed(probes), probes)
  {
    if probes != [] {
      var front, e := probes[..|probes| - 1], probes[|probes| - 1];
      CompressedEnds(front);
      if front != [] {
        assert front[|front| - 1] == probes[|probes| - 2];
      }
      RecordEnds(Compressed(front), e, |front|);
    }
  }

  lemma {:induction false} RecordEnds(rows: seq<Event>, e: Event, n: nat)
    requires Ascending(rows) && |rows| <= n && (rows != [] ==> rows[|rows| - 1].at <= e.at)
    ensures var more := RecordInto(rows, e.status, e.at);
            Ascending(more) && |more| <= n + 1 && more != [] && more[|more| - 1] == e
  {
    var more := RecordInto(rows, e.status, e.at);
    forall i | 0 <= i < |more| - 1 ensures more[i].at <= e.at {
      assert more[i] == rows[i];
    }
  }

  ghost predicate SameStatus(g: Option<Event>, full: Option<Event>) {
    g.Some? == full.Some? && (g.Some? ==> g.value.status == full.value.status)
  }

  /** One more probe, recorded in the compressed rows and in the full log. */
  lemma {:induction false} RecordMeansTheSame(rows: seq<Event>, front: seq<Event>, e: Event, u: int)
    requires Ascending(front) && EndsLike(rows, front) && (front != [] ==> front[|front| - 1].at <= e.at)
    requires front == [] ==> rows == []
    requires SameStatus(Governing(rows, u), Governing(front, u))
    ensures SameStatus(Governing(RecordInto(rows, e.status, e.at), u), Governing(front + [e], u))
  {
    GoverningAppend(front, e, u);
    GoverningIsEarliest(front, u);
    if rows != [] && rows[|rows| - 1].status == e.status {
      MovedRow(rows, e.at, u);
      assert e == Event(rows[|rows| - 1].status, e.at);
    } else {
      GoverningAppend(rows, e, u);
      GoverningIsEarliest(rows, u);
    }
  }

  /** For probe times that never go back the compressed rows give every tick the status all probes would. */
  lemma {:induction false} CompressedMeansTheSame(probes: seq<Event>, u: int)
    requires Ascending(probes)
    ensures SameStatus(Governing(Compressed(probes), u), Governing(probes, u))
  {
    if probes != [] {
      var front, e := probes[..|probes| - 1], probes[|probes| - 1];
      CompressedMeansTheSame(front, u);
      CompressedEnds(front);
      if front != [] {
        assert front[|front| - 1] == probes[|probes| - 2];
      }
      RecordMeansTheSame(Compressed(front), front, e, u);
      assert probes == front + [e];
    }
  }

  ghost predicate Alternating(rows: seq<Event>) {
    forall i, j | 0 <= i < |rows| && 0 <= j < |rows| && j == i + 1 :: rows[i].status != rows[j].status
  }

  lemma {:induction false} RecordKeepsAlternating(rows: seq<Event>, status: string, at: int)
    requires Alternating(rows)
    ensures Alternating(RecordInto(rows, status, at))
  {
    var more := RecordInto(rows, status, at);
    forall i, j | 0 <= i < |more| && 0 <= j < |more| && j == i + 1
      ensures more[i].status != more[j].status
    {
      assert more[i] == rows[i];
      if j < |rows| {
        assert more[j].status == rows[j].status;
        assert rows[i].status != rows[j].status;
      }
    }
  }

  /** No two neighbouring rows of a compressed log have the same status: it is as short as it can be. */
  lemma {:induction false} CompressedAlternates(probes: seq<Event>)
    ensures Alternating(Compressed(probes))
  {
    if probes != [] {
      CompressedAlternates(probes[..|probes| - 1]);
      RecordKeepsAlternating(Compressed(probes[..|probes| - 1]), probes[|probes| - 1].status, probes[|probes| - 1].at);
    }
  }

  /** The bar, the covered time and the rate from the compressed log are those of the full probe log. */
  lemma {:induction false} CompressionIsLossless(probes: seq<Event>, windowStart: int, knownSince: int)
    requires Ascending(probes)
    ensures forall k :: 0 <= k < BUCKET_COUNT ==>
              Bucket(Compressed(probes), windowStart, knownSince, k) == Bucket(probes, windowStart, knownSince, k)
    ensures Covered(Compressed(probes), windowStart, knownSince) == Covered(probes, windowStart, knownSince)
    ensures UpTime(Compressed(probes), windowStart, knownSince) == UpTime(probes, windowStart, knownSince)
  {
    var floor := Floor(windowStart, knownSince);
    forall u ensures StatusAt(Compressed(probes), floor, u) == StatusAt(probes, floor, u) {
      CompressedMeansTheSame(probes, u);
    }
    SameStatusSameWindow(Compressed(probes), probes, windowStart, knownSince);
  }

  // ---------------------------------------------------------------- purging old rows

  /** Drops rows older than `cutoff`, except the newest one. */
  function Purged(rows: seq<Event>, cutoff: int): seq<Event> {
    if |rows| <= 1 || rows[0].at >= cutoff then rows else Purged(rows[1..], cutoff)
  }

  /** In rows ordered by time this is exactly: keep the newest row and every row not older than the cutoff. */
  lemma {:induction false} PurgedExactly(rows: seq<Event>, cutoff: int)
    requires Ascending(rows)
    ensures Ascending(Purged(rows, cutoff))
    ensures forall e :: e in Purged(rows, cutoff) <==> e in rows && (e.at >= cutoff || e == rows[|rows| - 1])
  {
    if |rows| > 1 && rows[0].at < cutoff {
      PurgedExactly(rows[1..], cutoff);
      assert rows[|rows| - 1].at >= rows[0].at;
    } else if |rows| == 1 {
      assert forall e :: e in rows ==> e == rows[0];
    }
  }

  lemma {:induction false} PurgedGoverns(rows: seq<Event>, cutoff: int, u: int)
    requires Ascending(rows) && cutoff <= u + 1
    ensures Governing(Purged(rows, cutoff), u) == Governing(rows, u)
  {
    if |rows| > 1 && rows[0].at < cutoff {
      PurgedGoverns(rows[1..], cutoff, u);
      assert rows[0].at <= u;
    }
  }

  /** Purging changes nothing that a window shows, as long as the cutoff is not past the window's floor. */
  lemma {:induction false} PurgeIsInvisible(rows: seq<Event>, cutoff: int, windowStart: int, knownSince: int)
    requires Ascending(rows) && cutoff <= Floor(windowStart, knownSince) + 1
    ensures forall k :: 0 <= k < BUCKET_COUNT ==>
              Bucket(Purged(rows, cutoff), windowStart, knownSince, k) == Bucket(rows, windowStart, knownSince, k)
    ensures Covered(Purged(rows, cutoff), windowStart, knownSince) == Covered(rows, windowStart, knownSince)
    ensures UpTime(Purged(rows, cutoff), windowStart, knownSince) == UpTime(rows, windowStart, knownSince)
  {
    var floor := Floor(windowStart, knownSince);
    forall u ensures StatusAt(Purged(rows, cutoff), floor, u) == StatusAt(rows, floor, u) {
      if u >= floor {
        PurgedGoverns(rows, cutoff, u);
      }
    }
    SameStatusSameWindow(Purged(rows, cutoff), rows, windowStart, knownSince);
  }

  // ---------------------------------------------------------------- probes and purges over time

  datatype Step = Probe(status: string, at: int) | Purge(cutoff: int)

  /** The rows of a target after probes and purges in any order. */
  function RowsAfter(steps: seq<Step>): seq<Event> {
    if steps == [] then []
    else
      var rows := RowsAfter(steps[..|steps| - 1]);
      match steps[|steps| - 1]
      case Probe(status, at) => RecordInto(rows, status, at)
      case Purge(cutoff) => Purged(rows, cutoff)
  }

  /** All probes there were. */
  function ProbesOf(steps: seq<Step>): seq<Event> {
    if steps == [] then []
    else
      ProbesOf(steps[..|steps| - 1])
      + match steps[|steps| - 1]
        case Probe(status, at) => [Event(status, at)]
        case Purge(_) => []
  }

  predicate PurgesUpTo(steps: seq<Step>, limit: int) {
    forall i :: 0 <= i < |steps| && steps[i].Purge? ==> steps[i].cutoff <= limit
  }

  lemma {:induction false} PurgedEnds(rows: seq<Event>, cutoff: int, probes: seq<Event>)
    requires EndsLike(rows, probes)
    ensures EndsLike(Purged(rows, cutoff), probes)
  {
    PurgedKeepsLast(rows, cutoff);
    PurgedExactly(rows, cutoff);
  }

  lemma {:induction false} PurgedKeepsLast(rows: seq<Event>, cutoff: int)
    ensures |Purged(rows, cutoff)| <= |rows|
    ensures rows != [] ==> Purged(rows, cutoff) != []
                           && Purged(rows, cutoff)[|Purged(rows, cutoff)| - 1] == rows[|rows| - 1]
  {
    if |rows| > 1 && rows[0].at < cutoff {
      PurgedKeepsLast(rows[1..], cutoff);
    }
  }

  /** The rows stand for the probes, as far as tick `u` is concerned. */
  ghost predicate StandFor(rows: seq<Event>, probes: seq<Event>, u: int) {
    && EndsLike(rows, probes) && (probes == [] ==> rows == [])
    && SameStatus(Governing(rows, u), Governing(probes, u))
  }

  lemma {:induction false} FrontAscends(front: seq<Event>, e: Event)
    requires Ascending(front + [e])
    ensures Ascending(front) && (front != [] ==> front[|front| - 1].at <= e.at)
  {
    var all := front + [e];
    assert forall i :: 0 <= i < |front| ==> front[i] == all[i];
    assert all[|front|] == e;
  }

  lemma {:induction false} ProbeStandsFor(rows: seq<Event>, probes: seq<Event>, e: Event, u: int)
    requires StandFor(rows, probes, u) && Ascending(probes + [e])
    ensures StandFor(RecordInto(rows, e.status, e.at), probes + [e], u)
  {
    FrontAscends(probes, e);
    RecordMeansTheSame(rows, probes, e, u);
    RecordEnds(rows, e, |probes|);
  }

  lemma {:induction false} PurgeStandsFor(rows: seq<Event>, probes: seq<Event>, cutoff: int, u: int)
    requires StandFor(rows, probes, u) && cutoff <= u + 1
    ensures StandFor(Purged(rows, cutoff), probes, u)
  {
    PurgedGoverns(rows, cutoff, u);
    PurgedEnds(rows, cutoff, probes);
    PurgedKeepsLast(rows, cutoff);
  }

  lemma {:induction false} RowsMeanTheProbes(steps: seq<Step>, u: int)
    requires Ascending(ProbesOf(steps)) && PurgesUpTo(steps, u + 1)
    ensures StandFor(RowsAfter(steps), ProbesOf(steps), u)
  {
    if steps != [] {
      var front := steps[..|steps| - 1];
      match steps[|steps| - 1]
      case Probe(status, at) =>
        FrontAscends(ProbesOf(front), Event(status, at));
        RowsMeanTheProbes(front, u);
        ProbeStandsFor(RowsAfter(front), ProbesOf(front), Event(status, at), u);
      case Purge(cutoff) =>
        assert ProbesOf(steps) == ProbesOf(front);
        RowsMeanTheProbes(front, u);
        PurgeStandsFor(RowsAfter(front), ProbesOf(front), cutoff, u);
    }
  }

  /** However probes and purges interleave: as long as the clock never goes back and no purge reached past the floor of a
      window, the rows that are left show the same buckets, covered and up time in it as all the probes there ever were. */
  lemma {:induction false} LogIsLossless(steps: seq<Step>, windowStart: int, knownSince: int)
    requires Ascending(ProbesOf(steps)) && PurgesUpTo(steps, Floor(windowStart, knownSince) + 1)
    ensures SameWindow(RowsAfter(steps), ProbesOf(steps), windowStart, knownSince)
  {
    var floor := Floor(windowStart, knownSince);
    forall u ensures LooksLike(StatusAt(RowsAfter(steps), floor, u), StatusAt(ProbesOf(steps), floor, u)) {
      if u >= floor {
        RowsMeanTheProbes(steps, u);
      }
    }
    SameStatusSameWindow(RowsAfter(steps), ProbesOf(steps), windowStart, knownSince);
  }

  // ---------------------------------------------------------------- the table of all targets

  datatype Row = Row(target: int, status: string, at: int)

  /** The rows of one target, in insertion order. */
  function TargetRows(rows: seq<Row>, target: int): seq<Event> {
    if rows == [] then []
    else
      var front, last := TargetRows(rows[..|rows| - 1], target), rows[|rows| - 1];
      if last.target == target then front + [Event(last.status, last.at)] else front
  }

  lemma {:induction false} NoTargetRows(rows: seq<Row>, target: int)
    requires forall i :: 0 <= i < |rows| ==> rows[i].target != target
    ensures TargetRows(rows, target) == []
  {
    if rows != [] {
      NoTargetRows(rows[..|rows| - 1], target);
    }
  }

  /** Moving the time of the newest row of `target` moves the last of its rows and no row of another target. */
  lemma {:induction false} MovedTargetRow(rows: seq<Row>, at: nat, now: int, target: int)
    requires at < |rows|
    requires forall j :: at < j < |rows| ==> rows[j].target != rows[at].target
    ensures var moved := rows[at := rows[at].(at := now)];
            var before := TargetRows(rows, target);
            if target == rows[at].target then
              before != [] && before[|before| - 1] == Event(rows[at].status, rows[at].at)
              && TargetRows(moved, target) == before[..|before| - 1] + [Event(rows[at].status, now)]
            else TargetRows(moved, target) == before
  {
    var moved := rows[at := rows[at].(at := now)];
    if at == |rows| - 1 {
      assert moved[..|rows| - 1] == rows[..|rows| - 1];
    } else {
      MovedTargetRow(rows[..|rows| - 1], at, now, target);
      assert moved[..|rows| - 1] == rows[..|rows| - 1][at := rows[at].(at := now)];
    }
  }

  /** The place of the row with the latest time of one target, the later row among equals. */
  function LatestOf(rows: seq<Row>, target: int): (at: Option<nat>)
    ensures at.Some? ==> at.value < |rows|
  {
    if rows == [] then None
    else
      var n := |rows| - 1;
      var front := LatestOf(rows[..n], target);
      if rows[n].target == target && (front.None? || rows[n].at >= rows[front.value].at) then Some(n) else front
  }

  lemma {:induction false} LatestOfIs(rows: seq<Row>, target: int)
    ensures var at := LatestOf(rows, target);
            && (at.None? <==> forall i :: 0 <= i < |rows| ==> rows[i].target != target)
            && (at.Some? ==>
                  at.value < |rows| && rows[at.value].target == target
                  && forall i :: 0 <= i < |rows| && rows[i].target == target ==>
                       rows[i].at < rows[at.value].at || (rows[i].at == rows[at.value].at && i <= at.value))
  {
    if rows != [] {
      var front := rows[..|rows| - 1];
      LatestOfIs(front, target);
      assert forall i :: 0 <= i < |front| ==> front[i] == rows[i];
    }
  }

  /** Rows of each target were added in order of time. */
  ghost predicate InOrder(rows: seq<Row>) {
    forall i, j | 0 <= i < j < |rows| && rows[i].target == rows[j].target :: rows[i].at <= rows[j].at
  }

  /** One probe, judged against row `current`: the time of that row moves, or a row is added. */
  function Recorded(rows: seq<Row>, current: Option<nat>, target: int, status: string, now: int): seq<Row> {
    if current.Some? && current.value < |rows| && rows[current.value].status == status then
      rows[current.value := rows[current.value].(at := now)]
    else rows + [Row(target, status, now)]
  }

  /** Judged against the newest row, with a clock that has not gone back, the probe extends or appends to the rows of its own
      target only. */
  lemma {:induction false} RecordedIsRecordInto(rows: seq<Row>, target: int, status: string, now: int)
    requires InOrder(rows) && forall i :: 0 <= i < |rows| && rows[i].target == target ==> rows[i].at <= now
    ensures var more := Recorded(rows, LatestOf(rows, target), target, status, now);
            && InOrder(more)
            && TargetRows(more, target) == RecordInto(TargetRows(rows, target), status, now)
            && (forall t :: t != target ==> TargetRows(more, t) == TargetRows(rows, t))
  {
    var current := LatestOf(rows, target);
    LatestOfIs(rows, target);
    var more := Recorded(rows, current, target, status, now);
    if current.Some? {
      var k := current.value;
      assert forall j :: k < j < |rows| ==> rows[j].target != target;
      MovedTargetRow(rows, k, now, target);
      if rows[k].status == status {
        forall t | t != target ensures TargetRows(more, t) == TargetRows(rows, t) {
          MovedTargetRow(rows, k, now, t);
        }
        return;
      }
    } else {
      NoTargetRows(rows, target);
    }
    assert more[..|more| - 1] == rows;
  }

  class StatusEvents {
    var rows: seq<Row>

    constructor ()
      ensures rows == []
    {
      rows := [];
    }

    /** The row with the latest time of one target, the later row among equals. */
    method Latest(target: int) returns (at: Option<nat>)
      ensures at == LatestOf(rows, target)
      ensures at.None? <==> forall i :: 0 <= i < |rows| ==> rows[i].target != target
      ensures at.Some? ==> at.value < |rows| && rows[at.value].target == target
                           && forall i :: 0 <= i < |rows| && rows[i].target == target ==>
                                            rows[i].at < rows[at.value].at || (rows[i].at == rows[at.value].at && i <= at.value)
    {
      at := None;
      var i := 0;
      while i < |rows|
        invariant 0 <= i <= |rows| && at == LatestOf(rows[..i], target)
        invariant at.Some? ==> at.value < i
      {
        assert rows[..i + 1][..i] == rows[..i];
        if rows[i].target == target && (at.None? || rows[i].at >= rows[at.value].at) {
          at := Some(i);
        }
        i := i + 1;
      }
      assert rows[..i] == rows;
      LatestOfIs(rows, target);
    }

    /** Records one probe, judged against the row the caller has already loaded, or else against the newest one. Returns the
        place of the row that was updated or added. */
    method RecordProbe(target: int, status: string, now: int, loaded: Option<nat>) returns (at: nat)
      requires loaded.Some? ==> loaded.value < |rows|
      modifies this
      ensures var current := if loaded.Some? then loaded else LatestOf(old(rows), target);
              && rows == Recorded(old(rows), current, target, status, now)
              && at == if current.Some? && |rows| == |old(rows)| then current.value else |old(rows)|
      ensures at < |rows| && rows[at].status == status && rows[at].at == now
      ensures |rows| == |old(rows)| ==> old(rows)[at].status == status && rows == old(rows)[at := old(rows)[at].(at := now)]
      ensures |rows| != |old(rows)| ==> rows == old(rows) + [Row(target, status, now)]
      ensures |rows| == |old(rows)| <==>
                var current := if loaded.Some? then loaded else LatestOf(old(rows), target);
                current.Some? && current.value < |old(rows)| && old(rows)[current.value].status == status
      ensures (loaded.None? || loaded == LatestOf(old(rows), target)) && InOrder(old(rows))
              && (forall i :: 0 <= i < |old(rows)| && old(rows)[i].target == target ==> old(rows)[i].at <= now) ==>
                && InOrder(rows)
                && TargetRows(rows, target) == RecordInto(TargetRows(old(rows), target), status, now)
                && forall t :: t != target ==> TargetRows(rows, t) == TargetRows(old(rows), t)
    {
      ghost var before := rows;
      var current := loaded;
      if current.None? {
        current := Latest(target);
      }
      if InOrder(before) && forall i :: 0 <= i < |before| && before[i].target == target ==> before[i].at <= now {
        RecordedIsRecordInto(before, target, status, now);
      }
      if current.Some? && rows[current.value].status == status {
        rows := rows[current.value := rows[current.value].(at := now)];
        at := current.value;
      } else {
        rows := rows + [Row(target, status, now)];
        at := |rows| - 1;
      }
    }
  }
}
