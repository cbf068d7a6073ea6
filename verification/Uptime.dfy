/**
 The availability bar: sixty one-minute buckets and a time-weighted rate, rebuilt from a log of status
 changes. Times are integer microseconds; the tick `u` stands for the microsecond from `u` to `u + 1`.
*/
module Uptime {
  import opened Basics

  const UP: string := "up"
  const SECOND: int := 1_000_000
  const BUCKET_SECONDS: int := 60
  const BUCKET: int := 60_000_000
  const BUCKET_COUNT: int := 60
  const WINDOW: int := 3_600_000_000

  datatype BucketState = Up | Down | Unknown

  /** One row: `status` was last observed at `at`. */
  datatype Event = Event(status: string, at: int)

  // ---------------------------------------------------------------- the pointwise meaning of a log

  /** The earliest event after `u`; among equal times the first in the sequence. */
  function Governing(events: seq<Event>, u: int): Option<Event> {
    if events == [] then None
    else
      var rest := Governing(events[1..], u);
      if events[0].at > u && (rest.None? || events[0].at <= rest.value.at) then Some(events[0]) else rest
  }

  lemma {:induction false} GoverningIsEarliest(events: seq<Event>, u: int)
    ensures var g := Governing(events, u);
            && (g.None? <==> forall i :: 0 <= i < |events| ==> events[i].at <= u)
            && (g.Some? ==> g.value in events && g.value.at > u
                            && forall i :: 0 <= i < |events| && events[i].at > u ==> g.value.at <= events[i].at)
  {
    if events != [] {
      GoverningIsEarliest(events[1..], u);
    }
  }

  /** The status at tick `u`: that of the earliest event after it; nothing is known before `floor` or after the
      last event. */
  function StatusAt(events: seq<Event>, floor: int, u: int): Option<string> {
    if u < floor then None
    else
      var g := Governing(events, u);
      if g.Some? then Some(g.value.status) else None
  }

  /** Ticks of [lo, hi) with a known status (`upOnly`: with status up). */
  ghost function Ticks(events: seq<Event>, floor: int, upOnly: bool, lo: int, hi: int): nat
    decreases hi - lo
  {
    if hi <= lo then 0
    else
      var status := StatusAt(events, floor, hi - 1);
      Ticks(events, floor, upOnly, lo, hi - 1) + (if status.Some? && (upOnly ==> status.value == UP) then 1 else 0)
  }

  predicate InBucket(windowStart: int, k: int, u: int) {
    windowStart + BUCKET * k <= u < windowStart + BUCKET * (k + 1)
  }

  ghost predicate SeesFailure(events: seq<Event>, floor: int, windowStart: int, k: int, hi: int) {
    exists u :: InBucket(windowStart, k, u) && u < hi && StatusAt(events, floor, u).Some? && StatusAt(events, floor, u) != Some(UP)
  }

  ghost predicate SeesUp(events: seq<Event>, floor: int, windowStart: int, k: int, hi: int) {
    exists u :: InBucket(windowStart, k, u) && u < hi && StatusAt(events, floor, u) == Some(UP)
  }

  /** Bucket `k` as far as the ticks before `hi` tell: any failure makes it down, otherwise any up time makes it
      up, otherwise it is unknown. */
  ghost function BucketUpTo(events: seq<Event>, floor: int, windowStart: int, k: int, hi: int): BucketState {
    if SeesFailure(events, floor, windowStart, k, hi) then Down
    else if SeesUp(events, floor, windowStart, k, hi) then Up
    else Unknown
  }

  function Floor(windowStart: int, knownSince: int): int { Max(knownSince, windowStart) }

  ghost function Bucket(events: seq<Event>, windowStart: int, knownSince: int, k: int): BucketState {
    BucketUpTo(events, Floor(windowStart, knownSince), windowStart, k, windowStart + WINDOW)
  }

  ghost function Covered(events: seq<Event>, windowStart: int, knownSince: int): nat {
    Ticks(events, Floor(windowStart, knownSince), false, windowStart, windowStart + WINDOW)
  }

  ghost function UpTime(events: seq<Event>, windowStart: int, knownSince: int): nat {
    Ticks(events, Floor(windowStart, knownSince), true, windowStart, windowStart + WINDOW)
  }

  // ---------------------------------------------------------------- sorting by time

  predicate Ascending(events: seq<Event>) {
    forall i, j | 0 <= i < j < |events| :: events[i].at <= events[j].at
  }

  function InsertByTime(e: Event, sorted: seq<Event>): seq<Event> {
    if sorted == [] || e.at <= sorted[0].at then [e] + sorted
    else [sorted[0]] + InsertByTime(e, sorted[1..])
  }

  /** A stable sort by time. */
  function SortByTime(events: seq<Event>): seq<Event> {
    if events == [] then [] else InsertByTime(events[0], SortByTime(events[1..]))
  }

  lemma {:induction false} InsertPermutes(e: Event, sorted: seq<Event>)
    ensures multiset(InsertByTime(e, sorted)) == multiset(sorted) + multiset{e}
  {
    if sorted != [] && e.at > sorted[0].at {
      InsertPermutes(e, sorted[1..]);
      assert sorted == [sorted[0]] + sorted[1..];
    }
  }

  lemma {:induction false} InsertAscending(e: Event, sorted: seq<Event>)
    requires Ascending(sorted)
    ensures Ascending(InsertByTime(e, sorted))
  {
    if sorted != [] && e.at > sorted[0].at {
      var rest := InsertByTime(e, sorted[1..]);
      InsertAscending(e, sorted[1..]);
      InsertPermutes(e, sorted[1..]);
      forall i | 0 <= i < |rest| ensures sorted[0].at <= rest[i].at {
        assert rest[i] in multiset(rest);
        assert rest[i] == e || rest[i] in sorted[1..];
      }
    }
  }

  /** Where an event stands among later ones does not matter to what governs. */
  lemma {:induction false} InsertGoverns(e: Event, sorted: seq<Event>, u: int)
    requires Ascending(sorted)
    ensures Governing(InsertByTime(e, sorted), u) == Governing([e] + sorted, u)
  {
    assert ([e] + sorted)[1..] == sorted;
    if sorted != [] && e.at > sorted[0].at {
      var rest := InsertByTime(e, sorted[1..]);
      InsertGoverns(e, sorted[1..], u);
      assert ([e] + sorted[1..])[1..] == sorted[1..];
      assert ([sorted[0]] + rest)[1..] == rest;
      GoverningIsEarliest(sorted[1..], u);
    }
  }

  lemma {:induction false} SortKeeps(events: seq<Event>, u: int)
    ensures Ascending(SortByTime(events))
    ensures multiset(SortByTime(events)) == multiset(events)
    ensures Governing(SortByTime(events), u) == Governing(events, u)
  {
    if events != [] {
      SortKeeps(events[1..], u);
      var rest := SortByTime(events[1..]);
      InsertPermutes(events[0], rest);
      InsertAscending(events[0], rest);
      InsertGoverns(events[0], rest, u);
      assert events == [events[0]] + events[1..];
      assert ([events[0]] + rest)[1..] == rest;
    }
  }

  /** In a sorted log the first event after `u` governs it. */
  lemma {:induction false} FirstAfterGoverns(events: seq<Event>, i: nat, u: int)
    requires Ascending(events) && i < |events| && events[i].at > u
    requires forall j :: 0 <= j < i ==> events[j].at <= u
    ensures Governing(events, u) == Some(events[i])
  {
    GoverningIsEarliest(events[1..], u);
    if i > 0 {
      FirstAfterGoverns(events[1..], i - 1, u);
    } else if Governing(events[1..], u).Some? {
      var j :| 0 <= j < |events[1..]| && events[1..][j] == Governing(events[1..], u).value;
      assert events[j + 1] == Governing(events[1..], u).value;
    }
  }

  // ---------------------------------------------------------------- stretches of constant status

  ghost predicate Constant(events: seq<Event>, floor: int, lo: int, hi: int, status: Option<string>) {
    forall u {:trigger StatusAt(events, floor, u)} | lo <= u < hi :: StatusAt(events, floor, u) == status
  }

  lemma {:induction false} TicksOfStretch(events: seq<Event>, floor: int, upOnly: bool, lo: int, mid: int, hi: int,
                                          status: Option<string>)
    requires lo <= mid <= hi && Constant(events, floor, mid, hi, status)
    ensures Ticks(events, floor, upOnly, lo, hi)
            == Ticks(events, floor, upOnly, lo, mid)
               + (if status.Some? && (upOnly ==> status.value == UP) then hi - mid else 0)
    decreases hi - mid
  {
    if mid < hi {
      assert StatusAt(events, floor, hi - 1) == status;
      TicksOfStretch(events, floor, upOnly, lo, mid, hi - 1, status);
    }
  }

  /** The indices of the first and last bucket a stretch [lo, hi) of the window meets, computed as the code does. */
  lemma {:induction false} BucketsMet(windowStart: int, lo: int, hi: int, k: int)
    requires windowStart <= lo < hi && 0 <= k
    ensures (lo - windowStart) / SECOND / BUCKET_SECONDS <= k <= (hi - 1 - windowStart) / SECOND / BUCKET_SECONDS
            <==> windowStart + BUCKET * k < hi && lo < windowStart + BUCKET * (k + 1)
  {
    var a, b := lo - windowStart, hi - 1 - windowStart;
    assert a / SECOND / BUCKET_SECONDS == a / BUCKET;
    assert b / SECOND / BUCKET_SECONDS == b / BUCKET;
  }

  /** What a stretch of constant status does to one bucket. */
  lemma {:induction false} BucketAfterStretch(events: seq<Event>, floor: int, windowStart: int, k: int, lo: int, hi: int,
                                              status: Option<string>)
    requires windowStart <= lo < hi && 0 <= k && Constant(events, floor, lo, hi, status)
    ensures var before := BucketUpTo(events, floor, windowStart, k, lo);
            BucketUpTo(events, floor, windowStart, k, hi) ==
            if status.None? || !(windowStart + BUCKET * k < hi && lo < windowStart + BUCKET * (k + 1)) then before
            else if status.value != UP then Down
            else if before == Unknown then Up
            else before
  {
    var met := windowStart + BUCKET * k < hi && lo < windowStart + BUCKET * (k + 1);
    if met {
      var u := Max(lo, windowStart + BUCKET * k);
      assert InBucket(windowStart, k, u) && lo <= u < hi && StatusAt(events, floor, u) == status;
    }
    if SeesFailure(events, floor, windowStart, k, lo) {
      assert SeesFailure(events, floor, windowStart, k, hi);
    }
    if SeesUp(events, floor, windowStart, k, lo) {
      assert SeesUp(events, floor, windowStart, k, hi);
    }
    forall u | InBucket(windowStart, k, u) && u < hi
      ensures u < lo || (StatusAt(events, floor, u) == status && met)
    {}
  }

  /** The bar in numbers: sixty buckets of one minute, side by side, are the hour. */
  lemma {:induction false} BucketsTileTheHour(windowStart: int, u: int)
    ensures windowStart <= u < windowStart + 3_600_000_000 <==>
            exists k :: 0 <= k < BUCKET_COUNT && InBucket(windowStart, k, u)
    ensures BUCKET_COUNT == 60 && WINDOW == 3_600_000_000
    ensures forall k :: InBucket(windowStart, k, u) <==> windowStart + k * 60_000_000 <= u < windowStart + k * 60_000_000 + 60_000_000
    ensures forall k, l :: InBucket(windowStart, k, u) && InBucket(windowStart, l, u) ==> k == l
  {
    if windowStart <= u < windowStart + 3_600_000_000 {
      var k := (u - windowStart) / BUCKET;
      assert 0 <= k < BUCKET_COUNT && InBucket(windowStart, k, u);
    }
  }

  // ---------------------------------------------------------------- the algorithm

  datatype Segment = Segment(start: int, end: int, status: string)

  /** The segments tile the time from `floor` to `end`, each with the status that governs it, clipped at
      `windowEnd`. */
  ghost predicate Tiling(segments: seq<Segment>, events: seq<Event>, floor: int, end: int, windowEnd: int) {
    && floor <= end
    && (segments == [] ==> end == floor)
    && (segments != [] ==> segments[0].start == floor)
    && (forall j :: 0 <= j < |segments| ==>
          segments[j].start < NextStart(segments, j, end)
          && segments[j].end == Min(NextStart(segments, j, end), windowEnd)
          && Constant(events, floor, segments[j].start, NextStart(segments, j, end), Some(segments[j].status)))
  }

  function NextStart(segments: seq<Segment>, j: nat, end: int): int
    requires j < |segments|
  {
    if j + 1 < |segments| then segments[j + 1].start else end
  }

  lemma {:induction false} TilingExtended(segments: seq<Segment>, events: seq<Event>, floor: int, end: int,
                                          windowEnd: int, i: nat)
    requires Ascending(events) && i < |events| && end < events[i].at
    requires forall j :: 0 <= j < i ==> events[j].at <= end
    requires Tiling(segments, events, floor, end, windowEnd)
    ensures Tiling(segments + [Segment(end, Min(events[i].at, windowEnd), events[i].status)], events, floor, events[i].at, windowEnd)
  {
    var more := segments + [Segment(end, Min(events[i].at, windowEnd), events[i].status)];
    forall u | end <= u < events[i].at
      ensures StatusAt(events, floor, u) == Some(events[i].status)
    {
      FirstAfterGoverns(events, i, u);
    }
    forall j | 0 <= j < |segments|
      ensures NextStart(more, j, events[i].at) == NextStart(segments, j, end)
    {}
  }

  /** The latest time in the log, or `floor` when nothing is later. */
  function Latest(events: seq<Event>, floor: int): int {
    if events == [] then floor else Max(events[0].at, Latest(events[1..], floor))
  }

  lemma {:induction false} LatestBounds(events: seq<Event>, floor: int)
    ensures floor <= Latest(events, floor)
    ensures forall i :: 0 <= i < |events| ==> events[i].at <= Latest(events, floor)
    ensures Latest(events, floor) == floor || exists i :: 0 <= i < |events| && events[i].at == Latest(events, floor)
  {
    if events != [] {
      LatestBounds(events[1..], floor);
      if Latest(events, floor) == Latest(events[1..], floor) != floor {
        var i :| 0 <= i < |events[1..]| && events[1..][i].at == Latest(events[1..], floor);
        assert events[i + 1].at == Latest(events, floor);
      }
    }
  }

  method Segments(ordered: seq<Event>, floor: int, windowEnd: int) returns (segments: seq<Segment>)
    requires Ascending(ordered)
    ensures Tiling(segments, ordered, floor, Latest(ordered, floor), windowEnd)
  {
    segments := [];
    var previousEnd := floor;
    var i := 0;
    while i < |ordered|
      invariant 0 <= i <= |ordered|
      invariant Tiling(segments, ordered, floor, previousEnd, windowEnd)
      invariant forall j :: 0 <= j < i ==> ordered[j].at <= previousEnd
      invariant previousEnd == floor || exists j :: 0 <= j < i && ordered[j].at == previousEnd
    {
      var e := ordered[i];
      if e.at > previousEnd {
        TilingExtended(segments, ordered, floor, previousEnd, windowEnd, i);
        segments := segments + [Segment(previousEnd, Min(e.at, windowEnd), e.status)];
      }
      previousEnd := Max(previousEnd, e.at);
      i := i + 1;
    }
    LatestBounds(ordered, floor);
  }

  /** Colours the buckets `first .. last` for one stretch: a failure always wins, up only replaces unknown. */
  method Paint(buckets: array<BucketState>, first: int, last: int, up: bool)
    requires buckets.Length == BUCKET_COUNT
    modifies buckets
    ensures forall k :: 0 <= k < BUCKET_COUNT ==>
              buckets[k] == if !(first <= k <= last) then old(buckets[k])
                            else if !up then Down
                            else if old(buckets[k]) == Unknown then Up
                            else old(buckets[k])
  {
    var index := Max(first, 0);
    var stop := Min(last, BUCKET_COUNT - 1) + 1;
    while index < stop
      invariant Max(first, 0) <= index
      invariant index <= stop || index == Max(first, 0)
      invariant forall k :: 0 <= k < BUCKET_COUNT ==>
                  buckets[k] == if !(first <= k <= last && k < index) then old(buckets[k])
                                else if !up then Down
                                else if old(buckets[k]) == Unknown then Up
                                else old(buckets[k])
    {
      if !up {
        buckets[index] := Down;
      } else if buckets[index] == Unknown {
        buckets[index] := Up;
      }
      index := index + 1;
    }
  }

  /** Everything the window shows, as far as the ticks before `hi` tell. */
  ghost predicate ShownUpTo(buckets: seq<BucketState>, covered: int, upTime: int,
                            events: seq<Event>, floor: int, windowStart: int, hi: int) {
    && |buckets| == BUCKET_COUNT
    && (forall k :: 0 <= k < BUCKET_COUNT ==> buckets[k] == BucketUpTo(events, floor, windowStart, k, hi))
    && covered == Ticks(events, floor, false, windowStart, hi)
    && upTime == Ticks(events, floor, true, windowStart, hi)
  }

  /** A stretch of which nothing is known shows nothing. */
  lemma {:induction false} SilentStretch(buckets: seq<BucketState>, covered: int, upTime: int, events: seq<Event>,
                                         floor: int, windowStart: int, lo: int, hi: int)
    requires windowStart <= lo <= hi && Constant(events, floor, lo, hi, None)
    requires ShownUpTo(buckets, covered, upTime, events, floor, windowStart, lo)
    ensures ShownUpTo(buckets, covered, upTime, events, floor, windowStart, hi)
  {
    TicksOfStretch(events, floor, false, windowStart, lo, hi, None);
    TicksOfStretch(events, floor, true, windowStart, lo, hi, None);
    if lo < hi {
      forall k | 0 <= k < BUCKET_COUNT
        ensures BucketUpTo(events, floor, windowStart, k, hi) == BucketUpTo(events, floor, windowStart, k, lo)
      {
        BucketAfterStretch(events, floor, windowStart, k, lo, hi, None);
      }
    }
  }

  /** Painting one stretch keeps the window right up to its end. */
  lemma {:induction false} PaintedStretch(was: seq<BucketState>, now: seq<BucketState>, covered: int, upTime: int,
                                          events: seq<Event>, floor: int, windowStart: int, lo: int, hi: int,
                                          status: string)
    requires windowStart <= lo < hi && Constant(events, floor, lo, hi, Some(status))
    requires ShownUpTo(was, covered, upTime, events, floor, windowStart, lo)
    requires |now| == BUCKET_COUNT
    requires forall k :: 0 <= k < BUCKET_COUNT ==>
               now[k] == if !((lo - windowStart) / SECOND / BUCKET_SECONDS <= k <= (hi - 1 - windowStart) / SECOND / BUCKET_SECONDS) then was[k]
                         else if status != UP then Down
                         else if was[k] == Unknown then Up
                         else was[k]
    ensures ShownUpTo(now, covered + (hi - lo), if status == UP then upTime + (hi - lo) else upTime,
                      events, floor, windowStart, hi)
  {
    TicksOfStretch(events, floor, false, windowStart, lo, hi, Some(status));
    TicksOfStretch(events, floor, true, windowStart, lo, hi, Some(status));
    forall k | 0 <= k < BUCKET_COUNT
      ensures now[k] == BucketUpTo(events, floor, windowStart, k, hi)
    {
      BucketsMet(windowStart, lo, hi, k);
      BucketAfterStretch(events, floor, windowStart, k, lo, hi, Some(status));
    }
  }

  method PaintSegments(buckets: array<BucketState>, segments: seq<Segment>, ghost ordered: seq<Event>,
                       windowStart: int, ghost floor: int, ghost end: int)
    returns (covered: int, upTime: int)
    requires buckets.Length == BUCKET_COUNT && forall k :: 0 <= k < BUCKET_COUNT ==> buckets[k] == Unknown
    requires windowStart <= floor && Tiling(segments, ordered, floor, end, windowStart + WINDOW)
    modifies buckets
    ensures var windowEnd := windowStart + WINDOW;
            ShownUpTo(buckets[..], covered, upTime, ordered, floor, windowStart, Min(end, windowEnd))
  {
    var windowEnd := windowStart + WINDOW;
    covered, upTime := 0, 0;
    ghost var done := Min(floor, windowEnd);
    NothingYet(buckets[..], ordered, floor, windowStart, done);
    var j := 0;
    while j < |segments|
      invariant 0 <= j <= |segments|
      invariant done == Min(if j < |segments| then segments[j].start else end, windowEnd)
      invariant ShownUpTo(buckets[..], covered, upTime, ordered, floor, windowStart, done)
    {
      var segment := segments[j];
      ghost var next := Min(NextStart(segments, j, end), windowEnd);
      StartsAfter(segments, ordered, floor, end, windowEnd, j);
      if !(segment.end <= windowStart || segment.start >= windowEnd) {
        var clippedStart := Max(segment.start, windowStart);
        var clippedEnd := Min(segment.end, windowEnd);
        if clippedEnd > clippedStart {
          covered := covered + (clippedEnd - clippedStart);
          if segment.status == UP {
            upTime := upTime + (clippedEnd - clippedStart);
          }
          var first := (clippedStart - windowStart) / SECOND / BUCKET_SECONDS;
          var last := (clippedEnd - 1 - windowStart) / SECOND / BUCKET_SECONDS;
          ghost var was := buckets[..];
          Paint(buckets, first, last, segment.status == UP);
          PaintedStretch(was, buckets[..],
                         covered - (clippedEnd - clippedStart),
                         if segment.status == UP then upTime - (clippedEnd - clippedStart) else upTime,
                         ordered, floor, windowStart, clippedStart, clippedEnd, segment.status);
        }
      }
      done := next;
      j := j + 1;
    }
  }

  lemma {:induction false} NothingYet(buckets: seq<BucketState>, events: seq<Event>, floor: int, windowStart: int, hi: int)
    requires windowStart <= hi <= floor && |buckets| == BUCKET_COUNT
    requires forall k :: 0 <= k < BUCKET_COUNT ==> buckets[k] == Unknown
    ensures ShownUpTo(buckets, 0, 0, events, floor, windowStart, hi)
  {
    SilentStretch(buckets, 0, 0, events, floor, windowStart, windowStart, hi);
  }

  lemma {:induction false} StartsAfter(segments: seq<Segment>, events: seq<Event>, floor: int, end: int, windowEnd: int,
                                       j: nat)
    requires Tiling(segments, events, floor, end, windowEnd) && j < |segments|
    ensures floor <= segments[j].start
  {
    if j > 0 {
      StartsAfter(segments, events, floor, end, windowEnd, j - 1);
      assert segments[j - 1].start < NextStart(segments, j - 1, end);
    }
  }

  /** From the sorted log up to its end to the given log over the whole window. */
  lemma {:induction false} Conclude(buckets: seq<BucketState>, covered: int, upTime: int, events: seq<Event>,
                                    windowStart: int, knownSince: int, end: int)
    requires var floor := Floor(windowStart, knownSince);
             && floor <= end
             && (forall j :: 0 <= j < |SortByTime(events)| ==> SortByTime(events)[j].at <= end)
             && ShownUpTo(buckets, covered, upTime, SortByTime(events), floor, windowStart, Min(end, windowStart + WINDOW))
    ensures |buckets| == BUCKET_COUNT
    ensures forall k :: 0 <= k < BUCKET_COUNT ==> buckets[k] == Bucket(events, windowStart, knownSince, k)
    ensures covered == Covered(events, windowStart, knownSince)
    ensures upTime == UpTime(events, windowStart, knownSince)
  {
    var ordered, floor, windowEnd := SortByTime(events), Floor(windowStart, knownSince), windowStart + WINDOW;
    forall u | Min(end, windowEnd) <= u < windowEnd
      ensures StatusAt(ordered, floor, u) == None
    {
      GoverningIsEarliest(ordered, u);
    }
    SilentStretch(buckets, covered, upTime, ordered, floor, windowStart, Min(end, windowEnd), windowEnd);
    forall u ensures StatusAt(ordered, floor, u) == StatusAt(events, floor, u) {
      SortKeeps(events, u);
    }
    SameStatusSameWindow(ordered, events, windowStart, knownSince);
  }

  /** The window of a log: what each bucket shows and how long the target was known, and up, in the hour. */
  method BuildUptimeWindow(events: seq<Event>, windowStart: int, knownSince: int)
    returns (buckets: array<BucketState>, covered: int, upTime: int, rate: Option<real>)
    ensures buckets.Length == BUCKET_COUNT == 60
    ensures forall k :: 0 <= k < BUCKET_COUNT ==> buckets[k] == Bucket(events, windowStart, knownSince, k)
    ensures covered == Covered(events, windowStart, knownSince)
    ensures upTime == UpTime(events, windowStart, knownSince)
    ensures rate == if covered == 0 then None else Some(upTime as real / covered as real)
  {
    var ordered := SortByTime(events);
    var windowEnd := windowStart + WINDOW;
    var floor := Max(knownSince, windowStart);
    SortKeeps(events, 0);
    var segments := Segments(ordered, floor, windowEnd);
    ghost var end := Latest(ordered, floor);
    LatestBounds(ordered, floor);
    buckets := new BucketState[BUCKET_COUNT](_ => Unknown);
    covered, upTime := PaintSegments(buckets, segments, ordered, windowStart, floor, end);
    Conclude(buckets[..], covered, upTime, events, windowStart, knownSince, end);
    rate := if covered == 0 then None else Some(upTime as real / covered as real);
  }

  // ---------------------------------------------------------------- logs with the same meaning

  /** Two statuses that the window cannot tell apart: both known or both not, both up or both not. */
  predicate LooksLike(s: Option<string>, t: Option<string>) {
    s.Some? == t.Some? && (s == Some(UP) <==> t == Some(UP))
  }

  /** Two logs that the window cannot tell apart at any tick from `floor` on. */
  ghost predicate Agree(a: seq<Event>, b: seq<Event>, floor: int) {
    forall u :: LooksLike(StatusAt(a, floor, u), StatusAt(b, floor, u))
  }

  lemma {:induction false} AgreeTicks(a: seq<Event>, b: seq<Event>, floor: int, upOnly: bool, lo: int, hi: int)
    requires Agree(a, b, floor)
    ensures Ticks(a, floor, upOnly, lo, hi) == Ticks(b, floor, upOnly, lo, hi)
    decreases hi - lo
  {
    if lo < hi {
      AgreeTicks(a, b, floor, upOnly, lo, hi - 1);
      assert LooksLike(StatusAt(a, floor, hi - 1), StatusAt(b, floor, hi - 1));
    }
  }

  lemma {:induction false} AgreeBucket(a: seq<Event>, b: seq<Event>, floor: int, windowStart: int, k: int, hi: int)
    requires Agree(a, b, floor)
    ensures BucketUpTo(a, floor, windowStart, k, hi) == BucketUpTo(b, floor, windowStart, k, hi)
  {
    forall u ensures StatusAt(a, floor, u).Some? <==> StatusAt(b, floor, u).Some?
      ensures StatusAt(a, floor, u) == Some(UP) <==> StatusAt(b, floor, u) == Some(UP)
    {
      assert LooksLike(StatusAt(a, floor, u), StatusAt(b, floor, u));
    }
  }

  /** Both logs show the same buckets, covered time and up time. */
  ghost predicate SameWindow(a: seq<Event>, b: seq<Event>, windowStart: int, knownSince: int) {
    && (forall k :: 0 <= k < BUCKET_COUNT ==> Bucket(a, windowStart, knownSince, k) == Bucket(b, windowStart, knownSince, k))
    && Covered(a, windowStart, knownSince) == Covered(b, windowStart, knownSince)
    && UpTime(a, windowStart, knownSince) == UpTime(b, windowStart, knownSince)
  }

  /** The window depends on the log only through what each tick looks like. */
  lemma {:induction false} SameStatusSameWindow(a: seq<Event>, b: seq<Event>, windowStart: int, knownSince: int)
    requires Agree(a, b, Floor(windowStart, knownSince))
    ensures SameWindow(a, b, windowStart, knownSince)
  {
    var floor := Floor(windowStart, knownSince);
    AgreeTicks(a, b, floor, false, windowStart, windowStart + WINDOW);
    AgreeTicks(a, b, floor, true, windowStart, windowStart + WINDOW);
    forall k | 0 <= k < BUCKET_COUNT
      ensures Bucket(a, windowStart, knownSince, k) == Bucket(b, windowStart, knownSince, k)
    {
      AgreeBucket(a, b, floor, windowStart, k, windowStart + WINDOW);
    }
  }

  // ---------------------------------------------------------------- what the window promises

  lemma {:induction false} TicksBounds(events: seq<Event>, floor: int, lo: int, hi: int)
    requires lo <= hi
    ensures 0 <= Ticks(events, floor, true, lo, hi) <= Ticks(events, floor, false, lo, hi) <= hi - lo
    decreases hi - lo
  {
    if lo < hi {
      TicksBounds(events, floor, lo, hi - 1);
    }
  }

  lemma {:induction false} KnownExactly(events: seq<Event>, floor: int, u: int)
    ensures StatusAt(events, floor, u).Some? <==> floor <= u < Latest(events, floor)
  {
    LatestBounds(events, floor);
    GoverningIsEarliest(events, u);
  }

  /** Covered time telescopes to one clipped interval, from when the target is known to the last observation,
      and 0 <= up <= covered <= one hour. */
  lemma {:induction false} CoveredTelescopes(events: seq<Event>, windowStart: int, knownSince: int)
    ensures var floor := Floor(windowStart, knownSince);
            Covered(events, windowStart, knownSince) == Max(0, Min(Latest(events, floor), windowStart + WINDOW) - floor)
    ensures UpTime(events, windowStart, knownSince) <= Covered(events, windowStart, knownSince) <= WINDOW
  {
    var floor, windowEnd := Floor(windowStart, knownSince), windowStart + WINDOW;
    var a := Min(floor, windowEnd);
    var b := Max(a, Min(Latest(events, floor), windowEnd));
    forall u ensures StatusAt(events, floor, u).Some? <==> floor <= u < Latest(events, floor) {
      KnownExactly(events, floor, u);
    }
    LatestBounds(events, floor);
    TicksOfStretch(events, floor, false, windowStart, windowStart, a, None);
    KnownStretch(events, floor, windowStart, a, b);
    TicksOfStretch(events, floor, false, windowStart, b, windowEnd, None);
    TicksBounds(events, floor, windowStart, windowEnd);
  }

  lemma {:induction false} KnownStretch(events: seq<Event>, floor: int, lo: int, mid: int, hi: int)
    requires lo <= mid <= hi && forall u {:trigger StatusAt(events, floor, u)} | mid <= u < hi :: StatusAt(events, floor, u).Some?
    ensures Ticks(events, floor, false, lo, hi) == Ticks(events, floor, false, lo, mid) + (hi - mid)
    decreases hi - mid
  {
    if mid < hi {
      KnownStretch(events, floor, lo, mid, hi - 1);
      assert StatusAt(events, floor, hi - 1).Some?;
    }
  }

  /** Some tick of [lo, hi) has a known status other than up exactly when not all covered ticks are up. */
  lemma {:induction false} FailureCosts(events: seq<Event>, floor: int, lo: int, hi: int)
    requires lo <= hi
    ensures Ticks(events, floor, true, lo, hi) < Ticks(events, floor, false, lo, hi)
            <==> exists u :: lo <= u < hi && StatusAt(events, floor, u).Some? && StatusAt(events, floor, u) != Some(UP)
    decreases hi - lo
  {
    if lo < hi {
      FailureCosts(events, floor, lo, hi - 1);
      TicksBounds(events, floor, lo, hi - 1);
      var last := StatusAt(events, floor, hi - 1);
      if exists u :: lo <= u < hi && StatusAt(events, floor, u).Some? && StatusAt(events, floor, u) != Some(UP) {
        var u :| lo <= u < hi && StatusAt(events, floor, u).Some? && StatusAt(events, floor, u) != Some(UP);
        assert u == hi - 1 || lo <= u < hi - 1;
      }
    }
  }

  /** The bar and the rate tell the same story: the rate is below 100% exactly when some bucket is red. */
  lemma {:induction false} RateAgreesWithBar(events: seq<Event>, windowStart: int, knownSince: int)
    ensures UpTime(events, windowStart, knownSince) < Covered(events, windowStart, knownSince)
            <==> exists k :: 0 <= k < BUCKET_COUNT && Bucket(events, windowStart, knownSince, k) == Down
  {
    var floor, windowEnd := Floor(windowStart, knownSince), windowStart + WINDOW;
    FailureCosts(events, floor, windowStart, windowEnd);
    if UpTime(events, windowStart, knownSince) < Covered(events, windowStart, knownSince) {
      var u :| windowStart <= u < windowEnd && StatusAt(events, floor, u).Some? && StatusAt(events, floor, u) != Some(UP);
      var k := (u - windowStart) / BUCKET;
      assert InBucket(windowStart, k, u) && 0 <= k < BUCKET_COUNT;
      assert Bucket(events, windowStart, knownSince, k) == Down;
    }
    if k :| 0 <= k < BUCKET_COUNT && Bucket(events, windowStart, knownSince, k) == Down {
      var u :| InBucket(windowStart, k, u) && u < windowEnd && StatusAt(events, floor, u).Some? && StatusAt(events, floor, u) != Some(UP);
      assert windowStart <= u < windowEnd;
    }
  }

  // ---------------------------------------------------------------- the order of the rows

  /** Rows that share a time are all up or all not; distinct times are the common case. */
  predicate TiesAgree(events: seq<Event>) {
    forall i, j | 0 <= i < j < |events| && events[i].at == events[j].at :: events[i].status == UP <==> events[j].status == UP
  }

  lemma {:induction false} SameElementsLookAlike(a: seq<Event>, b: seq<Event>, floor: int, u: int)
    requires multiset(a) == multiset(b) && TiesAgree(a)
    ensures LooksLike(StatusAt(a, floor, u), StatusAt(b, floor, u))
  {
    GoverningIsEarliest(a, u);
    GoverningIsEarliest(b, u);
    forall e | e in b ensures e in a { assert e in multiset(b); }
    forall e | e in a ensures e in b { assert e in multiset(a); }
    var g, h := Governing(a, u), Governing(b, u);
    if g.Some? && h.Some? {
      var i :| 0 <= i < |a| && a[i] == g.value;
      var j :| 0 <= j < |a| && a[j] == h.value;
      assert a[i].at == a[j].at;
    }
  }

  /** Read in any order, rows whose ties agree show the same window. */
  lemma {:induction false} OrderDoesNotMatter(a: seq<Event>, b: seq<Event>, windowStart: int, knownSince: int)
    requires multiset(a) == multiset(b) && TiesAgree(a)
    ensures SameWindow(a, b, windowStart, knownSince)
  {
    var floor := Floor(windowStart, knownSince);
    forall u ensures LooksLike(StatusAt(a, floor, u), StatusAt(b, floor, u)) {
      SameElementsLookAlike(a, b, floor, u);
    }
    SameStatusSameWindow(a, b, windowStart, knownSince);
  }

  /** Just before `t` the first row with time `t` governs. */
  lemma {:induction false} FirstOfTimeGoverns(events: seq<Event>, f: nat, t: int)
    requires f < |events| && events[f].at == t && forall i :: 0 <= i < f ==> events[i].at != t
    ensures Governing(events, t - 1) == Some(events[f])
  {
    GoverningIsEarliest(events[1..], t - 1);
    if f > 0 {
      FirstOfTimeGoverns(events[1..], f - 1, t);
    }
  }

  /** A window that knows of one tick only, the last before `t`. */
  lemma {:induction false} LastTick(events: seq<Event>, f: nat, t: int)
    requires f < |events| && events[f].at == t && forall i :: 0 <= i < f ==> events[i].at != t
    ensures UpTime(events, t - WINDOW, t - 1) == if events[f].status == UP then 1 else 0
  {
    FirstOfTimeGoverns(events, f, t);
    assert StatusAt(events, t - 1, t - 1) == Some(events[f].status);
    TicksOfStretch(events, t - 1, true, t - WINDOW, t - WINDOW, t - 1, None);
  }

  lemma {:induction false} FirstOfTime(events: seq<Event>, i: nat) returns (f: nat)
    requires i < |events|
    ensures f <= i && events[f].at == events[i].at && forall k :: 0 <= k < f ==> events[k].at != events[i].at
    decreases i
  {
    if k :| 0 <= k < i && events[k].at == events[i].at {
      f := FirstOfTime(events, k);
    } else {
      f := i;
    }
  }

  function Swapped(a: seq<Event>, f: nat, g: nat): seq<Event>
    requires f < g < |a|
  {
    a[f := a[g]][g := a[f]]
  }

  lemma {:induction false} SwappedPermutes(a: seq<Event>, f: nat, g: nat)
    requires f < g < |a|
    ensures multiset(Swapped(a, f, g)) == multiset(a)
  {
  }

  /** The first row of a time swapped with a later row of that time that disagrees with it. */
  lemma {:induction false} SwapShows(a: seq<Event>, f: nat, g: nat, t: int)
    requires f < g < |a| && a[f].at == t && a[g].at == t && forall k :: 0 <= k < f ==> a[k].at != t
    requires !(a[f].status == UP <==> a[g].status == UP)
    ensures !SameWindow(a, Swapped(a, f, g), t - WINDOW, t - 1)
  {
    LastTick(a, f, t);
    LastTick(Swapped(a, f, g), f, t);
  }

  /** Two rows of one time, one up and one not: another order of the rows shows another window. */
  lemma {:induction false} TiesDependOnOrder(a: seq<Event>, i: nat, j: nat) returns (b: seq<Event>)
    requires i < j < |a| && a[i].at == a[j].at && !(a[i].status == UP <==> a[j].status == UP)
    ensures multiset(b) == multiset(a)
    ensures !SameWindow(a, b, a[i].at - WINDOW, a[i].at - 1)
  {
    var f := FirstOfTime(a, i);
    var g := if a[f].status == UP <==> a[i].status == UP then j else i;
    b := Swapped(a, f, g);
    SwappedPermutes(a, f, g);
    SwapShows(a, f, g, a[i].at);
  }

  /** Exactly when the order of the rows does not matter: every order of them shows the same window, for every hour and
      every start of monitoring, if and only if no two rows of one time disagree about being up. */
  lemma {:induction false} OrderFreeExactly(a: seq<Event>)
    ensures (forall b: seq<Event>, windowStart: int, knownSince: int | multiset(b) == multiset(a) ::
               SameWindow(a, b, windowStart, knownSince))
            <==> TiesAgree(a)
  {
    if TiesAgree(a) {
      forall b: seq<Event>, windowStart: int, knownSince: int | multiset(b) == multiset(a)
        ensures SameWindow(a, b, windowStart, knownSince)
      {
        OrderDoesNotMatter(a, b, windowStart, knownSince);
      }
    } else {
      var i, j :| 0 <= i < j < |a| && a[i].at == a[j].at && !(a[i].status == UP <==> a[j].status == UP);
      var b := TiesDependOnOrder(a, i, j);
      assert !SameWindow(a, b, a[i].at - WINDOW, a[i].at - 1);
    }
  }
}
