/**
 Compaction of the root conversation: which committed rows go into the next summary, how racing compactors save
 it, and which rows the model is shown.

 The chain of saves is modelled as a run: rows are appended, compactors read a snapshot, call the summariser
 with no database connection, and save with a compare-and-swap on the boundary alone.
*/
module Compaction {
  import opened Basics
  import opened Transcript

  const RECENT: nat := 16
  const FALLBACK: nat := 40
  const LOAD: nat := 216

  /** Rows as they come from the database: written, in order of id. */
  predicate Stored(rows: seq<Message>) {
    && (forall i :: 0 <= i < |rows| ==> rows[i].id.Some?)
    && (forall i, j | 0 <= i < j < |rows| :: rows[i].id.value < rows[j].id.value)
  }

  predicate IsAfter(m: Message, boundary: Option<int>) {
    boundary.None? || (m.id.Some? && m.id.value > boundary.value)
  }

  /** Those of the first `i` rows that are past the boundary. */
  function AfterUpTo(rows: seq<Message>, i: nat, boundary: Option<int>): seq<Message>
    requires i <= |rows|
  {
    if i == 0 then []
    else AfterUpTo(rows, i - 1, boundary) + (if IsAfter(rows[i - 1], boundary) then [rows[i - 1]] else [])
  }

  /** The rows past the boundary. */
  function After(rows: seq<Message>, boundary: Option<int>): seq<Message> { AfterUpTo(rows, |rows|, boundary) }

  /** The largest closed place up to `p`. */
  function ClosedUpTo(rows: seq<Message>, p: nat): (cut: nat)
    requires p <= |rows|
    ensures cut <= p && Closed(rows, cut)
    ensures forall q :: cut < q <= p ==> !Closed(rows, q)
  {
    if Closed(rows, p) then p else assert Closed(rows, 0); ClosedUpTo(rows, p - 1)
  }

  function Cut(rows: seq<Message>, recent: nat): (cut: nat)
    ensures BestCut(rows, recent, cut)
  {
    ClosedUpTo(rows, if |rows| <= recent then 0 else |rows| - recent)
  }

  function RecentCommitted(pendingCount: nat): nat { Max(0, RECENT - pendingCount) }

  /** The rows a compactor feeds to the summariser. */
  function Chosen(load: seq<Message>, boundary: Option<int>, pendingCount: nat): seq<Message> {
    After(load[..Cut(load, RecentCommitted(pendingCount))], boundary)
  }

  /** The candidate rows one compactor loads. */
  function Load(rows: seq<Message>): seq<Message> { DropLeadingTools(LastN(rows, LOAD)) }

  method FilterAfter(rows: seq<Message>, boundary: Option<int>) returns (r: seq<Message>)
    ensures r == After(rows, boundary)
  {
    r := [];
    for i := 0 to |rows|
      invariant r == AfterUpTo(rows, i, boundary)
    {
      if IsAfter(rows[i], boundary) {
        r := r + [rows[i]];
      }
    }
  }

  /** The rows before the best cut and past the boundary; the cut leaves out the sixteen most recent rows, those not written
      yet among them. */
  method MessagesToSummarize(committed: seq<Message>, boundary: Option<int>, pendingCount: nat) returns (r: seq<Message>)
    ensures r == Chosen(committed, boundary, pendingCount)
    ensures exists cut: nat :: BestCut(committed, Max(0, 16 - pendingCount), cut) && r == After(committed[..cut], boundary)
  {
    var recent := Max(0, RECENT - pendingCount);
    var cut := SafeCompactionCut(committed, recent);
    BestCutUnique(committed, recent, cut, Cut(committed, recent));
    if cut == 0 {
      return [];
    }
    r := FilterAfter(committed[..cut], boundary);
  }

  // ---------------------------------------------------------------- runs of racing compactors

  /** What one compactor holds between its read and its save. */
  datatype Snapshot = Snapshot(summary: Option<string>, boundary: Option<int>, chosen: seq<Message>, at: nat, complete: bool)

  /** `saves` counts the saves so far, `fed` lists the row ids each of them summarised, and `complete` records
      whether every one of them had loaded all the rows that were then past the boundary. */
  datatype State = State(
    rows: seq<Message>,
    summary: Option<string>,
    boundary: Option<int>,
    readers: map<nat, Snapshot>,
    saves: nat,
    fed: seq<seq<int>>,
    complete: bool)

  datatype Step =
    | Append(batch: seq<Message>)
    | Read(compactor: nat, pendingCount: nat)
    | Save(compactor: nat, text: string)
    | Abandon(compactor: nat)

  const EMPTY: State := State([], None, None, map[], 0, [], true)

  function Ids(rows: seq<Message>): (r: seq<int>)
    requires forall i :: 0 <= i < |rows| ==> rows[i].id.Some?
    ensures |r| == |rows|
  {
    seq(|rows|, i requires 0 <= i < |rows| => rows[i].id.value)
  }

  /** Every row past the boundary is among the loaded ones. */
  predicate AllLoaded(rows: seq<Message>, boundary: Option<int>) {
    forall i :: 0 <= i < |rows| - |Load(rows)| ==> !IsAfter(rows[i], boundary)
  }

  function Next(s: State, a: Step): State {
    match a
    case Append(batch) =>
      if WellFormed(batch) && Stored(s.rows + batch) then s.(rows := s.rows + batch) else s
    case Read(c, pendingCount) =>
      var chosen := Chosen(Load(s.rows), s.boundary, pendingCount);
      if chosen == [] then s
      else s.(readers := s.readers[c := Snapshot(s.summary, s.boundary, chosen, s.saves, AllLoaded(s.rows, s.boundary))])
    case Save(c, text) =>
      if c !in s.readers then s
      else
        var mine := s.readers[c];
        var rest := s.(readers := s.readers - {c});
        if s.boundary != mine.boundary || mine.chosen == []
           || (exists i :: 0 <= i < |mine.chosen| && mine.chosen[i].id.None?)
        then rest
        else rest.(summary := Some(text), boundary := mine.chosen[|mine.chosen| - 1].id,
                   saves := s.saves + 1, fed := s.fed + [Ids(mine.chosen)], complete := s.complete && mine.complete)
    case Abandon(c) => s.(readers := s.readers - {c})
  }

  function Run(steps: seq<Step>): State {
    if steps == [] then EMPTY else Next(Run(steps[..|steps| - 1]), steps[|steps| - 1])
  }

  function Flatten(fed: seq<seq<int>>): seq<int> {
    if fed == [] then [] else Flatten(fed[..|fed| - 1]) + fed[|fed| - 1]
  }

  // ---------------------------------------------------------------- where the boundary lies

  /** The boundary is the id of row `n - 1`, and what follows it is a legal history. */
  ghost predicate BoundaryAt(rows: seq<Message>, boundary: Option<int>, n: nat) {
    && n <= |rows| && WellFormed(rows[n..])
    && boundary == (if n == 0 then None else rows[n - 1].id)
  }

  lemma {:induction false} LastOfPart(rows: seq<Message>, n: nat, i: nat)
    requires n < i <= |rows|
    ensures rows[n..i] == rows[n..i - 1] + [rows[i - 1]]
  {
  }

  lemma {:induction false} AfterUpToIsSuffix(rows: seq<Message>, boundary: Option<int>, n: nat, i: nat)
    requires n <= |rows| && i <= |rows|
    requires forall k :: 0 <= k < n ==> !IsAfter(rows[k], boundary)
    requires forall k :: n <= k < |rows| ==> IsAfter(rows[k], boundary)
    ensures AfterUpTo(rows, i, boundary) == if i <= n then [] else rows[n..i]
  {
    if i > 0 {
      AfterUpToIsSuffix(rows, boundary, n, i - 1);
      if i > n {
        LastOfPart(rows, n, i);
      }
    }
  }

  lemma {:induction false} AfterIsSuffix(rows: seq<Message>, boundary: Option<int>, n: nat)
    requires n <= |rows|
    requires forall i :: 0 <= i < n ==> !IsAfter(rows[i], boundary)
    requires forall i :: n <= i < |rows| ==> IsAfter(rows[i], boundary)
    ensures After(rows, boundary) == rows[n..]
  {
    AfterUpToIsSuffix(rows, boundary, n, |rows|);
  }

  lemma {:induction false} BoundarySplits(rows: seq<Message>, boundary: Option<int>, n: nat)
    requires Stored(rows) && BoundaryAt(rows, boundary, n)
    ensures forall i :: 0 <= i < |rows| ==> (IsAfter(rows[i], boundary) <==> n <= i)
  {
  }

  /** Rows of a part [from, to) that lie past the boundary. */
  lemma {:induction false} AfterPart(rows: seq<Message>, boundary: Option<int>, n: nat, from: nat, to: nat)
    requires Stored(rows) && BoundaryAt(rows, boundary, n) && from <= to <= |rows|
    ensures After(rows[from..to], boundary) == if to <= n then [] else rows[Max(from, n)..to]
  {
    BoundarySplits(rows, boundary, n);
    var part := rows[from..to];
    var k := if to <= n then to - from else Max(from, n) - from;
    forall i | 0 <= i < |part| ensures IsAfter(part[i], boundary) <==> k <= i {
      assert part[i] == rows[from + i];
    }
    AfterIsSuffix(part, boundary, k);
  }

  /** What a compactor chooses is the stretch of rows from the boundary, or from where its load starts, up to a
      place where the history may be cut. */
  lemma {:induction false} ChosenIsStretch(rows: seq<Message>, boundary: Option<int>, n: nat, pendingCount: nat)
    returns (from: nat, to: nat)
    requires Stored(rows) && WellFormed(rows) && BoundaryAt(rows, boundary, n)
    requires Chosen(Load(rows), boundary, pendingCount) != []
    ensures n <= from < to <= |rows| && WellFormed(rows[to..])
    ensures Chosen(Load(rows), boundary, pendingCount) == rows[from..to]
    ensures AllLoaded(rows, boundary) <==> from == n
    ensures to + Max(0, 16 - pendingCount) <= |rows|
    ensures |rows| - 216 <= from
  {
    var load, recent := Load(rows), RecentCommitted(pendingCount);
    var cut := Cut(load, recent);
    LoadIsTail(rows);
    from, to := StretchOfCut(rows, boundary, n, cut);
    assert BestCut(load, recent, cut) && |load[..cut]| == cut;
  }

  lemma {:induction false} StretchOfCut(rows: seq<Message>, boundary: Option<int>, n: nat, cut: nat)
    returns (from: nat, to: nat)
    requires Stored(rows) && WellFormed(rows) && BoundaryAt(rows, boundary, n)
    requires cut <= |Load(rows)| && Closed(Load(rows), cut)
    requires After(Load(rows)[..cut], boundary) != []
    ensures n <= from < to <= |rows| && WellFormed(rows[to..])
    ensures After(Load(rows)[..cut], boundary) == rows[from..to]
    ensures AllLoaded(rows, boundary) <==> from == n
    ensures to == |rows| - |Load(rows)| + cut && |rows| - |Load(rows)| <= from
  {
    var load := Load(rows);
    var start := |rows| - |load|;
    LoadIsTail(rows);
    from, to := StretchOfLoad(rows, boundary, n, load, start, cut);
    LoadIsLegal(rows);
    CutTail(rows, start, cut, load, to);
    LoadedFrom(rows, boundary, n, start);
  }

  lemma {:induction false} StretchOfLoad(rows: seq<Message>, boundary: Option<int>, n: nat, load: seq<Message>,
                                         start: nat, cut: nat)
    returns (from: nat, to: nat)
    requires Stored(rows) && BoundaryAt(rows, boundary, n)
    requires start <= |rows| && load == rows[start..] && cut <= |load|
    requires After(load[..cut], boundary) != []
    ensures from == Max(start, n) && to == start + cut && n <= from < to <= |rows|
    ensures After(load[..cut], boundary) == rows[from..to]
  {
    from, to := Max(start, n), start + cut;
    ChosenPart(rows, boundary, n, start, cut, load);
  }

  lemma {:induction false} ChosenPart(rows: seq<Message>, boundary: Option<int>, n: nat, start: nat, cut: nat,
                                      load: seq<Message>)
    requires Stored(rows) && BoundaryAt(rows, boundary, n)
    requires start <= |rows| && load == rows[start..] && cut <= |load|
    ensures After(load[..cut], boundary) == if start + cut <= n then [] else rows[Max(start, n)..start + cut]
  {
    assert load[..cut] == rows[start..start + cut];
    AfterPart(rows, boundary, n, start, start + cut);
  }

  lemma {:induction false} LoadIsTail(rows: seq<Message>)
    ensures |Load(rows)| <= |rows| && Load(rows) == rows[|rows| - |Load(rows)|..]
  {
  }

  lemma {:induction false} CutTail(rows: seq<Message>, start: nat, cut: nat, load: seq<Message>, to: nat)
    requires WellFormed(load) && start <= |rows| && load == rows[start..]
    requires cut <= |load| && Closed(load, cut) && to == start + cut
    ensures WellFormed(rows[to..])
  {
    ClosedSplits(load, cut);
    assert load[cut..] == rows[to..];
  }

  lemma {:induction false} LoadedFrom(rows: seq<Message>, boundary: Option<int>, n: nat, start: nat)
    requires Stored(rows) && BoundaryAt(rows, boundary, n) && start == |rows| - |Load(rows)| && |Load(rows)| <= |rows|
    ensures AllLoaded(rows, boundary) <==> Max(start, n) == n
  {
    BoundarySplits(rows, boundary, n);
    if start > n {
      assert IsAfter(rows[n], boundary);
    }
  }

  lemma {:induction false} LoadIsLegal(rows: seq<Message>)
    requires WellFormed(rows)
    ensures WellFormed(Load(rows))
  {
    var k := |rows| - |LastN(rows, LOAD)|;
    assert rows[k..] == LastN(rows, LOAD);
    SuffixIsLegal(rows, k);
  }

  /** As many uncompacted rows as one load can hold are always all loaded. */
  lemma {:induction false} FewRowsAreAllLoaded(rows: seq<Message>, boundary: Option<int>, n: nat)
    requires Stored(rows) && WellFormed(rows) && BoundaryAt(rows, boundary, n)
    requires |rows| - n <= LOAD
    ensures AllLoaded(rows, boundary)
  {
    BoundarySplits(rows, boundary, n);
    var tail := LastN(rows, LOAD);
    var k := |rows| - |tail|;
    if n < |rows| {
      assert rows[n] == rows[n..][0] && rows[n] == tail[n - k];
    }
    assert |rows| - |Load(rows)| <= n;
  }

  // ---------------------------------------------------------------- the chain

  /** A snapshot taken when the boundary was at row `m` chose the rows from `from` to `to`. */
  ghost predicate Placed(rows: seq<Message>, mine: Snapshot, m: int, from: int, to: int) {
    && 0 <= m <= from < to <= |rows|
    && mine.boundary == (if m == 0 then None else rows[m - 1].id)
    && mine.chosen == rows[from..to] && WellFormed(rows[to..])
    && (mine.complete <==> from == m)
  }

  ghost predicate SnapshotInv(s: State, mine: Snapshot, n: nat) {
    && mine.at <= s.saves
    && (mine.at == s.saves ==> mine.summary == s.summary)
    && exists m, from, to :: Placed(s.rows, mine, m, from, to) && m <= n && (m == n <==> mine.at == s.saves)
  }

  ghost predicate ReadersInv(s: State, n: nat) {
    forall c :: c in s.readers ==> SnapshotInv(s, s.readers[c], n)
  }

  ghost predicate RowsInv(s: State, n: nat) {
    Stored(s.rows) && WellFormed(s.rows) && BoundaryAt(s.rows, s.boundary, n)
  }

  /** What has been summarised of the first `n` rows: each at most once, in order, and all of them exactly when
      every save was complete. */
  ghost predicate FedInv(rows: seq<Message>, n: nat, fed: seq<int>, complete: bool)
    requires Stored(rows) && n <= |rows|
  {
    && (forall i, j | 0 <= i < j < |fed| :: fed[i] < fed[j])
    && (forall id :: id in fed ==> id in Ids(rows[..n]))
    && (complete ==> fed == Ids(rows[..n]))
    && (!complete ==> exists i :: 0 <= i < n && Ids(rows[..n])[i] !in fed)
  }

  ghost predicate ChainInv(s: State, n: nat) {
    RowsInv(s, n) && ReadersInv(s, n) && FedInv(s.rows, n, Flatten(s.fed), s.complete)
  }

  lemma {:induction false} SnapshotAppend(s: State, s': State, mine: Snapshot, n: nat, batch: seq<Message>)
    requires SnapshotInv(s, mine, n) && WellFormed(batch)
    requires s'.rows == s.rows + batch && s'.saves == s.saves && s'.summary == s.summary
    ensures SnapshotInv(s', mine, n)
  {
    var m, from, to :| Placed(s.rows, mine, m, from, to) && m <= n && (m == n <==> mine.at == s.saves);
    assert s'.rows[to..] == s.rows[to..] + batch;
    WellFormedConcat(s.rows[to..], batch);
    assert s'.rows[from..to] == s.rows[from..to];
    assert Placed(s'.rows, mine, m, from, to);
  }

  lemma {:induction false} AppendedParts(rows: seq<Message>, batch: seq<Message>, n: nat)
    requires n <= |rows|
    ensures (rows + batch)[..n] == rows[..n] && (rows + batch)[n..] == rows[n..] + batch
  {
  }

  lemma {:induction false} RowsAppended(rows: seq<Message>, boundary: Option<int>, batch: seq<Message>, n: nat)
    requires Stored(rows) && WellFormed(rows) && BoundaryAt(rows, boundary, n)
    requires WellFormed(batch) && Stored(rows + batch)
    ensures WellFormed(rows + batch) && BoundaryAt(rows + batch, boundary, n)
    ensures n <= |rows| && (rows + batch)[..n] == rows[..n]
  {
    WellFormedConcat(rows, batch);
    WellFormedConcat(rows[n..], batch);
    AppendedParts(rows, batch, n);
  }

  lemma {:induction false} AppendKeeps(s: State, a: Step, n: nat)
    requires ChainInv(s, n) && a.Append?
    ensures ChainInv(Next(s, a), n)
  {
    var s' := Next(s, a);
    if WellFormed(a.batch) && Stored(s.rows + a.batch) {
      RowsAppended(s.rows, s.boundary, a.batch, n);
      forall c | c in s'.readers ensures SnapshotInv(s', s'.readers[c], n) {
        SnapshotAppend(s, s', s.readers[c], n, a.batch);
      }
    }
  }

  lemma {:induction false} ReadKeeps(s: State, a: Step, n: nat)
    requires ChainInv(s, n) && a.Read?
    ensures ChainInv(Next(s, a), n)
  {
    var s' := Next(s, a);
    if Chosen(Load(s.rows), s.boundary, a.pendingCount) != [] {
      var from, to := ChosenIsStretch(s.rows, s.boundary, n, a.pendingCount);
      var mine := s'.readers[a.compactor];
      assert Placed(s'.rows, mine, n, from, to);
      SnapshotInvNew(s', mine, n, from, to);
      ReaderAdded(s, s', a.compactor, mine, n);
    }
  }

  lemma {:induction false} SnapshotInvNew(s: State, mine: Snapshot, n: nat, from: nat, to: nat)
    requires Placed(s.rows, mine, n, from, to) && mine.at == s.saves && mine.summary == s.summary
    ensures SnapshotInv(s, mine, n)
  {
  }

  lemma {:induction false} ReaderAdded(s: State, s': State, c: nat, mine: Snapshot, n: nat)
    requires ReadersInv(s, n) && s' == s.(readers := s.readers[c := mine]) && SnapshotInv(s', mine, n)
    ensures ReadersInv(s', n)
  {
    forall d | d in s'.readers && d != c ensures SnapshotInv(s', s'.readers[d], n) {
      SnapshotInvFrame(s, s', s.readers[d], n);
    }
  }

  lemma {:induction false} SnapshotInvFrame(s: State, s': State, mine: Snapshot, n: nat)
    requires SnapshotInv(s, mine, n)
    requires s'.rows == s.rows && s'.saves == s.saves && s'.summary == s.summary
    ensures SnapshotInv(s', mine, n)
  {
  }

  /** After a save every older snapshot is out of date for good. */
  lemma {:induction false} SnapshotOutdated(s: State, s': State, mine: Snapshot, n: nat, n': nat)
    requires SnapshotInv(s, mine, n) && n < n'
    requires s'.rows == s.rows && s'.saves == s.saves + 1
    ensures SnapshotInv(s', mine, n')
  {
    var m, from, to :| Placed(s.rows, mine, m, from, to) && m <= n && (m == n <==> mine.at == s.saves);
    assert Placed(s'.rows, mine, m, from, to);
  }

  /** Equal boundaries mean equal positions: a row id never comes back. */
  lemma {:induction false} SamePosition(rows: seq<Message>, boundary: Option<int>, m: nat, n: nat)
    requires Stored(rows) && m <= n <= |rows|
    requires boundary == (if m == 0 then None else rows[m - 1].id)
    requires boundary == (if n == 0 then None else rows[n - 1].id)
    ensures m == n
  {
  }

  lemma {:induction false} IdsOfPart(rows: seq<Message>, from: nat, to: nat)
    requires Stored(rows) && from <= to <= |rows|
    ensures Ids(rows[..to]) == Ids(rows[..from]) + Ids(rows[from..to])
    ensures forall id :: id in Ids(rows[from..to]) ==> id in Ids(rows[..to])
    ensures forall id, i :: id in Ids(rows[from..to]) && 0 <= i < from ==> Ids(rows[..to])[i] < id
  {
    var all, part := Ids(rows[..to]), Ids(rows[from..to]);
    forall id | id in part ensures id in all && forall i :: 0 <= i < from ==> all[i] < id {
      var k :| 0 <= k < |part| && part[k] == id;
      assert all[from + k] == id;
    }
  }

  /** One more stretch of rows is summarised; `from > n` means that rows in between were skipped. */
  lemma {:induction false} FedMore(rows: seq<Message>, n: nat, from: nat, to: nat, fed: seq<int>, complete: bool)
    requires Stored(rows) && n <= from < to <= |rows| && FedInv(rows, n, fed, complete)
    ensures FedInv(rows, to, fed + Ids(rows[from..to]), complete && from == n)
  {
    var all, part := Ids(rows[..to]), Ids(rows[from..to]);
    IdsOfPart(rows, n, to);
    IdsOfPart(rows, from, to);
    assert forall i :: 0 <= i < n ==> Ids(rows[..n])[i] == all[i];
    forall id | id in fed ensures id in all && exists i :: 0 <= i < n && all[i] == id {
      var i :| 0 <= i < n && Ids(rows[..n])[i] == id;
      assert all[i] == id;
    }
    forall i, j | 0 <= i < j < |fed + part| ensures (fed + part)[i] < (fed + part)[j] {
      if i < |fed| <= j {
        assert fed[i] in fed && part[j - |fed|] in part;
      }
    }
    if !complete {
      var i :| 0 <= i < n && Ids(rows[..n])[i] !in fed;
      assert all[i] !in part && all[i] !in fed + part;
    } else if from > n {
      assert all[n] !in part;
      forall id | id in fed ensures id != all[n] {}
      assert all[n] !in fed + part;
    }
  }

  lemma {:induction false} BoundaryMoved(rows: seq<Message>, mine: Snapshot, n: nat, from: nat, to: nat)
    requires Stored(rows) && Placed(rows, mine, n, from, to)
    ensures mine.chosen != [] && mine.chosen[|mine.chosen| - 1].id == rows[to - 1].id
    ensures BoundaryAt(rows, mine.chosen[|mine.chosen| - 1].id, to)
    ensures forall i :: 0 <= i < |mine.chosen| ==> mine.chosen[i].id.Some?
  {
  }

  lemma {:induction false} ReadersOutdated(s: State, s': State, n: nat, to: nat)
    requires ReadersInv(s, n) && n < to && s'.rows == s.rows && s'.saves == s.saves + 1
    requires forall c :: c in s'.readers ==> c in s.readers && s'.readers[c] == s.readers[c]
    ensures ReadersInv(s', to)
  {
    forall c | c in s'.readers ensures SnapshotInv(s', s'.readers[c], to) {
      SnapshotOutdated(s, s', s.readers[c], n, to);
    }
  }

  lemma {:induction false} ReadersKept(s: State, s': State, n: nat)
    requires ReadersInv(s, n) && s' == s.(readers := s'.readers)
    requires forall c :: c in s'.readers ==> c in s.readers && s'.readers[c] == s.readers[c]
    ensures ReadersInv(s', n)
  {
    forall c | c in s'.readers ensures SnapshotInv(s', s'.readers[c], n) {
      SnapshotInvFrame(s, s', s.readers[c], n);
    }
  }

  /** Where a snapshot was taken. */
  lemma {:induction false} SnapshotPlaced(s: State, mine: Snapshot, n: nat) returns (m: nat, from: nat, to: nat)
    requires SnapshotInv(s, mine, n)
    ensures Placed(s.rows, mine, m, from, to) && m <= n && (m == n <==> mine.at == s.saves)
  {
    m, from, to :| Placed(s.rows, mine, m, from, to) && m <= n && (m == n <==> mine.at == s.saves);
  }

  /** A snapshot with the present boundary was taken at the present position. */
  lemma {:induction false} CurrentSnapshot(s: State, mine: Snapshot, n: nat) returns (from: nat, to: nat)
    requires SnapshotInv(s, mine, n) && n <= |s.rows| && Stored(s.rows)
    requires s.boundary == (if n == 0 then None else s.rows[n - 1].id) && mine.boundary == s.boundary
    ensures Placed(s.rows, mine, n, from, to) && mine.at == s.saves && mine.summary == s.summary
  {
    var m;
    m, from, to := SnapshotPlaced(s, mine, n);
    SamePosition(s.rows, s.boundary, m, n);
  }

  lemma {:induction false} SavedState(s: State, a: Step, n: nat, from: nat, to: nat)
    requires a.Save? && a.compactor in s.readers && Stored(s.rows)
    requires s.boundary == s.readers[a.compactor].boundary && Placed(s.rows, s.readers[a.compactor], n, from, to)
    ensures var mine, s' := s.readers[a.compactor], Next(s, a);
            && s'.rows == s.rows && s'.saves == s.saves + 1 && s'.readers == s.readers - {a.compactor}
            && s'.boundary == s.rows[to - 1].id && s'.complete == (s.complete && from == n)
            && Flatten(s'.fed) == Flatten(s.fed) + Ids(s.rows[from..to])
  {
    var mine, s' := s.readers[a.compactor], Next(s, a);
    BoundaryMoved(s.rows, mine, n, from, to);
    assert s'.fed == s.fed + [Ids(mine.chosen)] && s'.fed[..|s.fed|] == s.fed;
  }

  lemma {:induction false} SaveSucceeds(s: State, a: Step, n: nat, from: nat, to: nat)
    requires ChainInv(s, n) && a.Save? && a.compactor in s.readers
    requires s.boundary == s.readers[a.compactor].boundary && Placed(s.rows, s.readers[a.compactor], n, from, to)
    ensures ChainInv(Next(s, a), to) && Next(s, a).saves == s.saves + 1
  {
    BoundaryMoved(s.rows, s.readers[a.compactor], n, from, to);
    FedMore(s.rows, n, from, to, Flatten(s.fed), s.complete);
    SavedState(s, a, n, from, to);
    ReadersOutdated(s, Next(s, a), n, to);
  }

  /** What a save step does: either nothing but dropping the snapshot, or one link of the chain. */
  lemma {:induction false} SaveKeeps(s: State, a: Step, n: nat) returns (n': nat)
    requires ChainInv(s, n) && a.Save?
    ensures ChainInv(Next(s, a), n')
    ensures Next(s, a).saves == s.saves ==>
              n' == n && Next(s, a).boundary == s.boundary && Next(s, a).summary == s.summary && Next(s, a).fed == s.fed
    ensures Next(s, a).saves != s.saves ==> n < n' && a.compactor in s.readers
                                            && s.readers[a.compactor].summary == s.summary
                                            && s.readers[a.compactor].boundary == s.boundary
                                            && s.readers[a.compactor].at == s.saves
  {
    n' := n;
    var s' := Next(s, a);
    if a.compactor in s.readers {
      assert SnapshotInv(s, s.readers[a.compactor], n);
      if s.boundary == s.readers[a.compactor].boundary {
        var from, to := CurrentSnapshot(s, s.readers[a.compactor], n);
        n' := to;
        SaveSucceeds(s, a, n, from, to);
      } else {
        ReadersKept(s, s', n);
      }
    }
  }

  lemma {:induction false} RunChain(steps: seq<Step>) returns (n: nat)
    ensures ChainInv(Run(steps), n)
  {
    if steps == [] {
      n := 0;
    } else {
      var before, a := steps[..|steps| - 1], steps[|steps| - 1];
      n := RunChain(before);
      match a
      case Append(_) => AppendKeeps(Run(before), a, n);
      case Read(_, _) => ReadKeeps(Run(before), a, n);
      case Save(_, _) => n := SaveKeeps(Run(before), a, n);
      case Abandon(_) => ReadersKept(Run(before), Next(Run(before), a), n);
    }
  }

  predicate BoundaryLess(a: Option<int>, b: Option<int>) {
    b.Some? && (a.None? || a.value < b.value)
  }

  /** Every save that takes effect strictly raises the boundary, and it can only take effect when no other save
      happened since its read: the comparison of boundaries alone has no ABA and vouches for the summary too. */
  lemma {:induction false} SavesRaiseTheBoundary(steps: seq<Step>, a: Step)
    requires a.Save?
    ensures var s, s' := Run(steps), Next(Run(steps), a);
            if s'.saves == s.saves then s'.boundary == s.boundary && s'.summary == s.summary && s'.fed == s.fed
            else
              && a.compactor in s.readers
              && BoundaryLess(s.boundary, s'.boundary)
              && s.readers[a.compactor].at == s.saves
              && s.readers[a.compactor].summary == s.summary
              && s.readers[a.compactor].boundary == s.boundary
  {
    var s := Run(steps);
    var n := RunChain(steps);
    var n' := SaveKeeps(s, a, n);
  }

  /** Those of the first `i` rows that are not past the boundary. */
  function NotAfterUpTo(rows: seq<Message>, i: nat, boundary: Option<int>): seq<Message>
    requires i <= |rows|
  {
    if i == 0 then []
    else NotAfterUpTo(rows, i - 1, boundary) + (if IsAfter(rows[i - 1], boundary) then [] else [rows[i - 1]])
  }

  /** The rows a chain of summaries stands for. */
  function UpTo(rows: seq<Message>, boundary: Option<int>): seq<Message> { NotAfterUpTo(rows, |rows|, boundary) }

  lemma {:induction false} NotAfterIsPrefix(rows: seq<Message>, boundary: Option<int>, n: nat, i: nat)
    requires n <= |rows| && i <= |rows|
    requires forall k :: 0 <= k < |rows| ==> (IsAfter(rows[k], boundary) <==> n <= k)
    ensures NotAfterUpTo(rows, i, boundary) == rows[..Min(i, n)]
  {
    if i > 0 {
      NotAfterIsPrefix(rows, boundary, n, i - 1);
      if i <= n {
        assert rows[..i] == rows[..i - 1] + [rows[i - 1]];
      }
    }
  }

  lemma {:induction false} UpToIsPrefix(rows: seq<Message>, boundary: Option<int>, n: nat)
    requires n <= |rows|
    requires forall i :: 0 <= i < |rows| ==> (IsAfter(rows[i], boundary) <==> n <= i)
    ensures UpTo(rows, boundary) == rows[..n]
  {
    NotAfterIsPrefix(rows, boundary, n, |rows|);
  }

  /** However compactors race: no row is summarised twice, nothing past the boundary has been summarised, and
      every row up to the boundary was summarised exactly when each save had loaded all rows past the boundary
      it read. */
  lemma {:induction false} ChainIsLossless(steps: seq<Step>)
    ensures var s := Run(steps);
            && Stored(s.rows) && (forall i :: 0 <= i < |UpTo(s.rows, s.boundary)| ==> UpTo(s.rows, s.boundary)[i].id.Some?)
            && (forall i, j | 0 <= i < j < |Flatten(s.fed)| :: Flatten(s.fed)[i] < Flatten(s.fed)[j])
            && (forall id :: id in Flatten(s.fed) ==> id in Ids(UpTo(s.rows, s.boundary)))
            && (s.complete <==> Flatten(s.fed) == Ids(UpTo(s.rows, s.boundary)))
  {
    var s := Run(steps);
    var n := RunChain(steps);
    BoundarySplits(s.rows, s.boundary, n);
    UpToIsPrefix(s.rows, s.boundary, n);
    if !s.complete {
      var i :| 0 <= i < n && Ids(s.rows[..n])[i] !in Flatten(s.fed);
      assert Ids(s.rows[..n])[i] in Ids(s.rows[..n]);
    }
  }

  /** A read that finds at most one load of uncompacted rows takes a complete snapshot. */
  lemma {:induction false} FewRowsAreComplete(steps: seq<Step>, c: nat, pendingCount: nat)
    requires var s := Run(steps); |s.rows| - |UpTo(s.rows, s.boundary)| <= 216
    ensures var s, s' := Run(steps), Next(Run(steps), Read(c, pendingCount));
            s' == s || (c in s'.readers && s'.readers[c].complete)
  {
    var s := Run(steps);
    var n := RunChain(steps);
    BoundarySplits(s.rows, s.boundary, n);
    UpToIsPrefix(s.rows, s.boundary, n);
    FewRowsAreAllLoaded(s.rows, s.boundary, n);
  }

  /** Whenever a compactor reads, at most one load of rows is uncompacted. */
  predicate SmallReads(steps: seq<Step>) {
    steps != [] ==>
      && SmallReads(steps[..|steps| - 1])
      && (steps[|steps| - 1].Read? ==> FewUncompacted(Run(steps[..|steps| - 1])))
  }

  predicate FewUncompacted(s: State) { |s.rows| - |UpTo(s.rows, s.boundary)| <= 216 }

  /** Nothing was left out so far, and no compactor is about to. */
  ghost predicate AllComplete(s: State) {
    s.complete && forall c :: c in s.readers ==> s.readers[c].complete
  }

  lemma {:induction false} SmallReadsStayComplete(steps: seq<Step>)
    requires SmallReads(steps)
    ensures AllComplete(Run(steps))
  {
    if steps != [] {
      var before, a := steps[..|steps| - 1], steps[|steps| - 1];
      SmallReadsStayComplete(before);
      if a.Read? {
        FewRowsAreComplete(before, a.compactor, a.pendingCount);
      }
      CompleteStep(Run(before), a);
    }
  }

  lemma {:induction false} CompleteStep(s: State, a: Step)
    requires AllComplete(s)
    requires a.Read? ==> Next(s, a) == s || (a.compactor in Next(s, a).readers && Next(s, a).readers[a.compactor].complete)
    ensures AllComplete(Next(s, a))
  {
  }

  /** As long as compactors read before more than one load of rows has piled up, every row up to the boundary has been
      summarised, exactly once and in order. */
  lemma {:induction false} SmallReadsLoseNothing(steps: seq<Step>)
    requires SmallReads(steps)
    ensures var s := Run(steps);
            && Stored(s.rows) && (forall i :: 0 <= i < |UpTo(s.rows, s.boundary)| ==> UpTo(s.rows, s.boundary)[i].id.Some?)
            && Flatten(s.fed) == Ids(UpTo(s.rows, s.boundary))
  {
    SmallReadsStayComplete(steps);
    ChainIsLossless(steps);
  }
}
