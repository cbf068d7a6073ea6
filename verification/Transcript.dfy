/**
 Conversation transcripts as plain data: which histories are legal, how a list of rows splits into complete
 units, and where it may be cut.
*/
module Transcript {
  import opened Basics

  datatype Role = User | Assistant | Tool

  datatype Call = Call(id: string, name: string, arguments: string)

  /** One transcript row; `id` is missing while the row has not been written yet. */
  datatype Message = Message(role: Role, content: string, calls: seq<Call>, answers: Option<string>, id: Option<int>)

  predicate Calling(m: Message) { m.role == Assistant && m.calls != [] }

  predicate Answers(m: Message, call: Call) { m.role == Tool && m.answers == Some(call.id) }

  /** How many rows the unit that starts with `m` takes. */
  function UnitSize(m: Message): (n: nat)
    ensures n >= 1
  {
    1 + if Calling(m) then |m.calls| else 0
  }

  /** A complete unit starts at `i`: a row that is no tool row, then one result per call, in order. */
  predicate UnitAt(rows: seq<Message>, i: nat) {
    && i < |rows| && rows[i].role != Tool
    && i + UnitSize(rows[i]) <= |rows|
    && (forall k :: i < k < i + UnitSize(rows[i]) ==> Answers(rows[k], rows[i].calls[k - i - 1]))
  }

  predicate LegalFrom(rows: seq<Message>, i: nat)
    requires i <= |rows|
    decreases |rows| - i
  {
    i == |rows| || (UnitAt(rows, i) && LegalFrom(rows, i + UnitSize(rows[i])))
  }

  /** A legal history: no tool row on its own, and every assistant row with calls is followed by exactly one tool
      row per call, in order. */
  predicate WellFormed(rows: seq<Message>) { LegalFrom(rows, 0) }

  lemma {:induction false} InsideUnit(rows: seq<Message>, i: nat, k: nat)
    requires UnitAt(rows, i) && i < k < i + UnitSize(rows[i])
    ensures rows[k].role == Tool
  {
    assert Answers(rows[k], rows[i].calls[k - i - 1]);
  }

  /** In a legal history every call of an assistant row is answered by its own tool row, in order and right after it. */
  lemma {:induction false} CallsAreAnswered(rows: seq<Message>, i: nat, k: nat, j: nat)
    requires i <= k < |rows| && LegalFrom(rows, i) && rows[k].role == Assistant && j < |rows[k].calls|
    ensures k + 1 + j < |rows| && rows[k + 1 + j].role == Tool && rows[k + 1 + j].answers == Some(rows[k].calls[j].id)
    decreases |rows| - i
  {
    var next := i + UnitSize(rows[i]);
    if i < k < next {
      InsideUnit(rows, i, k);
    } else if k == i {
      assert Answers(rows[k + 1 + j], rows[i].calls[k + 1 + j - i - 1]);
    } else {
      CallsAreAnswered(rows, next, k, j);
    }
  }

  /** And a tool row stands nowhere else. */
  lemma {:induction false} ToolsAnswerCalls(rows: seq<Message>, i: nat, k: nat) returns (h: nat)
    requires i <= k < |rows| && LegalFrom(rows, i) && rows[k].role == Tool
    ensures i <= h < k && rows[h].role == Assistant && k - h - 1 < |rows[h].calls|
    ensures rows[k].answers == Some(rows[h].calls[k - h - 1].id)
    decreases |rows| - i
  {
    var next := i + UnitSize(rows[i]);
    if k < next {
      h := i;
      assert Answers(rows[k], rows[i].calls[k - i - 1]);
    } else {
      h := ToolsAnswerCalls(rows, next, k);
    }
  }

  /** Being legal from some row on depends on the rows from there on only. */
  lemma {:induction false} Shift(a: seq<Message>, i: nat, b: seq<Message>, j: nat)
    requires i <= |a| && j <= |b| && |a| - i == |b| - j
    requires forall k :: j <= k < |b| ==> b[k] == a[k - j + i]
    requires LegalFrom(a, i)
    ensures LegalFrom(b, j)
    decreases |a| - i
  {
    if i < |a| {
      var n := UnitSize(a[i]);
      assert b[j] == a[i];
      forall k | j < k < j + n ensures Answers(b[k], b[j].calls[k - j - 1]) {
        assert Answers(a[k - j + i], a[i].calls[k - j - 1]);
      }
      Shift(a, i + n, b, j + n);
    }
  }

  lemma {:induction false} PartIsLegal(rows: seq<Message>, i: nat, part: seq<Message>)
    requires i <= |rows| && part == rows[i..] && LegalFrom(rows, i)
    ensures WellFormed(part)
  {
    Shift(rows, i, part, 0);
  }

  lemma {:induction false} LegalConcat(a: seq<Message>, i: nat, b: seq<Message>)
    requires i <= |a| && LegalFrom(a, i) && WellFormed(b)
    ensures LegalFrom(a + b, i)
    decreases |a| - i
  {
    if i == |a| {
      Shift(b, 0, a + b, |a|);
    } else {
      var n := UnitSize(a[i]);
      LegalConcat(a, i + n, b);
      assert forall k :: i <= k < i + n ==> (a + b)[k] == a[k];
    }
  }

  lemma {:induction false} WellFormedConcat(a: seq<Message>, b: seq<Message>)
    requires WellFormed(a) && WellFormed(b)
    ensures WellFormed(a + b)
  {
    LegalConcat(a, 0, b);
  }

  /** The end of the run of tool rows that starts at `i`. */
  function RunEnd(rows: seq<Message>, i: nat): (end: nat)
    requires i <= |rows|
    ensures i <= end <= |rows|
    ensures forall k :: i <= k < end ==> rows[k].role == Tool
    ensures end < |rows| ==> rows[end].role != Tool
    decreases |rows| - i
  {
    if i < |rows| && rows[i].role == Tool then RunEnd(rows, i + 1) else i
  }

  function DropLeadingTools(rows: seq<Message>): seq<Message> { rows[RunEnd(rows, 0)..] }

  /** Steps past the leading tool rows by index and returns the rest as one slice. */
  method SkipLeadingTools(rows: seq<Message>) returns (r: seq<Message>)
    ensures r == DropLeadingTools(rows)
  {
    var start := 0;
    while start < |rows| && rows[start].role == Tool
      invariant 0 <= start <= |rows|
      invariant RunEnd(rows, start) == RunEnd(rows, 0)
    {
      start := start + 1;
    }
    r := rows[start..];
  }

  lemma {:induction false} RunEndIs(rows: seq<Message>, end: nat)
    requires end <= |rows| && (forall k :: 0 <= k < end ==> rows[k].role == Tool)
    requires end < |rows| ==> rows[end].role != Tool
    ensures RunEnd(rows, 0) == end
  {
  }

  /** Tool rows in front of `x` make no difference. */
  lemma {:induction false} DropToolsInFront(tools: seq<Message>, x: seq<Message>)
    requires forall i :: 0 <= i < |tools| ==> tools[i].role == Tool
    ensures DropLeadingTools(tools + x) == DropLeadingTools(x)
  {
    var end := RunEnd(x, 0);
    RunEndIs(tools + x, |tools| + end);
    assert (tools + x)[|tools| + end..] == x[end..];
  }

  /** The first place from `k` on where a unit starts; only tool rows lie in between. */
  lemma {:induction false} NextUnit(rows: seq<Message>, i: nat, k: nat) returns (q: nat)
    requires i <= k <= |rows| && LegalFrom(rows, i)
    ensures k <= q <= |rows| && LegalFrom(rows, q)
    ensures forall j :: k <= j < q ==> rows[j].role == Tool
    decreases |rows| - i
  {
    if i == k {
      q := k;
    } else {
      var n := UnitSize(rows[i]);
      if i + n <= k {
        q := NextUnit(rows, i + n, k);
      } else {
        q := i + n;
        forall j | k <= j < q ensures rows[j].role == Tool {
          assert Answers(rows[j], rows[i].calls[j - i - 1]);
        }
      }
    }
  }

  /** Any suffix of a legal history is legal again once its leading tool rows are dropped. */
  lemma {:induction false} SuffixIsLegal(rows: seq<Message>, k: nat)
    requires WellFormed(rows) && k <= |rows|
    ensures WellFormed(DropLeadingTools(rows[k..]))
  {
    var q := NextUnit(rows, 0, k);
    var part := rows[k..];
    RunEndIs(part, q - k);
    PartIsLegal(rows, q, part[q - k..]);
  }

  // ---------------------------------------------------------------- complete units

  function CallIds(m: Message): set<string> { set c | c in m.calls :: c.id }

  /** Every call of the row at `i` has a result in the run of tool rows right after it. */
  predicate Answered(rows: seq<Message>, i: nat)
    requires i < |rows|
  {
    forall id :: id in CallIds(rows[i]) ==>
                   exists k :: i < k < RunEnd(rows, i + 1) && rows[k].answers == Some(id)
  }

  /** A place where the history may be cut: every call before it is answered before it, and the run of results
      of the last call is over. */
  predicate Closed(rows: seq<Message>, p: nat)
    requires p <= |rows|
  {
    forall i :: 0 <= i < p && Calling(rows[i]) ==> Answered(rows, i) && RunEnd(rows, i + 1) <= p
  }

  /** The units found so far tile `0 .. index`, and their ends are exactly the closed places up to `index`. */
  ghost predicate UnitsUpTo(rows: seq<Message>, units: seq<(nat, nat)>, index: nat)
    requires index <= |rows|
  {
    && (units == [] ==> index == 0)
    && (units != [] ==> units[0].0 == 0 && units[|units| - 1].1 == index)
    && (forall j :: 0 <= j < |units| ==> units[j].0 < units[j].1 <= index)
    && (forall j, k | 0 <= j < k < |units| :: units[j].1 <= units[k].0)
    && (forall j, k | 0 <= j < |units| && k == j + 1 && k < |units| :: units[j].1 == units[k].0)
    && (forall p :: 0 < p <= index ==> (Closed(rows, p) <==> IsUnitEnd(units, p)))
  }

  ghost predicate IsUnitEnd(units: seq<(nat, nat)>, p: nat) {
    exists j :: 0 <= j < |units| && units[j].1 == p
  }

  lemma {:induction false} UnitAdded(rows: seq<Message>, units: seq<(nat, nat)>, index: nat, end: nat)
    requires index < end <= |rows| && UnitsUpTo(rows, units, index) && Closed(rows, index)
    requires Closed(rows, end) && forall p :: index < p < end ==> !Closed(rows, p)
    ensures UnitsUpTo(rows, units + [(index, end)], end)
  {
    var more := units + [(index, end)];
    assert more[|units|] == (index, end);
    forall p | 0 < p <= end
      ensures Closed(rows, p) <==> IsUnitEnd(more, p)
    {
      if p <= index && IsUnitEnd(units, p) {
        var j :| 0 <= j < |units| && units[j].1 == p;
        assert more[j].1 == p;
      }
      if IsUnitEnd(more, p) {
        var j :| 0 <= j < |more| && more[j].1 == p;
        assert j < |units| ==> units[j].1 == p;
      }
    }
  }

  /** Reads the run of tool rows after the calling row at `index`: is every call answered in it? */
  method ScanResults(rows: seq<Message>, index: nat) returns (complete: bool, end: nat)
    requires index < |rows|
    ensures end == RunEnd(rows, index + 1)
    ensures complete <==> Answered(rows, index)
  {
    var expected := set c | c in rows[index].calls :: c.id;
    var found: set<string> := {};
    end := index + 1;
    while end < |rows| && rows[end].role == Tool
      invariant index < end <= |rows|
      invariant RunEnd(rows, index + 1) == RunEnd(rows, end)
      invariant forall id :: id in found <==> id in expected && exists k :: index < k < end && rows[k].answers == Some(id)
    {
      if rows[end].answers.Some? && rows[end].answers.value in expected {
        found := found + {rows[end].answers.value};
      }
      end := end + 1;
    }
    complete := found == expected;
  }

  lemma {:induction false} RunIsNotClosed(rows: seq<Message>, index: nat, end: nat)
    requires index < |rows| && Calling(rows[index]) && end == RunEnd(rows, index + 1)
    requires Closed(rows, index) && Answered(rows, index)
    ensures Closed(rows, end) && forall p :: index < p < end ==> !Closed(rows, p)
  {
  }

  lemma {:induction false} PlainRowCloses(rows: seq<Message>, index: nat)
    requires index < |rows| && !Calling(rows[index]) && Closed(rows, index)
    ensures Closed(rows, index + 1)
  {
  }

  lemma {:induction false} IncompleteStops(rows: seq<Message>, index: nat)
    requires index < |rows| && Calling(rows[index]) && !Answered(rows, index)
    ensures forall p :: index < p <= |rows| ==> !Closed(rows, p)
  {
  }

  /** Reads one unit; `complete` says whether all its results are there. */
  method ReadUnit(rows: seq<Message>, index: nat) returns (complete: bool, end: nat)
    requires index < |rows| && Closed(rows, index)
    ensures complete ==> index < end <= |rows| && Closed(rows, end) && forall p :: index < p < end ==> !Closed(rows, p)
    ensures !complete ==> forall p :: index < p <= |rows| ==> !Closed(rows, p)
  {
    var row := rows[index];
    if row.role != Assistant || row.calls == [] {
      PlainRowCloses(rows, index);
      return true, index + 1;
    }
    complete, end := ScanResults(rows, index);
    if complete {
      RunIsNotClosed(rows, index, end);
    } else {
      IncompleteStops(rows, index);
    }
  }

  /** Where the parse ended. */
  function Parsed(units: seq<(nat, nat)>): nat { if units == [] then 0 else units[|units| - 1].1 }

  /** Splits rows into complete units; an incomplete one ends the parse. */
  method MessageUnits(rows: seq<Message>) returns (units: seq<(nat, nat)>)
    ensures Parsed(units) <= |rows| && UnitsUpTo(rows, units, Parsed(units))
    ensures forall p :: Parsed(units) < p <= |rows| ==> !Closed(rows, p)
  {
    units := [];
    var index := 0;
    while index < |rows|
      invariant 0 <= index <= |rows|
      invariant Closed(rows, index) && UnitsUpTo(rows, units, index)
    {
      var complete, end := ReadUnit(rows, index);
      if !complete {
        return;
      }
      UnitAdded(rows, units, index, end);
      units := units + [(index, end)];
      index := end;
    }
  }

  /** The cut keeps at least `recent` rows, lies at a closed place, and no later place would do. */
  ghost predicate BestCut(rows: seq<Message>, recent: nat, cut: nat) {
    && cut <= |rows| && Closed(rows, cut)
    && (cut > 0 ==> cut + recent <= |rows|)
    && (forall p :: cut < p <= |rows| && p + recent <= |rows| ==> !Closed(rows, p))
  }

  lemma {:induction false} BestCutUnique(rows: seq<Message>, recent: nat, a: nat, b: nat)
    requires BestCut(rows, recent, a) && BestCut(rows, recent, b)
    ensures a == b
  {
  }

  method SafeCompactionCut(rows: seq<Message>, recent: nat) returns (cut: nat)
    ensures BestCut(rows, recent, cut)
  {
    if |rows| <= recent {
      return 0;
    }
    var target := |rows| - recent;
    var units := MessageUnits(rows);
    cut := 0;
    var j := 0;
    while j < |units|
      invariant 0 <= j <= |units|
      invariant cut == if j == 0 then 0 else units[j - 1].1
      invariant cut <= target
    {
      if units[j].1 <= target {
        cut := units[j].1;
      } else {
        break;
      }
      j := j + 1;
    }
    if j > 0 {
      assert IsUnitEnd(units, cut);
    }
    forall p | cut < p <= target
      ensures !IsUnitEnd(units, p)
    {
      forall k | 0 <= k < |units|
        ensures units[k].1 != p
      {
        if k < j {
          assert k < j - 1 ==> units[k].1 <= units[j - 1].0;
        } else {
          assert j < k ==> units[j].1 <= units[k].0;
        }
      }
    }
  }

  /** The call `id` has a result between its row `i` and `end`. */
  ghost predicate HasResult(rows: seq<Message>, i: nat, end: nat, id: string)
    requires end <= |rows|
  {
    exists k :: i < k < end && rows[k].role == Tool && rows[k].answers == Some(id)
  }

  lemma {:induction false} AnsweredHasResult(rows: seq<Message>, i: nat, id: string)
    requires i < |rows| && Answered(rows, i) && id in CallIds(rows[i])
    ensures HasResult(rows, i, RunEnd(rows, i + 1), id)
  {
    var k :| i < k < RunEnd(rows, i + 1) && rows[k].answers == Some(id);
    assert rows[k].role == Tool;
  }

  /** What a cut guarantees: every call before it has its result before it. */
  lemma {:induction false} CutAnswersItsCalls(rows: seq<Message>, recent: nat, cut: nat, i: nat, id: string)
    requires BestCut(rows, recent, cut)
    requires i < cut && Calling(rows[i]) && id in CallIds(rows[i])
    ensures HasResult(rows, i, cut, id)
  {
    AnsweredHasResult(rows, i, id);
    var k :| i < k < RunEnd(rows, i + 1) && rows[k].role == Tool && rows[k].answers == Some(id);
    assert k < cut;
  }

  // ---------------------------------------------------------------- cutting legal histories

  lemma {:induction false} RunAtLeast(rows: seq<Message>, i: nat, n: nat)
    requires i <= n <= |rows| && forall k :: i <= k < n ==> rows[k].role == Tool
    ensures RunEnd(rows, i) >= n
    decreases n - i
  {
    if i < n {
      RunAtLeast(rows, i + 1, n);
    }
  }

  /** A unit that starts before a closed place ends no later than it. */
  lemma {:induction false} UnitInside(rows: seq<Message>, q: nat, p: nat)
    requires q < p <= |rows| && UnitAt(rows, q) && Closed(rows, p)
    ensures q + UnitSize(rows[q]) <= p
  {
    var n := UnitSize(rows[q]);
    if Calling(rows[q]) {
      forall k | q + 1 <= k < q + n ensures rows[k].role == Tool {
        assert Answers(rows[k], rows[q].calls[k - q - 1]);
      }
      RunAtLeast(rows, q + 1, q + n);
    }
  }

  lemma {:induction false} ClosedSplitsFrom(rows: seq<Message>, q: nat, p: nat)
    requires q <= p <= |rows| && LegalFrom(rows, q) && Closed(rows, p)
    ensures LegalFrom(rows[..p], q) && LegalFrom(rows, p)
    decreases p - q
  {
    if q < p {
      UnitInside(rows, q, p);
      ClosedSplitsFrom(rows, q + UnitSize(rows[q]), p);
      assert rows[..p][q] == rows[q];
      assert forall k :: q < k < q + UnitSize(rows[q]) ==> rows[..p][k] == rows[k];
    }
  }

  /** A closed place of a legal history splits it into two legal histories. */
  lemma {:induction false} ClosedSplits(rows: seq<Message>, p: nat)
    requires WellFormed(rows) && p <= |rows| && Closed(rows, p)
    ensures WellFormed(rows[..p]) && WellFormed(rows[p..])
  {
    ClosedSplitsFrom(rows, 0, p);
    PartIsLegal(rows, p, rows[p..]);
  }
}
