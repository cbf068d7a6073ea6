/**
 The rows the model is shown, and the rows the compaction estimator measures. One is read with a small LIMIT, the
 other is filtered out of a large load; both end in this loop's rows that are not written yet.
*/
module ModelWindow {
  import opened Basics
  import opened Transcript
  import opened Compaction

  /** The committed rows and the row window that go with one state of the session row. */
  function Committed(rows: seq<Message>, summarised: bool, boundary: Option<int>): seq<Message> {
    if summarised then LastN(After(rows, boundary), RECENT) else LastN(rows, FALLBACK)
  }

  function WindowSize(summarised: bool): nat { if summarised then RECENT else FALLBACK }

  /** What the model sees of the transcript: a suffix of all that was said since the summary. */
  function Shown(rows: seq<Message>, summarised: bool, boundary: Option<int>, pending: seq<Message>): seq<Message> {
    var all := (if summarised then After(rows, boundary) else rows) + pending;
    DropLeadingTools(LastN(all, WindowSize(summarised)))
  }

  // ---------------------------------------------------------------- truncating twice

  lemma {:induction false} LastOfConcat(a: seq<Message>, b: seq<Message>, w: nat)
    requires |b| >= w
    ensures LastN(a + b, w) == LastN(b, w)
  {
    assert (a + b)[|a + b| - w..] == b[|b| - w..];
  }

  lemma {:induction false} Associative(a: seq<Message>, b: seq<Message>, c: seq<Message>)
    ensures a + b + c == a + (b + c)
  {
  }

  /** Truncating the committed rows before the pending ones are appended loses nothing. */
  lemma {:induction false} TruncatesOnce(a: seq<Message>, p: seq<Message>, w: nat)
    ensures LastN(LastN(a, w) + p, w) == LastN(a + p, w)
  {
    if |a| > w {
      var head, b := a[..|a| - w], LastN(a, w);
      assert a == head + b;
      Associative(head, b, p);
      LastOfConcat(head, b + p, w);
    }
  }

  /** Tool rows in front make no difference once leading tool rows are dropped. */
  lemma {:induction false} ToolsInFront(tools: seq<Message>, x: seq<Message>, w: nat)
    requires forall i :: 0 <= i < |tools| ==> tools[i].role == Tool
    ensures DropLeadingTools(LastN(tools + x, w)) == DropLeadingTools(LastN(x, w))
  {
    var long := LastN(tools + x, w);
    if |x| >= w {
      assert long == LastN(x, w);
    } else {
      var kept := tools[|tools| + |x| - |long|..];
      assert long == kept + x;
      DropToolsInFront(kept, x);
    }
  }

  lemma {:induction false} AfterUpToFirst(a: seq<Message>, b: seq<Message>, boundary: Option<int>, i: nat)
    requires i <= |a|
    ensures AfterUpTo(a + b, i, boundary) == AfterUpTo(a, i, boundary)
  {
    if i > 0 {
      AfterUpToFirst(a, b, boundary, i - 1);
    }
  }

  lemma {:induction false} AfterUpToSecond(a: seq<Message>, b: seq<Message>, boundary: Option<int>, j: nat)
    requires j <= |b|
    ensures AfterUpTo(a + b, |a| + j, boundary) == After(a, boundary) + AfterUpTo(b, j, boundary)
  {
    if j == 0 {
      AfterUpToFirst(a, b, boundary, |a|);
    } else {
      AfterUpToSecond(a, b, boundary, j - 1);
      assert (a + b)[|a| + j - 1] == b[j - 1];
    }
  }

  lemma {:induction false} AfterConcat(a: seq<Message>, b: seq<Message>, boundary: Option<int>)
    ensures After(a + b, boundary) == After(a, boundary) + After(b, boundary)
  {
    AfterUpToSecond(a, b, boundary, |b|);
  }

  lemma {:induction false} AfterSome(rows: seq<Message>, i: nat, boundary: Option<int>) returns (k: nat)
    requires i <= |rows| && AfterUpTo(rows, i, boundary) != []
    ensures k < i && IsAfter(rows[k], boundary)
  {
    k := i - 1;
    if !IsAfter(rows[k], boundary) {
      k := AfterSome(rows, i - 1, boundary);
    }
  }

  lemma {:induction false} AfterKeepsTools(rows: seq<Message>, i: nat, boundary: Option<int>)
    requires i <= |rows| && forall k :: 0 <= k < |rows| ==> rows[k].role == Tool
    ensures forall k :: 0 <= k < |AfterUpTo(rows, i, boundary)| ==> AfterUpTo(rows, i, boundary)[k].role == Tool
  {
    if i > 0 {
      AfterKeepsTools(rows, i - 1, boundary);
    }
  }

  /** The load holds every row the window can show: whatever it leaves out is out of reach or a leading tool row. */
  lemma {:induction false} LoadReaches(rows: seq<Message>, boundary: Option<int>, pending: seq<Message>)
    requires Stored(rows)
    ensures LastN(After(rows, boundary) + pending, RECENT) == LastN(After(LastN(rows, LOAD), boundary) + pending, RECENT)
  {
    var tail := LastN(rows, LOAD);
    var head := rows[..|rows| - |tail|];
    assert rows == head + tail;
    AfterConcat(head, tail, boundary);
    if After(head, boundary) == [] {
      assert After(rows, boundary) == After(tail, boundary);
    } else {
      var i := AfterSome(head, |head|, boundary);
      forall j | 0 <= j < |tail| ensures IsAfter(tail[j], boundary) {
        assert tail[j] == rows[|head| + j] && head[i] == rows[i];
      }
      AfterIsSuffix(tail, boundary, 0);
      FarEnough(After(head, boundary), tail, pending);
    }
  }

  lemma {:induction false} FarEnough(head: seq<Message>, tail: seq<Message>, pending: seq<Message>)
    requires |tail| >= RECENT
    ensures LastN(head + tail + pending, RECENT) == LastN(tail + pending, RECENT)
  {
    Associative(head, tail, pending);
    LastOfConcat(head, tail + pending, RECENT);
  }

  lemma {:induction false} LoadSplits(tail: seq<Message>) returns (tools: seq<Message>)
    ensures tail == tools + DropLeadingTools(tail)
    ensures forall i :: 0 <= i < |tools| ==> tools[i].role == Tool
  {
    tools := tail[..RunEnd(tail, 0)];
  }

  /** The estimator's window: filtered and truncated out of one large load. */
  function Measured(load: seq<Message>, summarised: bool, boundary: Option<int>, pending: seq<Message>): seq<Message> {
    LastN((if summarised then After(load, boundary) else load) + pending, WindowSize(summarised))
  }

  lemma {:induction false} ToolsThenLoad(tools: seq<Message>, load: seq<Message>, tail: seq<Message>,
                                         pending: seq<Message>, w: nat)
    requires tail == tools + load && forall i :: 0 <= i < |tools| ==> tools[i].role == Tool
    ensures DropLeadingTools(LastN(tail + pending, w)) == DropLeadingTools(LastN(load + pending, w))
  {
    Associative(tools, load, pending);
    ToolsInFront(tools, load + pending, w);
  }

  lemma {:induction false} EstimateAfterSummary(rows: seq<Message>, boundary: Option<int>, pending: seq<Message>)
    requires Stored(rows)
    ensures DropLeadingTools(LastN(After(Load(rows), boundary) + pending, RECENT))
         == DropLeadingTools(LastN(After(rows, boundary) + pending, RECENT))
  {
    LoadReaches(rows, boundary, pending);
    var tail, load := LastN(rows, LOAD), Load(rows);
    var tools := LoadSplits(tail);
    AfterConcat(tools, load, boundary);
    AfterKeepsTools(tools, |tools|, boundary);
    ToolsThenLoad(After(tools, boundary), After(load, boundary), After(tail, boundary), pending, RECENT);
  }

  lemma {:induction false} EstimateWithoutSummary(rows: seq<Message>, pending: seq<Message>)
    ensures DropLeadingTools(LastN(Load(rows) + pending, FALLBACK)) == DropLeadingTools(LastN(rows + pending, FALLBACK))
  {
    TailReaches(rows, pending);
    var tail, load := LastN(rows, LOAD), Load(rows);
    var tools := LoadSplits(tail);
    ToolsThenLoad(tools, load, tail, pending, FALLBACK);
  }

  /** The estimator measures what the model is sent, up to leading orphan tool rows. */
  lemma {:induction false} EstimateMatchesHistory(rows: seq<Message>, summarised: bool, boundary: Option<int>,
                                                  pending: seq<Message>)
    requires Stored(rows)
    ensures DropLeadingTools(Measured(Load(rows), summarised, boundary, pending)) == Shown(rows, summarised, boundary, pending)
  {
    if summarised {
      EstimateAfterSummary(rows, boundary, pending);
    } else {
      EstimateWithoutSummary(rows, pending);
    }
  }

  lemma {:induction false} TailReaches(rows: seq<Message>, pending: seq<Message>)
    ensures LastN(rows + pending, FALLBACK) == LastN(LastN(rows, LOAD) + pending, FALLBACK)
  {
    var tail := LastN(rows, LOAD);
    var head := rows[..|rows| - |tail|];
    if |rows| > LOAD {
      assert rows + pending == head + (tail + pending);
    }
  }

  // ---------------------------------------------------------------- the window is a legal history

  /** The first row past the boundary; all rows after it are past it too. */
  lemma {:induction false} FirstAfter(rows: seq<Message>, boundary: Option<int>, i: nat) returns (k: nat)
    requires Stored(rows) && i <= |rows| && forall j :: 0 <= j < i ==> !IsAfter(rows[j], boundary)
    ensures k <= |rows|
    ensures forall j :: 0 <= j < |rows| ==> (IsAfter(rows[j], boundary) <==> k <= j)
    decreases |rows| - i
  {
    if i == |rows| || IsAfter(rows[i], boundary) {
      k := i;
    } else {
      k := FirstAfter(rows, boundary, i + 1);
    }
  }

  lemma {:induction false} AfterIsTail(rows: seq<Message>, boundary: Option<int>) returns (k: nat)
    requires Stored(rows)
    ensures k <= |rows| && After(rows, boundary) == rows[k..]
  {
    k := FirstAfter(rows, boundary, 0);
    AfterIsSuffix(rows, boundary, k);
  }

  /** Whatever the boundary and wherever the window starts, what the model is sent is a legal history. */
  lemma {:induction false} ShownIsLegal(rows: seq<Message>, summarised: bool, boundary: Option<int>, pending: seq<Message>)
    requires Stored(rows) && WellFormed(rows) && WellFormed(pending)
    ensures WellFormed(Shown(rows, summarised, boundary, pending))
  {
    var start := WindowIsTail(rows, summarised, boundary, pending);
    WellFormedConcat(rows, pending);
    SuffixIsLegal(rows + pending, start);
  }

  lemma {:induction false} WindowIsTail(rows: seq<Message>, summarised: bool, boundary: Option<int>, pending: seq<Message>)
    returns (start: nat)
    requires Stored(rows)
    ensures start <= |rows + pending|
    ensures Shown(rows, summarised, boundary, pending) == DropLeadingTools((rows + pending)[start..])
  {
    var k := AfterIsTail(rows, boundary);
    start := LastOfTail(rows, if summarised then k else 0, pending, WindowSize(summarised));
    assert rows[0..] == rows;
  }

  lemma {:induction false} LastOfTail(rows: seq<Message>, k: nat, pending: seq<Message>, w: nat) returns (start: nat)
    requires k <= |rows|
    ensures start <= |rows + pending| && LastN(rows[k..] + pending, w) == (rows + pending)[start..]
  {
    var kept := rows[k..] + pending;
    start := |rows + pending| - Min(w, |kept|);
    assert kept == (rows + pending)[k..];
  }

  /** In every state that racing compactors and writers can reach. */
  lemma {:induction false} ShownIsLegalInEveryRun(steps: seq<Step>, pending: seq<Message>)
    requires WellFormed(pending)
    ensures WellFormed(Shown(Run(steps).rows, Run(steps).summary.Some?, Run(steps).boundary, pending))
  {
    var s := Run(steps);
    var n := RunChain(steps);
    ShownIsLegal(s.rows, s.summary.Some?, s.boundary, pending);
  }

  /** When every save was complete, the transcript is exactly the summarised rows followed by the rows past the
      boundary: nothing falls in between. */
  lemma {:induction false} UpToAndAfter(rows: seq<Message>, boundary: Option<int>, n: nat)
    requires Stored(rows) && BoundaryAt(rows, boundary, n)
    ensures UpTo(rows, boundary) + After(rows, boundary) == rows
  {
    BoundarySplits(rows, boundary, n);
    UpToIsPrefix(rows, boundary, n);
    AfterIsSuffix(rows, boundary, n);
  }

  // ---------------------------------------------------------------- the code

  datatype Entry = Instructions(text: string) | SummaryNote(summary: string) | Row(message: Message)

  function Rows(messages: seq<Message>): seq<Entry> {
    seq(|messages|, i requires 0 <= i < |messages| => Row(messages[i]))
  }

  /** A prompt, entry by entry: the instructions if there are any, the summary if there is one, and then the rows. */
  ghost predicate PromptIs(history: seq<Entry>, systemPrompt: Option<string>, summary: Option<string>, shown: seq<Message>) {
    var notes := (if systemPrompt.Some? then 1 else 0) + (if summary.Some? then 1 else 0);
    && |history| == notes + |shown|
    && (systemPrompt.Some? ==> history[0] == Instructions(systemPrompt.value))
    && (summary.Some? ==> history[notes - 1] == SummaryNote(summary.value))
    && (forall i :: 0 <= i < |shown| ==> history[notes + i] == Row(shown[i]))
  }

  /** The rows of a prompt, in order. */
  function RowsOf(history: seq<Entry>, n: nat): seq<Message>
    requires n <= |history|
  {
    if n == 0 then [] else RowsOf(history, n - 1) + (if history[n - 1].Row? then [history[n - 1].message] else [])
  }

  /** What a prompt tells the model: exactly these instructions, first; exactly this summary, once; and exactly these rows. */
  ghost predicate PromptTells(history: seq<Entry>, systemPrompt: Option<string>, summary: Option<string>, shown: seq<Message>) {
    && (forall text :: Instructions(text) in history <==> systemPrompt == Some(text))
    && (forall i :: 0 <= i < |history| && history[i].Instructions? ==> i == 0)
    && (forall text :: SummaryNote(text) in history <==> summary == Some(text))
    && (forall i, j :: 0 <= i < |history| && 0 <= j < |history| && history[i].SummaryNote? && history[j].SummaryNote? ==> i == j)
    && (forall i, j :: 0 <= i < j < |history| && history[i].Row? ==> history[j].Row?)
    && RowsOf(history, |history|) == shown
  }

  lemma {:induction false} RowsOfPrompt(history: seq<Entry>, systemPrompt: Option<string>, summary: Option<string>,
                                        shown: seq<Message>, n: nat)
    requires PromptIs(history, systemPrompt, summary, shown) && n <= |history|
    ensures var notes := |history| - |shown|;
            RowsOf(history, n) == if n <= notes then [] else shown[..n - notes]
  {
    var notes := |history| - |shown|;
    if n > 0 {
      RowsOfPrompt(history, systemPrompt, summary, shown, n - 1);
      if n > notes {
        assert history[n - 1] == Row(shown[n - 1 - notes]);
        assert shown[..n - notes] == shown[..n - 1 - notes] + [shown[n - 1 - notes]];
      }
    }
  }

  lemma {:induction false} PromptIsTells(history: seq<Entry>, systemPrompt: Option<string>, summary: Option<string>,
                                         shown: seq<Message>)
    requires PromptIs(history, systemPrompt, summary, shown)
    ensures PromptTells(history, systemPrompt, summary, shown)
  {
    var notes := |history| - |shown|;
    forall i | notes <= i < |history| ensures history[i] == Row(shown[i - notes]) {
      assert history[notes + (i - notes)] == Row(shown[i - notes]);
    }
    RowsOfPrompt(history, systemPrompt, summary, shown, |history|);
    assert shown[..|shown|] == shown;
  }

  lemma {:induction false} DropIs(all: seq<Message>, w: nat) returns (k: nat)
    ensures var first := Max(0, |all| - w);
            && first <= k <= |all| && DropLeadingTools(LastN(all, w)) == all[k..]
            && (forall i :: first <= i < k ==> all[i].role == Tool)
            && (k < |all| ==> all[k].role != Tool)
  {
    var recent := LastN(all, w);
    var first := |all| - |recent|;
    RunEndIs(recent, 0);
    var end := RunEnd(recent, 0);
    k := first + end;
    forall i | first <= i < k ensures all[i].role == Tool {
      assert all[i] == recent[i - first];
    }
    assert k < |all| ==> all[k] == recent[end];
  }

  /** The window in numbers: of all that is past the boundary, or of everything when there is no summary, with what is not
      written yet, the last sixteen rows, or forty without a summary, less the tool rows in front. */
  lemma {:induction false} ShownExactly(rows: seq<Message>, summarised: bool, boundary: Option<int>, pending: seq<Message>)
    returns (k: nat)
    ensures var all := (if summarised then After(rows, boundary) else rows) + pending;
            var first := Max(0, |all| - if summarised then 16 else 40);
            && first <= k <= |all| && Shown(rows, summarised, boundary, pending) == all[k..]
            && (forall i :: first <= i < k ==> all[i].role == Tool)
            && (k < |all| ==> all[k].role != Tool)
  {
    k := DropIs((if summarised then After(rows, boundary) else rows) + pending, WindowSize(summarised));
  }

  lemma {:induction false} RunEndIs(rows: seq<Message>, i: nat)
    requires i <= |rows|
    ensures forall j :: i <= j < RunEnd(rows, i) ==> rows[j].role == Tool
    ensures RunEnd(rows, i) < |rows| ==> rows[RunEnd(rows, i)].role != Tool
    decreases |rows| - i
  {
    if i < |rows| && rows[i].role == Tool {
      RunEndIs(rows, i + 1);
    }
  }

  /** What the model is told: the instructions, for the root the summary, and the window of the transcript. */
  method BuildModelHistory(rows: seq<Message>, rootSummary: Option<string>, boundary: Option<int>, agentIsRoot: bool,
                           systemPrompt: Option<string>, pending: seq<Message>)
    returns (history: seq<Entry>)
    ensures forall text :: Instructions(text) in history <==> systemPrompt == Some(text)
    ensures forall text :: SummaryNote(text) in history <==> agentIsRoot && rootSummary == Some(text)
    ensures RowsOf(history, |history|) == Shown(rows, agentIsRoot && rootSummary.Some?, boundary, pending)
    ensures var summary := if agentIsRoot then rootSummary else None;
            var shown := Shown(rows, summary.Some?, boundary, pending);
            PromptIs(history, systemPrompt, summary, shown) && PromptTells(history, systemPrompt, summary, shown)
  {
    var summary := if agentIsRoot then rootSummary else None;
    var messages := WindowMessages(rows, summary.Some?, boundary, pending);
    history := Assembled(systemPrompt, summary, messages);
    PromptIsTells(history, systemPrompt, summary, messages);
  }

  /** Puts the entries of a prompt one after the other. */
  method Assembled(systemPrompt: Option<string>, summary: Option<string>, messages: seq<Message>) returns (history: seq<Entry>)
    ensures PromptIs(history, systemPrompt, summary, messages)
  {
    history := [];
    if systemPrompt.Some? {
      history := history + [Instructions(systemPrompt.value)];
    }
    if summary.Some? {
      history := history + [SummaryNote(summary.value)];
    }
    history := history + Rows(messages);
  }

  method WindowMessages(rows: seq<Message>, summarised: bool, boundary: Option<int>, pending: seq<Message>)
    returns (messages: seq<Message>)
    ensures messages == Shown(rows, summarised, boundary, pending)
  {
    var committed := ReadCommitted(rows, summarised, boundary);
    messages := SkipLeadingTools(LastN(committed + pending, WindowSize(summarised)));
    CommittedIsEnough(rows, summarised, boundary, pending);
  }

  /** The committed rows one short session reads. */
  method ReadCommitted(rows: seq<Message>, summarised: bool, boundary: Option<int>) returns (committed: seq<Message>)
    ensures committed == Committed(rows, summarised, boundary)
  {
    if summarised {
      var uncompacted := FilterAfter(rows, boundary);
      committed := LastN(uncompacted, RECENT);
    } else {
      committed := LastN(rows, FALLBACK);
    }
  }

  /** The few committed rows that are read give the window of the whole transcript. */
  lemma {:induction false} CommittedIsEnough(rows: seq<Message>, summarised: bool, boundary: Option<int>,
                                             pending: seq<Message>)
    ensures DropLeadingTools(LastN(Committed(rows, summarised, boundary) + pending, WindowSize(summarised)))
         == Shown(rows, summarised, boundary, pending)
  {
    if summarised {
      TruncatesOnce(After(rows, boundary), pending, RECENT);
    } else {
      TruncatesOnce(rows, pending, FALLBACK);
    }
  }

  method EstimateWindow(summarised: bool, boundary: Option<int>, committed: seq<Message>, pending: seq<Message>)
    returns (recent: seq<Message>)
    ensures recent == Measured(committed, summarised, boundary, pending)
  {
    if summarised {
      var uncompacted := FilterAfter(committed, boundary);
      recent := LastN(uncompacted + pending, RECENT);
    } else {
      recent := LastN(committed + pending, FALLBACK);
    }
  }
}
