/**
 One call of the compactor on the root conversation: read, choose, ask the summariser with no database connection
 held, charge the budget, save. Whatever others do in between is arbitrary.
*/
module Compactor {
  import opened Basics
  import opened Transcript
  import opened Compaction
  import opened ModelWindow
  import opened BudgetTracking

  /** What the summariser answers; `text` is already stripped. */
  datatype Summary = Summary(error: bool, text: Option<string>, cost: real)

  datatype Outcome = NotNeeded | Unusable | Saved | Outdated | OverBudget | Raised

  /** `me` has no part in these steps. */
  predicate Foreign(steps: seq<Step>, me: nat) {
    forall i :: 0 <= i < |steps| ==> !Mine(steps[i], me)
  }

  lemma {:induction false} RunSnoc(steps: seq<Step>, a: Step)
    ensures Run(steps + [a]) == Next(Run(steps), a)
  {
    assert (steps + [a])[..|steps|] == steps;
  }

  predicate Mine(a: Step, me: nat) { (a.Read? || a.Save? || a.Abandon?) && a.compactor == me }

  lemma {:induction false} OneForeign(s: State, a: Step, me: nat)
    requires !Mine(a, me)
    ensures me in Next(s, a).readers <==> me in s.readers
    ensures me in s.readers ==> Next(s, a).readers[me] == s.readers[me]
  {
  }

  /** What others do leaves my snapshot alone. */
  lemma {:induction false} ForeignKeepsMine(steps: seq<Step>, more: seq<Step>, me: nat)
    requires Foreign(more, me)
    ensures me in Run(steps + more).readers <==> me in Run(steps).readers
    ensures me in Run(steps).readers ==> Run(steps + more).readers[me] == Run(steps).readers[me]
  {
    if more == [] {
      assert steps + more == steps;
    } else {
      var front := more[..|more| - 1];
      ForeignKeepsMine(steps, front, me);
      assert steps + more == steps + front + [more[|more| - 1]];
      RunSnoc(steps + front, more[|more| - 1]);
      OneForeign(Run(steps + front), more[|more| - 1], me);
    }
  }

  /** Every row a compactor holds was read from the database. */
  lemma {:induction false} MineHasIds(steps: seq<Step>, me: nat)
    requires me in Run(steps).readers
    ensures forall i :: 0 <= i < |Run(steps).readers[me].chosen| ==> Run(steps).readers[me].chosen[i].id.Some?
  {
    var s := Run(steps);
    var n := RunChain(steps);
    assert SnapshotInv(s, s.readers[me], n);
    var m, from, to := SnapshotPlaced(s, s.readers[me], n);
    BoundaryMoved(s.rows, s.readers[me], m, from, to);
  }

  /** The root conversation and the run that led to its state. */
  class Conversation {
    var state: State
    ghost var steps: seq<Step>

    ghost predicate Valid() reads this { state == Run(steps) }

    constructor ()
      ensures Valid() && steps == []
    {
      state, steps := EMPTY, [];
    }

    /** Others go on while this caller waits. */
    method Await(others: seq<Step>)
      requires Valid()
      modifies this
      ensures Valid() && steps == old(steps) + others
    {
      for i := 0 to |others|
        invariant Valid() && steps == old(steps) + others[..i]
      {
        RunSnoc(steps, others[i]);
        assert others[..i + 1] == others[..i] + [others[i]];
        state, steps := Next(state, others[i]), steps + [others[i]];
      }
      assert others[..|others|] == others;
    }

    /** The snapshot a compactor takes; `false` when there is nothing to summarise. */
    method Read(me: nat, pendingCount: nat) returns (chosen: seq<Message>)
      requires Valid()
      modifies this
      ensures Valid()
      ensures chosen == Chosen(Load(old(state).rows), old(state).boundary, pendingCount)
      ensures chosen == [] ==> steps == old(steps) && state == old(state)
      ensures chosen != [] ==> steps == old(steps) + [Compaction.Read(me, pendingCount)]
      ensures chosen != [] ==> me in state.readers && state.readers[me].chosen == chosen
                               && state.readers[me].boundary == old(state).boundary == state.boundary
                               && state.rows == old(state).rows && state.summary == old(state).summary
    {
      var committed := SkipLeadingTools(LastN(state.rows, LOAD));
      chosen := [];
      if committed != [] {
        chosen := MessagesToSummarize(committed, state.boundary, pendingCount);
      } else {
        NothingChosen(state.boundary, pendingCount);
      }
      if chosen != [] {
        RunSnoc(steps, Compaction.Read(me, pendingCount));
        steps := steps + [Compaction.Read(me, pendingCount)];
        state := state.(readers := state.readers[me :=
          Snapshot(state.summary, state.boundary, chosen, state.saves, AllLoaded(state.rows, state.boundary))]);
      }
    }

    /** The conditional update: it writes only while the boundary is still the one that was read. */
    method Save(me: nat, boundary: Option<int>, chosen: seq<Message>, text: string) returns (saved: bool)
      requires Valid() && chosen != []
      requires me in state.readers && state.readers[me].boundary == boundary && state.readers[me].chosen == chosen
      modifies this
      ensures Valid() && steps == old(steps) + [Compaction.Save(me, text)]
      ensures saved <==> old(state).boundary == boundary
      ensures saved ==> state.summary == Some(text) && state.boundary == chosen[|chosen| - 1].id
                        && BoundaryLess(old(state).boundary, state.boundary)
      ensures !saved ==> state.summary == old(state).summary && state.boundary == old(state).boundary
      ensures state.rows == old(state).rows
    {
      MineHasIds(steps, me);
      RunSnoc(steps, Compaction.Save(me, text));
      SavesRaiseTheBoundary(steps, Compaction.Save(me, text));
      steps := steps + [Compaction.Save(me, text)];
      var mine := state.readers[me];
      saved := state.boundary == boundary;
      if saved {
        state := state.(summary := Some(text), boundary := chosen[|chosen| - 1].id, readers := state.readers - {me},
                        saves := state.saves + 1, fed := state.fed + [Ids(chosen)], complete := state.complete && mine.complete);
      } else {
        state := state.(readers := state.readers - {me});
      }
    }

    method Abandon(me: nat)
      requires Valid()
      modifies this
      ensures Valid() && steps == old(steps) + [Compaction.Abandon(me)]
      ensures state == old(state).(readers := old(state).readers - {me})
    {
      RunSnoc(steps, Compaction.Abandon(me));
      state, steps := state.(readers := state.readers - {me}), steps + [Compaction.Abandon(me)];
    }
  }

  lemma {:induction false} NothingChosen(boundary: Option<int>, pendingCount: nat)
    ensures Chosen([], boundary, pendingCount) == []
  {
    assert Cut([], RecentCommitted(pendingCount)) == 0;
  }

  /** There is something to summarise, and the window is full by the last call's count or by the estimate. */
  predicate Needed(s: State, pending: seq<Message>, threshold: nat, lastPromptTokens: Option<int>, estimate: seq<Message> -> nat) {
    && Chosen(Load(s.rows), s.boundary, |pending|) != []
    && ((lastPromptTokens.Some? && lastPromptTokens.value >= threshold)
        || estimate(Measured(Load(s.rows), s.summary.Some?, s.boundary, pending)) >= threshold)
  }

  /** Compacts when the window is full. `charged` tells whether the summariser was called and paid. */
  method EnsureRootCompaction(conversation: Conversation, budget: Budget, me: nat, pending: seq<Message>, threshold: nat,
                              lastPromptTokens: Option<int>, estimate: seq<Message> -> nat, others: seq<Step>, summary: Summary)
    returns (outcome: Outcome, charged: bool)
    requires conversation.Valid() && budget.Valid() && Foreign(others, me)
    modifies conversation, budget`costUsed, budget`promptUsed, budget`completionUsed, budget`usageByModel, budget`charges
    ensures conversation.Valid() && budget.Valid()
    ensures outcome.NotNeeded? <==> !Needed(old(conversation.state), pending, threshold, lastPromptTokens, estimate)
    ensures outcome.Raised? <==> !outcome.NotNeeded? && summary.cost < 0.0
    ensures charged <==> !outcome.NotNeeded? && !outcome.Raised?
    ensures charged ==> budget.charges == Then(old(budget.charges), Charge(None, summary.cost, 0, 0)) && summary.cost >= 0.0
    ensures !charged ==> budget.charges == old(budget.charges)
    ensures outcome.OverBudget? <==> charged && budget.costUsed > budget.maxCost
    ensures outcome.Unusable? <==> charged && !outcome.OverBudget? && (summary.error || summary.text.None?)
    ensures !outcome.NotNeeded? && !outcome.Saved? && !outcome.Outdated? ==>
              conversation.steps == old(conversation.steps) + [Compaction.Read(me, |pending|)] + others + [Compaction.Abandon(me)]
    ensures outcome.Saved? || outcome.Outdated? ==>
              summary.text.Some? && !summary.error
              && conversation.steps == old(conversation.steps) + [Compaction.Read(me, |pending|)] + others
                                       + [Compaction.Save(me, summary.text.value)]
    ensures outcome.Saved? || outcome.Outdated? ==>
              (outcome.Saved? <==>
                Run(old(conversation.steps) + [Compaction.Read(me, |pending|)] + others).boundary == old(conversation.state).boundary)
    ensures outcome.Saved? ==> conversation.state.summary == summary.text && conversation.state.boundary.Some?
                               && BoundaryLess(old(conversation.state).boundary, conversation.state.boundary)
    ensures outcome.NotNeeded? ==> conversation.state.rows == old(conversation.state).rows
                                   && conversation.state.summary == old(conversation.state).summary
                                   && conversation.state.boundary == old(conversation.state).boundary
  {
    var summarised, boundary := conversation.state.summary.Some?, conversation.state.boundary;
    var load := SkipLeadingTools(LastN(conversation.state.rows, LOAD));
    var chosen := conversation.Read(me, |pending|);
    if chosen == [] {
      return NotNeeded, false;
    }
    var tokenTriggered := lastPromptTokens.Some? && lastPromptTokens.value >= threshold;
    var window := EstimateWindow(summarised, boundary, load, pending);
    if !tokenTriggered && estimate(window) < threshold {
      conversation.Abandon(me);
      return NotNeeded, false;
    }
    outcome, charged := Summarise(conversation, budget, me, boundary, chosen, others, summary);
  }

  /** The part of a compaction after its read: the summariser runs while others go on, is paid for, and its text is saved. */
  method Summarise(conversation: Conversation, budget: Budget, me: nat, boundary: Option<int>, chosen: seq<Message>,
                   others: seq<Step>, summary: Summary)
    returns (outcome: Outcome, charged: bool)
    requires conversation.Valid() && budget.Valid() && Foreign(others, me)
    requires me in conversation.state.readers && conversation.state.readers[me].boundary == boundary
             && conversation.state.readers[me].chosen == chosen && chosen != []
    modifies conversation, budget`costUsed, budget`promptUsed, budget`completionUsed, budget`usageByModel, budget`charges
    ensures conversation.Valid() && budget.Valid()
    ensures !outcome.NotNeeded? && (outcome.Raised? <==> summary.cost < 0.0)
    ensures charged <==> !outcome.Raised?
    ensures charged ==> budget.charges == Then(old(budget.charges), Charge(None, summary.cost, 0, 0)) && summary.cost >= 0.0
    ensures !charged ==> budget.charges == old(budget.charges)
    ensures outcome.OverBudget? <==> charged && budget.costUsed > budget.maxCost
    ensures outcome.Unusable? <==> charged && !outcome.OverBudget? && (summary.error || summary.text.None?)
    ensures !outcome.Saved? && !outcome.Outdated? ==>
              conversation.steps == old(conversation.steps) + others + [Compaction.Abandon(me)]
    ensures outcome.Saved? || outcome.Outdated? ==>
              summary.text.Some? && !summary.error
              && conversation.steps == old(conversation.steps) + others + [Compaction.Save(me, summary.text.value)]
              && (outcome.Saved? <==> Run(old(conversation.steps) + others).boundary == boundary)
    ensures outcome.Saved? ==> conversation.state.summary == summary.text && conversation.state.boundary.Some?
                               && BoundaryLess(boundary, conversation.state.boundary)
  {
    ForeignKeepsMine(conversation.steps, others, me);
    conversation.Await(others);
    var r := budget.RecordCost(None, summary.cost, 0, 0);
    if r != Within || summary.error || summary.text.None? {
      conversation.Abandon(me);
      return if r == Invalid then Raised else if r == Exceeded then OverBudget else Unusable, r != Invalid;
    }
    charged := true;
    var saved := conversation.Save(me, boundary, chosen, summary.text.value);
    outcome := if saved then Saved else Outdated;
  }
}
