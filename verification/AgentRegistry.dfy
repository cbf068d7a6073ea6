/** Child-agent receipts: their lifecycle, and the listing of everything below one agent. */
module AgentRegistry {
  import opened Basics

  // ---------------------------------------------------------------- lifecycle

  datatype Status = Requested | Spawning | Running | Completed | Failed | Cancelled | Closed

  function Allowed(s: Status): set<Status> {
    match s
    case Requested => {Spawning, Failed, Cancelled}
    case Spawning => {Running, Failed, Cancelled}
    case Running => {Completed, Failed, Cancelled}
    case Closed => {}
    case _ => {Closed}
  }

  /** Still on its way: asked for, being spawned, or running. */
  predicate Active(s: Status) { s == Requested || s == Spawning || s == Running }

  /** The lifecycle as documented: REQUESTED, SPAWNING, RUNNING in this order; then an end, COMPLETED from RUNNING only, FAILED or
      CANCELLED from any of the three; and CLOSED after an end, for good. */
  lemma {:induction false} LifecycleExactly(from: Status, to: Status)
    ensures to in Allowed(from) <==>
            || (from == Requested && to == Spawning)
            || (from == Spawning && to == Running)
            || (from == Running && to == Completed)
            || (Active(from) && (to == Failed || to == Cancelled))
            || ((from == Completed || from == Failed || from == Cancelled) && to == Closed)
  {
  }

  /** Along allowed transitions alone every receipt can still be closed, and a new one can come to any status. */
  lemma {:induction false} EveryStatusIsReached(to: Status) returns (moves: seq<Move>)
    ensures |moves| <= 4 && MovedAll(Requested, moves, |moves|) == to
    ensures forall i :: 0 <= i < |moves| ==> moves[i].To? && moves[i].target in Allowed(MovedAll(Requested, moves, i))
  {
    moves := match to
      case Requested => []
      case Spawning => [To(Spawning)]
      case Running => [To(Spawning), To(Running)]
      case Completed => [To(Spawning), To(Running), To(Completed)]
      case Failed => [To(Failed)]
      case Cancelled => [To(Cancelled)]
      case Closed => [To(Spawning), To(Running), To(Completed), To(Closed)];
    assert MovedAll(Requested, moves, 0) == Requested;
    assert |moves| > 1 ==> MovedAll(Requested, moves, 1) == Spawning;
    assert |moves| > 2 ==> MovedAll(Requested, moves, 2) == Running;
    assert |moves| > 3 ==> MovedAll(Requested, moves, 3) == Completed;
  }

  /** An ordinary transition, or the forced close that is allowed from anywhere. */
  datatype Move = To(target: Status) | Close

  function Moved(s: Status, m: Move): Status {
    match m
    case To(target) => if target in Allowed(s) then target else s
    case Close => Closed
  }

  function MovedAll(s: Status, moves: seq<Move>, n: nat): Status
    requires n <= |moves|
  {
    if n == 0 then s else Moved(MovedAll(s, moves, n - 1), moves[n - 1])
  }

  function Rank(s: Status): nat {
    match s
    case Requested => 0
    case Spawning => 1
    case Running => 2
    case Closed => 4
    case _ => 3
  }

  /** How often the first `n` moves changed the status. */
  function Changes(s: Status, moves: seq<Move>, n: nat): nat
    requires n <= |moves|
  {
    if n == 0 then 0
    else Changes(s, moves, n - 1) + (if MovedAll(s, moves, n) != MovedAll(s, moves, n - 1) then 1 else 0)
  }

  /** A receipt only moves forward: over any moves it changes at most four times, and CLOSED is final. */
  lemma {:induction false} OnlyForward(s: Status, moves: seq<Move>, m: nat, n: nat)
    requires m <= n <= |moves|
    ensures Rank(MovedAll(s, moves, n)) >= Rank(MovedAll(s, moves, m)) + (Changes(s, moves, n) - Changes(s, moves, m))
    ensures MovedAll(s, moves, m) == Closed ==> MovedAll(s, moves, n) == Closed
    ensures m == 0 ==> Changes(s, moves, n) <= 4 - Rank(s)
    decreases n - m
  {
    if m < n {
      OnlyForward(s, moves, m, n - 1);
    }
  }

  datatype Receipt = Receipt(id: int, parent: Option<int>, created: int)

  class Registration {
    var status: Status
    var statusChangedAt: int
    var closedAt: Option<int>
    var forceClosed: bool

    constructor (now: int)
      ensures status == Requested && closedAt == None && !forceClosed
    {
      status, statusChangedAt, closedAt, forceClosed := Requested, now, None, false;
    }

    /** `closedAt` is recorded exactly when the receipt is closed. */
    predicate Valid() reads this { closedAt.Some? <==> status == Closed }

    method TransitionStatus(target: Status, now: int) returns (ok: bool)
      requires Valid()
      modifies this
      ensures Valid()
      ensures ok <==> target in Allowed(old(status))
      ensures status == (if ok then target else old(status)) == Moved(old(status), To(target))
      ensures if ok then statusChangedAt == now && closedAt == (if target == Closed then Some(now) else None)
              else unchanged(this)
      ensures forceClosed == old(forceClosed)
    {
      if target !in Allowed(status) {
        return false;
      }
      status, statusChangedAt := target, now;
      if target == Closed {
        closedAt := Some(now);
      }
      return true;
    }

    /** Closing again changes nothing. */
    method CloseReceipt(force: bool, now: int)
      requires Valid()
      modifies this
      ensures Valid() && status == Moved(old(status), Close) == Closed
      ensures old(status) == Closed ==> unchanged(this)
      ensures old(status) != Closed ==> closedAt == Some(now) && statusChangedAt == now && forceClosed == force
    {
      if status != Closed {
        status, statusChangedAt, closedAt, forceClosed := Closed, now, Some(now), force;
      }
    }
  }

  // ---------------------------------------------------------------- everything below one agent

  predicate DistinctIds(receipts: seq<Receipt>) {
    forall i, j | 0 <= i < j < |receipts| :: receipts[i].id != receipts[j].id
  }

  /** `x` is `n` parent links below the root. */
  ghost predicate Below(receipts: seq<Receipt>, root: int, x: int, n: int)
    decreases n
  {
    if n <= 0 then n == 0 && x == root
    else exists r :: r in receipts && r.id == x && r.parent.Some? && Below(receipts, root, r.parent.value, n - 1)
  }

  ghost predicate Reachable(receipts: seq<Receipt>, root: int, x: int) {
    exists n :: Below(receipts, root, x, n)
  }

  type Item = (int, Receipt)

  ghost predicate Found(items: seq<Item>, x: int, depth: int) {
    exists r: Receipt :: (depth, r) in items && r.id == x
  }

  ghost predicate HasId(items: seq<Item>, x: int) { exists i :: 0 <= i < |items| && items[i].1.id == x }

  /** An item is a receipt one deeper than its parent, which is the root or an item itself. */
  ghost predicate ItemOk(receipts: seq<Receipt>, root: int, items: seq<Item>, depth: int, r: Receipt) {
    && r in receipts && r.id != root && r.parent.Some? && Below(receipts, root, r.id, depth)
    && ((r.parent.value == root && depth == 1) || Found(items, r.parent.value, depth - 1))
  }

  ghost predicate ItemsOk(receipts: seq<Receipt>, root: int, items: seq<Item>) {
    forall i :: 0 <= i < |items| ==> ItemOk(receipts, root, items, items[i].0, items[i].1)
  }

  predicate DistinctItems(items: seq<Item>) {
    forall i, j | 0 <= i < j < |items| :: items[i].1.id != items[j].1.id
  }

  ghost predicate VisitedOk(root: int, items: seq<Item>, visited: set<int>) {
    forall x :: x in visited <==> x == root || HasId(items, x)
  }

  lemma {:induction false} FoundMore(items: seq<Item>, item: Item, x: int, depth: int)
    requires Found(items, x, depth)
    ensures Found(items + [item], x, depth)
  {
    var r: Receipt :| (depth, r) in items && r.id == x;
    assert (depth, r) in items + [item];
  }

  lemma {:induction false} HasIdMore(items: seq<Item>, item: Item, x: int)
    ensures HasId(items + [item], x) <==> HasId(items, x) || item.1.id == x
  {
    var more := items + [item];
    assert more[|items|] == item;
    if HasId(items, x) {
      var i :| 0 <= i < |items| && items[i].1.id == x;
      assert more[i].1.id == x;
    }
  }

  lemma {:induction false} ItemStays(receipts: seq<Receipt>, root: int, items: seq<Item>, item: Item, depth: int, r: Receipt)
    requires ItemOk(receipts, root, items, depth, r)
    ensures ItemOk(receipts, root, items + [item], depth, r)
  {
    if Found(items, r.parent.value, depth - 1) {
      FoundMore(items, item, r.parent.value, depth - 1);
    }
  }

  lemma {:induction false} OneBelow(receipts: seq<Receipt>, root: int, r: Receipt, depth: int)
    requires r in receipts && r.parent.Some? && Below(receipts, root, r.parent.value, depth) && depth >= 0
    ensures Below(receipts, root, r.id, depth + 1)
  {
  }

  lemma {:induction false} NewItem(receipts: seq<Receipt>, root: int, items: seq<Item>, r: Receipt, parent: int, depth: int)
    requires r in receipts && r.parent == Some(parent) && r.id != root
    requires (parent == root && depth == 0) || Found(items, parent, depth)
    requires Below(receipts, root, r.id, depth + 1)
    ensures ItemOk(receipts, root, items + [(depth + 1, r)], depth + 1, r)
  {
    ItemStays(receipts, root, items, (depth + 1, r), depth + 1, r);
  }

  lemma {:induction false} ItemsMore(receipts: seq<Receipt>, root: int, items: seq<Item>, item: Item)
    requires ItemsOk(receipts, root, items) && ItemOk(receipts, root, items + [item], item.0, item.1)
    ensures ItemsOk(receipts, root, items + [item])
  {
    forall i | 0 <= i < |items| ensures ItemOk(receipts, root, items + [item], items[i].0, items[i].1) {
      ItemStays(receipts, root, items, item, items[i].0, items[i].1);
    }
  }

  lemma {:induction false} DistinctMore(root: int, items: seq<Item>, visited: set<int>, item: Item)
    requires DistinctItems(items) && VisitedOk(root, items, visited) && item.1.id !in visited
    ensures DistinctItems(items + [item]) && VisitedOk(root, items + [item], visited + {item.1.id})
  {
    forall i | 0 <= i < |items| ensures items[i].1.id != item.1.id {
      assert HasId(items, items[i].1.id);
    }
    forall x ensures HasId(items + [item], x) <==> HasId(items, x) || item.1.id == x {
      HasIdMore(items, item, x);
    }
  }

  // ---------------------------------------------------------------- the traversal

  /** A stack entry: an agent whose children were not looked at yet, and its depth. */
  ghost predicate EntryOk(receipts: seq<Receipt>, root: int, items: seq<Item>, x: int, depth: int) {
    ((x == root && depth == 0) || Found(items, x, depth)) && Below(receipts, root, x, depth) && depth >= 0
  }

  ghost predicate StackOk(receipts: seq<Receipt>, root: int, items: seq<Item>, stack: seq<(int, int)>) {
    forall i :: 0 <= i < |stack| ==> EntryOk(receipts, root, items, stack[i].0, stack[i].1)
  }

  /** All children of `x` were seen. */
  ghost predicate Explored(receipts: seq<Receipt>, visited: set<int>, x: int) {
    forall r :: r in receipts && r.parent == Some(x) ==> r.id in visited
  }

  ghost predicate OnStack(stack: seq<(int, int)>, x: int) { exists i :: 0 <= i < |stack| && stack[i].0 == x }

  ghost predicate Frontier(receipts: seq<Receipt>, visited: set<int>, stack: seq<(int, int)>) {
    forall x :: x in visited ==> Explored(receipts, visited, x) || OnStack(stack, x)
  }

  /** Groups the receipts by parent. */
  method ByParent(receipts: seq<Receipt>) returns (byParent: map<int, seq<Receipt>>)
    ensures forall p :: p in byParent ==> forall r :: r in byParent[p] <==> r in receipts && r.parent == Some(p)
    ensures forall r :: r in receipts && r.parent.Some? ==> r.parent.value in byParent
  {
    byParent := map[];
    for i := 0 to |receipts|
      invariant forall p :: p in byParent ==> forall r :: r in byParent[p] <==> r in receipts[..i] && r.parent == Some(p)
      invariant forall r :: r in receipts[..i] && r.parent.Some? ==> r.parent.value in byParent
    {
      assert receipts[..i + 1] == receipts[..i] + [receipts[i]];
      var r := receipts[i];
      if r.parent.Some? {
        var p := r.parent.value;
        byParent := byParent[p := (if p in byParent then byParent[p] else []) + [r]];
      }
    }
    assert receipts[..|receipts|] == receipts;
  }

  /** Takes over the unseen children of one agent. */
  method VisitChildren(receipts: seq<Receipt>, root: int, children: seq<Receipt>, parent: int, depth: int,
                       items0: seq<Item>, visited0: set<int>, stack0: seq<(int, int)>)
    returns (items: seq<Item>, visited: set<int>, stack: seq<(int, int)>)
    requires forall r :: r in children <==> r in receipts && r.parent == Some(parent)
    requires ItemsOk(receipts, root, items0) && DistinctItems(items0) && VisitedOk(root, items0, visited0)
    requires StackOk(receipts, root, items0, stack0) && EntryOk(receipts, root, items0, parent, depth)
    requires forall x :: x in visited0 && x != parent ==> Explored(receipts, visited0, x) || OnStack(stack0, x)
    ensures ItemsOk(receipts, root, items) && DistinctItems(items) && VisitedOk(root, items, visited)
    ensures StackOk(receipts, root, items, stack) && Frontier(receipts, visited, stack)
    ensures visited0 <= visited && (visited == visited0 ==> stack == stack0)
    ensures forall x :: x in visited ==> x in visited0 || exists r :: r in receipts && r.id == x
  {
    items, visited, stack := items0, visited0, stack0;
    for i := 0 to |children|
      invariant ItemsOk(receipts, root, items) && DistinctItems(items) && VisitedOk(root, items, visited)
      invariant StackOk(receipts, root, items, stack) && EntryOk(receipts, root, items, parent, depth)
      invariant visited0 <= visited && (visited == visited0 ==> stack == stack0)
      invariant forall x :: x in visited && x != parent ==> Explored(receipts, visited, x) || OnStack(stack, x)
      invariant forall j :: 0 <= j < i ==> children[j].id in visited
      invariant forall x :: x in visited ==> x in visited0 || exists r :: r in receipts && r.id == x
    {
      var r := children[i];
      assert r in children;
      if r.id !in visited {
        items, visited, stack := VisitChild(receipts, root, r, parent, depth, items, visited, stack);
      }
    }
  }

  lemma {:induction false} StackMore(receipts: seq<Receipt>, root: int, items: seq<Item>, stack: seq<(int, int)>, item: Item)
    requires StackOk(receipts, root, items, stack)
    ensures StackOk(receipts, root, items + [item], stack)
  {
    forall i | 0 <= i < |stack| ensures EntryOk(receipts, root, items + [item], stack[i].0, stack[i].1) {
      EntryStays(receipts, root, items, item, stack[i].0, stack[i].1);
    }
  }

  lemma {:induction false} EntryStays(receipts: seq<Receipt>, root: int, items: seq<Item>, item: Item, x: int, depth: int)
    requires EntryOk(receipts, root, items, x, depth)
    ensures EntryOk(receipts, root, items + [item], x, depth)
  {
    if Found(items, x, depth) {
      FoundMore(items, item, x, depth);
    }
  }

  lemma {:induction false} OnStackMore(stack: seq<(int, int)>, entry: (int, int), x: int)
    requires OnStack(stack, x) || x == entry.0
    ensures OnStack(stack + [entry], x)
  {
    var more := stack + [entry];
    if OnStack(stack, x) {
      var i :| 0 <= i < |stack| && stack[i].0 == x;
      assert more[i].0 == x;
    } else {
      assert more[|stack|].0 == x;
    }
  }

  method VisitChild(receipts: seq<Receipt>, root: int, r: Receipt, parent: int, depth: int,
                    items0: seq<Item>, visited0: set<int>, stack0: seq<(int, int)>)
    returns (items: seq<Item>, visited: set<int>, stack: seq<(int, int)>)
    requires r in receipts && r.parent == Some(parent) && r.id !in visited0
    requires ItemsOk(receipts, root, items0) && DistinctItems(items0) && VisitedOk(root, items0, visited0)
    requires StackOk(receipts, root, items0, stack0) && EntryOk(receipts, root, items0, parent, depth)
    requires forall x :: x in visited0 && x != parent ==> Explored(receipts, visited0, x) || OnStack(stack0, x)
    ensures visited == visited0 + {r.id}
    ensures ItemsOk(receipts, root, items) && DistinctItems(items) && VisitedOk(root, items, visited)
    ensures StackOk(receipts, root, items, stack) && EntryOk(receipts, root, items, parent, depth)
    ensures forall x :: x in visited && x != parent ==> Explored(receipts, visited, x) || OnStack(stack, x)
  {
    var item, entry := (depth + 1, r), (r.id, depth + 1);
    OneBelow(receipts, root, r, depth);
    assert r.id != root;
    NewItem(receipts, root, items0, r, parent, depth);
    ItemsMore(receipts, root, items0, item);
    DistinctMore(root, items0, visited0, item);
    StackMore(receipts, root, items0, stack0, item);
    EntryStays(receipts, root, items0, item, parent, depth);
    items, visited, stack := items0 + [item], visited0 + {r.id}, stack0 + [entry];
    assert (depth + 1, r) in items;
    assert EntryOk(receipts, root, items, r.id, depth + 1);
    forall x | x in visited && x != parent ensures Explored(receipts, visited, x) || OnStack(stack, x) {
      if x == r.id || OnStack(stack0, x) {
        OnStackMore(stack0, entry, x);
      }
    }
  }

  /** When nothing is left on the stack, everything below the root was seen. */
  lemma {:induction false} AllSeen(receipts: seq<Receipt>, root: int, visited: set<int>, x: int, n: int)
    requires root in visited && forall v :: v in visited ==> Explored(receipts, visited, v)
    requires Below(receipts, root, x, n)
    ensures x in visited
    decreases n
  {
    if n > 0 {
      var r :| r in receipts && r.id == x && r.parent.Some? && Below(receipts, root, r.parent.value, n - 1);
      AllSeen(receipts, root, visited, r.parent.value, n - 1);
      assert Explored(receipts, visited, r.parent.value);
    }
  }

  /** What the traversal leaves: exactly the receipts below the root, each once, with consistent depths. */
  ghost predicate Collected(receipts: seq<Receipt>, root: int, items: seq<Item>) {
    && ItemsOk(receipts, root, items) && DistinctItems(items)
    && (forall x :: HasId(items, x) <==> x != root && Reachable(receipts, root, x))
  }

  lemma {:induction false} CollectedAll(receipts: seq<Receipt>, root: int, items: seq<Item>, visited: set<int>)
    requires ItemsOk(receipts, root, items) && DistinctItems(items) && VisitedOk(root, items, visited)
    requires forall v :: v in visited ==> Explored(receipts, visited, v)
    ensures Collected(receipts, root, items)
  {
    forall x ensures HasId(items, x) <==> x != root && Reachable(receipts, root, x) {
      if x != root && Reachable(receipts, root, x) {
        var n :| Below(receipts, root, x, n);
        AllSeen(receipts, root, visited, x, n);
      }
      if HasId(items, x) {
        var i :| 0 <= i < |items| && items[i].1.id == x;
        assert ItemOk(receipts, root, items, items[i].0, items[i].1);
      }
    }
  }

  lemma {:induction false} Popped(receipts: seq<Receipt>, root: int, items: seq<Item>, visited: set<int>,
                                  stack: seq<(int, int)>)
    requires stack != [] && StackOk(receipts, root, items, stack) && Frontier(receipts, visited, stack)
    ensures StackOk(receipts, root, items, stack[..|stack| - 1])
    ensures EntryOk(receipts, root, items, stack[|stack| - 1].0, stack[|stack| - 1].1)
    ensures forall x :: x in visited && x != stack[|stack| - 1].0 ==>
              Explored(receipts, visited, x) || OnStack(stack[..|stack| - 1], x)
  {
    var rest := stack[..|stack| - 1];
    forall x | x in visited && x != stack[|stack| - 1].0 && !Explored(receipts, visited, x) ensures OnStack(rest, x) {
      var i :| 0 <= i < |stack| && stack[i].0 == x;
      assert rest[i].0 == x;
    }
  }

  lemma {:induction false} Shrinks<T>(universe: set<T>, a: set<T>, b: set<T>)
    requires a <= b <= universe && a != b
    ensures universe - b < universe - a
  {
    var x :| x in b && x !in a;
    assert x in universe - a && x !in universe - b;
  }

  /** The walk with a stack; it ends even when the rows form a cycle. */
  method Collect(receipts: seq<Receipt>, root: int) returns (items: seq<Item>)
    ensures Collected(receipts, root, items)
  {
    var byParent := ByParent(receipts);
    var universe := {root} + set r | r in receipts :: r.id;
    var visited, stack := {root}, [(root, 0)];
    items := [];
    assert stack[0].0 == root;
    while stack != []
      invariant ItemsOk(receipts, root, items) && DistinctItems(items) && VisitedOk(root, items, visited)
      invariant StackOk(receipts, root, items, stack) && Frontier(receipts, visited, stack)
      invariant visited <= universe
      decreases universe - visited, |stack|
    {
      Popped(receipts, root, items, visited, stack);
      var entry := stack[|stack| - 1];
      var children := if entry.0 in byParent then byParent[entry.0] else [];
      ghost var before := visited;
      items, visited, stack := VisitChildren(receipts, root, children, entry.0, entry.1, items, visited, stack[..|stack| - 1]);
      forall x | x in visited ensures x in universe {
        if x !in before {
          var r :| r in receipts && r.id == x;
          assert r.id in universe;
        }
      }
      if visited != before {
        Shrinks(universe, before, visited);
      }
    }
    CollectedAll(receipts, root, items, visited);
  }

  // ---------------------------------------------------------------- the order of the listing

  /** Oldest first, and by id within one time; with `deepestFirst`, deeper ones before that. */
  predicate Before(a: Item, b: Item, deepestFirst: bool) {
    if deepestFirst && a.0 != b.0 then a.0 > b.0
    else if a.1.created != b.1.created then a.1.created < b.1.created
    else a.1.id <= b.1.id
  }

  predicate Ordered(items: seq<Item>, deepestFirst: bool) {
    forall i, j | 0 <= i < j < |items| :: Before(items[i], items[j], deepestFirst)
  }

  function Inserted(sorted: seq<Item>, at: nat, item: Item): seq<Item>
    requires at <= |sorted|
  {
    sorted[..at] + [item] + sorted[at..]
  }

  lemma {:induction false} InsertedPermutes(sorted: seq<Item>, at: nat, item: Item)
    requires at <= |sorted|
    ensures multiset(Inserted(sorted, at, item)) == multiset(sorted) + multiset{item}
  {
    assert sorted == sorted[..at] + sorted[at..];
  }

  lemma {:induction false} InsertedOrdered(sorted: seq<Item>, at: nat, item: Item, deepestFirst: bool)
    requires at <= |sorted| && Ordered(sorted, deepestFirst)
    requires forall i :: 0 <= i < at ==> Before(sorted[i], item, deepestFirst)
    requires forall i :: at <= i < |sorted| ==> Before(item, sorted[i], deepestFirst)
    ensures Ordered(Inserted(sorted, at, item), deepestFirst)
  {
    var r := Inserted(sorted, at, item);
    assert forall i :: 0 <= i < |r| ==> r[i] == if i < at then sorted[i] else if i == at then item else sorted[i - 1];
  }

  /** What follows an item that does not come before the new one does not come before it either. */
  lemma {:induction false} RestFollows(sorted: seq<Item>, at: nat, item: Item, deepestFirst: bool)
    requires at <= |sorted| && Ordered(sorted, deepestFirst)
    requires at < |sorted| ==> !Before(sorted[at], item, deepestFirst)
    ensures forall i :: at <= i < |sorted| ==> Before(item, sorted[i], deepestFirst)
  {
    forall i | at <= i < |sorted| ensures Before(item, sorted[i], deepestFirst) {
      assert i == at || Before(sorted[at], sorted[i], deepestFirst);
    }
  }

  method Insert(sorted: seq<Item>, item: Item, deepestFirst: bool) returns (r: seq<Item>)
    requires Ordered(sorted, deepestFirst)
    ensures Ordered(r, deepestFirst) && multiset(r) == multiset(sorted) + multiset{item}
  {
    var at := 0;
    while at < |sorted| && Before(sorted[at], item, deepestFirst)
      invariant 0 <= at <= |sorted|
      invariant forall i :: 0 <= i < at ==> Before(sorted[i], item, deepestFirst)
    {
      at := at + 1;
    }
    RestFollows(sorted, at, item, deepestFirst);
    InsertedOrdered(sorted, at, item, deepestFirst);
    InsertedPermutes(sorted, at, item);
    r := Inserted(sorted, at, item);
  }

  method Sort(items: seq<Item>, deepestFirst: bool) returns (r: seq<Item>)
    ensures Ordered(r, deepestFirst) && multiset(r) == multiset(items)
  {
    r := [];
    for i := 0 to |items|
      invariant Ordered(r, deepestFirst) && multiset(r) == multiset(items[..i])
    {
      assert items[..i + 1] == items[..i] + [items[i]];
      r := Insert(r, items[i], deepestFirst);
    }
    assert items[..|items|] == items;
  }

  lemma {:induction false} SameItems(a: seq<Item>, b: seq<Item>)
    requires multiset(a) == multiset(b)
    ensures forall x :: x in a <==> x in b
  {
    forall x ensures x in a <==> x in b {
      assert x in a <==> x in multiset(a);
      assert x in b <==> x in multiset(b);
    }
  }

  /** No item occurs twice in a rearrangement either. */
  lemma {:induction false} StillDistinct(a: seq<Item>, b: seq<Item>)
    requires DistinctItems(a) && multiset(a) == multiset(b)
    ensures DistinctItems(b)
  {
    SameItems(a, b);
    forall i, j | 0 <= i < j < |b| ensures b[i].1.id != b[j].1.id {
      if b[i].1.id == b[j].1.id {
        assert b[i] in a && b[j] in a;
        var k :| 0 <= k < |a| && a[k] == b[i];
        var l :| 0 <= l < |a| && a[l] == b[j];
        assert k == l;
        TwiceInSeq(b, i, j);
        OnceInDistinct(a, k);
      }
    }
  }

  lemma {:induction false} TwiceInSeq(s: seq<Item>, i: nat, j: nat)
    requires i < j < |s| && s[i] == s[j]
    ensures multiset(s)[s[i]] >= 2
  {
    assert s == s[..j] + s[j..];
    assert s[i] in s[..j] && s[j] in s[j..];
  }

  lemma {:induction false} OnceInDistinct(s: seq<Item>, k: nat)
    requires DistinctItems(s) && k < |s|
    ensures multiset(s)[s[k]] == 1
  {
    assert s == s[..k] + [s[k]] + s[k + 1..];
    assert s[k] !in s[..k] && s[k] !in s[k + 1..];
  }

  function Receipts(items: seq<Item>): (r: seq<Receipt>)
    ensures |r| == |items| && forall i :: 0 <= i < |items| ==> r[i] == items[i].1
  {
    seq(|items|, i requires 0 <= i < |items| => items[i].1)
  }

  /** All descendants of one agent: exactly the receipts below it, each once; with `deepestFirst`, every child before its
      parent, otherwise oldest first. */
  method ListDescendants(receipts: seq<Receipt>, root: int, deepestFirst: bool) returns (r: seq<Receipt>)
    requires DistinctIds(receipts)
    ensures forall x :: x in r <==> x in receipts && x.id != root && Reachable(receipts, root, x.id)
    ensures forall i, j | 0 <= i < j < |r| :: r[i].id != r[j].id
    ensures deepestFirst ==> forall i, j | 0 <= i < |r| && 0 <= j < |r| && r[i].parent == Some(r[j].id) :: i < j
    ensures !deepestFirst ==> forall i, j | 0 <= i < j < |r| ::
              r[i].created < r[j].created || (r[i].created == r[j].created && r[i].id < r[j].id)
  {
    var items := Collect(receipts, root);
    var sorted := Sort(items, deepestFirst);
    r := Receipts(sorted);
    StillDistinct(items, sorted);
    SameItems(items, sorted);
    forall x ensures x in r <==> x in receipts && x.id != root && Reachable(receipts, root, x.id) {
      ListedIffReachable(receipts, root, items, sorted, x);
    }
    if deepestFirst {
      forall i, j | 0 <= i < |r| && 0 <= j < |r| && r[i].parent == Some(r[j].id) ensures i < j {
        ChildFirst(receipts, root, items, sorted, i, j);
      }
    }
  }

  lemma {:induction false} ListedIffReachable(receipts: seq<Receipt>, root: int, items: seq<Item>, sorted: seq<Item>,
                                              x: Receipt)
    requires DistinctIds(receipts) && Collected(receipts, root, items) && forall it :: it in items <==> it in sorted
    ensures x in Receipts(sorted) <==> x in receipts && x.id != root && Reachable(receipts, root, x.id)
  {
    if x in Receipts(sorted) {
      var i :| 0 <= i < |sorted| && Receipts(sorted)[i] == x;
      assert sorted[i] in items;
      var k :| 0 <= k < |items| && items[k] == sorted[i];
      assert ItemOk(receipts, root, items, items[k].0, items[k].1) && HasId(items, x.id);
    }
    if x in receipts && x.id != root && Reachable(receipts, root, x.id) {
      assert HasId(items, x.id);
      var k :| 0 <= k < |items| && items[k].1.id == x.id;
      assert ItemOk(receipts, root, items, items[k].0, items[k].1);
      SameReceipt(receipts, items[k].1, x);
      assert items[k] in sorted;
      var i :| 0 <= i < |sorted| && sorted[i] == items[k];
      assert Receipts(sorted)[i] == x;
    }
  }

  lemma {:induction false} SameReceipt(receipts: seq<Receipt>, a: Receipt, b: Receipt)
    requires DistinctIds(receipts) && a in receipts && b in receipts && a.id == b.id
    ensures a == b
  {
  }

  /** A child is one deeper than its parent, so it comes first. */
  lemma {:induction false} ChildFirst(receipts: seq<Receipt>, root: int, items: seq<Item>, sorted: seq<Item>, i: nat, j: nat)
    requires ItemsOk(receipts, root, items) && forall it :: it in items <==> it in sorted
    requires Ordered(sorted, true) && DistinctItems(sorted)
    requires i < |sorted| && j < |sorted| && sorted[i].1.parent == Some(sorted[j].1.id)
    ensures i < j
  {
    assert sorted[i] in items && sorted[j] in items;
    var k :| 0 <= k < |items| && items[k] == sorted[i];
    var l :| 0 <= l < |items| && items[l] == sorted[j];
    assert ItemOk(receipts, root, items, items[k].0, items[k].1);
    assert ItemOk(receipts, root, items, items[l].0, items[l].1);
    var q: Receipt :| (items[k].0 - 1, q) in items && q.id == sorted[j].1.id;
    assert (items[k].0 - 1, q) in sorted;
    var m :| 0 <= m < |sorted| && sorted[m] == (items[k].0 - 1, q);
    assert m == j;
  }
}
