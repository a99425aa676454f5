/** The checkpoint store: a map of checkpoints beside the list of their ids in insertion
    order, from which the oldest are evicted. */
module Checkpoints {
  import opened Sequences
  import opened Wrappers

  datatype AgentState = AgentState(messages: seq<string>, systemPrompt: string, toolCallCount: nat, totalTokens: nat)

  datatype CheckpointId = CheckpointId(text: string)

  datatype Checkpoint = Checkpoint(id: CheckpointId, name: Option<string>, turnNumber: nat, state: AgentState)

  datatype Store = Store(checkpoints: map<CheckpointId, Checkpoint>, order: seq<CheckpointId>)

  const Empty := Store(map[], [])

  // ---- What the operations compute ----

  /** Removes the oldest ids until the map is below the limit or no id is left. */
  function Evict(s: Store, max: nat): Store
    decreases |s.order|
  {
    if |s.checkpoints| >= max && s.order != [] then
      Evict(Store(s.checkpoints - {s.order[0]}, s.order[1..]), max)
    else s
  }

  function Create(s: Store, max: nat, cp: Checkpoint): Store {
    var room := Evict(s, max);
    Store(room.checkpoints[cp.id := cp], room.order + [cp.id])
  }

  function Without(order: seq<CheckpointId>, id: CheckpointId): seq<CheckpointId> {
    if order == [] then []
    else Without(order[..|order| - 1], id) + if order[|order| - 1] == id then [] else [order[|order| - 1]]
  }

  function Delete(s: Store, id: CheckpointId): Store {
    if id in s.checkpoints then Store(s.checkpoints - {id}, Without(s.order, id)) else s
  }

  /** The stored checkpoints in insertion order; ids without a checkpoint are skipped. */
  function Listed(checkpoints: map<CheckpointId, Checkpoint>, order: seq<CheckpointId>): seq<Checkpoint> {
    if order == [] then []
    else
      var id := order[|order| - 1];
      Listed(checkpoints, order[..|order| - 1]) + if id in checkpoints then [checkpoints[id]] else []
  }

  class CheckpointManager {
    const maxCheckpoints: nat
    var checkpoints: map<CheckpointId, Checkpoint>
    var insertionOrder: seq<CheckpointId>

    function Contents(): Store
      reads this
    {
      Store(checkpoints, insertionOrder)
    }

    constructor (maxCheckpoints: nat)
      ensures Contents() == Empty && this.maxCheckpoints == maxCheckpoints
    {
      this.maxCheckpoints := maxCheckpoints;
      checkpoints, insertionOrder := map[], [];
    }

    method CreateWithLabel(id: CheckpointId, name: Option<string>, state: AgentState, turnNumber: nat) returns (created: CheckpointId)
      modifies this
      ensures created == id
      ensures Contents() == Create(old(Contents()), maxCheckpoints, Checkpoint(id, name, turnNumber, state))
    {
      while |checkpoints| >= maxCheckpoints
        invariant Evict(Contents(), maxCheckpoints) == Evict(old(Contents()), maxCheckpoints)
        decreases |insertionOrder|
      {
        if insertionOrder == [] {
          break;
        }
        checkpoints := checkpoints - {insertionOrder[0]};
        insertionOrder := insertionOrder[1..];
      }
      checkpoints := checkpoints[id := Checkpoint(id, name, turnNumber, state)];
      insertionOrder := insertionOrder + [id];
      created := id;
    }

    method DeleteCheckpoint(id: CheckpointId) returns (existed: bool)
      modifies this
      ensures existed == (id in old(checkpoints))
      ensures Contents() == Delete(old(Contents()), id)
    {
      existed := id in checkpoints;
      if existed {
        checkpoints := checkpoints - {id};
        var kept := [];
        for i := 0 to |insertionOrder|
          invariant kept == Without(insertionOrder[..i], id)
        {
          assert insertionOrder[..i + 1][..i] == insertionOrder[..i];
          if insertionOrder[i] != id {
            kept := kept + [insertionOrder[i]];
          }
        }
        assert insertionOrder[..|insertionOrder|] == insertionOrder;
        insertionOrder := kept;
      }
    }

    method List() returns (list: seq<Checkpoint>)
      ensures list == Listed(checkpoints, insertionOrder)
    {
      list := [];
      for i := 0 to |insertionOrder|
        invariant list == Listed(checkpoints, insertionOrder[..i])
      {
        assert insertionOrder[..i + 1][..i] == insertionOrder[..i];
        if insertionOrder[i] in checkpoints {
          list := list + [checkpoints[insertionOrder[i]]];
        }
      }
      assert insertionOrder[..|insertionOrder|] == insertionOrder;
    }

    method Restore(id: CheckpointId) returns (state: Option<AgentState>)
      ensures state == if id in checkpoints then Some(checkpoints[id].state) else None
    {
      state := if id in checkpoints then Some(checkpoints[id].state) else None;
    }
  }

  // ---- Any run ----

  function Limit(max: nat): nat {
    if max == 0 then 1 else max
  }

  /** Holds for any use of ids: every stored checkpoint has its id in the order, under
      which it is stored, and the store is within its limit. */
  ghost predicate Bounded(s: Store, max: nat) {
    && (forall id :: id in s.checkpoints ==> id in s.order && s.checkpoints[id].id == id)
    && |s.checkpoints| <= Limit(max)
  }

  lemma {:induction false} EvictMakesRoom(s: Store, max: nat)
    requires forall id :: id in s.checkpoints ==> id in s.order && s.checkpoints[id].id == id
    ensures var e := Evict(s, max);
            && (forall id :: id in e.checkpoints ==> id in e.order && e.checkpoints[id].id == id)
            && |e.checkpoints| < Limit(max)
    decreases |s.order|
  {
    if |s.checkpoints| >= max && s.order != [] {
      assert s.order == [s.order[0]] + s.order[1..];
      EvictMakesRoom(Store(s.checkpoints - {s.order[0]}, s.order[1..]), max);
    } else if s.order == [] {
      assert s.checkpoints.Keys == {};
    }
  }

  lemma {:induction false} WithoutMembers(order: seq<CheckpointId>, id: CheckpointId, x: CheckpointId)
    ensures x in Without(order, id) <==> x in order && x != id
  {
    if order != [] {
      WithoutMembers(order[..|order| - 1], id, x);
      assert order == order[..|order| - 1] + [order[|order| - 1]];
    }
  }

  datatype Op = Put(cp: Checkpoint) | Remove(id: CheckpointId)

  function Apply(s: Store, max: nat, op: Op): Store {
    match op
    case Put(cp) => Create(s, max, cp)
    case Remove(id) => Delete(s, id)
  }

  /** The store after the operations, the latest of which stands last. */
  function Run(max: nat, ops: seq<Op>): Store {
    if ops == [] then Empty else Apply(Run(max, ops[..|ops| - 1]), max, ops[|ops| - 1])
  }

  /** Whatever ids are used or reused, the store never exceeds its limit, and no checkpoint
      is stored that the order has forgotten. */
  lemma {:induction false} EveryRunIsBounded(max: nat, ops: seq<Op>)
    ensures Bounded(Run(max, ops), max)
  {
    if ops != [] {
      var before := Run(max, ops[..|ops| - 1]);
      EveryRunIsBounded(max, ops[..|ops| - 1]);
      match ops[|ops| - 1]
      case Put(cp) => CreateStaysBounded(before, max, cp);
      case Remove(id) => DeleteStaysBounded(before, max, id);
    }
  }

  lemma CreateStaysBounded(s: Store, max: nat, cp: Checkpoint)
    requires Bounded(s, max)
    ensures Bounded(Create(s, max, cp), max)
  {
    EvictMakesRoom(s, max);
    var e := Evict(s, max);
    assert e.checkpoints[cp.id := cp].Keys == e.checkpoints.Keys + {cp.id};
  }

  lemma DeleteStaysBounded(s: Store, max: nat, id: CheckpointId)
    requires Bounded(s, max)
    ensures Bounded(Delete(s, id), max)
  {
    forall x ensures x in Without(s.order, id) <==> x in s.order && x != id {
      WithoutMembers(s.order, id, x);
    }
    SubsetSize((s.checkpoints - {id}).Keys, s.checkpoints.Keys);
  }

  // ---- Runs with fresh ids ----

  /** The order lists exactly the stored ids, each once. */
  ghost predicate Agrees(s: Store) {
    && NoRepeat(s.order)
    && (forall id :: id in s.checkpoints <==> id in s.order)
    && (forall id :: id in s.checkpoints ==> s.checkpoints[id].id == id)
  }

  /** A plain bounded queue: the newest checkpoint enters, the oldest leave. */
  function FifoPut(q: seq<Checkpoint>, max: nat, cp: Checkpoint): seq<Checkpoint> {
    Newest(q, max) + [cp]
  }

  function FifoRemove(q: seq<Checkpoint>, id: CheckpointId): seq<Checkpoint> {
    if q == [] then []
    else FifoRemove(q[..|q| - 1], id) + if q[|q| - 1].id == id then [] else [q[|q| - 1]]
  }

  function FifoRun(max: nat, ops: seq<Op>): seq<Checkpoint> {
    if ops == [] then []
    else
      var q := FifoRun(max, ops[..|ops| - 1]);
      match ops[|ops| - 1]
      case Put(cp) => FifoPut(q, max, cp)
      case Remove(id) => FifoRemove(q, id)
  }

  /** The store holds exactly the checkpoints of `q`, in that order, each under its own id. */
  ghost predicate Holds(s: Store, q: seq<Checkpoint>) {
    && Agrees(s) && |s.order| == |q|
    && (forall i :: 0 <= i < |q| ==> s.order[i] == q[i].id && q[i].id in s.checkpoints && s.checkpoints[q[i].id] == q[i])
  }

  lemma {:induction false} HeldIsListed(s: Store, q: seq<Checkpoint>, n: nat)
    requires Holds(s, q) && n <= |q|
    ensures Listed(s.checkpoints, s.order[..n]) == q[..n]
  {
    if n > 0 {
      HeldIsListed(s, q, n - 1);
      assert s.order[..n][..n - 1] == s.order[..n - 1];
      assert q[..n] == q[..n - 1] + [q[n - 1]];
    }
  }

  lemma DropOldest(s: Store, q: seq<Checkpoint>)
    requires Holds(s, q) && q != []
    ensures Holds(Store(s.checkpoints - {s.order[0]}, s.order[1..]), q[1..])
  {
    assert s.order == [s.order[0]] + s.order[1..];
  }

  /** What a bounded queue keeps to make room for one more. */
  function Newest(q: seq<Checkpoint>, max: nat): seq<Checkpoint> {
    if |q| < Limit(max) then q else q[|q| - (Limit(max) - 1)..]
  }

  /** Eviction keeps the newest checkpoints that fit, with one place to spare. */
  lemma {:induction false} EvictKeepsNewest(s: Store, q: seq<Checkpoint>, max: nat)
    requires Holds(s, q)
    ensures Holds(Evict(s, max), Newest(q, max))
    decreases |s.order|
  {
    HeldSize(s, q);
    if |q| >= max && q != [] {
      var next := Store(s.checkpoints - {s.order[0]}, s.order[1..]);
      DropOldest(s, q);
      NewestOfRest(q, max);
      EvictKeepsNewest(next, q[1..], max);
      assert Evict(s, max) == Evict(next, max);
    } else {
      assert Evict(s, max) == s && Newest(q, max) == q;
    }
  }

  lemma HeldSize(s: Store, q: seq<Checkpoint>)
    requires Holds(s, q)
    ensures |s.checkpoints| == |q|
  {
    Pigeonhole(s.order, s.checkpoints.Keys);
    ElementsFit(s.order, s.checkpoints.Keys);
  }

  lemma NewestOfRest(q: seq<Checkpoint>, max: nat)
    requires |q| >= Limit(max)
    ensures Newest(q[1..], max) == Newest(q, max)
  {}

  lemma AddHolds(s: Store, q: seq<Checkpoint>, cp: Checkpoint)
    requires Holds(s, q)
    ensures cp.id !in s.order ==> Holds(Store(s.checkpoints[cp.id := cp], s.order + [cp.id]), q + [cp])
    ensures cp.id in s.order ==> !NoRepeat(s.order + [cp.id])
  {
    var order := s.order + [cp.id];
    if cp.id in s.order {
      var i :| 0 <= i < |s.order| && s.order[i] == cp.id;
      assert order[i] == order[|s.order|];
    } else {
      assert forall i :: 0 <= i < |q| ==> s.order[i] in s.order && order[i] == s.order[i];
    }
  }

  /** No kept checkpoint has the id: what a caller can tell from the queue before creating. */
  ghost predicate IsFresh(id: CheckpointId, kept: seq<Checkpoint>) {
    forall c :: c in kept ==> c.id != id
  }

  ghost predicate DistinctIds(list: seq<Checkpoint>) {
    forall i, j :: 0 <= i < j < |list| ==> list[i].id != list[j].id
  }

  lemma FreshIffAbsent(s: Store, q: seq<Checkpoint>, id: CheckpointId)
    requires Holds(s, q)
    ensures IsFresh(id, q) <==> id !in s.order
  {
    if id in s.order {
      var i :| 0 <= i < |s.order| && s.order[i] == id;
      assert q[i] in q;
    }
    assert forall i :: 0 <= i < |q| ==> s.order[i] in s.order;
  }

  /** When every id in the order is stored, the list follows the order id by id. */
  lemma {:induction false} ListFollowsOrder(checkpoints: map<CheckpointId, Checkpoint>, order: seq<CheckpointId>)
    requires forall i :: 0 <= i < |order| ==> order[i] in checkpoints && checkpoints[order[i]].id == order[i]
    ensures |Listed(checkpoints, order)| == |order|
    ensures forall i :: 0 <= i < |order| ==> Listed(checkpoints, order)[i].id == order[i]
  {
    if order != [] {
      ListFollowsOrder(checkpoints, order[..|order| - 1]);
    }
  }

  lemma CreateHolds(s: Store, q: seq<Checkpoint>, max: nat, cp: Checkpoint)
    requires Holds(s, q)
    ensures IsFresh(cp.id, Newest(q, max)) ==> Holds(Create(s, max, cp), FifoPut(q, max, cp))
    ensures !IsFresh(cp.id, Newest(q, max)) ==> !NoRepeat(Create(s, max, cp).order)
  {
    EvictKeepsNewest(s, q, max);
    FreshIffAbsent(Evict(s, max), Newest(q, max), cp.id);
    AddHolds(Evict(s, max), Newest(q, max), cp);
  }

  lemma SameIdsSameRepeats(list: seq<Checkpoint>, order: seq<CheckpointId>)
    requires |list| == |order| && forall i :: 0 <= i < |order| ==> list[i].id == order[i]
    ensures DistinctIds(list) <==> NoRepeat(order)
  {
    if !NoRepeat(order) {
      var i, j :| 0 <= i < j < |order| && order[i] == order[j];
      assert list[i].id == list[j].id;
    }
  }

  lemma CreateListsOrder(s: Store, q: seq<Checkpoint>, max: nat, cp: Checkpoint)
    requires Holds(s, q)
    ensures var c := Create(s, max, cp); DistinctIds(Listed(c.checkpoints, c.order)) <==> NoRepeat(c.order)
  {
    EvictKeepsNewest(s, q, max);
    var e, c := Evict(s, max), Create(s, max, cp);
    forall i | 0 <= i < |c.order| ensures c.order[i] in c.checkpoints && c.checkpoints[c.order[i]].id == c.order[i] {
      if i < |e.order| { assert c.order[i] == e.order[i] && e.order[i] in e.order; }
    }
    ListFollowsOrder(c.checkpoints, c.order);
    SameIdsSameRepeats(Listed(c.checkpoints, c.order), c.order);
  }

  /** For a store that holds the queue `q`, a creation keeps map and order in agreement, and
      the list free of repeated ids, exactly when its id is not that of one of the newest
      checkpoints which the limit lets stay. */
  lemma CreateHoldsIffFresh(s: Store, q: seq<Checkpoint>, max: nat, cp: Checkpoint)
    requires Holds(s, q)
    ensures var c := Create(s, max, cp);
            && (Agrees(c) <==> IsFresh(cp.id, Newest(q, max)))
            && (DistinctIds(Listed(c.checkpoints, c.order)) <==> IsFresh(cp.id, Newest(q, max)))
            && (IsFresh(cp.id, Newest(q, max)) ==> Holds(c, FifoPut(q, max, cp)))
  {
    CreateHolds(s, q, max, cp);
    CreateListsOrder(s, q, max, cp);
  }

  lemma {:induction false} RemovePointwise(order: seq<CheckpointId>, q: seq<Checkpoint>, id: CheckpointId)
    requires |order| == |q| && forall i :: 0 <= i < |q| ==> order[i] == q[i].id
    ensures |Without(order, id)| == |FifoRemove(q, id)|
    ensures forall i :: 0 <= i < |Without(order, id)| ==> Without(order, id)[i] == FifoRemove(q, id)[i].id
    ensures forall cp :: cp in FifoRemove(q, id) ==> cp in q
  {
    if q != [] {
      RemovePointwise(order[..|order| - 1], q[..|q| - 1], id);
    }
  }

  lemma {:induction false} WithoutKeepsOrder(order: seq<CheckpointId>, id: CheckpointId)
    requires NoRepeat(order)
    ensures NoRepeat(Without(order, id))
  {
    if order != [] {
      var n := |order| - 1;
      WithoutKeepsOrder(order[..n], id);
      WithoutMembers(order[..n], id, order[n]);
      var rest := Without(order[..n], id);
      assert forall i :: 0 <= i < |rest| ==> rest[i] in rest;
      assert order[n] !in order[..n];
    }
  }

  lemma {:induction false} RemoveAbsent(q: seq<Checkpoint>, id: CheckpointId)
    requires forall i :: 0 <= i < |q| ==> q[i].id != id
    ensures FifoRemove(q, id) == q
  {
    if q != [] { RemoveAbsent(q[..|q| - 1], id); }
  }

  lemma DeleteHolds(s: Store, q: seq<Checkpoint>, id: CheckpointId)
    requires Holds(s, q)
    ensures Holds(Delete(s, id), FifoRemove(q, id))
  {
    if id in s.checkpoints {
      WithoutKeepsOrder(s.order, id);
      forall x ensures x in Without(s.order, id) <==> x in s.order && x != id {
        WithoutMembers(s.order, id, x);
      }
      RemovePointwise(s.order, q, id);
      var rest, kept := Without(s.order, id), FifoRemove(q, id);
      forall i | 0 <= i < |kept| ensures kept[i].id in s.checkpoints - {id} && s.checkpoints[kept[i].id] == kept[i] {
        assert rest[i] in rest && kept[i] in kept && kept[i] in q;
      }
    } else {
      assert forall i :: 0 <= i < |q| ==> s.order[i] in s.order;
      RemoveAbsent(q, id);
    }
  }

  /** Each created id differs from those of the checkpoints that a bounded queue would keep
      at that moment. */
  ghost predicate FreshRun(max: nat, ops: seq<Op>) {
    ops == [] ||
    (&& FreshRun(max, ops[..|ops| - 1])
     && (ops[|ops| - 1].Put? ==> IsFresh(ops[|ops| - 1].cp.id, Newest(FifoRun(max, ops[..|ops| - 1]), max))))
  }

  lemma {:induction false} FreshRunHolds(max: nat, ops: seq<Op>)
    requires FreshRun(max, ops)
    ensures Holds(Run(max, ops), FifoRun(max, ops))
  {
    if ops != [] {
      var s, q := Run(max, ops[..|ops| - 1]), FifoRun(max, ops[..|ops| - 1]);
      FreshRunHolds(max, ops[..|ops| - 1]);
      match ops[|ops| - 1]
      case Put(cp) => CreateHoldsIffFresh(s, q, max, cp);
      case Remove(id) => DeleteHolds(s, q, id);
    }
  }

  /** With fresh ids, any run of creations and deletions keeps the order and the map in
      agreement, and lists exactly what a bounded queue would hold. */
  lemma FreshRunIsFifo(max: nat, ops: seq<Op>)
    requires FreshRun(max, ops)
    ensures Agrees(Run(max, ops))
    ensures Listed(Run(max, ops).checkpoints, Run(max, ops).order) == FifoRun(max, ops)
  {
    FreshRunHolds(max, ops);
    var s, q := Run(max, ops), FifoRun(max, ops);
    HeldIsListed(s, q, |q|);
    assert s.order[..|q|] == s.order && q[..|q|] == q;
  }

  lemma FreshListIsDistinct(max: nat, ops: seq<Op>)
    requires FreshRun(max, ops)
    ensures DistinctIds(Listed(Run(max, ops).checkpoints, Run(max, ops).order))
  {
    FreshRunHolds(max, ops);
    FreshRunIsFifo(max, ops);
    var s, q := Run(max, ops), FifoRun(max, ops);
    forall i, j | 0 <= i < j < |q| ensures q[i].id != q[j].id {
      assert s.order[i] != s.order[j];
    }
  }

  /** No prefix of the run lists an id twice. */
  ghost predicate AlwaysDistinct(max: nat, ops: seq<Op>) {
    && (ops == [] || AlwaysDistinct(max, ops[..|ops| - 1]))
    && DistinctIds(Listed(Run(max, ops).checkpoints, Run(max, ops).order))
  }

  /** The list is free of repeated ids throughout a run exactly when the run creates fresh ids. */
  lemma {:induction false} AlwaysDistinctIffFresh(max: nat, ops: seq<Op>)
    ensures AlwaysDistinct(max, ops) <==> FreshRun(max, ops)
  {
    if ops != [] {
      var init, last := ops[..|ops| - 1], ops[|ops| - 1];
      AlwaysDistinctIffFresh(max, init);
      if FreshRun(max, ops) {
        FreshListIsDistinct(max, ops);
      } else if FreshRun(max, init) {
        FreshRunHolds(max, init);
        CreateHoldsIffFresh(Run(max, init), FifoRun(max, init), max, last.cp);
      }
    }
  }

  /** With fresh ids, a checkpoint can be restored exactly while the bounded queue holds it,
      and restoring gives back the state it was created with. */
  lemma RestorableIffQueued(max: nat, ops: seq<Op>, id: CheckpointId)
    requires FreshRun(max, ops)
    ensures id in Run(max, ops).checkpoints <==> exists cp :: cp in FifoRun(max, ops) && cp.id == id
    ensures forall cp :: cp in FifoRun(max, ops) && cp.id == id ==>
              id in Run(max, ops).checkpoints && Run(max, ops).checkpoints[id] == cp
  {
    FreshRunHolds(max, ops);
    var s, q := Run(max, ops), FifoRun(max, ops);
    if id in s.checkpoints {
      var i :| 0 <= i < |s.order| && s.order[i] == id;
      assert q[i] in q && q[i].id == id;
    }
  }

  /** Reusing a stored id breaks the agreement: the same checkpoint is listed twice. */
  lemma ReuseListsTwice(id: CheckpointId, first: AgentState, second: AgentState)
    ensures var again := Checkpoint(id, None, 2, second);
            var s := Run(50, [Put(Checkpoint(id, None, 1, first)), Put(again)]);
            && !Agrees(s) && |s.checkpoints| == 1
            && Listed(s.checkpoints, s.order) == [again, again]
  {
    var one, again := Checkpoint(id, None, 1, first), Checkpoint(id, None, 2, second);
    RunNext(50, [], Put(one));
    RunNext(50, [Put(one)], Put(again));
    assert [] + [Put(one)] == [Put(one)] && [Put(one)] + [Put(again)] == [Put(one), Put(again)];
    ReusedStore(one, again);
  }

  lemma ReusedStore(one: Checkpoint, again: Checkpoint)
    requires one.id == again.id
    ensures var s := Create(Create(Empty, 50, one), 50, again);
            && s == Store(map[one.id := again], [one.id, one.id])
            && !Agrees(s) && |s.checkpoints| == 1
            && Listed(s.checkpoints, s.order) == [again, again]
  {
    var id := one.id;
    var s1, s2 := Store(map[id := one], [id]), Store(map[id := again], [id, id]);
    assert Create(Empty, 50, one) == s1 && |s1.checkpoints| == 1;
    assert Create(s1, 50, again) == s2;
    assert s2.order[0] == s2.order[1];
    ListedTwice(s2.checkpoints, id);
  }

  lemma ListedTwice(checkpoints: map<CheckpointId, Checkpoint>, id: CheckpointId)
    requires id in checkpoints
    ensures Listed(checkpoints, [id, id]) == [checkpoints[id], checkpoints[id]]
  {
    assert [id, id][..1] == [id] && [id][..0] == [];
    assert Listed(checkpoints, [id]) == [checkpoints[id]];
  }

  lemma RunNext(max: nat, ops: seq<Op>, op: Op)
    ensures Run(max, ops + [op]) == Apply(Run(max, ops), max, op)
  {
    assert (ops + [op])[..|ops|] == ops;
  }
}
