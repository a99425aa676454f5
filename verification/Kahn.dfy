/** The planner's two versions of Kahn's algorithm: plan validation with a work
    stack, and the peeling of parallel waves. */
module Kahn {
  import opened PlanGraph
  import opened Sequences
  import opened StableSort

  datatype PlanError =
    | MissingDependency(step: nat, dep: nat)
    | SelfDependency(step: nat)
    | CycleDetected

  datatype Validation = Valid | Invalid(error: PlanError)

  // ---- Dependency edges, counted with repetition ----

  type Edge = (nat, nat)  // (dependency, dependent)

  ghost function StepEdges(step: PlanStep, n: nat): seq<Edge>
    requires n <= |step.dependsOn|
  {
    seq(n, i requires 0 <= i < n => (step.dependsOn[i], step.order))
  }

  ghost function Edges(steps: seq<PlanStep>): seq<Edge> {
    if steps == [] then []
    else
      var last := steps[|steps| - 1];
      Edges(steps[..|steps| - 1]) + StepEdges(last, |last.dependsOn|)
  }

  /** Edges into `v` whose source is not in `done`. */
  ghost function Remaining(edges: seq<Edge>, done: set<nat>, v: nat): nat {
    if edges == [] then 0
    else
      var e := edges[|edges| - 1];
      Remaining(edges[..|edges| - 1], done, v) + if e.1 == v && e.0 !in done then 1 else 0
  }

  /** The dependents of `d`, in the order the edges were added. */
  ghost function Targets(edges: seq<Edge>, d: nat): seq<nat> {
    if edges == [] then []
    else
      var e := edges[|edges| - 1];
      Targets(edges[..|edges| - 1], d) + if e.0 == d then [e.1] else []
  }

  lemma {:induction false} EdgeIffDependsOn(steps: seq<PlanStep>, v: nat, d: nat)
    ensures (d, v) in Edges(steps) <==> DependsOn(steps, v, d)
  {
    if steps != [] {
      var init, last := steps[..|steps| - 1], steps[|steps| - 1];
      EdgeIffDependsOn(init, v, d);
      var es := StepEdges(last, |last.dependsOn|);
      assert steps == init + [last];
      if v == last.order && d in last.dependsOn {
        var i :| 0 <= i < |last.dependsOn| && last.dependsOn[i] == d;
        assert es[i] == (d, v);
      }
      if (d, v) in es {
        var i :| 0 <= i < |es| && es[i] == (d, v);
        assert last.dependsOn[i] == d;
      }
    }
  }

  lemma {:induction false} RemainingZero(edges: seq<Edge>, done: set<nat>, v: nat)
    ensures Remaining(edges, done, v) == 0 <==> forall d :: (d, v) in edges ==> d in done
  {
    if edges != [] {
      var init, e := edges[..|edges| - 1], edges[|edges| - 1];
      RemainingZero(init, done, v);
      assert edges == init + [e];
      assert forall d :: (d, v) in edges <==> (d, v) in init || e == (d, v);
    }
  }

  lemma {:induction false} RemainingDrops(edges: seq<Edge>, done: set<nat>, n: nat, v: nat)
    requires n !in done
    ensures Remaining(edges, done, v) == Remaining(edges, done + {n}, v) + multiset(Targets(edges, n))[v]
  {
    if edges != [] {
      RemainingDrops(edges[..|edges| - 1], done, n, v);
    }
  }

  lemma AddEdge(edges: seq<Edge>, e: Edge, done: set<nat>, v: nat, d: nat)
    ensures Remaining(edges + [e], done, v) == Remaining(edges, done, v) + if e.1 == v && e.0 !in done then 1 else 0
    ensures Targets(edges + [e], d) == Targets(edges, d) + if e.0 == d then [e.1] else []
  {
    assert (edges + [e])[..|edges|] == edges;
  }

  // ---- Building in-degrees and adjacency lists ----

  function Neighbors(adjacency: map<nat, seq<nat>>, d: nat): seq<nat> {
    if d in adjacency then adjacency[d] else []
  }

  /** Each listed degree counts the edges from sources that are not done. */
  ghost predicate Degrees(edges: seq<Edge>, done: set<nat>, inDegree: map<nat, nat>) {
    forall v :: v in inDegree ==> inDegree[v] == Remaining(edges, done, v)
  }

  ghost predicate Adjacent(edges: seq<Edge>, adjacency: map<nat, seq<nat>>) {
    forall d :: Neighbors(adjacency, d) == Targets(edges, d)
  }

  /** The two maps describe exactly these steps and edges. */
  ghost predicate Wired(orders: set<nat>, edges: seq<Edge>, inDegree: map<nat, nat>, adjacency: map<nat, seq<nat>>) {
    && inDegree.Keys == orders
    && Degrees(edges, {}, inDegree)
    && Adjacent(edges, adjacency)
    && (forall e :: e in edges ==> e.1 in orders)
  }

  lemma NewOrderKeepsWired(orders: set<nat>, edges: seq<Edge>, inDegree: map<nat, nat>, adjacency: map<nat, seq<nat>>, v: nat)
    requires Wired(orders, edges, inDegree, adjacency)
    ensures v !in inDegree ==> Wired(orders + {v}, edges, inDegree[v := 0], adjacency)
    ensures v in inDegree ==> Wired(orders + {v}, edges, inDegree, adjacency)
  {
    if v !in inDegree {
      RemainingZero(edges, {}, v);
    } else {
      assert orders + {v} == orders;
    }
  }

  lemma NewEdgeKeepsWired(orders: set<nat>, edges: seq<Edge>, inDegree: map<nat, nat>, adjacency: map<nat, seq<nat>>, e: Edge)
    requires Wired(orders, edges, inDegree, adjacency) && e.1 in orders
    ensures Wired(orders, edges + [e], inDegree[e.1 := inDegree[e.1] + 1],
                  adjacency[e.0 := Neighbors(adjacency, e.0) + [e.1]])
  {
    var inDegree' := inDegree[e.1 := inDegree[e.1] + 1];
    var adjacency' := adjacency[e.0 := Neighbors(adjacency, e.0) + [e.1]];
    assert inDegree'.Keys == orders;
    forall v | v in inDegree' ensures inDegree'[v] == Remaining(edges + [e], {}, v) {
      AddEdge(edges, e, {}, v, e.0);
    }
    forall d ensures Neighbors(adjacency', d) == Targets(edges + [e], d) {
      AddEdge(edges, e, {}, e.1, d);
    }
  }

  lemma StepEdgesNext(edges: seq<Edge>, step: PlanStep, j: nat)
    requires j < |step.dependsOn|
    ensures edges + StepEdges(step, j) + [(step.dependsOn[j], step.order)] == edges + StepEdges(step, j + 1)
  {}

  method AddOrder(order: nat, inDegree0: map<nat, nat>, adjacency0: map<nat, seq<nat>>,
                  ghost orders: set<nat>, ghost edges: seq<Edge>)
    returns (inDegree: map<nat, nat>, adjacency: map<nat, seq<nat>>)
    requires Wired(orders, edges, inDegree0, adjacency0)
    ensures Wired(orders + {order}, edges, inDegree, adjacency)
  {
    inDegree, adjacency := inDegree0, adjacency0;
    NewOrderKeepsWired(orders, edges, inDegree, adjacency, order);
    if order !in inDegree {
      inDegree := inDegree[order := 0];
    }
    if order !in adjacency {
      adjacency := adjacency[order := []];
    }
  }

  method AddStep(step: PlanStep, inDegree0: map<nat, nat>, adjacency0: map<nat, seq<nat>>,
                 ghost orders: set<nat>, ghost edges: seq<Edge>)
    returns (inDegree: map<nat, nat>, adjacency: map<nat, seq<nat>>)
    requires Wired(orders, edges, inDegree0, adjacency0)
    ensures Wired(orders + {step.order}, edges + StepEdges(step, |step.dependsOn|), inDegree, adjacency)
  {
    inDegree, adjacency := AddOrder(step.order, inDegree0, adjacency0, orders, edges);
    var j := 0;
    assert edges + StepEdges(step, 0) == edges;
    while j < |step.dependsOn|
      invariant 0 <= j <= |step.dependsOn|
      invariant Wired(orders + {step.order}, edges + StepEdges(step, j), inDegree, adjacency)
    {
      var dep := step.dependsOn[j];
      StepEdgesNext(edges, step, j);
      NewEdgeKeepsWired(orders + {step.order}, edges + StepEdges(step, j), inDegree, adjacency, (dep, step.order));
      adjacency := adjacency[dep := Neighbors(adjacency, dep) + [step.order]];
      inDegree := inDegree[step.order := inDegree[step.order] + 1];
      j := j + 1;
    }
  }

  method BuildGraph(steps: seq<PlanStep>) returns (inDegree: map<nat, nat>, adjacency: map<nat, seq<nat>>)
    ensures Wired(Orders(steps), Edges(steps), inDegree, adjacency)
  {
    inDegree, adjacency := map[], map[];
    var i := 0;
    while i < |steps|
      invariant 0 <= i <= |steps|
      invariant Wired(Orders(steps[..i]), Edges(steps[..i]), inDegree, adjacency)
    {
      inDegree, adjacency := AddStep(steps[i], inDegree, adjacency, Orders(steps[..i]), Edges(steps[..i]));
      GraphNext(steps, i);
      i := i + 1;
    }
    assert steps[..i] == steps;
  }

  lemma GraphNext(steps: seq<PlanStep>, i: nat)
    requires i < |steps|
    ensures Orders(steps[..i + 1]) == Orders(steps[..i]) + {steps[i].order}
    ensures Edges(steps[..i + 1]) == Edges(steps[..i]) + StepEdges(steps[i], |steps[i].dependsOn|)
  {
    assert steps[..i + 1] == steps[..i] + [steps[i]];
    assert steps[..i + 1][..i] == steps[..i];
  }

  /** The keys with degree zero, once each, in whatever order the map yields them. */
  method ZeroDegree(inDegree: map<nat, nat>) returns (q: seq<nat>)
    ensures NoRepeat(q)
    ensures forall v :: v in q <==> v in inDegree && inDegree[v] == 0
  {
    q := [];
    var keys := inDegree.Keys;
    while keys != {}
      invariant keys <= inDegree.Keys
      invariant NoRepeat(q)
      invariant forall v :: v in q <==> v in inDegree && v !in keys && inDegree[v] == 0
    {
      var k :| k in keys;
      keys := keys - {k};
      if inDegree[k] == 0 { q := q + [k]; }
    }
  }

  /** Lowers the degree of every listed neighbour once per listing, and collects the
      neighbours that reach zero. */
  method LowerDegrees(inDegree0: map<nat, nat>, neighbors: seq<nat>) returns (inDegree: map<nat, nat>, freed: seq<nat>)
    requires forall v :: v in inDegree0 ==> multiset(neighbors)[v] <= inDegree0[v]
    ensures inDegree.Keys == inDegree0.Keys
    ensures forall v :: v in inDegree ==> inDegree[v] == inDegree0[v] - multiset(neighbors)[v]
    ensures NoRepeat(freed)
    ensures forall v :: v in freed <==> v in inDegree && inDegree[v] == 0 && inDegree0[v] > 0
  {
    inDegree, freed := inDegree0, [];
    var i := 0;
    while i < |neighbors|
      invariant 0 <= i <= |neighbors|
      invariant inDegree.Keys == inDegree0.Keys
      invariant forall v :: v in inDegree ==> inDegree[v] + multiset(neighbors[..i])[v] == inDegree0[v]
      invariant NoRepeat(freed)
      invariant forall v :: v in freed <==> v in inDegree && inDegree[v] == 0 && inDegree0[v] > 0
    {
      var neighbor := neighbors[i];
      CountedOnce(neighbors, i);
      if neighbor in inDegree {
        var deg := inDegree[neighbor];
        inDegree := inDegree[neighbor := if deg == 0 then 0 else deg - 1];
        if inDegree[neighbor] == 0 {
          freed := freed + [neighbor];
        }
      }
      i := i + 1;
    }
    assert neighbors[..i] == neighbors;
  }

  lemma CountedOnce(s: seq<nat>, i: nat)
    requires i < |s|
    ensures multiset(s[..i + 1]) == multiset(s[..i]) + multiset{s[i]}
    ensures multiset(s[..i])[s[i]] < multiset(s)[s[i]]
  {
    assert s[..i + 1] == s[..i] + [s[i]];
    assert s == s[..i + 1] + s[i + 1..];
  }

  /** Finishing `node` lowers each degree by the node's edges, never below zero. */
  lemma DegreesAfter(edges: seq<Edge>, done: set<nat>, node: nat, inDegree: map<nat, nat>, neighbors: seq<nat>)
    requires Degrees(edges, done, inDegree) && node !in done && neighbors == Targets(edges, node)
    ensures forall v :: v in inDegree ==> multiset(neighbors)[v] <= inDegree[v]
    ensures forall v :: v in inDegree ==> Remaining(edges, done + {node}, v) == inDegree[v] - multiset(neighbors)[v]
  {
    forall v | v in inDegree
      ensures Remaining(edges, done + {node}, v) + multiset(neighbors)[v] == inDegree[v]
    {
      RemainingDrops(edges, done, node, v);
    }
  }

  /** Everything `v` depends on is done. */
  ghost predicate Ready(steps: seq<PlanStep>, done: set<nat>, v: nat) {
    forall d :: DependsOn(steps, v, d) ==> d in done
  }

  lemma DegreeZeroIffReady(steps: seq<PlanStep>, done: set<nat>, inDegree: map<nat, nat>)
    requires Degrees(Edges(steps), done, inDegree)
    ensures forall v :: v in inDegree ==> (inDegree[v] == 0 <==> Ready(steps, done, v))
  {
    forall v | v in inDegree ensures inDegree[v] == 0 <==> Ready(steps, done, v) {
      RemainingZero(Edges(steps), done, v);
      forall d: nat ensures (d, v) in Edges(steps) <==> DependsOn(steps, v, d) {
        EdgeIffDependsOn(steps, v, d);
      }
    }
  }

  // ---- validate_plan ----

  ghost predicate CleanStep(step: PlanStep, orders: set<nat>) {
    forall d: nat :: d in step.dependsOn ==> d in orders && d != step.order
  }

  /** `error` names the first dependency of the step that is missing or the step itself. */
  ghost predicate FirstBadDependency(step: PlanStep, orders: set<nat>, error: PlanError) {
    exists j :: 0 <= j < |step.dependsOn| &&
      var dep := step.dependsOn[j];
      && (forall k :: 0 <= k < j ==> step.dependsOn[k] in orders && step.dependsOn[k] != step.order)
      && (dep !in orders || dep == step.order)
      && error == if dep !in orders then MissingDependency(step.order, dep) else SelfDependency(step.order)
  }

  /** `error` is the first offence of the plan, in the order of its steps. */
  ghost predicate FirstOffence(steps: seq<PlanStep>, error: PlanError) {
    exists i :: 0 <= i < |steps| &&
      FirstBadDependency(steps[i], Orders(steps), error) && forall k :: 0 <= k < i ==> CleanStep(steps[k], Orders(steps))
  }

  method CheckStep(step: PlanStep, orders: set<nat>) returns (r: Validation)
    ensures r.Valid? <==> CleanStep(step, orders)
    ensures r.Invalid? ==> FirstBadDependency(step, orders, r.error)
  {
    var j := 0;
    while j < |step.dependsOn|
      invariant 0 <= j <= |step.dependsOn|
      invariant forall k :: 0 <= k < j ==> step.dependsOn[k] in orders && step.dependsOn[k] != step.order
    {
      var dep := step.dependsOn[j];
      if dep !in orders {
        return Invalid(MissingDependency(step.order, dep));
      }
      if dep == step.order {
        return Invalid(SelfDependency(step.order));
      }
      j := j + 1;
    }
    return Valid;
  }

  /** The reference check over the whole plan. */
  method CheckReferences(steps: seq<PlanStep>) returns (r: Validation)
    ensures r.Valid? <==> DependenciesExist(steps) && NoSelfDependency(steps)
    ensures r.Invalid? ==> !r.error.CycleDetected? && FirstOffence(steps, r.error)
  {
    var orders := Orders(steps);
    var i := 0;
    while i < |steps|
      invariant 0 <= i <= |steps|
      invariant forall k :: 0 <= k < i ==> CleanStep(steps[k], orders)
    {
      r := CheckStep(steps[i], orders);
      if r.Invalid? {
        CleanStepsIff(steps);
        assert steps[i] in steps && !CleanStep(steps[i], orders);
        return;
      }
      i := i + 1;
    }
    CleanStepsIff(steps);
    return Valid;
  }

  ghost predicate NoSelfDependency(steps: seq<PlanStep>) {
    forall v :: !DependsOn(steps, v, v)
  }

  lemma CleanStepsIff(steps: seq<PlanStep>)
    ensures (forall s :: s in steps ==> CleanStep(s, Orders(steps))) <==> DependenciesExist(steps) && NoSelfDependency(steps)
  {
    if DependenciesExist(steps) && NoSelfDependency(steps) {
      forall s | s in steps ensures CleanStep(s, Orders(steps)) {
        assert forall d: nat :: d in s.dependsOn ==> DependsOn(steps, s.order, d);
      }
    } else {
      var v, d :| DependsOn(steps, v, d) && (d !in Orders(steps) || d == v);
      var s :| s in steps && s.order == v && d in s.dependsOn;
      assert !CleanStep(s, Orders(steps));
    }
  }

  /** The stack holds the nodes of degree zero that are not ranked yet. */
  ghost predicate StackHolds(inDegree: map<nat, nat>, queue: seq<nat>, ranked: set<nat>) {
    && NoRepeat(queue)
    && (forall v :: v in queue <==> v in inDegree && inDegree[v] == 0 && v !in ranked)
    && (forall v :: v in ranked ==> v in inDegree && inDegree[v] == 0)
  }

  /** Nodes are ranked by the time they are popped. */
  ghost predicate Popped(steps: seq<PlanStep>, rank: map<nat, nat>) {
    Ranks(steps, rank) && forall v :: v in rank ==> rank[v] < |rank.Keys|
  }

  /** The state of the work-stack loop. */
  ghost predicate Visiting(steps: seq<PlanStep>, inDegree: map<nat, nat>, queue: seq<nat>, rank: map<nat, nat>) {
    && inDegree.Keys == Orders(steps) && Degrees(Edges(steps), rank.Keys, inDegree)
    && StackHolds(inDegree, queue, rank.Keys)
    && Popped(steps, rank)
  }

  /** One iteration of the loop, for the node just taken off the stack. */
  method VisitNode(steps: seq<PlanStep>, node: nat, queue0: seq<nat>, inDegree0: map<nat, nat>,
                   adjacency: map<nat, seq<nat>>, ghost rank: map<nat, nat>)
    returns (inDegree: map<nat, nat>, queue: seq<nat>)
    requires Adjacent(Edges(steps), adjacency) && Visiting(steps, inDegree0, queue0 + [node], rank)
    ensures node !in rank && node in Orders(steps)
    ensures rank[node := |rank.Keys|].Keys == rank.Keys + {node}
    ensures Visiting(steps, inDegree, queue, rank[node := |rank.Keys|])
  {
    TopOfStack(inDegree0, queue0 + [node], rank.Keys);
    var neighbors := Neighbors(adjacency, node);
    DegreesAfter(Edges(steps), rank.Keys, node, inDegree0, neighbors);
    RankNext(steps, inDegree0, rank, node);
    var freed;
    inDegree, freed := LowerDegrees(inDegree0, neighbors);
    PopKeepsStack(inDegree0, queue0, rank.Keys, node, inDegree, freed);
    queue := queue0 + freed;
  }

  /** The work-stack loop: whatever order nodes are popped in, it visits the grounded ones. */
  method VisitAll(steps: seq<PlanStep>, inDegree0: map<nat, nat>, adjacency: map<nat, seq<nat>>)
    returns (visited: nat, ghost rank: map<nat, nat>)
    requires Wired(Orders(steps), Edges(steps), inDegree0, adjacency)
    ensures visited == |GroundedOrders(steps)|
    ensures rank.Keys == GroundedOrders(steps) && Ranks(steps, rank) && Saturated(steps, rank)
  {
    var inDegree := inDegree0;
    var queue := ZeroDegree(inDegree);
    visited, rank := 0, map[];
    assert rank.Keys == {};
    while |queue| > 0
      invariant Visiting(steps, inDegree, queue, rank)
      invariant visited == |rank.Keys|
      decreases Orders(steps) - rank.Keys
    {
      var node := queue[|queue| - 1];
      assert queue == queue[..|queue| - 1] + [node];
      visited := visited + 1;
      inDegree, queue := VisitNode(steps, node, queue[..|queue| - 1], inDegree, adjacency, rank);
      rank := rank[node := |rank.Keys|];
    }
    StuckIsSaturated(steps, inDegree, rank);
    RankedAreGroundedOrders(steps, rank);
  }

  lemma TopOfStack(inDegree: map<nat, nat>, queue: seq<nat>, ranked: set<nat>)
    requires StackHolds(inDegree, queue, ranked) && queue != []
    ensures var node := queue[|queue| - 1];
            node in inDegree && inDegree[node] == 0 && node !in ranked
  {
    assert queue[|queue| - 1] in queue;
  }

  lemma PopKeepsStack(inDegree: map<nat, nat>, queue: seq<nat>, ranked: set<nat>, node: nat,
                      inDegree': map<nat, nat>, freed: seq<nat>)
    requires StackHolds(inDegree, queue + [node], ranked)
    requires inDegree'.Keys == inDegree.Keys && forall v :: v in inDegree ==> inDegree'[v] <= inDegree[v]
    requires NoRepeat(freed) && forall v :: v in freed <==> v in inDegree' && inDegree'[v] == 0 && inDegree[v] > 0
    ensures StackHolds(inDegree', queue + freed, ranked + {node})
  {
    PopLast(queue, node);
    NoRepeatAppend(queue, freed);
  }

  lemma RankNext(steps: seq<PlanStep>, inDegree: map<nat, nat>, rank: map<nat, nat>, node: nat)
    requires Popped(steps, rank) && Degrees(Edges(steps), rank.Keys, inDegree)
    requires node in Orders(steps) && node !in rank && node in inDegree && inDegree[node] == 0
    ensures Popped(steps, rank[node := |rank.Keys|])
    ensures rank[node := |rank.Keys|].Keys == rank.Keys + {node}
  {
    assert rank[node := |rank.Keys|].Keys == rank.Keys + {node};
    assert Ready(steps, rank.Keys, node) by {
      DegreeZeroIffReady(steps, rank.Keys, inDegree);
    }
    RankReady(steps, rank, node, |rank.Keys|);
  }

  lemma RankReady(steps: seq<PlanStep>, rank: map<nat, nat>, node: nat, k: nat)
    requires Ranks(steps, rank) && node in Orders(steps) && node !in rank
    requires Ready(steps, rank.Keys, node) && forall v :: v in rank ==> rank[v] < k
    ensures Ranks(steps, rank[node := k])
  {}

  lemma StuckIsSaturated(steps: seq<PlanStep>, inDegree: map<nat, nat>, rank: map<nat, nat>)
    requires Degrees(Edges(steps), rank.Keys, inDegree)
    requires forall v :: v in Orders(steps) && v !in rank ==> v in inDegree && inDegree[v] != 0
    ensures Saturated(steps, rank)
  {
    DegreeZeroIffReady(steps, rank.Keys, inDegree);
    forall v | v in Orders(steps) && v !in rank ensures exists d :: DependsOn(steps, v, d) && d !in rank {
      assert !Ready(steps, rank.Keys, v);
    }
  }

  lemma PopLast(queue: seq<nat>, node: nat)
    requires NoRepeat(queue + [node])
    ensures NoRepeat(queue) && node !in queue
    ensures forall v :: v in queue + [node] <==> v in queue || v == node
  {
    var stack := queue + [node];
    assert stack[|queue|] == node && forall i :: 0 <= i < |queue| ==> queue[i] == stack[i];
  }

  lemma NoRepeatAppend(a: seq<nat>, b: seq<nat>)
    requires NoRepeat(a) && NoRepeat(b) && forall v :: v in a ==> v !in b
    ensures NoRepeat(a + b)
  {
    assert forall i, j :: 0 <= i < |a| && 0 <= j < |b| ==> a[i] in a && b[j] in b;
  }

  /** The plans that validation reports as cyclic. */
  ghost predicate ReportedCyclic(steps: seq<PlanStep>) {
    && DependenciesExist(steps) && NoSelfDependency(steps)
    && !(DistinctOrders(steps) && Acyclic(steps))
  }

  /** The cycle error when the references are clean: it is right about every plan with
      distinct step numbers, and about an acyclic plan it is wrong exactly when numbers repeat. */
  lemma CycleErrorExactly(steps: seq<PlanStep>)
    requires DependenciesExist(steps) && NoSelfDependency(steps)
    ensures DistinctOrders(steps) ==> (ReportedCyclic(steps) <==> !Acyclic(steps))
    ensures Acyclic(steps) ==> (ReportedCyclic(steps) <==> |Orders(steps)| < |steps|)
    ensures ReportedCyclic(steps) <==> |GroundedOrders(steps)| < |steps|
  {
    OrdersCount(steps);
    SubsetSize(GroundedOrders(steps), Orders(steps));
    AllGroundedIffAcyclic(steps);
    assert GroundedOrders(steps) == Orders(steps) <==> AllGrounded(steps);
  }

  /** Two independent steps that share a number are reported as a cycle, though there is none. */
  method DuplicateReportedAsCycle() returns (steps: seq<PlanStep>, r: Validation)
    ensures DependenciesExist(steps) && NoSelfDependency(steps) && Acyclic(steps)
    ensures r == Invalid(CycleDetected)
  {
    var step := PlanStep(1, "a", Modify, [], Implementer, false);
    steps := [step, step];
    assert steps[0].order == steps[1].order;
    forall p: seq<nat> ensures !Cycle(steps, p) {
      assert |p| > 1 ==> !DependsOn(steps, p[0], p[0 + 1]);
    }
    r := ValidatePlan(steps);
  }

  /** A plan validates exactly when its step numbers are distinct, its dependencies exist,
      and its dependency relation has no cycle. */
  method ValidatePlan(steps: seq<PlanStep>) returns (r: Validation)
    ensures r.Valid? <==> DistinctOrders(steps) && DependenciesExist(steps) && Acyclic(steps)
    ensures r.Invalid? && !r.error.CycleDetected? ==> FirstOffence(steps, r.error)
    ensures r == Invalid(CycleDetected) <==> ReportedCyclic(steps)
  {
    r := CheckReferences(steps);
    if r.Invalid? {
      SelfLoopIsCycle(steps);
      return;
    }
    var inDegree, adjacency := BuildGraph(steps);
    var visited, rank := VisitAll(steps, inDegree, adjacency);
    VisitedAllIff(steps, rank);
    if visited != |steps| {
      return Invalid(CycleDetected);
    }
    return Valid;
  }

  lemma SelfLoopIsCycle(steps: seq<PlanStep>)
    ensures Acyclic(steps) ==> NoSelfDependency(steps)
  {
    forall v | DependsOn(steps, v, v) ensures !Acyclic(steps) {
      assert Cycle(steps, [v, v]);
    }
  }

  lemma LastOrder(init: seq<PlanStep>, last: PlanStep)
    ensures Orders(init + [last]) == Orders(init) + {last.order}
    ensures DistinctOrders(init + [last]) <==> DistinctOrders(init) && last.order !in Orders(init)
  {
    var steps := init + [last];
    assert forall i :: 0 <= i < |init| ==> steps[i] == init[i] && init[i].order in Orders(init);
    if last.order in Orders(init) {
      var i :| 0 <= i < |init| && init[i].order == last.order;
      assert steps[i].order == steps[|init|].order;
    }
  }

  lemma {:induction false} OrdersCount(steps: seq<PlanStep>)
    ensures |Orders(steps)| <= |steps|
    ensures |Orders(steps)| == |steps| <==> DistinctOrders(steps)
  {
    if steps != [] {
      var init, last := steps[..|steps| - 1], steps[|steps| - 1];
      OrdersCount(init);
      LastOrder(init, last);
      assert steps == init + [last];
    }
  }

  lemma VisitedAllIff(steps: seq<PlanStep>, rank: map<nat, nat>)
    requires Ranks(steps, rank) && Saturated(steps, rank) && DependenciesExist(steps)
    ensures |rank.Keys| == |steps| <==> DistinctOrders(steps) && Acyclic(steps)
  {
    OrdersCount(steps);
    SubsetSize(rank.Keys, Orders(steps));
    AllGroundedIffAcyclic(steps);
    RankedAllIff(steps, rank);
  }

  // ---- parallelizable_steps ----

  predicate StrictlyAscending(s: seq<nat>) {
    forall i, j :: 0 <= i < j < |s| ==> s[i] < s[j]
  }

  ghost predicate InWave(waves: seq<seq<nat>>, k: int, v: nat) {
    0 <= k < |waves| && v in waves[k]
  }

  ghost predicate Covered(waves: seq<seq<nat>>, v: nat) {
    exists k :: InWave(waves, k, v)
  }

  /** Step `v` runs in wave `k` exactly when everything it depends on exists and is
      free of cycles and its longest dependency chain has `k + 1` steps. */
  ghost predicate DepthWaves(steps: seq<PlanStep>, waves: seq<seq<nat>>) {
    && (forall k, v :: InWave(waves, k, v) ==> Grounded(steps, v) && LongestChain(steps, v, k + 1))
    && (forall v :: Grounded(steps, v) ==> Covered(waves, v))
    && (forall k :: 0 <= k < |waves| ==> waves[k] != [] && StrictlyAscending(waves[k]))
  }

  /** Removes one wave and lowers the degrees of its dependents. */
  method RetireWave(ghost edges: seq<Edge>, wave: seq<nat>, inDegree0: map<nat, nat>, adjacency: map<nat, seq<nat>>,
                    ghost done: set<nat>) returns (inDegree: map<nat, nat>)
    requires Adjacent(edges, adjacency) && Degrees(edges, done, inDegree0)
    requires NoRepeat(wave) && forall v :: v in wave ==> v !in done
    ensures inDegree.Keys == inDegree0.Keys - Elements(wave)
    ensures Degrees(edges, done + Elements(wave), inDegree)
  {
    inDegree := inDegree0;
    var i := 0;
    assert done + Elements(wave[..0]) == done;
    while i < |wave|
      invariant 0 <= i <= |wave|
      invariant inDegree.Keys == inDegree0.Keys - Elements(wave[..i])
      invariant Degrees(edges, done + Elements(wave[..i]), inDegree)
    {
      ghost var done' := done + Elements(wave[..i]);
      RetireNext(wave, i, done);
      inDegree := inDegree - {wave[i]};
      var neighbors := Neighbors(adjacency, wave[i]);
      DegreesAfter(edges, done', wave[i], inDegree, neighbors);
      var freed;
      inDegree, freed := LowerDegrees(inDegree, neighbors);
      i := i + 1;
    }
    assert wave[..i] == wave;
  }

  lemma RetireNext(wave: seq<nat>, i: nat, done: set<nat>)
    requires i < |wave| && NoRepeat(wave) && forall v :: v in wave ==> v !in done
    ensures wave[i] !in done + Elements(wave[..i])
    ensures Elements(wave[..i + 1]) == Elements(wave[..i]) + {wave[i]}
    ensures done + Elements(wave[..i + 1]) == done + Elements(wave[..i]) + {wave[i]}
  {
    assert wave[..i + 1] == wave[..i] + [wave[i]];
    assert wave[i] in wave;
    assert Elements(wave[..i + 1]) == Elements(wave[..i]) + {wave[i]};
  }

  function Elements(s: seq<nat>): set<nat> {
    set v | v in s
  }

  /** The sort applied to each wave. */
  method SortWave(wave: seq<nat>) returns (sorted: seq<nat>)
    requires NoRepeat(wave)
    ensures StrictlyAscending(sorted)
    ensures |sorted| == |wave| && forall v :: v in sorted <==> v in wave
  {
    var key := (v: nat) => v as real;
    var differ := (a: nat, b: nat) => a != b;
    sorted := Sort(key, wave);
    SortPermutes(key, wave);
    SortStable(key, differ, wave);
    forall i, j | 0 <= i < j < |sorted| ensures sorted[i] < sorted[j] {
      assert Precedes(key, differ, sorted[i], sorted[j]);
    }
  }

  /** The waves list the ranked steps by rank. */
  ghost predicate WavesList(waves: seq<seq<nat>>, rank: map<nat, nat>) {
    && (forall k, v :: InWave(waves, k, v) <==> v in rank && rank[v] == k)
    && (forall v :: v in rank ==> rank[v] < |waves|)
    && (forall k :: 0 <= k < |waves| ==> waves[k] != [] && StrictlyAscending(waves[k]))
  }

  ghost predicate JustFreed(steps: seq<PlanStep>, rank: map<nat, nat>, k: nat, v: nat) {
    exists d :: DependsOn(steps, v, d) && d in rank && rank[d] == k
  }

  /** A step that became ready after `k` waves did so because of the last one. */
  ghost predicate Freed(steps: seq<PlanStep>, inDegree: map<nat, nat>, rank: map<nat, nat>, k: nat) {
    k > 0 ==> forall v :: v in inDegree && inDegree[v] == 0 ==> JustFreed(steps, rank, k - 1, v)
  }

  /** The state of the peeling loop after `k` waves. */
  ghost predicate Peeling(steps: seq<PlanStep>, inDegree: map<nat, nat>, rank: map<nat, nat>, k: nat) {
    && rank.Keys !! inDegree.Keys && rank.Keys + inDegree.Keys == Orders(steps)
    && Degrees(Edges(steps), rank.Keys, inDegree)
    && Ranks(steps, rank) && Tight(steps, rank) && (forall v :: v in rank ==> rank[v] < k)
    && Freed(steps, inDegree, rank, k)
  }

  /** One round of the loop: retires the steps that are ready. */
  method PeelWave(steps: seq<PlanStep>, wave: seq<nat>, inDegree0: map<nat, nat>, adjacency: map<nat, seq<nat>>,
                  ghost rank0: map<nat, nat>, ghost k: nat) returns (inDegree: map<nat, nat>, ghost rank: map<nat, nat>)
    requires Adjacent(Edges(steps), adjacency) && Peeling(steps, inDegree0, rank0, k)
    requires StrictlyAscending(wave) && forall v :: v in wave <==> v in inDegree0 && inDegree0[v] == 0
    ensures inDegree.Keys == inDegree0.Keys - Elements(wave)
    ensures rank == NextRank(rank0, Elements(wave), k)
    ensures Peeling(steps, inDegree, rank, k + 1)
  {
    inDegree := RetireWave(Edges(steps), wave, inDegree0, adjacency, rank0.Keys);
    rank := NextRank(rank0, Elements(wave), k);
    RanksGrow(steps, inDegree0, rank0, wave, k);
    RanksStayTight(steps, inDegree0, rank0, wave, k);
    FreedByWave(steps, inDegree0, rank0, wave, inDegree, k);
  }

  /** For any plan, valid or not, the waves are the grounded steps layered by depth. */
  method ParallelizableSteps(steps: seq<PlanStep>) returns (waves: seq<seq<nat>>)
    ensures DepthWaves(steps, waves)
  {
    var inDegree, adjacency := BuildGraph(steps);
    waves := [];
    ghost var rank: map<nat, nat> := map[];
    assert rank.Keys == {};
    while true
      invariant Peeling(steps, inDegree, rank, |waves|) && WavesList(waves, rank)
      decreases inDegree.Keys
    {
      var wave := ZeroDegree(inDegree);
      if wave == [] {
        break;
      }
      wave := SortWave(wave);
      WavesListNext(steps, inDegree, waves, rank, wave);
      inDegree, rank := PeelWave(steps, wave, inDegree, adjacency, rank, |waves|);
      waves := waves + [wave];
    }
    StuckWavesAreDepthWaves(steps, inDegree, waves, rank);
  }

  lemma StuckWavesAreDepthWaves(steps: seq<PlanStep>, inDegree: map<nat, nat>, waves: seq<seq<nat>>, rank: map<nat, nat>)
    requires Peeling(steps, inDegree, rank, |waves|) && WavesList(waves, rank)
    requires forall v :: v in inDegree ==> inDegree[v] != 0
    ensures DepthWaves(steps, waves)
  {
    StuckIsSaturated(steps, inDegree, rank);
    RankedWavesAreDepthWaves(steps, waves, rank);
  }

  ghost function NextRank(rank: map<nat, nat>, ready: set<nat>, k: nat): (rank': map<nat, nat>)
    ensures rank'.Keys == rank.Keys + ready
  {
    map v | v in rank.Keys + ready :: if v in rank then rank[v] else k
  }

  lemma WavesListNext(steps: seq<PlanStep>, inDegree: map<nat, nat>, waves: seq<seq<nat>>, rank: map<nat, nat>, wave: seq<nat>)
    requires Peeling(steps, inDegree, rank, |waves|) && WavesList(waves, rank)
    requires wave != [] && StrictlyAscending(wave) && forall v :: v in wave ==> v in inDegree
    ensures WavesList(waves + [wave], NextRank(rank, Elements(wave), |waves|))
    ensures inDegree.Keys - Elements(wave) < inDegree.Keys
  {
    assert wave[0] in wave;
    forall k, v ensures InWave(waves + [wave], k, v) <==> if k == |waves| then v in wave else InWave(waves, k, v) {}
  }

  lemma FreedByWave(steps: seq<PlanStep>, inDegree: map<nat, nat>, rank: map<nat, nat>, wave: seq<nat>,
                    inDegree': map<nat, nat>, k: nat)
    requires Degrees(Edges(steps), rank.Keys, inDegree)
    requires forall v :: v in wave <==> v in inDegree && inDegree[v] == 0
    requires inDegree'.Keys == inDegree.Keys - Elements(wave)
    requires Degrees(Edges(steps), rank.Keys + Elements(wave), inDegree')
    ensures Freed(steps, inDegree', NextRank(rank, Elements(wave), k), k + 1)
  {
    var rank' := NextRank(rank, Elements(wave), k);
    DegreeZeroIffReady(steps, rank.Keys, inDegree);
    DegreeZeroIffReady(steps, rank'.Keys, inDegree');
    forall v | v in inDegree' && inDegree'[v] == 0 ensures JustFreed(steps, rank', k, v) {
      assert !Ready(steps, rank.Keys, v) && Ready(steps, rank'.Keys, v);
      var d :| DependsOn(steps, v, d) && d !in rank;
      assert d in rank' && rank'[d] == k;
    }
  }

  lemma RanksGrow(steps: seq<PlanStep>, inDegree: map<nat, nat>, rank: map<nat, nat>, wave: seq<nat>, k: nat)
    requires Peeling(steps, inDegree, rank, k)
    requires forall v :: v in wave <==> v in inDegree && inDegree[v] == 0
    ensures Ranks(steps, NextRank(rank, Elements(wave), k))
  {
    var rank' := NextRank(rank, Elements(wave), k);
    DegreeZeroIffReady(steps, rank.Keys, inDegree);
    forall v, d | v in rank' && DependsOn(steps, v, d) ensures d in rank' && rank'[d] < rank'[v] {
      if v !in rank { assert Ready(steps, rank.Keys, v); }
    }
  }

  lemma RanksStayTight(steps: seq<PlanStep>, inDegree: map<nat, nat>, rank: map<nat, nat>, wave: seq<nat>, k: nat)
    requires Tight(steps, rank) && Freed(steps, inDegree, rank, k)
    requires forall v :: v in wave <==> v in inDegree && inDegree[v] == 0
    ensures Tight(steps, NextRank(rank, Elements(wave), k))
  {
    var rank' := NextRank(rank, Elements(wave), k);
    forall v | v in rank' && rank'[v] > 0
      ensures exists d :: DependsOn(steps, v, d) && d in rank' && rank'[d] == rank'[v] - 1
    {
      assert v !in rank ==> JustFreed(steps, rank, k - 1, v);
      var d :| DependsOn(steps, v, d) && d in rank && rank[d] == rank'[v] - 1;
      assert rank'[d] == rank'[v] - 1;
    }
  }

  lemma RankedWavesAreDepthWaves(steps: seq<PlanStep>, waves: seq<seq<nat>>, rank: map<nat, nat>)
    requires Ranks(steps, rank) && Tight(steps, rank) && Saturated(steps, rank)
    requires WavesList(waves, rank)
    ensures DepthWaves(steps, waves)
  {
    forall k, v | InWave(waves, k, v) ensures Grounded(steps, v) && LongestChain(steps, v, k + 1) {
      RankedIffGrounded(steps, rank, v);
      TightRankIsDepth(steps, rank, v);
    }
    forall v | Grounded(steps, v) ensures Covered(waves, v) {
      RankedIffGrounded(steps, rank, v);
      assert InWave(waves, rank[v], v);
    }
  }

  // ---- What the waves are good for ----

  /** The waves are determined: a grounded step is in the wave of its depth and in no other. */
  lemma WaveIsDepth(steps: seq<PlanStep>, waves: seq<seq<nat>>, k: nat, v: nat)
    requires DepthWaves(steps, waves)
    ensures InWave(waves, k, v) <==> Grounded(steps, v) && LongestChain(steps, v, k + 1)
  {
    if Grounded(steps, v) && LongestChain(steps, v, k + 1) {
      var j :| InWave(waves, j, v);
      assert LongestChain(steps, v, j + 1);
      var p: seq<nat> :| ChainFrom(steps, v, p) && |p| == k + 1;
      var q: seq<nat> :| ChainFrom(steps, v, q) && |q| == j + 1;
    }
  }

  /** Every step of the schedule runs after everything it depends on. */
  ghost predicate RespectsDependencies(steps: seq<PlanStep>, schedule: seq<seq<nat>>) {
    forall k, v, d :: InWave(schedule, k, v) && DependsOn(steps, v, d) ==> exists j :: j < k && InWave(schedule, j, d)
  }

  lemma DependencyIsGrounded(steps: seq<PlanStep>, v: nat, d: nat)
    requires Grounded(steps, v) && DependsOn(steps, v, d)
    ensures Grounded(steps, d)
  {
    forall p: seq<nat> | ChainFrom(steps, d, p) ensures NoRepeat(p) && forall x :: x in p ==> x in Orders(steps) {
      ExtendChain(steps, v, d, p);
      var q := [v] + p;
      assert NoRepeat(q);
      assert forall i :: 0 <= i < |p| ==> p[i] == q[i + 1];
      assert forall x :: x in p ==> x in q;
    }
  }

  /** The waves are a schedule: dependencies always sit in an earlier wave. */
  lemma WavesRespectDependencies(steps: seq<PlanStep>, waves: seq<seq<nat>>)
    requires DepthWaves(steps, waves)
    ensures RespectsDependencies(steps, waves)
  {
    forall k, v, d | InWave(waves, k, v) && DependsOn(steps, v, d) ensures exists j :: j < k && InWave(waves, j, d) {
      DependencyIsGrounded(steps, v, d);
      assert Covered(waves, d);
      var j :| InWave(waves, j, d);
      assert LongestChain(steps, d, j + 1) && LongestChain(steps, v, k + 1);
      var p: seq<nat> :| ChainFrom(steps, d, p) && |p| == j + 1;
      ExtendChain(steps, v, d, p);
    }
  }

  /** The step at the head of a chain cannot run before wave `|p| - 1`. */
  lemma {:induction false} ChainNeedsWaves(steps: seq<PlanStep>, schedule: seq<seq<nat>>, p: seq<nat>, k: nat)
    requires RespectsDependencies(steps, schedule)
    requires Chain(steps, p) && InWave(schedule, k, p[0])
    ensures |p| <= k + 1
    decreases k
  {
    if |p| > 1 {
      assert DependsOn(steps, p[0], p[0 + 1]);
      var j :| j < k && InWave(schedule, j, p[1]);
      TailIsChain(steps, p, 1);
      ChainNeedsWaves(steps, schedule, p[1..], j);
    }
  }

  /** No schedule that runs every step the waves run uses fewer waves. */
  lemma FewestWaves(steps: seq<PlanStep>, waves: seq<seq<nat>>, schedule: seq<seq<nat>>)
    requires DepthWaves(steps, waves)
    requires RespectsDependencies(steps, schedule)
    requires forall v :: Covered(waves, v) ==> Covered(schedule, v)
    ensures |waves| <= |schedule|
  {
    if |waves| > 0 {
      var top := |waves| - 1;
      var v := waves[top][0];
      assert InWave(waves, top, v);
      assert LongestChain(steps, v, top + 1);
      var p: seq<nat> :| ChainFrom(steps, v, p) && |p| == top + 1;
      assert Covered(schedule, v);
      var k :| InWave(schedule, k, v);
      ChainNeedsWaves(steps, schedule, p, k);
    }
  }

  /** The two algorithms agree: a plan validates exactly when its step numbers are
      distinct and the waves cover all of them. */
  lemma VariantsAgree(steps: seq<PlanStep>, waves: seq<seq<nat>>)
    requires DepthWaves(steps, waves)
    ensures DistinctOrders(steps) && DependenciesExist(steps) && Acyclic(steps)
            <==> DistinctOrders(steps) && forall v :: v in Orders(steps) ==> Covered(waves, v)
  {
    AllGroundedIffAcyclic(steps);
    assert forall v :: Covered(waves, v) ==> Grounded(steps, v);
  }
}
