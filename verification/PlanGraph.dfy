/** Implementation plans and what their dependencies mean, stated on chains of
    step numbers and independently of any algorithm. */
module PlanGraph {
  import opened Sequences

  datatype FileOperation = Create | Modify | Delete | Rename(newPath: string)

  datatype AgentRole =
    | Architect | Implementer | Tester | Reviewer
    | Debugger | DevOps | SecurityAuditor | Documenter

  /** One file-level operation of a plan. Prose fields and the effort estimate are not modelled. */
  datatype PlanStep = PlanStep(
    order: nat,
    file: string,
    operation: FileOperation,
    dependsOn: seq<nat>,
    role: AgentRole,
    breaksApi: bool)

  function Orders(steps: seq<PlanStep>): set<nat> {
    set s | s in steps :: s.order
  }

  ghost predicate DistinctOrders(steps: seq<PlanStep>) {
    forall i, j :: 0 <= i < j < |steps| ==> steps[i].order != steps[j].order
  }

  /** Some step numbered `v` lists `d` among its dependencies. */
  ghost predicate DependsOn(steps: seq<PlanStep>, v: nat, d: nat) {
    exists s :: s in steps && s.order == v && d in s.dependsOn
  }

  ghost predicate DependenciesExist(steps: seq<PlanStep>) {
    forall v, d :: DependsOn(steps, v, d) ==> d in Orders(steps)
  }

  /** `p[0]` depends on `p[1]`, which depends on `p[2]`, and so on. */
  ghost predicate Chain(steps: seq<PlanStep>, p: seq<nat>) {
    |p| > 0 && forall i :: 0 <= i < |p| - 1 ==> DependsOn(steps, p[i], p[i + 1])
  }

  ghost predicate ChainFrom(steps: seq<PlanStep>, v: nat, p: seq<nat>) {
    Chain(steps, p) && p[0] == v
  }

  ghost predicate Cycle(steps: seq<PlanStep>, p: seq<nat>) {
    |p| > 1 && Chain(steps, p) && p[0] == p[|p| - 1]
  }

  ghost predicate Acyclic(steps: seq<PlanStep>) {
    forall p: seq<nat> :: !Cycle(steps, p)
  }

  /** Everything `v` depends on, at any distance, exists and is on no cycle; so is `v`. */
  ghost predicate Grounded(steps: seq<PlanStep>, v: nat) {
    forall p: seq<nat> :: ChainFrom(steps, v, p) ==> NoRepeat(p) && forall x :: x in p ==> x in Orders(steps)
  }

  /** The longest dependency chain that starts at `v` has `n` steps. */
  ghost predicate LongestChain(steps: seq<PlanStep>, v: nat, n: nat) {
    && (exists p: seq<nat> :: ChainFrom(steps, v, p) && |p| == n)
    && (forall p: seq<nat> :: ChainFrom(steps, v, p) ==> |p| <= n)
  }

  // ---- Rankings: what a run of Kahn's algorithm leaves behind ----

  /** Every ranked step has all its dependencies ranked strictly lower. */
  ghost predicate Ranks(steps: seq<PlanStep>, rank: map<nat, nat>) {
    && rank.Keys <= Orders(steps)
    && forall v, d :: v in rank && DependsOn(steps, v, d) ==> d in rank && rank[d] < rank[v]
  }

  /** Every step left unranked waits for something unranked. */
  ghost predicate Saturated(steps: seq<PlanStep>, rank: map<nat, nat>) {
    forall v :: v in Orders(steps) && v !in rank ==> exists d :: DependsOn(steps, v, d) && d !in rank
  }

  /** No step is ranked higher than its dependencies force it to be. */
  ghost predicate Tight(steps: seq<PlanStep>, rank: map<nat, nat>) {
    forall v :: v in rank && rank[v] > 0 ==>
      exists d :: DependsOn(steps, v, d) && d in rank && rank[d] == rank[v] - 1
  }

  lemma TailIsChain(steps: seq<PlanStep>, p: seq<nat>, i: nat)
    requires Chain(steps, p) && i < |p|
    ensures ChainFrom(steps, p[i], p[i..])
  {
    forall j | 0 <= j < |p[i..]| - 1 ensures DependsOn(steps, p[i..][j], p[i..][j + 1]) {
      assert DependsOn(steps, p[i + j], p[i + j + 1]);
    }
  }

  lemma ExtendChain(steps: seq<PlanStep>, v: nat, d: nat, p: seq<nat>)
    requires DependsOn(steps, v, d) && ChainFrom(steps, d, p)
    ensures ChainFrom(steps, v, [v] + p)
  {
    var q := [v] + p;
    forall j | 0 <= j < |q| - 1 ensures DependsOn(steps, q[j], q[j + 1]) {
      if j > 0 { assert DependsOn(steps, p[j - 1], p[j]); }
    }
  }

  /** Ranks fall along a chain, so a chain from a ranked step is short and repeats nothing. */
  lemma {:induction false} RankBoundsChain(steps: seq<PlanStep>, rank: map<nat, nat>, p: seq<nat>)
    requires Ranks(steps, rank) && Chain(steps, p) && p[0] in rank
    ensures forall x :: x in p ==> x in rank && rank[x] <= rank[p[0]]
    ensures NoRepeat(p) && |p| <= rank[p[0]] + 1
    decreases |p|
  {
    if |p| > 1 {
      var rest := p[1..];
      assert DependsOn(steps, p[0], p[1]);
      TailIsChain(steps, p, 1);
      RankBoundsChain(steps, rank, rest);
      assert forall j :: 1 <= j < |p| ==> p[j] == rest[j - 1] && rank[p[j]] <= rank[p[1]] < rank[p[0]];
    }
  }

  /** From an unranked step one can walk through unranked steps as far as one likes,
      or until the walk leaves the plan. */
  lemma {:induction false} WalkUnranked(steps: seq<PlanStep>, rank: map<nat, nat>, v: nat, n: nat) returns (p: seq<nat>)
    requires Saturated(steps, rank) && v !in rank
    ensures ChainFrom(steps, v, p)
    ensures |p| == n + 1 || exists x :: x in p && x !in Orders(steps)
    decreases n
  {
    if n == 0 || v !in Orders(steps) {
      p := [v];
    } else {
      var d :| DependsOn(steps, v, d) && d !in rank;
      var rest := WalkUnranked(steps, rank, d, n - 1);
      ExtendChain(steps, v, d, rest);
      p := [v] + rest;
      if |rest| != n {
        var x :| x in rest && x !in Orders(steps);
        assert x in p;
      }
    }
  }

  /** However it was computed, a saturated ranking covers exactly the grounded steps. */
  lemma RankedIffGrounded(steps: seq<PlanStep>, rank: map<nat, nat>, v: nat)
    requires Ranks(steps, rank) && Saturated(steps, rank)
    ensures v in rank <==> Grounded(steps, v)
  {
    if v in rank {
      forall p: seq<nat> | ChainFrom(steps, v, p)
        ensures NoRepeat(p) && forall x :: x in p ==> x in Orders(steps)
      {
        RankBoundsChain(steps, rank, p);
      }
    } else {
      var p := WalkUnranked(steps, rank, v, |Orders(steps)|);
      if NoRepeat(p) && forall x :: x in p ==> x in Orders(steps) {
        Pigeonhole(p, Orders(steps));
      }
    }
  }

  ghost function GroundedOrders(steps: seq<PlanStep>): set<nat> {
    set v | v in Orders(steps) && Grounded(steps, v)
  }

  lemma RankedAreGroundedOrders(steps: seq<PlanStep>, rank: map<nat, nat>)
    requires Ranks(steps, rank) && Saturated(steps, rank)
    ensures rank.Keys == GroundedOrders(steps)
  {
    forall v ensures v in rank <==> v in GroundedOrders(steps) {
      RankedIffGrounded(steps, rank, v);
    }
  }

  lemma {:induction false} TightReachesDown(steps: seq<PlanStep>, rank: map<nat, nat>, v: nat) returns (p: seq<nat>)
    requires Tight(steps, rank) && v in rank
    ensures ChainFrom(steps, v, p) && |p| == rank[v] + 1
    decreases rank[v]
  {
    if rank[v] == 0 {
      p := [v];
    } else {
      var d :| DependsOn(steps, v, d) && d in rank && rank[d] == rank[v] - 1;
      var rest := TightReachesDown(steps, rank, d);
      ExtendChain(steps, v, d, rest);
      p := [v] + rest;
    }
  }

  /** A tight ranking is the longest-chain depth. */
  lemma TightRankIsDepth(steps: seq<PlanStep>, rank: map<nat, nat>, v: nat)
    requires Ranks(steps, rank) && Tight(steps, rank) && v in rank
    ensures LongestChain(steps, v, rank[v] + 1)
  {
    var p := TightReachesDown(steps, rank, v);
    forall q: seq<nat> | ChainFrom(steps, v, q) ensures |q| <= rank[v] + 1 {
      RankBoundsChain(steps, rank, q);
    }
  }

  lemma DependentExists(steps: seq<PlanStep>, v: nat, d: nat)
    requires DependsOn(steps, v, d)
    ensures v in Orders(steps)
  {}

  ghost predicate AllGrounded(steps: seq<PlanStep>) {
    forall v :: v in Orders(steps) ==> Grounded(steps, v)
  }

  /** A plan has only grounded steps exactly when its dependencies exist and form no cycle. */
  lemma AllGroundedIffAcyclic(steps: seq<PlanStep>)
    ensures AllGrounded(steps) <==> DependenciesExist(steps) && Acyclic(steps)
  {
    if AllGrounded(steps) {
      forall v, d | DependsOn(steps, v, d) ensures d in Orders(steps) {
        DependentExists(steps, v, d);
        assert ChainFrom(steps, v, [v, d]);
        assert d in [v, d];
      }
      forall p: seq<nat> ensures !Cycle(steps, p) {
        if Cycle(steps, p) {
          assert DependsOn(steps, p[0], p[0 + 1]);
          DependentExists(steps, p[0], p[0 + 1]);
          assert ChainFrom(steps, p[0], p);
        }
      }
    }
    if DependenciesExist(steps) && Acyclic(steps) {
      forall v | v in Orders(steps) ensures Grounded(steps, v) {
        forall p: seq<nat> | ChainFrom(steps, v, p)
          ensures NoRepeat(p) && forall x :: x in p ==> x in Orders(steps)
        {
          AcyclicChainIsGrounded(steps, p);
        }
      }
    }
  }

  /** A saturated ranking reaches every step exactly when the plan is grounded throughout. */
  lemma RankedAllIff(steps: seq<PlanStep>, rank: map<nat, nat>)
    requires Ranks(steps, rank) && Saturated(steps, rank)
    ensures rank.Keys == Orders(steps) <==> AllGrounded(steps)
  {
    if rank.Keys == Orders(steps) {
      forall v | v in Orders(steps) ensures Grounded(steps, v) {
        RankedIffGrounded(steps, rank, v);
      }
    }
    if AllGrounded(steps) {
      forall v | v in Orders(steps) ensures v in rank {
        RankedIffGrounded(steps, rank, v);
      }
    }
  }

  lemma AcyclicChainIsGrounded(steps: seq<PlanStep>, p: seq<nat>)
    requires DependenciesExist(steps) && Acyclic(steps) && Chain(steps, p) && p[0] in Orders(steps)
    ensures NoRepeat(p) && forall x :: x in p ==> x in Orders(steps)
  {
    forall i | 0 <= i < |p| ensures p[i] in Orders(steps) {
      if i > 0 { assert DependsOn(steps, p[i - 1], p[i - 1 + 1]); }
    }
    forall i, j | 0 <= i < j < |p| ensures p[i] != p[j] {
      var loop := p[i..j + 1];
      forall k | 0 <= k < |loop| - 1 ensures DependsOn(steps, loop[k], loop[k + 1]) {
        assert DependsOn(steps, p[i + k], p[i + k + 1]);
      }
      assert !Cycle(steps, loop);
    }
  }
}
