/** The four plan builders. Each emits an optional first step, one step per file, an
    optional test step and a closing step, and stops at the step limit. */
module PlanBuilders {
  import opened PlanGraph
  import opened Kahn

  datatype PlannerConfig = PlannerConfig(maxSteps: nat, includeTestStrategy: bool)

  /** The numbers from `a` up to but not including `b`. */
  function Range(a: nat, b: nat): seq<nat> {
    if b <= a then [] else seq(b - a, i requires 0 <= i < b - a => a + i)
  }

  function Truncate(steps: seq<PlanStep>, n: nat): seq<PlanStep> {
    if |steps| <= n then steps else steps[..n]
  }

  /** How a builder makes its steps from their numbers. */
  datatype Recipe = Recipe(
    head: seq<PlanStep>,
    fileStep: (nat, string) -> PlanStep,
    tested: bool,
    testStep: nat -> PlanStep,
    lastStep: nat -> PlanStep)

  function Body(r: Recipe, files: seq<string>): seq<PlanStep> {
    r.head + seq(|files|, i requires 0 <= i < |files| => r.fileStep(|r.head| + 1 + i, files[i]))
  }

  /** The plan the builder would produce without a step limit. */
  function Unlimited(r: Recipe, files: seq<string>): seq<PlanStep> {
    var body := Body(r, files);
    if r.tested then body + [r.testStep(|body| + 1), r.lastStep(|body| + 2)] else body + [r.lastStep(|body| + 1)]
  }

  /** The loop over the files, which stops at the step limit. */
  method BuildBody(r: Recipe, files: seq<string>, maxSteps: nat) returns (steps: seq<PlanStep>, order: nat)
    requires |r.head| <= 1
    ensures order == |steps| + 1
    ensures order <= maxSteps ==> steps == Body(r, files)
    ensures order > maxSteps ==> |steps| <= |Body(r, files)| && steps == Body(r, files)[..|steps|]
  {
    ghost var body := Body(r, files);
    steps, order := r.head, |r.head| + 1;
    var i := 0;
    while i < |files|
      invariant 0 <= i <= |files| && order == |r.head| + i + 1
      invariant steps == body[..|r.head| + i]
    {
      if order > maxSteps {
        return;
      }
      steps := steps + [r.fileStep(order, files[i])];
      order := order + 1;
      i := i + 1;
    }
  }

  /** Builds step by step under the limit, as all four planners do, and ends with the final truncation. */
  method Build(r: Recipe, files: seq<string>, maxSteps: nat) returns (steps: seq<PlanStep>)
    requires |r.head| <= 1
    ensures steps == Truncate(Unlimited(r, files), maxSteps)
  {
    var order;
    steps, order := BuildBody(r, files, maxSteps);
    if r.tested && order <= maxSteps {
      steps := steps + [r.testStep(order)];
      order := order + 1;
    }
    if order <= maxSteps {
      steps := steps + [r.lastStep(order)];
    }
    steps := Truncate(steps, maxSteps);
  }

  // ---- What the builders guarantee ----

  /** Steps are numbered from one and depend on lower numbers only. */
  ghost predicate WellNumbered(steps: seq<PlanStep>) {
    forall i :: 0 <= i < |steps| ==>
      steps[i].order == i + 1 && forall d :: d in steps[i].dependsOn ==> 1 <= d <= i
  }

  ghost predicate ValidPlan(steps: seq<PlanStep>) {
    DistinctOrders(steps) && DependenciesExist(steps) && Acyclic(steps)
  }

  lemma {:induction false} DependenciesFall(steps: seq<PlanStep>, p: seq<nat>)
    requires WellNumbered(steps) && Chain(steps, p)
    ensures |p| > 1 ==> p[|p| - 1] < p[0]
    decreases |p|
  {
    if |p| > 1 {
      assert DependsOn(steps, p[0], p[0 + 1]);
      TailIsChain(steps, p, 1);
      DependenciesFall(steps, p[1..]);
    }
  }

  /** A well-numbered plan always passes validation. */
  lemma WellNumberedIsValid(steps: seq<PlanStep>)
    requires WellNumbered(steps)
    ensures ValidPlan(steps)
  {
    forall v, d | DependsOn(steps, v, d) ensures d in Orders(steps) {
      var s :| s in steps && s.order == v && d in s.dependsOn;
      assert steps[d - 1].order == d;
    }
    forall p: seq<nat> ensures !Cycle(steps, p) {
      if Cycle(steps, p) { DependenciesFall(steps, p); }
    }
  }

  lemma TruncateKeepsNumbering(steps: seq<PlanStep>, n: nat)
    requires WellNumbered(steps)
    ensures WellNumbered(Truncate(steps, n))
  {}

  /** The closing step of a plan depends on every other step. */
  ghost predicate ClosedByLast(steps: seq<PlanStep>) {
    && steps != []
    && forall i :: 0 <= i < |steps| - 1 ==> steps[i].order in steps[|steps| - 1].dependsOn
  }

  lemma AllStepsGrounded(steps: seq<PlanStep>, v: nat)
    requires WellNumbered(steps) && 1 <= v <= |steps|
    ensures Grounded(steps, v)
  {
    WellNumberedIsValid(steps);
    AllGroundedIffAcyclic(steps);
    assert steps[v - 1].order == v;
  }

  lemma EmittedIsNumbered(steps: seq<PlanStep>, v: nat)
    requires WellNumbered(steps) && Grounded(steps, v)
    ensures 1 <= v <= |steps|
  {
    assert ChainFrom(steps, v, [v]);
    assert v in [v];
  }

  lemma LastIsDeepest(steps: seq<PlanStep>, waves: seq<seq<nat>>, v: nat, j: nat, k: nat)
    requires WellNumbered(steps) && ClosedByLast(steps) && DepthWaves(steps, waves)
    requires InWave(waves, j, v) && InWave(waves, k, |steps|) && v != |steps|
    ensures j < k
  {
    EmittedIsNumbered(steps, v);
    assert DependsOn(steps, |steps|, v) by {
      assert steps[|steps| - 1] in steps && steps[v - 1].order == v;
    }
    var p: seq<nat> :| ChainFrom(steps, v, p) && |p| == j + 1;
    ExtendChain(steps, |steps|, v, p);
    assert LongestChain(steps, |steps|, k + 1);
  }

  /** The closing step is alone in the last wave. */
  lemma LastStepRunsAlone(steps: seq<PlanStep>, waves: seq<seq<nat>>)
    requires WellNumbered(steps) && ClosedByLast(steps) && DepthWaves(steps, waves)
    ensures |waves| > 0 && waves[|waves| - 1] == [|steps|]
  {
    var n, top := |steps|, |waves| - 1;
    AllStepsGrounded(steps, n);
    assert Covered(waves, n);
    var k :| InWave(waves, k, n);
    var v := waves[top][0];
    assert InWave(waves, top, v);
    if v != n { LastIsDeepest(steps, waves, v, top, k); }
    if |waves[top]| > 1 {
      var w := waves[top][1];
      assert w in waves[top] && v < w;
      assert InWave(waves, top, w);
      LastIsDeepest(steps, waves, w, top, top);
    }
  }

  // ---- The four recipes ----

  /** Turns paths into step parameters; the string heuristics behind them are not modelled. */
  datatype Naming = Naming(testFileOf: string -> string, roleOf: string -> AgentRole)

  function ReviewStep(order: nat): PlanStep {
    PlanStep(order, "", Modify, Range(1, order), Reviewer, false)
  }

  function FeatureRecipe(config: PlannerConfig, names: Naming, interfaceFile: string, existingFiles: seq<string>): Recipe {
    Recipe(
      [PlanStep(1, interfaceFile, if interfaceFile in existingFiles then Modify else Create, [], Architect, false)],
      (order: nat, file: string) => PlanStep(order, file, Modify, [1], names.roleOf(file), false),
      config.includeTestStrategy, (order: nat) => PlanStep(order, names.testFileOf(interfaceFile), Create, Range(1, order), Tester, false),
      (order: nat) => ReviewStep(order))
  }

  function BugfixRecipe(config: PlannerConfig, names: Naming, affectedFiles: seq<string>): Recipe {
    var primaryFile := if affectedFiles == [] then "unknown" else affectedFiles[0];
    Recipe(
      [PlanStep(1, primaryFile, Modify, [], Debugger, false)],
      (order: nat, file: string) => PlanStep(order, file, Modify, [1], Implementer, false),
      config.includeTestStrategy, (order: nat) => PlanStep(order, names.testFileOf(primaryFile), Modify, Range(2, order), Tester, false),
      (order: nat) => ReviewStep(order))
  }

  function RefactorRecipe(config: PlannerConfig, names: Naming, target: string): Recipe {
    Recipe(
      [PlanStep(1, target, Modify, [], Architect, false)],
      (order: nat, file: string) => PlanStep(order, file, Modify, [1], Implementer, file == target),
      config.includeTestStrategy, (order: nat) => PlanStep(order, names.testFileOf(target), Modify, Range(2, order), Tester, false),
      (order: nat) => ReviewStep(order))
  }

  function TestsRecipe(names: Naming): Recipe {
    Recipe(
      [],
      (order: nat, file: string) => PlanStep(order, names.testFileOf(file), Create, [], Tester, false),
      false, (order: nat) => PlanStep(order, "", Modify, [], Tester, false),
      (order: nat) => PlanStep(order, "", Modify, Range(1, order), Tester, false))
  }

  /** What makes a recipe sound: correct numbers, dependencies on earlier steps only, and a
      closing step that depends on everything. */
  ghost predicate Sound(r: Recipe) {
    && |r.head| <= 1 && WellNumbered(r.head)
    && (forall n: nat, f: string :: r.fileStep(n, f).order == n && forall d :: d in r.fileStep(n, f).dependsOn ==> d == 1 && r.head != [])
    && (forall n: nat :: r.testStep(n).order == n && forall d :: d in r.testStep(n).dependsOn ==> 1 <= d < n)
    && (forall n: nat :: r.lastStep(n).order == n && forall d: nat :: d in r.lastStep(n).dependsOn <==> 1 <= d < n)
  }

  lemma RangeMembers(a: nat, b: nat, d: nat)
    ensures d in Range(a, b) <==> a <= d < b
  {
    if a <= d < b {
      assert Range(a, b)[d - a] == d;
    }
  }

  lemma RangesAreExact()
    ensures forall a: nat, b: nat, d: nat :: d in Range(a, b) <==> a <= d < b
  {
    forall a: nat, b: nat, d: nat ensures d in Range(a, b) <==> a <= d < b {
      RangeMembers(a, b, d);
    }
  }

  lemma FeatureRecipeIsSound(config: PlannerConfig, names: Naming, file: string, files: seq<string>)
    ensures Sound(FeatureRecipe(config, names, file, files))
  {
    RangesAreExact();
  }

  lemma BugfixRecipeIsSound(config: PlannerConfig, names: Naming, files: seq<string>)
    ensures Sound(BugfixRecipe(config, names, files))
  {
    RangesAreExact();
  }

  lemma RefactorRecipeIsSound(config: PlannerConfig, names: Naming, target: string)
    ensures Sound(RefactorRecipe(config, names, target))
  {
    RangesAreExact();
  }

  lemma TestsRecipeIsSound(names: Naming)
    ensures Sound(TestsRecipe(names))
  {
    RangesAreExact();
  }

  lemma SoundPlan(r: Recipe, files: seq<string>)
    requires Sound(r)
    ensures WellNumbered(Unlimited(r, files)) && ClosedByLast(Unlimited(r, files))
    ensures |Unlimited(r, files)| == |r.head| + |files| + if r.tested then 2 else 1
  {}

  /** What every planner promises: a numbered, valid plan within the limit which, when
      nothing was cut off, ends with a step that depends on all the others. */
  ghost predicate Planned(steps: seq<PlanStep>, maxSteps: nat, unlimited: nat) {
    && |steps| == (if unlimited <= maxSteps then unlimited else maxSteps)
    && WellNumbered(steps) && ValidPlan(steps)
    && (unlimited <= maxSteps ==> ClosedByLast(steps))
  }

  lemma TruncatedPlan(r: Recipe, files: seq<string>, maxSteps: nat)
    requires Sound(r)
    ensures Planned(Truncate(Unlimited(r, files), maxSteps), maxSteps,
                    |r.head| + |files| + if r.tested then 2 else 1)
  {
    SoundPlan(r, files);
    TruncateKeepsNumbering(Unlimited(r, files), maxSteps);
    WellNumberedIsValid(Truncate(Unlimited(r, files), maxSteps));
  }

  // ---- What each builder puts into its steps ----

  /** `deps` are the numbers from `a` up to but not including `b`, in order. */
  ghost predicate Counts(deps: seq<nat>, a: nat, b: nat) {
    a + |deps| == b && forall k :: 0 <= k < |deps| ==> deps[k] == a + k
  }

  ghost predicate IsReview(s: PlanStep) {
    s.file == "" && s.operation == Modify && s.role == Reviewer && !s.breaksApi && Counts(s.dependsOn, 1, s.order)
  }

  /** The design comes first, every existing file follows it, the tests depend on all of
      these, and the review on everything. */
  ghost predicate FeatureStep(config: PlannerConfig, names: Naming, interfaceFile: string, files: seq<string>, s: PlanStep) {
    if s.order == 1 then
      && s.file == interfaceFile && s.role == Architect && s.dependsOn == [] && !s.breaksApi
      && s.operation == (if interfaceFile in files then Modify else Create)
    else if 2 <= s.order <= |files| + 1 then
      && s.file == files[s.order - 2] && s.operation == Modify && s.dependsOn == [1]
      && s.role == names.roleOf(s.file) && !s.breaksApi
    else if config.includeTestStrategy && s.order == |files| + 2 then
      && s.file == names.testFileOf(interfaceFile) && s.operation == Create && s.role == Tester
      && Counts(s.dependsOn, 1, s.order) && !s.breaksApi
    else IsReview(s)
  }

  /** The investigation of the first affected file comes first, every fix follows it, the
      tests depend on the fixes only, and the review on everything. */
  ghost predicate BugfixStep(config: PlannerConfig, names: Naming, files: seq<string>, s: PlanStep) {
    var primary := if files == [] then "unknown" else files[0];
    if s.order == 1 then
      s.file == primary && s.operation == Modify && s.role == Debugger && s.dependsOn == [] && !s.breaksApi
    else if 2 <= s.order <= |files| + 1 then
      && s.file == files[s.order - 2] && s.operation == Modify && s.dependsOn == [1]
      && s.role == Implementer && !s.breaksApi
    else if config.includeTestStrategy && s.order == |files| + 2 then
      && s.file == names.testFileOf(primary) && s.operation == Modify && s.role == Tester
      && Counts(s.dependsOn, 2, s.order) && !s.breaksApi
    else IsReview(s)
  }

  /** As for bug fixes, with the scope of the target first; only the changes of the target
      itself are marked as breaking its interface. */
  ghost predicate RefactorStep(config: PlannerConfig, names: Naming, target: string, files: seq<string>, s: PlanStep) {
    if s.order == 1 then
      s.file == target && s.operation == Modify && s.role == Architect && s.dependsOn == [] && !s.breaksApi
    else if 2 <= s.order <= |files| + 1 then
      && s.file == files[s.order - 2] && s.operation == Modify && s.dependsOn == [1]
      && s.role == Implementer && (s.breaksApi <==> s.file == target)
    else if config.includeTestStrategy && s.order == |files| + 2 then
      && s.file == names.testFileOf(target) && s.operation == Modify && s.role == Tester
      && Counts(s.dependsOn, 2, s.order) && !s.breaksApi
    else IsReview(s)
  }

  /** Independent test files, then one step that runs them all. */
  ghost predicate TestsStep(names: Naming, files: seq<string>, s: PlanStep) {
    && s.role == Tester && !s.breaksApi
    && if 1 <= s.order <= |files| then
         s.file == names.testFileOf(files[s.order - 1]) && s.operation == Create && s.dependsOn == []
       else s.file == "" && s.operation == Modify && Counts(s.dependsOn, 1, s.order)
  }

  /** Which part of the recipe each step of a cut plan comes from. */
  lemma StepOfPlan(r: Recipe, files: seq<string>, maxSteps: nat, i: nat)
    requires i < |Truncate(Unlimited(r, files), maxSteps)|
    ensures var h, n, s := |r.head|, |files|, Truncate(Unlimited(r, files), maxSteps)[i];
            s == if i < h then r.head[i]
                 else if i < h + n then r.fileStep(i + 1, files[i - h])
                 else if r.tested && i == h + n then r.testStep(i + 1)
                 else r.lastStep(i + 1)
  {
    var body := Body(r, files);
    assert Truncate(Unlimited(r, files), maxSteps)[i] == Unlimited(r, files)[i];
  }

  method PlanFeature(config: PlannerConfig, names: Naming, interfaceFile: string, existingFiles: seq<string>)
    returns (steps: seq<PlanStep>)
    ensures steps == Truncate(Unlimited(FeatureRecipe(config, names, interfaceFile, existingFiles), existingFiles), config.maxSteps)
    ensures Planned(steps, config.maxSteps, |existingFiles| + if config.includeTestStrategy then 3 else 2)
    ensures forall i :: 0 <= i < |steps| ==> steps[i].order == i + 1 && FeatureStep(config, names, interfaceFile, existingFiles, steps[i])
  {
    FeatureRecipeIsSound(config, names, interfaceFile, existingFiles);
    var recipe := FeatureRecipe(config, names, interfaceFile, existingFiles);
    TruncatedPlan(recipe, existingFiles, config.maxSteps);
    steps := Build(recipe, existingFiles, config.maxSteps);
    forall i | 0 <= i < |steps| ensures steps[i].order == i + 1 && FeatureStep(config, names, interfaceFile, existingFiles, steps[i]) {
      StepOfPlan(FeatureRecipe(config, names, interfaceFile, existingFiles), existingFiles, config.maxSteps, i);
    }
  }

  method PlanBugfix(config: PlannerConfig, names: Naming, affectedFiles: seq<string>) returns (steps: seq<PlanStep>)
    ensures steps == Truncate(Unlimited(BugfixRecipe(config, names, affectedFiles), affectedFiles), config.maxSteps)
    ensures Planned(steps, config.maxSteps, |affectedFiles| + if config.includeTestStrategy then 3 else 2)
    ensures forall i :: 0 <= i < |steps| ==> steps[i].order == i + 1 && BugfixStep(config, names, affectedFiles, steps[i])
  {
    BugfixRecipeIsSound(config, names, affectedFiles);
    var recipe := BugfixRecipe(config, names, affectedFiles);
    TruncatedPlan(recipe, affectedFiles, config.maxSteps);
    steps := Build(recipe, affectedFiles, config.maxSteps);
    forall i | 0 <= i < |steps| ensures steps[i].order == i + 1 && BugfixStep(config, names, affectedFiles, steps[i]) {
      StepOfPlan(BugfixRecipe(config, names, affectedFiles), affectedFiles, config.maxSteps, i);
    }
  }

  method PlanRefactor(config: PlannerConfig, names: Naming, target: string, affectedFiles: seq<string>)
    returns (steps: seq<PlanStep>)
    ensures steps == Truncate(Unlimited(RefactorRecipe(config, names, target), affectedFiles), config.maxSteps)
    ensures Planned(steps, config.maxSteps, |affectedFiles| + if config.includeTestStrategy then 3 else 2)
    ensures forall i :: 0 <= i < |steps| ==> steps[i].order == i + 1 && RefactorStep(config, names, target, affectedFiles, steps[i])
  {
    RefactorRecipeIsSound(config, names, target);
    var recipe := RefactorRecipe(config, names, target);
    TruncatedPlan(recipe, affectedFiles, config.maxSteps);
    steps := Build(recipe, affectedFiles, config.maxSteps);
    forall i | 0 <= i < |steps| ensures steps[i].order == i + 1 && RefactorStep(config, names, target, affectedFiles, steps[i]) {
      StepOfPlan(RefactorRecipe(config, names, target), affectedFiles, config.maxSteps, i);
    }
  }

  method PlanTests(config: PlannerConfig, names: Naming, sourceFiles: seq<string>) returns (steps: seq<PlanStep>)
    ensures steps == Truncate(Unlimited(TestsRecipe(names), sourceFiles), config.maxSteps)
    ensures Planned(steps, config.maxSteps, |sourceFiles| + 1)
    ensures forall i :: 0 <= i < |steps| ==> steps[i].order == i + 1 && TestsStep(names, sourceFiles, steps[i])
  {
    TestsRecipeIsSound(names);
    TruncatedPlan(TestsRecipe(names), sourceFiles, config.maxSteps);
    steps := Build(TestsRecipe(names), sourceFiles, config.maxSteps);
    forall i | 0 <= i < |steps| ensures steps[i].order == i + 1 && TestsStep(names, sourceFiles, steps[i]) {
      StepOfPlan(TestsRecipe(names), sourceFiles, config.maxSteps, i);
    }
  }
}
