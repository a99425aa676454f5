/** Any number of concurrent `process_batch` calls on one shared processor. Each lock
    section is one step; the processing in between is private to its call. */
module BatchSystem {
  import opened Batching
  import opened StableSort
  import opened Wrappers

  datatype Phase = Taken | Numbered(batchId: nat) | Recorded(result: BatchResult)

  type Processor = Request -> Outcome

  /** The shared fields, and for every call so far its batch, its processor, and how far it has come. */
  datatype State = State(
    log: seq<Request>,
    pending: seq<nat>,
    batches: seq<seq<nat>>,
    processors: seq<Processor>,
    phases: seq<Phase>,
    batchCounter: nat,
    totalRequests: nat,
    totalCompleted: nat,
    totalFailed: nat,
    completed: seq<BatchResult>)

  datatype Step =
    | Enqueue(request: Request)
    | Take(processor: Processor)
    | Number(call: nat)
    | Record(call: nat)

  const Start := State([], [], [], [], [], 0, 0, 0, 0, [])

  /** Each call takes its batch, gets its number and records its report, in this order. */
  predicate Enabled(s: State, step: Step) {
    match step
    case Enqueue(_) => true
    case Take(_) => true
    case Number(call) => call < |s.phases| && s.phases[call].Taken?
    case Record(call) => call < |s.phases| && s.phases[call].Numbered?
  }

  /** The report of a numbered call: its own processor applied to its own batch. */
  function CallReport(config: BatchConfig, s: State, call: nat): BatchResult
    requires call < |s.batches| && call < |s.processors| && call < |s.phases|
  {
    Report(config, BatchId(s.phases[call]), Lookup(s.log, s.batches[call]), s.processors[call])
  }

  function Apply(config: BatchConfig, s: State, step: Step): State {
    match step
    case Enqueue(request) =>
      s.(log := s.log + [request], pending := s.pending + [|s.log|], totalRequests := s.totalRequests + 1)
    case Take(processor) =>
      s.(pending := Rest(s.log, s.pending, config.maxBatchSize),
         batches := s.batches + [Batch(s.log, s.pending, config.maxBatchSize)],
         processors := s.processors + [processor],
         phases := s.phases + [Taken])
    case Number(call) =>
      if call < |s.phases| then
        s.(batchCounter := s.batchCounter + 1, phases := s.phases[call := Numbered(s.batchCounter + 1)])
      else s
    case Record(call) =>
      if call < |s.phases| && call < |s.batches| && call < |s.processors| then
        Recording(s, call, CallReport(config, s, call))
      else s
  }

  function Recording(s: State, call: nat, result: BatchResult): State
    requires call < |s.phases|
  {
    s.(phases := s.phases[call := Recorded(result)],
       totalCompleted := s.totalCompleted + result.succeeded,
       totalFailed := s.totalFailed + result.failed,
       completed := s.completed + [result])
  }

  function Exec(config: BatchConfig, s: State, steps: seq<Step>): State
    decreases |steps|
  {
    if steps == [] then s else Exec(config, Apply(config, s, steps[0]), steps[1..])
  }

  ghost predicate Legal(config: BatchConfig, s: State, steps: seq<Step>)
    decreases |steps|
  {
    steps == [] || (Enabled(s, steps[0]) && Legal(config, Apply(config, s, steps[0]), steps[1..]))
  }

  // ---- Tickets: no request is lost, invented or served twice ----

  function Flatten(batches: seq<seq<nat>>): seq<nat> {
    if batches == [] then [] else Flatten(batches[..|batches| - 1]) + batches[|batches| - 1]
  }

  function Numbers(n: nat): seq<nat> {
    seq(n, i requires 0 <= i < n => i)
  }

  /** Requests in the order served, followed by those still waiting. */
  function Line(s: State): seq<nat> {
    Flatten(s.batches) + s.pending
  }

  ghost predicate TicketsKept(s: State) {
    multiset(Line(s)) == multiset(Numbers(|s.log|))
  }

  lemma LineAfterEnqueue(config: BatchConfig, s: State, request: Request)
    ensures Line(Apply(config, s, Enqueue(request))) == Line(s) + [|s.log|]
    ensures multiset(Line(Apply(config, s, Enqueue(request)))) == multiset(Line(s)) + multiset([|s.log|])
  {
    var line := Line(Apply(config, s, Enqueue(request)));
    assert line == Line(s) + [|s.log|];
  }

  lemma LineAfterTake(config: BatchConfig, s: State, processor: Processor)
    requires Fair(s.log, s.pending)
    ensures Line(Apply(config, s, Take(processor))) == Flatten(s.batches) + Arranged(s.log, s.pending)
    ensures multiset(Line(Apply(config, s, Take(processor)))) == multiset(Line(s))
  {
    TakeIsNextBatch(s.log, s.pending, config.maxBatchSize);
    var batch, rest := Batch(s.log, s.pending, config.maxBatchSize), Rest(s.log, s.pending, config.maxBatchSize);
    var batches := s.batches + [batch];
    assert batches[..|batches| - 1] == s.batches;
    assert Flatten(s.batches) + batch + rest == Flatten(s.batches) + (batch + rest);
  }

  lemma NumbersNext(n: nat)
    ensures multiset(Numbers(n + 1)) == multiset(Numbers(n)) + multiset([n])
  {
    assert Numbers(n + 1) == Numbers(n) + [n];
  }

  lemma EnqueueKeepsTickets(config: BatchConfig, s: State, request: Request)
    requires TicketsKept(s)
    ensures TicketsKept(Apply(config, s, Enqueue(request)))
  {
    LineAfterEnqueue(config, s, request);
    NumbersNext(|s.log|);
  }

  lemma TakeKeepsLine(config: BatchConfig, s: State, processor: Processor)
    requires TicketsKept(s) && Fair(s.log, s.pending)
    ensures TicketsKept(Apply(config, s, Take(processor)))
  {
    LineAfterTake(config, s, processor);
  }

  lemma StepKeepsTickets(config: BatchConfig, s: State, step: Step)
    requires TicketsKept(s) && Fair(s.log, s.pending)
    ensures TicketsKept(Apply(config, s, step))
  {
    match step
    case Enqueue(request) => EnqueueKeepsTickets(config, s, request);
    case Take(processor) => TakeKeepsLine(config, s, processor);
    case Number(_) =>
    case Record(_) =>
  }

  lemma MembersOfLine(s: State, t: nat)
    requires TicketsKept(s)
    ensures t in Line(s) <==> t < |s.log|
  {
    assert t in Line(s) <==> t in multiset(Numbers(|s.log|));
    if t < |s.log| { assert Numbers(|s.log|)[t] == t; }
  }

  lemma PendingIsFair(s: State)
    requires Fair(s.log, Line(s))
    ensures Fair(s.log, s.pending)
  {
    var n := |Flatten(s.batches)|;
    assert forall i :: 0 <= i < |s.pending| ==> s.pending[i] == Line(s)[n + i];
  }

  /** Requests of equal priority are served in arrival order, across all batches. */
  lemma StepKeepsFair(config: BatchConfig, s: State, step: Step)
    requires TicketsKept(s) && Fair(s.log, Line(s))
    ensures Fair(Apply(config, s, step).log, Line(Apply(config, s, step)))
  {
    PendingIsFair(s);
    match step
    case Enqueue(request) =>
      forall t | t in Line(s) ensures t < |s.log| { MembersOfLine(s, t); }
      EnqueueKeepsFair(s.log, Line(s), request);
      LineAfterEnqueue(config, s, request);
    case Take(processor) =>
      LineAfterTake(config, s, processor);
      TakeIsNextBatch(s.log, s.pending, config.maxBatchSize);
      FairAcross(s.log, Flatten(s.batches), s.pending, Arranged(s.log, s.pending));
    case Number(_) =>
    case Record(_) =>
  }

  lemma FairAcross(log: seq<Request>, served: seq<nat>, pending: seq<nat>, sorted: seq<nat>)
    requires Fair(log, served + pending) && Fair(log, sorted) && multiset(sorted) == multiset(pending)
    ensures Fair(log, served + sorted)
  {
    var line, line' := served + pending, served + sorted;
    forall i, j | 0 <= i < j < |line'| && Fetch(log)(line'[i]).priority == Fetch(log)(line'[j]).priority
      ensures line'[i] < line'[j]
    {
      if i < |served| <= j {
        assert sorted[j - |served|] in multiset(pending);
        var k :| 0 <= k < |pending| && pending[k] == line'[j];
        assert line[i] == line'[i] && line[|served| + k] == line'[j];
      } else if j < |served| {
        assert line[i] == line'[i] && line[j] == line'[j];
      }
    }
  }

  // ---- Counting ----

  function InFlight(batches: seq<seq<nat>>, phases: seq<Phase>): nat
    requires |batches| == |phases|
  {
    if batches == [] then 0
    else
      var n := |batches| - 1;
      InFlight(batches[..n], phases[..n]) + if phases[n].Recorded? then 0 else |batches[n]|
  }

  function Handled(completed: seq<BatchResult>): nat {
    if completed == [] then 0 else Handled(completed[..|completed| - 1]) + completed[|completed| - 1].Total()
  }

  function Succeeded(completed: seq<BatchResult>): nat {
    if completed == [] then 0 else Succeeded(completed[..|completed| - 1]) + completed[|completed| - 1].succeeded
  }

  function Failed(completed: seq<BatchResult>): nat {
    if completed == [] then 0 else Failed(completed[..|completed| - 1]) + completed[|completed| - 1].failed
  }

  /** Every request is waiting, in flight, or accounted for by a recorded batch. */
  ghost predicate Conserved(s: State) {
    && |s.batches| == |s.phases| == |s.processors|
    && s.totalRequests == |s.log|
    && s.totalRequests == |s.pending| + InFlight(s.batches, s.phases) + Handled(s.completed)
    && s.totalCompleted == Succeeded(s.completed)
    && s.totalFailed == Failed(s.completed)
  }

  lemma {:induction false} PhaseChangeInFlight(batches: seq<seq<nat>>, phases: seq<Phase>, c: nat, phase: Phase)
    requires |batches| == |phases| && c < |phases| && !phases[c].Recorded?
    ensures InFlight(batches, phases[c := phase]) + (if phase.Recorded? then |batches[c]| else 0) == InFlight(batches, phases)
    decreases |batches|
  {
    var n := |batches| - 1;
    if c < n {
      PhaseChangeInFlight(batches[..n], phases[..n], c, phase);
      assert phases[c := phase][..n] == phases[..n][c := phase];
    } else {
      assert phases[c := phase][..n] == phases[..n];
    }
  }

  lemma TakeKeepsConserved(config: BatchConfig, s: State, processor: Processor)
    requires Conserved(s)
    ensures Conserved(Apply(config, s, Take(processor)))
  {
    var s' := Apply(config, s, Take(processor));
    var batch := Batch(s.log, s.pending, config.maxBatchSize);
    BatchSize(config, s);
    assert s'.batches[..|s.batches|] == s.batches && s'.phases[..|s.phases|] == s.phases;
    assert InFlight(s'.batches, s'.phases) == InFlight(s.batches, s.phases) + |batch|;
  }

  lemma BatchSize(config: BatchConfig, s: State)
    ensures |Batch(s.log, s.pending, config.maxBatchSize)| + |Rest(s.log, s.pending, config.maxBatchSize)| == |s.pending|
  {
    SortPermutes(Urgency(s.log), s.pending);
  }

  lemma TotalsNext(completed: seq<BatchResult>, result: BatchResult)
    ensures Handled(completed + [result]) == Handled(completed) + result.Total()
    ensures Succeeded(completed + [result]) == Succeeded(completed) + result.succeeded
    ensures Failed(completed + [result]) == Failed(completed) + result.failed
  {
    assert (completed + [result])[..|completed|] == completed;
  }

  lemma RecordingKeepsConserved(s: State, call: nat, result: BatchResult)
    requires Conserved(s) && call < |s.phases| && s.phases[call].Numbered?
    requires result.Total() == |s.batches[call]|
    ensures Conserved(Recording(s, call, result))
  {
    PhaseChangeInFlight(s.batches, s.phases, call, Recorded(result));
    TotalsNext(s.completed, result);
  }

  lemma StepKeepsConserved(config: BatchConfig, s: State, step: Step)
    requires Conserved(s) && Enabled(s, step)
    ensures Conserved(Apply(config, s, step))
  {
    match step
    case Enqueue(_) =>
    case Take(processor) => TakeKeepsConserved(config, s, processor);
    case Number(call) =>
      PhaseChangeInFlight(s.batches, s.phases, call, Numbered(s.batchCounter + 1));
    case Record(call) =>
      ReportIsPrefix(config, BatchId(s.phases[call]), Lookup(s.log, s.batches[call]), s.processors[call]);
      RecordingKeepsConserved(s, call, CallReport(config, s, call));
  }

  // ---- Batch numbers and reports ----

  function BatchId(p: Phase): nat {
    match p
    case Taken => 0
    case Numbered(id) => id
    case Recorded(result) => result.batchId
  }

  /** Numbers are handed out once each. */
  ghost predicate Numbering(s: State) {
    && (forall c :: 0 <= c < |s.phases| && !s.phases[c].Taken? ==> 0 < BatchId(s.phases[c]) <= s.batchCounter)
    && (forall c, d :: 0 <= c < d < |s.phases| && !s.phases[c].Taken? && !s.phases[d].Taken? ==>
          BatchId(s.phases[c]) != BatchId(s.phases[d]))
  }

  /** Every recorded call has recorded the report of its own processor over its own batch. */
  ghost predicate Honest(config: BatchConfig, s: State) {
    && |s.batches| == |s.phases| == |s.processors|
    && (forall c :: 0 <= c < |s.phases| ==> Issued(s.log, s.batches[c]))
    && (forall c :: 0 <= c < |s.phases| && s.phases[c].Recorded? ==> s.phases[c].result == CallReport(config, s, c))
  }

  /** The completed list holds the results of the recorded calls and nothing else. */
  ghost predicate Listed(s: State) {
    && (forall c :: 0 <= c < |s.phases| && s.phases[c].Recorded? ==> s.phases[c].result in s.completed)
    && (forall r :: r in s.completed ==> exists c :: 0 <= c < |s.phases| && s.phases[c] == Recorded(r))
  }

  ghost predicate Labelled(config: BatchConfig, s: State) {
    Numbering(s) && Honest(config, s) && Listed(s)
  }

  lemma LookupInLongerLog(log: seq<Request>, request: Request, batch: seq<nat>)
    requires Issued(log, batch)
    ensures Lookup(log + [request], batch) == Lookup(log, batch)
  {
    assert forall i :: 0 <= i < |batch| ==> batch[i] in batch;
  }

  lemma StepKeepsHonest(config: BatchConfig, s: State, step: Step)
    requires Honest(config, s) && Enabled(s, step) && TicketsKept(s)
    ensures Honest(config, Apply(config, s, step))
  {
    var s' := Apply(config, s, step);
    match step
    case Enqueue(request) =>
      forall c | 0 <= c < |s.phases| ensures Lookup(s'.log, s.batches[c]) == Lookup(s.log, s.batches[c]) {
        LookupInLongerLog(s.log, request, s.batches[c]);
      }
    case Take(_) => TakesIssued(config, s);
    case Number(_) =>
    case Record(_) =>
  }

  lemma StepKeepsNumbering(config: BatchConfig, s: State, step: Step)
    requires Numbering(s) && Enabled(s, step)
    ensures Numbering(Apply(config, s, step))
  {}

  lemma StepKeepsListed(config: BatchConfig, s: State, step: Step)
    requires Listed(s) && Enabled(s, step) && |s.batches| == |s.phases| == |s.processors|
    ensures Listed(Apply(config, s, step))
  {
    var s' := Apply(config, s, step);
    forall r | r in s'.completed ensures exists c :: 0 <= c < |s'.phases| && s'.phases[c] == Recorded(r) {
      if r in s.completed {
        var c :| 0 <= c < |s.phases| && s.phases[c] == Recorded(r);
        assert s'.phases[c] == Recorded(r);
      } else {
        assert s'.phases[step.call] == Recorded(r);
      }
    }
  }

  lemma TakesIssued(config: BatchConfig, s: State)
    requires TicketsKept(s)
    ensures Issued(s.log, Batch(s.log, s.pending, config.maxBatchSize))
  {
    SortPermutes(Urgency(s.log), s.pending);
    forall t | t in Batch(s.log, s.pending, config.maxBatchSize) ensures t < |s.log| {
      assert t in s.pending && t in Line(s);
      MembersOfLine(s, t);
    }
  }

  // ---- Whole runs ----

  ghost predicate Sound(config: BatchConfig, s: State) {
    TicketsKept(s) && Fair(s.log, Line(s)) && Conserved(s) && Labelled(config, s)
  }

  lemma StepKeepsSound(config: BatchConfig, s: State, step: Step)
    requires Sound(config, s) && Enabled(s, step)
    ensures Sound(config, Apply(config, s, step))
  {
    PendingIsFair(s);
    StepKeepsTickets(config, s, step);
    StepKeepsFair(config, s, step);
    StepKeepsConserved(config, s, step);
    StepKeepsNumbering(config, s, step);
    StepKeepsHonest(config, s, step);
    StepKeepsListed(config, s, step);
  }

  lemma {:induction false} RunKeepsSound(config: BatchConfig, s: State, steps: seq<Step>)
    requires Sound(config, s) && Legal(config, s, steps)
    ensures Sound(config, Exec(config, s, steps))
    decreases |steps|
  {
    if steps != [] {
      StepKeepsSound(config, s, steps[0]);
      RunKeepsSound(config, Apply(config, s, steps[0]), steps[1..]);
    }
  }

  lemma ReachableSound(config: BatchConfig, steps: seq<Step>)
    requires Legal(config, Start, steps)
    ensures Sound(config, Exec(config, Start, steps))
  {
    assert Line(Start) == [] == Numbers(0);
    RunKeepsSound(config, Start, steps);
  }

  /** In every run, requests are conserved: waiting, in flight, or recorded as succeeded,
      failed or skipped; and the running totals are those of the recorded batches. */
  lemma RequestsAreConserved(config: BatchConfig, steps: seq<Step>)
    requires Legal(config, Start, steps)
    ensures Conserved(Exec(config, Start, steps))
  {
    ReachableSound(config, steps);
  }

  /** In every run, each request stands exactly once in the line of served and waiting
      requests: none is lost and none is processed twice. */
  lemma {:induction false} ServedAtMostOnce(config: BatchConfig, steps: seq<Step>, t: nat)
    requires Legal(config, Start, steps)
    ensures multiset(Line(Exec(config, Start, steps)))[t] == if t < |Exec(config, Start, steps).log| then 1 else 0
  {
    ReachableSound(config, steps);
    NumbersOnce(|Exec(config, Start, steps).log|, t);
  }

  lemma {:induction false} NumbersOnce(n: nat, t: nat)
    ensures multiset(Numbers(n))[t] == if t < n then 1 else 0
  {
    if n > 0 {
      NumbersOnce(n - 1, t);
      assert Numbers(n) == Numbers(n - 1) + [n - 1];
    }
  }

  /** In every run, requests of equal priority are served first come, first served,
      whatever sorting and draining happened in between. */
  lemma FirstComeFirstServed(config: BatchConfig, steps: seq<Step>, i: nat, j: nat)
    requires Legal(config, Start, steps)
    requires i < j < |Line(Exec(config, Start, steps))|
    ensures var s := Exec(config, Start, steps);
            Fetch(s.log)(Line(s)[i]).priority == Fetch(s.log)(Line(s)[j]).priority ==> Line(s)[i] < Line(s)[j]
  {
    ReachableSound(config, steps);
  }

  /** In every run, the next batch is the one a priority queue would hand out. */
  lemma EveryBatchIsNext(config: BatchConfig, steps: seq<Step>, processor: Processor)
    requires Legal(config, Start, steps)
    ensures var s := Exec(config, Start, steps);
            var s' := Apply(config, s, Take(processor));
            NextBatch(s.log, s.pending, config.maxBatchSize, s'.batches[|s.batches|], s'.pending)
  {
    var s := Exec(config, Start, steps);
    ReachableSound(config, steps);
    PendingIsFair(s);
    TakeIsNextBatch(s.log, s.pending, config.maxBatchSize);
  }

  /** In every run, batch numbers are unique, and the completed list holds exactly the
      reports of the recorded calls, each of its own processor over its own batch. */
  lemma ResultsAreHonest(config: BatchConfig, steps: seq<Step>)
    requires Legal(config, Start, steps)
    ensures Numbering(Exec(config, Start, steps))
    ensures Honest(config, Exec(config, Start, steps)) && Listed(Exec(config, Start, steps))
  {
    ReachableSound(config, steps);
  }

  /** So every completed result maps the processor of one call over a prefix of that call's
      batch: the whole batch, or up to the first error when errors stop it. */
  lemma CompletedMapsPrefix(config: BatchConfig, steps: seq<Step>, r: BatchResult) returns (call: nat)
    requires Legal(config, Start, steps) && r in Exec(config, Start, steps).completed
    ensures var s := Exec(config, Start, steps);
            && call < |s.batches| && call < |s.processors|
            && r.Total() == |s.batches[call]|
            && Reports(config, Lookup(s.log, s.batches[call]), s.processors[call], r)
  {
    ResultsAreHonest(config, steps);
    var s := Exec(config, Start, steps);
    call :| call < |s.phases| && s.phases[call] == Recorded(r);
    ReportIsPrefix(config, r.batchId, Lookup(s.log, s.batches[call]), s.processors[call]);
  }

  // ---- One call at a time ----

  /** An uninterrupted `process_batch` is the run of its three sections. It leaves the queue
      and the result that the method of the shared object leaves. */
  lemma UninterruptedCallIsRun(config: BatchConfig, s: State, processor: Processor) returns (steps: seq<Step>)
    requires Sound(config, s)
    ensures Legal(config, s, steps)
    ensures var taken := Batch(s.log, s.pending, config.maxBatchSize);
            var result := Report(config, s.batchCounter + 1, Lookup(s.log, taken), processor);
            Exec(config, s, steps) == s.(
              pending := Rest(s.log, s.pending, config.maxBatchSize),
              batches := s.batches + [taken],
              processors := s.processors + [processor],
              phases := s.phases + [Recorded(result)],
              batchCounter := s.batchCounter + 1,
              totalCompleted := s.totalCompleted + result.succeeded,
              totalFailed := s.totalFailed + result.failed,
              completed := s.completed + [result])
  {
    var call := |s.phases|;
    var s1 := Apply(config, s, Take(processor));
    var s2 := Apply(config, s1, Number(call));
    assert s1.phases[call] == Taken && s2.phases[call] == Numbered(s.batchCounter + 1);
    steps := [Take(processor), Number(call), Record(call)];
    ThreeSteps(config, s, Take(processor), Number(call), Record(call));
    assert s2.phases == s.phases + [Numbered(s.batchCounter + 1)];
    assert CallReport(config, s2, call)
        == Report(config, s.batchCounter + 1, Lookup(s.log, Batch(s.log, s.pending, config.maxBatchSize)), processor);
  }

  lemma ThreeSteps(config: BatchConfig, s: State, a: Step, b: Step, c: Step)
    ensures var s1 := Apply(config, s, a);
            var s2 := Apply(config, s1, b);
            && Exec(config, s, [a, b, c]) == Apply(config, s2, c)
            && (Legal(config, s, [a, b, c]) <==> Enabled(s, a) && Enabled(s1, b) && Enabled(s2, c))
  {
    var s1 := Apply(config, s, a);
    var s2 := Apply(config, s1, b);
    OneStep(config, s2, c);
    assert [b, c][1..] == [c] && [a, b, c][1..] == [b, c];
    assert Exec(config, s1, [b, c]) == Exec(config, s2, [c]);
    assert Legal(config, s1, [b, c]) <==> Enabled(s1, b) && Legal(config, s2, [c]);
  }

  lemma OneStep(config: BatchConfig, s: State, step: Step)
    ensures Exec(config, s, [step]) == Apply(config, s, step)
    ensures Legal(config, s, [step]) <==> Enabled(s, step)
  {
    assert Legal(config, Apply(config, s, step), []);
  }
}
