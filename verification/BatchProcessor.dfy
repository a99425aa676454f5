/** The batch processor: a queue that is stably sorted and drained under a lock, while
    batches are processed outside it. A request is identified by its ticket, its position
    among all requests ever enqueued. */
module Batching {
  import opened Sequences
  import opened StableSort
  import opened Wrappers

  datatype Request = Request(id: string, input: string, priority: nat)

  /** What the processor closure answers: output and tokens, or an error. */
  type Outcome = Result<(string, nat), string>

  datatype RequestResult = RequestResult(
    requestId: string, output: Option<string>, error: Option<string>, success: bool, tokenEstimate: nat)

  datatype BatchResult = BatchResult(
    batchId: nat, results: seq<RequestResult>, succeeded: nat, failed: nat, skipped: nat, totalTokens: nat)
  {
    function Total(): nat { succeeded + failed + skipped }
  }

  datatype BatchConfig = BatchConfig(maxBatchSize: nat, continueOnError: bool)

  // ---- Taking a batch ----

  function Fetch(log: seq<Request>): nat -> Request {
    (t: nat) => if t < |log| then log[t] else Request("", "", 0)
  }

  function ByPriority(): Request -> real {
    (r: Request) => -(r.priority as real)
  }

  function Urgency(log: seq<Request>): nat -> real {
    (t: nat) => ByPriority()(Fetch(log)(t))
  }

  function Lookup(log: seq<Request>, tickets: seq<nat>): seq<Request> {
    Map(Fetch(log), tickets)
  }

  function Min(a: nat, b: nat): nat {
    if a <= b then a else b
  }

  ghost predicate Issued(log: seq<Request>, tickets: seq<nat>) {
    forall t :: t in tickets ==> t < |log|
  }

  /** `a` is served before `b`: a higher priority, or the same priority and enqueued earlier. */
  ghost predicate Sooner(log: seq<Request>, a: nat, b: nat) {
    var p, q := Fetch(log)(a).priority, Fetch(log)(b).priority;
    p > q || (p == q && a < b)
  }

  /** Requests of equal priority stand in the order they were enqueued. */
  ghost predicate Fair(log: seq<Request>, tickets: seq<nat>) {
    forall i, j :: 0 <= i < j < |tickets| && Fetch(log)(tickets[i]).priority == Fetch(log)(tickets[j]).priority ==>
      tickets[i] < tickets[j]
  }

  /** What a plain priority queue would hand out: the first requests by priority and
      arrival, in that order, and as many as the limit allows. */
  ghost predicate NextBatch(log: seq<Request>, waiting: seq<nat>, max: nat, batch: seq<nat>, rest: seq<nat>) {
    && |batch| == (if |waiting| <= max then |waiting| else max)
    && multiset(batch + rest) == multiset(waiting)
    && (forall i, j :: 0 <= i < j < |batch| ==> Sooner(log, batch[i], batch[j]))
    && (forall a, b :: a in batch && b in rest ==> Sooner(log, a, b))
  }

  function Arranged(log: seq<Request>, tickets: seq<nat>): seq<nat> {
    Sort(Urgency(log), tickets)
  }

  function Batch(log: seq<Request>, tickets: seq<nat>, max: nat): seq<nat> {
    var sorted := Arranged(log, tickets);
    sorted[..Min(max, |sorted|)]
  }

  function Rest(log: seq<Request>, tickets: seq<nat>, max: nat): seq<nat> {
    var sorted := Arranged(log, tickets);
    sorted[Min(max, |sorted|)..]
  }

  /** Sorting a fair queue leaves it fair and in serving order. */
  lemma ArrangedInOrder(log: seq<Request>, tickets: seq<nat>)
    requires Fair(log, tickets)
    ensures var sorted := Arranged(log, tickets);
            && Fair(log, sorted)
            && forall i, j :: 0 <= i < j < |sorted| ==> Sooner(log, sorted[i], sorted[j])
  {
    var earlier := (a: nat, b: nat) => a < b;
    SortStable(Urgency(log), earlier, tickets);
    var sorted := Arranged(log, tickets);
    forall i, j | 0 <= i < j < |sorted| ensures Sooner(log, sorted[i], sorted[j]) {
      assert Precedes(Urgency(log), earlier, sorted[i], sorted[j]);
    }
  }

  /** The sort and drain of `take_batch` is one step of a priority queue. */
  lemma TakeIsNextBatch(log: seq<Request>, tickets: seq<nat>, max: nat)
    requires Fair(log, tickets)
    ensures NextBatch(log, tickets, max, Batch(log, tickets, max), Rest(log, tickets, max))
    ensures Batch(log, tickets, max) + Rest(log, tickets, max) == Arranged(log, tickets)
    ensures multiset(Arranged(log, tickets)) == multiset(tickets)
    ensures Fair(log, Arranged(log, tickets))
  {
    ArrangedInOrder(log, tickets);
    SortPermutes(Urgency(log), tickets);
    SplitIsNextBatch(log, tickets, max, Arranged(log, tickets));
  }

  lemma SplitIsNextBatch(log: seq<Request>, waiting: seq<nat>, max: nat, sorted: seq<nat>)
    requires multiset(sorted) == multiset(waiting) && |sorted| == |waiting|
    requires forall i, j :: 0 <= i < j < |sorted| ==> Sooner(log, sorted[i], sorted[j])
    ensures var k := Min(max, |sorted|);
            NextBatch(log, waiting, max, sorted[..k], sorted[k..]) && sorted[..k] + sorted[k..] == sorted
  {
    var k := Min(max, |sorted|);
    assert sorted[..k] + sorted[k..] == sorted;
    forall a, b | a in sorted[..k] && b in sorted[k..] ensures Sooner(log, a, b) {
      var i :| 0 <= i < k && sorted[i] == a;
      var j :| k <= j < |sorted| && sorted[j] == b;
    }
  }

  /** The batch is determined: a priority queue has no other choice. */
  lemma {:induction false} OnlyOneNextBatch(log: seq<Request>, waiting: seq<nat>, max: nat,
                                            b1: seq<nat>, r1: seq<nat>, b2: seq<nat>, r2: seq<nat>, i: nat)
    requires NextBatch(log, waiting, max, b1, r1) && NextBatch(log, waiting, max, b2, r2)
    requires i <= |b1|
    ensures b1[..i] == b2[..i]
  {
    if i > 0 {
      OnlyOneNextBatch(log, waiting, max, b1, r1, b2, r2, i - 1);
      var a, b := b1[i - 1], b2[i - 1];
      NotSooner(log, waiting, max, b1, r1, b2, r2, i - 1);
      NotSooner(log, waiting, max, b2, r2, b1, r1, i - 1);
      assert b1[..i] == b1[..i - 1] + [a] && b2[..i] == b2[..i - 1] + [b];
    }
  }

  lemma NotSooner(log: seq<Request>, waiting: seq<nat>, max: nat,
                  b1: seq<nat>, r1: seq<nat>, b2: seq<nat>, r2: seq<nat>, i: nat)
    requires NextBatch(log, waiting, max, b1, r1) && NextBatch(log, waiting, max, b2, r2)
    requires i < |b1| && b1[..i] == b2[..i]
    ensures !Sooner(log, b1[i], b2[i])
  {
    var a := b1[i];
    assert (b1 + r1)[i] == a && a in multiset(b1 + r1);
    assert a in multiset(b2 + r2);
    assert a in b2 + r2;
    if a in b2 {
      var j :| 0 <= j < |b2| && b2[j] == a;
    } else {
      assert b2[i] in b2 && a in r2;
    }
  }

  // ---- Processing a batch ----

  /** How many requests are processed: all, or up to and including the first error. */
  function Attempted(continueOnError: bool, outcomes: seq<Outcome>): (n: nat)
    ensures n <= |outcomes|
    ensures continueOnError ==> n == |outcomes|
    ensures n < |outcomes| ==> n > 0 && outcomes[n - 1].Err?
    ensures !continueOnError ==> forall i :: 0 <= i < n - 1 ==> outcomes[i].Ok?
  {
    if outcomes == [] then 0
    else if outcomes[0].Err? && !continueOnError then 1
    else 1 + Attempted(continueOnError, outcomes[1..])
  }

  function ResultOf(request: Request, outcome: Outcome): RequestResult {
    match outcome
    case Ok((output, tokens)) => RequestResult(request.id, Some(output), None, true, tokens)
    case Err(e) => RequestResult(request.id, None, Some(e), false, 0)
  }

  function Results(requests: seq<Request>, outcomes: seq<Outcome>, n: nat): seq<RequestResult>
    requires n <= |requests| && n <= |outcomes|
  {
    seq(n, i requires 0 <= i < n => ResultOf(requests[i], outcomes[i]))
  }

  function Succeeded(results: seq<RequestResult>): nat {
    if results == [] then 0
    else Succeeded(results[..|results| - 1]) + if results[|results| - 1].success then 1 else 0
  }

  function Tokens(results: seq<RequestResult>): nat {
    if results == [] then 0 else Tokens(results[..|results| - 1]) + results[|results| - 1].tokenEstimate
  }

  lemma {:induction false} SucceededFits(results: seq<RequestResult>)
    ensures Succeeded(results) <= |results|
  {
    if results != [] { SucceededFits(results[..|results| - 1]); }
  }

  /** The report of one batch under one processor. */
  function Report(config: BatchConfig, batchId: nat, batch: seq<Request>, processor: Request -> Outcome): BatchResult {
    var outcomes := Map(processor, batch);
    var n := Attempted(config.continueOnError, outcomes);
    var results := Results(batch, outcomes, n);
    SucceededFits(results);
    BatchResult(batchId, results, Succeeded(results), n - Succeeded(results), |batch| - n, Tokens(results))
  }

  /** What a report of `batch` says, in terms of the processor alone. It covers the batch up to
      its end, or up to the first error when errors stop it; it lists what each request got,
      and counts the successes and errors it lists and the requests after them. */
  ghost predicate Reports(config: BatchConfig, batch: seq<Request>, processor: Request -> Outcome, r: BatchResult) {
    && |r.results| <= |batch|
    && (forall i :: 0 <= i < |r.results| ==> Answers(batch[i], processor(batch[i]), r.results[i]))
    && Extent(config, batch, processor, |r.results|)
    && r.skipped == |batch| - |r.results|
    && CountsOf(batch[..|r.results|], processor, r)
  }

  /** The first `n` requests are all of the batch, or end with its first error, where it stops. */
  ghost predicate Extent(config: BatchConfig, batch: seq<Request>, processor: Request -> Outcome, n: nat)
    requires n <= |batch|
  {
    && (n < |batch| ==> !config.continueOnError && n > 0 && processor(batch[n - 1]).Err?)
    && (!config.continueOnError ==> forall i :: 0 <= i < n - 1 ==> processor(batch[i]).Ok?)
  }

  ghost predicate CountsOf(attempted: seq<Request>, processor: Request -> Outcome, r: BatchResult) {
    && r.succeeded == |set i: nat | i < |attempted| && processor(attempted[i]).Ok?|
    && r.failed == |set i: nat | i < |attempted| && processor(attempted[i]).Err?|
    && r.totalTokens == Sum(attempted, TokensOf(processor))
  }

  ghost predicate Answers(request: Request, outcome: Outcome, r: RequestResult) {
    && r.requestId == request.id
    && (r.success <==> outcome.Ok?)
    && (outcome.Ok? ==> r.output == Some(outcome.value.0) && r.error == None && r.tokenEstimate == outcome.value.1)
    && (outcome.Err? ==> r.output == None && r.error == Some(outcome.error) && r.tokenEstimate == 0)
  }

  ghost function TokensOf(processor: Request -> Outcome): Request -> nat {
    (q: Request) => if processor(q).Ok? then processor(q).value.1 else 0
  }

  lemma {:induction false} SucceededCounts(results: seq<RequestResult>)
    ensures Succeeded(results) == |Where(results, (r: RequestResult) => r.success)|
    ensures |results| - Succeeded(results) == |Where(results, (r: RequestResult) => !r.success)|
  {
    if results != [] {
      SucceededCounts(results[..|results| - 1]);
      WhereNext(results, (r: RequestResult) => r.success);
      WhereNext(results, (r: RequestResult) => !r.success);
    }
  }

  lemma {:induction false} TokensAdd(results: seq<RequestResult>, batch: seq<Request>, processor: Request -> Outcome)
    requires |results| == |batch| && forall i :: 0 <= i < |batch| ==> Answers(batch[i], processor(batch[i]), results[i])
    ensures Tokens(results) == Sum(batch, TokensOf(processor))
  {
    if batch != [] {
      TokensAdd(results[..|results| - 1], batch[..|batch| - 1], processor);
    }
  }

  lemma CountsAreExact(attempted: seq<Request>, processor: Request -> Outcome, r: BatchResult)
    requires |r.results| == |attempted|
    requires forall i :: 0 <= i < |attempted| ==> Answers(attempted[i], processor(attempted[i]), r.results[i])
    requires r.succeeded == Succeeded(r.results) && r.failed == |r.results| - r.succeeded && r.totalTokens == Tokens(r.results)
    ensures CountsOf(attempted, processor, r)
  {
    SucceededCounts(r.results);
    assert Where(r.results, (r: RequestResult) => r.success) == set i: nat | i < |attempted| && processor(attempted[i]).Ok?;
    assert Where(r.results, (r: RequestResult) => !r.success) == set i: nat | i < |attempted| && processor(attempted[i]).Err?;
    TokensAdd(r.results, attempted, processor);
  }

  /** The report says what it should, and its counts add up to the batch. */
  lemma ReportIsPrefix(config: BatchConfig, batchId: nat, batch: seq<Request>, processor: Request -> Outcome)
    ensures var r := Report(config, batchId, batch, processor);
            r.batchId == batchId && r.Total() == |batch| && Reports(config, batch, processor, r)
  {
    var outcomes := Map(processor, batch);
    var r := Report(config, batchId, batch, processor);
    assert forall i :: 0 <= i < |batch| ==> outcomes[i] == processor(batch[i]);
    assert forall i :: 0 <= i < |r.results| ==> Answers(batch[i], processor(batch[i]), r.results[i]);
    CountsAreExact(batch[..|r.results|], processor, r);
  }

  /** The loop's tallies after `i` requests. */
  ghost predicate Tallied(batch: seq<Request>, outcomes: seq<Outcome>, i: nat, results: seq<RequestResult>,
                          succeeded: nat, failed: nat, tokens: nat)
    requires |batch| == |outcomes|
  {
    && i <= |batch| && results == Results(batch, outcomes, i)
    && succeeded == Succeeded(results) && succeeded + failed == i && tokens == Tokens(results)
  }

  lemma TallyNext(batch: seq<Request>, outcomes: seq<Outcome>, i: nat, results: seq<RequestResult>,
                  succeeded: nat, failed: nat, tokens: nat)
    requires |batch| == |outcomes| && i < |batch| && Tallied(batch, outcomes, i, results, succeeded, failed, tokens)
    ensures var r := ResultOf(batch[i], outcomes[i]);
            Tallied(batch, outcomes, i + 1, results + [r], if r.success then succeeded + 1 else succeeded,
                    if r.success then failed else failed + 1, tokens + r.tokenEstimate)
  {
    var r := ResultOf(batch[i], outcomes[i]);
    assert (results + [r])[..i] == results;
  }

  lemma AttemptedNext(continueOnError: bool, outcomes: seq<Outcome>, i: nat)
    requires i < |outcomes|
    ensures Attempted(continueOnError, outcomes[i..])
            == if outcomes[i].Err? && !continueOnError then 1 else 1 + Attempted(continueOnError, outcomes[i + 1..])
  {
    assert outcomes[i..][1..] == outcomes[i + 1..];
  }

  /** The loop over one batch, which stops at the first error unless told to go on. */
  method ProcessRequests(config: BatchConfig, batchId: nat, batch: seq<Request>, processor: Request -> Outcome)
    returns (result: BatchResult)
    ensures result == Report(config, batchId, batch, processor)
    ensures result.batchId == batchId && Reports(config, batch, processor, result)
  {
    ghost var outcomes := Map(processor, batch);
    var results, succeeded, failed, totalTokens := [], 0, 0, 0;
    var i := 0;
    assert outcomes[0..] == outcomes;
    while i < |batch|
      invariant Tallied(batch, outcomes, i, results, succeeded, failed, totalTokens)
      invariant Attempted(config.continueOnError, outcomes) == i + Attempted(config.continueOnError, outcomes[i..])
    {
      AttemptedNext(config.continueOnError, outcomes, i);
      TallyNext(batch, outcomes, i, results, succeeded, failed, totalTokens);
      var request := batch[i];
      i := i + 1;
      match processor(request) {
        case Ok((output, tokens)) =>
          succeeded := succeeded + 1;
          totalTokens := totalTokens + tokens;
          results := results + [RequestResult(request.id, Some(output), None, true, tokens)];
        case Err(e) =>
          failed := failed + 1;
          results := results + [RequestResult(request.id, None, Some(e), false, 0)];
          if !config.continueOnError {
            break;
          }
      }
    }
    assert i == Attempted(config.continueOnError, outcomes);
    result := BatchResult(batchId, results, succeeded, failed, |batch| - succeeded - failed, totalTokens);
    assert result == Report(config, batchId, batch, processor);
    ReportIsPrefix(config, batchId, batch, processor);
  }

  // ---- The shared object ----

  lemma EnqueueKeepsFair(log: seq<Request>, tickets: seq<nat>, request: Request)
    requires Issued(log, tickets) && Fair(log, tickets)
    ensures Issued(log + [request], tickets + [|log|]) && Fair(log + [request], tickets + [|log|])
    ensures Lookup(log + [request], tickets + [|log|]) == Lookup(log, tickets) + [request]
  {
    var log', tickets' := log + [request], tickets + [|log|];
    forall i | 0 <= i < |tickets|
      ensures tickets'[i] == tickets[i] < |log| && Fetch(log')(tickets'[i]) == Fetch(log)(tickets[i])
    {
      assert tickets[i] in tickets;
    }
    assert Lookup(log', tickets') == Lookup(log, tickets) + [request];
  }

  lemma PartsAreIssued(log: seq<Request>, tickets: seq<nat>, max: nat)
    requires Issued(log, tickets)
    ensures Issued(log, Batch(log, tickets, max)) && Issued(log, Rest(log, tickets, max))
  {
    SortPermutes(Urgency(log), tickets);
    var sorted := Arranged(log, tickets);
    forall i | 0 <= i < |sorted| ensures sorted[i] < |log| {
      assert sorted[i] in sorted;
    }
  }

  /** What the tickets stand for: the requests at those places of the log. */
  lemma LookupReadsLog(log: seq<Request>, tickets: seq<nat>)
    requires Issued(log, tickets)
    ensures |Lookup(log, tickets)| == |tickets|
    ensures forall i :: 0 <= i < |tickets| ==> tickets[i] < |log| && Lookup(log, tickets)[i] == log[tickets[i]]
  {
    assert forall i :: 0 <= i < |tickets| ==> tickets[i] in tickets;
  }

  lemma TakeKeepsTickets(log: seq<Request>, tickets: seq<nat>, max: nat)
    requires Issued(log, tickets) && Fair(log, tickets)
    ensures Lookup(log, Arranged(log, tickets)) == Sort(ByPriority(), Lookup(log, tickets))
    ensures Issued(log, Batch(log, tickets, max)) && Issued(log, Rest(log, tickets, max))
    ensures Fair(log, Rest(log, tickets, max))
  {
    ArrangedInOrder(log, tickets);
    PartsAreIssued(log, tickets, max);
    SortCommutesWithMap(Fetch(log), Urgency(log), ByPriority(), tickets);
  }

  class BatchProcessor {
    const config: BatchConfig
    var pending: seq<Request>
    var completedBatches: seq<BatchResult>
    var batchCounter: nat
    var totalRequests: nat
    var totalCompleted: nat
    var totalFailed: nat
    /** Everything ever enqueued, and the ticket of each pending request. */
    ghost var log: seq<Request>
    ghost var tickets: seq<nat>

    ghost predicate Valid()
      reads this
    {
      && pending == Lookup(log, tickets)
      && Issued(log, tickets) && Fair(log, tickets)
      && totalRequests == |log|
    }

    constructor (config: BatchConfig)
      ensures Valid() && this.config == config
      ensures pending == [] && completedBatches == [] && log == [] && batchCounter == totalCompleted == totalFailed == 0
    {
      this.config := config;
      pending, completedBatches, batchCounter := [], [], 0;
      totalRequests, totalCompleted, totalFailed := 0, 0, 0;
      log, tickets := [], [];
    }

    method Enqueue(request: Request)
      requires Valid()
      modifies this
      ensures Valid()
      ensures log == old(log) + [request] && tickets == old(tickets) + [|old(log)|]
      ensures pending == old(pending) + [request] && totalRequests == old(totalRequests) + 1
      ensures unchanged(`completedBatches, `batchCounter, `totalCompleted, `totalFailed)
    {
      EnqueueKeepsFair(log, tickets, request);
      totalRequests := totalRequests + 1;
      pending := pending + [request];
      log, tickets := log + [request], tickets + [|log|];
    }

    /** The batch is the one a priority queue over all pending requests would hand out. */
    method TakeBatch() returns (batch: seq<Request>, ghost taken: seq<nat>)
      requires Valid()
      modifies `pending, `tickets
      ensures Valid()
      ensures NextBatch(log, old(tickets), config.maxBatchSize, taken, tickets)
      ensures taken == Batch(log, old(tickets), config.maxBatchSize) && tickets == Rest(log, old(tickets), config.maxBatchSize)
      ensures batch == Lookup(log, taken)
    {
      TakeIsNextBatch(log, tickets, config.maxBatchSize);
      TakeKeepsTickets(log, tickets, config.maxBatchSize);
      pending := Sort(ByPriority(), pending);
      var batchSize := Min(config.maxBatchSize, |pending|);
      batch := pending[..batchSize];
      pending := pending[batchSize..];
      taken, tickets := Batch(log, tickets, config.maxBatchSize), Rest(log, tickets, config.maxBatchSize);
    }

    method RecordBatch(result: BatchResult)
      modifies `totalCompleted, `totalFailed, `completedBatches
      ensures totalCompleted == old(totalCompleted) + result.succeeded
      ensures totalFailed == old(totalFailed) + result.failed
      ensures completedBatches == old(completedBatches) + [result]
    {
      totalCompleted := totalCompleted + result.succeeded;
      totalFailed := totalFailed + result.failed;
      completedBatches := completedBatches + [result];
    }

    /** Numbers, processes and records a batch that has been taken. */
    method ProcessTaken(batch: seq<Request>, processor: Request -> Outcome) returns (result: BatchResult)
      modifies `batchCounter, `totalCompleted, `totalFailed, `completedBatches
      ensures batchCounter == old(batchCounter) + 1
      ensures result == Report(config, batchCounter, batch, processor)
      ensures result.batchId == batchCounter && Reports(config, batch, processor, result)
      ensures completedBatches == old(completedBatches) + [result]
      ensures totalCompleted == old(totalCompleted) + result.succeeded && totalFailed == old(totalFailed) + result.failed
    {
      batchCounter := batchCounter + 1;
      result := ProcessRequests(config, batchCounter, batch, processor);
      RecordBatch(result);
    }

    method ProcessBatch(processor: Request -> Outcome) returns (result: BatchResult, ghost taken: seq<nat>)
      requires Valid()
      modifies this
      ensures Valid() && log == old(log) && batchCounter == old(batchCounter) + 1
      ensures NextBatch(log, old(tickets), config.maxBatchSize, taken, tickets)
      ensures taken == Batch(log, old(tickets), config.maxBatchSize) && tickets == Rest(log, old(tickets), config.maxBatchSize)
      ensures result == Report(config, batchCounter, Lookup(log, taken), processor)
      ensures result.batchId == batchCounter && Reports(config, Lookup(log, taken), processor, result)
      ensures completedBatches == old(completedBatches) + [result]
      ensures totalCompleted == old(totalCompleted) + result.succeeded && totalFailed == old(totalFailed) + result.failed
    {
      var batch;
      batch, taken := TakeBatch();
      result := ProcessTaken(batch, processor);
    }
  }
}
