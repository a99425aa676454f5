/** Prompt-token accounting per framework: a closed form for the naive history, a
    compaction recurrence, and the turn-by-turn loop of the long-horizon runner. */
module CostSim {
  import opened Sequences

  datatype Framework = ArgentorBase | ArgentorIntelligent | LangChain | CrewAi | PydanticAi | ClaudeAgentSdk

  const TOKENS_PER_TOOL: nat := 50
  const ARGENTOR_DISCOVERY_MAX_TOOLS: nat := 5
  const COMPACTION_TRIGGER_TOKENS: nat := 30000
  const OUTPUT_TOKENS_PER_TURN: nat := 50

  datatype CostWorkload = CostWorkload(
    framework: Framework, promptChars: nat, turns: nat, toolCount: nat, contextBytes: nat)

  datatype CostBreakdown = CostBreakdown(
    promptTokensSent: nat,
    toolDescriptionTokens: nat,
    contextHistoryTokens: nat,
    scaffoldTokens: nat,
    userTurnTokens: nat,
    ragContextTokens: nat,
    outputTokens: nat,
    llmCalls: nat)

  /** The rounded multiplication by the target ratio 0.3. */
  type Compression = nat -> nat

  /** Compression makes every text that passes the trigger shorter. */
  ghost predicate Shortens(compress: Compression) {
    forall h: nat :: h > COMPACTION_TRIGGER_TOKENS ==> compress(h) < h
  }

  /** Compression never exceeds the ratio `a / b` on texts from the trigger up to `limit`. */
  ghost predicate MeetsRatio(compress: Compression, a: nat, b: nat, limit: nat) {
    a < b && forall h: nat :: COMPACTION_TRIGGER_TOKENS < h <= limit ==> b * compress(h) <= a * h
  }

  /** Four characters or bytes per token, rounded up. */
  function ToTokens(n: nat): nat {
    (n + 3) / 4
  }

  function ScaffoldTokensPerTurn(framework: Framework): nat {
    match framework
    case ArgentorBase | ArgentorIntelligent => 50
    case LangChain => 200
    case CrewAi => 500
    case PydanticAi => 100
    case ClaudeAgentSdk => 150
  }

  function ToolsPerTurn(intelligent: bool, toolCount: nat): nat {
    if intelligent && toolCount > ARGENTOR_DISCOVERY_MAX_TOOLS then ARGENTOR_DISCOVERY_MAX_TOOLS * TOKENS_PER_TOOL
    else toolCount * TOKENS_PER_TOOL
  }

  // ---- History ----

  /** One turn: the history grows by a pair and is compressed if it passes the trigger. */
  function Grow(compress: Compression, pair: nat, history: nat): nat {
    var grown := history + pair;
    if grown > COMPACTION_TRIGGER_TOKENS then compress(grown) else grown
  }

  /** The history sent at turn `t`, counting turns from zero. */
  function Running(compress: Compression, pair: nat, t: nat): nat {
    if t == 0 then 0 else Grow(compress, pair, Running(compress, pair, t - 1))
  }

  /** The compacted history summed over the turns. */
  function CompactSum(compress: Compression, pair: nat, turns: nat): nat {
    if turns == 0 then 0 else CompactSum(compress, pair, turns - 1) + Running(compress, pair, turns - 1)
  }

  method CompactHistorySum(compress: Compression, pair: nat, turns: nat) returns (sum: nat)
    ensures sum == CompactSum(compress, pair, turns)
  {
    if turns <= 1 {
      assert turns == 1 ==> CompactSum(compress, pair, 1) == CompactSum(compress, pair, 0) + Running(compress, pair, 0);
      return 0;
    }
    var runningHistory := 0;
    sum := 0;
    for t := 0 to turns
      invariant runningHistory == Running(compress, pair, t)
      invariant sum == CompactSum(compress, pair, t)
    {
      sum := sum + runningHistory;
      runningHistory := runningHistory + pair;
      if runningHistory > COMPACTION_TRIGGER_TOKENS {
        runningHistory := compress(runningHistory);
      }
    }
  }

  function NaiveSum(pair: nat, turns: nat): nat {
    pair * (turns * (if turns == 0 then 0 else turns - 1)) / 2
  }

  function Simulate(compress: Compression, wl: CostWorkload): CostBreakdown {
    var intelligent := wl.framework.ArgentorIntelligent?;
    var prompt, rag := ToTokens(wl.promptChars), ToTokens(wl.contextBytes);
    var pair := prompt + OUTPUT_TOKENS_PER_TURN;
    var tools := Times(ToolsPerTurn(intelligent, wl.toolCount), wl.turns);
    var history := if intelligent then CompactSum(compress, pair, wl.turns) else NaiveSum(pair, wl.turns);
    var ragTotal := Times(if intelligent && rag > COMPACTION_TRIGGER_TOKENS then compress(rag) else rag, wl.turns);
    var scaffold := Times(ScaffoldTokensPerTurn(wl.framework), wl.turns);
    var user := Times(prompt, wl.turns);
    CostBreakdown(
      scaffold + tools + history + ragTotal + user,
      tools, history, scaffold, user, ragTotal, Times(OUTPUT_TOKENS_PER_TURN, wl.turns), wl.turns)
  }

  function Times(a: nat, turns: nat): nat {
    a * turns
  }

  // ---- The bill, item by item ----

  /** `tokens` is a quarter of `n`, rounded up. */
  ghost predicate QuarterUp(n: nat, tokens: nat) {
    n <= 4 * tokens < n + 4
  }

  /** The history sent in each turn: it grows by a pair per turn, and whenever that passes
      30000 tokens it is compressed. */
  ghost predicate IsHistory(compress: Compression, pair: nat, sent: seq<nat>) {
    && (|sent| > 0 ==> sent[0] == 0)
    && forall t :: 0 <= t < |sent| - 1 ==>
         sent[t + 1] == if sent[t] + pair > 30000 then compress(sent[t] + pair) else sent[t] + pair
  }

  lemma {:induction false} RunningIsHistory(compress: Compression, pair: nat, turns: nat) returns (sent: seq<nat>)
    ensures |sent| == turns && IsHistory(compress, pair, sent)
    ensures turns > 0 ==> sent[turns - 1] == Running(compress, pair, turns - 1)
    ensures Sum(sent, (h: nat) => h) == CompactSum(compress, pair, turns)
  {
    if turns == 0 {
      sent := [];
    } else {
      var before := RunningIsHistory(compress, pair, turns - 1);
      sent := before + [Running(compress, pair, turns - 1)];
      assert sent[..|sent| - 1] == before;
      assert forall t :: 0 <= t < |before| ==> sent[t] == before[t];
    }
  }

  /** A breakdown names what is sent: the framework's scaffold, fifty tokens per tool with at
      most five tools under intelligence, the history, the context, and the prompt, in every turn. */
  ghost predicate Bill(compress: Compression, wl: CostWorkload, cost: CostBreakdown, prompt: nat, rag: nat, sent: seq<nat>) {
    var smart, pair := wl.framework == ArgentorIntelligent, prompt + 50;
    && QuarterUp(wl.promptChars, prompt) && QuarterUp(wl.contextBytes, rag)
    && |sent| == wl.turns && IsHistory(if smart then compress else (h: nat) => h, pair, sent)
    && cost.scaffoldTokens ==
         (match wl.framework
          case LangChain => 200
          case CrewAi => 500
          case PydanticAi => 100
          case ClaudeAgentSdk => 150
          case _ => 50) * wl.turns
    && cost.toolDescriptionTokens == (if smart && wl.toolCount > 5 then 250 else wl.toolCount * 50) * wl.turns
    && cost.contextHistoryTokens == Sum(sent, (h: nat) => h)
    && cost.ragContextTokens == (if smart && rag > 30000 then compress(rag) else rag) * wl.turns
    && cost.userTurnTokens == prompt * wl.turns
    && cost.promptTokensSent ==
         cost.scaffoldTokens + cost.toolDescriptionTokens + cost.contextHistoryTokens + cost.ragContextTokens + cost.userTurnTokens
    && cost.outputTokens == 50 * wl.turns && cost.llmCalls == wl.turns
  }

  lemma {:induction false} UncompressedGrows(pair: nat, turns: nat)
    ensures CompactSum((h: nat) => h, pair, turns) == GrowingSum(pair, turns)
    ensures Running((h: nat) => h, pair, turns) == turns * pair
  {
    if turns > 0 {
      UncompressedGrows(pair, turns - 1);
      assert turns * pair == (turns - 1) * pair + pair;
    }
  }

  /** Every simulated breakdown is such a bill, for one reading of the prompt and context
      sizes and of the history. */
  lemma SimulateIsBill(compress: Compression, wl: CostWorkload) returns (prompt: nat, rag: nat, sent: seq<nat>)
    ensures Bill(compress, wl, Simulate(compress, wl), prompt, rag, sent)
  {
    prompt, rag := ToTokens(wl.promptChars), ToTokens(wl.contextBytes);
    var pair := prompt + 50;
    if wl.framework.ArgentorIntelligent? {
      sent := RunningIsHistory(compress, pair, wl.turns);
    } else {
      sent := RunningIsHistory((h: nat) => h, pair, wl.turns);
      UncompressedGrows(pair, wl.turns);
      NaiveSumIsGrowingSum(pair, wl.turns);
    }
  }

  // ---- The closed form is exact ----

  /** The uncompacted history, turn by turn. */
  function GrowingSum(pair: nat, turns: nat): nat {
    if turns == 0 then 0 else GrowingSum(pair, turns - 1) + (turns - 1) * pair
  }

  /** The closed form sums a history that grows by a pair per turn; its division is exact. */
  lemma {:induction false} NaiveSumIsGrowingSum(pair: nat, turns: nat)
    ensures NaiveSum(pair, turns) == GrowingSum(pair, turns)
    ensures turns > 0 ==> 2 * GrowingSum(pair, turns) == pair * (turns * (turns - 1))
  {
    if turns > 1 {
      NaiveSumIsGrowingSum(pair, turns - 1);
      assert turns * (turns - 1) == (turns - 1) * (turns - 2) + 2 * (turns - 1);
      Distribute(pair, (turns - 1) * (turns - 2), turns - 1);
      assert 2 * GrowingSum(pair, turns) == pair * (turns * (turns - 1));
    } else if turns == 1 {
      assert GrowingSum(pair, 0) == 0;
      assert 1 * (1 - 1) == 0 && pair * 0 == 0;
    }
  }

  lemma Distribute(a: int, b: int, c: int)
    ensures a * (b + 2 * c) == a * b + 2 * (c * a)
  {}

  // ---- Compaction bounds ----

  /** The trigger, or the length at which compressing by `a / b` just makes up for a pair. */
  function Ceiling(a: nat, b: nat, pair: nat): nat
    requires a < b
  {
    var steady := a * pair / (b - a);
    if steady > COMPACTION_TRIGGER_TOKENS then steady else COMPACTION_TRIGGER_TOKENS
  }

  lemma CompressedFits(a: nat, b: nat, pair: nat, grown: nat, compressed: nat)
    requires a < b && grown <= Ceiling(a, b, pair) + pair && b * compressed <= a * grown
    ensures compressed <= Ceiling(a, b, pair)
  {
    var m, d := Ceiling(a, b, pair), b - a;
    DivisionFloor(a * pair, d, m);
    MulMono(a, grown, m + pair);
    assert a * (m + pair) == a * m + a * pair;
    assert b * m == a * m + d * m;
    assert b * (m + 1) == b * m + b;
    if compressed > m {
      MulMono(b, m + 1, compressed);
    }
  }

  lemma MulMono(a: nat, x: nat, y: nat)
    requires x <= y
    ensures a * x <= a * y
  {}

  lemma DivisionFloor(x: nat, d: nat, m: nat)
    requires d > 0 && x / d <= m
    ensures x < d * m + d
  {
    MulMono(d, x / d, m);
  }

  /** The history sent in any turn is bounded, whatever the number of turns. */
  lemma {:induction false} HistoryIsBounded(compress: Compression, a: nat, b: nat, limit: nat, pair: nat, t: nat)
    requires MeetsRatio(compress, a, b, limit) && Ceiling(a, b, pair) + pair <= limit
    ensures Running(compress, pair, t) <= Ceiling(a, b, pair)
  {
    if t > 0 {
      HistoryIsBounded(compress, a, b, limit, pair, t - 1);
      var grown := Running(compress, pair, t - 1) + pair;
      if grown > COMPACTION_TRIGGER_TOKENS {
        CompressedFits(a, b, pair, grown, compress(grown));
      }
    }
  }

  /** So the compacted total is linear in the number of turns, where the naive one is quadratic. */
  lemma {:induction false} CompactIsLinear(compress: Compression, a: nat, b: nat, limit: nat, pair: nat, turns: nat)
    requires MeetsRatio(compress, a, b, limit) && Ceiling(a, b, pair) + pair <= limit
    requires turns > 0
    ensures CompactSum(compress, pair, turns) <= (turns - 1) * Ceiling(a, b, pair)
  {
    if turns == 1 {
      assert CompactSum(compress, pair, 1) == CompactSum(compress, pair, 0) + Running(compress, pair, 0);
    } else {
      CompactIsLinear(compress, a, b, limit, pair, turns - 1);
      HistoryIsBounded(compress, a, b, limit, pair, turns - 1);
      var m := Ceiling(a, b, pair);
      assert (turns - 1) * m == (turns - 2) * m + m;
    }
  }

  /** Compaction shortens the history exactly from the turn on at which it would have
      passed the trigger. */
  lemma {:induction false} CompactionTakesEffect(compress: Compression, pair: nat, t: nat)
    requires Shortens(compress)
    ensures Running(compress, pair, t) <= t * pair
    ensures Running(compress, pair, t) == t * pair <==> t * pair <= COMPACTION_TRIGGER_TOKENS
  {
    if t > 0 {
      CompactionTakesEffect(compress, pair, t - 1);
      assert t * pair == (t - 1) * pair + pair;
    }
  }

  lemma {:induction false} CompactAtMostNaive(compress: Compression, pair: nat, turns: nat)
    requires Shortens(compress)
    ensures CompactSum(compress, pair, turns) <= NaiveSum(pair, turns)
    ensures CompactSum(compress, pair, turns) == NaiveSum(pair, turns)
            <==> turns == 0 || (turns - 1) * pair <= COMPACTION_TRIGGER_TOKENS
  {
    NaiveSumIsGrowingSum(pair, turns);
    if turns > 0 {
      CompactAtMostNaive(compress, pair, turns - 1);
      NaiveSumIsGrowingSum(pair, turns - 1);
      CompactionTakesEffect(compress, pair, turns - 1);
      if turns > 1 {
        assert (turns - 1) * pair == (turns - 2) * pair + pair;
      }
    }
  }

  // ---- Comparing frameworks ----

  lemma Scale(a: nat, b: nat, n: nat)
    ensures a <= b ==> a * n <= b * n
    ensures a < b && n > 0 ==> a * n < b * n
    ensures a == b ==> a * n == b * n
  {}

  lemma PerTurnCosts(compress: Compression, wl: CostWorkload, other: CostWorkload)
    requires Shortens(compress) && wl.framework.ArgentorIntelligent? && !other.framework.ArgentorIntelligent?
    requires other == wl.(framework := other.framework)
    ensures var mine, theirs := Simulate(compress, wl), Simulate(compress, other);
            && mine.toolDescriptionTokens <= theirs.toolDescriptionTokens
            && (mine.toolDescriptionTokens == theirs.toolDescriptionTokens
                <==> wl.turns == 0 || wl.toolCount <= ARGENTOR_DISCOVERY_MAX_TOOLS)
            && mine.ragContextTokens <= theirs.ragContextTokens
            && (mine.ragContextTokens == theirs.ragContextTokens
                <==> wl.turns == 0 || ToTokens(wl.contextBytes) <= COMPACTION_TRIGGER_TOKENS)
            && mine.scaffoldTokens <= theirs.scaffoldTokens
            && (mine.scaffoldTokens == theirs.scaffoldTokens <==> wl.turns == 0 || other.framework.ArgentorBase?)
  {
    var rag := ToTokens(wl.contextBytes);
    Scale(ToolsPerTurn(true, wl.toolCount), ToolsPerTurn(false, wl.toolCount), wl.turns);
    Scale(if rag > COMPACTION_TRIGGER_TOKENS then compress(rag) else rag, rag, wl.turns);
    Scale(ScaffoldTokensPerTurn(wl.framework), ScaffoldTokensPerTurn(other.framework), wl.turns);
  }

  /** With the same prompt, turns, tools and context, Argentor with intelligence never
      sends more prompt tokens than any other framework, and sends equally many exactly
      when nothing gave it an advantage. */
  lemma IntelligenceNeverCostsMore(compress: Compression, wl: CostWorkload, other: CostWorkload)
    requires Shortens(compress) && wl.framework.ArgentorIntelligent? && !other.framework.ArgentorIntelligent?
    requires other == wl.(framework := other.framework)
    ensures Simulate(compress, wl).promptTokensSent <= Simulate(compress, other).promptTokensSent
    ensures Simulate(compress, wl).promptTokensSent == Simulate(compress, other).promptTokensSent <==>
              || wl.turns == 0
              || (&& other.framework.ArgentorBase?
                  && wl.toolCount <= ARGENTOR_DISCOVERY_MAX_TOOLS
                  && ToTokens(wl.contextBytes) <= COMPACTION_TRIGGER_TOKENS
                  && (wl.turns - 1) * (ToTokens(wl.promptChars) + OUTPUT_TOKENS_PER_TURN) <= COMPACTION_TRIGGER_TOKENS)
  {
    PerTurnCosts(compress, wl, other);
    CompactAtMostNaive(compress, ToTokens(wl.promptChars) + OUTPUT_TOKENS_PER_TURN, wl.turns);
  }

  // ---- The long-horizon runner ----

  /** The accumulation loop of the runner; at least one turn is simulated. */
  method RunLongHorizon(compress: Compression, promptChars: nat, toolCount: nat, simulatedTurns: nat, useIntelligence: bool)
    returns (turns: nat, totalPromptTokens: nat, totalToolTokens: nat, totalHistoryTokens: nat)
    ensures turns == if simulatedTurns == 0 then 1 else simulatedTurns
    ensures var framework := if useIntelligence then ArgentorIntelligent else ArgentorBase;
            var cost := Simulate(compress, CostWorkload(framework, promptChars, turns, toolCount, 0));
            && totalPromptTokens == cost.promptTokensSent
            && totalToolTokens == cost.toolDescriptionTokens
            && totalHistoryTokens == cost.contextHistoryTokens
  {
    turns := if simulatedTurns < 1 then 1 else simulatedTurns;
    var scaffoldPerTurn := 50;
    var promptTok := ToTokens(promptChars);
    var pairTok := promptTok + 50;
    var toolsPerTurn :=
      if useIntelligence
      then (if toolCount < ARGENTOR_DISCOVERY_MAX_TOOLS then toolCount else ARGENTOR_DISCOVERY_MAX_TOOLS) * TOKENS_PER_TOOL
      else toolCount * TOKENS_PER_TOOL;
    totalPromptTokens, totalToolTokens, totalHistoryTokens := 0, 0, 0;
    var runningHistory := 0;
    for t := 0 to turns
      invariant runningHistory == if useIntelligence then Running(compress, pairTok, t) else t * pairTok
      invariant totalHistoryTokens == if useIntelligence then CompactSum(compress, pairTok, t) else GrowingSum(pairTok, t)
      invariant totalToolTokens == Times(toolsPerTurn, t)
      invariant totalPromptTokens ==
                Times(scaffoldPerTurn, t) + Times(toolsPerTurn, t) + Times(promptTok, t) + totalHistoryTokens
    {
      NextMultiple(scaffoldPerTurn, t);
      NextMultiple(toolsPerTurn, t);
      NextMultiple(promptTok, t);
      NextMultiple(pairTok, t);
      var turnHistory := runningHistory;
      totalPromptTokens := totalPromptTokens + (scaffoldPerTurn + toolsPerTurn + turnHistory + promptTok);
      totalToolTokens := totalToolTokens + toolsPerTurn;
      totalHistoryTokens := totalHistoryTokens + turnHistory;
      runningHistory := runningHistory + pairTok;
      if useIntelligence && runningHistory > COMPACTION_TRIGGER_TOKENS {
        runningHistory := compress(runningHistory);
      }
    }
    NaiveSumIsGrowingSum(pairTok, turns);
    assert ToTokens(0) == 0;
  }

  lemma NextMultiple(a: nat, t: nat)
    ensures Times(a, t + 1) == Times(a, t) + a && (t + 1) * a == t * a + a
  {}
}
