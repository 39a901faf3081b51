/**
 server/agent.py: the planner graph plan -> (tool_select, tool_run, retrieve_context | respond [, critique] | nothing)
 -> decide_retry -> plan or end, with a step counter, a retry counter and a windowed cycle detector.
 The model, the tools and their errors are arbitrary.
 */
module Planner {
  import opened Common

  /** The `type` of a model reply that parsed. */
  datatype Kind = ToolCall | FinalAnswer | Other

  datatype Reply = LlmError | Payload(kind: Kind, signature: string)

  /** What the tool dispatcher does: whether the name is known, the call returns, and its result says ok. */
  datatype ToolOutcome = ToolOutcome(known: bool, completes: bool, ok: bool)

  datatype Config = Config(maxIterations: int, maxRetriesPerStep: int, window: int, threshold: int, enableCritique: bool)
  {
    function M(): nat { Max(1, maxIterations) }
    function R(): nat { Max(0, maxRetriesPerStep) }
    function W(): nat { Max(window, 1) }
    function T(): nat { Max(threshold, 1) }
  }

  datatype StopReason = Finalized | MaxSteps | RetryLimit | CycleDetected

  /** How a run went: why it stopped, the nodes visited, completed tool rounds, plans made, and steps_used gained. */
  datatype Outcome = Outcome(reason: StopReason, visits: nat, toolRounds: nat, plans: nat, steps: nat)

  function After(visits: nat, toolRounds: nat, steps: nat, rest: Outcome): Outcome {
    Outcome(rest.reason, visits + rest.visits, toolRounds + rest.toolRounds, 1 + rest.plans, steps + rest.steps)
  }

  type Model = nat -> Reply

  // ---- Cycle detection ----

  /** The last k entries are all equal. */
  predicate LastEqual(history: seq<string>, k: nat) {
    k <= |history| && forall i, j :: |history| - k <= i < |history| && |history| - k <= j < |history| ==> history[i] == history[j]
  }

  /** The run of equal signatures at the end is as long as the threshold, and the window can show that many. */
  predicate Cycle(config: Config, history: seq<string>) {
    config.T() <= config.W() && LastEqual(history, config.T())
  }

  // ---- The run, seen from outside ----

  /** From plan back to plan or to the end: whether it stops, nodes visited, tool rounds, steps and retries after it. */
  datatype Round = Round(stop: Option<StopReason>, visits: nat, toolRounds: nat, steps: nat, retries: nat)

  /**
   A tool call costs a step, a final answer ends the run, anything else costs a retry. Neither tool results nor
   the flags the nodes pass to each other appear here.
   */
  function OneRound(config: Config, reply: Reply, steps: nat, retries: nat, history: seq<string>): Round {
    if reply.Payload? && Cycle(config, history + [reply.signature]) then Round(Some(CycleDetected), 1, 0, steps, retries)
    else if reply.Payload? && reply.kind == ToolCall then
      Round(if steps + 1 >= config.maxIterations then Some(MaxSteps) else None, 5, 1, steps + 1, 0)
    else if reply.Payload? && reply.kind == FinalAnswer then
      Round(Some(Finalized), if config.enableCritique then 4 else 3, 0, steps + 1, 0)
    else
      Round(if steps >= config.maxIterations then Some(MaxSteps)
            else if retries + 1 > config.maxRetriesPerStep then Some(RetryLimit) else None, 2, 0, steps, retries + 1)
  }

  function Seen(reply: Reply, history: seq<string>): seq<string> {
    if reply.Payload? then history + [reply.signature] else history
  }

  /** A run as a loop over plans. */
  ghost function Rounds(config: Config, model: Model, i: nat, steps: nat, retries: nat, history: seq<string>): Outcome
    requires steps < config.M() && retries <= config.R()
    decreases config.M() - steps, config.R() - retries
  {
    var round := OneRound(config, model(i), steps, retries, history);
    if round.stop.Some? then Outcome(round.stop.value, round.visits, round.toolRounds, 1, round.steps - steps)
    else After(round.visits, round.toolRounds, round.steps - steps,
               Rounds(config, model, i + 1, round.steps, round.retries, Seen(model(i), history)))
  }

  ghost function RunOutcome(config: Config, model: Model): Outcome {
    Rounds(config, model, 0, 0, 0, [])
  }

  // ---- Bounds ----

  /** n steps with every retry used before each. */
  function Budget(n: nat, retries: nat): nat {
    if n == 0 then 0 else Budget(n - 1, retries) + 5 + 2 * retries
  }

  lemma {:induction false} BudgetIsProduct(n: nat, retries: nat)
    ensures Budget(n, retries) == n * (5 + 2 * retries)
  {
    if n > 0 {
      BudgetIsProduct(n - 1, retries);
      assert n * (5 + 2 * retries) == (n - 1) * (5 + 2 * retries) + (5 + 2 * retries);
    }
  }

  lemma {:induction false} RoundsBounded(config: Config, model: Model, i: nat, steps: nat, retries: nat, history: seq<string>)
    requires steps < config.M() && retries <= config.R()
    ensures var out := Rounds(config, model, i, steps, retries, history);
            && out.visits + 2 * retries <= Budget(config.M() - steps, config.R())
            && out.toolRounds <= config.M() - steps
            && out.toolRounds <= out.steps <= out.toolRounds + 1
    decreases config.M() - steps, config.R() - retries
  {
    var left := config.M() - steps;
    assert Budget(left, config.R()) == Budget(left - 1, config.R()) + 5 + 2 * config.R();
    var round := OneRound(config, model(i), steps, retries, history);
    if round.stop.None? {
      RoundsBounded(config, model, i + 1, round.steps, round.retries, Seen(model(i), history));
    }
  }

  /** Whatever the model answers, a run takes at most M tool rounds and M * (5 + 2R) node visits. */
  lemma RunBounded(config: Config, model: Model)
    ensures var out := RunOutcome(config, model);
            && out.toolRounds <= Max(1, config.maxIterations)
            && out.visits <= Max(1, config.maxIterations) * (5 + 2 * Max(0, config.maxRetriesPerStep))
  {
    RoundsBounded(config, model, 0, 0, 0, []);
    BudgetIsProduct(config.M(), config.R());
  }

  // ---- The bound is reached ----

  function Marks(n: nat): string { seq(n, _ => 'x') }

  /** Fails every time it may, then calls a tool, with a different signature each time. */
  function WorstReply(retries: nat, i: nat): Reply {
    if i % (retries + 1) == retries then Payload(ToolCall, Marks(i)) else LlmError
  }

  lemma NextRemainder(i: nat, n: nat)
    requires n > 0
    ensures (i + 1) % n == if i % n == n - 1 then 0 else i % n + 1
  {
    var q, r := i / n, i % n;
    assert i + 1 == q * n + (r + 1);
    if r == n - 1 {
      assert i + 1 == (q + 1) * n;
      RemainderOf(q + 1, 0, n);
    } else {
      RemainderOf(q, r + 1, n);
    }
  }

  lemma RemainderOf(q: nat, r: nat, n: nat)
    requires r < n
    ensures (q * n + r) % n == r
  {
    var d := (q * n + r) / n - q;
    assert (q * n + r) % n == r - d * n;
  }

  /** One round of such a run: a retry while there is one left, then a tool round with a new signature. */
  lemma WorstRound(config: Config, model: Model, i: nat, steps: nat, retries: nat, history: seq<string>)
    requires config.maxIterations >= 1 && config.threshold >= 2 && model(i) == WorstReply(config.R(), i)
    requires steps < config.M() && retries <= config.R() && i % (config.R() + 1) == retries
    requires history == [] || |history[|history| - 1]| < i
    ensures OneRound(config, model(i), steps, retries, history)
            == if retries < config.R() then Round(None, 2, 0, steps, retries + 1)
               else Round(if steps + 1 >= config.M() then Some(MaxSteps) else None, 5, 1, steps + 1, 0)
    ensures (i + 1) % (config.R() + 1) == if retries < config.R() then retries + 1 else 0
    ensures var seen := Seen(model(i), history); seen == [] || |seen[|seen| - 1]| < i + 1
  {
    NextRemainder(i, config.R() + 1);
    if retries == config.R() {
      var seen := history + [Marks(i)];
      if history != [] {
        assert seen[|seen| - 2] == history[|history| - 1] && seen[|seen| - 1] == Marks(i);
        assert |Marks(i)| != |history[|history| - 1]|;
      }
      assert !Cycle(config, seen);
    }
  }

  lemma {:induction false} WorstRounds(config: Config, model: Model, i: nat, steps: nat, retries: nat, history: seq<string>)
    requires config.maxIterations >= 1 && config.threshold >= 2
    requires forall k: nat :: model(k) == WorstReply(config.R(), k)
    requires steps < config.M() && retries <= config.R() && i % (config.R() + 1) == retries
    requires history == [] || |history[|history| - 1]| < i
    ensures var out := Rounds(config, model, i, steps, retries, history);
            out.visits + 2 * retries == Budget(config.M() - steps, config.R())
    decreases config.M() - steps, config.R() - retries
  {
    WorstRound(config, model, i, steps, retries, history);
    var round := OneRound(config, model(i), steps, retries, history);
    if round.stop.None? {
      WorstRounds(config, model, i + 1, round.steps, round.retries, Seen(model(i), history));
    }
  }

  /** With a threshold of one the first reply that parses is a cycle, so only errors prolong a run. */
  lemma {:induction false} EagerRoundsBounded(config: Config, model: Model, i: nat, steps: nat, retries: nat, history: seq<string>)
    requires config.threshold <= 1 && steps < config.M() && retries <= config.R()
    ensures Rounds(config, model, i, steps, retries, history).visits + 2 * retries <= 2 * (config.R() + 1)
    decreases config.R() - retries
  {
    if model(i).Payload? {
      assert Cycle(config, history + [model(i).signature]);
    } else if steps < config.maxIterations && retries + 1 <= config.maxRetriesPerStep {
      EagerRoundsBounded(config, model, i + 1, steps, retries + 1, history);
    }
  }

  lemma {:induction false} AllErrors(config: Config, model: Model, i: nat, retries: nat, history: seq<string>)
    requires config.maxIterations >= 1 && retries <= config.R() && forall k: nat :: model(k) == LlmError
    ensures Rounds(config, model, i, 0, retries, history).visits + 2 * retries == 2 * (config.R() + 1)
    decreases config.R() - retries
  {
    assert model(i) == LlmError;
    if retries + 1 <= config.maxRetriesPerStep {
      AllErrors(config, model, i + 1, retries + 1, history);
    }
  }

  /** Node visits of the longest run, for any settings: without iterations the first round is the last. */
  function WorstVisits(config: Config): nat {
    if config.maxIterations <= 0 then (if config.threshold <= 1 then 2 else 5)
    else if config.threshold <= 1 then 2 * (config.R() + 1)
    else config.M() * (5 + 2 * config.R())
  }

  lemma VisitsBounded(config: Config, model: Model)
    ensures RunOutcome(config, model).visits <= WorstVisits(config)
  {
    if config.maxIterations >= 1 {
      RunBounded(config, model);
    }
    if config.threshold <= 1 {
      EagerRoundsBounded(config, model, 0, 0, 0, []);
      if model(0).Payload? {
        assert Cycle(config, [] + [model(0).signature]);
      }
    }
  }

  /** Some run is that long. */
  lemma VisitsAttained(config: Config) returns (worst: Model)
    ensures RunOutcome(config, worst).visits == WorstVisits(config)
  {
    var r := config.R();
    if config.threshold <= 1 {
      worst := (i: nat) => LlmError;
      if config.maxIterations >= 1 {
        AllErrors(config, worst, 0, 0, []);
      }
    } else if config.maxIterations <= 0 {
      worst := (i: nat) => Payload(ToolCall, "");
      assert !Cycle(config, [] + [""]);
    } else {
      worst := (i: nat) => WorstReply(r, i);
      WorstRounds(config, worst, 0, 0, 0, []);
      BudgetIsProduct(config.M(), r);
    }
  }

  /** The graph's recursion limit in run(). */
  function RecursionLimit(config: Config): int { Max(config.maxIterations * 4, 32) }

  /**
   The fallback taken when a run visits more nodes than the recursion limit is out of reach exactly when the
   longest run stays within it; with six iterations, two retries and a threshold above one it does not.
   */
  lemma FallbackUnreachableIff(config: Config)
    ensures (forall model: Model :: RunOutcome(config, model).visits <= RecursionLimit(config))
            <==> WorstVisits(config) <= RecursionLimit(config)
  {
    forall model: Model ensures RunOutcome(config, model).visits <= WorstVisits(config) {
      VisitsBounded(config, model);
    }
    var worst := VisitsAttained(config);
  }

  /** With the default settings some run visits 54 nodes, against a limit of 32. */
  lemma DefaultsReachFallback() returns (worst: Model)
    ensures var defaults := Config(6, 2, 8, 3, false);
            RunOutcome(defaults, worst).visits == 54 && RecursionLimit(defaults) == 32
  {
    worst := VisitsAttained(Config(6, 2, 8, 3, false));
  }

  // ---- When and why a run stops ----

  /** The signatures of the first n replies. */
  ghost function History(model: Model, n: nat): seq<string> {
    if n == 0 then []
    else History(model, n - 1) + (if model(n - 1).Payload? then [model(n - 1).signature] else [])
  }

  /** Plan number k (from 1) completes a cycle. */
  ghost predicate CycleAt(config: Config, model: Model, k: nat) {
    k >= 1 && model(k - 1).Payload? && Cycle(config, History(model, k))
  }

  lemma CycleEndsRound(config: Config, model: Model, i: nat, steps: nat, retries: nat)
    ensures OneRound(config, model(i), steps, retries, History(model, i)).stop == Some(CycleDetected)
            <==> CycleAt(config, model, i + 1)
    ensures Seen(model(i), History(model, i)) == History(model, i + 1)
  {
    assert History(model, i) + [] == History(model, i);
  }

  /** No plan before the last completes a cycle, and the last does exactly when that is the reason. */
  ghost predicate StopsAtCycle(config: Config, model: Model, i: nat, out: Outcome) {
    && out.plans >= 1
    && (forall k: nat :: i < k < i + out.plans ==> !CycleAt(config, model, k))
    && (CycleAt(config, model, i + out.plans) <==> out.reason == CycleDetected)
  }

  lemma LastRoundStopsAtCycle(config: Config, model: Model, i: nat, steps: nat, retries: nat)
    requires steps < config.M() && retries <= config.R()
    requires OneRound(config, model(i), steps, retries, History(model, i)).stop.Some?
    ensures StopsAtCycle(config, model, i, Rounds(config, model, i, steps, retries, History(model, i)))
  {
    CycleEndsRound(config, model, i, steps, retries);
  }

  lemma EarlierRoundStopsAtCycle(config: Config, model: Model, i: nat, rest: Outcome, out: Outcome)
    requires !CycleAt(config, model, i + 1) && StopsAtCycle(config, model, i + 1, rest)
    requires out.plans == 1 + rest.plans && out.reason == rest.reason
    ensures StopsAtCycle(config, model, i, out)
  {
    assert i + out.plans == i + 1 + rest.plans;
    forall k: nat | i < k < i + out.plans ensures !CycleAt(config, model, k) {
      if k != i + 1 {
        assert i + 1 < k < i + 1 + rest.plans;
      }
    }
  }

  lemma {:induction false} CycleStopsFrom(config: Config, model: Model, i: nat, steps: nat, retries: nat)
    requires steps < config.M() && retries <= config.R()
    ensures StopsAtCycle(config, model, i, Rounds(config, model, i, steps, retries, History(model, i)))
    decreases config.M() - steps, config.R() - retries
  {
    var round := OneRound(config, model(i), steps, retries, History(model, i));
    if round.stop.Some? {
      LastRoundStopsAtCycle(config, model, i, steps, retries);
    } else {
      CycleStopsFrom(config, model, i + 1, round.steps, round.retries);
      CycleEndsRound(config, model, i, steps, retries);
      EarlierRoundStopsAtCycle(config, model, i, Rounds(config, model, i + 1, round.steps, round.retries, History(model, i + 1)),
                               Rounds(config, model, i, steps, retries, History(model, i)));
    }
  }

  /**
   A run stops with `cycle_detected` at exactly the first plan that completes a cycle in the full history,
   unless it stopped for another reason before; with a threshold above the window it never does.
   */
  lemma CycleStopsAtFirst(config: Config, model: Model, k: nat)
    requires 1 <= k <= RunOutcome(config, model).plans
    ensures CycleAt(config, model, k)
            <==> k == RunOutcome(config, model).plans && RunOutcome(config, model).reason == CycleDetected
    ensures config.T() > config.W() ==> RunOutcome(config, model).reason != CycleDetected
  {
    CycleStopsFrom(config, model, 0, 0, 0);
  }

  /** What a cycle is: the last signatures, as many as the threshold, are all that of this plan, and fit the window. */
  lemma CycleMeans(config: Config, model: Model, k: nat)
    requires k >= 1 && model(k - 1).Payload?
    ensures var history, threshold := History(model, k), Max(config.threshold, 1);
            CycleAt(config, model, k) <==>
              && threshold <= Max(config.window, 1) && threshold <= |history|
              && forall i :: |history| - threshold <= i < |history| ==> history[i] == model(k - 1).signature
  {
    var history := History(model, k);
    assert history[|history| - 1] == model(k - 1).signature;
  }

  // ---- Where the steps and visits of a run go ----

  predicate IsTool(reply: Reply) { reply.Payload? && reply.kind == ToolCall }

  predicate IsFinal(reply: Reply) { reply.Payload? && reply.kind == FinalAnswer }

  /** Of n replies from number i on, how many call a tool. */
  ghost function Tools(model: Model, i: nat, n: nat): nat
    decreases n
  {
    if n == 0 then 0 else (if IsTool(model(i)) then 1 else 0) + Tools(model, i + 1, n - 1)
  }

  /** The node visits of the last round: one for a cycle, the way through the answer, a tool round, or a wasted reply. */
  function LastVisits(config: Config, reply: Reply, reason: StopReason): nat {
    if reason == CycleDetected then 1
    else if IsFinal(reply) then (if config.enableCritique then 4 else 3)
    else if IsTool(reply) then 5 else 2
  }

  /**
   The account of a run: all replies but the last are tool calls or wasted; tool rounds are the tool calls, but for
   one that completes a cycle; each costs five visits and a step, a wasted reply two visits, and an answer a step.
   */
  ghost predicate Account(config: Config, model: Model, i: nat, out: Outcome) {
    && out.plans >= 1
    && (forall k: nat :: i <= k < i + out.plans - 1 ==> !IsFinal(model(k)))
    && var last, tools := model(i + out.plans - 1), Tools(model, i, out.plans - 1);
    && (out.reason == Finalized <==> IsFinal(last) && out.reason != CycleDetected)
    && out.toolRounds == tools + (if IsTool(last) && out.reason != CycleDetected then 1 else 0)
    && out.visits == 5 * tools + 2 * (out.plans - 1 - tools) + LastVisits(config, last, out.reason)
    && out.steps == out.toolRounds + (if out.reason == Finalized then 1 else 0)
  }

  lemma LastRoundAccount(config: Config, model: Model, i: nat, steps: nat, retries: nat, history: seq<string>)
    requires steps < config.M() && retries <= config.R()
    requires OneRound(config, model(i), steps, retries, history).stop.Some?
    ensures Account(config, model, i, Rounds(config, model, i, steps, retries, history))
  {
  }

  lemma EarlierRoundAccount(config: Config, model: Model, i: nat, steps: nat, retries: nat, history: seq<string>, rest: Outcome)
    requires var round := OneRound(config, model(i), steps, retries, history);
             round.stop.None? && Account(config, model, i + 1, rest)
    ensures var round := OneRound(config, model(i), steps, retries, history);
            round.steps >= steps && Account(config, model, i, After(round.visits, round.toolRounds, round.steps - steps, rest))
  {
  }

  lemma {:induction false} RoundsAccount(config: Config, model: Model, i: nat, steps: nat, retries: nat, history: seq<string>)
    requires steps < config.M() && retries <= config.R()
    ensures Account(config, model, i, Rounds(config, model, i, steps, retries, history))
    decreases config.M() - steps, config.R() - retries
  {
    var round := OneRound(config, model(i), steps, retries, history);
    if round.stop.Some? {
      LastRoundAccount(config, model, i, steps, retries, history);
    } else {
      RoundsAccount(config, model, i + 1, round.steps, round.retries, Seen(model(i), history));
      EarlierRoundAccount(config, model, i, steps, retries, history,
                          Rounds(config, model, i + 1, round.steps, round.retries, Seen(model(i), history)));
    }
  }

  /** Every run has this account. */
  lemma RunAccount(config: Config, model: Model)
    ensures Account(config, model, 0, RunOutcome(config, model))
  {
    RoundsAccount(config, model, 0, 0, 0, []);
  }

  ghost predicate Wasted(reply: Reply) { reply.LlmError? || reply.kind == Other }

  /** Why a run may have stopped: what the reasons say about the replies it got. */
  ghost predicate Justified(config: Config, model: Model, i: nat, steps: nat, retries: nat, out: Outcome) {
    && out.plans >= 1
    && (out.reason == Finalized ==>
          model(i + out.plans - 1).Payload? && model(i + out.plans - 1).kind == FinalAnswer)
    && (out.reason == MaxSteps ==> steps + out.toolRounds >= config.maxIterations)
    && (out.reason == RetryLimit ==>
          && out.plans + retries >= config.R() + 1
          && forall k: nat :: i <= k < i + out.plans && k + config.R() + 1 >= i + out.plans ==> Wasted(model(k)))
  }

  lemma LastRoundIsJustified(config: Config, model: Model, i: nat, steps: nat, retries: nat, history: seq<string>)
    requires steps < config.M() && retries <= config.R()
    requires OneRound(config, model(i), steps, retries, history).stop.Some?
    ensures Justified(config, model, i, steps, retries, Rounds(config, model, i, steps, retries, history))
  {
  }

  lemma EarlierRoundIsJustified(config: Config, model: Model, i: nat, steps: nat, retries: nat, history: seq<string>, rest: Outcome)
    requires steps < config.M() && retries <= config.R()
    requires var round := OneRound(config, model(i), steps, retries, history);
             round.stop.None? && Justified(config, model, i + 1, round.steps, round.retries, rest)
    ensures var round := OneRound(config, model(i), steps, retries, history);
            Justified(config, model, i, steps, retries, After(round.visits, round.toolRounds, round.steps - steps, rest))
  {
  }

  lemma {:induction false} StopIsJustified(config: Config, model: Model, i: nat, steps: nat, retries: nat, history: seq<string>)
    requires steps < config.M() && retries <= config.R()
    ensures Justified(config, model, i, steps, retries, Rounds(config, model, i, steps, retries, history))
    decreases config.M() - steps, config.R() - retries
  {
    var round := OneRound(config, model(i), steps, retries, history);
    if round.stop.Some? {
      LastRoundIsJustified(config, model, i, steps, retries, history);
    } else {
      StopIsJustified(config, model, i + 1, round.steps, round.retries, Seen(model(i), history));
      EarlierRoundIsJustified(config, model, i, steps, retries, history,
                              Rounds(config, model, i + 1, round.steps, round.retries, Seen(model(i), history)));
    }
  }

  /**
   `finalized` means the last reply was a final answer, `max_steps` that all iterations were spent on tool
   rounds, and `retry_limit` that the last R + 1 replies were errors or of an unknown type.
   */
  lemma RunStopIsJustified(config: Config, model: Model)
    ensures Justified(config, model, 0, 0, 0, RunOutcome(config, model))
  {
    StopIsJustified(config, model, 0, 0, 0, []);
  }

  // ---- The nodes ----

  /** How many entries at the end of the window equal its last one. */
  method CountRepeats(window: seq<string>) returns (repeat: nat)
    requires window != []
    ensures forall k: nat :: k >= 1 ==> (repeat >= k <==> LastEqual(window, k))
  {
    var signature := window[|window| - 1];
    repeat := 0;
    while repeat < |window| && window[|window| - 1 - repeat] == signature
      invariant repeat <= |window|
      invariant forall i :: |window| - repeat <= i < |window| ==> window[i] == signature
    {
      repeat := repeat + 1;
    }
    if repeat < |window| {
      assert window[|window| - 1 - repeat] != window[|window| - 1];
    }
  }

  /** A bounded window sees a cycle exactly when the whole history has one and the window is wide enough. */
  lemma WindowSeesCycle(config: Config, history: seq<string>)
    ensures LastEqual(LastN(history, Max(config.window, 1)), Max(config.threshold, 1)) <==> Cycle(config, history)
  {
    var window, k := LastN(history, config.W()), config.T();
    var shift := |history| - |window|;
    if LastEqual(window, k) {
      forall i, j | |history| - k <= i < |history| && |history| - k <= j < |history| ensures history[i] == history[j] {
        assert window[i - shift] == window[j - shift];
      }
    }
  }

  class PlannerAgent {
    const config: Config
    var stepsUsed: nat
    var retriesUsed: nat
    var stepHasEffect: bool
    var finalRecorded: bool
    var signatures: seq<string>
    var currentAction: Option<Kind>
    var pendingError: bool
    var finalCandidate: bool
    var selectedTool: bool
    var toolResult: Option<bool>
    var critiqueRetry: bool
    var stopReason: Option<StopReason>

    constructor (config: Config)
      ensures this.config == config && AtPlan([]) && stepsUsed == 0 && retriesUsed == 0
    {
      this.config := config;
      stepsUsed, retriesUsed, stepHasEffect, finalRecorded, signatures := 0, 0, false, false, [];
      currentAction, pendingError, finalCandidate, selectedTool, toolResult := None, false, false, false, None;
      critiqueRetry, stopReason := false, None;
    }

    /** The state in which the graph enters plan, after the plans whose signatures are `history`. */
    ghost predicate AtPlan(history: seq<string>)
      reads this
    {
      && signatures == LastN(history, config.W())
      && currentAction == None && !pendingError && !finalCandidate && !stepHasEffect && !finalRecorded
      && !selectedTool && !critiqueRetry && stopReason == None
    }

    /** _update_cycle_history */
    method UpdateCycleHistory(signature: string, ghost history: seq<string>)
      requires signatures == LastN(history, config.W())
      modifies `signatures, `stopReason
      ensures signatures == LastN(history + [signature], config.W())
      ensures stopReason == if Cycle(config, history + [signature]) then Some(CycleDetected) else old(stopReason)
    {
      signatures := LastN(signatures + [signature], config.W());
      var repeat := CountRepeats(signatures);
      WindowSeesCycle(config, history + [signature]);
      if repeat >= config.T() {
        stopReason := Some(CycleDetected);
      }
    }

    method NodePlan(reply: Reply, ghost history: seq<string>)
      requires signatures == LastN(history, config.W())
      modifies `currentAction, `pendingError, `signatures, `stopReason
      ensures reply.LlmError? ==> currentAction == None && pendingError
                                  && signatures == old(signatures) && stopReason == old(stopReason)
      ensures reply.Payload? ==>
                && currentAction == Some(reply.kind) && pendingError == old(pendingError)
                && signatures == LastN(history + [reply.signature], config.W())
                && stopReason == if Cycle(config, history + [reply.signature]) then Some(CycleDetected) else old(stopReason)
    {
      match reply
      case LlmError =>
        currentAction, pendingError := None, true;
      case Payload(kind, signature) =>
        currentAction := Some(kind);
        UpdateCycleHistory(signature, history);
    }

    method NodeToolSelect(tool: ToolOutcome)
      modifies `pendingError, `selectedTool
      ensures selectedTool == (tool.known || old(selectedTool)) && pendingError == (old(pendingError) || !tool.known)
    {
      if !tool.known {
        pendingError := true;
        return;
      }
      selectedTool := true;
    }

    method NodeToolRun(tool: ToolOutcome)
      modifies `pendingError, `toolResult
      ensures pendingError == (old(pendingError) || !selectedTool || !tool.completes)
      ensures toolResult == if selectedTool then Some(tool.completes && tool.ok) else old(toolResult)
    {
      if !selectedTool {
        pendingError := true;
        return;
      }
      if !tool.completes {
        toolResult, pendingError := Some(false), true;
        return;
      }
      toolResult := Some(tool.ok);
    }

    method NodeRetrieveContext()
      modifies `pendingError, `stepsUsed, `stepHasEffect, `retriesUsed, `selectedTool
      ensures !selectedTool && pendingError == (old(pendingError) || toolResult == Some(false))
      ensures if currentAction == Some(ToolCall)
              then stepsUsed == old(stepsUsed) + 1 && stepHasEffect && retriesUsed == 0
              else stepsUsed == old(stepsUsed) && stepHasEffect == old(stepHasEffect) && retriesUsed == old(retriesUsed)
    {
      if toolResult.Some? && !toolResult.value {
        pendingError := true;
      }
      if currentAction == Some(ToolCall) {
        stepsUsed, stepHasEffect, retriesUsed := stepsUsed + 1, true, 0;
      }
      selectedTool := false;
    }

    method NodeRespond()
      modifies `pendingError, `finalCandidate
      ensures currentAction.Some? ==> finalCandidate && pendingError == old(pendingError)
      ensures currentAction.None? ==> pendingError && finalCandidate == old(finalCandidate)
    {
      if currentAction.None? {
        pendingError := true;
        return;
      }
      finalCandidate := true;
    }

    method NodeCritique()
      modifies `critiqueRetry
      ensures critiqueRetry == !finalCandidate
    {
      critiqueRetry := !finalCandidate;
    }

    /** decide_retry; a set stopReason means that the graph ends here. */
    method NodeDecideRetry()
      requires stopReason == None && !finalRecorded
      modifies `pendingError, `stepsUsed, `retriesUsed, `stepHasEffect, `finalRecorded,
               `stopReason, `finalCandidate, `toolResult, `currentAction
      ensures !pendingError
      ensures var maxed := old(stepsUsed) >= config.maxIterations && !old(finalCandidate);
              var done := !maxed && ((old(finalCandidate) && !old(pendingError) && !critiqueRetry)
                                     || old(currentAction) == Some(FinalAnswer));
              var exhausted := !maxed && !done && !old(stepHasEffect)
                               && old(retriesUsed) + 1 > config.maxRetriesPerStep;
              && stopReason == (if maxed then Some(MaxSteps) else if done then Some(Finalized)
                                else if exhausted then Some(RetryLimit) else None)
              && stepsUsed == old(stepsUsed) + (if done then 1 else 0)
              && finalRecorded == done
              && (stopReason == None ==>
                    && retriesUsed == (if old(stepHasEffect) then 0 else old(retriesUsed) + 1)
                    && !stepHasEffect && !finalCandidate && currentAction == None)
    {
      var pending := pendingError;
      pendingError := false;
      var stop := false;
      if stepsUsed >= config.maxIterations && !finalCandidate {
        stop, stopReason := true, Some(MaxSteps);
      } else if pending || critiqueRetry {
      } else if finalCandidate {
        RecordFinal();
        stop := true;
      }
      if !stop && currentAction == Some(FinalAnswer) {
        RecordFinal();
        stop := true;
      }
      if !stop {
        if stepHasEffect {
          stepHasEffect, retriesUsed := false, 0;
        } else {
          retriesUsed := retriesUsed + 1;
          if retriesUsed > config.maxRetriesPerStep {
            stopReason := Some(RetryLimit);
            return;
          }
        }
        finalCandidate, toolResult, currentAction := false, None, None;
      }
    }

    /** What both finalising branches of decide_retry do to the counters. */
    method RecordFinal()
      requires stopReason == None && !finalRecorded
      modifies `stepsUsed, `finalRecorded, `retriesUsed, `stepHasEffect, `stopReason
      ensures stepsUsed == old(stepsUsed) + 1 && finalRecorded && retriesUsed == 0 && stepHasEffect
      ensures stopReason == Some(Finalized)
    {
      if !finalRecorded {
        stepsUsed, finalRecorded := stepsUsed + 1, true;
      }
      retriesUsed, stepHasEffect := 0, true;
      if stopReason == None {
        stopReason := Some(Finalized);
      }
    }

    /** One way round the graph, along the edges of _build_graph. */
    method WalkRound(reply: Reply, tool: ToolOutcome, ghost history: seq<string>) returns (visits: nat, toolRounds: nat)
      requires AtPlan(history)
      modifies this
      ensures var round := OneRound(config, reply, old(stepsUsed), old(retriesUsed), history);
              && stopReason == round.stop && visits == round.visits && toolRounds == round.toolRounds
              && stepsUsed == round.steps
              && (round.stop.None? ==> AtPlan(Seen(reply, history)) && retriesUsed == round.retries)
    {
      toolRounds := 0;
      NodePlan(reply, history);
      if stopReason.Some? { return 1, 0; }
      if currentAction == Some(ToolCall) {
        NodeToolSelect(tool);
        NodeToolRun(tool);
        NodeRetrieveContext();
        visits, toolRounds := 4, 1;
      } else if currentAction == Some(FinalAnswer) {
        NodeRespond();
        visits := 2;
        if config.enableCritique {
          NodeCritique();
          visits := 3;
        }
      } else {
        visits := 1;
      }
      NodeDecideRetry();
      visits := visits + 1;
    }

    /** run(): the graph from its entry point to its end, without the recursion limit. */
    method Run(model: Model, tools: nat -> ToolOutcome) returns (out: Outcome)
      requires AtPlan([]) && stepsUsed == 0 && retriesUsed == 0
      modifies this
      ensures out == RunOutcome(config, model)
      ensures stopReason == Some(out.reason) && stepsUsed == out.steps
    {
      var visits: nat, toolRounds: nat, plans: nat := 0, 0, 0;
      ghost var history: seq<string> := [];
      ghost var rest := RunOutcome(config, model);
      while stopReason.None?
        invariant stopReason.None? ==>
                    && AtPlan(history) && stepsUsed < config.M() && retriesUsed <= config.R()
                    && rest == Rounds(config, model, plans, stepsUsed, retriesUsed, history)
        invariant stopReason.Some? ==> rest == Outcome(stopReason.value, 0, 0, 0, 0)
        invariant RunOutcome(config, model)
                  == Outcome(rest.reason, visits + rest.visits, toolRounds + rest.toolRounds, plans + rest.plans,
                             stepsUsed + rest.steps)
        decreases stopReason.None?, config.M() - stepsUsed, config.R() - retriesUsed
      {
        var v, t := WalkRound(model(plans), tools(plans), history);
        history := Seen(model(plans), history);
        visits, toolRounds, plans := visits + v, toolRounds + t, plans + 1;
        rest := if stopReason.Some? then Outcome(stopReason.value, 0, 0, 0, 0)
                else Rounds(config, model, plans, stepsUsed, retriesUsed, history);
      }
      out := Outcome(stopReason.value, visits, toolRounds, plans, stepsUsed);
    }
  }
}
