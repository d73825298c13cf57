/** The execution harness: gates in order, then at most one call of a real tool. */
module Harness {
  import opened Wrappers
  import opened Text
  import opened Guardrail
  import opened RemediationAgent

  // ----- The success rate of a tool -----

  /** The `success_rate` field of an event: missing, not a number, or a number. */
  datatype RateField = Missing | Unusable | Usable(rate: real)

  /** One element of the history list: the tool names in its four name fields. */
  datatype Event = Event(names: set<Tool>, rate: RateField, success: bool)

  /** The history file: unreadable or of no known format, a table, or a list of events. */
  datatype History = NoHistory | Table(rates: map<Tool, RateField>) | Events(events: seq<Event>)

  const DEFAULT_RATE: real := 0.85

  function Matching(events: seq<Event>, tool: Tool): seq<Event> {
    if events == [] then []
    else (if tool in events[0].names then [events[0]] else []) + Matching(events[1..], tool)
  }

  function FirstRate(events: seq<Event>): Option<real> {
    if events == [] then None
    else if events[0].rate.Usable? then Some(events[0].rate.rate)
    else FirstRate(events[1..])
  }

  function Successes(events: seq<Event>): (n: nat)
    ensures n <= |events|
  {
    if events == [] then 0 else (if events[0].success then 1 else 0) + Successes(events[1..])
  }

  /** `_get_historical_success_rate` */
  function RateOf(history: History, tool: Tool): real {
    match history
    case NoHistory => DEFAULT_RATE
    case Table(rates) => if tool in rates && rates[tool].Usable? then rates[tool].rate else DEFAULT_RATE
    case Events(events) =>
      var matching := Matching(events, tool);
      if matching == [] then DEFAULT_RATE
      else if FirstRate(matching).Some? then FirstRate(matching).value
      else Successes(matching) as real / |matching| as real
  }

  /** A history without explicit rates yields a share: 1 exactly if every event of the tool
      succeeded, 0 exactly if none did. */
  lemma CountedRateIsAShare(events: seq<Event>, tool: Tool)
    requires Matching(events, tool) != [] && FirstRate(Matching(events, tool)).None?
    ensures var r := RateOf(Events(events), tool);
            && 0.0 <= r <= 1.0
            && (r == 1.0 <==> forall i | 0 <= i < |events| :: tool in events[i].names ==> events[i].success)
            && (r == 0.0 <==> forall i | 0 <= i < |events| :: tool in events[i].names ==> !events[i].success)
  {
    SuccessesOf(events, tool);
    var n, m := Successes(Matching(events, tool)), |Matching(events, tool)|;
    ShareBounds(n, m);
  }

  lemma ShareBounds(n: nat, m: nat)
    requires n <= m && m > 0
    ensures 0.0 <= n as real / m as real <= 1.0
    ensures n as real / m as real == 1.0 <==> n == m
    ensures n as real / m as real == 0.0 <==> n == 0
  {
  }

  lemma {:induction false} SuccessesOf(events: seq<Event>, tool: Tool)
    ensures var matching := Matching(events, tool);
            && (Successes(matching) == |matching|
                <==> forall i | 0 <= i < |events| :: tool in events[i].names ==> events[i].success)
            && (Successes(matching) == 0
                <==> forall i | 0 <= i < |events| :: tool in events[i].names ==> !events[i].success)
  {
    if events != [] {
      SuccessesOf(events[1..], tool);
      var rest := Matching(events[1..], tool);
      assert events == [events[0]] + events[1..];
      if tool in events[0].names {
        assert Matching(events, tool)[1..] == rest;
      } else {
        assert Matching(events, tool) == rest;
      }
    }
  }

  // ----- The confidence ratio -----

  function Clamp(x: real): real { if x < 0.0 then 0.0 else if x > 1.0 then 1.0 else x }

  /** `round(x, 2)`: the nearest hundredth, a tie going to the even one. */
  function Round2(x: real): real {
    var n := (x * 100.0).Floor;
    var rest := x * 100.0 - n as real;
    var up := rest > 0.5 || (rest == 0.5 && n % 2 == 1);
    (if up then n + 1 else n) as real / 100.0
  }

  predicate Delicate(target: string) {
    Contains(Lower(target), "postgres") || Contains(Lower(target), "redis")
  }

  predicate Slow(tool: Tool) { tool in {RestartContainer, RunQuery} }

  /** The rate after the penalties: a delicate target costs 0.15 of it, a slow tool 0.10. */
  function Penalised(slow: bool, delicate: bool, rate: real): real {
    if slow && delicate then 0.75 * rate
    else if slow then 0.90 * rate
    else if delicate then 0.85 * rate
    else rate
  }

  function Rounded(x: real): real { Clamp(Round2(Clamp(x))) }

  function Confidence(tool: Tool, target: string, rate: real): real {
    Rounded(Penalised(Slow(tool), Delicate(target), rate))
  }

  function Base(slow: bool, delicate: bool): real {
    if slow && delicate then 0.75 else if slow then 0.90 else if delicate then 0.85 else 1.0
  }

  lemma BaseTimesRate(slow: bool, delicate: bool, rate: real)
    ensures Base(slow, delicate) * rate == Penalised(slow, delicate, rate)
  {
  }

  method ApplyPenalties(slow: bool, delicate: bool) returns (score: real)
    ensures score == Base(slow, delicate)
  {
    score := 1.0;
    if delicate {
      score := score - 0.15;
    }
    if slow {
      score := score - 0.10;
    }
  }

  /** The historical modifier, then clamping and rounding. */
  method ApplyRate(score: real, rate: real, ghost product: real) returns (r: real)
    requires product == score * rate
    ensures r == Rounded(product)
  {
    r := Clamp(score * rate);
    r := Round2(r);
    r := Clamp(r);
  }

  /** `calculate_confidence` */
  method CalculateConfidence(tool: Tool, target: string, history: History) returns (score: real)
    ensures score == Confidence(tool, target, RateOf(history, tool))
  {
    var slow, delicate, rate := Slow(tool), Delicate(target), RateOf(history, tool);
    score := ApplyPenalties(slow, delicate);
    BaseTimesRate(slow, delicate, rate);
    score := ApplyRate(score, rate, Penalised(slow, delicate, rate));
  }

  const THRESHOLD: real := 0.70

  /** Rounding moves the threshold: a proposal is confident enough exactly from 0.695 on. */
  lemma ConfidentIff(tool: Tool, target: string, rate: real)
    ensures 0.0 <= Confidence(tool, target, rate) <= 1.0
    ensures Confidence(tool, target, rate) >= THRESHOLD <==> Penalised(Slow(tool), Delicate(target), rate) >= 0.695
  {
    RoundedThreshold(Penalised(Slow(tool), Delicate(target), rate));
  }

  lemma RoundedThreshold(x: real)
    ensures Rounded(x) >= THRESHOLD <==> x >= 0.695
  {
    var y := Clamp(x);
    var n := (y * 100.0).Floor;
    assert x >= 0.695 <==> y >= 0.695;
    if y >= 0.70 {
      assert n >= 70;
    } else if y >= 0.69 {
      assert n == 69;
    } else {
      assert n <= 68;
    }
  }

  // ----- The harness -----

  /** A call of a tool on a container. */
  datatype Call =
    | Query(target: string, statement: Value, setting: Option<Value>, value: Option<Value>)
    | Configure(target: string, key: Option<Value>, value: Option<Value>)
    | EditFile(target: string, path: Option<Value>, content: Option<Value>)
    | Restart(target: string)
    | Scale(target: string, operation: Option<Value>, value: Option<Value>)

  function Find(parameters: map<Key, Value>, key: Key): Option<Value> {
    if key in parameters then Some(parameters[key]) else None
  }

  /** The dispatch: any other tool name runs nothing. */
  function CallOf(p: Proposal): seq<Call>
    requires p.Proposal?
  {
    match p.tool
    case RunQuery =>
      [Query(p.target, Get(p.parameters, StatementType, Words("alter_system_set")), Find(p.parameters, Setting),
             Find(p.parameters, ValueKey))]
    case RunConfigCommand => [Configure(p.target, Find(p.parameters, ConfigKey), Find(p.parameters, ValueKey))]
    case EditConfigFile =>
      [EditFile(p.target, Find(p.parameters, OtherKey("path")), Find(p.parameters, OtherKey("content")))]
    case RestartService => [Restart(p.target)]
    case ScaleReplicas => [Scale(p.target, Find(p.parameters, Operation), Find(p.parameters, ValueKey))]
    case _ => []
  }

  /** An element of the command list. */
  datatype Element = Command(text: string) | NotText

  /** The fields of the input file that the harness reads. */
  datatype Incident = Incident(
    problem: string,
    violation: bool,
    commands: seq<Element>,
    confidence: int,
    calculatedConfidence: int)

  /** What the containers do: whether a call or the later inspection fails, and what that sees. */
  datatype Containers = Containers(callFails: bool, readFails: bool, after: After)
  datatype After = After(running: bool, maxConnections: Option<int>, policy: string)

  datatype Report =
    | Failed
    | BlockedSafetyViolation
    | BlockedUnmapped
    | BlockedGuardrail(rejected: Proposal, verdict: Verdict)
    | BlockedLowConfidence(doubtful: Proposal, confidence: real)
    | Executed(proposal: Proposal, confidence: real, faultCleared: bool)

  /** Joining the commands fails on one that is not a string. */
  function Texts(commands: seq<Element>): Option<seq<string>> {
    if commands == [] then Some([])
    else
      var rest := Texts(commands[1..]);
      if commands[0].NotText? || rest.None? then None else Some([commands[0].text] + rest.value)
  }

  function FaultCleared(target: string, after: After): bool {
    if target == POSTGRES then after.maxConnections.Some? && after.maxConnections.value > 100
    else if target == REDIS then after.policy in {"volatile-lru", "allkeys-lru"}
    else target == RABBITMQ || after.running
  }

  /** The gates, in order. */
  function Decide(incident: Option<Incident>, history: History): (r: Report)
    ensures r.Executed? ==> r.proposal.Proposal?
  {
    if incident.None? then Failed
    else if incident.value.violation then BlockedSafetyViolation
    else
      var texts := Texts(incident.value.commands);
      if texts.None? then Failed
      else
        var p := ProposeAction(incident.value.problem, texts.value);
        if p.Unmapped? then BlockedUnmapped
        else if !VerdictOf(p).Passed? then BlockedGuardrail(p, VerdictOf(p))
        else
          var confidence := Confidence(p.tool, p.target, RateOf(history, p.tool));
          if confidence < THRESHOLD then BlockedLowConfidence(p, confidence)
          else Executed(p, confidence, false)
  }

  function CallsOf(decision: Report): seq<Call>
    requires decision.Executed? ==> decision.proposal.Proposal?
  {
    if decision.Executed? then CallOf(decision.proposal) else []
  }

  /** The report, after what the containers did. */
  function ReportOf(decision: Report, world: Containers): Report
    requires decision.Executed? ==> decision.proposal.Proposal?
  {
    if !decision.Executed? then decision
    else if (CallOf(decision.proposal) != [] && world.callFails) || world.readFails then Failed
    else decision.(faultCleared := FaultCleared(decision.proposal.target, world.after))
  }

  class ExecutionHarness {
    /** Every tool call this harness has made. */
    var calls: seq<Call>

    constructor ()
      ensures calls == []
    {
      calls := [];
    }

    /** `run`: `None` is a missing input file. */
    method Run(incident: Option<Incident>, history: History, world: Containers) returns (r: Report)
      modifies this
      ensures calls == old(calls) + CallsOf(Decide(incident, history))
      ensures r == ReportOf(Decide(incident, history), world)
    {
      if incident.None? {
        return Failed;
      }
      // both are read and then not used
      var confidenceOfDebate, calculatedConfidence := incident.value.confidence, incident.value.calculatedConfidence;
      if incident.value.violation {
        return BlockedSafetyViolation;
      }
      var texts := Texts(incident.value.commands);
      if texts.None? {
        return Failed;
      }
      var p := ProposeAction(incident.value.problem, texts.value);
      if p.Unmapped? {
        return BlockedUnmapped;
      }
      var verdict := VerdictOf(p);
      if verdict != Passed {
        return BlockedGuardrail(p, verdict);
      }
      var confidence := CalculateConfidence(p.tool, p.target, history);
      if confidence < THRESHOLD {
        return BlockedLowConfidence(p, confidence);
      }
      calls := calls + CallOf(p);
      if CallOf(p) != [] && world.callFails {
        return Failed;
      }
      if world.readFails {
        return Failed;
      }
      r := Executed(p, confidence, FaultCleared(p.target, world.after));
    }
  }

  // ----- What the harness can do -----

  /** The only calls there are: a bounded setting, an LRU policy, a bounded count, a restart of an
      unguarded shadow container. */
  predicate BoundedCall(call: Call) {
    match call
    case Query(target, statement, setting, value) =>
      && target == POSTGRES && statement == Words("alter_system_set") && setting == Some(Words("max_connections"))
      && value.Some? && value.value.Number? && 20 <= value.value.n <= 500
    case Configure(target, key, value) =>
      && target == REDIS && key == Some(Words("maxmemory-policy"))
      && value in {Some(Words("volatile-lru")), Some(Words("allkeys-lru"))}
    case EditFile(_, _, _) => false
    case Restart(target) => SHADOW <= target && Plain(target)
    case Scale(target, operation, value) =>
      && target == RABBITMQ && operation == Some(Words("scale_consumer_count"))
      && value.Some? && value.value.Number? && 1 <= value.value.n <= 20
  }

  lemma TypedCallsAreBounded(p: Proposal)
    requires Typed(p)
    ensures p.Proposal? && |CallOf(p)| == 1 && BoundedCall(CallOf(p)[0])
  {
  }

  /** The confidence of the debate has no influence on a run. */
  lemma DebateConfidenceIsIgnored(incident: Incident, confidence: int, calculated: int, history: History)
    ensures Decide(Some(incident.(confidence := confidence, calculatedConfidence := calculated)), history)
         == Decide(Some(incident), history)
  {
  }

  /** Whatever the incident says, a run makes at most one call, only without a safety violation and
      at a confidence of at least 0.70, and the call is bounded. */
  lemma EveryCallIsBounded(incident: Option<Incident>, history: History)
    ensures var d := Decide(incident, history); var calls := CallsOf(d);
            && |calls| <= 1
            && (calls != [] ==>
                 && BoundedCall(calls[0]) && incident.Some? && !incident.value.violation
                 && d.Executed? && d.confidence >= 0.70 && Typed(d.proposal))
  {
    var d := Decide(incident, history);
    if d.Executed? {
      var texts := Texts(incident.value.commands).value;
      EveryProposalIsClassified(incident.value.problem, texts);
      if Typed(d.proposal) { TypedCallsAreBounded(d.proposal); }
    }
  }

  /** What the proposal of a run that gets past every gate says about its calls. */
  lemma NoCallMeansUniversal(incident: Option<Incident>, history: History)
    requires Decide(incident, history).Executed?
    ensures var d := Decide(incident, history);
            && (CallsOf(d) == [] <==> Universal(d.proposal))
            && (Universal(d.proposal) ==> Plain(d.proposal.target))
            && (Universal(d.proposal) <==> !Typed(d.proposal))
  {
    var d := Decide(incident, history);
    EveryProposalIsClassified(incident.value.problem, Texts(incident.value.commands).value);
    if Typed(d.proposal) { TypedCallsAreBounded(d.proposal); }
  }

  /** A run that gets past every gate makes no call exactly when the incident mentions a resource or a
      shell topic in its problem or commands: the report still says that it was executed. */
  lemma ExecutedWithoutACallIff(incident: Incident, history: History)
    requires Decide(Some(incident), history).Executed?
    ensures Texts(incident.commands).Some?
    ensures CallsOf(Decide(Some(incident), history)) == []
            <==> MentionsUniversal(CombinedText(incident.problem, Texts(incident.commands).value))
  {
    var d := Decide(Some(incident), history);
    NoCallMeansUniversal(Some(incident), history);
    SqlNeverRuns(incident, history);
    ToolOfProposal(incident.problem, Texts(incident.commands).value);
  }

  predicate MentionsUniversal(combined: string) {
    MentionsAny(combined, RESOURCE_WORDS) || MentionsAny(combined, SHELL_WORDS)
  }

  /** Which keyword lists a proposal comes from. */
  lemma ToolOfProposal(problem: string, commands: seq<string>)
    ensures var p, combined := ProposeAction(problem, commands), CombinedText(problem, commands);
            p.Proposal? && p.tool != ExecuteSqlCommand ==> (Universal(p) <==> MentionsUniversal(combined))
  {
    LegacyIsTyped(TargetOf(problem), CommandText(commands), CombinedText(problem, commands));
  }

  /** Raw SQL never gets past the guardrail. */
  lemma SqlNeverRuns(incident: Incident, history: History)
    requires Decide(Some(incident), history).Executed?
    ensures Decide(Some(incident), history).proposal.tool != ExecuteSqlCommand
  {
    EveryProposalIsClassified(incident.problem, Texts(incident.commands).value);
    var p := Decide(Some(incident), history).proposal;
    if Typed(p) { TypedCallsAreBounded(p); }
  }

  /** A Postgres change needs a history better than 92.6%; with the default of 85% it is always
      blocked, at a confidence of 0.64. */
  lemma PostgresNeedsHistory(rate: real)
    ensures Confidence(RunQuery, POSTGRES, rate) >= THRESHOLD <==> rate >= 139.0 / 150.0
    ensures Confidence(RunQuery, POSTGRES, DEFAULT_RATE) == 0.64
  {
    PostgresBase();
    ConfidentIff(RunQuery, POSTGRES, rate);
    ScaledThreshold(rate);
    assert Rounded(0.75 * 0.85) == 0.64;
  }

  lemma ScaledThreshold(rate: real)
    ensures 0.75 * rate >= 0.695 <==> rate >= 139.0 / 150.0
  {
  }

  lemma PostgresBase()
    ensures Slow(RunQuery) && Delicate(POSTGRES)
  {
    PostgresIsDelicate();
  }

  lemma PostgresIsDelicate()
    ensures Delicate(POSTGRES)
  {
    PostgresName();
    PostgresIsLower();
    assert Contains(Lower(POSTGRES), "postgres");
  }

  lemma PostgresIsLower()
    ensures Lower(POSTGRES) == POSTGRES
  {
    LowerStays(POSTGRES);
  }

  /** With the default rate the score of most tools is 0.72 or 0.85, which is enough; queries and
      container restarts are confident enough only on a target that is not delicate. */
  lemma DefaultHistory(tool: Tool, target: string)
    ensures !Slow(tool) ==>
              Confidence(tool, target, DEFAULT_RATE) == if Delicate(target) then 0.72 else 0.85
    ensures Slow(tool) ==>
              (Confidence(tool, target, DEFAULT_RATE) >= THRESHOLD <==> !Delicate(target))
  {
    ConfidentIff(tool, target, DEFAULT_RATE);
  }

  /** With no history of the tool, nothing is ever run on Postgres. */
  lemma NoHistoryNoQuery(incident: Option<Incident>, history: History)
    requires RateOf(history, RunQuery) == DEFAULT_RATE
    ensures forall call :: call in CallsOf(Decide(incident, history)) ==> !call.Query?
  {
    var d := Decide(incident, history);
    EveryCallIsBounded(incident, history);
    PostgresNeedsHistory(DEFAULT_RATE);
  }
}
