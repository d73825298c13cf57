/**
 The deterministic confidence score of a debate, with its caps and deductions.

 Text analysis is an input: what the regular expressions, the keyword sets and the embeddings say
 about an answer arrives as fields.  Ratios are reals, and `int()` of one is its floor.
 */
module Scoring {
  import opened Wrappers

  const W_COMPONENT_AGREEMENT: int := 30
  const W_EVIDENCE_GROUNDING: int := 30
  const W_ACTIONABILITY: int := 20
  const W_STRUCTURE: int := 10
  const W_SCHEMA_BONUS: int := 10
  const PENALTY_UNGROUNDED_CMD: int := 15
  const PENALTY_DIVERGENCE: int := 10
  const PENALTY_PARSE_FAILURE: int := 20
  const DIFFICULTY_MAX_PENALTY: int := 12
  const REQUIRED_FIELDS: nat := 4

  datatype Component =
    Network | Disk | Memory | Cpu | Dns | Config | Code | Database | Dependency | Unknown

  type Ratio = r: real | 0.0 <= r <= 1.0

  /** One agent's parsed answer.  A component field counts when it is present and not empty. */
  datatype Response =
    | NotADict
    | Answer(
        primary: Option<Component>,     // "primary_component"
        secondary: Option<Component>,   // "component"
        concluded: Component,           // named in the last 200 characters of the root cause
        grounding: Ratio,               // hybrid citation overlap
        unreadable: bool,               // parse fallback, or neither root cause nor triage
        words: nat)                     // words of the "logic" field (99 when it is not a string)
  {
    function Component(): Component
      requires Answer?
    {
      if primary.Some? then primary.value else if secondary.Some? then secondary.value else concluded
    }
  }

  /** One element of the command list. `Blank` is a string of white space only. */
  datatype Command = NotText | Blank | Text(long: bool, executable: bool)

  type FieldCount = n: nat | n <= REQUIRED_FIELDS

  datatype Quality = Low | Medium | OtherQuality

  datatype Risk = LowRisk | MediumRisk | HighRisk

  /** The orchestrator's solution as far as the score reads it. */
  datatype Solution = Solution(
    component: Component,
    quality: Quality,
    commands: Option<seq<Command>>,    // None: not a list
    commandKeywords: set<string>,      // of the executable commands
    mutating: bool,                    // one of them has a mutation verb
    fields: FieldCount,                // required text fields that are filled in
    risk: Risk,                        // of the commands and the narrative
    vetoed: bool)                      // the safety shell refuses a command or the narrative

  datatype Telemetry = Telemetry(anchors: set<string>, mutation: bool, critical: bool, contradiction: bool)

  datatype Mode = Autonomous | Sandbox | Review | Reject

  datatype Metadata = Metadata(
    vetoed: bool,
    agreement: real,
    grounding: real,
    parseFailures: nat,
    evidenceGate: bool,
    risk: Risk,
    mode: Mode)

  datatype Outcome = Raises | Scored(score: int, meta: Metadata)

  // ----- Numbers -----

  function Min(a: int, b: int): int { if a <= b then a else b }
  function Max(a: int, b: int): int { if a <= b then b else a }
  function MinReal(a: real, b: real): real { if a <= b then a else b }

  /** `round(x, 3)`: the nearest thousandth, a tie going to the even one. */
  function Round3(x: real): real {
    var n := (x * 1000.0).Floor;
    var rest := x * 1000.0 - n as real;
    var up := rest > 0.5 || (rest == 0.5 && n % 2 == 1);
    (if up then n + 1 else n) as real / 1000.0
  }

  function Percent(part: nat, whole: nat): real
    requires whole > 0
  {
    part as real / whole as real
  }

  // ----- The parts -----

  /** The answers that are dictionaries. */
  function Answers(rs: seq<Response>): (as_: seq<Response>)
    ensures forall a :: a in as_ ==> a.Answer?
    ensures |as_| <= |rs|
  {
    if rs == [] then []
    else Answers(rs[..|rs| - 1]) + (if rs[|rs| - 1].Answer? then [rs[|rs| - 1]] else [])
  }

  function ParseFailures(rs: seq<Response>): nat {
    if rs == [] then 0
    else
      var r := rs[|rs| - 1];
      ParseFailures(rs[..|rs| - 1]) + (if r.NotADict? || r.unreadable then 1 else 0)
  }

  function CountOf(rs: seq<Response>, c: Component): (n: nat)
    ensures n <= |rs|
  {
    if rs == [] then 0
    else
      var r := rs[|rs| - 1];
      CountOf(rs[..|rs| - 1], c) + (if r.Answer? && r.Component() == c then 1 else 0)
  }

  const VOCABULARY: seq<Component> :=
    [Network, Disk, Memory, Cpu, Dns, Config, Code, Database, Dependency, Unknown]

  /** How many answers name the most common component. */
  function MostCommon(rs: seq<Response>, vocabulary: seq<Component>): (n: nat)
    ensures n <= |rs|
    ensures forall c :: c in vocabulary ==> CountOf(rs, c) <= n
  {
    if vocabulary == [] then 0
    else
      var rest := MostCommon(rs, vocabulary[1..]);
      if CountOf(rs, vocabulary[0]) > rest then CountOf(rs, vocabulary[0]) else rest
  }

  function TotalGrounding(rs: seq<Response>): real {
    if rs == [] then 0.0
    else
      var r := rs[|rs| - 1];
      TotalGrounding(rs[..|rs| - 1]) + (if r.Answer? then r.grounding else 0.0)
  }

  predicate Disciplined(answers: seq<Response>) {
    answers != [] && forall a :: a in answers ==> a.Answer? && a.words <= 15
  }

  /** The share of answers that agree: with the orchestrator, or with each other if it knows no
      component.  A low-quality consensus counts for at most half. */
  function Agreement(answers: seq<Response>, s: Solution): real {
    if answers == [] then 0.0
    else
      var n := if s.component.Unknown? then MostCommon(answers, VOCABULARY) else CountOf(answers, s.component);
      var ratio := Percent(n, |answers|);
      if s.quality.Low? then MinReal(ratio, 0.5) else ratio
  }

  function AgreementPoints(answers: seq<Response>, s: Solution): int {
    var ratio := Agreement(answers, s);
    if answers == [] then 0
    else if s.component.Unknown? then (15.0 * ratio).Floor
    else (30.0 * ratio).Floor - (if ratio == 0.0 then PENALTY_DIVERGENCE else 0)
  }

  /** The mean grounding, at most 0.2 on telemetry with no more than two anchors. */
  function Grounding(answers: seq<Response>, t: Telemetry): real {
    if answers == [] then 0.0
    else
      var mean := TotalGrounding(answers) / |answers| as real;
      if |t.anchors| <= 2 then MinReal(mean, 0.2) else mean
  }

  function GroundingPoints(answers: seq<Response>, t: Telemetry): int {
    (30.0 * MinReal(1.0, Grounding(answers, t) * 2.0)).Floor
  }

  predicate AnyLong(cmds: seq<Command>) { exists c :: c in cmds && c.Text? && c.long }
  predicate AnyLongExecutable(cmds: seq<Command>) { exists c :: c in cmds && c.Text? && c.long && c.executable }
  predicate AnyExecutable(cmds: seq<Command>) { exists c :: c in cmds && c.Text? && c.executable }

  /** The evaluation of `any(_is_executable(c) ...)` indexes the first character of a stripped
      command, which a blank command does not have. */
  function HasExecutable(cmds: seq<Command>): Option<bool> {
    if cmds == [] then Some(false)
    else if cmds[0].Blank? then None
    else if cmds[0].Text? && cmds[0].executable then Some(true)
    else HasExecutable(cmds[1..])
  }

  function ActionPoints(s: Solution, t: Telemetry): int {
    var cmds := s.commands.GetOr([]);
    if s.vetoed then 0
    else if AnyLongExecutable(cmds) then
      if s.commandKeywords != {} && t.anchors != {} && s.commandKeywords * t.anchors == {} then
        W_ACTIONABILITY - (if s.mutating then PENALTY_UNGROUNDED_CMD else PENALTY_UNGROUNDED_CMD / 2)
      else W_ACTIONABILITY
    else if AnyLong(cmds) then 8
    else 5
  }

  function BasePoints(rs: seq<Response>, s: Solution, t: Telemetry): int {
    var answers := Answers(rs);
    AgreementPoints(answers, s) + GroundingPoints(answers, t) + ActionPoints(s, t)
    + W_STRUCTURE * s.fields / REQUIRED_FIELDS
    + (if Disciplined(answers) && !s.vetoed then W_SCHEMA_BONUS else 0)
    - PENALTY_PARSE_FAILURE * ParseFailures(rs)
  }

  function Deductions(s: Solution, hasExecutable: bool): int {
    (if hasExecutable then 0 else 5) + (if s.quality.Medium? then 3 else if s.quality.Low? then 8 else 0)
  }

  function Difficulty(t: Telemetry): real {
    MinReal(1.0, |t.anchors| as real / 40.0 + (if t.mutation then 0.2 else 0.0)
                 + (if t.critical then 0.1 else 0.0) + (if t.contradiction then 0.3 else 0.0))
  }

  function Ceiling(t: Telemetry): int {
    if Difficulty(t) < 0.3 then 95 else 100 - (Difficulty(t) * DIFFICULTY_MAX_PENALTY as real).Floor
  }

  /** The risk is classified only when the commands are a list. */
  function RiskOf(s: Solution): Risk { if s.commands.Some? then s.risk else LowRisk }

  /** Not grounded in the telemetry, and not vetoed. */
  predicate Gated(rs: seq<Response>, s: Solution, t: Telemetry) {
    (Round3(Grounding(Answers(rs), t)) < 0.25 || |t.anchors| <= 2) && !s.vetoed
  }

  function Capped(score: int, cap: int, when: bool): int { if when then Min(score, cap) else score }

  // ----- The score -----

  /** The caps and deductions, in order. */
  function Final(base: int, deductions: int, ceiling: int, flawed: bool, gated: bool, high: bool, vetoed: bool): int {
    var risky := Capped(Capped(Capped(base, 92, flawed), 65, gated) - deductions, 65, high);
    Max(0, Min(if vetoed then 64 else 100, Min(risky, ceiling)))
  }

  function ModeOf(high: bool, vetoed: bool, grounding: real): Mode {
    if !high then Autonomous else if vetoed && grounding < 0.25 then Reject else Sandbox
  }

  /** What the score is. `None` is the empty solution. */
  function Score(rs: seq<Response>, solution: Option<Solution>, t: Telemetry): Outcome {
    if solution.None? then Scored(0, Metadata(false, 0.0, 0.0, 0, false, LowRisk, Autonomous))
    else
      var s := solution.value;
      var executable := HasExecutable(s.commands.GetOr([]));
      if executable.None? then Raises
      else
        var agreement, grounding := Round3(Agreement(Answers(rs), s)), Round3(Grounding(Answers(rs), t));
        var flawed := ParseFailures(rs) > 0 || agreement == 0.0 || grounding == 0.0;
        var gated, high := Gated(rs, s, t), RiskOf(s).HighRisk?;
        Scored(
          Final(BasePoints(rs, s, t), Deductions(s, executable.value), Ceiling(t), flawed, gated, high, s.vetoed),
          Metadata(s.vetoed, agreement, grounding, ParseFailures(rs), gated, RiskOf(s), ModeOf(high, s.vetoed, grounding)))
  }

  // ----- The scoring pass -----

  /** What the loop over the agents collects. */
  method Collect(rs: seq<Response>) returns (answers: seq<Response>, parseFailures: nat)
    ensures answers == Answers(rs) && parseFailures == ParseFailures(rs)
  {
    answers, parseFailures := [], 0;
    for i := 0 to |rs|
      invariant answers == Answers(rs[..i]) && parseFailures == ParseFailures(rs[..i])
    {
      assert rs[..i + 1][..i] == rs[..i];
      var r := rs[i];
      if r.NotADict? {
        parseFailures := parseFailures + 1;
        continue;
      }
      if r.unreadable {
        parseFailures := parseFailures + 1;
      }
      answers := answers + [r];
    }
    assert rs[..|rs|] == rs;
  }

  /** Component agreement: the metadata value and the points. */
  method ScoreAgreement(answers: seq<Response>, s: Solution) returns (ratio: real, points: int)
    requires forall a :: a in answers ==> a.Answer?
    ensures ratio == Agreement(answers, s) && points == AgreementPoints(answers, s)
  {
    ratio, points := 0.0, 0;
    if answers != [] && s.component != Unknown {
      ratio := Percent(CountOf(answers, s.component), |answers|);
      if s.quality.Low? {
        ratio := MinReal(ratio, 0.5);
      }
      points := points + (W_COMPONENT_AGREEMENT as real * ratio).Floor;
      if ratio == 0.0 {
        points := points - PENALTY_DIVERGENCE;
      }
    } else if answers != [] {
      ratio := Percent(MostCommon(answers, VOCABULARY), |answers|);
      if s.quality.Low? {
        ratio := MinReal(ratio, 0.5);
      }
      points := points + (W_COMPONENT_AGREEMENT as real * 0.5 * ratio).Floor;
    }
  }

  /** Evidence grounding: the mean over the answers. */
  method ScoreGrounding(answers: seq<Response>, t: Telemetry) returns (mean: real, points: int)
    requires forall a :: a in answers ==> a.Answer?
    ensures mean == Grounding(answers, t) && points == GroundingPoints(answers, t)
  {
    mean, points := 0.0, 0;
    if answers != [] {
      var total := 0.0;
      for i := 0 to |answers|
        invariant total == TotalGrounding(answers[..i])
      {
        assert answers[..i + 1][..i] == answers[..i];
        total := total + answers[i].grounding;
      }
      assert answers[..|answers|] == answers;
      mean := total / |answers| as real;
      if |t.anchors| <= 2 {
        mean := MinReal(mean, 0.2);
      }
      points := (W_EVIDENCE_GROUNDING as real * MinReal(1.0, mean * 2.0)).Floor;
    }
  }

  /** Actionability of a solution that the safety shell lets through. */
  method ScoreActions(s: Solution, t: Telemetry) returns (points: int)
    requires !s.vetoed
    ensures points == ActionPoints(s, t)
  {
    var cmds := s.commands.GetOr([]);
    points := 0;
    if AnyLongExecutable(cmds) {
      points := points + W_ACTIONABILITY;
      if s.commandKeywords != {} && t.anchors != {} && s.commandKeywords * t.anchors == {} {
        var penalty := if s.mutating then PENALTY_UNGROUNDED_CMD else PENALTY_UNGROUNDED_CMD / 2;
        points := points - penalty;
      }
    } else if AnyLong(cmds) {
      points := points + (W_ACTIONABILITY as real * 0.4).Floor;
    } else {
      points := points + (W_ACTIONABILITY as real * 0.25).Floor;
    }
  }

  /** The additive part of `calculate_deterministic_confidence`. */
  method AddPoints(rs: seq<Response>, s: Solution, t: Telemetry)
    returns (score: int, agreement: real, grounding: real, parseFailures: nat)
    ensures score == BasePoints(rs, s, t)
    ensures agreement == Round3(Agreement(Answers(rs), s)) && grounding == Round3(Grounding(Answers(rs), t))
    ensures parseFailures == ParseFailures(rs)
  {
    score := 0;
    var answers;
    answers, parseFailures := Collect(rs);
    var ratio, points := ScoreAgreement(answers, s);
    agreement := Round3(ratio);
    score := score + points;
    var mean;
    mean, points := ScoreGrounding(answers, t);
    grounding := Round3(mean);
    score := score + points;
    if !s.vetoed {
      points := ScoreActions(s, t);
      score := score + points;
    }
    score := score + W_STRUCTURE * s.fields / REQUIRED_FIELDS;
    if Disciplined(answers) && !s.vetoed {
      score := score + W_SCHEMA_BONUS;
    }
    if parseFailures != 0 {
      score := score - PENALTY_PARSE_FAILURE * parseFailures;
    }
  }

  /** The difficulty prior. */
  method MaxAchievable(t: Telemetry) returns (maxAchievable: int)
    ensures maxAchievable == Ceiling(t)
  {
    var difficulty := Difficulty(t);
    maxAchievable := 100 - (difficulty * DIFFICULTY_MAX_PENALTY as real).Floor;
    if difficulty < 0.3 {
      maxAchievable := 95;
    }
  }

  /** The gates that the running score passes, up to the final clamp. */
  method PassGates(base: int, s: Solution, executable: bool, flawed: bool, gated: bool, grounding: real, ceiling: int)
    returns (score: int, risk: Risk, mode: Mode)
    requires gated ==> !s.vetoed
    ensures score == Final(base, Deductions(s, executable), ceiling, flawed, gated, RiskOf(s).HighRisk?, s.vetoed)
    ensures risk == RiskOf(s) && mode == ModeOf(risk.HighRisk?, s.vetoed, grounding)
  {
    score, risk, mode := base, LowRisk, Autonomous;
    if flawed {
      score := Min(score, 92);
    }
    if gated {
      score := Min(score, 65);
    }
    // the risk has not been classified yet, so this branch is never taken
    if gated && risk == HighRisk {
      mode, score := Sandbox, Min(score, 60);
    }
    if !executable {
      score := score - 5;
    }
    if s.quality.Medium? {
      score := score - 3;
    } else if s.quality.Low? {
      score := score - 8;
    }
    if s.commands.Some? {
      risk := s.risk;
    }
    if risk == HighRisk && (gated || grounding < 0.25) {
      mode, score := Review, Min(score, 65);
    }
    if mode == Review {
      mode := if !s.vetoed then Sandbox else Reject;
    }
    if risk == HighRisk && mode == Autonomous {
      mode, score := Sandbox, Min(score, 65);
    }
    score := Min(score, ceiling);
    score := if s.vetoed then Max(0, Min(64, score)) else Max(0, Min(100, score));
  }

  /** `calculate_deterministic_confidence` */
  method CalculateConfidence(rs: seq<Response>, solution: Option<Solution>, t: Telemetry) returns (r: Outcome)
    ensures r == Score(rs, solution, t)
  {
    if solution.None? {
      return Scored(0, Metadata(false, 0.0, 0.0, 0, false, LowRisk, Autonomous));
    }
    var s := solution.value;
    var score, agreement, grounding, parseFailures := AddPoints(rs, s, t);
    var hasExecutable := HasExecutable(s.commands.GetOr([]));
    if hasExecutable.None? {
      return Raises;
    }
    var flawed := parseFailures > 0 || agreement == 0.0 || grounding == 0.0;
    var evidenceGate := (grounding < 0.25 || |t.anchors| <= 2) && !s.vetoed;
    var ceiling := MaxAchievable(t);
    var risk, mode;
    score, risk, mode := PassGates(score, s, hasExecutable.value, flawed, evidenceGate, grounding, ceiling);
    r := Scored(score, Metadata(s.vetoed, agreement, grounding, parseFailures, evidenceGate, risk, mode));
  }
}
