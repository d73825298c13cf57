/**
 One debate: up to three agents answer, an orchestrator synthesises, the score routes the result,
 and a weak first round re-runs only the outlier.

 The agents, the orchestrator and the embeddings are foreign.  What they return in this run is the
 `World`, and every statement holds in all worlds.
 */
module Debate {
  import opened Wrappers
  import opened Sequences
  import opened Scoring
  import opened ScoringBounds

  const AUTONOMOUS_THRESHOLD: int := 85
  const SANDBOX_THRESHOLD: int := 65
  const MAX_ITERATIONS: nat := 2

  datatype Agent = Optimist | Critic | FactChecker
  const AGENTS: seq<Agent> := [Optimist, Critic, FactChecker]

  datatype Tier = Tier1 | Tier2 | Tier3

  /** An entry of the insertion-ordered dictionary of agent responses. */
  datatype Named = Named(agent: Agent, response: Response)

  /** What the orchestrator returns: `Broken` is not a dictionary, `None` is an empty one. */
  datatype Synthesis = Broken | Solved(solution: Option<Solution>)

  datatype World = World(
    answer: Agent -> Response,             // in round 1
    keywords: Agent -> set<string>,        // of that answer's root cause
    done: set<Agent>,                      // finished when the first wait returns
    revised: Response,                     // the re-run agent's answer
    synthesis: nat -> Synthesis,           // of each iteration
    outlier: nat,                          // index of the answer least similar to the others
    telemetry: Telemetry)

  datatype Result =
    | Raised
    | Ended(responses: seq<Named>, score: int, meta: Metadata, tier: Tier, secondRound: bool, solution: Option<Solution>)

  function Values(responses: seq<Named>): (rs: seq<Response>)
    ensures |rs| == |responses|
    ensures forall i | 0 <= i < |rs| :: rs[i] == responses[i].response
  {
    seq(|responses|, i requires 0 <= i < |responses| => responses[i].response)
  }

  predicate DistinctAgents(responses: seq<Named>) {
    forall i, j | 0 <= i < j < |responses| :: responses[i].agent != responses[j].agent
  }

  function Lookup(responses: seq<Named>, a: Agent): Option<Response> {
    if responses == [] then None
    else if responses[0].agent == a then Some(responses[0].response)
    else Lookup(responses[1..], a)
  }

  /** `responses[a] = r`: an existing key keeps its place, a new one goes last. */
  function Update(responses: seq<Named>, a: Agent, r: Response): seq<Named> {
    if responses == [] then [Named(a, r)]
    else if responses[0].agent == a then [Named(a, r)] + responses[1..]
    else [responses[0]] + Update(responses[1..], a, r)
  }

  /** The agents whose answers are dictionaries, in order. */
  function Speakers(responses: seq<Named>): seq<Agent> {
    if responses == [] then []
    else (if responses[0].response.Answer? then [responses[0].agent] else []) + Speakers(responses[1..])
  }

  /** `meta_info.get("outlier_agent") or "critic"`: the empty solution is scored before the outlier
      is looked for. */
  function OutlierOf(responses: seq<Named>, solution: Option<Solution>, index: nat): Agent {
    var speakers := Speakers(responses);
    if solution.Some? && index < |speakers| then speakers[index] else Critic
  }

  // ----- Round 1 -----

  /** Exactly two early answers that share more than 60% of their keywords settle the round. */
  predicate FastPath(w: World) {
    exists a, b: Agent :: a != b && w.done == {a, b} && w.keywords(a) != {} && w.keywords(b) != {}
      && 10 * |w.keywords(a) * w.keywords(b)| > 6 * |w.keywords(a) + w.keywords(b)|
  }

  function AnswersOf(w: World, agents: seq<Agent>): (rs: seq<Named>)
    ensures |rs| == |agents|
    ensures forall i | 0 <= i < |rs| :: rs[i] == Named(agents[i], w.answer(agents[i]))
  {
    seq(|agents|, i requires 0 <= i < |agents| => Named(agents[i], w.answer(agents[i])))
  }

  function Chosen(agents: seq<Agent>, done: set<Agent>): seq<Agent> {
    if agents == [] then []
    else (if agents[0] in done then [agents[0]] else []) + Chosen(agents[1..], done)
  }

  /** The comparison of early answers reads their fields, which fails on one that is no dictionary. */
  predicate FirstRoundFails(w: World) {
    |w.done| >= 2 && exists a :: a in w.done && w.answer(a).NotADict?
  }

  function FirstResponses(w: World): seq<Named> {
    AnswersOf(w, if FastPath(w) then Chosen(AGENTS, w.done) else AGENTS)
  }

  /** Round 1, as it runs: the keywords of the finished tasks are compared, and a strong overlap of
      exactly two drops the third agent. */
  method FirstRound(w: World) returns (r: Option<seq<Named>>)
    ensures r == if FirstRoundFails(w) then None else Some(FirstResponses(w))
  {
    var done := FinishedTasks(w);
    FinishedAre(w, done);
    var fastPath := false;
    if |done| >= 2 {
      var sets := KeywordSets(w, done);
      if sets.None? {
        return None;
      }
      var kwSets := sets.value;
      if |kwSets| == 2 && kwSets[0] != {} && kwSets[1] != {} {
        var overlap := |kwSets[0] * kwSets[1]| as real / Max(1, |kwSets[0] + kwSets[1]|) as real;
        OverlapRatio(|kwSets[0] * kwSets[1]|, Max(1, |kwSets[0] + kwSets[1]|));
        UnionIsNotEmpty(kwSets[0], kwSets[1]);
        if overlap > 0.6 {
          fastPath := true;
        }
      }
    }
    EarlyConsensusIff(w, done);
    var responses: seq<Named> := [];
    var agents := if fastPath then done else AGENTS;
    for i := 0 to |agents|
      invariant |responses| == i && forall j | 0 <= j < i :: responses[j] == AnswersOf(w, agents)[j]
    {
      responses := responses + [Named(agents[i], w.answer(agents[i]))];
    }
    assert responses == AnswersOf(w, agents);
    r := Some(responses);
  }

  /** The tasks that are done, in the order in which they were started. */
  method FinishedTasks(w: World) returns (done: seq<Agent>)
    ensures done == Chosen(AGENTS, w.done)
  {
    done := [];
    ghost var rest := AGENTS;
    for i := 0 to |AGENTS|
      invariant rest == AGENTS[i..] && done + Chosen(rest, w.done) == Chosen(AGENTS, w.done)
    {
      if AGENTS[i] in w.done {
        done := done + [AGENTS[i]];
      }
      rest := rest[1..];
    }
  }

  /** The keyword sets of the parsed answers; reading one that is no dictionary fails. */
  method KeywordSets(w: World, done: seq<Agent>) returns (r: Option<seq<set<string>>>)
    ensures r.None? <==> exists i | 0 <= i < |done| :: w.answer(done[i]).NotADict?
    ensures r.Some? ==> |r.value| == |done| && forall i | 0 <= i < |done| :: r.value[i] == w.keywords(done[i])
  {
    var sets := [];
    for i := 0 to |done|
      invariant |sets| == i
      invariant forall j | 0 <= j < i :: w.answer(done[j]).Answer? && sets[j] == w.keywords(done[j])
    {
      if w.answer(done[i]).NotADict? {
        return None;
      }
      sets := sets + [w.keywords(done[i])];
    }
    r := Some(sets);
  }

  lemma OverlapRatio(common: nat, all: nat)
    requires all >= 1
    ensures common as real / all as real > 0.6 <==> 10 * common > 6 * all
  {
    var ratio := common as real / all as real;
    assert ratio * all as real == common as real;
    ScaleUp(ratio, 0.6, all as real);
  }

  lemma ScaleUp(a: real, b: real, y: real)
    requires y > 0.0
    ensures a > b <==> a * y > b * y
  {
    if a > b { assert (a - b) * y > 0.0; }
    if a <= b { assert (b - a) * y >= 0.0; }
  }

  lemma UnionIsNotEmpty(a: set<string>, b: set<string>)
    requires a != {}
    ensures Max(1, |a + b|) == |a + b|
  {
    assert a <= a + b;
    var x :| x in a + b;
    assert a + b == {x} + (a + b - {x});
  }

  lemma FinishedAre(w: World, done: seq<Agent>)
    requires done == Chosen(AGENTS, w.done)
    ensures |done| == |w.done| && forall a :: a in done <==> a in w.done
    ensures |done| == 2 ==> done[0] != done[1] && w.done == {done[0], done[1]}
  {
    ChosenAgents(w.done);
    ChosenMembers(w.done);
    if |done| == 2 {
      assert forall a :: a in done <==> a == done[0] || a == done[1];
    }
  }

  /** Two early answers with the given overlap, in terms of the list of finished tasks. */
  lemma EarlyConsensusIff(w: World, done: seq<Agent>)
    requires done == Chosen(AGENTS, w.done)
    ensures FastPath(w) <==>
              |done| == 2 && w.keywords(done[0]) != {} && w.keywords(done[1]) != {}
              && 10 * |w.keywords(done[0]) * w.keywords(done[1])| > 6 * |w.keywords(done[0]) + w.keywords(done[1])|
  {
    FinishedAre(w, done);
    if FastPath(w) {
      FastPathIsAPair(w);
      var a, b: Agent :| a != b && w.done == {a, b} && w.keywords(a) != {} && w.keywords(b) != {}
        && 10 * |w.keywords(a) * w.keywords(b)| > 6 * |w.keywords(a) + w.keywords(b)|;
      assert {a, b} == {done[0], done[1]};
      OverlapIsSymmetric(w.keywords(a), w.keywords(b));
    }
  }

  lemma OverlapIsSymmetric(a: set<string>, b: set<string>)
    ensures a * b == b * a && a + b == b + a
  {
  }

  lemma FastPathIsAPair(w: World)
    requires FastPath(w)
    ensures |w.done| == 2
  {
  }

  // ----- Routing -----

  /** The tier of a scored iteration; `Tier3` asks for another one. */
  function Route(vetoed: bool, score: int): Tier {
    if vetoed then Tier2
    else if score >= AUTONOMOUS_THRESHOLD then Tier1
    else if score >= SANDBOX_THRESHOLD then Tier2
    else Tier3
  }

  /** The summary of the peers fails on a peer that is no dictionary. */
  predicate PeersFail(responses: seq<Named>, outlier: Agent) {
    exists i | 0 <= i < |responses| :: responses[i].agent != outlier && responses[i].response.NotADict?
  }

  // ----- What a run is -----

  /** The orchestrator and the score, once. */
  function Judge(w: World, iteration: nat, responses: seq<Named>): Result {
    match w.synthesis(iteration)
    case Broken => Raised
    case Solved(solution) =>
      match Score(Values(responses), solution, w.telemetry)
      case Raises => Raised
      case Scored(score, meta) => Ended(responses, score, meta, Route(meta.vetoed, score), iteration == 2, solution)
  }

  /** The second round: only the outlier answers again, and a weak result goes to the sandbox. */
  function Again(w: World, first: Result): Result
    requires first.Ended?
  {
    var outlier := OutlierOf(first.responses, first.solution, w.outlier);
    if PeersFail(first.responses, outlier) then Raised
    else
      var second := Judge(w, 2, Update(first.responses, outlier, w.revised));
      if second.Ended? && second.tier.Tier3? then second.(tier := Tier2) else second
  }

  function Settled(w: World): Result {
    if FirstRoundFails(w) then Raised
    else
      var first := Judge(w, 1, FirstResponses(w));
      if first.Ended? && first.tier.Tier3? then Again(w, first) else first
  }

  // ----- The loop -----

  method ReviseOutlier(w: World, responses: seq<Named>, outlier: Agent) returns (r: Option<seq<Named>>)
    ensures r == if PeersFail(responses, outlier) then None else Some(Update(responses, outlier, w.revised))
  {
    for i := 0 to |responses|
      invariant forall j | 0 <= j < i :: responses[j].agent == outlier || responses[j].response.Answer?
    {
      if responses[i].agent != outlier && responses[i].response.NotADict? {
        return None;
      }
    }
    r := Some(Update(responses, outlier, w.revised));
  }

  /** The part of an iteration after the answers are in. */
  method JudgeAnswers(w: World, iteration: nat, responses: seq<Named>) returns (r: Result)
    ensures r == Judge(w, iteration, responses)
  {
    var synthesis := w.synthesis(iteration);
    if synthesis.Broken? {
      return Raised;
    }
    var outcome := CalculateConfidence(Values(responses), synthesis.solution, w.telemetry);
    if outcome.Raises? {
      return Raised;
    }
    var score, meta := outcome.score, outcome.meta;
    if meta.vetoed {
      ScoreBounds(Values(responses), synthesis.solution, w.telemetry);
      score := Max(0, Min(64, score));
    }
    var tier := Tier3;
    if meta.vetoed {
      tier := Tier2;
    } else if score >= AUTONOMOUS_THRESHOLD {
      tier := Tier1;
    } else if score >= SANDBOX_THRESHOLD {
      tier := Tier2;
    }
    r := Ended(responses, score, meta, tier, iteration == 2, synthesis.solution);
  }

  /** `run_async` */
  method RunDebate(w: World) returns (r: Result)
    ensures r == Settled(w)
  {
    r := Raised;
    var iteration := 1;
    while iteration <= MAX_ITERATIONS
      invariant 1 <= iteration <= 2
      invariant iteration == 2 ==>
        !FirstRoundFails(w) && r == Judge(w, 1, FirstResponses(w)) && r.Ended? && r.tier.Tier3?
    {
      var responses;
      if iteration == 1 {
        var first := FirstRound(w);
        if first.None? {
          return Raised;
        }
        responses := first.value;
      } else {
        var revision := ReviseOutlier(w, r.responses, OutlierOf(r.responses, r.solution, w.outlier));
        if revision.None? {
          return Raised;
        }
        responses := revision.value;
      }
      r := JudgeAnswers(w, iteration, responses);
      if r.Raised? || r.tier != Tier3 {
        return;
      }
      if iteration == MAX_ITERATIONS {
        r := r.(tier := Tier2);
        return;
      }
      iteration := iteration + 1;
    }
  }

  // ----- What a run guarantees -----

  /** No run ends by asking for a third iteration, and the tier is decided by the final score. */
  lemma NeverEndsInTier3(w: World)
    requires Settled(w).Ended?
    ensures WellRouted(Settled(w))
  {
    var first := Judge(w, 1, FirstResponses(w));
    JudgeRoutes(w, 1, FirstResponses(w));
    if first.Ended? && first.tier.Tier3? {
      JudgeRoutes(w, 2, Update(first.responses, OutlierOf(first.responses, first.solution, w.outlier), w.revised));
    }
  }

  predicate WellRouted(r: Result)
    requires r.Ended?
  {
    && r.tier == (if !r.meta.vetoed && r.score >= 85 then Tier1 else Tier2)
    && 0 <= r.score <= 97
    && (r.meta.vetoed ==> r.score <= 64)
  }

  lemma JudgeRoutes(w: World, iteration: nat, responses: seq<Named>)
    requires Judge(w, iteration, responses).Ended?
    ensures var r := Judge(w, iteration, responses);
            && r.tier == Route(r.meta.vetoed, r.score)
            && r.responses == responses && r.secondRound == (iteration == 2)
            && 0 <= r.score <= 97
            && (r.meta.vetoed ==> r.score <= 64)
  {
    ScoreBounds(Values(responses), w.synthesis(iteration).solution, w.telemetry);
  }

  /** Round 2 runs exactly when round 1 was scored, not vetoed and below 65. */
  lemma SecondRoundIff(w: World)
    requires Settled(w).Ended?
    ensures var first := Judge(w, 1, FirstResponses(w));
            && first.Ended?
            && (Settled(w).secondRound <==> !first.meta.vetoed && first.score < 65)
            && (!Settled(w).secondRound ==> Settled(w) == first)
  {
  }

  lemma {:induction false} UpdateFinds(responses: seq<Named>, a: Agent, r: Response, b: Agent)
    ensures Lookup(Update(responses, a, r), b) == if b == a then Some(r) else Lookup(responses, b)
  {
    if responses != [] && responses[0].agent != a {
      UpdateFinds(responses[1..], a, r, b);
    } else if responses != [] {
      assert Update(responses, a, r)[1..] == responses[1..];
    }
  }

  lemma {:induction false} UpdateKeepsPlaces(responses: seq<Named>, a: Agent, r: Response)
    ensures var after := Update(responses, a, r);
            && |after| == (if Lookup(responses, a).Some? then |responses| else |responses| + 1)
            && (forall i | 0 <= i < |after| :: after[i].agent == if i < |responses| then responses[i].agent else a)
  {
    if responses != [] && responses[0].agent != a { UpdateKeepsPlaces(responses[1..], a, r); }
  }

  lemma UpdateKeepsDistinct(responses: seq<Named>, a: Agent, r: Response)
    requires DistinctAgents(responses)
    ensures DistinctAgents(Update(responses, a, r))
  {
    UpdateKeepsPlaces(responses, a, r);
    LookupAbsent(responses, a);
  }

  lemma UpdateOnlyTouches(responses: seq<Named>, a: Agent, r: Response)
    requires DistinctAgents(responses)
    ensures var after := Update(responses, a, r);
            && DistinctAgents(after) && Lookup(after, a) == Some(r)
            && (forall b :: b != a ==> Lookup(after, b) == Lookup(responses, b))
            && |after| == (if Lookup(responses, a).Some? then |responses| else |responses| + 1)
  {
    UpdateKeepsDistinct(responses, a, r);
    UpdateKeepsPlaces(responses, a, r);
    forall b
      ensures Lookup(Update(responses, a, r), b) == if b == a then Some(r) else Lookup(responses, b)
    {
      UpdateFinds(responses, a, r, b);
    }
  }

  lemma {:induction false} LookupAbsent(responses: seq<Named>, a: Agent)
    ensures Lookup(responses, a).None? <==> forall i | 0 <= i < |responses| :: responses[i].agent != a
  {
    if responses != [] {
      LookupAbsent(responses[1..], a);
      assert forall i | 0 < i < |responses| :: responses[i] == responses[1..][i - 1];
    }
  }

  lemma FirstResponsesAreDistinct(w: World)
    ensures DistinctAgents(FirstResponses(w))
    ensures FastPath(w) ==> |FirstResponses(w)| == 2
    ensures !FastPath(w) ==> |FirstResponses(w)| == 3
    ensures forall a :: Lookup(FirstResponses(w), a) in {None, Some(w.answer(a))}
  {
    var agents := if FastPath(w) then Chosen(AGENTS, w.done) else AGENTS;
    ChosenAgents(w.done);
    forall a
      ensures Lookup(FirstResponses(w), a) in {None, Some(w.answer(a))}
    {
      LookupFinds(w, agents, a);
    }
  }

  lemma ChosenAgents(done: set<Agent>)
    ensures var chosen := Chosen(AGENTS, done);
            && (forall i, j | 0 <= i < j < |chosen| :: chosen[i] != chosen[j])
            && |chosen| == |done|
  {
    var f := if FactChecker in done then [FactChecker] else [];
    var c := if Critic in done then [Critic] else [];
    var o := if Optimist in done then [Optimist] else [];
    assert AGENTS[1..] == [Critic, FactChecker] && AGENTS[1..][1..] == [FactChecker];
    assert Chosen([FactChecker], done) == f;
    assert Chosen([Critic, FactChecker], done) == c + f;
    assert Chosen(AGENTS, done) == o + (c + f);
    forall a
      ensures a in done <==> a in o + (c + f)
    {
      match a case Optimist => case Critic => case FactChecker =>
    }
    assert done == Elements(o + (c + f));
    SizeOfDistinct(o + (c + f));
  }

  lemma ChosenMembers(done: set<Agent>)
    ensures forall a :: a in Chosen(AGENTS, done) <==> a in done
  {
    ChosenAre(AGENTS, done);
    forall a
      ensures a in AGENTS
    {
      match a case Optimist => assert AGENTS[0] == a; case Critic => assert AGENTS[1] == a; case FactChecker => assert AGENTS[2] == a;
    }
  }

  lemma {:induction false} ChosenAre(agents: seq<Agent>, done: set<Agent>)
    ensures forall a :: a in Chosen(agents, done) <==> a in agents && a in done
  {
    if agents != [] { ChosenAre(agents[1..], done); }
  }

  lemma {:induction false} LookupFinds(w: World, agents: seq<Agent>, a: Agent)
    ensures Lookup(AnswersOf(w, agents), a) in {None, Some(w.answer(a))}
  {
    if agents != [] {
      assert AnswersOf(w, agents)[1..] == AnswersOf(w, agents[1..]);
      LookupFinds(w, agents[1..], a);
    }
  }

  /** However a run ends, every agent but the outlier still has its round 1 answer. */
  lemma OnlyTheOutlierChanges(w: World)
    requires Settled(w).Ended?
    ensures var first := FirstResponses(w); var last := Settled(w).responses;
            && DistinctAgents(last)
            && (!Settled(w).secondRound ==> last == first)
            && (Settled(w).secondRound ==>
                 var outlier := OutlierOf(first, Judge(w, 1, first).solution, w.outlier);
                 && Lookup(last, outlier) == Some(w.revised)
                 && (forall a :: a != outlier ==> Lookup(last, a) == Lookup(first, a))
                 && (|last| > |first| ==> outlier == Critic))
  {
    FirstResponsesAreDistinct(w);
    var first := FirstResponses(w);
    var round := Judge(w, 1, first);
    JudgeRoutes(w, 1, first);
    if round.tier.Tier3? {
      var outlier := OutlierOf(first, round.solution, w.outlier);
      JudgeRoutes(w, 2, Update(first, outlier, w.revised));
      UpdateOnlyTouches(first, outlier, w.revised);
      OutlierIsKnown(first, round.solution, w.outlier);
    }
  }

  lemma OutlierIsKnown(responses: seq<Named>, solution: Option<Solution>, index: nat)
    ensures var a := OutlierOf(responses, solution, index); a == Critic || Lookup(responses, a).Some?
  {
    if solution.Some? && index < |Speakers(responses)| {
      SpeakersAnswered(responses, index);
    }
  }

  lemma {:induction false} SpeakersAnswered(responses: seq<Named>, i: nat)
    requires i < |Speakers(responses)|
    ensures Lookup(responses, Speakers(responses)[i]).Some?
  {
    if responses[0].response.Answer? && i > 0 {
      SpeakersAnswered(responses[1..], i - 1);
    } else if !responses[0].response.Answer? {
      SpeakersAnswered(responses[1..], i);
    }
  }

  /** What an autonomous verdict means for the answers, the solution and the telemetry it is about. */
  predicate Earned(rs: seq<Response>, s: Solution, t: Telemetry, score: int, grounding: real) {
    && !s.vetoed && !s.quality.Low?
    && (forall i | 0 <= i < |rs| :: rs[i].Answer? && !rs[i].unreadable)
    && |t.anchors| > 2 && grounding >= 0.25
    && !RiskOf(s).HighRisk? && AnyExecutable(s.commands.GetOr([]))
    && (s.component != Unknown ==> 2 * CountOf(rs, s.component) >= |rs|)
    && (s.component == Unknown ==> score == 85 && Flawless(rs, s, t))
  }

  lemma TierOneIsEarned(rs: seq<Response>, s: Solution, t: Telemetry)
    requires Score(rs, Some(s), t).Scored? && Score(rs, Some(s), t).score >= 85
    ensures Earned(rs, s, t, Score(rs, Some(s), t).score, Score(rs, Some(s), t).meta.grounding)
  {
    TierOneForces(rs, s, t);
    NoFailuresMeansAllAnswered(rs);
    if s.component == Unknown {
      TierOneUnknownIsFlawless(rs, s, t);
    }
  }

  lemma JudgeScores(w: World, iteration: nat, responses: seq<Named>)
    requires Judge(w, iteration, responses).Ended?
    ensures var r := Judge(w, iteration, responses);
            && Score(Values(responses), r.solution, w.telemetry) == Scored(r.score, r.meta)
            && (r.score > 0 ==> r.solution.Some?)
  {
  }

  lemma SettledIsJudged(w: World)
    requires Settled(w).Ended?
    ensures var r := Settled(w);
            && Score(Values(r.responses), r.solution, w.telemetry) == Scored(r.score, r.meta)
            && (r.score > 0 ==> r.solution.Some?)
  {
    var first := FirstResponses(w);
    var round := Judge(w, 1, first);
    JudgeScores(w, 1, first);
    if round.tier.Tier3? {
      JudgeScores(w, 2, Update(first, OutlierOf(first, round.solution, w.outlier), w.revised));
    }
  }

  /** An autonomous verdict: no veto, no broken answer, grounded, not risky, executable, and with a
      known component backed by at least half of the agents that answered; without one, flawless. */
  lemma AutonomyIsEarned(w: World)
    requires Settled(w).Ended? && Settled(w).tier == Tier1
    ensures var r := Settled(w);
            r.solution.Some? && Earned(Values(r.responses), r.solution.value, w.telemetry, r.score, r.meta.grounding)
  {
    var r := Settled(w);
    NeverEndsInTier3(w);
    SettledIsJudged(w);
    TierOneIsEarned(Values(r.responses), r.solution.value, w.telemetry);
  }

  lemma {:induction false} NoFailuresMeansAllAnswered(rs: seq<Response>)
    requires ParseFailures(rs) == 0
    ensures forall i | 0 <= i < |rs| :: rs[i].Answer? && !rs[i].unreadable
    ensures Answers(rs) == rs
  {
    if rs != [] {
      var n := |rs| - 1;
      NoFailuresMeansAllAnswered(rs[..n]);
      assert rs == rs[..n] + [rs[n]];
    }
  }
}
