/**
 The two rounds of a debate by place and number: who answers, in which order, who is run again, and
 when a run fails.
 */
module DebateRounds {
  import opened Wrappers
  import opened Sequences
  import opened Scoring
  import opened ScoringBounds
  import opened Debate

  // ----- Round 1 -----

  /** The place of an agent in the order in which the tasks are started. */
  function Place(a: Agent): nat {
    match a case Optimist => 0 case Critic => 1 case FactChecker => 2
  }

  /** Exactly these two finished early, and more than three fifths of their keywords are shared. */
  predicate AgreeEarly(w: World, a: Agent, b: Agent) {
    a != b && w.done == {a, b} && 5 * |w.keywords(a) * w.keywords(b)| > 3 * |w.keywords(a) + w.keywords(b)|
  }

  lemma SharedMeansSome(a: set<string>, b: set<string>)
    requires |a * b| > 0
    ensures a != {} && b != {}
  {
    var x :| x in a * b;
  }

  lemma AgreeEarlyIsFastPath(w: World)
    ensures FastPath(w) <==> exists a, b: Agent :: AgreeEarly(w, a, b)
  {
    if a, b: Agent :| AgreeEarly(w, a, b) {
      SharedMeansSome(w.keywords(a), w.keywords(b));
    }
    if FastPath(w) {
      var a, b: Agent :| a != b && w.done == {a, b} && w.keywords(a) != {} && w.keywords(b) != {}
        && 10 * |w.keywords(a) * w.keywords(b)| > 6 * |w.keywords(a) + w.keywords(b)|;
      assert AgreeEarly(w, a, b);
    }
  }

  lemma {:induction false} ChosenInOrder(agents: seq<Agent>, done: set<Agent>)
    requires forall i, j | 0 <= i < j < |agents| :: Place(agents[i]) < Place(agents[j])
    ensures var c := Chosen(agents, done);
            && (forall i, j | 0 <= i < j < |c| :: Place(c[i]) < Place(c[j]))
            && (forall a :: a in c <==> a in agents && a in done)
  {
    if agents != [] {
      ChosenInOrder(agents[1..], done);
      assert forall a :: a in agents[1..] ==> Place(agents[0]) < Place(a);
    }
  }

  lemma AgentsAre(a: Agent)
    ensures a in AGENTS
  {
    match a
    case Optimist => assert AGENTS[0] == a;
    case Critic => assert AGENTS[1] == a;
    case FactChecker => assert AGENTS[2] == a;
  }

  /** The answers of some agents, in the order of those. */
  predicate AnswersInOrder(w: World, responses: seq<Named>) {
    && (forall i | 0 <= i < |responses| :: responses[i].response == w.answer(responses[i].agent))
    && (forall i, j | 0 <= i < j < |responses| :: Place(responses[i].agent) < Place(responses[j].agent))
  }

  predicate Answered(responses: seq<Named>, a: Agent) {
    exists i :: 0 <= i < |responses| && responses[i].agent == a
  }

  lemma AnswersAreInOrder(w: World, agents: seq<Agent>)
    requires forall i, j | 0 <= i < j < |agents| :: Place(agents[i]) < Place(agents[j])
    ensures AnswersInOrder(w, AnswersOf(w, agents))
    ensures forall a :: Answered(AnswersOf(w, agents), a) <==> a in agents
  {
    var rs := AnswersOf(w, agents);
    forall a
      ensures Answered(rs, a) <==> a in agents
    {
      if a in agents {
        var i :| 0 <= i < |agents| && agents[i] == a;
        assert rs[i].agent == a;
      }
    }
  }

  /** Round 1 has the answers of all three agents, or of the two that agreed early, in the order in
      which they were started. */
  lemma FirstRoundInOrder(w: World)
    ensures AnswersInOrder(w, FirstResponses(w))
    ensures forall a :: Answered(FirstResponses(w), a) <==> (exists b, c: Agent :: AgreeEarly(w, b, c)) ==> a in w.done
  {
    AgreeEarlyIsFastPath(w);
    ChosenInOrder(AGENTS, w.done);
    var agents := if FastPath(w) then Chosen(AGENTS, w.done) else AGENTS;
    AnswersAreInOrder(w, agents);
    forall a
      ensures a in agents <==> FastPath(w) ==> a in w.done
    {
      AgentsAre(a);
    }
  }

  // ----- Who is run again -----

  /** The places of the answers that are dictionaries. */
  function DictionaryPlaces(responses: seq<Named>): set<int> {
    set i | 0 <= i < |responses| && responses[i].response.Answer?
  }

  lemma {:induction false} OneMoreSpeaker(responses: seq<Named>, r: Named)
    ensures Speakers(responses + [r]) == Speakers(responses) + (if r.response.Answer? then [r.agent] else [])
  {
    if responses != [] {
      OneMoreSpeaker(responses[1..], r);
      assert (responses + [r])[1..] == responses[1..] + [r];
    }
  }

  lemma {:induction false} SpeakersAreCounted(responses: seq<Named>)
    ensures |Speakers(responses)| == |DictionaryPlaces(responses)|
  {
    if responses != [] {
      var n := |responses| - 1;
      SpeakersAreCounted(responses[..n]);
      OneMoreSpeaker(responses[..n], responses[n]);
      assert responses == responses[..n] + [responses[n]];
      OneMoreIn(DictionaryPlaces(responses), DictionaryPlaces(responses[..n]), n, responses[n].response.Answer?);
    }
  }

  /** A dictionary with exactly `index` dictionaries before it. */
  predicate IsAt(responses: seq<Named>, index: nat, p: nat) {
    p < |responses| && responses[p].response.Answer? && |DictionaryPlaces(responses[..p])| == index
  }

  lemma {:induction false} SpeakerPlace(responses: seq<Named>, index: nat) returns (p: nat)
    requires index < |Speakers(responses)|
    ensures IsAt(responses, index, p) && Speakers(responses)[index] == responses[p].agent
  {
    var n := |responses| - 1;
    OneMoreSpeaker(responses[..n], responses[n]);
    assert responses == responses[..n] + [responses[n]];
    if index < |Speakers(responses[..n])| {
      p := SpeakerPlace(responses[..n], index);
      assert responses[..n][..p] == responses[..p];
    } else {
      p := n;
      SpeakersAreCounted(responses[..n]);
    }
  }

  lemma {:induction false} UpdateAtPlace(responses: seq<Named>, p: nat, r: Response)
    requires p < |responses| && DistinctAgents(responses)
    ensures Update(responses, responses[p].agent, r) == responses[p := Named(responses[p].agent, r)]
  {
    if p > 0 {
      assert responses[1..][p - 1] == responses[p];
      UpdateAtPlace(responses[1..], p - 1, r);
    }
  }

  lemma {:induction false} UpdateAtEnd(responses: seq<Named>, a: Agent, r: Response)
    requires forall i | 0 <= i < |responses| :: responses[i].agent != a
    ensures Update(responses, a, r) == responses + [Named(a, r)]
  {
    if responses != [] {
      UpdateAtEnd(responses[1..], a, r);
      assert responses == [responses[0]] + responses[1..];
    }
  }

  /** `last` is `first` with the answer at place `p` replaced by the new one. */
  predicate Revised(first: seq<Named>, last: seq<Named>, p: nat, r: Response) {
    && p < |first| && |last| == |first|
    && last[p] == Named(first[p].agent, r)
    && forall i | 0 <= i < |first| && i != p :: last[i] == first[i] && first[i].response.Answer?
  }

  /** `last` is `first` with the critic's new answer after the others. */
  predicate CriticJoins(first: seq<Named>, last: seq<Named>, r: Response) {
    && last == first + [Named(Critic, r)]
    && forall i | 0 <= i < |first| :: first[i].agent != Critic && first[i].response.Answer?
  }

  /** The agent run again is the one of the dictionary that has exactly `outlier` dictionaries before
      it; the critic, if there is none or the solution was empty.  All others stand as they were. */
  lemma OutlierByPlace(w: World)
    requires Settled(w).Ended? && Settled(w).secondRound
    ensures w.synthesis(1).Solved?
    ensures var first, last := FirstResponses(w), Settled(w).responses;
            if w.synthesis(1).solution.Some? && w.outlier < |DictionaryPlaces(first)|
            then exists p :: IsAt(first, w.outlier, p) && Revised(first, last, p, w.revised)
            else CriticJoins(first, last, w.revised)
                 || exists p :: 0 <= p < |first| && first[p].agent == Critic && Revised(first, last, p, w.revised)
  {
    var first := FirstResponses(w);
    FirstResponsesAreDistinct(w);
    JudgeRoutes(w, 1, first);
    var round := Judge(w, 1, first);
    var outlier := OutlierOf(first, round.solution, w.outlier);
    JudgeRoutes(w, 2, Update(first, outlier, w.revised));
    assert Settled(w).responses == Update(first, outlier, w.revised) && !PeersFail(first, outlier);
    assert round.solution == w.synthesis(1).solution;
    SpeakersAreCounted(first);
    if round.solution.Some? && w.outlier < |Speakers(first)| {
      var p := SpeakerPlace(first, w.outlier);
      assert Speakers(first)[w.outlier] == outlier;
      RevisedAt(first, p, w.revised);
    } else {
      CriticIsRevised(first, w.revised);
    }
  }

  lemma RevisedAt(first: seq<Named>, p: nat, r: Response)
    requires p < |first| && DistinctAgents(first) && !PeersFail(first, first[p].agent)
    ensures Revised(first, Update(first, first[p].agent, r), p, r)
  {
    UpdateAtPlace(first, p, r);
    forall i | 0 <= i < |first| && i != p
      ensures first[i].agent != first[p].agent
    {
      if i < p { assert first[i].agent != first[p].agent; } else { assert first[p].agent != first[i].agent; }
    }
  }

  lemma CriticIsRevised(first: seq<Named>, r: Response)
    requires DistinctAgents(first) && !PeersFail(first, Critic)
    ensures var last := Update(first, Critic, r);
            CriticJoins(first, last, r) || exists p :: 0 <= p < |first| && first[p].agent == Critic && Revised(first, last, p, r)
  {
    if p :| 0 <= p < |first| && first[p].agent == Critic {
      RevisedAt(first, p, r);
    } else {
      UpdateAtEnd(first, Critic, r);
    }
  }

  // ----- How a run ends -----

  /** The last word is the score of the last answers under the last synthesis. */
  lemma TheLastRoundCounts(w: World)
    requires Settled(w).Ended?
    ensures var r := Settled(w); var last := if r.secondRound then 2 else 1;
            && w.synthesis(last) == Solved(r.solution)
            && Score(Values(r.responses), r.solution, w.telemetry) == Scored(r.score, r.meta)
  {
    SettledIsJudged(w);
  }

  /** One round fails on a synthesis that is no dictionary, and in the score on a blank command. */
  predicate RoundFails(w: World, iteration: nat, responses: seq<Named>) {
    w.synthesis(iteration).Broken? || Score(Values(responses), w.synthesis(iteration).solution, w.telemetry).Raises?
  }

  /** Round 1 asks for another one: neither vetoed nor at 65 points. */
  predicate IsWeak(w: World, responses: seq<Named>)
    requires !RoundFails(w, 1, responses)
  {
    var r := Score(Values(responses), w.synthesis(1).solution, w.telemetry);
    !r.meta.vetoed && r.score < 65
  }

  /** A run fails exactly in reading the early answers, in round 1, over a peer that is no dictionary
      when one agent is run again, or in round 2. */
  lemma RunFailsIff(w: World)
    ensures var first := FirstResponses(w);
            Settled(w).Raised? <==>
              || (|w.done| >= 2 && exists a :: a in w.done && w.answer(a).NotADict?)
              || RoundFails(w, 1, first)
              || (IsWeak(w, first)
                  && var outlier := OutlierOf(first, w.synthesis(1).solution, w.outlier);
                     || (exists i :: 0 <= i < |first| && first[i].agent != outlier && first[i].response.NotADict?)
                     || RoundFails(w, 2, Update(first, outlier, w.revised)))
  {
  }
}
