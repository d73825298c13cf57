/**
 What a score says about the debate it was given to: its range, what a Tier 1 score forces, when
 agreeing with the orchestrator helps, and when the scoring fails.
 */
module ScoringBounds {
  import opened Wrappers
  import opened Scoring

  // ----- Ratios -----

  lemma PercentBounds(part: nat, whole: nat)
    requires part <= whole && whole > 0
    ensures 0.0 <= Percent(part, whole) <= 1.0
    ensures Percent(part, whole) * whole as real == part as real
  {
  }

  lemma PercentMonotone(a: nat, b: nat, whole: nat)
    requires a <= b && whole > 0
    ensures Percent(a, whole) <= Percent(b, whole)
  {
  }

  lemma RoundMonotone(x: real, y: real)
    requires x <= y
    ensures Round3(x) <= Round3(y)
  {
    var m, n := (x * 1000.0).Floor, (y * 1000.0).Floor;
    assert m <= n;
  }

  lemma FloorMonotone(x: real, y: real)
    requires x <= y
    ensures x.Floor <= y.Floor
  {
  }

  lemma {:induction false} TotalGroundingBounds(answers: seq<Response>)
    ensures 0.0 <= TotalGrounding(answers) <= |answers| as real
  {
    if answers != [] { TotalGroundingBounds(answers[..|answers| - 1]); }
  }

  lemma DividedBounds(x: real, n: nat)
    requires 0.0 <= x <= n as real && n > 0
    ensures 0.0 <= x / n as real <= 1.0
  {
  }

  // ----- The range of each part -----

  lemma AgreementBounds(answers: seq<Response>, s: Solution)
    ensures 0.0 <= Agreement(answers, s) <= (if s.quality.Low? then 0.5 else 1.0)
    ensures -10 <= AgreementPoints(answers, s) <= (if s.quality.Low? || s.component.Unknown? then 15 else 30)
  {
    if answers != [] {
      var n := if s.component.Unknown? then MostCommon(answers, VOCABULARY) else CountOf(answers, s.component);
      PercentBounds(n, |answers|);
    }
  }

  lemma GroundingBounds(answers: seq<Response>, t: Telemetry)
    ensures 0.0 <= Grounding(answers, t) <= 1.0
    ensures 0 <= GroundingPoints(answers, t) <= 30
    ensures GroundingPoints(answers, t) == 30 <==> Grounding(answers, t) >= 0.5
  {
    if answers != [] {
      TotalGroundingBounds(answers);
      DividedBounds(TotalGrounding(answers), |answers|);
    }
  }

  lemma {:induction false} HasExecutableFinds(cmds: seq<Command>)
    ensures HasExecutable(cmds) == Some(true) ==> AnyExecutable(cmds)
    ensures HasExecutable(cmds) == Some(false) ==> !AnyExecutable(cmds)
  {
    if cmds != [] {
      HasExecutableFinds(cmds[1..]);
      assert forall c :: c in cmds <==> c == cmds[0] || c in cmds[1..];
    }
  }

  lemma CeilingBounds(t: Telemetry)
    ensures 88 <= Ceiling(t) <= 97
  {
  }

  lemma BaseBounds(rs: seq<Response>, s: Solution, t: Telemetry)
    ensures BasePoints(rs, s, t) <= 100 - 20 * ParseFailures(rs)
                                    - (if s.quality.Low? || s.component.Unknown? then 15 else 0)
                                    - (if AnyExecutable(s.commands.GetOr([])) then 0 else 12)
    ensures BasePoints(rs, s, t)
            <= AgreementPoints(Answers(rs), s) + GroundingPoints(Answers(rs), t) + ActionPoints(s, t) + 20
  {
    AgreementBounds(Answers(rs), s);
    GroundingBounds(Answers(rs), t);
  }

  // ----- The range of the score -----

  /** Every score is in 0..97, at most 64 after a veto and at most 65 when the evidence gate closed
      or the risk is high. */
  lemma ScoreBounds(rs: seq<Response>, s: Option<Solution>, t: Telemetry)
    requires Score(rs, s, t).Scored?
    ensures var r := Score(rs, s, t);
            && 0 <= r.score <= 97
            && (r.meta.vetoed ==> r.score <= 64)
            && (r.meta.evidenceGate || r.meta.risk.HighRisk? ==> r.score <= 65)
            && (r.meta.risk.HighRisk? ==> !r.meta.mode.Autonomous?)
  {
    CeilingBounds(t);
  }

  /** 97 is reached, so the bound of `ScoreBounds` is exact: a telemetry of difficulty 0.3 raises
      the ceiling above the 95 of an easy one. */
  lemma NinetySevenIsReached() returns (rs: seq<Response>, s: Option<Solution>, t: Telemetry)
    ensures Score(rs, s, t).Scored? && Score(rs, s, t).score == 97
  {
    var anchors := {"a", "b", "c", "d"};
    assert |anchors| == 4;
    t := Telemetry(anchors, true, false, false);
    var answer := Answer(Some(Cpu), None, Unknown, 1.0, false, 5);
    rs := [answer];
    var cmds := [Text(true, true)];
    s := Some(Solution(Cpu, OtherQuality, Some(cmds), {}, false, 4, LowRisk, false));
    FullPoints(answer, s.value, t);
    assert HasExecutable(cmds) == Some(true);
    assert Difficulty(t) == 0.3;
    assert Ceiling(t) == 97;
    assert Round3(1.0) == 1.0;
  }

  lemma FullPoints(a: Response, s: Solution, t: Telemetry)
    requires a.Answer? && !a.unreadable && a.words <= 15 && a.grounding == 1.0 && a.Component() == s.component
    requires s.component != Unknown && s.quality.OtherQuality? && s.commands == Some([Text(true, true)])
    requires s.commandKeywords == {} && s.fields == 4 && !s.vetoed && |t.anchors| > 2
    ensures Answers([a]) == [a] && ParseFailures([a]) == 0
    ensures Agreement([a], s) == 1.0 && Grounding([a], t) == 1.0 && BasePoints([a], s, t) == 100
  {
    OneAnswer(a);
    var rs, cmds := [a], [Text(true, true)];
    assert rs[..0] == [] && CountOf(rs, s.component) == 1;
    assert cmds[0] in cmds && AnyLongExecutable(cmds);
    assert Disciplined(rs);
  }

  // ----- What a Tier 1 score forces -----

  /** 85 points are reached exactly when nothing caps the score and its parts carry it. */
  lemma TierOneIsUncapped(rs: seq<Response>, s: Solution, t: Telemetry)
    requires Score(rs, Some(s), t).Scored?
    ensures Score(rs, Some(s), t).score >= 85
            <==> && !s.vetoed && !Gated(rs, s, t) && !RiskOf(s).HighRisk?
                 && BasePoints(rs, s, t) - Deductions(s, HasExecutable(s.commands.GetOr([])) == Some(true)) >= 85
  {
    CeilingBounds(t);
    if ParseFailures(rs) > 0 || Round3(Agreement(Answers(rs), s)) == 0.0 { FlawsCost(rs, s, t); }
    var agreement, grounding := Round3(Agreement(Answers(rs), s)), Round3(Grounding(Answers(rs), t));
    CapsAt85(BasePoints(rs, s, t), Deductions(s, HasExecutable(s.commands.GetOr([])) == Some(true)), Ceiling(t),
             ParseFailures(rs) > 0 || agreement == 0.0 || grounding == 0.0,
             Gated(rs, s, t), RiskOf(s).HighRisk?, s.vetoed);
  }

  /** What the perfection gate looks for costs more points than the gate takes. */
  lemma FlawsCost(rs: seq<Response>, s: Solution, t: Telemetry)
    requires ParseFailures(rs) > 0 || Round3(Agreement(Answers(rs), s)) == 0.0
    ensures BasePoints(rs, s, t) <= 80
  {
    BaseBounds(rs, s, t);
    GroundingBounds(Answers(rs), t);
    if Round3(Agreement(Answers(rs), s)) == 0.0 { NoAgreementNoPoints(Answers(rs), s); }
  }

  lemma NoAgreementNoPoints(answers: seq<Response>, s: Solution)
    requires Round3(Agreement(answers, s)) == 0.0
    ensures AgreementPoints(answers, s) <= 0
  {
    AgreementBounds(answers, s);
    SmallRatio(Agreement(answers, s));
  }

  lemma SmallRatio(ratio: real)
    requires 0.0 <= ratio && Round3(ratio) == 0.0
    ensures (30.0 * ratio).Floor == 0 && (15.0 * ratio).Floor == 0
  {
    assert ratio * 1000.0 < 1.0;
  }

  lemma CapsAt85(base: int, deductions: nat, ceiling: int, flawed: bool, gated: bool, high: bool, vetoed: bool)
    requires ceiling >= 88 && deductions in {0, 3, 5, 8, 13}
    requires flawed && !gated && !vetoed ==> base <= 92
    ensures Final(base, deductions, ceiling, flawed, gated, high, vetoed) >= 85
            <==> !vetoed && !gated && !high && base - deductions >= 85
  {
  }

  /** Without a known component every part has to be perfect. */
  predicate Flawless(rs: seq<Response>, s: Solution, t: Telemetry) {
    var answers := Answers(rs);
    && !s.vetoed && ParseFailures(rs) == 0 && |t.anchors| > 2 && !RiskOf(s).HighRisk?
    && (exists c :: Unanimous(answers, c))
    && TotalGrounding(answers) * 2.0 >= |answers| as real
    && AnyLongExecutable(s.commands.GetOr([]))
    && (s.commandKeywords == {} || s.commandKeywords * t.anchors != {})
    && s.fields == REQUIRED_FIELDS && Disciplined(answers) && s.quality.OtherQuality?
  }

  predicate Unanimous(answers: seq<Response>, c: Component) {
    forall a :: a in answers ==> a.Answer? && a.Component() == c
  }

  lemma {:induction false} CountIsAll(answers: seq<Response>, c: Component)
    ensures CountOf(answers, c) == |answers| <==> Unanimous(answers, c)
  {
    if answers != [] {
      var n := |answers| - 1;
      CountIsAll(answers[..n], c);
      assert answers == answers[..n] + [answers[n]];
      assert forall a :: a in answers <==> a in answers[..n] || a == answers[n];
    }
  }

  lemma {:induction false} MostCommonIsCounted(answers: seq<Response>, v: seq<Component>)
    ensures MostCommon(answers, v) == 0 || exists c :: c in v && CountOf(answers, c) == MostCommon(answers, v)
  {
    if v != [] {
      MostCommonIsCounted(answers, v[1..]);
      assert v[0] in v;
      assert forall c :: c in v[1..] ==> c in v;
    }
  }

  lemma VocabularyIsComplete(c: Component)
    ensures c in VOCABULARY
  {
    var i := match c
      case Network => 0 case Disk => 1 case Memory => 2 case Cpu => 3 case Dns => 4
      case Config => 5 case Code => 6 case Database => 7 case Dependency => 8 case Unknown => 9;
    assert VOCABULARY[i] == c;
  }

  /** Without a known component, full points for agreement mean that all answers name one. */
  lemma FullPointsAreUnanimous(answers: seq<Response>, s: Solution)
    requires s.component.Unknown? && answers != []
    ensures AgreementPoints(answers, s) == 15 <==> !s.quality.Low? && exists c :: Unanimous(answers, c)
  {
    var n := MostCommon(answers, VOCABULARY);
    AgreementBounds(answers, s);
    PercentBounds(n, |answers|);
    FullShare(n, |answers|);
    MostCommonIsCounted(answers, VOCABULARY);
    if c :| Unanimous(answers, c) {
      CountIsAll(answers, c);
      VocabularyIsComplete(c);
    }
    if n == |answers| {
      var c :| c in VOCABULARY && CountOf(answers, c) == n;
      CountIsAll(answers, c);
    }
  }

  lemma FullShare(n: nat, whole: nat)
    requires n <= whole && whole > 0
    ensures Percent(n, whole) >= 1.0 <==> n == whole
  {
    PercentBounds(n, whole);
  }

  lemma HalfShare(n: nat, whole: nat)
    requires whole > 0
    ensures Percent(n, whole) >= 0.5 <==> 2 * n >= whole
  {
  }

  lemma HalfGrounding(answers: seq<Response>, t: Telemetry)
    requires answers != [] && |t.anchors| > 2
    ensures Grounding(answers, t) >= 0.5 <==> TotalGrounding(answers) * 2.0 >= |answers| as real
  {
  }

  /** A Tier 1 score leaves little room.  If the orchestrator names a component, at least half of
      the answers name it too. */
  lemma TierOneForces(rs: seq<Response>, s: Solution, t: Telemetry)
    requires Score(rs, Some(s), t).Scored? && Score(rs, Some(s), t).score >= 85
    ensures !s.vetoed && ParseFailures(rs) == 0 && |t.anchors| > 2 && !RiskOf(s).HighRisk?
    ensures Score(rs, Some(s), t).meta.grounding >= 0.25
    ensures HasExecutable(s.commands.GetOr([])) == Some(true) && AnyExecutable(s.commands.GetOr([]))
    ensures !s.quality.Low? && Answers(rs) != []
    ensures s.component != Unknown ==> 2 * CountOf(Answers(rs), s.component) >= |Answers(rs)|
  {
    TierOneIsUncapped(rs, s, t);
    BaseBounds(rs, s, t);
    HasExecutableFinds(s.commands.GetOr([]));
    var answers := Answers(rs);
    AgreementBounds(answers, s);
    GroundingBounds(answers, t);
    if answers != [] {
      HalfShare(CountOf(answers, s.component), |answers|);
    }
  }

  /** If the orchestrator names no component, Tier 1 is exactly flawlessness, and 85 exactly. */
  lemma TierOneUnknownIsFlawless(rs: seq<Response>, s: Solution, t: Telemetry)
    requires Score(rs, Some(s), t).Scored? && s.component.Unknown?
    ensures Score(rs, Some(s), t).score <= 85
    ensures Score(rs, Some(s), t).score == 85
            <==> Flawless(rs, s, t) && HasExecutable(s.commands.GetOr([])) == Some(true)
  {
    var answers := Answers(rs);
    TierOneIsUncapped(rs, s, t);
    BaseBounds(rs, s, t);
    HasExecutableFinds(s.commands.GetOr([]));
    AgreementBounds(answers, s);
    GroundingBounds(answers, t);
    if answers != [] {
      FullPointsAreUnanimous(answers, s);
      if |t.anchors| > 2 {
        HalfGrounding(answers, t);
      }
    }
    WellGrounded(Grounding(answers, t));
  }

  lemma WellGrounded(x: real)
    ensures x >= 0.25 ==> Round3(x) >= 0.25
  {
    if x >= 0.25 {
      RoundMonotone(0.25, x);
      assert Round3(0.25) == 0.25;
    }
  }

  // ----- Agreeing with the orchestrator -----

  /** Some answers now name `c` explicitly; nothing else changed. */
  predicate Swayed(rs: seq<Response>, rs': seq<Response>, c: Component) {
    && |rs| == |rs'|
    && forall i | 0 <= i < |rs| :: SwayedOne(rs[i], rs'[i], c)
  }

  predicate SwayedOne(r: Response, r': Response, c: Component) {
    r' == r || (r.Answer? && r' == r.(primary := Some(c)))
  }

  lemma {:induction false} SwayedAnswers(rs: seq<Response>, rs': seq<Response>, c: Component)
    requires Swayed(rs, rs', c)
    ensures Swayed(Answers(rs), Answers(rs'), c)
    ensures ParseFailures(rs) == ParseFailures(rs')
    ensures CountOf(rs, c) <= CountOf(rs', c) && TotalGrounding(rs) == TotalGrounding(rs')
  {
    if rs != [] { SwayedAnswers(rs[..|rs| - 1], rs'[..|rs| - 1], c); }
  }

  lemma SwayedDiscipline(answers: seq<Response>, answers': seq<Response>, c: Component)
    requires Swayed(answers, answers', c)
    ensures Disciplined(answers) == Disciplined(answers')
  {
    assert Disciplined(answers) <==> answers != [] && forall i | 0 <= i < |answers| :: answers[i].Answer? && answers[i].words <= 15;
    assert Disciplined(answers') <==> answers' != [] && forall i | 0 <= i < |answers'| :: answers'[i].Answer? && answers'[i].words <= 15;
    assert forall i | 0 <= i < |answers| :: SwayedOne(answers[i], answers'[i], c);
  }

  lemma SwayedAgreement(answers: seq<Response>, answers': seq<Response>, s: Solution)
    requires Swayed(answers, answers', s.component) && s.component != Unknown
    ensures Agreement(answers, s) <= Agreement(answers', s)
    ensures AgreementPoints(answers, s) <= AgreementPoints(answers', s)
    ensures forall t :: Grounding(answers, t) == Grounding(answers', t)
  {
    if answers != [] {
      SwayedShares(answers, answers', s.component);
      AgreementBounds(answers, s);
      FloorMonotone(30.0 * Agreement(answers, s), 30.0 * Agreement(answers', s));
    }
  }

  lemma SwayedShares(answers: seq<Response>, answers': seq<Response>, c: Component)
    requires Swayed(answers, answers', c) && answers != []
    ensures Percent(CountOf(answers, c), |answers|) <= Percent(CountOf(answers', c), |answers'|)
    ensures TotalGrounding(answers) == TotalGrounding(answers')
  {
    SwayedAnswers(answers, answers', c);
    PercentMonotone(CountOf(answers, c), CountOf(answers', c), |answers|);
  }

  /** The points do not drop, and nothing that caps them changes for the worse. */
  lemma SwayedScore(rs: seq<Response>, rs': seq<Response>, s: Solution, t: Telemetry)
    requires Swayed(rs, rs', s.component) && s.component != Unknown
    ensures NotLower(Score(rs, Some(s), t), Score(rs', Some(s), t))
  {
    var answers, answers' := Answers(rs), Answers(rs');
    SwayedAnswers(rs, rs', s.component);
    SwayedDiscipline(answers, answers', s.component);
    SwayedAgreement(answers, answers', s);
    AgreementBounds(answers, s);
    RoundMonotone(0.0, Agreement(answers, s));
    RoundMonotone(Agreement(answers, s), Agreement(answers', s));
    SwayedPoints(rs, rs', s, t);
    var executable := HasExecutable(s.commands.GetOr([]));
    if executable.Some? {
      FinalMonotone(BasePoints(rs, s, t), BasePoints(rs', s, t), Deductions(s, executable.value), Ceiling(t),
                    Flawed(rs, s, t), Flawed(rs', s, t), Gated(rs, s, t), RiskOf(s).HighRisk?, s.vetoed);
    }
  }

  predicate Flawed(rs: seq<Response>, s: Solution, t: Telemetry) {
    ParseFailures(rs) > 0 || Round3(Agreement(Answers(rs), s)) == 0.0 || Round3(Grounding(Answers(rs), t)) == 0.0
  }

  lemma SwayedPoints(rs: seq<Response>, rs': seq<Response>, s: Solution, t: Telemetry)
    requires Swayed(rs, rs', s.component) && s.component != Unknown
    ensures BasePoints(rs, s, t) <= BasePoints(rs', s, t)
  {
    var answers, answers' := Answers(rs), Answers(rs');
    SwayedAnswers(rs, rs', s.component);
    SwayedDiscipline(answers, answers', s.component);
    SwayedAgreement(answers, answers', s);
    assert GroundingPoints(answers, t) == GroundingPoints(answers', t);
  }

  lemma FinalMonotone(base: int, base': int, deductions: int, ceiling: int, flawed: bool, flawed': bool,
                      gated: bool, high: bool, vetoed: bool)
    requires base <= base' && (flawed' ==> flawed)
    ensures Final(base, deductions, ceiling, flawed, gated, high, vetoed)
            <= Final(base', deductions, ceiling, flawed', gated, high, vetoed)
  {
  }

  predicate NotLower(r: Outcome, r': Outcome) {
    r.Raises? == r'.Raises? && (r.Scored? ==> r.score <= r'.score)
  }

  ghost predicate AgreeingNeverHurts(c: Component) {
    forall rs, rs', s: Solution, t ::
      s.component == c && Swayed(rs, rs', c) ==> NotLower(Score(rs, Some(s), t), Score(rs', Some(s), t))
  }

  /** Moving answers to the orchestrator's component never lowers the score, exactly when that
      component is a real one. */
  lemma AgreeingHelpsIffKnown(c: Component)
    ensures AgreeingNeverHurts(c) <==> c != Unknown
  {
    if c == Unknown {
      var rs, rs', s, t := AgreeingOnUnknownHurts();
      assert s.component == c && Swayed(rs, rs', c);
    } else {
      forall rs, rs', s: Solution, t | s.component == c && Swayed(rs, rs', c)
        ensures NotLower(Score(rs, Some(s), t), Score(rs', Some(s), t))
      {
        SwayedScore(rs, rs', s, t);
      }
    }
  }

  /** Two answers agree on the CPU; one of them joins an orchestrator that names nothing. */
  lemma AgreeingOnUnknownHurts() returns (rs: seq<Response>, rs': seq<Response>, s: Solution, t: Telemetry)
    ensures s.component == Unknown && Swayed(rs, rs', Unknown)
    ensures !NotLower(Score(rs, Some(s), t), Score(rs', Some(s), t))
  {
    var a := Answer(Some(Cpu), None, Unknown, 0.0, false, 5);
    var b := a.(primary := Some(Unknown));
    rs, rs' := [a, a], [a, b];
    t := Telemetry({}, false, false, false);
    s := Solution(Unknown, OtherQuality, None, {}, false, 4, LowRisk, false);
    TwoAnswers(a, a);
    TwoAnswers(a, b);
    OneVoteFewer(rs, rs', s, t);
    OneSways(a, b);
  }

  lemma OneSways(a: Response, b: Response)
    requires a.Answer? && b == a.(primary := Some(Unknown))
    ensures Swayed([a, a], [a, b], Unknown)
  {
    assert SwayedOne(a, a, Unknown) && SwayedOne(a, b, Unknown);
  }

  predicate IdlePair(rs: seq<Response>) {
    Answers(rs) == rs && |rs| == 2 && ParseFailures(rs) == 0 && TotalGrounding(rs) == 0.0 && Disciplined(rs)
  }

  lemma OneVoteFewer(rs: seq<Response>, rs': seq<Response>, s: Solution, t: Telemetry)
    requires s == Solution(Unknown, OtherQuality, None, {}, false, 4, LowRisk, false)
    requires t == Telemetry({}, false, false, false)
    requires IdlePair(rs) && MostCommon(rs, VOCABULARY) == 2 && IdlePair(rs') && MostCommon(rs', VOCABULARY) == 1
    ensures !NotLower(Score(rs, Some(s), t), Score(rs', Some(s), t))
  {
    UnknownScore(rs, s, t);
    UnknownScore(rs', s, t);
  }

  /** The score of a perfectly structured but ungrounded and idle debate about no component. */
  lemma UnknownScore(rs: seq<Response>, s: Solution, t: Telemetry)
    requires s == Solution(Unknown, OtherQuality, None, {}, false, 4, LowRisk, false)
    requires t == Telemetry({}, false, false, false)
    requires IdlePair(rs)
    ensures Score(rs, Some(s), t).Scored?
    ensures Score(rs, Some(s), t).score == 20 + (if MostCommon(rs, VOCABULARY) == 2 then 15 else if MostCommon(rs, VOCABULARY) == 1 then 7 else 0)
  {
    var n := MostCommon(rs, VOCABULARY);
    assert Agreement(rs, s) == n as real / 2.0;
    assert AgreementPoints(rs, s) == (if n == 2 then 15 else if n == 1 then 7 else 0);
    assert Grounding(rs, t) == 0.0;
    assert !AnyLongExecutable([]) && !AnyLong([]);
    assert ActionPoints(s, t) == 5;
    assert BasePoints(rs, s, t) == AgreementPoints(rs, s) + 25;
    CeilingBounds(t);
  }

  lemma {:induction false} TwoAnswers(a: Response, b: Response)
    requires a.Answer? && b.Answer? && a.grounding == b.grounding == 0.0 && a.Component() == Cpu
    requires !a.unreadable && !b.unreadable && a.words == b.words == 5
    ensures IdlePair([a, b])
    ensures MostCommon([a, b], VOCABULARY) == if b.Component() == Cpu then 2 else 1
  {
    PairIsIdle(a, b);
    CountsOfTwo(a, b);
  }

  lemma PairIsIdle(a: Response, b: Response)
    requires a.Answer? && b.Answer? && a.grounding == b.grounding == 0.0
    requires !a.unreadable && !b.unreadable && a.words == b.words == 5
    ensures IdlePair([a, b])
  {
    OneAnswer(a);
    assert [a, b][..1] == [a];
  }

  lemma OneAnswer(a: Response)
    requires a.Answer? && !a.unreadable
    ensures Answers([a]) == [a] && ParseFailures([a]) == 0 && TotalGrounding([a]) == a.grounding
  {
    var rs := [a];
    assert rs[..0] == [];
    assert ParseFailures(rs) == ParseFailures([]) && TotalGrounding(rs) == TotalGrounding([]) + a.grounding;
  }

  lemma CountsOfTwo(a: Response, b: Response)
    requires a.Answer? && b.Answer? && a.Component() == Cpu
    ensures MostCommon([a, b], VOCABULARY) == if b.Component() == Cpu then 2 else 1
  {
    var rs := [a, b];
    forall c
      ensures CountOf(rs, c) == (if c == Cpu then 1 else 0) + (if c == b.Component() then 1 else 0)
    {
      CountOfTwo(a, b, c);
    }
    VocabularyIsComplete(Cpu);
    VocabularyIsComplete(b.Component());
    MostOfTwo(rs, b.Component(), VOCABULARY);
  }

  lemma MostOfTwo(rs: seq<Response>, d: Component, v: seq<Component>)
    requires Cpu in v && d in v
    requires forall c :: CountOf(rs, c) == (if c == Cpu then 1 else 0) + (if c == d then 1 else 0)
    ensures MostCommon(rs, v) == if d == Cpu then 2 else 1
  {
    MostCommonIsCounted(rs, v);
  }

  lemma CountOfTwo(a: Response, b: Response, c: Component)
    requires a.Answer? && b.Answer?
    ensures CountOf([a, b], c) == (if c == a.Component() then 1 else 0) + (if c == b.Component() then 1 else 0)
  {
    var rs, one := [a, b], [a];
    assert rs[..1] == one && one[..0] == [];
  }

  // ----- When the scoring fails -----

  /** A blank command raises, unless an executable one before it ends the search. */
  lemma RaisesIffBlankIsReached(rs: seq<Response>, s: Option<Solution>, t: Telemetry)
    ensures Score(rs, s, t).Raises? <==> s.Some? && s.value.commands.Some? && BlankReached(s.value.commands.value)
  {
    if s.Some? { BlankRaises(s.value.commands.GetOr([])); }
  }

  predicate BlankReached(cmds: seq<Command>) {
    exists i | 0 <= i < |cmds| :: cmds[i].Blank? && NoneExecutable(cmds[..i])
  }

  predicate NoneExecutable(cmds: seq<Command>) {
    forall c :: c in cmds && c.Text? ==> !c.executable
  }

  lemma {:induction false} BlankRaises(cmds: seq<Command>)
    ensures HasExecutable(cmds).None? <==> BlankReached(cmds)
  {
    if cmds == [] {
    } else if cmds[0].Blank? {
      assert NoneExecutable(cmds[..0]);
    } else if cmds[0].Text? && cmds[0].executable {
      assert forall i | 0 < i <= |cmds| :: cmds[0] in cmds[..i];
    } else {
      var rest := cmds[1..];
      BlankRaises(rest);
      if i :| 0 <= i < |rest| && rest[i].Blank? && NoneExecutable(rest[..i]) {
        assert cmds[..i + 1] == [cmds[0]] + rest[..i];
        assert cmds[i + 1].Blank? && NoneExecutable(cmds[..i + 1]);
      }
      if i :| 0 <= i < |cmds| && cmds[i].Blank? && NoneExecutable(cmds[..i]) {
        assert cmds[..i] == [cmds[0]] + rest[..i - 1];
        assert rest[i - 1].Blank? && NoneExecutable(rest[..i - 1]);
      }
    }
  }
}
