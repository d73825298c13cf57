/**
 The score in whole numbers, without the ratios, the running total and the order of the gates: a
 second definition that the first one is proved to equal, and what it says about single changes.
 */
module ScoringNumbers {
  import opened Wrappers
  import opened Sequences
  import opened Scoring
  import opened ScoringBounds

  // ----- Counting -----

  function AnswerPlaces(rs: seq<Response>): set<int> {
    set i | 0 <= i < |rs| && rs[i].Answer?
  }

  function VotePlaces(rs: seq<Response>, c: Component): set<int> {
    set i | 0 <= i < |rs| && IsVote(rs[i], c)
  }

  function FailurePlaces(rs: seq<Response>): set<int> {
    set i | 0 <= i < |rs| && (rs[i].NotADict? || rs[i].unreadable)
  }

  lemma {:induction false} AnswersAreCounted(rs: seq<Response>)
    ensures |Answers(rs)| == |AnswerPlaces(rs)|
  {
    if rs != [] {
      var n := |rs| - 1;
      AnswersAreCounted(rs[..n]);
      OneMoreIn(AnswerPlaces(rs), AnswerPlaces(rs[..n]), n, rs[n].Answer?);
    }
  }

  lemma {:induction false} VotesAreCounted(rs: seq<Response>, c: Component)
    ensures CountOf(Answers(rs), c) == |VotePlaces(rs, c)|
  {
    if rs != [] {
      VotesAreCounted(rs[..|rs| - 1], c);
      OneMoreVotePlace(rs, c);
      OneMoreAnswer(rs, c);
    }
  }

  predicate IsVote(r: Response, c: Component) { r.Answer? && r.Component() == c }

  lemma OneMoreVotePlace(rs: seq<Response>, c: Component)
    requires rs != []
    ensures |VotePlaces(rs, c)| == |VotePlaces(rs[..|rs| - 1], c)| + (if IsVote(rs[|rs| - 1], c) then 1 else 0)
  {
    var n := |rs| - 1;
    OneMoreIn(VotePlaces(rs, c), VotePlaces(rs[..n], c), n, IsVote(rs[n], c));
  }

  lemma OneMoreAnswer(rs: seq<Response>, c: Component)
    requires rs != []
    ensures CountOf(Answers(rs), c) == CountOf(Answers(rs[..|rs| - 1]), c) + (if IsVote(rs[|rs| - 1], c) then 1 else 0)
  {
    var n := |rs| - 1;
    if rs[n].Answer? {
      CountOneMore(Answers(rs[..n]), rs[n], c);
    } else {
      assert Answers(rs) == Answers(rs[..n]);
    }
  }

  lemma CountOneMore(answers: seq<Response>, r: Response, c: Component)
    requires r.Answer?
    ensures CountOf(answers + [r], c) == CountOf(answers, c) + (if r.Component() == c then 1 else 0)
  {
    assert (answers + [r])[..|answers|] == answers;
  }

  lemma {:induction false} FailuresAreCounted(rs: seq<Response>)
    ensures ParseFailures(rs) == |FailurePlaces(rs)|
  {
    if rs != [] {
      var n := |rs| - 1;
      FailuresAreCounted(rs[..n]);
      OneMoreIn(FailurePlaces(rs), FailurePlaces(rs[..n]), n, rs[n].NotADict? || rs[n].unreadable);
    }
  }

  // ----- The second definition -----

  /** 30 points for all votes, in proportion; half of that without a component, and at most half of
      either on low quality.  Nobody's vote for a component costs 10. */
  function VotePoints(votes: nat, n: nat, known: bool, low: bool): int {
    var whole := if known then 30 else 15;
    if n == 0 then 0
    else if known && votes == 0 then -10
    else if low && 2 * votes > n then whole / 2
    else whole * votes / n
  }

  /** Half of the keywords anchored is enough for 30 points; few anchors are worth 12 at most. */
  function AnchorPoints(total: real, n: nat, anchors: nat): int {
    if n == 0 then 0
    else
      var points := (60.0 * (total / n as real)).Floor;
      Min(points, if anchors <= 2 then 12 else 30)
  }

  function CommandPoints(s: Solution, t: Telemetry): int {
    var cmds := s.commands.GetOr([]);
    if s.vetoed then 0
    else if forall i | 0 <= i < |cmds| :: !cmds[i].Text? || !cmds[i].long then 5
    else if forall i | 0 <= i < |cmds| :: !cmds[i].Text? || !cmds[i].long || !cmds[i].executable then 8
    else if s.commandKeywords == {} || t.anchors == {} || s.commandKeywords * t.anchors != {} then 20
    else if s.mutating then 5
    else 13
  }

  function FieldPoints(fields: nat): int {
    if fields == 0 then 0 else if fields == 1 then 2 else if fields == 2 then 5 else if fields == 3 then 7 else 10
  }

  predicate ShortReasoning(rs: seq<Response>) {
    AnswerPlaces(rs) != {} && forall i :: i in AnswerPlaces(rs) ==> rs[i].words <= 15
  }

  function Points(rs: seq<Response>, s: Solution, t: Telemetry): int {
    var n := |AnswerPlaces(rs)|;
    var votes := if s.component.Unknown? then MostCommon(Answers(rs), VOCABULARY) else |VotePlaces(rs, s.component)|;
    VotePoints(votes, n, !s.component.Unknown?, s.quality.Low?)
    + AnchorPoints(TotalGrounding(Answers(rs)), n, |t.anchors|)
    + CommandPoints(s, t)
    + FieldPoints(s.fields)
    + (if ShortReasoning(rs) && !s.vetoed then 10 else 0)
    - 20 * |FailurePlaces(rs)|
  }

  /** Difficulty counts in fortieths: one an anchor, 8, 4 and 12 for the three flags, 40 at most. */
  function Fortieths(t: Telemetry): nat {
    var sum := |t.anchors| + (if t.mutation then 8 else 0) + (if t.critical then 4 else 0) + (if t.contradiction then 12 else 0);
    if sum > 40 then 40 else sum
  }

  function TopScore(t: Telemetry): int {
    if Fortieths(t) < 12 then 95 else 100 - 12 * Fortieths(t) / 40
  }

  // ----- Both are the same -----

  lemma FloorOfShare(c: nat, a: nat, b: nat)
    requires b > 0
    ensures (c as real * Percent(a, b)).Floor == c * a / b
  {
    var x := c as real * Percent(a, b);
    var q := c * a / b;
    assert x * b as real == (c * a) as real;
    assert c * a == q * b + c * a % b;
    assert (q * b) as real <= x * b as real < (q * b + b) as real;
    BetweenWholes(x, q, b);
  }

  lemma BetweenWholes(x: real, q: int, b: nat)
    requires b > 0 && (q * b) as real <= x * b as real < (q * b + b) as real
    ensures x.Floor == q
  {
    assert (q * b) as real == q as real * b as real;
    assert (q * b + b) as real == (q + 1) as real * b as real;
    SmallerFactor(q as real, x, b as real);
    if x >= (q + 1) as real { SmallerFactor((q + 1) as real, x, b as real); Times((q + 1) as real, x, b as real); }
  }

  lemma SmallerFactor(a: real, b: real, y: real)
    requires y > 0.0 && a * y <= b * y
    ensures a <= b
  {
    if b < a { Times(b, a, y); }
  }

  lemma Times(a: real, b: real, y: real)
    requires y > 0.0
    ensures a < b ==> a * y < b * y
    ensures a <= b ==> a * y <= b * y
  {
    assert (b - a) * y == b * y - a * y;
    if a < b { assert (b - a) * y > 0.0; }
  }

  lemma VotesAlike(answers: seq<Response>, s: Solution)
    requires answers != []
    ensures var n := |answers|;
            var votes := if s.component.Unknown? then MostCommon(answers, VOCABULARY) else CountOf(answers, s.component);
            AgreementPoints(answers, s) == VotePoints(votes, n, !s.component.Unknown?, s.quality.Low?)
  {
    var n := |answers|;
    if s.component.Unknown? {
      SharePoints(15, MostCommon(answers, VOCABULARY), n, s.quality.Low?);
    } else {
      SharePoints(30, CountOf(answers, s.component), n, s.quality.Low?);
    }
  }

  /** A share of the points, at most half of them if capped. */
  lemma SharePoints(whole: nat, votes: nat, n: nat, low: bool)
    requires 0 < n && votes <= n && whole in {15, 30}
    ensures var ratio := if low then MinReal(Percent(votes, n), 0.5) else Percent(votes, n);
            && (whole as real * ratio).Floor == (if low && 2 * votes > n then whole / 2 else whole * votes / n)
            && (ratio == 0.0 <==> votes == 0)
  {
    FloorOfShare(whole, votes, n);
    HalfShare(votes, n);
    PercentBounds(votes, n);
    HalfExactly(votes, n);
  }

  lemma HalfExactly(votes: nat, n: nat)
    requires 0 < n && votes <= n
    ensures 2 * votes <= n ==> Percent(votes, n) <= 0.5
    ensures 2 * votes > n ==> Percent(votes, n) >= 0.5
    ensures Percent(votes, n) == 0.0 <==> votes == 0
  {
    HalfShare(votes, n);
    if Percent(votes, n) > 0.5 {
      Times(0.5, Percent(votes, n), n as real);
      PercentBounds(votes, n);
    }
  }

  lemma AnchorsAlike(answers: seq<Response>, t: Telemetry)
    requires answers != []
    ensures GroundingPoints(answers, t) == AnchorPoints(TotalGrounding(answers), |answers|, |t.anchors|)
  {
    var mean := TotalGrounding(answers) / |answers| as real;
    TotalGroundingBounds(answers);
    DividedBounds(TotalGrounding(answers), |answers|);
    FloorOfMin(60.0 * mean, 30);
    FloorOfMin(60.0 * mean, 12);
  }

  lemma FloorOfMin(x: real, cap: int)
    ensures MinReal(x, cap as real).Floor == Min(x.Floor, cap)
  {
  }

  lemma CommandsAlike(s: Solution, t: Telemetry)
    ensures ActionPoints(s, t) == CommandPoints(s, t)
  {
    var cmds := s.commands.GetOr([]);
    assert AnyLong(cmds) <==> exists i | 0 <= i < |cmds| :: cmds[i].Text? && cmds[i].long;
    assert AnyLongExecutable(cmds) <==> exists i | 0 <= i < |cmds| :: cmds[i].Text? && cmds[i].long && cmds[i].executable;
  }

  lemma {:induction false} ReasoningAlike(rs: seq<Response>)
    ensures (forall a :: a in Answers(rs) ==> a.words <= 15) <==> forall i :: i in AnswerPlaces(rs) ==> rs[i].words <= 15
  {
    if rs != [] {
      var n := |rs| - 1;
      ReasoningAlike(rs[..n]);
      assert AnswerPlaces(rs) == AnswerPlaces(rs[..n]) + (if rs[n].Answer? then {n} else {});
      assert rs[n].Answer? ==> forall a :: a in Answers(rs) <==> a in Answers(rs[..n]) || a == rs[n];
    }
  }

  /** The sum of the parts, in both definitions. */
  lemma PointsAlike(rs: seq<Response>, s: Solution, t: Telemetry)
    ensures BasePoints(rs, s, t) == Points(rs, s, t)
  {
    var answers := Answers(rs);
    AnswersAreCounted(rs);
    VotesAreCounted(rs, s.component);
    FailuresAreCounted(rs);
    CommandsAlike(s, t);
    ReasoningAlike(rs);
    assert answers == [] <==> AnswerPlaces(rs) == {};
    if answers != [] {
      VotesAlike(answers, s);
      AnchorsAlike(answers, t);
    }
  }

  lemma CeilingsAlike(t: Telemetry)
    ensures Ceiling(t) == TopScore(t)
  {
    var f := Fortieths(t);
    assert Difficulty(t) == f as real / 40.0;
    FloorOfShare(12, f, 40);
  }

  // ----- Main theorems -----

  /** What is taken off: 3 for medium and 8 for low quality, 5 without an executable command. */
  function TakenOff(s: Solution): int {
    (match s.quality case OtherQuality => 0 case Medium => 3 case Low => 8)
    + (if AnyExecutable(s.commands.GetOr([])) then 0 else 5)
  }

  /** `score` is the least of its bounds, and at least 0.  The bounds do not depend on the order in
      which the code applies them. */
  ghost predicate IsLeastBound(score: int, points: int, off: int, top: int, flawed: bool, ungrounded: bool, risky: bool, vetoed: bool) {
    var bounds := {points - off, top} + (if flawed then {92 - off} else {}) + (if ungrounded then {65 - off} else {})
                  + (if risky then {65} else {}) + (if vetoed then {64} else {});
    && (forall b :: b in bounds ==> score <= b || score == 0)
    && (score in bounds || (score == 0 && exists b :: b in bounds && b < 0))
    && score >= 0
  }

  lemma FinalIsLeastBound(base: int, d: nat, top: int, flawed: bool, gated: bool, high: bool, vetoed: bool)
    requires 0 <= top <= 100
    ensures IsLeastBound(Final(base, d, top, flawed, gated, high, vetoed), base, d, top, flawed, gated, high, vetoed)
  {
    var score := Final(base, d, top, flawed, gated, high, vetoed);
    var bounds := {base - d, top} + (if flawed then {92 - d} else {}) + (if gated then {65 - d} else {})
                  + (if high then {65} else {}) + (if vetoed then {64} else {});
    var least := Min(Min(base, if flawed then 92 else base), if gated then 65 else base) - d;
    var all := Min(Min(least, if high then 65 else least), Min(top, if vetoed then 64 else top));
    assert score == if all < 0 then 0 else all;
    assert all in bounds;
  }

  lemma DeductionsAlike(s: Solution)
    requires HasExecutable(s.commands.GetOr([])).Some?
    ensures Deductions(s, HasExecutable(s.commands.GetOr([])).value) == TakenOff(s) >= 0
  {
    HasExecutableFinds(s.commands.GetOr([]));
  }

  lemma ScoreIsFinal(rs: seq<Response>, s: Solution, t: Telemetry)
    requires Score(rs, Some(s), t).Scored?
    ensures HasExecutable(s.commands.GetOr([])).Some?
    ensures Score(rs, Some(s), t).score
         == Final(BasePoints(rs, s, t), Deductions(s, HasExecutable(s.commands.GetOr([])).value), Ceiling(t),
                  Flawed(rs, s, t), Gated(rs, s, t), RiskOf(s).HighRisk?, s.vetoed)
  {
  }

  lemma GatesInWords(rs: seq<Response>, s: Solution, t: Telemetry)
    requires Score(rs, Some(s), t).Scored?
    ensures var meta := Score(rs, Some(s), t).meta;
            && (Flawed(rs, s, t) <==> FailurePlaces(rs) != {} || meta.agreement == 0.0 || meta.grounding == 0.0)
            && (Gated(rs, s, t) <==> !s.vetoed && (meta.grounding < 0.25 || |t.anchors| <= 2))
  {
    FailuresAreCounted(rs);
    assert ParseFailures(rs) > 0 <==> FailurePlaces(rs) != {};
  }

  /** The score is the least of the points less what is taken off, the top score, and the caps. */
  lemma ScoreIsLeastBound(rs: seq<Response>, s: Solution, t: Telemetry)
    requires Score(rs, Some(s), t).Scored?
    ensures var r := Score(rs, Some(s), t);
            IsLeastBound(r.score, Points(rs, s, t), TakenOff(s), TopScore(t),
                         FailurePlaces(rs) != {} || r.meta.agreement == 0.0 || r.meta.grounding == 0.0,
                         !s.vetoed && (r.meta.grounding < 0.25 || |t.anchors| <= 2),
                         s.commands.Some? && s.risk.HighRisk?, s.vetoed)
  {
    PointsAlike(rs, s, t);
    CeilingsAlike(t);
    CeilingBounds(t);
    ScoreIsFinal(rs, s, t);
    DeductionsAlike(s);
    GatesInWords(rs, s, t);
    FinalIsLeastBound(Points(rs, s, t), TakenOff(s), TopScore(t), Flawed(rs, s, t), Gated(rs, s, t), RiskOf(s).HighRisk?, s.vetoed);
  }

  /** Nothing but the points less what is taken off decides the score. */
  predicate Uncapped(rs: seq<Response>, s: Solution, t: Telemetry) {
    && Score(rs, Some(s), t).Scored?
    && !s.vetoed && !(s.commands.Some? && s.risk.HighRisk?)
    && FailurePlaces(rs) == {} && |t.anchors| > 2
    && Score(rs, Some(s), t).meta.agreement != 0.0 && Score(rs, Some(s), t).meta.grounding >= 0.25
  }

  lemma UncappedScore(rs: seq<Response>, s: Solution, t: Telemetry)
    requires Uncapped(rs, s, t)
    ensures Score(rs, Some(s), t).score == Max(0, Min(Points(rs, s, t) - TakenOff(s), TopScore(t)))
  {
    ScoreIsLeastBound(rs, s, t);
    CeilingsAlike(t);
    CeilingBounds(t);
    LeastOfTwo(Score(rs, Some(s), t).score, Points(rs, s, t), TakenOff(s), TopScore(t));
  }

  lemma LeastOfTwo(score: int, points: int, off: int, top: int)
    requires IsLeastBound(score, points, off, top, false, false, false, false) && top >= 0
    ensures score == Max(0, Min(points - off, top))
  {
    assert points - off in {points - off, top} && top in {points - off, top};
  }

  /** A change of quality that leaves the agreement alone changes neither the metadata nor the points. */
  lemma QualityAlone(rs: seq<Response>, s: Solution, q: Quality, t: Telemetry)
    requires Uncapped(rs, s, t) && Agreement(Answers(rs), s.(quality := q)) == Agreement(Answers(rs), s)
    ensures Uncapped(rs, s.(quality := q), t)
  {
  }

  lemma QualityPoints(rs: seq<Response>, s: Solution, q: Quality, t: Telemetry)
    requires Agreement(Answers(rs), s.(quality := q)) == Agreement(Answers(rs), s)
    ensures Points(rs, s.(quality := q), t) == Points(rs, s, t)
  {
    var p := s.(quality := q);
    PointsAlike(rs, s, t);
    PointsAlike(rs, p, t);
    assert AgreementPoints(Answers(rs), p) == AgreementPoints(Answers(rs), s);
  }

  lemma QualityCosts(rs: seq<Response>, s: Solution, q: Quality, cost: nat, t: Telemetry)
    requires s.quality.OtherQuality? && Uncapped(rs, s, t) && cost <= Score(rs, Some(s), t).score < TopScore(t)
    requires Agreement(Answers(rs), s.(quality := q)) == Agreement(Answers(rs), s)
    requires TakenOff(s.(quality := q)) == TakenOff(s) + cost
    ensures Score(rs, Some(s.(quality := q)), t).Scored?
    ensures Score(rs, Some(s.(quality := q)), t).score == Score(rs, Some(s), t).score - cost
  {
    QualityAlone(rs, s, q, t);
    QualityPoints(rs, s, q, t);
    UncappedScore(rs, s, t);
    UncappedScore(rs, s.(quality := q), t);
  }

  /** Medium quality costs exactly 3 points. */
  lemma MediumCostsThree(rs: seq<Response>, s: Solution, t: Telemetry)
    requires s.quality.OtherQuality? && Uncapped(rs, s, t) && 3 <= Score(rs, Some(s), t).score < TopScore(t)
    ensures Score(rs, Some(s.(quality := Medium)), t).Scored?
    ensures Score(rs, Some(s.(quality := Medium)), t).score == Score(rs, Some(s), t).score - 3
  {
    MediumStays(rs, s);
    QualityCosts(rs, s, Medium, 3, t);
  }

  lemma MediumStays(rs: seq<Response>, s: Solution)
    requires s.quality.OtherQuality?
    ensures Agreement(Answers(rs), s.(quality := Medium)) == Agreement(Answers(rs), s)
  {
  }

  /** Low quality costs exactly 8 points where at most half of the answers agree anyway. */
  lemma LowCostsEight(rs: seq<Response>, s: Solution, t: Telemetry)
    requires s.quality.OtherQuality? && Uncapped(rs, s, t) && 8 <= Score(rs, Some(s), t).score < TopScore(t)
    requires s.component != Unknown && 2 * |VotePlaces(rs, s.component)| <= |AnswerPlaces(rs)|
    ensures Score(rs, Some(s.(quality := Low)), t).Scored?
    ensures Score(rs, Some(s.(quality := Low)), t).score == Score(rs, Some(s), t).score - 8
  {
    HalfStays(rs, s);
    QualityCosts(rs, s, Low, 8, t);
  }

  lemma HalfStays(rs: seq<Response>, s: Solution)
    requires s.quality.OtherQuality? && s.component != Unknown
    requires 2 * |VotePlaces(rs, s.component)| <= |AnswerPlaces(rs)|
    ensures Agreement(Answers(rs), s.(quality := Low)) == Agreement(Answers(rs), s)
  {
    AnswersAreCounted(rs);
    VotesAreCounted(rs, s.component);
    var n := |Answers(rs)|;
    if n > 0 { HalfExactly(CountOf(Answers(rs), s.component), n); }
  }

  /** Losing the last executable command costs exactly 5 points, besides what its length was worth. */
  lemma NoExecutableCostsFive(rs: seq<Response>, s: Solution, cmds: seq<Command>, t: Telemetry)
    requires Uncapped(rs, s, t) && s.commands.Some? && AnyExecutable(s.commands.value) && !AnyExecutable(cmds)
    requires HasExecutable(cmds).Some? && CommandPoints(s.(commands := Some(cmds)), t) == CommandPoints(s, t)
    requires 5 <= Score(rs, Some(s), t).score < TopScore(t)
    ensures Score(rs, Some(s.(commands := Some(cmds))), t).Scored?
    ensures Score(rs, Some(s.(commands := Some(cmds))), t).score == Score(rs, Some(s), t).score - 5
  {
    var p := s.(commands := Some(cmds));
    assert Agreement(Answers(rs), p) == Agreement(Answers(rs), s);
    UncappedScore(rs, s, t);
    UncappedScore(rs, p, t);
    assert Points(rs, p, t) == Points(rs, s, t);
  }

  /** Tier 1 needs 85 points and medium quality 88; with low quality it is out of reach. */
  lemma TierOneInPoints(rs: seq<Response>, s: Solution, t: Telemetry)
    requires Score(rs, Some(s), t).Scored? && Score(rs, Some(s), t).score >= 85
    ensures Points(rs, s, t) >= (if s.quality.Medium? then 88 else 85) && !s.quality.Low?
  {
    ScoreIsLeastBound(rs, s, t);
    TierOneForces(rs, s, t);
  }

  /** The mode of execution: on its own unless the risk is high, and rejected if the solution is also
      vetoed and not grounded. */
  lemma ModeInWords(rs: seq<Response>, s: Solution, t: Telemetry)
    requires Score(rs, Some(s), t).Scored?
    ensures var m := Score(rs, Some(s), t).meta;
            && (m.mode.Autonomous? <==> !(s.commands.Some? && s.risk.HighRisk?))
            && (m.mode.Reject? <==> s.commands.Some? && s.risk.HighRisk? && s.vetoed && m.grounding < 0.25)
            && !m.mode.Review?
            && m.vetoed == s.vetoed && m.parseFailures == |FailurePlaces(rs)|
            && (m.evidenceGate <==> !s.vetoed && (m.grounding < 0.25 || |t.anchors| <= 2))
  {
    FailuresAreCounted(rs);
  }

  /** `round(x, 3)` is a thousandth at most half a thousandth away, and the even one in a tie. */
  lemma RoundIsNearest(x: real)
    ensures var y := Round3(x) * 1000.0;
            && y == y.Floor as real
            && x * 1000.0 - 0.5 <= y <= x * 1000.0 + 0.5
            && (y - x * 1000.0 in {0.5, -0.5} ==> y.Floor % 2 == 0)
  {
  }

  // ----- The shares behind the metadata -----

  lemma EveryComponentIsInTheVocabulary(c: Component)
    ensures c in VOCABULARY
  {
    var v := VOCABULARY;
    assert v[0] == Network && v[1] == Disk && v[2] == Memory && v[3] == Cpu && v[4] == Dns;
    assert v[5] == Config && v[6] == Code && v[7] == Database && v[8] == Dependency && v[9] == Unknown;
  }

  lemma {:induction false} SomeIsMostCommon(answers: seq<Response>, vocabulary: seq<Component>) returns (c: Component)
    requires vocabulary != []
    ensures CountOf(answers, c) == MostCommon(answers, vocabulary)
  {
    c := vocabulary[0];
    if |vocabulary| > 1 && CountOf(answers, c) <= MostCommon(answers, vocabulary[1..]) {
      c := SomeIsMostCommon(answers, vocabulary[1..]);
    } else if |vocabulary| == 1 {
      assert vocabulary[1..] == [];
    }
  }

  /** The votes for the most common component are the most that any component has. */
  lemma MostCommonIsTheMaximum(rs: seq<Response>)
    ensures var m := MostCommon(Answers(rs), VOCABULARY);
            (forall c :: |VotePlaces(rs, c)| <= m) && exists c :: |VotePlaces(rs, c)| == m
  {
    var m := MostCommon(Answers(rs), VOCABULARY);
    forall c
      ensures |VotePlaces(rs, c)| <= m
    {
      VotesAreCounted(rs, c);
      EveryComponentIsInTheVocabulary(c);
    }
    var c := SomeIsMostCommon(Answers(rs), VOCABULARY);
    VotesAreCounted(rs, c);
  }

  /** The grounding of all answers adds up: what is no dictionary adds nothing. */
  lemma {:induction false} GroundingAddsUp(a: seq<Response>, b: seq<Response>)
    ensures TotalGrounding(Answers(a + b)) == TotalGrounding(Answers(a)) + TotalGrounding(Answers(b))
    ensures |b| == 1 ==> TotalGrounding(Answers(b)) == if b[0].Answer? then b[0].grounding else 0.0
  {
    if b == [] {
      assert a + b == a;
    } else {
      var n := |b| - 1;
      assert (a + b)[..|a| + n] == a + b[..n];
      GroundingAddsUp(a, b[..n]);
      LastGrounding(a + b);
      LastGrounding(b);
    }
  }

  lemma LastGrounding(rs: seq<Response>)
    requires rs != []
    ensures var n := |rs| - 1;
            TotalGrounding(Answers(rs)) == TotalGrounding(Answers(rs[..n])) + (if rs[n].Answer? then rs[n].grounding else 0.0)
  {
    var n := |rs| - 1;
    var front := Answers(rs[..n]);
    if rs[n].Answer? {
      assert Answers(rs)[..|front|] == front;
    } else {
      assert Answers(rs) == front;
    }
  }

  /** The metadata, to the thousandth: agreement is the share of the votes, at most half on low quality;
      grounding is the mean, at most a fifth on telemetry with at most two anchors. */
  lemma MetadataInShares(rs: seq<Response>, s: Solution, t: Telemetry)
    requires Score(rs, Some(s), t).Scored?
    ensures var meta, n := Score(rs, Some(s), t).meta, |AnswerPlaces(rs)|;
            if n == 0 then meta.agreement == 0.0 && meta.grounding == 0.0
            else
              var votes := if s.component.Unknown? then MostCommon(Answers(rs), VOCABULARY) else |VotePlaces(rs, s.component)|;
              var share, mean := votes as real / n as real, TotalGrounding(Answers(rs)) / n as real;
              && meta.agreement == Round3(if s.quality.Low? && share > 0.5 then 0.5 else share)
              && meta.grounding == Round3(if |t.anchors| <= 2 && mean > 0.2 then 0.2 else mean)
  {
    AnswersAreCounted(rs);
    VotesAreCounted(rs, s.component);
    assert Round3(0.0) == 0.0;
  }
}
