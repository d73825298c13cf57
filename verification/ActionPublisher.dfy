/** From a debate's result, through the published envelope, to the remediation harness. */
module ActionPublisher {
  import opened Wrappers
  import Scoring
  import Debate
  import opened Guardrail
  import opened RemediationAgent
  import opened Harness

  const VETO_CONFIDENCE_CAP: int := 64

  datatype ExecutionTier = HumanReview | Decided(tier: Debate.Tier)

  /** The solution's command field: a list, another value with its text, or nothing. */
  datatype CommandField = List(elements: seq<Element>) | Single(text: string) | Nothing

  /** The fields of `autosre.action.proposed` that later stages read. */
  datatype Message = Message(
    problem: string,
    commands: seq<Element>,
    confidence: int,
    tier: ExecutionTier,
    violation: bool)

  /** `build_action_proposed`, of the result of a debate that ended. */
  function BuildActionProposed(result: Debate.Result, problem: string, field: CommandField): Message
    requires result.Ended?
  {
    var vetoed := result.meta.vetoed;
    Message(
      problem,
      match field { case List(elements) => elements case Single(text) => [Command(text)] case Nothing => [] },
      if vetoed then Scoring.Min(result.score, VETO_CONFIDENCE_CAP) else result.score,
      if vetoed then HumanReview else Decided(result.tier),
      vetoed)
  }

  /** `format_for_sandbox`: the tier is not passed on. */
  function FormatForSandbox(m: Message): Incident {
    Incident(m.problem, m.violation, m.commands, m.confidence, m.confidence)
  }

  function Handover(w: Debate.World, problem: string, field: CommandField): Incident
    requires Debate.Settled(w).Ended?
  {
    FormatForSandbox(BuildActionProposed(Debate.Settled(w), problem, field))
  }

  /** The problem and the commands arrive as they were; so does the score, since the cap of the
      envelope only repeats what the debate has done. */
  lemma HandoverKeepsTheText(w: Debate.World, problem: string, field: CommandField)
    requires Debate.Settled(w).Ended?
    ensures var i := Handover(w, problem, field);
            && i.problem == problem && (i.violation <==> Debate.Settled(w).meta.vetoed)
            && (field.List? ==> i.commands == field.elements)
            && (field.Single? ==> i.commands == [Command(field.text)])
            && (field.Nothing? ==> i.commands == [])
            && i.confidence == i.calculatedConfidence == Debate.Settled(w).score
  {
    Debate.NeverEndsInTier3(w);
  }

  /** A vetoed debate, whatever it says: at most 64, human review, and no call in the harness. */
  lemma VetoReachesTheHarness(w: Debate.World, problem: string, field: CommandField, history: History)
    requires Debate.Settled(w).Ended? && Debate.Settled(w).meta.vetoed
    ensures var m := BuildActionProposed(Debate.Settled(w), problem, field);
            && m.confidence <= 64 && m.tier == HumanReview
            && Decide(Some(Handover(w, problem, field)), history) == BlockedSafetyViolation
            && CallsOf(Decide(Some(Handover(w, problem, field)), history)) == []
  {
    Debate.NeverEndsInTier3(w);
  }

  /** Human review is asked for exactly after a veto, and no message carries Tier 3. */
  lemma HumanReviewIff(w: Debate.World, problem: string, field: CommandField)
    requires Debate.Settled(w).Ended?
    ensures var m := BuildActionProposed(Debate.Settled(w), problem, field);
            && (m.tier == HumanReview <==> Debate.Settled(w).meta.vetoed)
            && m.tier != Decided(Debate.Tier3)
            && (m.tier == Decided(Debate.Tier1) <==> !m.violation && m.confidence >= 85)
            && 0 <= m.confidence <= 97
  {
    Debate.NeverEndsInTier3(w);
  }

  /** From end to end: a call on a container comes from an unvetoed debate, is bounded, and its own
      confidence ratio is at least 0.70. */
  lemma CallsComeFromUnvetoedDebates(w: Debate.World, problem: string, field: CommandField, history: History)
    requires Debate.Settled(w).Ended?
    ensures var d := Decide(Some(Handover(w, problem, field)), history);
            CallsOf(d) != [] ==>
              && !Debate.Settled(w).meta.vetoed
              && |CallsOf(d)| == 1 && BoundedCall(CallsOf(d)[0])
              && d.Executed? && d.confidence >= 0.70
  {
    EveryCallIsBounded(Some(Handover(w, problem, field)), history);
    if Debate.Settled(w).meta.vetoed {
      VetoReachesTheHarness(w, problem, field, history);
    }
  }

  /** The harness does not read the debate's confidence or tier: two unvetoed debates over the same
      problem and commands are remedied alike, even if one scored 0 and the other 97. */
  lemma OnlyTheVetoCounts(w: Debate.World, w': Debate.World, problem: string, field: CommandField, history: History)
    requires Debate.Settled(w).Ended? && Debate.Settled(w').Ended?
    ensures Debate.Settled(w).meta.vetoed == Debate.Settled(w').meta.vetoed ==>
              Decide(Some(Handover(w, problem, field)), history) == Decide(Some(Handover(w', problem, field)), history)
    ensures Debate.Settled(w).meta.vetoed && !Debate.Settled(w').meta.vetoed ==>
              CallsOf(Decide(Some(Handover(w, problem, field)), history)) == []
  {
    var i, i' := Handover(w, problem, field), Handover(w', problem, field);
    DebateConfidenceIsIgnored(i', i.confidence, i.calculatedConfidence, history);
  }
}
