/**
 What a chaos scenario leaves behind, wherever its injections fail and whenever it is shut down.
 */
module ScenarioRecovery {
  import opened Wrappers
  import opened Steps
  import opened ScenarioRunner

  /** What every injection step keeps holds after any number of them. */
  lemma InjectKeeps(p: State -> bool, s: State, w: World, faults: seq<Fault>, m: nat, n: nat)
    requires m <= n <= |faults| && p(Inject(s, w, faults, m))
    requires forall x, i: nat | m <= i < n && p(x) :: p(InjectOne(x, w, i, faults[i]))
    ensures p(Inject(s, w, faults, n))
  {
    RepeatKeeps(p, InjectStep(w, faults), s, m, n);
  }

  // ----- The injected targets -----

  predicate DistinctTargets(injected: seq<Injection>) {
    forall i, j | 0 <= i < j < |injected| :: injected[i].target != injected[j].target
  }

  predicate Placed(s: State) {
    var injected := s.injected;
    && DistinctTargets(injected)
    && (forall i | 0 <= i < |injected| ::
          injected[i].target in s.used && injected[i].target in Candidates(injected[i].fault))
  }

  lemma InjectOnPlaces(s: State, w: World, i: nat, f: Fault, t: Target)
    requires Placed(s) && t !in s.used && t in Candidates(f)
    ensures Placed(InjectOn(s, w, i, f, t))
  {
  }

  /** An injection step does nothing, or goes to a target that is new and suits the fault. */
  lemma StepCases(s: State, w: World, i: nat, f: Fault, s': State) returns (target: Option<Target>)
    requires s' == InjectOne(s, w, i, f)
    ensures target == Choose(Candidates(f), s.used, w.pick(i))
    ensures target.None? ==> s' == s
    ensures target.Some? ==>
              target.value !in s.used && target.value in Candidates(f) && s' == InjectOn(s, w, i, f, target.value)
  {
    target := Choose(Candidates(f), s.used, w.pick(i));
  }

  lemma InjectOnePlaces(s: State, w: World, i: nat, f: Fault, s': State)
    requires Placed(s) && s' == InjectOne(s, w, i, f)
    ensures Placed(s')
  {
    var target := StepCases(s, w, i, f, s');
    if target.Some? { InjectOnPlaces(s, w, i, f, target.value); }
  }

  lemma InjectPlaces(s: State, w: World, faults: seq<Fault>, n: nat)
    requires n <= |faults| && s.injected == []
    ensures Placed(Inject(s, w, faults, n))
  {
    forall x, i: nat | i < n && Placed(x)
      ensures Placed(InjectOne(x, w, i, faults[i]))
    {
      InjectOnePlaces(x, w, i, faults[i], InjectOne(x, w, i, faults[i]));
    }
    InjectKeeps(Placed, s, w, faults, 0, n);
  }

  /** The injected faults sit on pairwise distinct targets, each one that its fault allows. */
  lemma TargetsAreDistinct(w: World, faults: seq<Fault>, limits: map<Target, Limits>)
    ensures var injected := Finished(w, faults, limits).injected;
            && DistinctTargets(injected)
            && forall i | 0 <= i < |injected| :: injected[i].target in Candidates(injected[i].fault)
  {
    InjectPlaces(Start(limits), w, faults, Considered(w, |faults|));
  }

  // ----- The trace -----

  function RecoverOps(injected: seq<Injection>): (ops: seq<Op>)
    ensures |ops| == |injected|
    ensures forall i | 0 <= i < |ops| :: ops[i] == Recover(injected[i].fault, injected[i].target)
  {
    seq(|injected|, i requires 0 <= i < |injected| => Recover(injected[i].fault, injected[i].target))
  }

  lemma {:induction false} RecoverTrace(s: State, w: World, n: nat)
    requires n <= |s.injected|
    ensures RecoverFirst(s, w, n).trace == s.trace + RecoverOps(s.injected[..n])
  {
    if n > 0 {
      RecoverTrace(s, w, n - 1);
      assert RecoverOps(s.injected[..n])
          == RecoverOps(s.injected[..n - 1]) + [Recover(s.injected[n - 1].fault, s.injected[n - 1].target)];
    } else {
      assert RecoverOps(s.injected[..0]) == [];
    }
  }

  predicate NoRecovery(trace: seq<Op>) {
    forall i | 0 <= i < |trace| :: !trace[i].Recover? && !trace[i].StartAgain?
  }

  lemma InjectOneRecoversNothing(s: State, w: World, i: nat, f: Fault, s': State)
    requires NoRecovery(s.trace) && s' == InjectOne(s, w, i, f)
    ensures NoRecovery(s'.trace)
  {
    var target := StepCases(s, w, i, f, s');
  }

  lemma InjectRecoversNothing(s: State, w: World, faults: seq<Fault>, n: nat)
    requires n <= |faults| && NoRecovery(s.trace)
    ensures NoRecovery(Inject(s, w, faults, n).trace)
  {
    var p := (x: State) => NoRecovery(x.trace);
    forall x, i: nat | i < n && p(x)
      ensures p(InjectOne(x, w, i, faults[i]))
    {
      InjectOneRecoversNothing(x, w, i, faults[i], InjectOne(x, w, i, faults[i]));
    }
    InjectKeeps(p, s, w, faults, 0, n);
  }

  /** The recovery phase attempts every injected fault exactly once, in the order of injection, after
      all injections; then the killed containers are started. */
  lemma EveryInjectionIsRecovered(w: World, faults: seq<Fault>, limits: map<Target, Limits>)
    ensures var s := Injected(w, faults, limits); var f := Finished(w, faults, limits);
            && NoRecovery(s.trace) && f.injected == s.injected
            && f.trace == s.trace + RecoverOps(s.injected) + Restarts(s.injected)
  {
    var s := Injected(w, faults, limits);
    InjectRecoversNothing(Start(limits), w, faults, Considered(w, |faults|));
    RecoverTrace(s, w, |s.injected|);
    assert s.injected[..|s.injected|] == s.injected;
  }

  // ----- Reading the limits -----

  predicate Untouched(trace: seq<Op>, n: nat, t: Target)
    requires n <= |trace|
  {
    forall k | 0 <= k < n :: !(trace[k].Apply? && trace[k].target == t)
  }

  /** Targets outside `used` are as they were, and every read came before its target was touched. */
  predicate ReadInTime(s: State, limits: map<Target, Limits>) {
    var trace := s.trace;
    && (forall t :: t !in s.used ==>
          LimitsOf(s.limits, t) == LimitsOf(limits, t) && t !in s.configs && Untouched(trace, |trace|, t))
    && (forall j | 0 <= j < |trace| :: trace[j].ReadLimits? ==> Untouched(trace, j, trace[j].target))
  }

  lemma InjectOnReadsInTime(s: State, w: World, i: nat, f: Fault, t: Target, limits: map<Target, Limits>)
    requires ReadInTime(s, limits) && t !in s.used
    ensures ReadInTime(InjectOn(s, w, i, f, t), limits)
  {
    var s' := InjectOn(s, w, i, f, t);
    assert s.trace <= s'.trace;
    forall j | 0 <= j < |s'.trace| && s'.trace[j].ReadLimits?
      ensures Untouched(s'.trace, j, s'.trace[j].target)
    {
      if j < |s.trace| {
        assert s'.trace[j] == s.trace[j] && Untouched(s.trace, j, s.trace[j].target);
      }
    }
  }

  lemma InjectOneReadsInTime(s: State, w: World, i: nat, f: Fault, limits: map<Target, Limits>, s': State)
    requires ReadInTime(s, limits) && s' == InjectOne(s, w, i, f)
    ensures ReadInTime(s', limits)
  {
    var target := StepCases(s, w, i, f, s');
    if target.Some? { InjectOnReadsInTime(s, w, i, f, target.value, limits); }
  }

  lemma InjectReadsInTime(w: World, faults: seq<Fault>, n: nat, limits: map<Target, Limits>)
    requires n <= |faults|
    ensures ReadInTime(Inject(Start(limits), w, faults, n), limits)
  {
    var p := (x: State) => ReadInTime(x, limits);
    forall x, i: nat | i < n && p(x)
      ensures p(InjectOne(x, w, i, faults[i]))
    {
      InjectOneReadsInTime(x, w, i, faults[i], limits, InjectOne(x, w, i, faults[i]));
    }
    InjectKeeps(p, Start(limits), w, faults, 0, n);
  }

  // ----- What becomes of one target -----

  /** The i-th fault goes to t. */
  predicate Hits(w: World, faults: seq<Fault>, limits: map<Target, Limits>, i: nat, t: Target) {
    i < Considered(w, |faults|) && Choose(Candidates(faults[i]), Inject(Start(limits), w, faults, i).used, w.pick(i)) == Some(t)
  }

  /** The place of the i-th fault in the list of injected ones, if it succeeds. */
  function Position(w: World, faults: seq<Fault>, limits: map<Target, Limits>, i: nat): nat
    requires i <= |faults|
  {
    |Inject(Start(limits), w, faults, i).injected|
  }

  /** The i-th fault hit t: what t's limits are, what was read of them, and where it is listed. */
  predicate HitState(s: State, w: World, f: Fault, i: nat, t: Target, l: Limits, place: nat) {
    var outcome := w.apply(i);
    && t in s.used
    && LimitsOf(s.limits, t) == (if outcome.RaisesBefore? then l else Faulted(f, l))
    && (ReadsLimits(f) ==> ConfigOf(s.configs, t) == Some(if w.readable(t) then l else NO_LIMITS))
    && (outcome.Succeeds? ==> place < |s.injected| && s.injected[place] == Injection(f, t))
    && (!outcome.Succeeds? ==> forall k | 0 <= k < |s.injected| :: s.injected[k].target != t)
  }

  lemma HitStateStarts(s: State, w: World, f: Fault, i: nat, t: Target, limits: map<Target, Limits>)
    requires ReadInTime(s, limits) && Placed(s) && t !in s.used
    ensures HitState(InjectOn(s, w, i, f, t), w, f, i, t, LimitsOf(limits, t), |s.injected|)
  {
  }

  lemma HitStateStays(s: State, w: World, f: Fault, i: nat, t: Target, l: Limits, place: nat, j: nat, g: Fault, u: Target)
    requires HitState(s, w, f, i, t, l, place) && u !in s.used
    ensures HitState(InjectOn(s, w, j, g, u), w, f, i, t, l, place)
  {
    OtherTargetStays(s, w, j, g, u, t);
    var s' := InjectOn(s, w, j, g, u);
    assert s.injected <= s'.injected;
    assert forall k | |s.injected| <= k < |s'.injected| :: s'.injected[k].target == u;
  }

  lemma OtherTargetStays(s: State, w: World, j: nat, g: Fault, u: Target, t: Target)
    requires u != t
    ensures var s' := InjectOn(s, w, j, g, u);
            LimitsOf(s'.limits, t) == LimitsOf(s.limits, t) && ConfigOf(s'.configs, t) == ConfigOf(s.configs, t)
  {
  }

  lemma HitStateStaysOne(s: State, w: World, f: Fault, i: nat, t: Target, l: Limits, place: nat, j: nat, g: Fault, s': State)
    requires HitState(s, w, f, i, t, l, place) && s' == InjectOne(s, w, j, g)
    ensures HitState(s', w, f, i, t, l, place)
  {
    var target := StepCases(s, w, j, g, s');
    if target.Some? { HitStateStays(s, w, f, i, t, l, place, j, g, target.value); }
  }

  lemma HitStateBegins(w: World, faults: seq<Fault>, limits: map<Target, Limits>, i: nat, t: Target, s: State, s': State)
    requires Hits(w, faults, limits, i, t) && s == Inject(Start(limits), w, faults, i) && s' == InjectOne(s, w, i, faults[i])
    ensures HitState(s', w, faults[i], i, t, LimitsOf(limits, t), |s.injected|)
  {
    InjectReadsInTime(w, faults, i, limits);
    InjectPlaces(Start(limits), w, faults, i);
    var target := StepCases(s, w, i, faults[i], s');
    HitStateStarts(s, w, faults[i], i, t, limits);
  }

  lemma HitStateKept(
    s: State, w: World, faults: seq<Fault>, f: Fault, i: nat, t: Target, l: Limits, place: nat, m: nat, n: nat)
    requires m <= n <= |faults| && HitState(Inject(s, w, faults, m), w, f, i, t, l, place)
    ensures HitState(Inject(s, w, faults, n), w, f, i, t, l, place)
  {
    var p := (x: State) => HitState(x, w, f, i, t, l, place);
    forall x, j: nat | m <= j < n && p(x)
      ensures p(InjectOne(x, w, j, faults[j]))
    {
      HitStateStaysOne(x, w, f, i, t, l, place, j, faults[j], InjectOne(x, w, j, faults[j]));
    }
    InjectKeeps(p, s, w, faults, m, n);
  }

  lemma HitStateReached(w: World, faults: seq<Fault>, limits: map<Target, Limits>, i: nat, t: Target, n: nat)
    requires Hits(w, faults, limits, i, t) && i < n <= |faults|
    ensures HitState(Inject(Start(limits), w, faults, n), w, faults[i], i, t, LimitsOf(limits, t), Position(w, faults, limits, i))
  {
    var s := Inject(Start(limits), w, faults, i);
    HitStateBegins(w, faults, limits, i, t, s, Inject(Start(limits), w, faults, i + 1));
    HitStateKept(Start(limits), w, faults, faults[i], i, t, LimitsOf(limits, t), |s.injected|, i + 1, n);
  }

  lemma {:induction false} RecoverLeavesOthers(s: State, w: World, n: nat, t: Target)
    requires n <= |s.injected| && forall k | 0 <= k < n :: s.injected[k].target != t
    ensures LimitsOf(RecoverFirst(s, w, n).limits, t) == LimitsOf(s.limits, t)
  {
    if n > 0 { RecoverLeavesOthers(s, w, n - 1, t); }
  }

  lemma {:induction false} RecoverRepairs(s: State, w: World, n: nat, j: nat)
    requires j < n <= |s.injected| && DistinctTargets(s.injected)
    ensures var inj := s.injected[j];
            LimitsOf(RecoverFirst(s, w, n).limits, inj.target)
            == if w.recover(j).RaisesBefore? then LimitsOf(s.limits, inj.target)
               else Repaired(inj.fault, LimitsOf(s.limits, inj.target), ConfigOf(s.configs, inj.target))
  {
    if n - 1 == j {
      RecoverLeavesOthers(s, w, j, s.injected[j].target);
    } else {
      RecoverRepairs(s, w, n - 1, j);
      assert s.injected[j].target != s.injected[n - 1].target;
    }
  }

  /** The limits that a fault leaves on its target. */
  function LimitsAfter(w: World, f: Fault, i: nat, place: nat, l: Limits, readable: bool): Limits {
    if w.apply(i).RaisesBefore? then l
    else if w.apply(i).RaisesAfter? || w.recover(place).RaisesBefore? then Faulted(f, l)
    else match f
      case MemoryLimit => if readable then l else Limits(0, 0, l.quota)
      case CpuThrottle => l.(quota := -1)
      case _ => l
  }

  /** Exactly what a scenario leaves on a target, in terms of what raised. */
  lemma LimitsLeftBehind(w: World, faults: seq<Fault>, limits: map<Target, Limits>, i: nat, t: Target)
    requires Hits(w, faults, limits, i, t)
    ensures LimitsOf(Finished(w, faults, limits).limits, t)
            == LimitsAfter(w, faults[i], i, Position(w, faults, limits, i), LimitsOf(limits, t), w.readable(t))
  {
    var s := Injected(w, faults, limits);
    HitStateReached(w, faults, limits, i, t, Considered(w, |faults|));
    InjectPlaces(Start(limits), w, faults, Considered(w, |faults|));
    RecoveredLimits(s, w, faults[i], i, t, LimitsOf(limits, t), Position(w, faults, limits, i));
  }

  lemma RecoveredLimits(s: State, w: World, f: Fault, i: nat, t: Target, l: Limits, place: nat)
    requires HitState(s, w, f, i, t, l, place) && DistinctTargets(s.injected)
    ensures LimitsOf(RecoverFirst(s, w, |s.injected|).limits, t) == LimitsAfter(w, f, i, place, l, w.readable(t))
  {
    if w.apply(i).Succeeds? {
      RecoverRepairs(s, w, |s.injected|, place);
    } else {
      RecoverLeavesOthers(s, w, |s.injected|, t);
    }
  }

  /** A target that no fault was aimed at keeps its limits. */
  lemma OthersKeepTheirLimits(w: World, faults: seq<Fault>, limits: map<Target, Limits>, t: Target)
    requires t !in Finished(w, faults, limits).used
    ensures LimitsOf(Finished(w, faults, limits).limits, t) == LimitsOf(limits, t)
  {
    var s := Injected(w, faults, limits);
    var n := Considered(w, |faults|);
    InjectReadsInTime(w, faults, n, limits);
    InjectPlaces(Start(limits), w, faults, n);
    RecoverLeavesOthers(s, w, |s.injected|, t);
  }

  /** A memory limit that was put in place is undone exactly if its application did not raise, its
      recovery takes effect, and the original limits were readable or absent. */
  lemma MemoryIsRestoredIff(w: World, faults: seq<Fault>, limits: map<Target, Limits>, i: nat, t: Target)
    requires Hits(w, faults, limits, i, t) && faults[i] == MemoryLimit && w.apply(i) != RaisesBefore
    requires LimitsOf(limits, t).memory != LIMITED_MEMORY
    ensures LimitsOf(Finished(w, faults, limits).limits, t) == LimitsOf(limits, t)
            <==> && w.apply(i).Succeeds?
                 && !w.recover(Position(w, faults, limits, i)).RaisesBefore?
                 && (w.readable(t) || (LimitsOf(limits, t).memory == 0 && LimitsOf(limits, t).swap == 0))
  {
    LimitsLeftBehind(w, faults, limits, i, t);
  }

  /** A recovered CPU throttle ends without a quota, whatever the quota was: the value read is unused. */
  lemma QuotaIsNotRestored(w: World, faults: seq<Fault>, limits: map<Target, Limits>, i: nat, t: Target)
    requires Hits(w, faults, limits, i, t) && faults[i] == CpuThrottle && w.apply(i).Succeeds?
    requires !w.recover(Position(w, faults, limits, i)).RaisesBefore?
    ensures LimitsOf(Finished(w, faults, limits).limits, t) == LimitsOf(limits, t).(quota := -1)
  {
    LimitsLeftBehind(w, faults, limits, i, t);
  }

  /** A fault that takes effect although its application raises stays in place, never recovered. */
  lemma RaisingFaultLeaks(w: World, faults: seq<Fault>, limits: map<Target, Limits>, i: nat, t: Target)
    requires Hits(w, faults, limits, i, t) && w.apply(i) == RaisesAfter
    ensures LimitsOf(Finished(w, faults, limits).limits, t) == Faulted(faults[i], LimitsOf(limits, t))
    ensures forall op :: op in Finished(w, faults, limits).trace && op.Recover? ==> op.target != t
  {
    LimitsLeftBehind(w, faults, limits, i, t);
    HitStateReached(w, faults, limits, i, t, Considered(w, |faults|));
    EveryInjectionIsRecovered(w, faults, limits);
    var s := Injected(w, faults, limits);
    RestartsOnly(s.injected);
    forall op | op in Finished(w, faults, limits).trace && op.Recover?
      ensures op.target != t
    {
      assert op in RecoverOps(s.injected);
    }
  }

  lemma {:induction false} RestartsOnly(injected: seq<Injection>)
    ensures forall op :: op in Restarts(injected) ==> op.StartAgain?
  {
    if injected != [] { RestartsOnly(injected[..|injected| - 1]); }
  }

  /** The limits of a target are read before any fault touches it. */
  lemma LimitsAreReadFirst(w: World, faults: seq<Fault>, limits: map<Target, Limits>)
    ensures var trace := Injected(w, faults, limits).trace;
            forall j | 0 <= j < |trace| :: trace[j].ReadLimits? ==> Untouched(trace, j, trace[j].target)
  {
    InjectReadsInTime(w, faults, Considered(w, |faults|), limits);
  }

  /** What is recorded is what the limits were before the scenario. */
  lemma RecordedLimitsAreOriginal(w: World, faults: seq<Fault>, limits: map<Target, Limits>, i: nat, t: Target)
    requires Hits(w, faults, limits, i, t) && faults[i] in {MemoryLimit, CpuThrottle}
    ensures ConfigOf(Injected(w, faults, limits).configs, t)
            == Some(if w.readable(t) then LimitsOf(limits, t) else NO_LIMITS)
  {
    HitStateReached(w, faults, limits, i, t, Considered(w, |faults|));
  }
}
