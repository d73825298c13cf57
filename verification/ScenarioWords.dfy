/** One chaos scenario in words and numbers: where faults go, what they do, and what is asked in which order. */
module ScenarioWords {
  import opened Wrappers
  import opened Steps
  import opened ScenarioRunner
  import opened ScenarioRecovery

  /** A backlog is made in RabbitMQ, the six faults over HTTP in the four services, and the six of the
      container engine anywhere. */
  predicate Suits(f: Fault, t: Target) {
    match f
    case RabbitmqBacklog => t == Rabbitmq
    case HttpSlow | HttpThrow | HttpMemoryLeak | HttpDeadlock | HttpSqlLock | HttpExhaustPool =>
      t in {ApiGateway, AuthService, OrderService, PaymentService}
    case _ => true
  }

  lemma CandidatesSuit(f: Fault, t: Target)
    ensures t in Candidates(f) <==> Suits(f, t)
  {
    assert CONTAINERS[0] == ApiGateway && CONTAINERS[1] == AuthService && CONTAINERS[2] == OrderService;
    assert CONTAINERS[3] == PaymentService && CONTAINERS[4] == PostgresDb && CONTAINERS[5] == Redis;
    assert CONTAINERS[6] == Rabbitmq;
    assert HTTP_SERVICES[0] == ApiGateway && HTTP_SERVICES[1] == AuthService && HTTP_SERVICES[2] == OrderService;
    assert HTTP_SERVICES[3] == PaymentService;
    assert [Rabbitmq][0] == Rabbitmq;
  }

  /** A fault finds a target exactly when one that suits it has not been used, and then such a one. */
  lemma TargetIsFoundIff(f: Fault, used: set<Target>, pick: nat)
    ensures var target := Choose(Candidates(f), used, pick);
            && (target.Some? <==> exists t :: Suits(f, t) && t !in used)
            && (target.Some? ==> Suits(f, target.value) && target.value !in used)
  {
    forall t: Target
      ensures t in Candidates(f) <==> Suits(f, t)
    {
      CandidatesSuit(f, t);
    }
  }

  /** A memory limit is 384 MiB with as much swap, a throttle leaves a tenth of a period of 100 ms. */
  lemma FaultsInNumbers(f: Fault, l: Limits)
    ensures var after := Faulted(f, l);
            && after.memory == (if f.MemoryLimit? then 402653184 else l.memory)
            && after.swap == (if f.MemoryLimit? then 402653184 else l.swap)
            && after.quota == (if f.CpuThrottle? then 10000 else l.quota)
  {
  }

  // ----- What is asked, and in which order -----

  /** Limits are read right before a memory limit or a throttle is applied to the target, and at no
      other time; no target gets two faults. */
  predicate InOrder(trace: seq<Op>) {
    && (forall k | 0 <= k < |trace| :: ReadBefore(trace, k) && AppliedAfter(trace, k))
    && (forall j, k | 0 <= j < k < |trace| && trace[j].Apply? && trace[k].Apply? :: trace[j].target != trace[k].target)
  }

  predicate ReadBefore(trace: seq<Op>, k: nat)
    requires k < |trace|
  {
    trace[k].Apply? && trace[k].fault in {MemoryLimit, CpuThrottle} ==> k > 0 && trace[k - 1] == ReadLimits(trace[k].target)
  }

  predicate AppliedAfter(trace: seq<Op>, k: nat)
    requires k < |trace|
  {
    trace[k].ReadLimits? ==>
      k + 1 < |trace| && trace[k + 1].Apply? && trace[k + 1].fault in {MemoryLimit, CpuThrottle}
      && trace[k + 1].target == trace[k].target
  }

  /** Every fault that went to a target has been applied to it, and nothing else has been. */
  predicate Asked(s: State) {
    && InOrder(s.trace)
    && (forall k | 0 <= k < |s.trace| && s.trace[k].Apply? :: s.trace[k].target in s.used)
    && (forall t :: t in s.used ==> exists k :: 0 <= k < |s.trace| && s.trace[k].Apply? && s.trace[k].target == t)
  }

  lemma AskOnce(s: State, w: World, i: nat, f: Fault, t: Target, s': State)
    requires Asked(s) && t !in s.used && s' == InjectOn(s, w, i, f, t)
    ensures Asked(s') && s.trace <= s'.trace && s'.trace[|s'.trace| - 1] == Apply(f, t)
  {
    var n := |s'.trace| - 1;
    assert s.trace <= s'.trace && s'.trace[n] == Apply(f, t);
    OrderKept(s.trace, s'.trace, f, t);
    forall u | u in s'.used
      ensures exists k :: 0 <= k < |s'.trace| && s'.trace[k].Apply? && s'.trace[k].target == u
    {
      if u != t {
        var k :| 0 <= k < |s.trace| && s.trace[k].Apply? && s.trace[k].target == u;
        assert s'.trace[k] == s.trace[k];
      }
    }
  }

  lemma OrderKept(before: seq<Op>, after: seq<Op>, f: Fault, t: Target)
    requires InOrder(before) && forall k | 0 <= k < |before| && before[k].Apply? :: before[k].target != t
    requires after == before + (if f in {MemoryLimit, CpuThrottle} then [ReadLimits(t)] else []) + [Apply(f, t)]
    ensures InOrder(after)
  {
    forall k | 0 <= k < |after|
      ensures ReadBefore(after, k) && AppliedAfter(after, k)
    {
      if k < |before| { assert ReadBefore(before, k) && AppliedAfter(before, k); }
    }
  }

  lemma AskStep(s: State, w: World, i: nat, f: Fault, s': State)
    requires Asked(s) && s' == InjectOne(s, w, i, f)
    ensures Asked(s') && s.trace <= s'.trace
  {
    var target := StepCases(s, w, i, f, s');
    if target.Some? { AskOnce(s, w, i, f, target.value, s'); }
  }

  /** Over a whole scenario: the limits are read right before the two faults that change them, each
      target gets at most one fault, and the targets used are those that got one. */
  lemma EveryScenarioIsInOrder(w: World, faults: seq<Fault>, limits: map<Target, Limits>)
    ensures Asked(Injected(w, faults, limits))
  {
    var n := Considered(w, |faults|);
    forall x, i: nat | i < n && Asked(x)
      ensures Asked(InjectOne(x, w, i, faults[i]))
    {
      AskStep(x, w, i, faults[i], InjectOne(x, w, i, faults[i]));
    }
    InjectKeeps(Asked, Start(limits), w, faults, 0, n);
  }

  /** A fault that goes to a target is applied there, and is listed for recovery exactly if that did
      not raise. */
  lemma EveryHitIsApplied(w: World, faults: seq<Fault>, limits: map<Target, Limits>, i: nat, t: Target)
    requires Hits(w, faults, limits, i, t)
    ensures var s := Injected(w, faults, limits);
            && Apply(faults[i], t) in s.trace
            && (Injection(faults[i], t) in s.injected <==> w.apply(i).Succeeds?)
  {
    var n := Considered(w, |faults|);
    HitIsAsked(w, faults, limits, i, t);
    AskedStays(w, faults, limits, i, t, n);
    HitStateReached(w, faults, limits, i, t, n);
  }

  lemma HitIsAsked(w: World, faults: seq<Fault>, limits: map<Target, Limits>, i: nat, t: Target)
    requires Hits(w, faults, limits, i, t)
    ensures Apply(faults[i], t) in Inject(Start(limits), w, faults, i + 1).trace
  {
    var s, s' := Inject(Start(limits), w, faults, i), Inject(Start(limits), w, faults, i + 1);
    var target := StepCases(s, w, i, faults[i], s');
    assert s'.trace[|s'.trace| - 1] == Apply(faults[i], t);
  }

  lemma AskedStays(w: World, faults: seq<Fault>, limits: map<Target, Limits>, i: nat, t: Target, n: nat)
    requires i < n <= |faults| && Apply(faults[i], t) in Inject(Start(limits), w, faults, i + 1).trace
    ensures Apply(faults[i], t) in Inject(Start(limits), w, faults, n).trace
  {
    var op := Apply(faults[i], t);
    var p := (x: State) => op in x.trace;
    forall x, j: nat | i + 1 <= j < n && p(x)
      ensures p(InjectOne(x, w, j, faults[j]))
    {
      TraceGrows(x, w, j, faults[j], InjectOne(x, w, j, faults[j]), op);
    }
    InjectKeeps(p, Start(limits), w, faults, i + 1, n);
  }

  lemma TraceGrows(s: State, w: World, i: nat, f: Fault, s': State, op: Op)
    requires op in s.trace && s' == InjectOne(s, w, i, f)
    ensures op in s'.trace
  {
    var target := StepCases(s, w, i, f, s');
  }

  lemma {:induction false} RestartsConcat(a: seq<Injection>, b: seq<Injection>)
    ensures Restarts(a + b) == Restarts(a) + Restarts(b)
  {
    if b == [] {
      assert a + b == a;
    } else {
      var n := |b| - 1;
      assert (a + b)[..|a| + n] == a + b[..n];
      RestartsConcat(a, b[..n]);
    }
  }

  /** What is started again are the killed containers, in the order in which they were killed. */
  lemma KilledAreStarted(a: seq<Injection>, f: Fault, t: Target, b: seq<Injection>)
    ensures Restarts(a + [Injection(f, t)] + b)
         == Restarts(a) + (if f == KillContainer then [StartAgain(t)] else []) + Restarts(b)
  {
    RestartsConcat(a + [Injection(f, t)], b);
    RestartsConcat(a, [Injection(f, t)]);
    assert [Injection(f, t)][..0] == [];
  }
}
