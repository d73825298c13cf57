/**
 One chaos scenario: faults are injected on distinct targets and, however that goes, recovered.

 Docker and HTTP are foreign: for every call the `World` says whether it raises, and whether before
 or after it took effect, as a request does that times out while the daemon carries it out.
 */
module ScenarioRunner {
  import opened Wrappers
  import opened Steps

  datatype Target = ApiGateway | AuthService | OrderService | PaymentService | PostgresDb | Redis | Rabbitmq

  const CONTAINERS: seq<Target> :=
    [ApiGateway, AuthService, OrderService, PaymentService, PostgresDb, Redis, Rabbitmq]
  const HTTP_SERVICES: seq<Target> := [ApiGateway, AuthService, OrderService, PaymentService]

  datatype Fault =
    | PauseContainer | RestartContainer | KillContainer | CpuThrottle | MemoryLimit | NetworkLatency
    | RabbitmqBacklog
    | HttpSlow | HttpThrow | HttpMemoryLeak | HttpDeadlock | HttpSqlLock | HttpExhaustPool

  /** Where a fault can go. */
  function Candidates(f: Fault): seq<Target> {
    match f
    case PauseContainer | RestartContainer | KillContainer | CpuThrottle | MemoryLimit | NetworkLatency => CONTAINERS
    case RabbitmqBacklog => [Rabbitmq]
    case HttpSlow | HttpThrow | HttpMemoryLeak | HttpDeadlock | HttpSqlLock | HttpExhaustPool => HTTP_SERVICES
  }

  /** A container's resource limits. */
  datatype Limits = Limits(memory: int, swap: int, quota: int)

  const NO_LIMITS: Limits := Limits(0, 0, -1)
  const LIMITED_MEMORY: int := 384 * 1024 * 1024
  const THROTTLED_QUOTA: int := 10000

  datatype Injection = Injection(fault: Fault, target: Target)

  /** What the runner asks of the outside, in order. */
  datatype Op =
    | ReadLimits(target: Target)
    | Apply(fault: Fault, target: Target)
    | Recover(fault: Fault, target: Target)
    | StartAgain(target: Target)

  datatype Result = RaisesBefore | RaisesAfter | Succeeds

  datatype World = World(
    stopped: nat -> bool,        // the shutdown flag, before the i-th fault
    pick: nat -> nat,            // the random choice of a target for the i-th fault
    readable: Target -> bool,    // whether the limits of a container can be read
    apply: nat -> Result,        // the outcome of applying the i-th fault
    recover: nat -> Result)      // the outcome of recovering the i-th injected fault

  datatype State = State(
    injected: seq<Injection>,
    used: set<Target>,
    configs: map<Target, Limits>,
    limits: map<Target, Limits>,
    trace: seq<Op>)

  function Start(limits: map<Target, Limits>): State { State([], {}, map[], limits, []) }

  /** The first n candidates that are not used. */
  function Available(candidates: seq<Target>, used: set<Target>, n: nat): (r: seq<Target>)
    requires n <= |candidates|
    ensures forall t :: t in r ==> t in candidates && t !in used
    ensures forall j | 0 <= j < n :: candidates[j] in used || candidates[j] in r
  {
    if n == 0 then []
    else Available(candidates, used, n - 1) + (if candidates[n - 1] in used then [] else [candidates[n - 1]])
  }

  function Choose(candidates: seq<Target>, used: set<Target>, pick: nat): (t: Option<Target>)
    ensures t.Some? ==> t.value in candidates && t.value !in used
    ensures t.None? ==> forall c :: c in candidates ==> c in used
  {
    var available := Available(candidates, used, |candidates|);
    if available == [] then None else Some(available[pick % |available|])
  }

  function LimitsOf(limits: map<Target, Limits>, t: Target): Limits {
    if t in limits then limits[t] else NO_LIMITS
  }

  /** What a fault does to the limits of its target. */
  function Faulted(f: Fault, l: Limits): Limits {
    match f
    case MemoryLimit => l.(memory := LIMITED_MEMORY, swap := LIMITED_MEMORY)
    case CpuThrottle => l.(quota := THROTTLED_QUOTA)
    case _ => l
  }

  /** What recovering does: the memory limits go back to the ones read, the quota to unlimited. */
  function Repaired(f: Fault, l: Limits, config: Option<Limits>): Limits {
    match f
    case MemoryLimit => l.(memory := config.GetOr(NO_LIMITS).memory, swap := config.GetOr(NO_LIMITS).swap)
    case CpuThrottle => l.(quota := -1)
    case _ => l
  }

  predicate ReadsLimits(f: Fault) { f in {MemoryLimit, CpuThrottle} }

  /** `get_original_limits` */
  function OriginalLimits(w: World, limits: map<Target, Limits>, t: Target): Limits {
    if w.readable(t) then LimitsOf(limits, t) else NO_LIMITS
  }

  /** The i-th fault goes to t. */
  function InjectOn(s: State, w: World, i: nat, f: Fault, t: Target): State {
    State(
      if w.apply(i).Succeeds? then s.injected + [Injection(f, t)] else s.injected,
      s.used + {t},
      if ReadsLimits(f) then s.configs[t := OriginalLimits(w, s.limits, t)] else s.configs,
      if w.apply(i).RaisesBefore? then s.limits else s.limits[t := Faulted(f, LimitsOf(s.limits, t))],
      s.trace + (if ReadsLimits(f) then [ReadLimits(t)] else []) + [Apply(f, t)])
  }

  /** The body of the injection loop. */
  function InjectOne(s: State, w: World, i: nat, f: Fault): State {
    var target := Choose(Candidates(f), s.used, w.pick(i));
    if target.None? then s else InjectOn(s, w, i, f, target.value)
  }

  function InjectStep(w: World, faults: seq<Fault>): (State, nat) -> State {
    (s: State, i: nat) => if i < |faults| then InjectOne(s, w, i, faults[i]) else s
  }

  /** The first n faults, none of which met the shutdown flag. */
  function Inject(s: State, w: World, faults: seq<Fault>, n: nat): State {
    Repeat(InjectStep(w, faults), s, n)
  }

  /** How many faults the loop considers before the shutdown flag ends it. */
  function Considered(w: World, n: nat): (m: nat)
    ensures m <= n
    ensures forall i | 0 <= i < m :: !w.stopped(i)
    ensures m < n ==> w.stopped(m)
  {
    if n == 0 then 0
    else
      var m := Considered(w, n - 1);
      if m < n - 1 || w.stopped(m) then m else n
  }

  function ConfigOf(configs: map<Target, Limits>, t: Target): Option<Limits> {
    if t in configs then Some(configs[t]) else None
  }

  function RecoverOne(s: State, w: World, i: nat): State
    requires i < |s.injected|
  {
    var inj := s.injected[i];
    s.(limits := if w.recover(i).RaisesBefore? then s.limits
                 else s.limits[inj.target := Repaired(inj.fault, LimitsOf(s.limits, inj.target), ConfigOf(s.configs, inj.target))],
       trace := s.trace + [Recover(inj.fault, inj.target)])
  }

  function RecoverFirst(s: State, w: World, n: nat): (r: State)
    requires n <= |s.injected|
    ensures r.injected == s.injected && r.configs == s.configs && r.used == s.used
  {
    if n == 0 then s else RecoverOne(RecoverFirst(s, w, n - 1), w, n - 1)
  }

  /** The killed containers, which are started once more. */
  function Restarts(injected: seq<Injection>): seq<Op> {
    if injected == [] then []
    else Restarts(injected[..|injected| - 1])
         + (if injected[|injected| - 1].fault.KillContainer? then [StartAgain(injected[|injected| - 1].target)] else [])
  }

  function Injected(w: World, faults: seq<Fault>, limits: map<Target, Limits>): State {
    Inject(Start(limits), w, faults, Considered(w, |faults|))
  }

  function Finished(w: World, faults: seq<Fault>, limits: map<Target, Limits>): State {
    var s := Injected(w, faults, limits);
    var r := RecoverFirst(s, w, |s.injected|);
    r.(trace := r.trace + Restarts(r.injected))
  }

  // ----- The runner -----

  class Runner {
    var injected: seq<Injection>
    var targetsUsed: set<Target>
    var originalConfigs: map<Target, Limits>
    /** The containers' limits: the outside world as far as the runner changes it. */
    var limits: map<Target, Limits>
    var trace: seq<Op>

    function Now(): State reads this {
      State(injected, targetsUsed, originalConfigs, limits, trace)
    }

    constructor (limits: map<Target, Limits>)
      ensures Now() == Start(limits)
    {
      this.limits := limits;
      injected, targetsUsed, originalConfigs, trace := [], {}, map[], [];
    }

    method ApplyFault(w: World, i: nat, f: Fault, t: Target) returns (ok: bool)
      modifies this`limits, this`trace
      ensures ok == w.apply(i).Succeeds? && trace == old(trace) + [Apply(f, t)]
      ensures limits == if w.apply(i).RaisesBefore? then old(limits) else old(limits)[t := Faulted(f, LimitsOf(old(limits), t))]
    {
      trace := trace + [Apply(f, t)];
      if w.apply(i) != RaisesBefore {
        limits := limits[t := Faulted(f, LimitsOf(limits, t))];
      }
      ok := w.apply(i) == Succeeds;
    }

    method InjectFault(w: World, i: nat, f: Fault)
      modifies this
      ensures Now() == InjectOne(old(Now()), w, i, f)
    {
      var target := Choose(Candidates(f), targetsUsed, w.pick(i));
      if target.None? {
        return;
      }
      var t := target.value;
      targetsUsed := targetsUsed + {t};
      if f in {MemoryLimit, CpuThrottle} {
        trace := trace + [ReadLimits(t)];
        originalConfigs := originalConfigs[t := OriginalLimits(w, limits, t)];
      }
      var ok := ApplyFault(w, i, f, t);
      if ok {
        injected := injected + [Injection(f, t)];
      }
    }

    method InjectNext(w: World, faults: seq<Fault>, i: nat, ghost start: State)
      requires i < |faults| && Now() == Inject(start, w, faults, i)
      modifies this
      ensures Now() == Inject(start, w, faults, i + 1)
    {
      InjectFault(w, i, faults[i]);
    }

    method InjectFaults(w: World, faults: seq<Fault>)
      modifies this
      ensures Now() == Inject(old(Now()), w, faults, Considered(w, |faults|))
    {
      ghost var start, considered := Now(), Considered(w, |faults|);
      var i := 0;
      while i < |faults| && !w.stopped(i)
        invariant i <= considered
        invariant Now() == Inject(start, w, faults, i)
      {
        InjectNext(w, faults, i, start);
        i := i + 1;
      }
    }

    method RecoverFault(w: World, i: nat)
      requires i < |injected|
      modifies this`limits, this`trace
      ensures Now() == RecoverOne(old(Now()), w, i)
    {
      var inj := injected[i];
      trace := trace + [Recover(inj.fault, inj.target)];
      if w.recover(i) != RaisesBefore {
        var config := ConfigOf(originalConfigs, inj.target);
        limits := limits[inj.target := Repaired(inj.fault, LimitsOf(limits, inj.target), config)];
      }
    }

    method RecoverAll(w: World)
      modifies this`limits, this`trace
      ensures Now() == RecoverFirst(old(Now()), w, |old(injected)|)
    {
      for i := 0 to |injected|
        invariant Now() == RecoverFirst(old(Now()), w, i)
      {
        RecoverFault(w, i);
      }
    }

    method RestartKilled()
      modifies this`trace
      ensures trace == old(trace) + Restarts(injected)
    {
      for i := 0 to |injected|
        invariant trace == old(trace) + Restarts(injected[..i])
      {
        assert injected[..i + 1][..i] == injected[..i];
        if injected[i].fault == KillContainer {
          trace := trace + [StartAgain(injected[i].target)];
        }
      }
      assert injected[..|injected|] == injected;
    }

    /** `select_and_run_scenario`, for the faults it sampled. */
    method RunScenario(w: World, faults: seq<Fault>)
      requires Now() == Start(limits)
      modifies this
      ensures Now() == Finished(w, faults, old(limits))
    {
      InjectFaults(w, faults);
      RecoverAll(w);
      RestartKilled();
    }
  }
}
