/**
 The telemetry simulator's scheduler: a clock that ticks every five seconds, a timeline of scenarios
 given in minutes, and a list of restorations.

 Times are seconds since the start of the window.  A scenario matters here only by the container it
 takes down and the restoration it schedules; the telemetry it writes is left out.
 */
module Simulator {
  import opened Steps

  datatype Container =
    | ApiGateway | AuthService | OrderService | PaymentService
    | PostgresDb | Redis | Rabbitmq | OtelCollector
    | Jaeger | Prometheus | Grafana | Loki

  datatype Status = Running | Exited(code: int)

  /** `OomKill` takes payment-service down for good; `Evidence` only writes log lines. */
  datatype Scenario = Kill(target: Container) | Pause(target: Container) | OomKill | Evidence

  datatype Entry = Entry(offset: nat, scenario: Scenario)

  datatype Restoration = Restoration(end: int, target: Container)

  /** The scheduler's lines of output. */
  datatype Launch = Launch(index: nat, time: int)
  datatype Restored = Restored(what: Restoration, time: int)

  const TICK: int := 5
  const KILL_SECONDS: int := 35
  const PAUSE_SECONDS: int := 40

  function Start(e: Entry): int { 60 * e.offset }

  function Downs(e: Entry): set<Container> {
    match e.scenario case Kill(c) => {c} case OomKill => {PaymentService} case _ => {}
  }

  function Restores(e: Entry): seq<Restoration> {
    match e.scenario
    case Kill(c) => [Restoration(Start(e) + KILL_SECONDS, c)]
    case Pause(c) => [Restoration(Start(e) + PAUSE_SECONDS, c)]
    case _ => []
  }

  /** The scheduler's state; `down` are the containers that have exited. */
  datatype Sim = Sim(
    down: set<Container>,
    restorations: seq<Restoration>,
    next: nat,
    launches: seq<Launch>,
    restored: seq<Restored>)

  const FRESH: Sim := Sim({}, [], 0, [], [])

  // ----- One tick -----

  function LaunchOne(s: Sim, e: Entry, t: int): Sim {
    s.(down := s.down + Downs(e), restorations := s.restorations + Restores(e), next := s.next + 1,
       launches := s.launches + [Launch(s.next, t)])
  }

  /** Launches go in order and stop at the first entry that is not due. */
  function LaunchDue(s: Sim, timeline: seq<Entry>, t: int): Sim
    decreases |timeline| - s.next
  {
    if s.next < |timeline| && t >= Start(timeline[s.next]) then LaunchDue(LaunchOne(s, timeline[s.next], t), timeline, t)
    else s
  }

  function Due(rs: seq<Restoration>, t: int): seq<Restoration> {
    if rs == [] then [] else Due(rs[..|rs| - 1], t) + (if t >= rs[|rs| - 1].end then [rs[|rs| - 1]] else [])
  }

  function NotDue(rs: seq<Restoration>, t: int): seq<Restoration> {
    if rs == [] then [] else NotDue(rs[..|rs| - 1], t) + (if t < rs[|rs| - 1].end then [rs[|rs| - 1]] else [])
  }

  function Targets(rs: seq<Restoration>): set<Container> {
    if rs == [] then {} else Targets(rs[..|rs| - 1]) + {rs[|rs| - 1].target}
  }

  function Stamped(rs: seq<Restoration>, t: int): seq<Restored> {
    if rs == [] then [] else Stamped(rs[..|rs| - 1], t) + [Restored(rs[|rs| - 1], t)]
  }

  function ApplyDue(s: Sim, t: int): Sim {
    var due := Due(s.restorations, t);
    s.(down := s.down - Targets(due), restorations := NotDue(s.restorations, t),
       restored := s.restored + Stamped(due, t))
  }

  function Tick(s: Sim, timeline: seq<Entry>, t: int): Sim {
    ApplyDue(LaunchDue(s, timeline, t), t)
  }

  /** The state after k ticks, at the times 0, 5, ..., 5 (k - 1). */
  function Ticks(s: Sim, timeline: seq<Entry>, k: nat): Sim {
    Repeat(TickStep(timeline), s, k)
  }

  function TickStep(timeline: seq<Entry>): (Sim, nat) -> Sim {
    (s: Sim, i: nat) => Tick(s, timeline, TickTime(i + 1))
  }

  /** The time of the k-th tick; the 0-th stands for the moment before the first. */
  function TickTime(k: nat): int { TICK * k - TICK }

  /** How many ticks fit into a window. */
  function TickCount(window: nat): nat { 12 * window + 1 }

  /** The operators' restart at the start of an appended window. */
  function Recovered(s: Sim): Sim { s.(down := {}) }

  // ----- The scheduler -----

  function DownSet(states: map<Container, Status>): set<Container> {
    set c | c in states && states[c].Exited?
  }

  class Scheduler {
    var states: map<Container, Status>
    var restorations: seq<Restoration>
    var launches: seq<Launch>
    var restored: seq<Restored>

    ghost predicate Valid() reads this {
      forall c: Container :: c in states && states[c] in {Running, Exited(137)}
    }

    function State(next: nat): Sim reads this {
      Sim(DownSet(states), restorations, next, launches, restored)
    }

    constructor ()
      ensures Valid() && State(0) == FRESH
    {
      states := map[
        ApiGateway := Running, AuthService := Running, OrderService := Running, PaymentService := Running,
        PostgresDb := Running, Redis := Running, Rabbitmq := Running, OtelCollector := Running,
        Jaeger := Running, Prometheus := Running, Grafana := Running, Loki := Running];
      restorations, launches, restored := [], [], [];
      new;
      AllContainers(states);
    }

    /** A scenario's effect on the containers. */
    method LaunchScenario(next: nat, e: Entry, t: int)
      requires Valid()
      modifies this
      ensures Valid() && State(next + 1) == LaunchOne(old(State(next)), e, t)
    {
      launches := launches + [Launch(next, t)];
      match e.scenario {
        case Kill(c) =>
          states := states[c := Exited(137)];
          restorations := restorations + [Restoration(Start(e) + KILL_SECONDS, c)];
        case Pause(c) =>
          restorations := restorations + [Restoration(Start(e) + PAUSE_SECONDS, c)];
        case OomKill =>
          states := states[PaymentService := Exited(137)];
        case Evidence =>
      }
      assert DownSet(states) == DownSet(old(states)) + Downs(e);
      assert restorations == old(restorations) + Restores(e);
    }

    /** `apply_restorations` */
    method ApplyRestorations(next: nat, t: int)
      requires Valid()
      modifies this
      ensures Valid() && State(next) == ApplyDue(old(State(next)), t)
    {
      var due, rest := Split(restorations, t);
      restorations := rest;
      for i := 0 to |due|
        invariant Valid() && restorations == rest && launches == old(launches)
        invariant DownSet(states) == DownSet(old(states)) - Targets(due[..i])
        invariant restored == old(restored) + Stamped(due[..i], t)
      {
        RestoredOne(states, due[i].target);
        states := states[due[i].target := Running];
        restored := restored + [Restored(due[i], t)];
        assert due[..i + 1][..i] == due[..i];
      }
      assert due[..|due|] == due;
    }

    /** The inner loop of a tick. */
    method LaunchScenarios(next: nat, timeline: seq<Entry>, t: int) returns (n: nat)
      requires Valid()
      modifies this
      ensures Valid() && State(n) == LaunchDue(old(State(next)), timeline, t)
    {
      n := next;
      while n < |timeline| && t >= Start(timeline[n])
        invariant Valid() && LaunchDue(State(n), timeline, t) == LaunchDue(old(State(next)), timeline, t)
        decreases |timeline| - n
      {
        LaunchScenario(n, timeline[n], t);
        n := n + 1;
      }
    }

    method RunTick(next: nat, timeline: seq<Entry>, t: int) returns (n: nat)
      requires Valid()
      modifies this
      ensures Valid() && State(n) == Tick(old(State(next)), timeline, t)
    {
      n := LaunchScenarios(next, timeline, t);
      ApplyRestorations(n, t);
    }

    /** The state is the one after k ticks from a start. */
    ghost predicate Ticked(start: Sim, timeline: seq<Entry>, k: nat, next: nat) reads this {
      var s := State(next);
      Valid() && s == Ticks(start, timeline, k)
    }

    method AdvanceClock(next: nat, timeline: seq<Entry>, t: int, ghost start: Sim, ghost k: nat) returns (n: nat)
      requires t == TICK * k && Ticked(start, timeline, k, next)
      modifies this
      ensures Ticked(start, timeline, k + 1, n)
    {
      NextTicks(start, timeline, k, State(next), t);
      n := RunTick(next, timeline, t);
    }

    /** Append mode restarts whatever is down. */
    method RecoverServices()
      requires Valid()
      modifies this`states
      ensures Valid() && State(0) == Recovered(old(State(0)))
    {
      states := map c | c in states :: Running;
    }

    /** `run_simulation`, over a window of that many minutes. */
    method RunSimulation(window: nat, timeline: seq<Entry>, recover: bool) returns (next: nat)
      requires Valid()
      modifies this
      ensures Valid()
      ensures State(next) == Ticks(if recover then Recovered(old(State(0))) else old(State(0)), timeline, TickCount(window))
    {
      if recover {
        RecoverServices();
      }
      next := RunTicks(window, timeline);
    }

    method RunTicks(window: nat, timeline: seq<Entry>) returns (next: nat)
      requires Valid()
      modifies this
      ensures Ticked(old(State(0)), timeline, TickCount(window), next)
    {
      ghost var start, k: nat := State(0), 0;
      var t := 0;
      next := 0;
      while t <= 60 * window
        invariant t == TICK * k && Ticked(start, timeline, k, next)
        invariant t <= 60 * window + TICK
      {
        next := AdvanceClock(next, timeline, t, start, k);
        t, k := t + TICK, k + 1;
      }
      LastTick(t, k, window);
    }
  }

  lemma LastTick(t: int, k: nat, window: nat)
    requires t == TICK * k && 60 * window < t <= 60 * window + TICK
    ensures k == TickCount(window)
  {
  }

  lemma NextTicks(start: Sim, timeline: seq<Entry>, k: nat, s: Sim, t: int)
    requires s == Ticks(start, timeline, k) && t == TICK * k
    ensures Ticks(start, timeline, k + 1) == Tick(s, timeline, t)
  {
    assert t == TickTime(k + 1);
  }

  lemma AllContainers(states: map<Container, Status>)
    requires {ApiGateway, AuthService, OrderService, PaymentService, PostgresDb, Redis, Rabbitmq, OtelCollector,
              Jaeger, Prometheus, Grafana, Loki} <= states.Keys
    ensures forall c: Container :: c in states
  {
    forall c: Container
      ensures c in states
    {
      match c
      case ApiGateway => case AuthService => case OrderService => case PaymentService =>
      case PostgresDb => case Redis => case Rabbitmq => case OtelCollector =>
      case Jaeger => case Prometheus => case Grafana => case Loki =>
    }
  }

  lemma RestoredOne(states: map<Container, Status>, c: Container)
    ensures DownSet(states[c := Running]) == DownSet(states) - {c}
  {
  }

  /** The two comprehensions of `apply_restorations`. */
  method Split(rs: seq<Restoration>, t: int) returns (due: seq<Restoration>, rest: seq<Restoration>)
    ensures due == Due(rs, t) && rest == NotDue(rs, t)
  {
    due, rest := [], [];
    for i := 0 to |rs|
      invariant due == Due(rs[..i], t) && rest == NotDue(rs[..i], t)
    {
      assert rs[..i + 1][..i] == rs[..i];
      if t >= rs[i].end {
        due := due + [rs[i]];
      } else {
        rest := rest + [rs[i]];
      }
    }
    assert rs[..|rs|] == rs;
  }
}
