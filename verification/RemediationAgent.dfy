/** The bounded agent: free text and commands become one typed proposal. */
module RemediationAgent {
  import opened Wrappers
  import opened Text
  import opened Guardrail

  const KNOWN_SERVICES: seq<string> :=
    ["postgres-db", "redis", "rabbitmq", "api-gateway", "auth-service", "order-service", "payment-service"]
  const SQL_WORDS: seq<string> := ["alter system", "sql", "lock_timeout", "statement_timeout", "wal"]
  const RESOURCE_WORDS: seq<string> := ["cpu", "memory limit", "throttle", "resources", "limit"]
  const SHELL_WORDS: seq<string> :=
    ["cert", "iptables", "route", "bpf", "grpc", "storage", "corruption", "shell", "nuclear", "dns"]
  const POSTGRES: string := "shadow-postgres-db"
  const REDIS: string := "shadow-redis"
  const RABBITMQ: string := "shadow-rabbitmq"

  predicate MentionsAny(t: string, words: seq<string>) {
    exists i :: 0 <= i < |words| && Contains(t, words[i])
  }

  function JoinWith(separator: string, parts: seq<string>): string {
    if parts == [] then ""
    else if |parts| == 1 then parts[0]
    else parts[0] + separator + JoinWith(separator, parts[1..])
  }

  // ----- The regular expressions -----

  /** How many characters at the start are not a backtick. */
  function TickFree(t: string): (n: nat)
    ensures n <= |t| && (n < |t| ==> t[n] == '`')
    ensures forall i | 0 <= i < n :: t[i] != '`'
  {
    if t == "" || t[0] == '`' then 0 else 1 + TickFree(t[1..])
  }

  const TARGET_LABEL: string := "target service:"

  /** The pattern "Target Service:", white space and a name in backticks, at the start of `t`. */
  function TargetHere(t: string): Option<string> {
    if |t| < |TARGET_LABEL| || Lower(t[..|TARGET_LABEL|]) != TARGET_LABEL then None
    else
      var rest := LStrip(t[|TARGET_LABEL|..]);
      if rest == "" || rest[0] != '`' then None
      else
        var n := TickFree(rest[1..]);
        if n == 0 || n == |rest| - 1 then None else Some(rest[1..][..n])
  }

  function NamedTarget(t: string): Option<string> {
    if t == "" then None
    else if TargetHere(t).Some? then TargetHere(t)
    else NamedTarget(t[1..])
  }

  function DigitRun(t: string): (n: nat)
    ensures n <= |t|
    ensures forall i | 0 <= i < n :: IsDigit(t[i])
    ensures n < |t| ==> !IsDigit(t[n])
  {
    if t == "" || !IsDigit(t[0]) then 0 else 1 + DigitRun(t[1..])
  }

  /** `(\d+)` */
  function FirstNumber(t: string): Option<int> {
    if t == "" then None
    else if IsDigit(t[0]) then Some(DigitsValue(t[..DigitRun(t)]))
    else FirstNumber(t[1..])
  }

  /** `(\d+[mg])`, in upper case */
  function FirstSize(t: string): Option<string> {
    if t == "" then None
    else
      var n := DigitRun(t);
      if 0 < n < |t| && t[n] in {'m', 'g'} then Some(t[..n] + (if t[n] == 'm' then "M" else "G"))
      else FirstSize(t[1..])
  }

  /** `(\d+\.\d+)` */
  function FirstDecimal(t: string): Option<string> {
    if t == "" then None
    else
      var n := DigitRun(t);
      if 0 < n < |t| && t[n] == '.' && DigitRun(t[n + 1..]) > 0 then Some(t[..n + 1 + DigitRun(t[n + 1..])])
      else FirstDecimal(t[1..])
  }

  // ----- The target -----

  function FirstService(text: string, services: seq<string>): string {
    if services == [] then "api-gateway"
    else if Contains(text, services[0]) then services[0]
    else FirstService(text, services[1..])
  }

  function Shadowed(name: string): (r: string)
    ensures SHADOW <= r
  {
    if SHADOW <= name then name else SHADOW + name
  }

  function TargetOf(problem: string): (r: string)
    ensures SHADOW <= r
  {
    var named := NamedTarget(problem);
    Shadowed(if named.Some? then Strip(named.value) else FirstService(Lower(problem), KNOWN_SERVICES))
  }

  /** `extract_target_service`: the assertion at its end cannot fail. */
  method ExtractTargetService(problem: string) returns (target: string)
    ensures target == TargetOf(problem) && SHADOW <= target
  {
    var named := NamedTarget(problem);
    var raw := "api-gateway";
    if named.Some? {
      raw := Strip(named.value);
    } else {
      var text := Lower(problem);
      ghost var rest := KNOWN_SERVICES;
      for i := 0 to |KNOWN_SERVICES|
        invariant rest == KNOWN_SERVICES[i..] && raw == "api-gateway"
        invariant FirstService(text, KNOWN_SERVICES) == FirstService(text, rest)
      {
        if Contains(text, KNOWN_SERVICES[i]) {
          raw := KNOWN_SERVICES[i];
          break;
        }
        rest := rest[1..];
      }
    }
    if !(SHADOW <= raw) {
      raw := SHADOW + raw;
    }
    target := raw;
  }

  // ----- The cascade -----

  function SqlProposal(commands: seq<string>): Proposal {
    Proposal(ExecuteSqlCommand, POSTGRES,
             map[OtherKey("query") := Words(JoinWith(" ", commands)), OtherKey("target_container") := Words(POSTGRES)])
  }

  function ResourceProposal(target: string, text: string, combined: string): Proposal {
    var cpu := Contains(combined, "cpu");
    var limit := if cpu then FirstDecimal(text).GetOr("2.0") else FirstSize(text).GetOr("4g");
    Proposal(UpdateContainerResources, target,
             map[OtherKey("target_container") := Words(target), OtherKey("resource_type") := Words(if cpu then "cpu" else "memory"),
                 OtherKey("limit_value") := Words(limit)])
  }

  function ShellProposal(target: string, commands: seq<string>): Proposal {
    Proposal(ExecuteShellCommand, target,
             map[OtherKey("command") := Words(JoinWith(" && ", commands)), OtherKey("target_container") := Words(target)])
  }

  /** The first number of the commands when it is in range, and a default otherwise. */
  function Bounded(text: string, low: int, high: int, default: int): (r: int)
    requires low <= default <= high
    ensures low <= r <= high
    ensures FirstNumber(text).Some? && low <= FirstNumber(text).value <= high ==> r == FirstNumber(text).value
    ensures r != default ==> FirstNumber(text) == Some(r)
  {
    var n := FirstNumber(text).GetOr(default);
    if low <= n <= high then n else default
  }

  function PostgresProposal(connections: int): Proposal {
    Proposal(RunQuery, POSTGRES,
             map[StatementType := Words("alter_system_set"), Setting := Words("max_connections"),
                 ValueKey := Number(connections)])
  }

  function RedisProposal(policy: string): Proposal {
    Proposal(RunConfigCommand, REDIS, map[ConfigKey := Words("maxmemory-policy"), ValueKey := Words(policy)])
  }

  function RabbitmqProposal(consumers: int): Proposal {
    Proposal(ScaleReplicas, RABBITMQ, map[Operation := Words("scale_consumer_count"), ValueKey := Number(consumers)])
  }

  function RestartProposal(target: string): Proposal {
    Proposal(RestartService, target, map[])
  }

  /** The older mappings, tried when no keyword list applies. */
  function Legacy(target: string, text: string, combined: string): Proposal {
    if Contains(target, "postgres") || Contains(combined, "postgres") || Contains(text, "connection pool") then
      PostgresProposal(Bounded(text, 20, 500, 200))
    else if Contains(target, "redis") || Contains(combined, "redis") || Contains(text, "eviction") then
      RedisProposal(if Contains(combined, "allkeys-lru") then "allkeys-lru" else "volatile-lru")
    else if Contains(target, "rabbitmq") || Contains(combined, "rabbitmq") || Contains(text, "consumer") then
      RabbitmqProposal(Bounded(text, 1, 20, 5))
    else if Contains(text, "restart") then RestartProposal(target)
    else Unmapped
  }

  function CommandText(commands: seq<string>): string { Lower(JoinWith(" ", commands)) }
  function CombinedText(problem: string, commands: seq<string>): string {
    Lower(problem + " " + CommandText(commands))
  }

  /** `propose_action` */
  function ProposeAction(problem: string, commands: seq<string>): Proposal {
    var text, combined := CommandText(commands), CombinedText(problem, commands);
    if commands == [] then Unmapped
    else if MentionsAny(combined, SQL_WORDS) then SqlProposal(commands)
    else if MentionsAny(combined, RESOURCE_WORDS) then ResourceProposal(TargetOf(problem), text, combined)
    else if MentionsAny(combined, SHELL_WORDS) then ShellProposal(TargetOf(problem), commands)
    else Legacy(TargetOf(problem), text, combined)
  }

  // ----- What the guardrail makes of each proposal -----

  function VerdictOf(p: Proposal): Verdict
    requires p.Proposal?
  {
    CheckGuardrail(p.tool, p.target, p.parameters)
  }

  /** A target that has none of the three guarded services in its name. */
  predicate Plain(target: string) {
    !Contains(target, "postgres") && !Contains(target, "redis") && !Contains(target, "rabbitmq")
  }

  lemma PostgresName()
    ensures SHADOW <= POSTGRES && Contains(POSTGRES, "postgres")
  {
    ContainsAt(POSTGRES, "postgres", 7);
  }

  lemma RedisName()
    ensures SHADOW <= REDIS && Contains(REDIS, "redis") && !Contains(REDIS, "postgres")
  {
    ContainsAt(REDIS, "redis", 7);
    LetterAbsent(REDIS, "postgres", 0);
  }

  lemma RabbitmqName()
    ensures SHADOW <= RABBITMQ && Contains(RABBITMQ, "rabbitmq")
  {
    ContainsAt(RABBITMQ, "rabbitmq", 7);
  }

  lemma RabbitmqIsNoOther()
    ensures !Contains(RABBITMQ, "postgres") && !Contains(RABBITMQ, "redis")
  {
    assert 'p' !in RABBITMQ && 'e' !in RABBITMQ;
    LetterAbsent(RABBITMQ, "postgres", 0);
    LetterAbsent(RABBITMQ, "redis", 1);
  }

  /** Without a setting, a key or a value no guarded service accepts anything. */
  lemma UntypedIsRejected(tool: Tool, target: string, parameters: map<Key, Value>)
    requires Setting !in parameters && ConfigKey !in parameters && ValueKey !in parameters
    requires SHADOW <= target
    ensures CheckGuardrail(tool, target, parameters).Passed? <==> Plain(target)
  {
    GuardrailIsAllowlist(tool, target, parameters);
    assert Lower("") == "";
  }

  /** Every raw SQL proposal is rejected. */
  lemma SqlIsRejected(commands: seq<string>)
    ensures !VerdictOf(SqlProposal(commands)).Passed?
  {
    var p := SqlProposal(commands);
    PostgresName();
    UntypedIsRejected(p.tool, p.target, p.parameters);
  }

  /** Resource and shell proposals pass exactly on targets that are not guarded. */
  lemma UniversalVerdict(target: string, text: string, combined: string, commands: seq<string>)
    requires SHADOW <= target
    ensures VerdictOf(ResourceProposal(target, text, combined)).Passed? <==> Plain(target)
    ensures VerdictOf(ShellProposal(target, commands)).Passed? <==> Plain(target)
  {
    var r, s := ResourceProposal(target, text, combined), ShellProposal(target, commands);
    UntypedIsRejected(r.tool, r.target, r.parameters);
    UntypedIsRejected(s.tool, s.target, s.parameters);
  }

  lemma LowerStays(t: string)
    requires forall i | 0 <= i < |t| :: !('A' <= t[i] <= 'Z')
    ensures Lower(t) == t
  {
  }

  lemma PostgresPasses(connections: int)
    ensures VerdictOf(PostgresProposal(connections)).Passed? <==> 20 <= connections <= 500
  {
    PostgresName();
    SettingIsLower();
    PostgresTargets(RunQuery, POSTGRES, PostgresProposal(connections).parameters);
    PostgresSurface(PostgresProposal(connections).parameters, "max_connections", connections);
  }

  lemma SettingIsLower()
    ensures Lower("max_connections") == "max_connections"
  {
    LowerStays("max_connections");
  }

  lemma PostgresSurface(parameters: map<Key, Value>, setting: string, n: int)
    requires parameters == map[StatementType := Words("alter_system_set"), Setting := Words(setting), ValueKey := Number(n)]
    requires Lower(setting) == setting == "max_connections"
    ensures CheckPostgres(parameters).Passed? <==> 20 <= n <= 500
  {
    PostgresAllowlist(parameters);
  }

  predicate CleanText(t: string, words: seq<string>) {
    forall i | 0 <= i < |words| :: !Contains(Lower(t), words[i])
  }

  /** A dictionary of two entries mentions nothing that its keys and values do not. */
  lemma NothingMentioned(parameters: map<Key, Value>, k: Key, words: seq<string>)
    requires parameters.Keys == {k, ValueKey}
    requires CleanText(k.Name(), words) && CleanText(TextOf(parameters[k]), words)
    requires CleanText("value", words) && CleanText(TextOf(parameters[ValueKey]), words)
    ensures forall i | 0 <= i < |words| :: !Mentions(parameters, words[i])
  {
  }

  lemma NoForbiddenPolicy(t: string)
    requires forall i | 0 <= i < |t| :: t[i] !in {'h', 'q', 'H', 'Q'}
    ensures CleanText(t, REDIS_FORBIDDEN)
  {
    var l := Lower(t);
    LetterAbsent(l, "flushall", 4);
    LetterAbsent(l, "flushdb", 4);
    LetterAbsent(l, "config set requirepass", 13);
  }

  lemma ConfigKeyIsClean()
    ensures CleanText("config_key", REDIS_FORBIDDEN) && CleanText("value", REDIS_FORBIDDEN)
  {
    NoForbiddenPolicy("config_key");
    NoForbiddenPolicy("value");
  }

  lemma PolicyKeyIsClean()
    ensures CleanText("maxmemory-policy", REDIS_FORBIDDEN)
  {
    NoForbiddenPolicy("maxmemory-policy");
  }

  lemma PolicyIsClean(policy: string)
    requires policy in {"volatile-lru", "allkeys-lru"}
    ensures CleanText(policy, REDIS_FORBIDDEN) && policy in POLICIES
  {
    NoForbiddenPolicy(policy);
    assert POLICIES[0] == "volatile-lru" && POLICIES[1] == "allkeys-lru";
  }

  lemma RedisPasses(policy: string)
    requires policy in {"volatile-lru", "allkeys-lru"}
    ensures VerdictOf(RedisProposal(policy)).Passed?
  {
    RedisName();
    ConfigKeyIsClean();
    PolicyKeyIsClean();
    PolicyIsClean(policy);
    RedisTargets(RunConfigCommand, REDIS, RedisProposal(policy).parameters);
    RedisSurface(RedisProposal(policy).parameters, "maxmemory-policy", policy);
  }

  lemma RedisSurface(parameters: map<Key, Value>, key: string, policy: string)
    requires parameters == map[ConfigKey := Words(key), ValueKey := Words(policy)]
    requires key == "maxmemory-policy" && policy in POLICIES
    requires CleanText("config_key", REDIS_FORBIDDEN) && CleanText(key, REDIS_FORBIDDEN)
    requires CleanText("value", REDIS_FORBIDDEN) && CleanText(policy, REDIS_FORBIDDEN)
    ensures CheckRedis(parameters).Passed?
  {
    RedisAllowlist(parameters);
    NothingMentioned(parameters, ConfigKey, REDIS_FORBIDDEN);
    RedisMentions(parameters);
    PoliciesAre(policy);
  }

  lemma NoForbiddenOperation(t: string)
    requires forall i | 0 <= i < |t| :: t[i] !in {'d', 'D'}
    ensures CleanText(t, RABBITMQ_FORBIDDEN)
  {
    var l := Lower(t);
    LetterAbsent(l, "delete_queue", 0);
    LetterAbsent(l, "delete_vhost", 0);
    LetterAbsent(l, "delete_exchange", 0);
  }

  lemma OperationKeyIsClean()
    ensures CleanText("operation", RABBITMQ_FORBIDDEN) && CleanText("value", RABBITMQ_FORBIDDEN)
    ensures CleanText("", RABBITMQ_FORBIDDEN)
  {
    NoForbiddenOperation("operation");
    NoForbiddenOperation("value");
    NoForbiddenOperation("");
  }

  lemma ScalingIsClean()
    ensures CleanText("scale_consumer_count", RABBITMQ_FORBIDDEN)
  {
    NoForbiddenOperation("scale_consumer_count");
  }

  lemma RabbitmqPasses(consumers: int)
    ensures VerdictOf(RabbitmqProposal(consumers)).Passed? <==> 1 <= consumers <= 20
  {
    RabbitmqName();
    RabbitmqIsNoOther();
    OperationKeyIsClean();
    ScalingIsClean();
    RabbitmqTargets(ScaleReplicas, RABBITMQ, RabbitmqProposal(consumers).parameters);
    RabbitmqSurface(RabbitmqProposal(consumers).parameters, "scale_consumer_count", consumers);
  }

  lemma RabbitmqSurface(parameters: map<Key, Value>, operation: string, n: int)
    requires parameters == map[Operation := Words(operation), ValueKey := Number(n)]
    requires operation == "scale_consumer_count"
    requires CleanText("operation", RABBITMQ_FORBIDDEN) && CleanText(operation, RABBITMQ_FORBIDDEN)
    requires CleanText("value", RABBITMQ_FORBIDDEN) && CleanText("", RABBITMQ_FORBIDDEN)
    ensures CheckRabbitmq(parameters).Passed? <==> 1 <= n <= 20
  {
    NothingMentioned(parameters, Operation, RABBITMQ_FORBIDDEN);
    ScalingBounds(parameters, n);
  }

  lemma ScalingBounds(parameters: map<Key, Value>, n: int)
    requires FirstMention(parameters, RABBITMQ_FORBIDDEN).None?
    requires Operation in parameters && parameters[Operation] == Words("scale_consumer_count")
    requires ValueKey in parameters && parameters[ValueKey] == Number(n)
    ensures CheckRabbitmq(parameters).Passed? <==> 1 <= n <= 20
  {
  }

  // ----- All proposals -----

  /** The four shapes of a real change. */
  predicate Typed(p: Proposal) {
    || (exists n :: 20 <= n <= 500 && p == PostgresProposal(n))
    || p == RedisProposal("volatile-lru") || p == RedisProposal("allkeys-lru")
    || (exists n :: 1 <= n <= 20 && p == RabbitmqProposal(n))
    || (p.Proposal? && SHADOW <= p.target && Plain(p.target) && p == RestartProposal(p.target))
  }

  lemma LegacyIsTyped(target: string, text: string, combined: string)
    requires SHADOW <= target
    ensures Legacy(target, text, combined).Unmapped? || Typed(Legacy(target, text, combined))
  {
    var connections, consumers := Bounded(text, 20, 500, 200), Bounded(text, 1, 20, 5);
    assert 20 <= connections <= 500 && 1 <= consumers <= 20;
  }

  lemma TypedPasses(p: Proposal)
    requires Typed(p)
    ensures p.Proposal? && SHADOW <= p.target && VerdictOf(p).Passed?
  {
    if n :| 20 <= n <= 500 && p == PostgresProposal(n) {
      PostgresName();
      PostgresPasses(n);
    } else if n :| 1 <= n <= 20 && p == RabbitmqProposal(n) {
      RabbitmqName();
      RabbitmqPasses(n);
    } else if p == RedisProposal("volatile-lru") {
      RedisName();
      RedisPasses("volatile-lru");
    } else if p == RedisProposal("allkeys-lru") {
      RedisName();
      RedisPasses("allkeys-lru");
    } else {
      GuardrailIsAllowlist(p.tool, p.target, p.parameters);
    }
  }

  /** A resource or shell proposal. */
  predicate Universal(p: Proposal) {
    p.Proposal? && p.tool in {UpdateContainerResources, ExecuteShellCommand}
  }

  /** A bounded typed change passes, raw SQL does not, and a resource or shell change passes exactly
      on a target that is not guarded. */
  predicate Classified(p: Proposal, target: string) {
    && p.Proposal? && SHADOW <= p.target
    && (|| (Typed(p) && VerdictOf(p).Passed?)
        || (p.tool == ExecuteSqlCommand && !VerdictOf(p).Passed?)
        || (Universal(p) && p.target == target && (VerdictOf(p).Passed? <==> Plain(target))))
  }

  lemma SqlIsClassified(commands: seq<string>, target: string)
    ensures Classified(SqlProposal(commands), target)
  {
    SqlIsRejected(commands);
    PostgresName();
  }

  lemma UniversalIsClassified(target: string, text: string, combined: string, commands: seq<string>)
    requires SHADOW <= target
    ensures Classified(ResourceProposal(target, text, combined), target)
    ensures Classified(ShellProposal(target, commands), target)
  {
    UniversalVerdict(target, text, combined, commands);
  }

  lemma LegacyIsClassified(target: string, text: string, combined: string)
    requires SHADOW <= target
    ensures Legacy(target, text, combined).Unmapped? || Classified(Legacy(target, text, combined), target)
  {
    var p := Legacy(target, text, combined);
    LegacyIsTyped(target, text, combined);
    if p.Proposal? { TypedPasses(p); }
  }

  /** For every problem text and command list. */
  lemma EveryProposalIsClassified(problem: string, commands: seq<string>)
    ensures ProposeAction(problem, commands).Unmapped? || Classified(ProposeAction(problem, commands), TargetOf(problem))
  {
    var text, combined, target := CommandText(commands), CombinedText(problem, commands), TargetOf(problem);
    var p := ProposeAction(problem, commands);
    if commands == [] {
      assert p.Unmapped?;
    } else if MentionsAny(combined, SQL_WORDS) {
      assert p == SqlProposal(commands);
      SqlIsClassified(commands, target);
    } else if MentionsAny(combined, RESOURCE_WORDS) {
      assert p == ResourceProposal(target, text, combined);
      UniversalIsClassified(target, text, combined, commands);
    } else if MentionsAny(combined, SHELL_WORDS) {
      assert p == ShellProposal(target, commands);
      UniversalIsClassified(target, text, combined, commands);
    } else {
      assert p == Legacy(target, text, combined);
      LegacyIsClassified(target, text, combined);
    }
  }

  /** A problem or command that mentions SQL in any way, PostgreSQL included, is never remedied. */
  lemma MentioningSqlIsRejected(problem: string, commands: seq<string>)
    requires commands != [] && MentionsAny(CombinedText(problem, commands), SQL_WORDS)
    ensures ProposeAction(problem, commands) == SqlProposal(commands)
    ensures !VerdictOf(ProposeAction(problem, commands)).Passed?
  {
    SqlIsRejected(commands);
  }
}
