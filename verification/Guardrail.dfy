/** The allowlist that every remediation proposal has to pass. */
module Guardrail {
  import opened Wrappers
  import opened Text

  datatype Tool =
    | ExecuteSqlCommand | UpdateContainerResources | ExecuteShellCommand
    | RunQuery | RunConfigCommand | ScaleReplicas | RestartService | RestartContainer | EditConfigFile | ReadState

  /** The parameter names that the guardrail and the tools look up, and any others. */
  datatype Key = StatementType | Setting | ConfigKey | Operation | ValueKey | OtherKey(name: string)
  {
    function Name(): string {
      match this
      case StatementType => "statement_type"
      case Setting => "setting"
      case ConfigKey => "config_key"
      case Operation => "operation"
      case ValueKey => "value"
      case OtherKey(name) => name
    }
  }

  /** A JSON value: an integer, a string, or anything else by what `str` and `int` make of it. */
  datatype Value = Number(n: int) | Words(text: string) | Other(printed: string, integer: Option<int>)

  /** A proposal is either marked unmapped or names a tool, a target and parameters. */
  datatype Proposal = Unmapped | Proposal(tool: Tool, target: string, parameters: map<Key, Value>)

  datatype Verdict =
    | Passed
    | NotAShadow
    | Forbidden(word: string)
    | UnknownStatement
    | UnknownSetting
    | UnknownKey
    | UnknownOperation
    | BadValue
    | NotANumber
    | OutOfBounds

  datatype Bounds = Bounds(min: int, max: int)

  datatype StatementRules = StatementRules(settings: seq<string>, maxConnections: Option<Bounds>)

  /** `ALLOWED_TAMPER_SURFACE["postgres"]["statement_types"]` */
  function PostgresRules(statement: Value): Option<StatementRules> {
    if statement == Words("alter_system_set") then
      Some(StatementRules(["max_connections", "shared_buffers", "work_mem", "statement_timeout"], Some(Bounds(20, 500))))
    else if statement == Words("set") then
      Some(StatementRules(["work_mem", "statement_timeout"], None))
    else None
  }

  const POSTGRES_FORBIDDEN: seq<string> := ["drop", "truncate", "delete from", "alter table", "grant", "revoke"]
  const REDIS_FORBIDDEN: seq<string> := ["flushall", "flushdb", "config set requirepass"]
  const RABBITMQ_FORBIDDEN: seq<string> := ["delete_queue", "delete_vhost", "delete_exchange"]
  const POLICIES: seq<string> := ["volatile-lru", "allkeys-lru", "volatile-ttl", "noeviction"]

  /** The allowed values of a Redis key; a known key without a list takes any value. */
  function RedisRules(key: Value): Option<Option<seq<string>>> {
    if key == Words("maxmemory-policy") then Some(Some(POLICIES))
    else if key == Words("maxmemory") then Some(None)
    else None
  }

  function RabbitmqRules(operation: Value): Option<Bounds> {
    if operation == Words("scale_consumer_count") then Some(Bounds(1, 20))
    else if operation == Words("adjust_prefetch") then Some(Bounds(1, 1000))
    else None
  }

  function Get(parameters: map<Key, Value>, key: Key, default: Value): Value {
    if key in parameters then parameters[key] else default
  }

  /** The text of a value, for membership in a list of names: an integer is not a name. */
  function TextOf(v: Value): string {
    match v case Words(t) => t case Number(_) => "" case Other(printed, _) => printed
  }

  /** A word occurs in the printed dictionary: in a key or in a value. */
  predicate Mentions(parameters: map<Key, Value>, word: string) {
    exists k :: k in parameters && (Contains(Lower(k.Name()), word) || Contains(Lower(TextOf(parameters[k])), word))
  }

  function FirstMention(parameters: map<Key, Value>, words: seq<string>): (w: Option<string>)
    ensures w.Some? <==> exists i | 0 <= i < |words| :: Mentions(parameters, words[i])
  {
    if words == [] then None
    else if Mentions(parameters, words[0]) then Some(words[0])
    else
      assert forall i | 0 < i < |words| :: words[i] == words[1..][i - 1];
      assert forall i | 0 <= i < |words[1..]| :: words[1..][i] == words[i + 1];
      FirstMention(parameters, words[1..])
  }

  function FirstContained(t: string, words: seq<string>): (w: Option<string>)
    ensures w.Some? <==> exists i | 0 <= i < |words| :: Contains(t, words[i])
  {
    if words == [] then None
    else if Contains(t, words[0]) then Some(words[0])
    else
      assert forall i | 0 < i < |words| :: words[i] == words[1..][i - 1];
      assert forall i | 0 <= i < |words[1..]| :: words[1..][i] == words[i + 1];
      FirstContained(t, words[1..])
  }

  function DigitsValue(t: string): int {
    if t == "" then 0
    else
      var front, last := t[..|t| - 1], t[|t| - 1];
      if last == '_' then DigitsValue(front) else 10 * DigitsValue(front) + (last as int - '0' as int)
  }

  /** Digits, with single underscores between them. */
  predicate Numeral(t: string) {
    && t != "" && IsDigit(t[0]) && IsDigit(t[|t| - 1])
    && (forall i | 0 <= i < |t| :: IsDigit(t[i]) || t[i] == '_')
    && (forall i | 0 <= i < |t| - 1 :: t[i] != '_' || t[i + 1] != '_')
  }

  /** `int(v)` of a value that may be missing. */
  function IntOf(parameters: map<Key, Value>, key: Key): Option<int> {
    if key !in parameters then None
    else match parameters[key]
      case Number(n) => Some(n)
      case Words(text) =>
        var t := Strip(text);
        if Numeral(t) then Some(DigitsValue(t))
        else if t != "" && t[0] == '-' && Numeral(t[1..]) then Some(-DigitsValue(t[1..]))
        else if t != "" && t[0] == '+' && Numeral(t[1..]) then Some(DigitsValue(t[1..]))
        else None
      case Other(_, integer) => integer
  }

  function WithinBounds(value: Option<int>, bounds: Bounds): Verdict {
    match value
    case None => NotANumber
    case Some(v) => if v < bounds.min || v > bounds.max then OutOfBounds else Passed
  }

  function CheckPostgres(parameters: map<Key, Value>): Verdict {
    var setting := Lower(TextOf(Get(parameters, Setting, Words(""))));
    var forbidden := FirstContained(setting, POSTGRES_FORBIDDEN);
    var rules := PostgresRules(Get(parameters, StatementType, Words("alter_system_set")));
    if forbidden.Some? then Forbidden(forbidden.value)
    else if rules.None? then UnknownStatement
    else if setting !in rules.value.settings then UnknownSetting
    else if setting == "max_connections" && rules.value.maxConnections.Some? then
      WithinBounds(IntOf(parameters, ValueKey), rules.value.maxConnections.value)
    else Passed
  }

  function CheckRedis(parameters: map<Key, Value>): Verdict {
    var key := Get(parameters, ConfigKey, Get(parameters, Setting, Words("")));
    var forbidden := FirstMention(parameters, REDIS_FORBIDDEN);
    var rules := RedisRules(key);
    if forbidden.Some? then Forbidden(forbidden.value)
    else if rules.None? then UnknownKey
    else if rules.value.Some? && TextOf(Get(parameters, ValueKey, Number(0))) !in rules.value.value then BadValue
    else Passed
  }

  function CheckRabbitmq(parameters: map<Key, Value>): Verdict {
    var forbidden := FirstMention(parameters, RABBITMQ_FORBIDDEN);
    var rules := RabbitmqRules(Get(parameters, Operation, Words("scale_consumer_count")));
    if forbidden.Some? then Forbidden(forbidden.value)
    else if rules.None? then UnknownOperation
    else WithinBounds(IntOf(parameters, ValueKey), rules.value)
  }

  const SHADOW: string := "shadow-"

  /** `check_guardrail` */
  function CheckGuardrail(tool: Tool, target: string, parameters: map<Key, Value>): Verdict {
    if !(SHADOW <= target) then NotAShadow
    else if Contains(target, "postgres") then CheckPostgres(parameters)
    else if Contains(target, "redis") then CheckRedis(parameters)
    else if Contains(target, "rabbitmq") then CheckRabbitmq(parameters)
    else Passed
  }

  // ----- What the guardrail lets through -----

  predicate Within(value: Option<int>, min: int, max: int) { value.Some? && min <= value.value <= max }

  /** The Postgres surface, in full. */
  predicate PostgresAllowed(parameters: map<Key, Value>) {
    var statement := Get(parameters, StatementType, Words("alter_system_set"));
    var setting := Lower(TextOf(Get(parameters, Setting, Words(""))));
    || (statement == Words("alter_system_set")
        && (setting in {"shared_buffers", "work_mem", "statement_timeout"}
            || (setting == "max_connections" && Within(IntOf(parameters, ValueKey), 20, 500))))
    || (statement == Words("set") && setting in {"work_mem", "statement_timeout"})
  }

  /** The Redis surface: the table's bounds of `maxmemory` are never read, so any value passes. */
  predicate RedisAllowed(parameters: map<Key, Value>) {
    var key := Get(parameters, ConfigKey, Get(parameters, Setting, Words("")));
    && !Mentions(parameters, "flushall") && !Mentions(parameters, "flushdb") && !Mentions(parameters, "config set requirepass")
    && (key == Words("maxmemory")
        || (key == Words("maxmemory-policy") && ValueKey in parameters
            && TextOf(parameters[ValueKey]) in {"volatile-lru", "allkeys-lru", "volatile-ttl", "noeviction"}))
  }

  predicate RabbitmqAllowed(parameters: map<Key, Value>) {
    var operation := Get(parameters, Operation, Words("scale_consumer_count"));
    && !Mentions(parameters, "delete_queue") && !Mentions(parameters, "delete_vhost") && !Mentions(parameters, "delete_exchange")
    && (|| (operation == Words("scale_consumer_count") && Within(IntOf(parameters, ValueKey), 1, 20))
        || (operation == Words("adjust_prefetch") && Within(IntOf(parameters, ValueKey), 1, 1000)))
  }

  lemma ContainsAt(t: string, word: string, i: nat)
    requires i + |word| <= |t| && t[i..i + |word|] == word
    ensures Contains(t, word)
  {
    assert t[i..][..|word|] == word;
    assert word <= t[i..];
  }

  predicate Clean(setting: string) {
    forall i | 0 <= i < |POSTGRES_FORBIDDEN| :: !Contains(setting, POSTGRES_FORBIDDEN[i])
  }

  lemma CleanIfNoneOccurs(t: string)
    requires !Contains(t, "drop") && !Contains(t, "truncate") && !Contains(t, "delete from")
    requires !Contains(t, "alter table") && !Contains(t, "grant") && !Contains(t, "revoke")
    ensures Clean(t)
  {
  }

  lemma LettersOfAPart(t: string, word: string, i: nat, k: nat)
    requires i <= |t| && k < |word|
    ensures word <= t[i..] ==> word[k] in t
  {
    if word <= t[i..] { assert t[i + k] == word[k]; }
  }

  lemma LetterAbsent(t: string, word: string, k: nat)
    requires k < |word| && word[k] !in t
    ensures !Contains(t, word)
  {
    forall i | 0 <= i <= |t|
      ensures !(word <= t[i..])
    {
      LettersOfAPart(t, word, i, k);
    }
  }

  lemma CleanSetting(t: string)
    requires 'p' !in t && 'l' !in t && 'g' !in t && 'v' !in t && ('t' !in t || 'r' !in t)
    ensures Clean(t)
  {
    LetterAbsent(t, "drop", 3);
    LetterAbsent(t, "truncate", if 't' !in t then 0 else 1);
    LetterAbsent(t, "delete from", 2);
    LetterAbsent(t, "alter table", 1);
    LetterAbsent(t, "grant", 0);
    LetterAbsent(t, "revoke", 2);
    CleanIfNoneOccurs(t);
  }

  lemma MaxConnectionsIsClean()
    ensures Clean("max_connections")
  {
    CleanSetting("max_connections");
  }

  lemma SharedBuffersIsClean()
    ensures Clean("shared_buffers")
  {
    CleanSetting("shared_buffers");
  }

  lemma WorkMemIsClean()
    ensures Clean("work_mem")
  {
    CleanSetting("work_mem");
  }

  lemma StatementTimeoutIsClean()
    ensures Clean("statement_timeout")
  {
    CleanSetting("statement_timeout");
  }

  /** No setting on the Postgres allowlist contains a forbidden word: that check only changes which
      reason a rejection gives. */
  lemma AllowedSettingsAreClean(setting: string)
    requires setting in {"max_connections", "shared_buffers", "work_mem", "statement_timeout"}
    ensures FirstContained(setting, POSTGRES_FORBIDDEN).None?
  {
    MaxConnectionsIsClean();
    SharedBuffersIsClean();
    WorkMemIsClean();
    StatementTimeoutIsClean();
    assert Clean(setting);
  }

  lemma PostgresAllowlist(parameters: map<Key, Value>)
    ensures CheckPostgres(parameters).Passed? <==> PostgresAllowed(parameters)
  {
    var setting := Lower(TextOf(Get(parameters, Setting, Words(""))));
    if setting in {"max_connections", "shared_buffers", "work_mem", "statement_timeout"} {
      AllowedSettingsAreClean(setting);
    }
  }

  lemma RedisAllowlist(parameters: map<Key, Value>)
    ensures CheckRedis(parameters).Passed? <==> RedisAllowed(parameters)
  {
    RedisMentions(parameters);
    PoliciesAre(TextOf(Get(parameters, ValueKey, Number(0))));
  }

  lemma PoliciesAre(t: string)
    ensures t in POLICIES <==> t in {"volatile-lru", "allkeys-lru", "volatile-ttl", "noeviction"}
  {
    assert POLICIES[0] == "volatile-lru" && POLICIES[1] == "allkeys-lru" && POLICIES[2] == "volatile-ttl";
    assert POLICIES[3] == "noeviction";
  }

  lemma RedisMentions(parameters: map<Key, Value>)
    ensures (exists i | 0 <= i < |REDIS_FORBIDDEN| :: Mentions(parameters, REDIS_FORBIDDEN[i]))
            <==> Mentions(parameters, "flushall") || Mentions(parameters, "flushdb")
                 || Mentions(parameters, "config set requirepass")
  {
    var w := REDIS_FORBIDDEN;
    assert w[0] == "flushall" && w[1] == "flushdb" && w[2] == "config set requirepass";
  }

  lemma RabbitmqMentions(parameters: map<Key, Value>)
    ensures (exists i | 0 <= i < |RABBITMQ_FORBIDDEN| :: Mentions(parameters, RABBITMQ_FORBIDDEN[i]))
            <==> Mentions(parameters, "delete_queue") || Mentions(parameters, "delete_vhost")
                 || Mentions(parameters, "delete_exchange")
  {
    var w := RABBITMQ_FORBIDDEN;
    assert w[0] == "delete_queue" && w[1] == "delete_vhost" && w[2] == "delete_exchange";
  }

  lemma RabbitmqAllowlist(parameters: map<Key, Value>)
    ensures CheckRabbitmq(parameters).Passed? <==> RabbitmqAllowed(parameters)
  {
    RabbitmqMentions(parameters);
  }

  lemma PostgresTargets(tool: Tool, target: string, parameters: map<Key, Value>)
    requires SHADOW <= target && Contains(target, "postgres")
    ensures CheckGuardrail(tool, target, parameters) == CheckPostgres(parameters)
  {
  }

  lemma RedisTargets(tool: Tool, target: string, parameters: map<Key, Value>)
    requires SHADOW <= target && Contains(target, "redis") && !Contains(target, "postgres")
    ensures CheckGuardrail(tool, target, parameters) == CheckRedis(parameters)
  {
  }

  lemma RabbitmqTargets(tool: Tool, target: string, parameters: map<Key, Value>)
    requires SHADOW <= target && Contains(target, "rabbitmq")
    requires !Contains(target, "postgres") && !Contains(target, "redis")
    ensures CheckGuardrail(tool, target, parameters) == CheckRabbitmq(parameters)
  {
  }

  /** Exactly what passes, whatever the proposal. */
  lemma GuardrailIsAllowlist(tool: Tool, target: string, parameters: map<Key, Value>)
    ensures CheckGuardrail(tool, target, parameters).Passed?
            <==> SHADOW <= target
                 && (if Contains(target, "postgres") then PostgresAllowed(parameters)
                     else if Contains(target, "redis") then RedisAllowed(parameters)
                     else Contains(target, "rabbitmq") ==> RabbitmqAllowed(parameters))
  {
    PostgresAllowlist(parameters);
    RedisAllowlist(parameters);
    RabbitmqAllowlist(parameters);
  }
}
