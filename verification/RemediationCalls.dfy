/**
 What the harness does with a problem and its commands, in words and numbers: which texts lead to
 which call, with which value, and what stops the others.
 */
module RemediationCalls {
  import opened Wrappers
  import opened Sequences
  import opened Text
  import opened Guardrail
  import opened RemediationAgent
  import opened Harness
  import Clustering

  // ----- Reading numbers and names out of texts -----

  predicate DigitFree(t: string) {
    forall i | 0 <= i < |t| :: !IsDigit(t[i])
  }

  predicate AllDigits(t: string) {
    t != "" && forall i | 0 <= i < |t| :: IsDigit(t[i])
  }

  lemma {:induction false} RunOfDigits(ds: string, b: string)
    requires (forall i | 0 <= i < |ds| :: IsDigit(ds[i])) && (b == "" || !IsDigit(b[0]))
    ensures DigitRun(ds + b) == |ds|
    decreases |ds|
  {
    if ds == "" {
      assert ds + b == b;
    } else {
      assert (ds + b)[1..] == ds[1..] + b;
      RunOfDigits(ds[1..], b);
    }
  }

  /** The first number of a text is the value of its first run of digits. */
  lemma {:induction false} FirstNumberIs(a: string, ds: string, b: string)
    requires DigitFree(a) && AllDigits(ds) && (b == "" || !IsDigit(b[0]))
    ensures FirstNumber(a + ds + b) == Some(DigitsValue(ds))
    decreases |a|
  {
    var t := a + ds + b;
    if a == "" {
      assert t == ds + b;
      RunOfDigits(ds, b);
      assert t[..|ds|] == ds;
    } else {
      assert t[0] == a[0] && t[1..] == a[1..] + ds + b;
      FirstNumberIs(a[1..], ds, b);
    }
  }

  lemma {:induction false} NoDigitsNoNumber(t: string)
    requires DigitFree(t)
    ensures FirstNumber(t).None?
  {
    if t != "" { NoDigitsNoNumber(t[1..]); }
  }

  /** The value of a numeral is the number it was printed from, however many zeros are before it. */
  lemma {:induction false} DigitsOfDecimal(zeros: string, n: nat)
    requires forall i | 0 <= i < |zeros| :: zeros[i] == '0'
    ensures DigitsValue(zeros + Clustering.Decimal(n)) == n
    decreases n
  {
    var t := zeros + Clustering.Decimal(n);
    if n < 10 {
      assert t[..|t| - 1] == zeros;
      ZerosAreNothing(zeros);
    } else {
      assert t[..|t| - 1] == zeros + Clustering.Decimal(n / 10);
      DigitsOfDecimal(zeros, n / 10);
    }
  }

  lemma {:induction false} ZerosAreNothing(zeros: string)
    requires forall i | 0 <= i < |zeros| :: zeros[i] == '0'
    ensures DigitsValue(zeros) == 0
  {
    if zeros != "" { ZerosAreNothing(zeros[..|zeros| - 1]); }
  }

  /** A number written anywhere in a text is found, if no digit comes before it and none right after. */
  lemma WrittenNumberIsFound(a: string, n: nat, b: string)
    requires DigitFree(a) && (b == "" || !IsDigit(b[0]))
    ensures FirstNumber(a + Clustering.Decimal(n) + b) == Some(n)
  {
    FirstNumberIs(a, Clustering.Decimal(n), b);
    DigitsOfDecimal("", n);
    assert "" + Clustering.Decimal(n) == Clustering.Decimal(n);
  }

  /** A size is the first run of digits with an "m" or "g" right behind it. */
  lemma {:induction false} FirstSizeIs(a: string, ds: string, mega: bool, b: string)
    requires DigitFree(a) && AllDigits(ds)
    ensures FirstSize(a + ds + (if mega then "m" else "g") + b) == Some(ds + (if mega then "M" else "G"))
    decreases |a|
  {
    var rest := (if mega then "m" else "g") + b;
    var t := a + ds + (if mega then "m" else "g") + b;
    assert t == a + ds + rest;
    if a == "" {
      RunOfDigits(ds, rest);
      assert t == ds + rest;
      assert t[..|ds|] == ds;
    } else {
      assert t[1..] == a[1..] + ds + (if mega then "m" else "g") + b;
      FirstSizeIs(a[1..], ds, mega, b);
    }
  }

  lemma PiecesOfDecimal(ds: string, es: string, b: string)
    ensures var t := ds + ("." + (es + b));
            t[|ds|] == '.' && t[|ds| + 1..] == es + b && t[..|ds| + 1 + |es|] == ds + "." + es
  {
  }

  lemma DecimalHere(t: string, n: nat, m: nat)
    requires 0 < n < |t| && DigitRun(t) == n && t[n] == '.' && DigitRun(t[n + 1..]) == m > 0
    ensures n + 1 + m <= |t| && FirstDecimal(t) == Some(t[..n + 1 + m])
  {
  }

  lemma DecimalAtStart(ds: string, es: string, b: string)
    requires AllDigits(ds) && AllDigits(es) && (b == "" || !IsDigit(b[0]))
    ensures FirstDecimal(ds + ("." + (es + b))) == Some(ds + "." + es)
  {
    PiecesOfDecimal(ds, es, b);
    RunOfDigits(ds, "." + (es + b));
    RunOfDigits(es, b);
    DecimalHere(ds + ("." + (es + b)), |ds|, |es|);
  }

  lemma {:induction false} DecimalIsLater(a: string, u: string)
    requires DigitFree(a)
    ensures FirstDecimal(a + u) == FirstDecimal(u)
    decreases |a|
  {
    if a == "" {
      assert a + u == u;
    } else {
      assert (a + u)[1..] == a[1..] + u;
      DecimalIsLater(a[1..], u);
    }
  }

  /** A decimal fraction is the first run of digits with a point and another run behind it. */
  lemma FirstDecimalIs(a: string, ds: string, es: string, b: string)
    requires DigitFree(a) && AllDigits(ds) && AllDigits(es) && (b == "" || !IsDigit(b[0]))
    ensures FirstDecimal(a + (ds + ("." + (es + b)))) == Some(ds + "." + es)
  {
    DecimalIsLater(a, ds + ("." + (es + b)));
    DecimalAtStart(ds, es, b);
  }

  lemma {:induction false} TicksAfter(name: string, b: string)
    requires forall i | 0 <= i < |name| :: name[i] != '`'
    ensures TickFree(name + "`" + b) == |name|
    decreases |name|
  {
    if name == "" {
      assert (name + "`" + b)[0] == '`';
    } else {
      assert (name + "`" + b)[1..] == name[1..] + "`" + b;
      TicksAfter(name[1..], b);
    }
  }

  lemma TargetIsHere(heading: string, spaces: string, name: string, b: string)
    requires Lower(heading) == "target service:" && AllSpace(spaces)
    requires name != "" && forall i | 0 <= i < |name| :: name[i] != '`'
    ensures TargetHere(heading + (spaces + ("`" + (name + "`" + b)))) == Some(name)
  {
    var rest := "`" + (name + "`" + b);
    var t := heading + (spaces + rest);
    assert |heading| == |Lower(heading)| == 15;
    assert t[..15] == heading;
    assert t[15..] == spaces + rest;
    LStripSpaces(spaces, rest);
    assert rest[1..] == name + "`" + b;
    TicksAfter(name, b);
    assert rest[1..][..|name|] == name;
  }

  lemma {:induction false} TargetIsLater(a: string, heading: string, rest: string)
    requires Lower(heading) == "target service:" && !Contains(Lower(a) + "target service", "target service:")
    ensures NamedTarget(a + (heading + rest)) == NamedTarget(heading + rest)
    decreases |a|
  {
    if a == "" {
      assert a + (heading + rest) == heading + rest;
    } else {
      NotYetTheLabel(a, heading, rest);
      assert a + (heading + rest) == a + heading + rest;
      assert (a + (heading + rest))[1..] == a[1..] + (heading + rest);
      NoLabelInTheRest(a);
      TargetIsLater(a[1..], heading, rest);
    }
  }

  /** The target in backticks after the first heading "Target Service:", in any case and after any
      white space, is the name between the backticks. */
  lemma NamedTargetIs(a: string, heading: string, spaces: string, name: string, b: string)
    requires Lower(heading) == "target service:" && AllSpace(spaces)
    requires name != "" && forall i | 0 <= i < |name| :: name[i] != '`'
    requires !Contains(Lower(a) + "target service", "target service:")
    ensures NamedTarget(a + (heading + (spaces + ("`" + (name + "`" + b))))) == Some(name)
  {
    TargetIsLater(a, heading, spaces + ("`" + (name + "`" + b)));
    TargetIsHere(heading, spaces, name, b);
    NamedHere(heading + (spaces + ("`" + (name + "`" + b))));
  }

  lemma NamedHere(t: string)
    requires TargetHere(t).Some?
    ensures NamedTarget(t) == TargetHere(t)
  {
  }

  lemma NoLabelInTheRest(a: string)
    requires a != "" && !Contains(Lower(a) + "target service", "target service:")
    ensures !Contains(Lower(a[1..]) + "target service", "target service:")
  {
    var s, u := Lower(a) + "target service", Lower(a[1..]) + "target service";
    assert s[1..] == u;
    forall i | 0 <= i <= |u|
      ensures !("target service:" <= u[i..])
    {
      assert s[i + 1..] == u[i..];
    }
  }

  lemma NotYetTheLabel(a: string, heading: string, rest: string)
    requires a != "" && Lower(heading) == "target service:"
    requires !Contains(Lower(a) + "target service", "target service:")
    ensures TargetHere(a + heading + rest).None?
  {
    var t := a + heading + rest;
    var s := Lower(a) + "target service";
    assert |heading| == |Lower(heading)| == 15;
    assert Lower(t[..15]) == s[..15] by {
      forall i | 0 <= i < 15
        ensures LowerChar(t[i]) == s[i]
      {
        if i >= |a| { assert t[i] == heading[i - |a|] && Lower(heading)[i - |a|] == "target service:"[i - |a|]; }
      }
    }
    NotAtTheStart(s, "target service:");
  }

  lemma NotAtTheStart(t: string, word: string)
    requires |word| <= |t| && !Contains(t, word)
    ensures t[..|word|] != word
  {
    assert t[0..] == t;
    assert !(word <= t[0..]);
  }

  /** Without a backtick no target is named. */
  lemma {:induction false} NoTickNoName(t: string)
    requires '`' !in t
    ensures NamedTarget(t).None?
  {
    if t != "" {
      NoTickHere(t);
      NoTickNoName(t[1..]);
    }
  }

  lemma NoTickHere(t: string)
    requires '`' !in t
    ensures TargetHere(t).None?
  {
    if |t| >= |TARGET_LABEL| {
      var rest := LStrip(t[|TARGET_LABEL|..]);
      StripKeepsLetters(t[|TARGET_LABEL|..]);
      assert '`' !in rest;
      assert rest == "" || rest[0] in rest;
    }
  }

  lemma {:induction false} StripKeepsLetters(t: string)
    ensures forall c :: c in LStrip(t) ==> c in t
  {
    if t != "" && IsSpace(t[0]) { StripKeepsLetters(t[1..]); }
  }

  /** A named target is stripped and gets the prefix it lacks; without one it is the first known
      service that the text mentions, and the gateway if there is none. */
  lemma TargetInWords(problem: string)
    ensures NamedTarget(problem).Some? ==>
              var name := Strip(NamedTarget(problem).value);
              TargetOf(problem) == if "shadow-" <= name then name else "shadow-" + name
    ensures NamedTarget(problem).None? ==>
              UnnamedTarget(TargetOf(problem), Lower(problem),
                            ["postgres-db", "redis", "rabbitmq", "api-gateway", "auth-service", "order-service", "payment-service"])
  {
    if NamedTarget(problem).None? {
      TargetIsShadowed(problem);
      ShadowedServiceIs(Lower(problem));
    }
  }

  ghost predicate UnnamedTarget(target: string, t: string, services: seq<string>) {
    && (forall i: nat :: FirstMentioned(t, services, i) ==> target == "shadow-" + services[i])
    && ((forall s :: s in services ==> !Contains(t, s)) ==> target == "shadow-api-gateway")
  }

  lemma TargetIsShadowed(problem: string)
    requires NamedTarget(problem).None?
    ensures TargetOf(problem) == Shadowed(FirstService(Lower(problem), KNOWN_SERVICES))
  {
  }

  lemma ShadowedServiceIs(t: string)
    ensures UnnamedTarget(Shadowed(FirstService(t, KNOWN_SERVICES)), t, KNOWN_SERVICES)
  {
    FirstServiceIs(t, KNOWN_SERVICES);
    KnownIsUnprefixed();
  }

  lemma KnownIsUnprefixed()
    ensures forall i | 0 <= i < |KNOWN_SERVICES| :: !("shadow-" <= KNOWN_SERVICES[i])
    ensures !("shadow-" <= "api-gateway")
  {
    var k := KNOWN_SERVICES;
    assert k[0][1] == 'o' && k[1][1] == 'e' && k[2][1] == 'a' && k[3][1] == 'p' && k[4][1] == 'u';
    assert k[5][1] == 'r' && k[6][1] == 'a';
    assert "shadow-"[1] == 'h';
  }

  predicate FirstMentioned(t: string, services: seq<string>, i: nat) {
    i < |services| && Contains(t, services[i]) && forall j | 0 <= j < i :: !Contains(t, services[j])
  }

  lemma {:induction false} FirstServiceIs(t: string, services: seq<string>)
    ensures forall i: nat :: FirstMentioned(t, services, i) ==> FirstService(t, services) == services[i]
    ensures (forall s :: s in services ==> !Contains(t, s)) ==> FirstService(t, services) == "api-gateway"
  {
    if services != [] {
      FirstServiceIs(t, services[1..]);
      forall i: nat | FirstMentioned(t, services, i)
        ensures FirstService(t, services) == services[i]
      {
        if i > 0 {
          assert !Contains(t, services[0]);
          assert FirstMentioned(t, services[1..], i - 1);
        }
      }
    }
  }

  /** Joining two lists of commands puts one separator between them. */
  lemma {:induction false} JoinedWith(separator: string, a: seq<string>, b: seq<string>)
    requires a != [] && b != []
    ensures JoinWith(separator, a + b) == JoinWith(separator, a) + separator + JoinWith(separator, b)
    decreases |a|
  {
    if |a| == 1 {
      assert (a + b)[1..] == b;
    } else {
      assert (a + b)[1..] == a[1..] + b;
      JoinedWith(separator, a[1..], b);
      assert (a + b)[0] == a[0];
    }
  }

  /** The commands can be joined exactly when each of them is a text. */
  lemma {:induction false} TextsAre(commands: seq<Element>)
    ensures Texts(commands).Some? <==> forall i | 0 <= i < |commands| :: commands[i].Command?
    ensures Texts(commands).Some? ==>
              && |Texts(commands).value| == |commands|
              && forall i | 0 <= i < |commands| :: commands[i].Command? && Texts(commands).value[i] == commands[i].text
  {
    if commands != [] {
      TextsAre(commands[1..]);
      assert commands == [commands[0]] + commands[1..];
    }
  }

  // ----- Which texts lead to which call -----

  predicate NamesSql(c: string) {
    Contains(c, "alter system") || Contains(c, "sql") || Contains(c, "lock_timeout") || Contains(c, "statement_timeout")
    || Contains(c, "wal")
  }

  predicate NamesResource(c: string) {
    Contains(c, "cpu") || Contains(c, "memory limit") || Contains(c, "throttle") || Contains(c, "resources")
    || Contains(c, "limit")
  }

  predicate NamesShell(c: string) {
    Contains(c, "cert") || Contains(c, "iptables") || Contains(c, "route") || Contains(c, "bpf") || Contains(c, "grpc")
    || Contains(c, "storage") || Contains(c, "corruption") || Contains(c, "shell") || Contains(c, "nuclear")
    || Contains(c, "dns")
  }

  lemma SqlWords(c: string)
    ensures MentionsAny(c, SQL_WORDS) <==> NamesSql(c)
  {
    var w := SQL_WORDS;
    assert w[0] == "alter system" && w[1] == "sql" && w[2] == "lock_timeout" && w[3] == "statement_timeout" && w[4] == "wal";
  }

  lemma ResourceWords(c: string)
    ensures MentionsAny(c, RESOURCE_WORDS) <==> NamesResource(c)
  {
    var w := RESOURCE_WORDS;
    assert w[0] == "cpu" && w[1] == "memory limit" && w[2] == "throttle" && w[3] == "resources" && w[4] == "limit";
  }

  lemma ShellWords(c: string)
    ensures MentionsAny(c, SHELL_WORDS) <==> NamesShell(c)
  {
    var w := SHELL_WORDS;
    assert w[0] == "cert" && w[1] == "iptables" && w[2] == "route" && w[3] == "bpf" && w[4] == "grpc";
    assert w[5] == "storage" && w[6] == "corruption" && w[7] == "shell" && w[8] == "nuclear" && w[9] == "dns";
  }

  predicate About(service: string, target: string, c: string) {
    Contains(target, service) || Contains(c, service)
  }

  /** `n` is the first number of the text, or the default when there is none in range. */
  predicate ChosenNumber(n: int, text: string, low: int, high: int, default: int) {
    if FirstNumber(text).Some? && low <= FirstNumber(text).value <= high then FirstNumber(text) == Some(n)
    else n == default
  }

  /** The call for a text that names none of the keywords, in the order in which the cases count. */
  predicate RightCall(call: Call, target: string, text: string, c: string) {
    if About("postgres", target, c) || Contains(text, "connection pool") then
      && call.Query? && call.target == "shadow-postgres-db" && call.statement == Words("alter_system_set")
      && call.setting == Some(Words("max_connections"))
      && call.value.Some? && call.value.value.Number? && ChosenNumber(call.value.value.n, text, 20, 500, 200)
    else if About("redis", target, c) || Contains(text, "eviction") then
      && call.Configure? && call.target == "shadow-redis" && call.key == Some(Words("maxmemory-policy"))
      && call.value == Some(Words(if Contains(c, "allkeys-lru") then "allkeys-lru" else "volatile-lru"))
    else if About("rabbitmq", target, c) || Contains(text, "consumer") then
      && call.Scale? && call.target == "shadow-rabbitmq" && call.operation == Some(Words("scale_consumer_count"))
      && call.value.Some? && call.value.value.Number? && ChosenNumber(call.value.value.n, text, 1, 20, 5)
    else Contains(text, "restart") && call == Restart(target)
  }

  lemma NumberIsChosen(text: string, low: int, high: int, default: int)
    requires low <= default <= high
    ensures ChosenNumber(Bounded(text, low, high, default), text, low, high, default)
  {
  }

  lemma LegacyCallIsRight(target: string, text: string, c: string)
    requires SHADOW <= target
    ensures var p := Legacy(target, text, c); p.Proposal? ==> |CallOf(p)| == 1 && RightCall(CallOf(p)[0], target, text, c)
  {
    NumberIsChosen(text, 20, 500, 200);
    NumberIsChosen(text, 1, 20, 5);
    var n, m := Bounded(text, 20, 500, 200), Bounded(text, 1, 20, 5);
    assert CallOf(PostgresProposal(n))[0].value == Some(Number(n));
    assert CallOf(RabbitmqProposal(m))[0].value == Some(Number(m));
  }

  /** Which call is made: none for a resource or shell topic, else the one for the first service that
      the target, the problem or the commands are about, with the number or policy of the texts. */
  lemma RightCallIsMade(incident: Incident, history: History)
    requires Decide(Some(incident), history).Executed?
    ensures var cs := Texts(incident.commands).GetOr([]);
            var text := Lower(JoinWith(" ", cs));
            var c := Lower(incident.problem + " " + text);
            var calls := CallsOf(Decide(Some(incident), history));
            && cs != [] && !NamesSql(c)
            && if NamesResource(c) || NamesShell(c) then calls == []
               else |calls| == 1 && RightCall(calls[0], TargetOf(incident.problem), text, c)
  {
    var cs := Texts(incident.commands).value;
    var c := CombinedText(incident.problem, cs);
    SqlWords(c);
    ResourceWords(c);
    ShellWords(c);
    LegacyCallIsRight(TargetOf(incident.problem), CommandText(cs), c);
    if cs != [] && MentionsAny(c, SQL_WORDS) { SqlNeverRuns(incident, history); }
  }

  // ----- Which runs get past the gates -----

  /** The guardrail lets the proposal pass and the confidence ratio is high enough. */
  predicate Passes(p: Proposal, history: History) {
    p.Proposal? && VerdictOf(p).Passed? && Confidence(p.tool, p.target, RateOf(history, p.tool)) >= THRESHOLD
  }

  lemma EnoughRate(slow: bool, delicate: bool, rate: real)
    ensures Penalised(slow, delicate, rate) >= 0.695
            <==> rate >= if slow && delicate then 139.0 / 150.0
                         else if slow then 139.0 / 180.0
                         else if delicate then 139.0 / 170.0
                         else 139.0 / 200.0
  {
  }

  lemma PostgresGates(n: int, history: History)
    requires 20 <= n <= 500
    ensures Passes(PostgresProposal(n), history) <==> RateOf(history, RunQuery) >= 139.0 / 150.0
  {
    PostgresPasses(n);
    PostgresNeedsHistory(RateOf(history, RunQuery));
  }

  lemma RedisIsDelicate()
    ensures Delicate(REDIS)
  {
    RedisName();
    RedisIsLower();
    assert Contains(Lower(REDIS), "redis");
  }

  lemma RedisIsLower()
    ensures Lower(REDIS) == REDIS
  {
    LowerStays(REDIS);
  }

  lemma RabbitmqIsNotDelicate()
    ensures !Delicate(RABBITMQ)
  {
    RabbitmqIsNoOther();
    LowerStays(RABBITMQ);
  }

  lemma RedisGates(policy: string, history: History)
    requires policy in {"volatile-lru", "allkeys-lru"}
    ensures Passes(RedisProposal(policy), history) <==> RateOf(history, RunConfigCommand) >= 139.0 / 170.0
  {
    RedisPasses(policy);
    RedisIsDelicate();
    ConfidentIff(RunConfigCommand, REDIS, RateOf(history, RunConfigCommand));
    EnoughRate(false, true, RateOf(history, RunConfigCommand));
  }

  lemma RabbitmqGates(n: int, history: History)
    requires 1 <= n <= 20
    ensures Passes(RabbitmqProposal(n), history) <==> RateOf(history, ScaleReplicas) >= 139.0 / 200.0
  {
    RabbitmqPasses(n);
    RabbitmqIsNotDelicate();
    ConfidentIff(ScaleReplicas, RABBITMQ, RateOf(history, ScaleReplicas));
    EnoughRate(false, false, RateOf(history, ScaleReplicas));
  }

  /** The least rate for a tool that is not slow. */
  function LeastRate(target: string): real {
    if Delicate(target) then 139.0 / 170.0 else 139.0 / 200.0
  }

  lemma QuickGate(tool: Tool, target: string, rate: real)
    requires !Slow(tool)
    ensures Confidence(tool, target, rate) >= THRESHOLD <==> rate >= LeastRate(target)
  {
    ConfidentIff(tool, target, rate);
    EnoughRate(false, Delicate(target), rate);
  }

  lemma RestartGates(target: string, history: History)
    requires SHADOW <= target && Plain(target)
    ensures Passes(RestartProposal(target), history) <==> RateOf(history, RestartService) >= LeastRate(target)
  {
    var p := RestartProposal(target);
    GuardrailIsAllowlist(p.tool, p.target, p.parameters);
    QuickGate(RestartService, target, RateOf(history, RestartService));
  }

  lemma UniversalGates(target: string, text: string, c: string, cs: seq<string>, history: History)
    requires SHADOW <= target
    ensures Passes(ResourceProposal(target, text, c), history)
            <==> Plain(target) && RateOf(history, UpdateContainerResources) >= LeastRate(target)
    ensures Passes(ShellProposal(target, cs), history)
            <==> Plain(target) && RateOf(history, ExecuteShellCommand) >= LeastRate(target)
  {
    UniversalVerdict(target, text, c, cs);
    QuickGate(UpdateContainerResources, target, RateOf(history, UpdateContainerResources));
    QuickGate(ExecuteShellCommand, target, RateOf(history, ExecuteShellCommand));
  }

  /** What a proposal without a keyword needs in order to run. */
  predicate TypedRuns(target: string, text: string, c: string, history: History) {
    if About("postgres", target, c) || Contains(text, "connection pool") then RateOf(history, RunQuery) >= 139.0 / 150.0
    else if About("redis", target, c) || Contains(text, "eviction") then RateOf(history, RunConfigCommand) >= 139.0 / 170.0
    else if About("rabbitmq", target, c) || Contains(text, "consumer") then RateOf(history, ScaleReplicas) >= 139.0 / 200.0
    else Contains(text, "restart") && RateOf(history, RestartService) >= LeastRate(target)
  }

  lemma LegacyGates(target: string, text: string, c: string, history: History)
    requires SHADOW <= target
    ensures Passes(Legacy(target, text, c), history) <==> TypedRuns(target, text, c, history)
  {
    if About("postgres", target, c) || Contains(text, "connection pool") {
      PostgresGates(Bounded(text, 20, 500, 200), history);
    } else if About("redis", target, c) || Contains(text, "eviction") {
      RedisGates(if Contains(c, "allkeys-lru") then "allkeys-lru" else "volatile-lru", history);
    } else if About("rabbitmq", target, c) || Contains(text, "consumer") {
      RabbitmqGates(Bounded(text, 1, 20, 5), history);
    } else if Contains(text, "restart") {
      RestartGates(target, history);
    }
  }

  /** What a topic needs in order to be reported as executed: nothing on SQL runs, a resource or shell
      topic needs a target that is not guarded. */
  predicate TopicRuns(target: string, text: string, c: string, history: History) {
    && !NamesSql(c)
    && if NamesResource(c) then Plain(target) && RateOf(history, UpdateContainerResources) >= LeastRate(target)
       else if NamesShell(c) then Plain(target) && RateOf(history, ExecuteShellCommand) >= LeastRate(target)
       else TypedRuns(target, text, c, history)
  }

  lemma ProposalGates(problem: string, cs: seq<string>, history: History)
    ensures Passes(ProposeAction(problem, cs), history)
            <==> cs != [] && TopicRuns(TargetOf(problem), CommandText(cs), CombinedText(problem, cs), history)
  {
    var target, text, c := TargetOf(problem), CommandText(cs), CombinedText(problem, cs);
    SqlWords(c);
    ResourceWords(c);
    ShellWords(c);
    SqlIsRejected(cs);
    UniversalGates(target, text, c, cs, history);
    LegacyGates(target, text, c, history);
  }

  /** Exactly which incidents get past every gate: no safety violation, commands that are texts, and a
      topic that the history of its tool allows. */
  lemma ExecutedIff(incident: Incident, history: History)
    ensures var cs := Texts(incident.commands).GetOr([]);
            var text := Lower(JoinWith(" ", cs));
            Decide(Some(incident), history).Executed? <==>
              && !incident.violation && incident.commands != []
              && (forall i | 0 <= i < |incident.commands| :: incident.commands[i].Command?)
              && TopicRuns(TargetOf(incident.problem), text, Lower(incident.problem + " " + text), history)
  {
    TextsAre(incident.commands);
    if Texts(incident.commands).Some? {
      ProposalGates(incident.problem, Texts(incident.commands).value, history);
    }
  }

  /** The older mappings know the text. */
  predicate IsMapped(target: string, text: string, c: string) {
    About("postgres", target, c) || About("redis", target, c) || About("rabbitmq", target, c)
    || Contains(text, "connection pool") || Contains(text, "eviction") || Contains(text, "consumer") || Contains(text, "restart")
  }

  lemma MappedIff(problem: string, cs: seq<string>)
    ensures var target, text, c := TargetOf(problem), CommandText(cs), CombinedText(problem, cs);
            ProposeAction(problem, cs).Proposal?
            <==> cs != [] && (NamesSql(c) || NamesResource(c) || NamesShell(c) || IsMapped(target, text, c))
  {
    var c := CombinedText(problem, cs);
    SqlWords(c);
    ResourceWords(c);
    ShellWords(c);
  }

  lemma RejectedIff(problem: string, cs: seq<string>)
    requires ProposeAction(problem, cs).Proposal?
    ensures var c := CombinedText(problem, cs);
            VerdictOf(ProposeAction(problem, cs)).Passed?
            <==> !NamesSql(c) && (NamesResource(c) || NamesShell(c) ==> Plain(TargetOf(problem)))
  {
    var target, text, c := TargetOf(problem), CommandText(cs), CombinedText(problem, cs);
    SqlWords(c);
    ResourceWords(c);
    ShellWords(c);
    if cs != [] && MentionsAny(c, SQL_WORDS) {
      SqlIsRejected(cs);
    } else if NamesResource(c) || NamesShell(c) {
      UniversalVerdict(target, text, c, cs);
    } else {
      LegacyIsTyped(target, text, c);
      TypedPasses(Legacy(target, text, c));
    }
  }

  /** Which gate stops a run: a violation whatever else the incident says; then a failure over a command
      that is no text; then texts that nothing maps; then, of the guardrail, SQL and a guarded target for
      a resource or shell topic, and nothing else; the confidence stops the rest. */
  lemma StoppedBy(incident: Incident, history: History)
    ensures var d := Decide(Some(incident), history);
            var cs := Texts(incident.commands).GetOr([]);
            var target, text := TargetOf(incident.problem), Lower(JoinWith(" ", cs));
            var c := Lower(incident.problem + " " + text);
            if incident.violation then d == BlockedSafetyViolation
            else if exists i :: 0 <= i < |incident.commands| && incident.commands[i].NotText? then d == Failed
            else if cs == [] || !(NamesSql(c) || NamesResource(c) || NamesShell(c) || IsMapped(target, text, c)) then
              d == BlockedUnmapped
            else if NamesSql(c) || ((NamesResource(c) || NamesShell(c)) && !Plain(target)) then d.BlockedGuardrail?
            else d.BlockedLowConfidence? || d.Executed?
  {
    TextsAre(incident.commands);
    if Texts(incident.commands).Some? {
      var cs := Texts(incident.commands).value;
      MappedIff(incident.problem, cs);
      if ProposeAction(incident.problem, cs).Proposal? { RejectedIff(incident.problem, cs); }
    }
  }

  // ----- The success rate -----

  /** Of the events of a tool, the first usable rate counts. */
  lemma {:induction false} FirstUsableRateCounts(a: seq<Event>, e: Event, b: seq<Event>, tool: Tool)
    requires forall x :: x in a && tool in x.names ==> !x.rate.Usable?
    requires tool in e.names && e.rate.Usable?
    ensures RateOf(Events(a + [e] + b), tool) == e.rate.rate
  {
    RateAfter(a, e, b, tool);
  }

  lemma FirstRateSkips(events: seq<Event>, tool: Tool)
    requires events != [] && (tool in events[0].names ==> !events[0].rate.Usable?)
    ensures FirstRate(Matching(events, tool)) == FirstRate(Matching(events[1..], tool))
  {
    var rest := Matching(events[1..], tool);
    assert [events[0]] + rest != [] && ([events[0]] + rest)[1..] == rest;
    assert Matching(events, tool) == rest || Matching(events, tool) == [events[0]] + rest;
    if !(tool in events[0].names) { assert [] + rest == rest; }
  }

  lemma {:induction false} RateAfter(a: seq<Event>, e: Event, b: seq<Event>, tool: Tool)
    requires forall x :: x in a && tool in x.names ==> !x.rate.Usable?
    requires tool in e.names && e.rate.Usable?
    ensures var m := Matching(a + [e] + b, tool); m != [] && FirstRate(m) == Some(e.rate.rate)
    decreases |a|
  {
    var t := a + [e] + b;
    if a == [] {
      assert t[0] == e && t[1..] == b;
    } else {
      assert t[0] == a[0] && t[1..] == a[1..] + [e] + b;
      RateAfter(a[1..], e, b, tool);
      FirstRateSkips(t, tool);
      assert a[0] in a;
    }
  }

  function PlacesOf(events: seq<Event>, tool: Tool): set<int> {
    set i | 0 <= i < |events| && tool in events[i].names
  }

  function SuccessPlaces(events: seq<Event>, tool: Tool): set<int> {
    set i | 0 <= i < |events| && tool in events[i].names && events[i].success
  }

  lemma {:induction false} MatchingGrows(events: seq<Event>, e: Event, tool: Tool)
    ensures Matching(events + [e], tool) == Matching(events, tool) + (if tool in e.names then [e] else [])
  {
    if events == [] {
      assert [] + [e] == [e] && [e][1..] == [];
    } else {
      MatchingGrows(events[1..], e, tool);
      assert (events + [e])[1..] == events[1..] + [e];
    }
  }

  lemma {:induction false} SuccessesGrow(events: seq<Event>, e: Event)
    ensures Successes(events + [e]) == Successes(events) + (if e.success then 1 else 0)
  {
    if events == [] {
      assert [] + [e] == [e] && [e][1..] == [];
    } else {
      SuccessesGrow(events[1..], e);
      assert (events + [e])[1..] == events[1..] + [e];
    }
  }

  lemma {:induction false} MatchesAreCounted(events: seq<Event>, tool: Tool)
    ensures |Matching(events, tool)| == |PlacesOf(events, tool)|
    ensures Successes(Matching(events, tool)) == |SuccessPlaces(events, tool)|
  {
    if events != [] {
      var n := |events| - 1;
      var e := events[n];
      MatchesAreCounted(events[..n], tool);
      assert events == events[..n] + [e];
      MatchingGrows(events[..n], e, tool);
      OneMoreIn(PlacesOf(events, tool), PlacesOf(events[..n], tool), n, tool in e.names);
      OneMoreSuccess(events, tool);
      if tool in e.names {
        SuccessesGrow(Matching(events[..n], tool), e);
      } else {
        assert Matching(events, tool) == Matching(events[..n], tool);
      }
    }
  }

  lemma OneMoreSuccess(events: seq<Event>, tool: Tool)
    requires events != []
    ensures var n := |events| - 1;
            |SuccessPlaces(events, tool)|
            == |SuccessPlaces(events[..n], tool)| + (if tool in events[n].names && events[n].success then 1 else 0)
  {
    var n := |events| - 1;
    OneMoreIn(SuccessPlaces(events, tool), SuccessPlaces(events[..n], tool), n, tool in events[n].names && events[n].success);
  }

  lemma {:induction false} NoUsableRate(events: seq<Event>)
    requires forall x :: x in events ==> !x.rate.Usable?
    ensures FirstRate(events).None?
  {
    if events != [] { NoUsableRate(events[1..]); }
  }

  lemma {:induction false} MatchingAre(events: seq<Event>, tool: Tool)
    ensures forall x :: x in Matching(events, tool) ==> x in events && tool in x.names
  {
    if events != [] { MatchingAre(events[1..], tool); }
  }

  /** Without a usable rate, the rate is the share of the tool's events that succeeded, and 85% if it
      has none. */
  lemma CountedRate(events: seq<Event>, tool: Tool)
    requires forall x :: x in events && tool in x.names ==> !x.rate.Usable?
    ensures var n := |PlacesOf(events, tool)|;
            if n == 0 then RateOf(Events(events), tool) == 0.85
            else RateOf(Events(events), tool) == |SuccessPlaces(events, tool)| as real / n as real
  {
    MatchingAre(events, tool);
    NoUsableRate(Matching(events, tool));
    MatchesAreCounted(events, tool);
  }

  // ----- The report -----

  /** The reported ratio is the nearest hundredth to the penalised rate, which lies in 0..1. */
  lemma RatioIsNearest(tool: Tool, target: string, rate: real)
    requires 0.0 <= rate <= 1.0
    ensures var x, r := Penalised(Slow(tool), Delicate(target), rate), Confidence(tool, target, rate);
            && (r * 100.0).Floor as real == r * 100.0
            && x * 100.0 - 0.5 <= r * 100.0 <= x * 100.0 + 0.5
            && 0.0 <= r <= 1.0
  {
    var x := Penalised(Slow(tool), Delicate(target), rate);
    assert 0.0 <= x <= 1.0;
    NearestHundredth(x);
  }

  lemma NearestHundredth(x: real)
    requires 0.0 <= x <= 1.0
    ensures var r := Rounded(x);
            && (r * 100.0).Floor as real == r * 100.0
            && x * 100.0 - 0.5 <= r * 100.0 <= x * 100.0 + 0.5
            && 0.0 <= r <= 1.0
  {
  }

  /** When the report of an executed run says that the fault is cleared: Postgres, exactly when more
      than 100 connections are allowed afterwards; Redis, under either policy; RabbitMQ, always; any
      other container, when it runs. */
  lemma ClearedIff(incident: Incident, history: History, world: Containers)
    requires ReportOf(Decide(Some(incident), history), world).Executed?
    ensures var r := ReportOf(Decide(Some(incident), history), world);
            && r.proposal == Decide(Some(incident), history).proposal
            && (r.faultCleared <==>
                 if r.proposal.target == "shadow-postgres-db" then
                   world.after.maxConnections.Some? && world.after.maxConnections.value > 100
                 else if r.proposal.target == "shadow-redis" then
                   world.after.policy == "volatile-lru" || world.after.policy == "allkeys-lru"
                 else r.proposal.target == "shadow-rabbitmq" || world.after.running)
  {
  }

  /** A change of Postgres to at most 100 connections is carried out and never reported as cleared. */
  lemma SmallPoolsAreNotCleared(incident: Incident, history: History, world: Containers, n: int)
    requires ReportOf(Decide(Some(incident), history), world).Executed?
    requires world.after.maxConnections == Some(n)
    requires exists call :: call in CallsOf(Decide(Some(incident), history)) && call.Query? && call.value == Some(Number(n))
    ensures 20 <= n <= 500
    ensures ReportOf(Decide(Some(incident), history), world).faultCleared <==> n > 100
  {
    EveryCallIsBounded(Some(incident), history);
  }
}
