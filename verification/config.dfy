/** faraday.yaml as internal/config/defaults.go completes it and internal/config/load.go checks it. */
module Config {
  import opened Options

  datatype Resources = Resources(accelerators: string, cpus: int, memory: string, disk: string)
  datatype Target = Target(kind: string, infra: string, resources: Resources, spot: bool, idleTeardownMinutes: int)
  datatype Serve = Serve(port: int, endpoint: string, extraArgs: seq<string>)
  datatype Model = Model(source: string, backend: string, quantization: string, maxModelLen: int,
                         tensorParallelSize: int, serve: Serve)
  datatype RouteBackend = RouteBackend(model: string, weight: int)
  datatype Route = Route(strategy: string, backends: seq<RouteBackend>)
  datatype Agent = Agent(
    model: string, system: string, orchestration: string, tools: seq<string>,
    maxSteps: int, maxRepairIterations: int, timeoutSecs: int)
  datatype ToolDef = ToolDef(name: string, runtime: string, transport: string, command: seq<string>, root: string)
  datatype Limits = Limits(cpus: int, memory: string, pids: int, timeoutSecs: int)
  datatype Sandbox = Sandbox(runtime: string, poolSize: int, image: string, network: string, limits: Limits,
                             highIsolation: bool)
  datatype Suite = Suite(
    name: string, kind: string, dataset: string, k: int, nSamples: int, judge: string, rubric: string,
    checks: seq<string>, threshold: map<string, real>)
  datatype Telemetry = Telemetry(
    enabled: Option<bool>, sink: string, filePath: string, sampling: string, captureContent: bool,
    retentionDays: int, semconv: string)

  /** The sections that have defaults or checks. */
  datatype Settings = Settings(
    version: string, name: string, target: Target, models: map<string, Model>, routing: map<string, Route>,
    agents: map<string, Agent>, tools: seq<ToolDef>, sandbox: Sandbox, suites: seq<Suite>, telemetry: Telemetry)

  const CURRENT_VERSION := "faraday/v1"
  const DEFAULT_MODEL_NAME := "coder"

  // ---------------------------------------------------------------- defaults

  function OrText(s: string, default: string): string {
    if s == "" then default else s
  }

  function OrNumber(n: int, default: int): int {
    if n == 0 then default else n
  }

  function DefaultModel(): Model {
    Model("qwen2.5-coder-32b", "", "", 0, 0, Serve(0, "", []))
  }

  function CompletedAgent(a: Agent): Agent {
    Agent(OrText(a.model, DEFAULT_MODEL_NAME), a.system, OrText(a.orchestration, "plan_execute_repair"),
          if a.tools == [] then ["code_exec"] else a.tools,
          OrNumber(a.maxSteps, 12), OrNumber(a.maxRepairIterations, 4), OrNumber(a.timeoutSecs, 600))
  }

  function CompletedSandbox(s: Sandbox): Sandbox {
    Sandbox(OrText(s.runtime, "auto"), OrNumber(s.poolSize, 2), s.image, OrText(s.network, "none"),
            Limits(OrNumber(s.limits.cpus, 2), OrText(s.limits.memory, "4GB"), OrNumber(s.limits.pids, 256),
                   OrNumber(s.limits.timeoutSecs, 120)),
            s.highIsolation)
  }

  function CompletedTelemetry(t: Telemetry): Telemetry {
    t.(sink := OrText(t.sink, "both"), sampling := OrText(t.sampling, "always_on"),
       semconv := OrText(t.semconv, "gen_ai_latest_experimental"), retentionDays := OrNumber(t.retentionDays, 90))
  }

  function CompletedSuite(s: Suite): Suite {
    var k := OrNumber(s.k, 1);
    s.(k := k, nSamples := if s.kind == "code_passk" then OrNumber(s.nSamples, k) else s.nSamples)
  }

  function CompletedAgents(agents: map<string, Agent>): map<string, Agent> {
    map name <- agents :: CompletedAgent(agents[name])
  }

  function CompletedSuites(suites: seq<Suite>): seq<Suite> {
    seq(|suites|, i requires 0 <= i < |suites| => CompletedSuite(suites[i]))
  }

  function CompletedModels(models: map<string, Model>): map<string, Model> {
    if models == map[] then map[DEFAULT_MODEL_NAME := DefaultModel()] else models
  }

  function CompletedTools(tools: seq<ToolDef>): seq<ToolDef> {
    if tools == [] then [ToolDef("code_exec", "", "", [], "")] else tools
  }

  function Completed(c: Settings): Settings {
    c.(version := OrText(c.version, CURRENT_VERSION),
       target := c.target.(kind := OrText(c.target.kind, "local")),
       models := CompletedModels(c.models),
       agents := CompletedAgents(c.agents),
       tools := CompletedTools(c.tools),
       sandbox := CompletedSandbox(c.sandbox),
       suites := CompletedSuites(c.suites),
       telemetry := CompletedTelemetry(c.telemetry))
  }

  // ---------------------------------------------------------------- violations

  datatype Violation =
    | Version | TargetKind | Network | Runtime
    | AgentModel(agent: string)
    | SuiteName(i: nat) | SuiteKind(i: nat) | SuiteJudge(i: nat)
    | BackendModel(route: string, j: nat)

  predicate Broken(c: Settings, v: Violation) {
    match v
    case Version => c.version != CURRENT_VERSION
    case TargetKind => c.target.kind !in ["local", "cloud", "airgap"]
    case Network => c.sandbox.network !in ["none", "host-deny"]
    case Runtime => c.sandbox.runtime !in ["auto", "gvisor", "firecracker", "libkrun", "local"]
    case AgentModel(name) => name in c.agents && c.agents[name].model !in c.models && c.agents[name].model !in c.routing
    case SuiteName(i) => i < |c.suites| && c.suites[i].name == ""
    case SuiteKind(i) => i < |c.suites| && c.suites[i].kind !in ["code_passk", "deterministic", "judge", "regression"]
    case SuiteJudge(i) => i < |c.suites| && c.suites[i].kind == "judge" && c.suites[i].judge == ""
    case BackendModel(name, j) =>
      name in c.routing && j < |c.routing[name].backends| && c.routing[name].backends[j].model !in c.models
  }

  /** The order in which the sections and the suites are checked. */
  function Rank(c: Settings, v: Violation): int {
    match v
    case Version => 0
    case TargetKind => 1
    case Network => 2
    case Runtime => 3
    case AgentModel(_) => 4
    case SuiteName(i) => 5 + 3 * i
    case SuiteKind(i) => 6 + 3 * i
    case SuiteJudge(i) => 7 + 3 * i
    case BackendModel(_, _) => 8 + 3 * |c.suites|
  }

  ghost predicate Sound(c: Settings) {
    forall v :: !Broken(c, v)
  }

  ghost predicate NoneBelow(c: Settings, rank: int) {
    forall v :: Rank(c, v) < rank ==> !Broken(c, v)
  }

  /** The rules one by one. */
  lemma SoundIff(c: Settings)
    ensures Sound(c) <==>
      && c.version == "faraday/v1" && c.target.kind in ["local", "cloud", "airgap"]
      && c.sandbox.network in ["none", "host-deny"]
      && c.sandbox.runtime in ["auto", "gvisor", "firecracker", "libkrun", "local"]
      && (forall name <- c.agents :: c.agents[name].model in c.models || c.agents[name].model in c.routing)
      && (forall s <- c.suites ::
            && s.name != "" && s.kind in ["code_passk", "deterministic", "judge", "regression"]
            && (s.kind == "judge" ==> s.judge != ""))
      && (forall name <- c.routing, b <- c.routing[name].backends :: b.model in c.models)
  {
    if Sound(c) {
      assert !Broken(c, Version) && !Broken(c, TargetKind) && !Broken(c, Network) && !Broken(c, Runtime);
      forall name <- c.agents ensures c.agents[name].model in c.models || c.agents[name].model in c.routing {
        assert !Broken(c, AgentModel(name));
      }
      forall s <- c.suites
        ensures s.name != "" && s.kind in ["code_passk", "deterministic", "judge", "regression"]
        ensures s.kind == "judge" ==> s.judge != ""
      {
        var i :| 0 <= i < |c.suites| && c.suites[i] == s;
        assert !Broken(c, SuiteName(i)) && !Broken(c, SuiteKind(i)) && !Broken(c, SuiteJudge(i));
      }
      forall name <- c.routing, b <- c.routing[name].backends ensures b.model in c.models {
        var j :| 0 <= j < |c.routing[name].backends| && c.routing[name].backends[j] == b;
        assert !Broken(c, BackendModel(name, j));
      }
    }
  }

  class Config {
    var version: string
    var name: string
    var target: Target
    var models: map<string, Model>
    var routing: map<string, Route>
    var agents: map<string, Agent>
    var tools: seq<ToolDef>
    var sandbox: Sandbox
    var suites: seq<Suite>
    var telemetry: Telemetry

    ghost function Value(): Settings
      reads this
    {
      Settings(version, name, target, models, routing, agents, tools, sandbox, suites, telemetry)
    }

    constructor (c: Settings)
      ensures Value() == c
    {
      version, name, target, models, routing := c.version, c.name, c.target, c.models, c.routing;
      agents, tools, sandbox, suites, telemetry := c.agents, c.tools, c.sandbox, c.suites, c.telemetry;
    }

    method ApplyDefaults()
      modifies this
      ensures Value() == Completed(old(Value()))
    {
      CompleteHead();
      CompleteAgents();
      CompleteSandbox();
      CompleteTelemetry();
      CompleteSuites();
    }

    method CompleteHead()
      modifies this`version, this`target, this`models, this`tools
      ensures version == OrText(old(version), CURRENT_VERSION)
      ensures target == old(target).(kind := OrText(old(target.kind), "local"))
      ensures models == CompletedModels(old(models)) && tools == CompletedTools(old(tools))
    {
      if version == "" { version := CURRENT_VERSION; }
      if target.kind == "" { target := target.(kind := "local"); }
      if |models| == 0 { models := map[DEFAULT_MODEL_NAME := DefaultModel()]; }
      if |tools| == 0 { tools := [ToolDef("code_exec", "", "", [], "")]; }
    }

    method CompleteAgents()
      modifies this`agents
      ensures agents == CompletedAgents(old(agents))
    {
      var rest := agents.Keys;
      while rest != {}
        invariant agents.Keys == old(agents).Keys && rest <= agents.Keys
        invariant forall name <- agents ::
          agents[name] == if name in rest then old(agents)[name] else CompletedAgent(old(agents)[name])
        decreases rest
      {
        var name :| name in rest;
        rest := rest - {name};
        var a := CompleteAgent(agents[name]);
        agents := agents[name := a];
      }
    }

    method CompleteAgent(agent: Agent) returns (a: Agent)
      ensures a == CompletedAgent(agent)
    {
      a := agent;
      if a.model == "" { a := a.(model := DEFAULT_MODEL_NAME); }
      if a.orchestration == "" { a := a.(orchestration := "plan_execute_repair"); }
      if |a.tools| == 0 { a := a.(tools := ["code_exec"]); }
      if a.maxSteps == 0 { a := a.(maxSteps := 12); }
      if a.maxRepairIterations == 0 { a := a.(maxRepairIterations := 4); }
      if a.timeoutSecs == 0 { a := a.(timeoutSecs := 600); }
    }

    method CompleteSandbox()
      modifies this`sandbox
      ensures sandbox == CompletedSandbox(old(sandbox))
    {
      var s := sandbox;
      if s.runtime == "" { s := s.(runtime := "auto"); }
      if s.network == "" { s := s.(network := "none"); }
      if s.poolSize == 0 { s := s.(poolSize := 2); }
      if s.limits.timeoutSecs == 0 { s := s.(limits := s.limits.(timeoutSecs := 120)); }
      if s.limits.cpus == 0 { s := s.(limits := s.limits.(cpus := 2)); }
      if s.limits.memory == "" { s := s.(limits := s.limits.(memory := "4GB")); }
      if s.limits.pids == 0 { s := s.(limits := s.limits.(pids := 256)); }
      sandbox := s;
    }

    method CompleteTelemetry()
      modifies this`telemetry
      ensures telemetry == CompletedTelemetry(old(telemetry))
    {
      if telemetry.sink == "" { telemetry := telemetry.(sink := "both"); }
      if telemetry.sampling == "" { telemetry := telemetry.(sampling := "always_on"); }
      if telemetry.semconv == "" { telemetry := telemetry.(semconv := "gen_ai_latest_experimental"); }
      if telemetry.retentionDays == 0 { telemetry := telemetry.(retentionDays := 90); }
    }

    method CompleteSuites()
      modifies this`suites
      ensures suites == CompletedSuites(old(suites))
    {
      for i := 0 to |suites|
        invariant |suites| == |old(suites)|
        invariant forall j :: 0 <= j < |suites| ==>
          suites[j] == if j < i then CompletedSuite(old(suites)[j]) else old(suites)[j]
      {
        if suites[i].k == 0 { suites := suites[i := suites[i].(k := 1)]; }
        if suites[i].kind == "code_passk" && suites[i].nSamples == 0 {
          suites := suites[i := suites[i].(nSamples := suites[i].k)];
        }
      }
    }

    /** The first violation in the order of the checks; among agents, and among routes, any may come first. */
    method Validate() returns (err: Option<Violation>)
      ensures err == None <==> Sound(Value())
      ensures err.Some? ==> Broken(Value(), err.value) && NoneBelow(Value(), Rank(Value(), err.value))
    {
      if version != CURRENT_VERSION {
        assert Broken(Value(), Version);
        return Some(Version);
      }
      if target.kind !in ["local", "cloud", "airgap"] {
        assert Broken(Value(), TargetKind);
        return Some(TargetKind);
      }
      if sandbox.network !in ["none", "host-deny"] {
        assert Broken(Value(), Network);
        return Some(Network);
      }
      if sandbox.runtime !in ["auto", "gvisor", "firecracker", "libkrun", "local"] {
        assert Broken(Value(), Runtime);
        return Some(Runtime);
      }
      err := CheckAgents();
      if err.Some? { return; }
      err := CheckSuites();
      if err.Some? { return; }
      err := CheckRoutes();
    }

    method CheckAgents() returns (err: Option<Violation>)
      requires NoneBelow(Value(), 4)
      ensures err == None ==> NoneBelow(Value(), 5)
      ensures err.Some? ==> Rank(Value(), err.value) == 4 && Broken(Value(), err.value)
    {
      var rest := agents.Keys;
      while rest != {}
        invariant rest <= agents.Keys && forall name <- agents :: name in rest || !Broken(Value(), AgentModel(name))
        decreases rest
      {
        var name :| name in rest;
        rest := rest - {name};
        if agents[name].model !in models && agents[name].model !in routing { return Some(AgentModel(name)); }
      }
      err := None;
    }

    method CheckSuites() returns (err: Option<Violation>)
      requires NoneBelow(Value(), 5)
      ensures err == None ==> NoneBelow(Value(), 5 + 3 * |suites|)
      ensures err.Some? ==> Broken(Value(), err.value) && NoneBelow(Value(), Rank(Value(), err.value))
    {
      for i := 0 to |suites|
        invariant NoneBelow(Value(), 5 + 3 * i)
      {
        var s := suites[i];
        if s.name == "" { return Some(SuiteName(i)); }
        if s.kind !in ["code_passk", "deterministic", "judge", "regression"] { return Some(SuiteKind(i)); }
        if s.kind == "judge" && s.judge == "" { return Some(SuiteJudge(i)); }
      }
      err := None;
    }

    method CheckRoutes() returns (err: Option<Violation>)
      requires NoneBelow(Value(), 5 + 3 * |suites|)
      ensures err == None ==> Sound(Value())
      ensures err.Some? ==> Broken(Value(), err.value) && Rank(Value(), err.value) == 8 + 3 * |suites|
    {
      var rest := routing.Keys;
      while rest != {}
        invariant rest <= routing.Keys
        invariant forall name <- routing :: name in rest || forall j: nat :: !Broken(Value(), BackendModel(name, j))
        decreases rest
      {
        var name :| name in rest;
        rest := rest - {name};
        var backends := routing[name].backends;
        for j := 0 to |backends|
          invariant forall i: nat :: i < j ==> !Broken(Value(), BackendModel(name, i))
        {
          if backends[j].model !in models { return Some(BackendModel(name, j)); }
        }
      }
      err := None;
    }
  }

  // ---------------------------------------------------------------- what the defaults promise

  predicate FilledAgent(a: Agent) {
    && a.model != "" && a.orchestration != "" && a.tools != []
    && a.maxSteps != 0 && a.maxRepairIterations != 0 && a.timeoutSecs != 0
  }

  /** Nothing that has a default is left out. */
  ghost predicate Complete(c: Settings) {
    && c.version != "" && c.target.kind != "" && c.models != map[] && c.tools != []
    && (forall name <- c.agents :: FilledAgent(c.agents[name]))
    && c.sandbox.runtime != "" && c.sandbox.poolSize != 0 && c.sandbox.network != ""
    && c.sandbox.limits.cpus != 0 && c.sandbox.limits.memory != "" && c.sandbox.limits.pids != 0
    && c.sandbox.limits.timeoutSecs != 0
    && (forall s <- c.suites :: s.k != 0 && (s.kind == "code_passk" ==> s.nSamples != 0))
    && c.telemetry.sink != "" && c.telemetry.sampling != "" && c.telemetry.semconv != ""
    && c.telemetry.retentionDays != 0
  }

  lemma CompletedIsComplete(c: Settings)
    ensures Complete(Completed(c))
  {
    assert c.models == map[] ==> DEFAULT_MODEL_NAME in CompletedModels(c.models);
    forall s | s in CompletedSuites(c.suites) ensures s.k != 0 && (s.kind == "code_passk" ==> s.nSamples != 0) {
      var i :| 0 <= i < |c.suites| && CompletedSuites(c.suites)[i] == s;
      assert s == CompletedSuite(c.suites[i]);
    }
    forall name | name in CompletedAgents(c.agents) ensures FilledAgent(CompletedAgents(c.agents)[name]) { }
  }

  /** The defaults change a configuration exactly when it leaves something out. */
  lemma UnchangedIffComplete(c: Settings)
    ensures Completed(c) == c <==> Complete(c)
  {
    CompletedIsComplete(c);
  }

  // The defaults by their values.

  lemma HeadDefaults(c: Settings)
    ensures var d := Completed(c);
      && d.version == (if c.version == "" then "faraday/v1" else c.version)
      && d.target.kind == (if c.target.kind == "" then "local" else c.target.kind)
      && d.target.(kind := c.target.kind) == c.target
      && d.models == (if c.models == map[]
                      then map["coder" := Model("qwen2.5-coder-32b", "", "", 0, 0, Serve(0, "", []))] else c.models)
      && d.tools == (if c.tools == [] then [ToolDef("code_exec", "", "", [], "")] else c.tools)
      && d.name == c.name && d.routing == c.routing
  {
  }

  lemma AgentDefaults(c: Settings, name: string)
    requires name in c.agents
    ensures Completed(c).agents.Keys == c.agents.Keys
    ensures var a, d := c.agents[name], Completed(c).agents[name];
      && d.model == (if a.model == "" then "coder" else a.model)
      && d.orchestration == (if a.orchestration == "" then "plan_execute_repair" else a.orchestration)
      && d.tools == (if a.tools == [] then ["code_exec"] else a.tools)
      && d.maxSteps == (if a.maxSteps == 0 then 12 else a.maxSteps)
      && d.maxRepairIterations == (if a.maxRepairIterations == 0 then 4 else a.maxRepairIterations)
      && d.timeoutSecs == (if a.timeoutSecs == 0 then 600 else a.timeoutSecs)
      && d.system == a.system
  {
  }

  lemma SandboxDefaults(c: Settings)
    ensures var s, d := c.sandbox, Completed(c).sandbox;
      && d.runtime == (if s.runtime == "" then "auto" else s.runtime)
      && d.network == (if s.network == "" then "none" else s.network)
      && d.poolSize == (if s.poolSize == 0 then 2 else s.poolSize)
      && d.limits.timeoutSecs == (if s.limits.timeoutSecs == 0 then 120 else s.limits.timeoutSecs)
      && d.limits.cpus == (if s.limits.cpus == 0 then 2 else s.limits.cpus)
      && d.limits.memory == (if s.limits.memory == "" then "4GB" else s.limits.memory)
      && d.limits.pids == (if s.limits.pids == 0 then 256 else s.limits.pids)
      && d.image == s.image && d.highIsolation == s.highIsolation
  {
  }

  lemma TelemetryDefaults(c: Settings)
    ensures var t, d := c.telemetry, Completed(c).telemetry;
      && d.sink == (if t.sink == "" then "both" else t.sink)
      && d.sampling == (if t.sampling == "" then "always_on" else t.sampling)
      && d.semconv == (if t.semconv == "" then "gen_ai_latest_experimental" else t.semconv)
      && d.retentionDays == (if t.retentionDays == 0 then 90 else t.retentionDays)
      && d.(sink := t.sink, sampling := t.sampling, semconv := t.semconv, retentionDays := t.retentionDays) == t
  {
  }

  lemma SuiteDefaults(c: Settings, i: nat)
    requires i < |c.suites|
    ensures |Completed(c).suites| == |c.suites|
    ensures var s, d := c.suites[i], Completed(c).suites[i];
      && d.k == (if s.k == 0 then 1 else s.k)
      && d.nSamples == (if s.kind == "code_passk" && s.nSamples == 0 then d.k else s.nSamples)
      && d.(k := s.k, nSamples := s.nSamples) == s
  {
  }

  lemma Idempotent(c: Settings)
    ensures Completed(Completed(c)) == Completed(c)
  {
  }

  /** An agent that names no model gets the default one, which is there unless other models are declared. */
  lemma OmittedModelIff(c: Settings, agent: string)
    requires agent in c.agents && c.agents[agent].model == ""
    ensures Broken(Completed(c), AgentModel(agent)) <==>
      c.models != map[] && "coder" !in c.models && "coder" !in c.routing
  {
  }

  /** A configuration that leaves everything out, whatever agents it names, is sound once completed. */
  lemma OmittedIsSound(c: Settings)
    requires c.version == "" && c.target.kind == "" && c.models == map[] && c.routing == map[] && c.suites == []
    requires c.sandbox.network == "" && c.sandbox.runtime == "" && forall name <- c.agents :: c.agents[name].model == ""
    ensures Sound(Completed(c))
  {
    SoundIff(Completed(c));
    SandboxDefaults(c);
  }

  /** Configurations that differ in the target block only still do so. */
  lemma OnlyTargetDiffers(c: Settings, d: Settings)
    requires c.(target := d.target) == d
    ensures Completed(c).(target := Completed(d).target) == Completed(d)
  {
  }

  /**
   One file deploys to every target: a checked configuration stays sound under exactly the target
   kinds that exist, or none.
   */
  lemma RetargetedSound(c: Settings, target: Target)
    requires Sound(Completed(c))
    ensures Sound(Completed(c.(target := target))) <==> target.kind in ["", "local", "cloud", "airgap"]
  {
    var d := Completed(c.(target := target));
    forall v ensures v != TargetKind ==> !Broken(d, v) { assert !Broken(Completed(c), v); }
    assert Broken(d, TargetKind) <==> target.kind !in ["", "local", "cloud", "airgap"];
  }
}
