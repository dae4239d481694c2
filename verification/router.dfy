/** Weighted failover of internal/inference/router.go. */
module Router {
  import opened Options
  import opened Text
  import opened Sorting
  import opened Config

  // ---------------------------------------------------------------- backends

  datatype Backend = Mock(name: string) | Proxy(name: string, kind: string, endpoint: string, source: string)

  function EndpointOf(s: Serve): string {
    if s.endpoint == "" && s.port != 0 then "http://127.0.0.1:" + Dec(s.port) else s.endpoint
  }

  function BuildBackend(name: string, m: Model): Option<Backend> {
    var endpoint := EndpointOf(m.serve);
    if m.backend == "mock" then Some(Mock(name))
    else if m.backend in ["vllm", "llama_cpp", "sglang"] then
      if endpoint == "" then None else Some(Proxy(name, m.backend, endpoint, m.source))
    else if m.backend in ["", "auto"] then
      Some(if endpoint != "" then Proxy(name, "auto", endpoint, m.source) else Mock(name))
    else None
  }

  predicate Buildable(models: map<string, Model>) {
    forall name <- models :: BuildBackend(name, models[name]).Some?
  }

  // ---------------------------------------------------------------- failover order

  predicate Usable(choices: seq<RouteBackend>, known: set<string>, i: nat) {
    i < |choices| && choices[i].model in known
  }

  /** Greater weight first, then the order of the configuration. */
  predicate Ahead(choices: seq<RouteBackend>, i: nat, k: nat) {
    && i < |choices| && k < |choices|
    && (choices[i].weight > choices[k].weight || (choices[i].weight == choices[k].weight && i < k))
  }

  /** `at` lists the positions of the usable choices in failover order. */
  ghost predicate Failover(choices: seq<RouteBackend>, known: set<string>, at: seq<nat>) {
    && (forall k :: 0 <= k < |at| ==> Usable(choices, known, at[k]))
    && (forall i: nat :: Usable(choices, known, i) ==> i in at)
    && (forall j, k :: 0 <= j < k < |at| ==> Ahead(choices, at[j], at[k]))
  }

  /** The same in terms of weights and positions. */
  ghost predicate ByWeight(bs: seq<RouteBackend>, known: set<string>, at: seq<nat>) {
    && (forall i: nat :: i in at <==> i < |bs| && bs[i].model in known)
    && (forall j, k :: 0 <= j < k < |at| ==>
          && at[j] < |bs| && at[k] < |bs| && bs[at[j]].weight >= bs[at[k]].weight
          && (bs[at[j]].weight == bs[at[k]].weight ==> at[j] < at[k]))
  }

  datatype Answer = Reply(model: string, content: string) | Failed(error: string)

  /** The usable choice that answers and is ahead of all others that would. */
  ghost predicate Serves(choices: seq<RouteBackend>, known: set<string>, answers: nat -> Answer, w: nat) {
    && Usable(choices, known, w) && answers(w).Reply?
    && forall i: nat :: Usable(choices, known, i) && answers(i).Reply? ==> i == w || Ahead(choices, w, i)
  }

  ghost function UsableAhead(choices: seq<RouteBackend>, known: set<string>, w: nat): set<nat> {
    set i: nat | i < |choices| && Usable(choices, known, i) && Ahead(choices, i, w)
  }

  datatype ChatSpan = ChatSpan(model: string, backend: Backend, status: string)
  datatype RouteSpan = RouteSpan(model: string, backend: Option<Backend>, depth: Option<nat>, status: string)
  datatype Outcome = Unresolved | AllFailed(lastError: string) | Answered(reply: Answer)

  function StatusOf(a: Answer): string {
    match a
    case Reply(_, _) => "ok"
    case Failed(e) => "error: " + e
  }

  predicate ChatOf(chat: ChatSpan, choice: RouteBackend, backends: map<string, Backend>, answer: Answer) {
    && chat.model == choice.model && chat.model in backends && chat.backend == backends[chat.model]
    && (answer.Reply? ==> chat.status == "ok") && (answer.Failed? ==> chat.status == "error: " + answer.error)
  }

  /** One chat span for every attempt, and only the last attempt may have been answered. */
  ghost predicate Attempted(choices: seq<RouteBackend>, backends: map<string, Backend>, answers: nat -> Answer,
                            chats: seq<ChatSpan>, tried: seq<nat>)
  {
    && |chats| == |tried|
    && (forall k :: 0 <= k < |tried| ==> Usable(choices, backends.Keys, tried[k]))
    && (forall k :: 0 <= k < |tried| ==> ChatOf(chats[k], choices[tried[k]], backends, answers(tried[k])))
    && (forall k :: 0 <= k < |tried| - 1 ==> answers(tried[k]).Failed?)
    && (forall j, k :: 0 <= j < k < |tried| ==> Ahead(choices, tried[j], tried[k]))
  }

  /**
   What a routed request comes to: a reply of the choice that serves, with its backend and
   the number of attempts that failed before it, which were all usable choices ahead of it,
   or none.
   */
  ghost predicate Routed(choices: seq<RouteBackend>, backends: map<string, Backend>, answers: nat -> Answer,
                         r: Outcome, route: Option<RouteSpan>, tried: seq<nat>)
  {
    match r
    case Unresolved =>
      route == None && tried == [] && forall i: nat :: !Usable(choices, backends.Keys, i)
    case Answered(reply) =>
      tried != [] && route.Some? && AnsweredBy(choices, backends, answers, reply, route.value, tried)
    case AllFailed(lastError) =>
      tried != [] && route.Some? && route.value.status == "error: all backends failed"
      && route.value.depth == None && route.value.backend == None
      && answers(tried[|tried| - 1]) == Failed(lastError)
      && forall i: nat :: Usable(choices, backends.Keys, i) ==> i in tried && answers(i).Failed?
  }

  ghost predicate AnsweredBy(choices: seq<RouteBackend>, backends: map<string, Backend>, answers: nat -> Answer,
                             reply: Answer, route: RouteSpan, tried: seq<nat>)
    requires tried != []
  {
    var w, failed := tried[|tried| - 1], tried[..|tried| - 1];
    && Serves(choices, backends.Keys, answers, w) && reply == answers(w)
    && (forall i: nat :: i in failed <==> i in UsableAhead(choices, backends.Keys, w))
    && route.status == "ok" && route.depth == Some(|tried| - 1) && |failed| == |UsableAhead(choices, backends.Keys, w)|
    && route.backend == Some(backends[choices[w].model])
  }

  /** So a request fails exactly when no usable choice answers. */
  lemma AnsweredIff(choices: seq<RouteBackend>, backends: map<string, Backend>, answers: nat -> Answer,
                    r: Outcome, route: Option<RouteSpan>, tried: seq<nat>)
    requires Routed(choices, backends, answers, r, route, tried)
    requires forall k :: 0 <= k < |tried| ==> Usable(choices, backends.Keys, tried[k])
    ensures r.Answered? <==> exists i: nat :: Usable(choices, backends.Keys, i) && answers(i).Reply?
    ensures r.Unresolved? <==> forall i: nat :: !Usable(choices, backends.Keys, i)
  {
    if r.AllFailed? { assert Usable(choices, backends.Keys, tried[0]); }
  }

  /**
   A reply in terms of weights and positions: it is that of a known backend, no known one that
   answers weighs more, nor stands before it at the same weight, and the attempts before it are
   all known backends that do.
   */
  lemma AnsweredByWeight(choices: seq<RouteBackend>, backends: map<string, Backend>, answers: nat -> Answer,
                         r: Outcome, route: Option<RouteSpan>, tried: seq<nat>)
    requires Routed(choices, backends, answers, r, route, tried) && r.Answered?
    ensures tried != [] && tried[|tried| - 1] < |choices|
    ensures var w := tried[|tried| - 1];
      && choices[w].model in backends && answers(w).Reply? && r.reply == answers(w)
      && (forall i: nat :: i < |choices| && choices[i].model in backends && answers(i).Reply? ==>
            choices[i].weight < choices[w].weight || (choices[i].weight == choices[w].weight && w <= i))
      && (forall i: nat :: i in tried[..|tried| - 1] <==>
            i < |choices| && choices[i].model in backends
            && (choices[i].weight > choices[w].weight || (choices[i].weight == choices[w].weight && i < w)))
      && route.value.depth == Some(|tried| - 1)
  {
    var w, failed := tried[|tried| - 1], tried[..|tried| - 1];
    forall i: nat | i < |choices| && choices[i].model in backends && answers(i).Reply?
      ensures choices[i].weight < choices[w].weight || (choices[i].weight == choices[w].weight && w <= i)
    {
      assert Usable(choices, backends.Keys, i);
    }
    assert forall i: nat :: i in failed <==> i in UsableAhead(choices, backends.Keys, w);
  }

  /** Where a model is served: its endpoint, or its port on this machine. */
  ghost function Url(s: Serve): string {
    if s.endpoint != "" then s.endpoint else if s.port != 0 then "http://127.0.0.1:" + Dec(s.port) else ""
  }

  /** Backends can be built unless a model names an unknown kind, or a server that is nowhere. */
  lemma BuildableIff(models: map<string, Model>)
    ensures Buildable(models) <==>
      forall name <- models ::
        models[name].backend in ["", "auto", "mock"]
        || (models[name].backend in ["vllm", "llama_cpp", "sglang"]
            && (models[name].serve.endpoint != "" || models[name].serve.port != 0))
  {
  }

  /** What stands behind a model: the mock by name or for want of a server, else a proxy to its server. */
  lemma BackendBehind(m: Manager, name: string)
    requires m.Built() && name in m.models
    ensures name in m.backends
    ensures var model := m.models[name];
      m.backends[name] ==
        if model.backend == "mock" || (model.backend in ["", "auto"] && Url(model.serve) == "") then Mock(name)
        else Proxy(name, if model.backend == "" then "auto" else model.backend, Url(model.serve), model.source)
  {
    assert BuildBackend(name, m.models[name]) == Some(m.backends[name]);
  }

  class Manager {
    const routes: map<string, Route>
    const models: map<string, Model>
    var backends: map<string, Backend>

    ghost predicate Built()
      reads this
    {
      backends.Keys == models.Keys && forall name <- models :: BuildBackend(name, models[name]) == Some(backends[name])
    }

    /** The backends that stand behind a logical name. */
    function Choices(logical: string): seq<RouteBackend> {
      if logical in routes && routes[logical].backends != [] then routes[logical].backends
      else [RouteBackend(logical, 0)]
    }

    constructor (models: map<string, Model>, routes: map<string, Route>)
      ensures this.models == models && this.routes == routes && backends == map[]
    {
      this.models, this.routes, backends := models, routes, map[];
    }

    /** The loop of NewManager. */
    method BuildAll() returns (ok: bool)
      requires backends == map[]
      modifies this
      ensures ok <==> Buildable(models)
      ensures ok ==> Built()
    {
      var rest := models.Keys;
      while rest != {}
        invariant rest <= models.Keys && backends.Keys == models.Keys - rest
        invariant forall name <- backends :: BuildBackend(name, models[name]) == Some(backends[name])
        decreases rest
      {
        var name :| name in rest;
        rest := rest - {name};
        var b := BuildBackend(name, models[name]);
        if b.None? {
          assert !Buildable(models);
          return false;
        }
        backends := backends[name := b.value];
      }
      forall name | name in models ensures BuildBackend(name, models[name]).Some? { assert name in backends; }
      ok := true;
    }

    /** The positions of the candidates; an error when there is none. */
    method Resolve(logical: string) returns (at: seq<nat>)
      ensures Failover(Choices(logical), backends.Keys, at)
      ensures logical in routes && routes[logical].backends != [] ==>
        ByWeight(routes[logical].backends, backends.Keys, at)
      ensures logical !in routes || routes[logical].backends == [] ==> at == if logical in backends then [0] else []
    {
      if logical in routes && |routes[logical].backends| > 0 {
        var bs := routes[logical].backends;
        var positions: seq<nat> := seq(|bs|, i => i);
        ghost var order;
        positions, order := SliceStable<nat>(positions, (i: nat, k: nat) => WeightAt(bs, i) >= WeightAt(bs, k));
        at := [];
        for k := 0 to |positions|
          invariant forall i :: i in at <==> i in positions[..k] && Usable(bs, backends.Keys, i)
          invariant forall i, j :: 0 <= i < j < |at| ==> Ahead(bs, at[i], at[j])
        {
          if bs[positions[k]].model in backends {
            forall j | 0 <= j < |at| ensures Ahead(bs, at[j], positions[k]) { assert at[j] in positions[..k]; }
            at := at + [positions[k]];
          }
        }
        forall i: nat | Usable(bs, backends.Keys, i) ensures i in at { assert i in order; }
      } else if logical in backends {
        at := [0];
      } else {
        at := [];
      }
    }

    method ChatCompletion(logical: string, answers: nat -> Answer)
      returns (r: Outcome, chats: seq<ChatSpan>, route: Option<RouteSpan>, tried: seq<nat>)
      ensures Attempted(Choices(logical), backends, answers, chats, tried)
      ensures Routed(Choices(logical), backends, answers, r, route, tried)
      ensures route.Some? ==> route.value.model == logical
    {
      var at := Resolve(logical);
      ghost var choices := Choices(logical);
      if |at| == 0 {
        NothingUsable(choices, backends.Keys, at);
        return Unresolved, [], None, [];
      }
      var depth, lastError;
      depth, chats, lastError := TryInOrder(logical, at, answers);
      if depth < |at| {
        route := Some(RouteSpan(logical, Some(chats[depth].backend), Some(depth), "ok"));
        RoutedReply(choices, backends, answers, at, depth, route.value);
        return Answered(answers(at[depth])), chats, route, at[..depth + 1];
      }
      route := Some(RouteSpan(logical, None, None, "error: all backends failed"));
      RoutedNowhere(choices, backends, answers, at, route.value, lastError);
      return AllFailed(lastError), chats, route, at;
    }

    /** The loop over the candidates: `depth` of them fail before one answers, or all do. */
    method TryInOrder(logical: string, at: seq<nat>, answers: nat -> Answer)
      returns (depth: nat, chats: seq<ChatSpan>, lastError: string)
      requires Failover(Choices(logical), backends.Keys, at)
      ensures depth <= |at| && forall k :: 0 <= k < depth ==> answers(at[k]).Failed?
      ensures depth < |at| ==> answers(at[depth]).Reply?
      ensures Attempted(Choices(logical), backends, answers, chats, if depth < |at| then at[..depth + 1] else at)
      ensures depth == |at| && at != [] ==> answers(at[depth - 1]) == Failed(lastError)
    {
      depth, chats, lastError := 0, [], "";
      while depth < |at|
        invariant depth <= |at| && forall k :: 0 <= k < depth ==> answers(at[k]).Failed?
        invariant Attempted(Choices(logical), backends, answers, chats, at[..depth])
        invariant depth > 0 ==> answers(at[depth - 1]) == Failed(lastError)
      {
        var model := Choices(logical)[at[depth]].model;
        var answer := answers(at[depth]);
        var chat := ChatSpan(model, backends[model], StatusOf(answer));
        AttemptAdded(Choices(logical), backends, at, answers, chats, chat, depth);
        chats := chats + [chat];
        if answer.Reply? { return; }
        lastError := answer.error;
        depth := depth + 1;
      }
      assert at[..|at|] == at;
    }
  }

  lemma NothingUsable(choices: seq<RouteBackend>, known: set<string>, at: seq<nat>)
    requires Failover(choices, known, at) && at == []
    ensures forall i: nat :: !Usable(choices, known, i)
  {
    forall i: nat ensures !Usable(choices, known, i) { assert i !in at; }
  }

  lemma RoutedReply(choices: seq<RouteBackend>, backends: map<string, Backend>, answers: nat -> Answer, at: seq<nat>,
                    d: nat, route: RouteSpan)
    requires Failover(choices, backends.Keys, at) && d < |at| && answers(at[d]).Reply?
    requires forall k :: 0 <= k < d ==> answers(at[k]).Failed?
    requires route.status == "ok" && route.depth == Some(d) && route.backend == Some(backends[choices[at[d]].model])
    ensures Routed(choices, backends, answers, Answered(answers(at[d])), Some(route), at[..d + 1])
  {
    FirstReplyServes(choices, backends.Keys, at, answers, d);
    assert at[..d + 1][..d] == at[..d];
  }

  lemma RoutedNowhere(choices: seq<RouteBackend>, backends: map<string, Backend>, answers: nat -> Answer, at: seq<nat>,
                      route: RouteSpan, lastError: string)
    requires Failover(choices, backends.Keys, at) && at != [] && forall k :: 0 <= k < |at| ==> answers(at[k]).Failed?
    requires answers(at[|at| - 1]) == Failed(lastError)
    requires route.status == "error: all backends failed" && route.depth == None && route.backend == None
    ensures Routed(choices, backends, answers, AllFailed(lastError), Some(route), at)
  {
  }

  lemma AttemptAdded(choices: seq<RouteBackend>, backends: map<string, Backend>, at: seq<nat>, answers: nat -> Answer,
                     chats: seq<ChatSpan>, chat: ChatSpan, depth: nat)
    requires Failover(choices, backends.Keys, at) && depth < |at|
    requires Attempted(choices, backends, answers, chats, at[..depth])
    requires forall k :: 0 <= k < depth ==> answers(at[k]).Failed?
    requires ChatOf(chat, choices[at[depth]], backends, answers(at[depth]))
    ensures Attempted(choices, backends, answers, chats + [chat], at[..depth + 1])
  {
    var tried := at[..depth + 1];
    assert forall k :: 0 <= k < depth ==> tried[k] == at[..depth][k];
  }

  function WeightAt(bs: seq<RouteBackend>, i: nat): int {
    if i < |bs| then bs[i].weight else 0
  }

  lemma FirstReplyServes(choices: seq<RouteBackend>, known: set<string>, at: seq<nat>, answers: nat -> Answer, d: nat)
    requires Failover(choices, known, at) && d < |at| && answers(at[d]).Reply?
    requires forall k :: 0 <= k < d ==> answers(at[k]).Failed?
    ensures Serves(choices, known, answers, at[d])
    ensures |UsableAhead(choices, known, at[d])| == d
    ensures forall i: nat :: i in at[..d] <==> i in UsableAhead(choices, known, at[d])
  {
    forall i: nat | Usable(choices, known, i) && answers(i).Reply? ensures i == at[d] || Ahead(choices, at[d], i) {
      assert i in at;
      var k :| 0 <= k < |at| && at[k] == i;
      assert k >= d;
    }
    var ahead := UsableAhead(choices, known, at[d]);
    forall i: nat ensures i in at[..d] <==> i in ahead {
      if i in ahead {
        assert i in at;
        var k :| 0 <= k < |at| && at[k] == i;
        assert k < d && at[..d][k] == i;
      }
    }
    DistinctCover(at[..d], ahead);
  }

  /** The serving choice exists exactly when a usable one answers, and is the only one. */
  lemma {:induction false} ServesExists(choices: seq<RouteBackend>, known: set<string>, answers: nat -> Answer)
    ensures (exists w: nat :: Serves(choices, known, answers, w)) <==>
      (exists i: nat :: Usable(choices, known, i) && answers(i).Reply?)
    ensures forall v: nat, w: nat :: Serves(choices, known, answers, v) && Serves(choices, known, answers, w) ==> v == w
  {
    if i: nat :| Usable(choices, known, i) && answers(i).Reply? { BestFrom(choices, known, answers, i); }
  }

  lemma {:induction false} BestFrom(choices: seq<RouteBackend>, known: set<string>, answers: nat -> Answer, i: nat)
    requires Usable(choices, known, i) && answers(i).Reply?
    ensures exists w: nat :: Serves(choices, known, answers, w)
    decreases |UsableAhead(choices, known, i)|
  {
    if k: nat :| Usable(choices, known, k) && answers(k).Reply? && Ahead(choices, k, i) {
      assert UsableAhead(choices, known, k) < UsableAhead(choices, known, i) by {
        assert k in UsableAhead(choices, known, i);
      }
      Smaller(UsableAhead(choices, known, k), UsableAhead(choices, known, i));
      BestFrom(choices, known, answers, k);
    } else {
      assert Serves(choices, known, answers, i);
    }
  }

  lemma Smaller<T>(a: set<T>, b: set<T>)
    requires a < b
    ensures |a| < |b|
  {
    assert |b| == |a| + |b - a| by { assert b == a + (b - a); }
    var x :| x in b - a;
  }

  // ---------------------------------------------------------------- validated configurations

  /**
   In a checked configuration whose backends can be built, each agent's model resolves unless it
   is only a route without backends.
   */
  lemma AgentResolvesIff(c: Settings, m: Manager, agent: string)
    requires Sound(c) && agent in c.agents && m.routes == c.routing && m.models == c.models && m.Built()
    ensures (forall i: nat :: !Usable(m.Choices(c.agents[agent].model), m.backends.Keys, i)) <==>
      c.agents[agent].model !in c.models && c.agents[agent].model in c.routing
      && c.routing[c.agents[agent].model].backends == []
  {
    var name := c.agents[agent].model;
    var choices := m.Choices(name);
    assert !Broken(c, AgentModel(agent));
    if name in c.routing && c.routing[name].backends != [] {
      assert !Broken(c, BackendModel(name, 0));
      assert Usable(choices, m.backends.Keys, 0);
    } else {
      assert Usable(choices, m.backends.Keys, 0) <==> name in c.models;
    }
  }

  /** No candidate of a checked configuration is dropped: every backend of its routes is usable. */
  lemma AllUsable(c: Settings, m: Manager, logical: string, i: nat)
    requires Sound(c) && m.routes == c.routing && m.models == c.models && m.Built()
    requires logical in c.routing && i < |c.routing[logical].backends|
    ensures Usable(m.Choices(logical), m.backends.Keys, i)
  {
    assert !Broken(c, BackendModel(logical, i));
  }
}
