/**
 Spans as internal/telemetry/telemetry.go makes and ends them. The context is modelled by
 the span it carries; the clock and the random ids are parameters.
 */
module Telemetry {
  import opened Options
  import opened TraceStore
  import TraceTree

  /** What a span in flight holds. */
  datatype Live = Live(
    traceID: string, spanID: string, parentID: string, name: string, kind: string, start: int,
    attrs: map<string, string>, status: string, ended: bool)

  /** A new span belongs to the trace of its parent, or starts one. */
  function Begun(parent: Option<Live>, newTrace: string, newSpan: string, name: string, kind: string, now: int): Live {
    match parent
    case Some(p) => Live(p.traceID, newSpan, p.spanID, name, kind, now, map[], "", false)
    case None => Live(newTrace, newSpan, "", name, kind, now, map[], "", false)
  }

  function RecordOf(s: Live, now: int, resource: map<string, string>): Span {
    Span(s.spanID, s.traceID, s.parentID, s.name, s.kind, s.start, now - s.start, s.status, s.attrs, resource)
  }

  function Completed(rec: Span, resource: Option<map<string, string>>, newSpan: string,
                     default: map<string, string>): Span
  {
    rec.(spanID := if rec.spanID == "" then newSpan else rec.spanID,
         resource := match resource case Some(r) => r case None => default)
  }

  /** The record that a span leaves when it ends at `now`. */
  ghost predicate Recorded(rec: Span, s: Live, now: int, resource: map<string, string>) {
    && SameSpan(s, rec) && rec.duration == now - s.start && rec.status == s.status && rec.attrs == s.attrs
    && rec.resource == resource
  }

  /** A record from outside as it is kept: its own id and resource where it has them, all else as it came. */
  ghost predicate Ingested(kept: Span, rec: Span, resource: Option<map<string, string>>, newSpan: string,
                           default: map<string, string>) {
    && (rec.spanID != "" ==> kept.spanID == rec.spanID) && (rec.spanID == "" ==> kept.spanID == newSpan)
    && (resource.Some? ==> kept.resource == resource.value) && (resource.None? ==> kept.resource == default)
    && kept.(spanID := rec.spanID, resource := rec.resource) == rec
  }

  class Tracer {
    const store: SpanStore?
    const captureContent: bool
    const resource: map<string, string>
    const hasFile: bool
    var lines: seq<Span>

    constructor (store: SpanStore?, hasFile: bool, captureContent: bool, resource: Option<map<string, string>>)
      ensures this.store == store && this.hasFile == hasFile && this.captureContent == captureContent && lines == []
      ensures this.resource == match resource case Some(r) => r case None => map["service.name" := "faraday"]
    {
      this.store, this.hasFile, this.captureContent := store, hasFile, captureContent;
      this.resource := match resource case Some(r) => r case None => map["service.name" := "faraday"];
      lines := [];
    }

    method Start(parent: ActiveSpan?, name: string, kind: string, now: int, newTrace: string, newSpan: string)
      returns (sp: ActiveSpan)
      ensures fresh(sp) && sp.tracer == this
      ensures sp.Value() ==
        Begun(if parent == null then None else Some(parent.Value()), newTrace, newSpan, name, kind, now)
      ensures parent == null ==> sp.traceID == newTrace && sp.parentID == ""
      ensures parent != null ==> sp.traceID == parent.traceID && sp.parentID == parent.spanID
      ensures sp.spanID == newSpan && sp.name == name && sp.kind == kind && sp.start == now
      ensures sp.attrs == map[] && sp.status == "" && !sp.ended
    {
      if parent != null {
        sp := new ActiveSpan(this, parent.traceID, newSpan, parent.spanID, name, kind, now);
      } else {
        sp := new ActiveSpan(this, newTrace, newSpan, "", name, kind, now);
      }
    }

    /** Both sinks get the record. */
    method Write(rec: Span)
      modifies this, store
      ensures store != null ==> store.Contents() == Inserted(old(store.Contents()), rec)
      ensures lines == if hasFile then old(lines) + [rec] else old(lines)
    {
      if store != null { store.InsertSpan(rec); }
      if hasFile { lines := lines + [rec]; }
    }

    method IngestRemote(rec: Span, resource: Option<map<string, string>>, newSpan: string)
      modifies this, store
      ensures store != null ==>
        store.Contents() == Inserted(old(store.Contents()), Completed(rec, resource, newSpan, this.resource))
      ensures lines == if hasFile then old(lines) + [Completed(rec, resource, newSpan, this.resource)] else old(lines)
      ensures hasFile ==> Ingested(lines[|lines| - 1], rec, resource, newSpan, this.resource)
      ensures store != null ==>
        var id := if rec.spanID != "" then rec.spanID else newSpan;
        id in store.spans && Ingested(store.spans[id], rec, resource, newSpan, this.resource)
    {
      var r := rec;
      if r.spanID == "" { r := r.(spanID := newSpan); }
      r := r.(resource := match resource case Some(given) => given case None => this.resource);
      Write(r);
    }
  }

  class ActiveSpan {
    const tracer: Tracer
    const traceID: string
    const spanID: string
    const parentID: string
    const name: string
    const kind: string
    const start: int
    var attrs: map<string, string>
    var status: string
    var ended: bool

    ghost function Value(): Live
      reads this
    {
      Live(traceID, spanID, parentID, name, kind, start, attrs, status, ended)
    }

    constructor (tracer: Tracer, traceID: string, spanID: string, parentID: string, name: string, kind: string,
                 start: int)
      ensures this.tracer == tracer
      ensures Value() == Live(traceID, spanID, parentID, name, kind, start, map[], "", false)
    {
      this.tracer, this.traceID, this.spanID, this.parentID := tracer, traceID, spanID, parentID;
      this.name, this.kind, this.start := name, kind, start;
      attrs, status, ended := map[], "", false;
    }

    method SetAttrs(m: map<string, string>)
      modifies this
      ensures Value() == old(Value()).(attrs := old(attrs) + m)
    {
      attrs := attrs + m;
    }

    method SetStatus(status: string)
      modifies this
      ensures Value() == old(Value()).(status := status)
    {
      this.status := status;
    }

    method SetContent(key: string, v: string)
      modifies this
      ensures Value() == if tracer.captureContent then old(Value()).(attrs := old(attrs)[key := v]) else old(Value())
    {
      if tracer.captureContent { attrs := attrs[key := v]; }
    }

    /** The first End writes the record to both sinks, a later one does nothing. */
    method End(now: int)
      modifies this, tracer, tracer.store
      ensures Value() == old(Value()).(ended := true)
      ensures old(ended) ==> tracer.lines == old(tracer.lines)
      ensures old(ended) && tracer.store != null ==> tracer.store.Contents() == old(tracer.store.Contents())
      ensures !old(ended) && tracer.hasFile ==>
        tracer.lines == old(tracer.lines) + [RecordOf(old(Value()), now, tracer.resource)]
      ensures !old(ended) && !tracer.hasFile ==> tracer.lines == old(tracer.lines)
      ensures !old(ended) && tracer.store != null ==>
        tracer.store.Contents() == Inserted(old(tracer.store.Contents()), RecordOf(old(Value()), now, tracer.resource))
      ensures !old(ended) && tracer.hasFile ==>
        Recorded(tracer.lines[|tracer.lines| - 1], old(Value()), now, tracer.resource)
      ensures !old(ended) && tracer.store != null ==>
        spanID in tracer.store.spans && Recorded(tracer.store.spans[spanID], old(Value()), now, tracer.resource)
    {
      if !ended {
        ended := true;
        tracer.Write(Span(spanID, traceID, parentID, name, kind, start, now - start, status, attrs, tracer.resource));
      }
    }
  }

  // ---------------------------------------------------------------- runs

  datatype Event =
    | Start(parent: Option<nat>, newTrace: string, newSpan: string, name: string, kind: string, now: int)
    | Set(span: nat, attrs: map<string, string>, status: string)
    | End(span: nat, now: int)
    | Ingest(rec: Span)

  datatype Arrival = Own(span: nat, rec: Span) | Remote(rec: Span)

  /** The spans begun so far and the records in order of arrival. */
  datatype World = World(live: seq<Live>, log: seq<Arrival>)

  function Records(log: seq<Arrival>): seq<Span> {
    seq(|log|, i requires 0 <= i < |log| => log[i].rec)
  }

  /** A random id: not drawn before, and not one that came from outside before. */
  ghost predicate UnusedSpan(w: World, id: string) {
    && id != ""
    && (forall s <- w.live :: s.spanID != id)
    && (forall a <- w.log :: a.rec.spanID != id)
  }

  ghost predicate UnusedTrace(w: World, id: string) {
    forall s <- w.live :: s.traceID != id
  }

  /** A record from outside may bear any id, that of a span begun here or of an earlier record included. */
  ghost predicate Enabled(w: World, e: Event) {
    match e
    case Start(None, t, s, _, _, _) => UnusedSpan(w, s) && UnusedTrace(w, t)
    case Start(Some(p), _, s, _, _, _) => p < |w.live| && UnusedSpan(w, s)
    case Set(i, _, _) => i < |w.live|
    case End(i, _) => i < |w.live|
    case Ingest(rec) => rec.spanID != ""
  }

  function Stepped(w: World, e: Event, resource: map<string, string>): World {
    match e
    case Start(parent, t, s, name, kind, now) =>
      var p := if parent.Some? && parent.value < |w.live| then Some(w.live[parent.value]) else None;
      w.(live := w.live + [Begun(p, t, s, name, kind, now)])
    case Set(i, attrs, status) =>
      if i >= |w.live| then w
      else w.(live := w.live[i := w.live[i].(attrs := w.live[i].attrs + attrs, status := status)])
    case End(i, now) =>
      if i < |w.live| && !w.live[i].ended
      then World(w.live[i := w.live[i].(ended := true)], w.log + [Own(i, RecordOf(w.live[i], now, resource))])
      else w
    case Ingest(rec) => w.(log := w.log + [Remote(rec)])
  }

  ghost predicate Runs(w: World, events: seq<Event>, resource: map<string, string>, w': World)
    decreases events
  {
    if events == [] then w' == w
    else Enabled(w, events[0]) && Runs(Stepped(w, events[0], resource), events[1..], resource, w')
  }

  // ---------------------------------------------------------------- what every run keeps

  ghost predicate Parented(live: seq<Live>, i: nat)
    requires i < |live|
  {
    live[i].parentID == "" ||
    exists p: nat :: p < i && live[p].spanID == live[i].parentID && live[p].traceID == live[i].traceID
  }

  ghost predicate Forest(live: seq<Live>) {
    && (forall i :: 0 <= i < |live| ==> live[i].spanID != "")
    && (forall i :: 0 <= i < |live| ==> Parented(live, i))
    && (forall i, j :: 0 <= i < j < |live| ==> live[i].spanID != live[j].spanID)
    && (forall i, j :: 0 <= i < j < |live| && live[j].parentID == "" ==> live[i].traceID != live[j].traceID)
  }

  predicate SameSpan(s: Live, rec: Span) {
    rec.spanID == s.spanID && rec.traceID == s.traceID && rec.parentID == s.parentID && rec.name == s.name
    && rec.kind == s.kind && rec.start == s.start
  }

  ghost predicate Logged(w: World) {
    && (forall k :: 0 <= k < |w.log| && w.log[k].Own? ==>
          w.log[k].span < |w.live| && w.live[w.log[k].span].ended && SameSpan(w.live[w.log[k].span], w.log[k].rec))
    && (forall i: nat :: i < |w.live| && w.live[i].ended ==> Arrived(w.log, i))
    && (forall k, l :: 0 <= k < l < |w.log| && w.log[k].Own? && w.log[l].Own? ==> w.log[k].span != w.log[l].span)
  }

  ghost predicate Arrived(log: seq<Arrival>, i: nat) {
    exists k :: 0 <= k < |log| && log[k].Own? && log[k].span == i
  }

  ghost predicate Good(w: World) {
    Forest(w.live) && Logged(w)
  }

  ghost predicate Alike(live: seq<Live>, live': seq<Live>) {
    |live'| == |live| && forall i :: 0 <= i < |live| ==>
      && live'[i].(attrs := live[i].attrs, status := live[i].status, ended := live[i].ended) == live[i]
      && (live[i].ended ==> live'[i].ended)
  }

  lemma AlikeForest(live: seq<Live>, live': seq<Live>)
    requires Forest(live) && Alike(live, live')
    ensures Forest(live')
  {
    forall i | 0 <= i < |live'| ensures Parented(live', i) {
      assert Parented(live, i);
      if live[i].parentID != "" {
        var p: nat :| p < i && live[p].spanID == live[i].parentID && live[p].traceID == live[i].traceID;
        assert live'[p].spanID == live'[i].parentID && live'[p].traceID == live'[i].traceID;
      }
    }
  }

  lemma StartForest(live: seq<Live>, parent: Option<nat>, s: Live)
    requires Forest(live) && s.spanID != "" && forall p <- live :: p.spanID != s.spanID
    requires parent == None ==> s.parentID == "" && forall p <- live :: p.traceID != s.traceID
    requires parent.Some? ==>
      parent.value < |live| && s.parentID == live[parent.value].spanID && s.traceID == live[parent.value].traceID
    ensures Forest(live + [s])
  {
    var live' := live + [s];
    forall i | 0 <= i < |live| ensures Parented(live', i) { StaysParented(live, s, i); }
    assert forall i :: 0 <= i < |live| ==> live'[i] == live[i] && live[i] in live;
    if parent.Some? {
      var p := parent.value;
      assert live[p] in live && live'[p].spanID == s.parentID && live'[p].traceID == s.traceID;
    }
    assert Parented(live', |live|);
  }

  lemma StaysParented(live: seq<Live>, s: Live, i: nat)
    requires i < |live| && Parented(live, i)
    ensures Parented(live + [s], i)
  {
    if live[i].parentID != "" {
      var p: nat :| p < i && live[p].spanID == live[i].parentID && live[p].traceID == live[i].traceID;
      assert (live + [s])[p] == live[p];
    }
  }

  lemma StartKeeps(w: World, parent: Option<nat>, s: Live)
    requires Good(w) && UnusedSpan(w, s.spanID) && !s.ended
    requires parent == None ==> s.parentID == "" && UnusedTrace(w, s.traceID)
    requires parent.Some? ==>
      parent.value < |w.live| && s.parentID == w.live[parent.value].spanID && s.traceID == w.live[parent.value].traceID
    ensures Good(w.(live := w.live + [s]))
  {
    StartForest(w.live, parent, s);
    assert forall k :: 0 <= k < |w.log| ==> w.log[k] in w.log;
  }

  lemma EndKeeps(w: World, i: nat, rec: Span)
    requires Good(w) && i < |w.live| && !w.live[i].ended && SameSpan(w.live[i], rec)
    ensures Good(World(w.live[i := w.live[i].(ended := true)], w.log + [Own(i, rec)]))
  {
    var live', log' := w.live[i := w.live[i].(ended := true)], w.log + [Own(i, rec)];
    AlikeForest(w.live, live');
    forall j: nat | j < |live'| && live'[j].ended ensures Arrived(log', j) {
      if j == i {
        assert log'[|w.log|] == Own(i, rec);
      } else {
        StillArrived(w.log, Own(i, rec), j);
      }
    }
  }

  lemma IngestKeeps(w: World, rec: Span)
    requires Good(w)
    ensures Good(w.(log := w.log + [Remote(rec)]))
  {
    var log' := w.log + [Remote(rec)];
    assert forall k :: 0 <= k < |w.log| ==> log'[k] == w.log[k];
    assert log'[|w.log|].Remote?;
    forall j: nat | j < |w.live| && w.live[j].ended ensures Arrived(log', j) { StillArrived(w.log, Remote(rec), j); }
  }

  lemma StillArrived(log: seq<Arrival>, a: Arrival, i: nat)
    requires Arrived(log, i)
    ensures Arrived(log + [a], i)
  {
    var k :| 0 <= k < |log| && log[k].Own? && log[k].span == i;
    assert (log + [a])[k] == log[k];
  }

  lemma StepKeeps(w: World, e: Event, resource: map<string, string>)
    requires Good(w) && Enabled(w, e)
    ensures Good(Stepped(w, e, resource))
  {
    match e
    case Start(parent, t, s, name, kind, now) =>
      var p := if parent.Some? && parent.value < |w.live| then Some(w.live[parent.value]) else None;
      StartKeeps(w, parent, Begun(p, t, s, name, kind, now));
    case Set(i, attrs, status) =>
      var live' := w.live[i := w.live[i].(attrs := w.live[i].attrs + attrs, status := status)];
      AlikeForest(w.live, live');
    case End(i, now) =>
      if !w.live[i].ended { EndKeeps(w, i, RecordOf(w.live[i], now, resource)); }
    case Ingest(rec) => IngestKeeps(w, rec);
  }

  lemma {:induction false} RunKeeps(w: World, events: seq<Event>, resource: map<string, string>, w': World)
    requires Good(w) && Runs(w, events, resource, w')
    ensures Good(w')
    decreases events
  {
    if events != [] {
      StepKeeps(w, events[0], resource);
      RunKeeps(Stepped(w, events[0], resource), events[1..], resource, w');
    }
  }

  lemma RunFromNothing(events: seq<Event>, resource: map<string, string>, w: World)
    requires Runs(World([], []), events, resource, w)
    ensures Good(w)
  {
    RunKeeps(World([], []), events, resource, w);
  }

  // ---------------------------------------------------------------- the trace of a run

  /** Every span of the trace that was begun here has ended. */
  predicate AllEnded(w: World, traceID: string) {
    forall s <- w.live :: s.traceID == traceID ==> s.ended
  }

  /** The tables after the records of the log arrived. */
  ghost function Store(log: seq<Arrival>): Tables {
    After(Records(log))
  }

  /** What GetTrace answers. */
  ghost predicate TraceOf(w: World, traceID: string, spans: seq<Span>) {
    DistinctIds(spans) && forall sp :: sp in spans <==> Stored(Store(w.log), sp) && sp.traceID == traceID
  }

  /** The arrival of a span of the trace that was begun here. */
  predicate OwnAt(log: seq<Arrival>, traceID: string, k: nat) {
    k < |log| && log[k].Own? && log[k].rec.traceID == traceID
  }

  /** Every own record of the trace is in the store as it was written. */
  ghost predicate Kept(log: seq<Arrival>, traceID: string) {
    forall k: nat :: OwnAt(log, traceID, k) ==> Stored(Store(log), log[k].rec)
  }

  lemma RecordArrived(w: World, i: nat) returns (k: nat)
    requires Good(w) && i < |w.live| && w.live[i].ended
    ensures OwnAt(w.log, w.live[i].traceID, k) && SameSpan(w.live[i], w.log[k].rec)
  {
    assert Arrived(w.log, i);
    k :| 0 <= k < |w.log| && w.log[k].Own? && w.log[k].span == i;
  }

  lemma ParentOf(live: seq<Live>, i: nat) returns (p: nat)
    requires Forest(live) && i < |live| && live[i].parentID != ""
    ensures p < i && live[p].spanID == live[i].parentID && live[p].traceID == live[i].traceID
  {
    assert Parented(live, i);
    p :| p < i && live[p].spanID == live[i].parentID && live[p].traceID == live[i].traceID;
  }

  /** In a finished trace that was kept every span begun here hangs below its root, whatever else was ingested. */
  lemma {:induction false} EndedIsRooted(w: World, traceID: string, spans: seq<Span>, i: nat) returns (k: nat, n: nat)
    requires Good(w) && AllEnded(w, traceID) && Kept(w.log, traceID) && TraceOf(w, traceID, spans)
    requires i < |w.live| && w.live[i].traceID == traceID
    ensures k < |spans| && SameSpan(w.live[i], spans[k]) && TraceTree.Rooted(spans, k, n)
  {
    k := StoredAt(w, traceID, spans, i);
    n := 0;
    if w.live[i].parentID != "" {
      var p := ParentOf(w.live, i);
      var k', n' := EndedIsRooted(w, traceID, spans, p);
      assert TraceTree.Under(spans, k', k);
      n := n' + 1;
    }
  }

  lemma StoredAt(w: World, traceID: string, spans: seq<Span>, i: nat) returns (k: nat)
    requires Good(w) && AllEnded(w, traceID) && Kept(w.log, traceID) && TraceOf(w, traceID, spans)
    requires i < |w.live| && w.live[i].traceID == traceID
    ensures k < |spans| && SameSpan(w.live[i], spans[k])
  {
    assert w.live[i] in w.live;
    var a := RecordArrived(w, i);
    assert w.log[a].rec in spans;
    k :| 0 <= k < |spans| && spans[k] == w.log[a].rec;
  }

  ghost predicate Printed(out: seq<TraceTree.Line>, sp: Span) {
    exists depth: nat :: TraceTree.Line(sp, depth) in out
  }

  /**
   The walk over a finished trace prints all of its own records, as they were written, exactly
   when the store kept them.
   */
  lemma FinishedPrintedIffKept(w: World, traceID: string, spans: seq<Span>, out: seq<TraceTree.Line>,
                               chains: seq<seq<nat>>)
    requires Good(w) && AllEnded(w, traceID) && TraceOf(w, traceID, spans)
    requires TraceTree.AllChainsPrinted(spans, out, chains)
    ensures (forall k: nat :: OwnAt(w.log, traceID, k) ==> Printed(out, w.log[k].rec)) <==> Kept(w.log, traceID)
  {
    if Kept(w.log, traceID) {
      forall k: nat | OwnAt(w.log, traceID, k) ensures Printed(out, w.log[k].rec) {
        KeptIsPrinted(w, traceID, spans, out, chains, k);
      }
    }
    if forall k: nat :: OwnAt(w.log, traceID, k) ==> Printed(out, w.log[k].rec) {
      forall k: nat | OwnAt(w.log, traceID, k) ensures Stored(Store(w.log), w.log[k].rec) {
      }
    }
  }

  lemma KeptIsPrinted(w: World, traceID: string, spans: seq<Span>, out: seq<TraceTree.Line>, chains: seq<seq<nat>>,
                      k: nat)
    requires Good(w) && AllEnded(w, traceID) && TraceOf(w, traceID, spans) && Kept(w.log, traceID)
    requires TraceTree.AllChainsPrinted(spans, out, chains) && OwnAt(w.log, traceID, k)
    ensures Printed(out, w.log[k].rec)
  {
    var rec := w.log[k].rec;
    var j, n := EndedIsRooted(w, traceID, spans, w.log[k].span);
    assert rec in spans && spans[j].spanID == rec.spanID;
    TraceTree.PrintedIffRooted(spans, out, chains, rec, n);
  }

  // ---------------------------------------------------------------- records from outside that reuse an id

  /** After an own record of the trace, a record from outside bears its id and has other content. */
  predicate Replaces(log: seq<Arrival>, traceID: string, k: nat, l: nat) {
    && OwnAt(log, traceID, k) && k < l < |log| && log[l].Remote?
    && log[l].rec.spanID == log[k].rec.spanID && log[l].rec != log[k].rec
  }

  ghost predicate NeverReplaced(log: seq<Arrival>, traceID: string) {
    forall k: nat, l: nat :: !Replaces(log, traceID, k, l)
  }

  lemma {:induction false} LastBearer(log: seq<Span>, k: nat) returns (l: nat)
    requires k < |log|
    ensures k <= l && LastWith(log, l) && log[l].spanID == log[k].spanID
    decreases |log| - k
  {
    l := k;
    if m :| k < m < |log| && log[m].spanID == log[k].spanID { l := LastBearer(log, m); }
  }

  lemma KeptSoFar(w: World, traceID: string, m: nat)
    requires Good(w) && NeverReplaced(w.log, traceID) && m <= |w.log|
    ensures Kept(w.log[..m], traceID)
  {
    var log := w.log[..m];
    var records := Records(log);
    forall k: nat | OwnAt(log, traceID, k) ensures Stored(Store(log), log[k].rec) {
      var l := LastBearer(records, k);
      if k < l {
        assert !Replaces(w.log, traceID, k, l);
      }
      assert ArrivedLast(records, log[k].rec, l);
      StoredIffLast(records, log[k].rec);
    }
  }

  /** The store holds every own record of the trace from its arrival on exactly when none is ever replaced. */
  lemma KeptThroughoutIff(w: World, traceID: string)
    requires Good(w)
    ensures (forall m: nat :: m <= |w.log| ==> Kept(w.log[..m], traceID)) <==> NeverReplaced(w.log, traceID)
  {
    if NeverReplaced(w.log, traceID) {
      forall m: nat | m <= |w.log| ensures Kept(w.log[..m], traceID) { KeptSoFar(w, traceID, m); }
    } else {
      var k: nat, l: nat :| Replaces(w.log, traceID, k, l);
      assert OwnAt(w.log[..l + 1], traceID, k) && !Kept(w.log[..l + 1], traceID);
    }
  }

  lemma NeverReplacedIsKept(w: World, traceID: string)
    requires Good(w) && NeverReplaced(w.log, traceID)
    ensures Kept(w.log, traceID)
  {
    KeptSoFar(w, traceID, |w.log|);
    assert w.log[..|w.log|] == w.log;
  }

  /** What IngestRemote could ask the store: its id is new, or a repetition of what is stored. */
  ghost predicate Guarded(w: World, e: Event) {
    e.Ingest? && e.rec.spanID in Store(w.log).spans ==> Store(w.log).spans[e.rec.spanID] == e.rec
  }

  ghost predicate GuardedRun(w: World, events: seq<Event>, resource: map<string, string>)
    decreases events
  {
    events == [] || (Guarded(w, events[0]) && GuardedRun(Stepped(w, events[0], resource), events[1..], resource))
  }

  lemma GuardedStep(w: World, e: Event, resource: map<string, string>, traceID: string)
    requires Good(w) && Enabled(w, e) && Guarded(w, e) && NeverReplaced(w.log, traceID)
    ensures NeverReplaced(Stepped(w, e, resource).log, traceID)
  {
    var log' := Stepped(w, e, resource).log;
    NeverReplacedIsKept(w, traceID);
    forall k: nat, l: nat ensures !Replaces(log', traceID, k, l) {
      assert !Replaces(w.log, traceID, k, l);
      assert OwnAt(w.log, traceID, k) ==> Stored(Store(w.log), w.log[k].rec);
    }
  }

  /** With that guard no own record is ever replaced, so that every finished trace is printed whole. */
  lemma {:induction false} GuardedNeverReplaced(w: World, events: seq<Event>, resource: map<string, string>, w': World,
                                                traceID: string)
    requires Good(w) && NeverReplaced(w.log, traceID) && Runs(w, events, resource, w')
    requires GuardedRun(w, events, resource)
    ensures NeverReplaced(w'.log, traceID)
    decreases events
  {
    if events != [] {
      GuardedStep(w, events[0], resource, traceID);
      StepKeeps(w, events[0], resource);
      GuardedNeverReplaced(Stepped(w, events[0], resource), events[1..], resource, w', traceID);
    }
  }

  /** Without it: a record of another trace with the id of an ended span takes that span out of its trace. */
  lemma IngestErases(w: World, traceID: string, k: nat, rec: Span)
    requires OwnAt(w.log, traceID, k) && rec.spanID == w.log[k].rec.spanID && rec.traceID != traceID
    ensures var log := w.log + [Remote(rec)];
      OwnAt(log, traceID, k) && forall sp :: Stored(Store(log), sp) && sp.traceID == traceID ==> sp.spanID != rec.spanID
  {
    var log := w.log + [Remote(rec)];
    assert Records(log)[..|w.log|] == Records(w.log);
    assert After(Records(log)).spans[rec.spanID] == rec;
  }

  /** So one span begun, ended and then replaced leaves a finished trace of which nothing is stored. */
  lemma ErasedTrace() returns (events: seq<Event>, w: World)
    ensures Runs(World([], []), events, map[], w)
    ensures AllEnded(w, "t") && OwnAt(w.log, "t", 0) && forall sp :: Stored(Store(w.log), sp) ==> sp.traceID != "t"
  {
    var rec := Span("s", "u", "", "", "", 0, 0, "", map[], map[]);
    events := [Start(None, "t", "s", "", "", 0), End(0, 5), Ingest(rec)];
    var w1 := Stepped(World([], []), events[0], map[]);
    var w2 := Stepped(w1, events[1], map[]);
    w := Stepped(w2, events[2], map[]);
    RunsThree(World([], []), events[0], events[1], events[2], map[]);
    var log := Records(w.log);
    assert log == [w2.log[0].rec, rec];
    assert log[..1] == [log[0]] && log[..1][..0] == [];
    assert After(log[..1]) == Inserted(After([]), log[0]);
    assert Store(w.log).spans == map["s" := rec];
  }

  lemma RunsThree(w: World, a: Event, b: Event, c: Event, resource: map<string, string>)
    requires Enabled(w, a) && Enabled(Stepped(w, a, resource), b)
    requires Enabled(Stepped(Stepped(w, a, resource), b, resource), c)
    ensures Runs(w, [a, b, c], resource, Stepped(Stepped(Stepped(w, a, resource), b, resource), c, resource))
  {
    var w1 := Stepped(w, a, resource);
    var w2 := Stepped(w1, b, resource);
    var w3 := Stepped(w2, c, resource);
    assert [a, b, c][1..] == [b, c] && [b, c][1..] == [c] && [c][1..] == [];
    assert Runs(w3, [], resource, w3);
    assert Runs(w2, [c], resource, w3);
    assert Runs(w1, [b, c], resource, w3);
  }

  /**
   Once its root ended, the summary of a trace without a remote root is that root's, in whatever
   order its spans ended.
   */
  lemma SummaryIsRoots(w: World, r: nat) returns (rec: Span)
    requires Good(w) && r < |w.live| && w.live[r].parentID == "" && w.live[r].ended
    requires forall a <- w.log :: a.Remote? && a.rec.traceID == w.live[r].traceID ==> a.rec.parentID != ""
    ensures rec in Records(w.log) && SameSpan(w.live[r], rec)
    ensures var t := After(Records(w.log)); rec.traceID in t.traces && Summarises(t.traces[rec.traceID], rec)
    ensures var row := After(Records(w.log)).traces[w.live[r].traceID];
      row.rootName == w.live[r].name && row.start == w.live[r].start && row.duration == rec.duration
  {
    var log := Records(w.log);
    var k := RecordArrived(w, r);
    rec := log[k];
    forall i: nat, j: nat | RootAt(log, rec.traceID, i) && RootAt(log, rec.traceID, j)
      ensures SameSummary(log[i], log[j])
    {
    }
    assert RootAt(log, rec.traceID, k);
    RowOfAnyRoot(log, rec.traceID, k);
  }
}
