/** The span and trace tables of internal/store/store.go. */
module TraceStore {
  import opened Sorting

  datatype Span = Span(
    spanID: string, traceID: string, parentID: string, name: string, kind: string,
    start: int, duration: int, status: string, attrs: map<string, string>, resource: map<string, string>)

  datatype TraceRow = TraceRow(rootName: string, start: int, duration: int)

  datatype TraceSummary = TraceSummary(traceID: string, row: TraceRow, spanCount: nat)

  /** Both tables, by primary key. */
  datatype Tables = Tables(spans: map<string, Span>, traces: map<string, TraceRow>)

  function Inserted(t: Tables, sp: Span): Tables {
    Tables(t.spans[sp.spanID := sp],
           if sp.parentID == "" then t.traces[sp.traceID := TraceRow(sp.name, sp.start, sp.duration)]
           else if sp.traceID in t.traces then t.traces
           else t.traces[sp.traceID := TraceRow("", sp.start, 0)])
  }

  /** The summary that a root gives its trace. */
  ghost predicate Summarises(row: TraceRow, root: Span) {
    row.rootName == root.name && row.start == root.start && row.duration == root.duration
  }

  ghost function OfTrace(t: Tables, traceID: string): set<string> {
    set id <- t.spans | t.spans[id].traceID == traceID
  }

  ghost function Summary(t: Tables, traceID: string): TraceSummary
    requires traceID in t.traces
  {
    TraceSummary(traceID, t.traces[traceID], |OfTrace(t, traceID)|)
  }

  /** Each listed trace once, newest first, and none that is left out is newer than a listed one. */
  ghost predicate NewestOf(t: Tables, out: seq<TraceSummary>) {
    && (forall i :: 0 <= i < |out| ==> out[i].traceID in t.traces && out[i] == Summary(t, out[i].traceID))
    && (forall i, j :: 0 <= i < j < |out| ==> out[i].traceID != out[j].traceID && out[j].row.start <= out[i].row.start)
    && (forall id <- t.traces, i :: Summary(t, id) !in out && 0 <= i < |out| ==> t.traces[id].start <= out[i].row.start)
  }

  ghost predicate Keyed(t: Tables) {
    forall id <- t.spans :: t.spans[id].spanID == id
  }

  ghost predicate DistinctIds(spans: seq<Span>) {
    forall i, j :: 0 <= i < j < |spans| ==> spans[i].spanID != spans[j].spanID
  }

  predicate StartsNoLater(a: Span, b: Span) {
    a.start <= b.start
  }

  predicate StartsNoEarlier(a: TraceSummary, b: TraceSummary) {
    b.row.start <= a.row.start
  }

  class SpanStore {
    var spans: map<string, Span>
    var traces: map<string, TraceRow>

    ghost function Contents(): Tables
      reads this
    {
      Tables(spans, traces)
    }

    constructor ()
      ensures Contents() == Tables(map[], map[])
    {
      spans, traces := map[], map[];
    }

    /** INSERT OR REPLACE, then the upsert of the trace summary. */
    method InsertSpan(sp: Span)
      modifies this
      ensures Contents() == Inserted(old(Contents()), sp)
      ensures old(Keyed(Contents())) ==> Keyed(Contents())
      ensures sp.spanID in spans && spans[sp.spanID] == sp && sp.traceID in traces
      ensures forall id :: id != sp.spanID ==> (id in spans <==> id in old(spans))
      ensures forall id <- old(spans) :: id != sp.spanID ==> spans[id] == old(spans)[id]
      ensures sp.parentID == "" ==> Summarises(traces[sp.traceID], sp)
      ensures sp.parentID != "" && sp.traceID in old(traces) ==> traces == old(traces)
      ensures sp.parentID != "" && sp.traceID !in old(traces) ==>
        var row := traces[sp.traceID]; row.rootName == "" && row.start == sp.start && row.duration == 0
      ensures forall id :: id != sp.traceID ==> (id in traces <==> id in old(traces))
      ensures forall id <- old(traces) :: id != sp.traceID ==> traces[id] == old(traces)[id]
    {
      spans := spans[sp.spanID := sp];
      if sp.parentID == "" {
        traces := traces[sp.traceID := TraceRow(sp.name, sp.start, sp.duration)];
      } else if sp.traceID !in traces {
        traces := traces[sp.traceID := TraceRow("", sp.start, 0)];
      }
    }

    /** Every stored span of the trace once, by start. */
    method GetTrace(traceID: string) returns (out: seq<Span>)
      requires Keyed(Contents())
      ensures forall sp :: sp in out <==> sp.spanID in spans && spans[sp.spanID] == sp && sp.traceID == traceID
      ensures DistinctIds(out)
      ensures forall i, j :: 0 <= i < j < |out| ==> out[i].start <= out[j].start
    {
      var ids := KeysOf(spans);
      var found: seq<Span> := [];
      for n := 0 to |ids|
        invariant forall sp :: sp in found <==> sp.spanID in ids[..n] && spans[sp.spanID] == sp && sp.traceID == traceID
        invariant DistinctIds(found)
      {
        assert ids[..n + 1] == ids[..n] + [ids[n]];
        if spans[ids[n]].traceID == traceID { found := found + [spans[ids[n]]]; }
      }
      assert ids[..|ids|] == ids;
      ghost var order;
      out, order := SliceStable(found, StartsNoLater);
      RearrangedSame(found, out, order);
    }

    /** The newest traces, at most `limit` of them, or 20 when no limit is given. */
    method ListTraces(limit: int) returns (out: seq<TraceSummary>)
      ensures var most := if limit <= 0 then 20 else limit; |out| == if |traces| <= most then |traces| else most
      ensures NewestOf(Contents(), out)
    {
      var most := if limit <= 0 then 20 else limit;
      var ids := KeysOf(traces);
      var rows: seq<TraceSummary> := [];
      for n := 0 to |ids|
        invariant |rows| == n
        invariant forall i :: 0 <= i < n ==> ids[i] in traces && rows[i] == Summary(Contents(), ids[i])
      {
        var count := CountSpans(ids[n]);
        rows := rows + [TraceSummary(ids[n], traces[ids[n]], count)];
      }
      DistinctCover(ids, traces.Keys);
      ghost var order;
      out, order := SliceStable(rows, StartsNoEarlier);
      ListedAll(Contents(), ids, rows, out, order);
      if |out| > most {
        FirstAreNewest(Contents(), out, most);
        out := out[..most];
      }
    }

    method CountSpans(traceID: string) returns (count: nat)
      ensures count == |OfTrace(Contents(), traceID)|
    {
      count := 0;
      var rest := spans.Keys;
      ghost var counted: set<string> := {};
      while rest != {}
        invariant rest <= spans.Keys
        invariant counted == (set id <- spans | id !in rest && spans[id].traceID == traceID) && count == |counted|
        decreases rest
      {
        var id :| id in rest;
        rest := rest - {id};
        if spans[id].traceID == traceID {
          count := count + 1;
          counted := counted + {id};
        }
      }
      assert counted == OfTrace(Contents(), traceID);
    }
  }

  lemma RearrangedSame(found: seq<Span>, out: seq<Span>, order: seq<nat>)
    requires Rearranges(found, out, order) && DistinctIds(found)
    ensures DistinctIds(out) && forall sp :: sp in out <==> sp in found
  {
    forall sp | sp in found ensures sp in out {
      var k :| 0 <= k < |found| && found[k] == sp;
      assert k in order;
    }
    forall i, j | 0 <= i < j < |out| ensures out[i].spanID != out[j].spanID {
      assert order[i] != order[j];
    }
  }

  lemma ListedAll(t: Tables, ids: seq<string>, rows: seq<TraceSummary>, out: seq<TraceSummary>, order: seq<nat>)
    requires |rows| == |ids| && forall i :: 0 <= i < |ids| ==> ids[i] in t.traces && rows[i] == Summary(t, ids[i])
    requires forall i, j :: 0 <= i < j < |ids| ==> ids[i] != ids[j]
    requires forall id <- t.traces :: id in ids
    requires Rearranges(rows, out, order) && StablySorted(StartsNoEarlier, out, order)
    ensures NewestOf(t, out) && forall id <- t.traces :: Summary(t, id) in out
  {
    forall i, j | 0 <= i < j < |out| ensures out[i].traceID != out[j].traceID {
      assert order[i] != order[j];
    }
    forall id <- t.traces ensures Summary(t, id) in out {
      var k :| 0 <= k < |ids| && ids[k] == id;
      assert k in order;
    }
  }

  lemma FirstAreNewest(t: Tables, out: seq<TraceSummary>, most: nat)
    requires NewestOf(t, out) && most <= |out| && forall id <- t.traces :: Summary(t, id) in out
    ensures NewestOf(t, out[..most])
  {
  }

  // ---------------------------------------------------------------- arrival order

  /** The tables after the spans of the log arrived one by one. */
  ghost function After(log: seq<Span>): Tables {
    if log == [] then Tables(map[], map[])
    else Inserted(After(log[..|log| - 1]), log[|log| - 1])
  }

  predicate OfTraceAt(log: seq<Span>, traceID: string, i: nat) {
    i < |log| && log[i].traceID == traceID
  }

  predicate RootAt(log: seq<Span>, traceID: string, i: nat) {
    OfTraceAt(log, traceID, i) && log[i].parentID == ""
  }

  ghost predicate LastRoot(log: seq<Span>, traceID: string, r: nat) {
    RootAt(log, traceID, r) && forall i: nat :: r < i ==> !RootAt(log, traceID, i)
  }

  ghost predicate FirstOf(log: seq<Span>, traceID: string, f: nat) {
    OfTraceAt(log, traceID, f) && forall i: nat :: i < f ==> !OfTraceAt(log, traceID, i)
  }

  lemma Shorter(log: seq<Span>, traceID: string) returns (before: seq<Span>, n: nat)
    requires log != []
    ensures n == |log| - 1 && before == log[..n] && After(log) == Inserted(After(before), log[n])
    ensures forall i: nat :: OfTraceAt(before, traceID, i) <==> i != n && OfTraceAt(log, traceID, i)
    ensures forall i: nat :: RootAt(before, traceID, i) <==> i != n && RootAt(log, traceID, i)
  {
    n := |log| - 1;
    before := log[..n];
  }

  lemma {:induction false} RowPresent(log: seq<Span>, traceID: string)
    ensures traceID in After(log).traces <==> exists i: nat :: OfTraceAt(log, traceID, i)
  {
    if log != [] {
      var before, n := Shorter(log, traceID);
      RowPresent(before, traceID);
      if log[n].traceID == traceID {
        assert OfTraceAt(log, traceID, n);
      } else {
        assert !OfTraceAt(log, traceID, n);
      }
    }
  }

  /** The summary is the last root's. */
  lemma {:induction false} RowOfLastRoot(log: seq<Span>, traceID: string, r: nat)
    requires LastRoot(log, traceID, r)
    ensures traceID in After(log).traces && Summarises(After(log).traces[traceID], log[r])
  {
    var before, n := Shorter(log, traceID);
    if r < n {
      assert !RootAt(log, traceID, n);
      RowOfLastRoot(before, traceID, r);
    }
  }

  /** Before any root arrived it is the first span's start, without a name or a duration. */
  lemma {:induction false} RowOfFirst(log: seq<Span>, traceID: string, f: nat)
    requires FirstOf(log, traceID, f) && forall i: nat :: !RootAt(log, traceID, i)
    ensures traceID in After(log).traces && After(log).traces[traceID] == TraceRow("", log[f].start, 0)
  {
    var before, n := Shorter(log, traceID);
    if f < n {
      assert !RootAt(log, traceID, n);
      RowOfFirst(before, traceID, f);
    } else {
      RowPresent(before, traceID);
      assert !RootAt(log, traceID, n);
    }
  }

  lemma {:induction false} LastRootExists(log: seq<Span>, traceID: string, i: nat) returns (r: nat)
    requires RootAt(log, traceID, i)
    ensures LastRoot(log, traceID, r)
    decreases |log| - i
  {
    r := i;
    if j: nat :| i < j && RootAt(log, traceID, j) { r := LastRootExists(log, traceID, j); }
  }

  lemma {:induction false} FirstExists(log: seq<Span>, traceID: string, i: nat) returns (f: nat)
    requires OfTraceAt(log, traceID, i)
    ensures FirstOf(log, traceID, f)
  {
    f := i;
    if j: nat :| j < i && OfTraceAt(log, traceID, j) { f := FirstExists(log, traceID, j); }
  }

  predicate SameSummary(a: Span, b: Span) {
    a.name == b.name && a.start == b.start && a.duration == b.duration
  }

  /** The roots of the trace agree, or without any its spans start together. */
  ghost predicate Agreed(log: seq<Span>, traceID: string) {
    && (forall i: nat, j: nat ::
          RootAt(log, traceID, i) && RootAt(log, traceID, j) ==> SameSummary(log[i], log[j]))
    && ((exists r: nat :: RootAt(log, traceID, r)) ||
        forall i: nat, j: nat :: OfTraceAt(log, traceID, i) && OfTraceAt(log, traceID, j) ==>
          log[i].start == log[j].start)
  }

  ghost predicate SameRow(t: Tables, u: Tables, traceID: string) {
    && (traceID in t.traces <==> traceID in u.traces)
    && (traceID in t.traces ==> t.traces[traceID] == u.traces[traceID])
  }

  lemma Relocated(log: seq<Span>, log': seq<Span>, i: nat) returns (j: nat)
    requires multiset(log) == multiset(log') && i < |log|
    ensures j < |log'| && log'[j] == log[i]
  {
    assert log[i] in multiset(log');
    j :| 0 <= j < |log'| && log'[j] == log[i];
  }

  lemma RowOfAnyRoot(log: seq<Span>, traceID: string, i: nat)
    requires Agreed(log, traceID) && RootAt(log, traceID, i)
    ensures traceID in After(log).traces && Summarises(After(log).traces[traceID], log[i])
  {
    var r := LastRootExists(log, traceID, i);
    RowOfLastRoot(log, traceID, r);
  }

  lemma RowOfAnySpan(log: seq<Span>, traceID: string, i: nat)
    requires Agreed(log, traceID) && OfTraceAt(log, traceID, i) && forall r: nat :: !RootAt(log, traceID, r)
    ensures traceID in After(log).traces && After(log).traces[traceID] == TraceRow("", log[i].start, 0)
  {
    var f := FirstExists(log, traceID, i);
    RowOfFirst(log, traceID, f);
  }

  lemma AgreedRearranged(log: seq<Span>, log': seq<Span>, traceID: string)
    requires multiset(log) == multiset(log') && Agreed(log, traceID)
    ensures Agreed(log', traceID)
  {
    forall i: nat, j: nat | RootAt(log', traceID, i) && RootAt(log', traceID, j)
      ensures SameSummary(log'[i], log'[j])
    {
      var i' := Relocated(log', log, i);
      var j' := Relocated(log', log, j);
      assert RootAt(log, traceID, i') && RootAt(log, traceID, j');
    }
    if r: nat :| RootAt(log, traceID, r) {
      var r' := Relocated(log, log', r);
      assert RootAt(log', traceID, r');
    } else {
      forall i: nat, j: nat | OfTraceAt(log', traceID, i) && OfTraceAt(log', traceID, j)
        ensures log'[i].start == log'[j].start
      {
        var i' := Relocated(log', log, i);
        var j' := Relocated(log', log, j);
        assert OfTraceAt(log, traceID, i') && OfTraceAt(log, traceID, j');
      }
    }
  }

  lemma RowKept(log: seq<Span>, log': seq<Span>, traceID: string)
    requires multiset(log) == multiset(log') && Agreed(log, traceID)
    ensures SameRow(After(log), After(log'), traceID)
  {
    AgreedRearranged(log, log', traceID);
    RowPresent(log, traceID);
    RowPresent(log', traceID);
    if r: nat :| RootAt(log, traceID, r) {
      var r' := Relocated(log, log', r);
      RowOfAnyRoot(log, traceID, r);
      RowOfAnyRoot(log', traceID, r');
    } else if i: nat :| OfTraceAt(log, traceID, i) {
      var i' := Relocated(log, log', i);
      forall r: nat ensures !RootAt(log', traceID, r) {
        if RootAt(log', traceID, r) {
          var r' := Relocated(log', log, r);
          assert RootAt(log, traceID, r');
        }
      }
      RowOfAnySpan(log, traceID, i);
      RowOfAnySpan(log', traceID, i');
    } else if i: nat :| OfTraceAt(log', traceID, i) {
      var i' := Relocated(log', log, i);
      assert OfTraceAt(log, traceID, i');
    }
  }

  function Without(log: seq<Span>, i: nat): (rest: seq<Span>)
    requires i < |log|
    ensures multiset(rest) + multiset{log[i]} == multiset(log)
  {
    assert log == log[..i] + [log[i]] + log[i + 1..];
    log[..i] + log[i + 1..]
  }

  /** A root that comes last names the trace. */
  lemma RootLast(log: seq<Span>, traceID: string, i: nat) returns (log': seq<Span>)
    requires RootAt(log, traceID, i)
    ensures multiset(log') == multiset(log)
    ensures traceID in After(log').traces && Summarises(After(log').traces[traceID], log[i])
  {
    log' := Without(log, i) + [log[i]];
    assert log'[..|log'| - 1] == Without(log, i);
  }

  /** Without any root the span that comes first gives the start. */
  lemma SpanFirst(log: seq<Span>, traceID: string, i: nat) returns (log': seq<Span>)
    requires OfTraceAt(log, traceID, i) && forall r: nat :: !RootAt(log, traceID, r)
    ensures multiset(log') == multiset(log)
    ensures traceID in After(log').traces && After(log').traces[traceID] == TraceRow("", log[i].start, 0)
  {
    log' := [log[i]] + Without(log, i);
    forall r: nat ensures !RootAt(log', traceID, r) {
      if RootAt(log', traceID, r) {
        var r' := Relocated(log', log, r);
        assert RootAt(log, traceID, r');
      }
    }
    RowOfFirst(log', traceID, 0);
  }

  /** The summary row of a trace does not depend on the order of arrival exactly when its roots agree. */
  lemma RowOrderIndependentIff(log: seq<Span>, traceID: string)
    ensures Agreed(log, traceID) <==>
      forall log': seq<Span> :: multiset(log') == multiset(log) ==> SameRow(After(log), After(log'), traceID)
  {
    if Agreed(log, traceID) {
      forall log': seq<Span> | multiset(log') == multiset(log) ensures SameRow(After(log), After(log'), traceID) {
        RowKept(log, log', traceID);
      }
    } else {
      var log' := Disagreement(log, traceID);
      assert !SameRow(After(log), After(log'), traceID);
    }
  }

  lemma Disagreement(log: seq<Span>, traceID: string) returns (log': seq<Span>)
    requires !Agreed(log, traceID)
    ensures multiset(log') == multiset(log) && !SameRow(After(log), After(log'), traceID)
  {
    if i: nat, j: nat :| RootAt(log, traceID, i) && RootAt(log, traceID, j) && !SameSummary(log[i], log[j]) {
      log' := RootLast(log, traceID, i);
      if SameRow(After(log), After(log'), traceID) { log' := RootLast(log, traceID, j); }
    } else {
      var i: nat, j: nat :| OfTraceAt(log, traceID, i) && OfTraceAt(log, traceID, j) && log[i].start != log[j].start;
      log' := SpanFirst(log, traceID, i);
      if SameRow(After(log), After(log'), traceID) { log' := SpanFirst(log, traceID, j); }
    }
  }

  ghost predicate Stored(t: Tables, sp: Span) {
    sp.spanID in t.spans && t.spans[sp.spanID] == sp
  }

  /** No later span bears the id. */
  predicate LastWith(log: seq<Span>, k: nat) {
    k < |log| && forall l :: k < l < |log| ==> log[l].spanID != log[k].spanID
  }

  predicate ArrivedLast(log: seq<Span>, sp: Span, k: nat) {
    LastWith(log, k) && log[k] == sp
  }

  lemma {:induction false} AfterKeyed(log: seq<Span>)
    ensures Keyed(After(log))
  {
    if log != [] { AfterKeyed(log[..|log| - 1]); }
  }

  /** REPLACE: a span is stored exactly when it is the last one that arrived with its id. */
  lemma {:induction false} StoredIffLast(log: seq<Span>, sp: Span)
    ensures Stored(After(log), sp) <==> exists k: nat :: ArrivedLast(log, sp, k)
  {
    if log != [] {
      var n := |log| - 1;
      var before := log[..n];
      StoredIffLast(before, sp);
      if log[n].spanID == sp.spanID {
        assert forall k: nat :: ArrivedLast(log, sp, k) ==> k == n;
        assert log[n] == sp ==> ArrivedLast(log, sp, n);
      } else {
        assert forall k: nat :: ArrivedLast(log, sp, k) ==> k < n && ArrivedLast(before, sp, k);
        assert forall k: nat :: ArrivedLast(before, sp, k) ==> ArrivedLast(log, sp, k);
      }
    }
  }

  /** Spans with distinct ids are all stored, as they are. */
  lemma SpansMeaning(log: seq<Span>)
    requires DistinctIds(log)
    ensures Keyed(After(log))
    ensures forall sp: Span :: sp in log <==> Stored(After(log), sp)
  {
    forall sp: Span ensures sp in log <==> Stored(After(log), sp) {
      StoredIffLast(log, sp);
      if sp in log {
        var k: nat :| k < |log| && log[k] == sp;
        assert ArrivedLast(log, sp, k);
      }
    }
    AfterKeyed(log);
  }

  lemma Twice<T>(s: seq<T>, i: nat, j: nat)
    requires i < j < |s| && s[i] == s[j]
    ensures multiset(s)[s[i]] >= 2
  {
    assert s == s[..i] + [s[i]] + s[i + 1..];
    assert s[i + 1..][j - i - 1] == s[i];
  }

  lemma Once(log: seq<Span>, k: nat)
    requires DistinctIds(log) && k < |log|
    ensures multiset(log)[log[k]] == 1
  {
    assert log == log[..k] + [log[k]] + log[k + 1..];
    assert log[k] !in log[..k] && log[k] !in log[k + 1..];
  }

  lemma DistinctRearranged(log: seq<Span>, log': seq<Span>)
    requires DistinctIds(log) && multiset(log) == multiset(log')
    ensures DistinctIds(log')
  {
    forall i, j | 0 <= i < j < |log'| ensures log'[i].spanID != log'[j].spanID {
      var i' := Relocated(log', log, i);
      var j' := Relocated(log', log, j);
      Once(log, i');
      if log'[i] == log'[j] { Twice(log', i, j); }
    }
  }

  lemma SpansContained(log: seq<Span>, log': seq<Span>, id: string)
    requires DistinctIds(log) && DistinctIds(log') && multiset(log) == multiset(log') && id in After(log).spans
    ensures id in After(log').spans && After(log').spans[id] == After(log).spans[id]
  {
    SpansMeaning(log);
    SpansMeaning(log');
    var sp := After(log).spans[id];
    assert Stored(After(log), sp) && sp in log;
    assert sp in multiset(log') && sp in log';
  }

  /** With distinct span ids the span table does not depend on the order of arrival, nor do the counts. */
  lemma SpansOrderIndependent(log: seq<Span>, log': seq<Span>, traceID: string)
    requires DistinctIds(log) && multiset(log) == multiset(log')
    ensures After(log).spans == After(log').spans
    ensures OfTrace(After(log), traceID) == OfTrace(After(log'), traceID)
  {
    DistinctRearranged(log, log');
    var t, t' := After(log).spans, After(log').spans;
    forall id | id in t ensures id in t' && t'[id] == t[id] { SpansContained(log, log', id); }
    forall id | id in t' ensures id in t { SpansContained(log', log, id); }
  }

  /** The positions of the trace at which a span arrived last with its id. */
  ghost function LastPositions(log: seq<Span>, traceID: string): set<nat> {
    set k: nat | k < |log| && LastWith(log, k) && log[k].traceID == traceID
  }

  /** The span count of a trace is the number of its spans that are not replaced later on. */
  lemma CountMeaning(log: seq<Span>, traceID: string)
    ensures |OfTrace(After(log), traceID)| == |LastPositions(log, traceID)|
  {
    var at := LastPositions(log, traceID);
    var ids := set k <- at :: log[k].spanID;
    IdsOfPositions(log, at);
    forall id ensures id in ids <==> id in OfTrace(After(log), traceID) {
      if id in ids {
        var k :| k in at && log[k].spanID == id;
        assert ArrivedLast(log, log[k], k);
        StoredIffLast(log, log[k]);
      }
      if id in OfTrace(After(log), traceID) {
        AfterKeyed(log);
        var sp := After(log).spans[id];
        StoredIffLast(log, sp);
        var k: nat :| ArrivedLast(log, sp, k);
        assert k in at;
      }
    }
    assert ids == OfTrace(After(log), traceID);
  }

  lemma {:induction false} IdsOfPositions(log: seq<Span>, at: set<nat>)
    requires forall k <- at :: k < |log| && LastWith(log, k)
    ensures |set k <- at :: log[k].spanID| == |at|
  {
    if at != {} {
      var k :| k in at;
      var rest := at - {k};
      IdsOfPositions(log, rest);
      assert forall j <- rest :: log[j].spanID != log[k].spanID;
      assert (set j <- at :: log[j].spanID) == (set j <- rest :: log[j].spanID) + {log[k].spanID};
    }
  }

  /** With distinct ids it is the number of its spans. */
  lemma CountDistinct(log: seq<Span>, traceID: string)
    requires DistinctIds(log)
    ensures |OfTrace(After(log), traceID)| == |set k: nat | k < |log| && log[k].traceID == traceID|
  {
    CountMeaning(log, traceID);
    assert LastPositions(log, traceID) == set k: nat | k < |log| && log[k].traceID == traceID;
  }
}
