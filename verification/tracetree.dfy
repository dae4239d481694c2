/** renderSpanTree of internal/cli/commands.go. */
module TraceTree {
  import opened Sorting
  import opened TraceStore

  datatype Line = Line(span: Span, depth: nat)

  /** A way down from a root, by positions in the list. */
  ghost predicate Chain(spans: seq<Span>, c: seq<nat>) {
    && c != [] && (forall j :: 0 <= j < |c| ==> c[j] < |spans|)
    && spans[c[0]].parentID == ""
    && (forall j :: 0 < j < |c| ==> Under(spans, c[j - 1], c[j]))
  }

  predicate Under(spans: seq<Span>, i: nat, k: nat) {
    i < |spans| && k < |spans| && spans[k].parentID != "" && spans[k].parentID == spans[i].spanID
  }

  /** The spans to walk below the chain: the roots when it is empty. */
  ghost predicate Next(spans: seq<Span>, c: seq<nat>, k: nat) {
    k < |spans| && if c == [] then spans[k].parentID == "" else Under(spans, c[|c| - 1], k)
  }

  ghost predicate Bounded(spans: seq<Span>) {
    forall c :: Chain(spans, c) ==> |c| <= |spans|
  }

  /** Siblings go by start, and in list order when they start together. */
  predicate Precedes(spans: seq<Span>, i: nat, k: nat) {
    i < |spans| && k < |spans| && (spans[i].start < spans[k].start || (spans[i].start == spans[k].start && i < k))
  }

  /** Preorder: a chain comes before its extensions, and otherwise the first difference decides. */
  ghost predicate Before(spans: seq<Span>, a: seq<nat>, b: seq<nat>) {
    exists p: nat :: SplitAt(spans, a, b, p)
  }

  predicate SplitAt(spans: seq<Span>, a: seq<nat>, b: seq<nat>, p: nat) {
    p <= |a| && p < |b| && (forall k :: 0 <= k < p ==> a[k] == b[k]) && (p == |a| || Precedes(spans, a[p], b[p]))
  }

  /** The lines of the chains `chains`, which are those in `wanted` in preorder. */
  ghost predicate Preorder(spans: seq<Span>, out: seq<Line>, chains: seq<seq<nat>>, wanted: iset<seq<nat>>) {
    && |out| == |chains|
    && (forall j :: 0 <= j < |out| ==> Chain(spans, chains[j]) && out[j] == LineOf(spans, chains[j]))
    && (forall i, j :: 0 <= i < j < |out| ==> Before(spans, chains[i], chains[j]))
    && (forall c :: c in chains <==> c in wanted)
  }

  ghost function LineOf(spans: seq<Span>, c: seq<nat>): Line
    requires Chain(spans, c)
  {
    Line(spans[c[|c| - 1]], |c| - 1)
  }

  ghost function Below(spans: seq<Span>, path: seq<nat>): iset<seq<nat>> {
    iset c | Chain(spans, c) && path <= c
  }

  /** The chains that go on from the path through one of `kids`. */
  ghost function Through(spans: seq<Span>, path: seq<nat>, kids: seq<nat>): iset<seq<nat>> {
    iset c | Chain(spans, c) && path < c && c[|path|] in kids
  }

  function StartAt(spans: seq<Span>, i: nat): int {
    if i < |spans| then spans[i].start else 0
  }

  predicate Ordered(spans: seq<Span>, kids: seq<nat>) {
    forall i, j :: 0 <= i < j < |kids| ==> Precedes(spans, kids[i], kids[j])
  }

  /** `kids` are the first n positions whose parent is `parent`, in list order. */
  ghost predicate Siblings(spans: seq<Span>, kids: seq<nat>, parent: string, n: nat) {
    && (forall k <- kids :: k < n && k < |spans| && spans[k].parentID == parent)
    && (forall k: nat :: k < n && k < |spans| && spans[k].parentID == parent ==> k in kids)
    && (forall i, j :: 0 <= i < j < |kids| ==> kids[i] < kids[j])
  }

  function KidsOf(children: map<string, seq<nat>>, id: string): seq<nat> {
    if id in children then children[id] else []
  }

  ghost predicate Grouped(spans: seq<Span>, children: map<string, seq<nat>>, n: nat) {
    KidsOf(children, "") == [] && forall id :: id != "" ==> Siblings(spans, KidsOf(children, id), id, n)
  }

  lemma SiblingAdded(spans: seq<Span>, kids: seq<nat>, parent: string, n: nat)
    requires n < |spans| && Siblings(spans, kids, parent, n)
    ensures Siblings(spans, if spans[n].parentID == parent then kids + [n] else kids, parent, n + 1)
  {
    if spans[n].parentID == parent {
      var kids' := kids + [n];
      assert kids'[|kids|] == n && forall k <- kids :: k in kids';
      forall k: nat | k < n + 1 && k < |spans| && spans[k].parentID == parent ensures k in kids' {
        assert k == n || k in kids;
      }
      forall i, j | 0 <= i < j < |kids'| ensures kids'[i] < kids'[j] { assert kids'[i] == kids[i] && kids[i] in kids; }
      forall k <- kids' ensures k < n + 1 && spans[k].parentID == parent { assert k == n || k in kids; }
    }
  }

  lemma GroupedAdded(spans: seq<Span>, children: map<string, seq<nat>>, n: nat)
    requires n < |spans| && Grouped(spans, children, n)
    ensures spans[n].parentID == "" ==> Grouped(spans, children, n + 1)
    ensures spans[n].parentID != "" ==>
      Grouped(spans, children[spans[n].parentID := KidsOf(children, spans[n].parentID) + [n]], n + 1)
  {
    var children' := children[spans[n].parentID := KidsOf(children, spans[n].parentID) + [n]];
    forall id | id != ""
      ensures Siblings(spans, if spans[n].parentID == id then KidsOf(children, id) + [n] else KidsOf(children, id),
                       id, n + 1)
    {
      SiblingAdded(spans, KidsOf(children, id), id, n);
    }
    forall id
      ensures KidsOf(children', id) ==
        if spans[n].parentID == id then KidsOf(children, id) + [n] else KidsOf(children, id)
    {
    }
  }

  lemma KidsUnder(spans: seq<Span>, children: map<string, seq<nat>>, s: nat)
    requires Grouped(spans, children, |spans|) && s < |spans|
    ensures Listed(spans, KidsOf(children, spans[s].spanID))
    ensures forall k: nat :: k in KidsOf(children, spans[s].spanID) <==> Under(spans, s, k)
  {
  }

  predicate Listed(spans: seq<Span>, kids: seq<nat>) {
    (forall k <- kids :: k < |spans|) && forall i, j :: 0 <= i < j < |kids| ==> kids[i] < kids[j]
  }

  /** sort.Slice by start */
  method SortByStart(spans: seq<Span>, kids: seq<nat>) returns (q: seq<nat>)
    requires Listed(spans, kids)
    ensures Ordered(spans, q) && forall k: nat :: k in q <==> k in kids
  {
    ghost var order;
    q, order := SliceStable(kids, (i: nat, k: nat) => StartAt(spans, i) <= StartAt(spans, k));
    forall k | k in kids ensures k in q {
      var i :| 0 <= i < |kids| && kids[i] == k;
      assert i in order;
    }
    forall i, j | 0 <= i < j < |q| ensures Precedes(spans, q[i], q[j]) {
      assert q[i] in kids && q[j] in kids;
    }
  }

  lemma Joined(spans: seq<Span>, out: seq<Line>, chains: seq<seq<nat>>, wanted: iset<seq<nat>>,
               out': seq<Line>, chains': seq<seq<nat>>, wanted': iset<seq<nat>>)
    requires Preorder(spans, out, chains, wanted) && Preorder(spans, out', chains', wanted')
    requires forall a <- wanted, b <- wanted' :: Before(spans, a, b)
    ensures Preorder(spans, out + out', chains + chains', wanted + wanted')
  {
    var n, all, lines := |chains|, chains + chains', out + out';
    forall j | 0 <= j < |lines| ensures Chain(spans, all[j]) && lines[j] == LineOf(spans, all[j]) {
      if j < n { assert all[j] == chains[j]; } else { assert all[j] == chains'[j - n]; }
    }
    forall i, j | 0 <= i < j < |lines| ensures Before(spans, all[i], all[j]) {
      if j < n {
        assert Before(spans, chains[i], chains[j]);
      } else if i < n {
        assert chains[i] in wanted && chains'[j - n] in wanted';
      } else {
        assert Before(spans, chains'[i - n], chains'[j - n]);
      }
    }
  }

  lemma OneMoreKid(spans: seq<Span>, path: seq<nat>, kids: seq<nat>, j: nat)
    requires j < |kids| && Ordered(spans, kids)
    ensures Through(spans, path, kids[..j + 1]) == Through(spans, path, kids[..j]) + Below(spans, path + [kids[j]])
    ensures forall a <- Through(spans, path, kids[..j]), b <- Below(spans, path + [kids[j]]) :: Before(spans, a, b)
  {
    assert kids[..j + 1] == kids[..j] + [kids[j]];
    forall c
      ensures c in Through(spans, path, kids[..j + 1]) <==>
        c in Through(spans, path, kids[..j]) + Below(spans, path + [kids[j]])
    {
      if path + [kids[j]] <= c { assert c[|path|] == (path + [kids[j]])[|path|] && c[..|path|] == path; }
    }
    forall a <- Through(spans, path, kids[..j]), b <- Below(spans, path + [kids[j]]) ensures Before(spans, a, b) {
      assert b[|path|] == (path + [kids[j]])[|path|] && b[..|path|] == path;
      assert SplitAt(spans, a, b, |path|);
    }
  }

  lemma PathFirst(spans: seq<Span>, path: seq<nat>, kids: seq<nat>)
    requires Chain(spans, path) && forall k: nat :: Next(spans, path, k) ==> k in kids
    ensures Below(spans, path) == iset{path} + Through(spans, path, kids)
    ensures forall b <- Through(spans, path, kids) :: Before(spans, path, b)
  {
    forall c | c in Below(spans, path) && c != path ensures c in Through(spans, path, kids) {
      assert Next(spans, path, c[|path|]);
    }
    forall b <- Through(spans, path, kids) ensures Before(spans, path, b) {
      assert SplitAt(spans, path, b, |path|);
    }
  }

  lemma OwnLine(spans: seq<Span>, path: seq<nat>)
    requires Chain(spans, path)
    ensures Preorder(spans, [LineOf(spans, path)], [path], iset{path})
  {
  }

  method Walk(spans: seq<Span>, children: map<string, seq<nat>>, s: nat, depth: nat, ghost path: seq<nat>)
    returns (out: seq<Line>, ghost chains: seq<seq<nat>>)
    requires Bounded(spans) && Grouped(spans, children, |spans|)
    requires Chain(spans, path) && |path| == depth + 1 && path[depth] == s
    ensures Preorder(spans, out, chains, Below(spans, path))
    decreases |spans| - depth, 1
  {
    out, chains := [Line(spans[s], depth)], [path];
    OwnLine(spans, path);
    var kids := KidsOf(children, spans[s].spanID);
    KidsUnder(spans, children, s);
    kids := SortByStart(spans, kids);
    PathFirst(spans, path, kids);
    var more;
    ghost var moreChains;
    more, moreChains := WalkEach(spans, children, kids, depth + 1, path);
    Joined(spans, out, chains, iset{path}, more, moreChains, Through(spans, path, kids));
    out, chains := out + more, chains + moreChains;
  }

  /** Both loops over walk: below a span and over the roots. */
  method WalkEach(spans: seq<Span>, children: map<string, seq<nat>>, kids: seq<nat>, depth: nat, ghost path: seq<nat>)
    returns (out: seq<Line>, ghost chains: seq<seq<nat>>)
    requires Bounded(spans) && Grouped(spans, children, |spans|)
    requires |path| == depth && (path == [] || Chain(spans, path))
    requires Ordered(spans, kids) && forall k <- kids :: Next(spans, path, k)
    ensures Preorder(spans, out, chains, Through(spans, path, kids))
    decreases |spans| - depth, 2
  {
    out, chains := [], [];
    for j := 0 to |kids|
      invariant Preorder(spans, out, chains, Through(spans, path, kids[..j]))
    {
      var more;
      ghost var moreChains;
      assert Next(spans, path, kids[j]);
      assert Chain(spans, path + [kids[j]]);
      more, moreChains := Walk(spans, children, kids[j], depth, path + [kids[j]]);
      OneMoreKid(spans, path, kids, j);
      Joined(spans, out, chains, Through(spans, path, kids[..j]), more, moreChains, Below(spans, path + [kids[j]]));
      out, chains := out + more, chains + moreChains;
    }
    assert kids[..|kids|] == kids;
  }

  /** The loop that sorts the spans into children and roots. */
  method Group(spans: seq<Span>) returns (children: map<string, seq<nat>>, roots: seq<nat>)
    ensures Grouped(spans, children, |spans|) && Listed(spans, roots)
    ensures forall k: nat :: k in roots <==> k < |spans| && spans[k].parentID == ""
  {
    children, roots := map[], [];
    for n := 0 to |spans|
      invariant Grouped(spans, children, n) && Siblings(spans, roots, "", n)
    {
      GroupedAdded(spans, children, n);
      SiblingAdded(spans, roots, "", n);
      if spans[n].parentID == "" {
        roots := roots + [n];
      } else {
        children := children[spans[n].parentID := KidsOf(children, spans[n].parentID) + [n]];
      }
    }
  }

  /**
   The printed lines are those of all chains, in preorder. It terminates whenever no chain
   is longer than the list; UnboundedIff says what happens otherwise.
   */
  method RenderSpanTree(spans: seq<Span>) returns (out: seq<Line>, ghost chains: seq<seq<nat>>)
    requires Bounded(spans)
    ensures AllChainsPrinted(spans, out, chains)
  {
    var children, roots := Group(spans);
    roots := SortByStart(spans, roots);
    out, chains := WalkEach(spans, children, roots, 0, []);
  }

  // ---------------------------------------------------------------- termination

  lemma {:induction false} Pigeonhole(c: seq<nat>, n: nat)
    requires forall i :: 0 <= i < |c| ==> c[i] < n
    requires forall i, j :: 0 <= i < j < |c| ==> c[i] != c[j]
    ensures |c| <= n
  {
    assert c != [] ==> c[0] < n;
    if k :| 0 <= k < |c| && c[k] == n - 1 {
      Pigeonhole(c[..k] + c[k + 1..], n - 1);
    } else if n > 0 {
      Pigeonhole(c, n - 1);
    }
  }

  /** A chain longer than the list repeats a span, so that it can be gone round again. */
  lemma Longer(spans: seq<Span>, c: seq<nat>) returns (d: seq<nat>)
    requires Chain(spans, c) && |c| > |spans|
    ensures Chain(spans, d) && |d| > |c|
  {
    if forall i, j :: 0 <= i < j < |c| ==> c[i] != c[j] { Pigeonhole(c, |spans|); }
    var i, j :| 0 <= i < j < |c| && c[i] == c[j];
    d := c[..j] + c[i..];
    forall k | 0 < k < |d| ensures Under(spans, d[k - 1], d[k]) {
      if k < j {
        assert d[k - 1] == c[k - 1] && d[k] == c[k];
      } else if k == j {
        assert d[k - 1] == c[j - 1] && d[k] == c[j];
      } else {
        assert d[k - 1] == c[k - 1 - j + i] && d[k] == c[k - j + i];
      }
    }
  }

  lemma {:induction false} AsLong(spans: seq<Span>, c: seq<nat>, m: nat) returns (d: seq<nat>)
    requires Chain(spans, c) && |c| > |spans|
    ensures Chain(spans, d) && |d| >= m
    decreases m - |c|
  {
    d := c;
    if |c| < m {
      d := Longer(spans, c);
      d := AsLong(spans, d, m);
    }
  }

  ghost predicate Reaches(spans: seq<Span>, depth: nat) {
    exists c :: Chain(spans, c) && |c| == depth + 1
  }

  /** Without the bound the walk never ends: it goes on to every depth. */
  lemma UnboundedIff(spans: seq<Span>)
    ensures !Bounded(spans) <==> forall depth: nat :: Reaches(spans, depth)
  {
    if !Bounded(spans) {
      var c :| Chain(spans, c) && |c| > |spans|;
      forall depth: nat ensures Reaches(spans, depth) {
        var d := AsLong(spans, c, depth + 1);
        assert Chain(spans, d[..depth + 1]);
      }
    } else {
      assert !Reaches(spans, |spans|);
    }
  }

  /** Two spans of one id: the walk descends from the second to itself. */
  lemma SharedIdLoops(root: Span, child: Span)
    requires root.parentID == "" && root.spanID != "" && child.spanID == child.parentID == root.spanID
    ensures !Bounded([root, child])
  {
    var spans := [root, child];
    assert Chain(spans, [0, 1, 1]);
  }

  /** With distinct ids there is at most one way down to a span. */
  lemma {:induction false} ChainUnique(spans: seq<Span>, a: seq<nat>, b: seq<nat>)
    requires DistinctIds(spans) && Chain(spans, a) && Chain(spans, b) && a[|a| - 1] == b[|b| - 1]
    ensures a == b
  {
    var m, n := |a| - 1, |b| - 1;
    assert m > 0 ==> Under(spans, a[m - 1], a[m]);
    assert n > 0 ==> Under(spans, b[n - 1], b[n]);
    if m > 0 && n > 0 {
      assert a[m - 1] == b[n - 1];
      ChainUnique(spans, a[..m], b[..n]);
      assert a == a[..m] + [a[m]] && b == b[..n] + [b[n]];
    }
  }

  /** Distinct ids, which the primary key gives, are enough for the walk to end, whatever the parents. */
  lemma DistinctBounded(spans: seq<Span>)
    requires DistinctIds(spans)
    ensures Bounded(spans)
  {
    forall c | Chain(spans, c) ensures |c| <= |spans| {
      forall i, j | 0 <= i < j < |c| ensures c[i] != c[j] {
        assert Chain(spans, c[..i + 1]) && Chain(spans, c[..j + 1]);
        if c[i] == c[j] { ChainUnique(spans, c[..i + 1], c[..j + 1]); }
      }
      Pigeonhole(c, |spans|);
    }
  }

  // ---------------------------------------------------------------- what is printed

  /** Going up n times from a span by parent id ends at a root. */
  ghost predicate Rooted(spans: seq<Span>, i: nat, n: nat)
    decreases n
  {
    i < |spans| &&
    if n == 0 then spans[i].parentID == ""
    else exists p: nat :: Under(spans, p, i) && Rooted(spans, p, n - 1)
  }

  lemma {:induction false} ChainOfRooted(spans: seq<Span>, i: nat, n: nat) returns (c: seq<nat>)
    requires Rooted(spans, i, n)
    ensures Chain(spans, c) && |c| == n + 1 && c[n] == i
    decreases n
  {
    if n == 0 {
      c := [i];
    } else {
      var p: nat :| Under(spans, p, i) && Rooted(spans, p, n - 1);
      c := ChainOfRooted(spans, p, n - 1);
      c := c + [i];
    }
  }

  lemma {:induction false} RootedOfChain(spans: seq<Span>, c: seq<nat>)
    requires Chain(spans, c)
    ensures Rooted(spans, c[|c| - 1], |c| - 1)
  {
    var n := |c| - 1;
    if n > 0 {
      assert Chain(spans, c[..n]);
      RootedOfChain(spans, c[..n]);
      assert Under(spans, c[n - 1], c[n]);
    }
  }

  ghost predicate AllChainsPrinted(spans: seq<Span>, out: seq<Line>, chains: seq<seq<nat>>) {
    Preorder(spans, out, chains, iset c | Chain(spans, c))
  }

  /** A line for a span at a depth stands in the output exactly when that many steps up lead to a root. */
  lemma PrintedIffRooted(spans: seq<Span>, out: seq<Line>, chains: seq<seq<nat>>, sp: Span, depth: nat)
    requires AllChainsPrinted(spans, out, chains)
    ensures Line(sp, depth) in out <==> exists i: nat :: i < |spans| && spans[i] == sp && Rooted(spans, i, depth)
  {
    if Line(sp, depth) in out { PrintedRooted(spans, out, chains, sp, depth); }
    if i: nat :| i < |spans| && spans[i] == sp && Rooted(spans, i, depth) {
      var c := ChainOfRooted(spans, i, depth);
      ChainPrinted(spans, out, chains, c);
    }
  }

  lemma PrintedRooted(spans: seq<Span>, out: seq<Line>, chains: seq<seq<nat>>, sp: Span, depth: nat)
    requires AllChainsPrinted(spans, out, chains) && Line(sp, depth) in out
    ensures exists i: nat :: i < |spans| && spans[i] == sp && Rooted(spans, i, depth)
  {
    var j :| 0 <= j < |out| && out[j] == Line(sp, depth);
    RootedOfChain(spans, chains[j]);
  }

  lemma ChainPrinted(spans: seq<Span>, out: seq<Line>, chains: seq<seq<nat>>, c: seq<nat>)
    requires AllChainsPrinted(spans, out, chains) && Chain(spans, c)
    ensures LineOf(spans, c) in out
  {
    assert c in chains;
    var j :| 0 <= j < |chains| && chains[j] == c;
    assert out[j] == LineOf(spans, c);
  }

  /** With distinct ids no span is printed twice. */
  lemma PrintedOnce(spans: seq<Span>, out: seq<Line>, chains: seq<seq<nat>>, i: nat, j: nat)
    requires DistinctIds(spans) && AllChainsPrinted(spans, out, chains) && i < j < |out|
    ensures out[i].span.spanID != out[j].span.spanID
  {
    assert Before(spans, chains[i], chains[j]);
    if out[i].span.spanID == out[j].span.spanID { ChainUnique(spans, chains[i], chains[j]); }
  }

  /** Below the top level every line comes after its parent's, one level deeper. */
  lemma ParentFirst(spans: seq<Span>, out: seq<Line>, chains: seq<seq<nat>>, j: nat) returns (i: nat)
    requires AllChainsPrinted(spans, out, chains) && j < |out| && out[j].depth > 0
    ensures i < j && out[i].span.spanID == out[j].span.parentID && out[i].depth == out[j].depth - 1
  {
    var c := chains[j];
    var n := |c| - 1;
    assert Under(spans, c[n - 1], c[n]);
    assert Chain(spans, c[..n]) && c[..n] in chains;
    i :| 0 <= i < |chains| && chains[i] == c[..n];
    assert SplitAt(spans, c[..n], c, n);
  }

  /** Of two lines below one parent, or of two roots, the one that starts earlier comes first. */
  lemma SiblingsByStart(spans: seq<Span>, out: seq<Line>, chains: seq<seq<nat>>, i: nat, j: nat)
    requires DistinctIds(spans) && AllChainsPrinted(spans, out, chains) && i < j < |out|
    requires out[i].span.parentID == out[j].span.parentID
    ensures out[i].span.start <= out[j].span.start
  {
    var a, b := chains[i], chains[j];
    var m, n := |a| - 1, |b| - 1;
    assert m > 0 ==> Under(spans, a[m - 1], a[m]);
    assert n > 0 ==> Under(spans, b[n - 1], b[n]);
    assert Before(spans, a, b);
    if m > 0 {
      assert Chain(spans, a[..m]) && Chain(spans, b[..n]);
      ChainUnique(spans, a[..m], b[..n]);
    }
    assert a[..m] == b[..n];
    assert forall k :: 0 <= k < m ==> a[k] == a[..m][k] == b[..n][k] == b[k];
  }
}
