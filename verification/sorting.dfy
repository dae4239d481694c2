/** Go's sort.Strings, sort.Slice and sort.SliceStable, all by a stable insertion sort. */
module Sorting {
  import opened Text

  ghost predicate TotalPreorder<T(!new)>(le: (T, T) -> bool) {
    && (forall a, b :: le(a, b) || le(b, a))
    && (forall a, b, c :: le(a, b) && le(b, c) ==> le(a, c))
  }

  /** `order` lists every index of s once, and q is s in that order. */
  ghost predicate Rearranges<T>(s: seq<T>, q: seq<T>, order: seq<nat>) {
    && |q| == |order| == |s|
    && (forall i :: 0 <= i < |order| ==> order[i] < |s| && q[i] == s[order[i]])
    && (forall i, j :: 0 <= i < j < |order| ==> order[i] != order[j])
    && (forall k :: 0 <= k < |s| ==> k in order)
  }

  ghost predicate StablySorted<T(!new)>(le: (T, T) -> bool, q: seq<T>, order: seq<nat>)
    requires |q| == |order|
  {
    forall i, j :: 0 <= i < j < |q| ==> le(q[i], q[j]) && (le(q[j], q[i]) ==> order[i] < order[j])
  }

  method SliceStable<T(!new)>(s: seq<T>, le: (T, T) -> bool) returns (q: seq<T>, ghost order: seq<nat>)
    requires TotalPreorder(le)
    ensures Rearranges(s, q, order) && StablySorted(le, q, order)
  {
    q, order := [], [];
    for n := 0 to |s|
      invariant Rearranges(s[..n], q, order) && StablySorted(le, q, order)
    {
      var x := s[n];
      var k := |q|;
      while k > 0 && !le(q[k - 1], x)
        invariant 0 <= k <= |q|
        invariant forall i :: k <= i < |q| ==> !le(q[i], x)
      {
        k := k - 1;
      }
      assert forall i :: 0 <= i < k ==> le(q[i], x);
      InsertRearranges(s, n, q, order, k);
      forall i | k <= i < |q| ensures le(x, q[i]) { assert !le(q[i], x); }
      InsertSorted(q, order, k, x, n, le);
      q, order := InsertAt(q, k, x), InsertAt(order, k, n);
    }
    assert s[..|s|] == s;
  }

  function InsertAt<T>(q: seq<T>, k: nat, x: T): (r: seq<T>)
    requires k <= |q|
    ensures |r| == |q| + 1
    ensures forall i :: 0 <= i < |r| ==> r[i] == if i < k then q[i] else if i == k then x else q[i - 1]
  {
    q[..k] + [x] + q[k..]
  }

  lemma InsertRearranges<T>(s: seq<T>, n: nat, q: seq<T>, order: seq<nat>, k: nat)
    requires n < |s| && Rearranges(s[..n], q, order) && k <= |q|
    ensures Rearranges(s[..n + 1], InsertAt(q, k, s[n]), InsertAt(order, k, n))
  {
    var order' := InsertAt(order, k, n);
    forall m | 0 <= m < n + 1 ensures m in order' {
      if m == n { assert order'[k] == n; } else { StillListed(order, k, n, m); }
    }
  }

  lemma StillListed(order: seq<nat>, k: nat, x: nat, m: nat)
    requires k <= |order| && m in order
    ensures m in InsertAt(order, k, x)
  {
    var i :| 0 <= i < |order| && order[i] == m;
    assert InsertAt(order, k, x)[if i < k then i else i + 1] == m;
  }

  lemma InsertSorted<T(!new)>(q: seq<T>, order: seq<nat>, k: nat, x: T, n: nat, le: (T, T) -> bool)
    requires |q| == |order| && StablySorted(le, q, order)
    requires forall i :: 0 <= i < |order| ==> order[i] < n
    requires k <= |q| && (forall i :: 0 <= i < k ==> le(q[i], x))
    requires forall i :: k <= i < |q| ==> !le(q[i], x) && le(x, q[i])
    ensures StablySorted(le, InsertAt(q, k, x), InsertAt(order, k, n))
  {
    var q', order' := InsertAt(q, k, x), InsertAt(order, k, n);
    forall i, j | 0 <= i < j < |q'| ensures le(q'[i], q'[j]) && (le(q'[j], q'[i]) ==> order'[i] < order'[j]) {
      var a, b := if i < k then i else i - 1, if j < k then j else j - 1;
      if i != k && j != k { assert le(q[a], q[b]) && (le(q[b], q[a]) ==> order[a] < order[b]); }
    }
  }

  predicate NotAfter(a: string, b: string) {
    !Less(b, a)
  }

  lemma StringsTotal()
    ensures TotalPreorder(NotAfter)
  {
    forall a, b ensures NotAfter(a, b) || NotAfter(b, a) { LessTotal(a, b); }
    forall a, b, c | NotAfter(a, b) && NotAfter(b, c) ensures NotAfter(a, c) {
      LessTotal(a, b);
      LessTotal(b, c);
      LessTotal(a, c);
      if Less(a, b) && Less(b, c) { LessTransitive(a, b, c); }
    }
  }

  /** sort.Strings on the distinct keys of a map. */
  method SortNames(names: seq<string>, ghost keys: set<string>) returns (q: seq<string>)
    requires (forall i, j :: 0 <= i < j < |names| ==> names[i] != names[j]) && (forall n :: n in names <==> n in keys)
    ensures q == Sorted(keys)
  {
    ghost var order;
    StringsTotal();
    q, order := SliceStable(names, NotAfter);
    forall i, j | 0 <= i < j < |q| ensures Less(q[i], q[j]) {
      assert NotAfter(q[i], q[j]);
      LessTotal(q[i], q[j]);
    }
    forall n ensures n in q <==> n in Sorted(keys) {
      if n in names {
        var k :| 0 <= k < |names| && names[k] == n;
        assert k in order;
      }
    }
    AscendingUnique(q, Sorted(keys));
  }

  /** The keys of a Go map in whatever order the runtime yields them. */
  method KeysOf<V>(m: map<string, V>) returns (names: seq<string>)
    ensures (forall i, j :: 0 <= i < j < |names| ==> names[i] != names[j]) && (forall n :: n in names <==> n in m.Keys)
  {
    names := [];
    var rest := m.Keys;
    while rest != {}
      invariant forall i, j :: 0 <= i < j < |names| ==> names[i] != names[j]
      invariant rest <= m.Keys && forall n :: n in names <==> n in m.Keys - rest
      decreases rest
    {
      var n :| n in rest;
      assert n !in names;
      names, rest := names + [n], rest - {n};
    }
  }

  /** A listing without repetitions is as long as what it lists is large. */
  lemma {:induction false} DistinctCover<T>(q: seq<T>, all: set<T>)
    requires (forall i, j :: 0 <= i < j < |q| ==> q[i] != q[j]) && (forall x :: x in q <==> x in all)
    ensures |q| == |all|
  {
    if q != [] {
      var last, init := q[|q| - 1], q[..|q| - 1];
      assert q == init + [last] && last !in init;
      DistinctCover(init, all - {last});
    }
  }
}
