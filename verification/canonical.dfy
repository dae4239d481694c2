/**
 The text that rootDigest hashes, for the bundle and for the evidence archive: for every
 name in ascending order the name, a NUL and a payload.
 */
module Canonical {
  import opened Text
  import Sorting

  function Lines(names: seq<string>, m: map<string, string>): string
    requires forall n <- names :: n in m
  {
    if names == [] then "" else names[0] + [NUL] + m[names[0]] + Lines(names[1..], m)
  }

  ghost function TextOf(m: map<string, string>): string {
    Lines(Sorted(m.Keys), m)
  }

  lemma {:induction false} LinesAppend(names: seq<string>, n: string, m: map<string, string>)
    requires n in m && forall x <- names :: x in m
    ensures Lines(names + [n], m) == Lines(names, m) + (n + [NUL] + m[n])
  {
    if names == [] {
      assert ([] + [n])[1..] == [];
    } else {
      assert (names + [n])[1..] == names[1..] + [n];
      LinesAppend(names[1..], n, m);
    }
  }

  lemma LineAdded(names: seq<string>, i: nat, m: map<string, string>)
    requires i < |names| && forall n <- names :: n in m
    ensures Lines(names[..i + 1], m) == Lines(names[..i], m) + (names[i] + [NUL] + m[names[i]])
  {
    LinesAppend(names[..i], names[i], m);
    assert names[..i + 1] == names[..i] + [names[i]];
  }

  /** The loop of rootDigest: the keys come in any order, the text depends on the map alone. */
  method Print(m: map<string, string>) returns (text: string)
    ensures text == TextOf(m)
  {
    var names := Sorting.KeysOf(m);
    names := Sorting.SortNames(names, m.Keys);
    assert forall n <- names :: n in m;
    text := "";
    for i := 0 to |names|
      invariant text == Lines(names[..i], m)
    {
      LineAdded(names, i, m);
      text := text + (names[i] + [NUL] + m[names[i]]);
    }
    assert names[..|names|] == names;
  }

  /** No payload is the beginning of another, so a payload shows where it ends. */
  ghost predicate PrefixFree(payloads: set<string>) {
    forall p, q :: p in payloads && q in payloads && p <= q ==> p == q
  }

  predicate NulFreeNames<V>(m: map<string, V>) {
    forall n <- m :: NUL !in n
  }

  lemma PrefixFreeSplit(p: string, x: string, q: string, y: string)
    requires PrefixFree({p, q}) && p + x == q + y
    ensures p == q && x == y
  {
    assert p == (p + x)[..|p|] && q == (q + y)[..|q|];
    assert (|p| <= |q| ==> p <= q) && (|q| <= |p| ==> q <= p);
    assert x == (p + x)[|p|..] && y == (q + y)[|q|..];
  }

  lemma {:induction false} LinesInjective(p: seq<string>, m: map<string, string>, q: seq<string>,
                                          w: map<string, string>)
    requires (forall n <- p :: n in m && NUL !in n) && (forall n <- q :: n in w && NUL !in n)
    requires PrefixFree(m.Values + w.Values) && Lines(p, m) == Lines(q, w)
    ensures p == q && forall n <- p :: m[n] == w[n]
  {
    if p != [] && q != [] {
      var a, b := p[0], q[0];
      assert Lines(p, m) == a + [NUL] + (m[a] + Lines(p[1..], m));
      assert Lines(q, w) == b + [NUL] + (w[b] + Lines(q[1..], w));
      FirstSeparator(NUL, a, m[a] + Lines(p[1..], m), b, w[b] + Lines(q[1..], w));
      assert m[a] in m.Values && w[b] in w.Values;
      PrefixFreeSplit(m[a], Lines(p[1..], m), w[b], Lines(q[1..], w));
      LinesInjective(p[1..], m, q[1..], w);
      assert p == [a] + p[1..] && q == [b] + q[1..];
    }
  }

  /** Different maps have different texts. */
  lemma TextInjective(m: map<string, string>, w: map<string, string>)
    requires NulFreeNames(m) && NulFreeNames(w) && PrefixFree(m.Values + w.Values)
    requires TextOf(m) == TextOf(w)
    ensures m == w
  {
    LinesInjective(Sorted(m.Keys), m, Sorted(w.Keys), w);
    assert forall n :: n in m <==> n in Sorted(m.Keys);
    assert forall n :: n in w <==> n in Sorted(w.Keys);
  }

  /** How often the separator stands in the text: once a name, and wherever names and payloads hold it. */
  lemma {:induction false} LinesNuls(names: seq<string>, m: map<string, string>)
    requires names != [] && forall n <- names :: n in m
    ensures Nuls(Lines(names, m)) == Nuls(names[0]) + 1 + Nuls(m[names[0]]) + Nuls(Lines(names[1..], m))
  {
    var n := names[0];
    assert Lines(names, m) == n + [NUL] + (m[n] + Lines(names[1..], m));
    NulsJoin(n, m[n] + Lines(names[1..], m));
    NulsConcat(m[n], Lines(names[1..], m));
  }

  /** A listing with fewer names, and payloads without the separator, holds it less often. */
  lemma {:induction false} FewerNuls(p: seq<string>, m: map<string, string>, q: seq<string>, w: map<string, string>)
    requires Ascending(p) && Ascending(q) && forall n <- q :: n in p
    requires (forall n <- p :: n in m) && (forall n <- q :: n in w && NUL !in w[n])
    ensures Nuls(Lines(p, m)) >= Nuls(Lines(q, w))
    ensures Nuls(Lines(p, m)) == Nuls(Lines(q, w)) ==> p == q && forall n <- p :: NUL !in m[n]
    decreases |p|
  {
    assert q != [] ==> q[0] in p;
    if p != [] {
      LinesNuls(p, m);
      NulsZero(m[p[0]]);
      if q != [] && q[0] == p[0] {
        LinesNuls(q, w);
        NulsZero(w[q[0]]);
        forall n <- q[1..] ensures n in p[1..] { LaterName(p, q, n); }
        FewerNuls(p[1..], m, q[1..], w);
        assert p == [p[0]] + p[1..] && q == [q[0]] + q[1..];
      } else {
        forall n <- q ensures n in p[1..] { NotTheFirst(p, q, n); }
        FewerNuls(p[1..], m, q, w);
      }
    }
  }

  lemma LaterName(p: seq<string>, q: seq<string>, n: string)
    requires Ascending(q) && p != [] && q != [] && q[0] == p[0] && n in q[1..] && n in p
    ensures n in p[1..]
  {
    var i :| 0 <= i < |q[1..]| && q[1..][i] == n;
    assert Less(q[0], q[i + 1]);
    LessTotal(q[0], q[0]);
    assert p == [p[0]] + p[1..];
  }

  lemma NotTheFirst(p: seq<string>, q: seq<string>, n: string)
    requires Ascending(p) && Ascending(q) && p != [] && (q == [] || q[0] != p[0])
    requires n in q && forall x <- q :: x in p
    ensures n in p[1..]
  {
    assert q[0] in p;
    LessTotal(p[0], n);
    if n == p[0] { LessTotal(p[0], q[0]); }
    assert p == [p[0]] + p[1..];
  }

  lemma {:induction false} UpToNul(b: string) returns (head: string, rest: string)
    ensures b + [NUL] == head + [NUL] + rest && NUL !in head
  {
    if b == [] {
      head, rest := [], [];
    } else if b[0] == NUL {
      head, rest := [], b[1..] + [NUL];
      assert b == [NUL] + b[1..];
    } else {
      head, rest := UpToNul(b[1..]);
      assert b + [NUL] == [b[0]] + (b[1..] + [NUL]);
      head := [b[0]] + head;
    }
  }

  /** Before one and the same name, a payload without the separator ends where the other does. */
  lemma NextName(b: string, p: string, x: string, q: string, y: string)
    requires NUL !in p && NUL !in q && p + (b + [NUL] + x) == q + (b + [NUL] + y)
    ensures p == q
  {
    var head, rest := UpToNul(b);
    assert p + (b + [NUL] + x) == p + head + [NUL] + (rest + x);
    assert q + (b + [NUL] + y) == q + head + [NUL] + (rest + y);
    FirstSeparator(NUL, p + head, rest + x, q + head, rest + y);
    assert p == (p + head)[..|p|] && q == (q + head)[..|q|];
  }

  /** With the same names, payloads without the separator end where they must. */
  lemma {:induction false} SameNamesSplit(names: seq<string>, m: map<string, string>, w: map<string, string>)
    requires forall n <- names :: n in m && n in w && NUL !in m[n] && NUL !in w[n]
    requires Lines(names, m) == Lines(names, w)
    ensures forall n <- names :: m[n] == w[n]
  {
    if names != [] {
      var a := names[0];
      var x, y := Lines(names[1..], m), Lines(names[1..], w);
      assert Lines(names, m) == a + [NUL] + (m[a] + x) && Lines(names, w) == a + [NUL] + (w[a] + y);
      AfterName(a, m[a] + x, w[a] + y);
      FirstPayload(names, m, w);
      assert x == (m[a] + x)[|m[a]|..] && y == (w[a] + y)[|w[a]|..];
      SameNamesSplit(names[1..], m, w);
      assert names == [a] + names[1..];
    }
  }

  lemma AfterName(a: string, x: string, y: string)
    requires a + [NUL] + x == a + [NUL] + y
    ensures x == y
  {
    assert x == (a + [NUL] + x)[|a| + 1..] && y == (a + [NUL] + y)[|a| + 1..];
  }

  lemma FirstPayload(names: seq<string>, m: map<string, string>, w: map<string, string>)
    requires names != [] && forall n <- names :: n in m && n in w && NUL !in m[n] && NUL !in w[n]
    requires m[names[0]] + Lines(names[1..], m) == w[names[0]] + Lines(names[1..], w)
    ensures m[names[0]] == w[names[0]]
  {
    var a, rest := names[0], names[1..];
    if rest == [] {
      assert m[a] + "" == m[a] && w[a] + "" == w[a];
    } else {
      var b := rest[0];
      var x, y := m[b] + Lines(rest[1..], m), w[b] + Lines(rest[1..], w);
      assert Lines(rest, m) == b + [NUL] + x && Lines(rest, w) == b + [NUL] + y;
      NextName(b, m[a], x, w[a], y);
    }
  }

  /**
   A map with fewer names and payloads without the separator has the text of no other map,
   whatever the other holds.
   */
  lemma SubsetTextInjective(m: map<string, string>, w: map<string, string>)
    requires w.Keys <= m.Keys && (forall n <- w :: NUL !in w[n]) && TextOf(m) == TextOf(w)
    ensures m == w
  {
    var p, q := Sorted(m.Keys), Sorted(w.Keys);
    assert forall n :: n in p <==> n in m;
    assert forall n :: n in q <==> n in w;
    FewerNuls(p, m, q, w);
    SameNamesSplit(p, m, w);
  }

  lemma {:induction false} LinesOfNames(names: seq<string>, m: map<string, string>, w: map<string, string>)
    requires forall n <- names :: n in m && n in w && m[n] == w[n]
    ensures Lines(names, m) == Lines(names, w)
  {
    if names != [] { LinesOfNames(names[1..], m, w); }
  }

  /** The text of a map grows by a line with its greatest name; with that of no names it is fixed. */
  lemma TextGrows(m: map<string, string>, n: string, payload: string)
    requires forall x <- m :: Less(x, n)
    ensures TextOf(map[]) == ""
    ensures TextOf(m[n := payload]) == TextOf(m) + (n + "\0" + payload)
  {
    var names := Sorted(m.Keys);
    LessTotal(n, n);
    assert forall x <- names :: x in m.Keys;
    AscendingUnique(Sorted(m[n := payload].Keys), names + [n]);
    LinesAppend(names, n, m[n := payload]);
    LinesOfNames(names, m[n := payload], m);
  }

  lemma TextOfOne(n: string, m: map<string, string>)
    requires m.Keys == {n}
    ensures TextOf(m) == n + [NUL] + m[n]
  {
    AscendingUnique(Sorted(m.Keys), [n]);
    assert [n][1..] == [];
    assert n + [NUL] + m[n] + Lines([], m) == n + [NUL] + m[n];
  }

  lemma TextOfTwo(a: string, b: string, m: map<string, string>)
    requires m.Keys == {a, b} && Less(a, b)
    ensures TextOf(m) == a + [NUL] + m[a] + (b + [NUL] + m[b])
  {
    AscendingUnique(Sorted(m.Keys), [a, b]);
    LinesAppend([a], b, m);
    assert [a] + [b] == [a, b] && [a][1..] == [];
    assert a + [NUL] + m[a] + Lines([], m) == a + [NUL] + m[a];
  }
}
