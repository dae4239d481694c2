/**
 Text as the Go code prints and hashes it. A char stands for one byte of a Go string, so
 the order below is the bytewise order of sort.Strings.
 */
module Text {

  const NUL := '\0'
  const NEWLINE := '\n'

  // ---------------------------------------------------------------- %d

  function Digit(d: nat): char
    requires d < 10
  {
    '0' + (d as char)
  }

  function DecNat(n: nat): string {
    if n < 10 then [Digit(n)] else DecNat(n / 10) + [Digit(n % 10)]
  }

  /** fmt's %d on a signed integer */
  function Dec(n: int): string {
    if n < 0 then "-" + DecNat(-n) else DecNat(n)
  }

  function ParseNat(s: string): int {
    if s == [] then 0 else ParseNat(s[..|s| - 1]) * 10 + (s[|s| - 1] as int - '0' as int)
  }

  predicate IsDigit(c: char) {
    '0' <= c <= '9'
  }

  lemma {:induction false} DecNatParses(n: nat)
    ensures ParseNat(DecNat(n)) == n
    ensures DecNat(n) != [] && forall c <- DecNat(n) :: IsDigit(c)
  {
    if n < 10 {
      assert ParseNat([Digit(n)]) == ParseNat([]) * 10 + n;
    } else {
      DecNatParses(n / 10);
      var s := DecNat(n);
      assert s[..|s| - 1] == DecNat(n / 10);
    }
  }

  lemma DecChars(n: int)
    ensures NUL !in Dec(n) && NEWLINE !in Dec(n)
  {
    DecNatParses(if n < 0 then -n else n);
  }

  lemma DecSign(n: int)
    ensures Dec(n) != [] && (Dec(n)[0] == '-' <==> n < 0)
  {
    DecNatParses(if n < 0 then -n else n);
    if n >= 0 { assert IsDigit(DecNat(n)[0]); }
  }

  lemma DecInjective(m: int, n: int)
    requires Dec(m) == Dec(n)
    ensures m == n
  {
    DecNatParses(if m < 0 then -m else m);
    DecNatParses(if n < 0 then -n else n);
    DecSign(m);
    DecSign(n);
    if m < 0 {
      assert Dec(m)[1..] == DecNat(-m) && Dec(n)[1..] == DecNat(-n);
    }
  }

  // ---------------------------------------------------------------- separators

  /** The first separator splits a text in one way only. */
  lemma FirstSeparator(c: char, a: string, x: string, b: string, y: string)
    requires c !in a && c !in b && a + [c] + x == b + [c] + y
    ensures a == b && x == y
  {
    var s, t := a + [c] + x, b + [c] + y;
    assert s[|a|] == c && t[|b|] == c;
    assert forall i :: 0 <= i < |a| ==> s[i] == a[i];
    assert forall i :: 0 <= i < |b| ==> t[i] == b[i];
    assert |a| == |b|;
    assert s[..|a|] == a && t[..|b|] == b && s[|a| + 1..] == x && t[|b| + 1..] == y;
  }

  /** So does the last one. */
  lemma LastSeparator(c: char, a: string, x: string, b: string, y: string)
    requires c !in x && c !in y && a + [c] + x == b + [c] + y
    ensures a == b && x == y
  {
    var s, t := a + [c] + x, b + [c] + y;
    assert s[|a|] == c && t[|b|] == c;
    assert forall i :: |a| < i < |s| ==> s[i] == x[i - |a| - 1];
    assert forall i :: |b| < i < |t| ==> t[i] == y[i - |b| - 1];
    assert |a| == |b|;
    assert s[..|a|] == a && t[..|b|] == b && s[|a| + 1..] == x && t[|b| + 1..] == y;
  }

  function Nuls(s: string): nat {
    if s == [] then 0 else (if s[0] == NUL then 1 else 0) + Nuls(s[1..])
  }

  lemma {:induction false} NulsConcat(s: string, t: string)
    ensures Nuls(s + t) == Nuls(s) + Nuls(t)
  {
    if s == [] {
      assert s + t == t;
    } else {
      assert (s + t)[1..] == s[1..] + t;
      NulsConcat(s[1..], t);
    }
  }

  lemma {:induction false} NulsZero(s: string)
    ensures Nuls(s) == 0 <==> NUL !in s
  {
    if s != [] { NulsZero(s[1..]); }
  }

  lemma NulsJoin(s: string, t: string)
    ensures Nuls(s + [NUL] + t) == Nuls(s) + 1 + Nuls(t)
  {
    NulsConcat(s + [NUL], t);
    NulsConcat(s, [NUL]);
    assert [NUL][1..] == [];
  }

  // ---------------------------------------------------------------- the order of strings

  predicate Less(a: string, b: string) {
    b != [] && (a == [] || a[0] < b[0] || (a[0] == b[0] && Less(a[1..], b[1..])))
  }

  lemma {:induction false} LessTotal(a: string, b: string)
    ensures Less(a, b) || a == b || Less(b, a)
    ensures !(Less(a, b) && Less(b, a)) && !Less(a, a)
  {
    if a != [] && b != [] {
      LessTotal(a[1..], b[1..]);
      LessTotal(a[1..], a[1..]);
      assert a[0] == b[0] && a[1..] == b[1..] ==> a == [b[0]] + b[1..] == b;
    } else if a != [] {
      LessTotal(a[1..], a[1..]);
    }
  }

  lemma {:induction false} LessTransitive(a: string, b: string, c: string)
    requires Less(a, b) && Less(b, c)
    ensures Less(a, c)
  {
    if a != [] && a[0] == b[0] == c[0] {
      LessTransitive(a[1..], b[1..], c[1..]);
    }
  }

  predicate DiffersAt(a: string, b: string, p: nat) {
    p <= |a| && p < |b| && a[..p] == b[..p] && (p == |a| || a[p] < b[p])
  }

  /** The order of bytes: a proper prefix comes first, and otherwise the first difference decides. */
  lemma {:induction false} LessIff(a: string, b: string)
    ensures Less(a, b) <==> exists p: nat :: DiffersAt(a, b, p)
  {
    forall p: nat | 0 < p && DiffersAt(a, b, p) ensures a != [] && b != [] && a[0] == b[0] {
      assert a[..p][0] == b[..p][0];
    }
    if a != [] && b != [] && a[0] == b[0] {
      LessIff(a[1..], b[1..]);
      if p: nat :| DiffersAt(a[1..], b[1..], p) {
        assert a[..p + 1] == [a[0]] + a[1..][..p] && b[..p + 1] == [b[0]] + b[1..][..p];
        assert DiffersAt(a, b, p + 1);
      }
      if p: nat :| DiffersAt(a, b, p) {
        assert p > 0;
        assert a[1..][..p - 1] == a[..p][1..] && b[1..][..p - 1] == b[..p][1..];
        assert DiffersAt(a[1..], b[1..], p - 1);
      }
    } else if Less(a, b) {
      assert DiffersAt(a, b, 0);
    }
  }

  ghost predicate Ascending(q: seq<string>) {
    forall i, j :: 0 <= i < j < |q| ==> Less(q[i], q[j])
  }

  /** A set of names has one ascending listing. */
  lemma {:induction false} AscendingUnique(p: seq<string>, q: seq<string>)
    requires Ascending(p) && Ascending(q)
    requires forall n :: n in p <==> n in q
    ensures p == q
  {
    assert |p| > 0 ==> p[0] in q;
    assert |q| > 0 ==> q[0] in p;
    if p != [] {
      LessTotal(p[0], q[0]);
      forall n ensures n in p[1..] <==> n in q[1..] {
        LessTotal(p[0], p[0]);
        assert n in p <==> n == p[0] || n in p[1..];
        assert n in q <==> n == q[0] || n in q[1..];
      }
      AscendingUnique(p[1..], q[1..]);
    }
  }

  ghost predicate Least(m: string, names: set<string>) {
    m in names && forall n <- names :: n == m || Less(m, n)
  }

  lemma {:induction false} LeastExists(names: set<string>) returns (m: string)
    requires names != {}
    ensures Least(m, names)
  {
    var x :| x in names;
    m := x;
    if names != {x} {
      var y := LeastExists(names - {x});
      LessTotal(x, y);
      if Less(x, y) {
        forall n <- names ensures n == x || Less(x, n) {
          if n != x && n != y { LessTransitive(x, y, n); }
        }
      } else {
        m := y;
      }
    }
  }

  lemma LeastFound(names: set<string>)
    requires names != {}
    ensures exists m :: Least(m, names)
  {
    var m := LeastExists(names);
  }

  /** The names in ascending order. */
  ghost function Sorted(names: set<string>): (q: seq<string>)
    ensures Ascending(q)
    ensures forall n :: n in q <==> n in names
  {
    if names == {} then []
    else
      LeastFound(names);
      var m :| Least(m, names);
      [m] + Sorted(names - {m})
  }
}
