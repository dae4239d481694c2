/** strings.TrimSpace on UTF-8 bytes. */
module WhiteSpace {

  const TICK := '`'

  /** \s of a regular expression */
  predicate IsBlank(c: char) {
    c == ' ' || c == '\t' || c == '\n' || c == '\r' || c == '\U{0C}'
  }

  /** unicode.IsSpace for the runes of one byte, */
  predicate Space1(a: char) {
    IsBlank(a) || a == '\U{0B}'
  }

  /** of two bytes: next line and no-break space, */
  predicate Space2(a: char, b: char) {
    a == '\U{C2}' && (b == '\U{85}' || b == '\U{A0}')
  }

  /** and of three: U+1680, U+2000 to U+200A, U+2028, U+2029, U+202F, U+205F and U+3000. */
  predicate Space3(a: char, b: char, c: char) {
    || (a == '\U{E1}' && b == '\U{9A}' && c == '\U{80}')
    || (a == '\U{E2}' && b == '\U{80}' && '\U{80}' <= c <= '\U{8A}')
    || (a == '\U{E2}' && b == '\U{80}' && (c == '\U{A8}' || c == '\U{A9}' || c == '\U{AF}'))
    || (a == '\U{E2}' && b == '\U{81}' && c == '\U{9F}')
    || (a == '\U{E3}' && b == '\U{80}' && c == '\U{80}')
  }

  /** The length of the white space rune at i, before j; 0 if there is none. */
  function Leading(s: string, i: nat, j: nat): (n: nat)
    requires i <= j <= |s|
    ensures i + n <= j
  {
    if i + 1 <= j && Space1(s[i]) then 1
    else if i + 2 <= j && Space2(s[i], s[i + 1]) then 2
    else if i + 3 <= j && Space3(s[i], s[i + 1], s[i + 2]) then 3
    else 0
  }

  /** The length of the white space rune that ends at j, from i on; 0 if there is none. */
  function Trailing(s: string, i: nat, j: nat): (n: nat)
    requires i <= j <= |s|
    ensures i + n <= j
  {
    if i + 1 <= j && Space1(s[j - 1]) then 1
    else if i + 2 <= j && Space2(s[j - 2], s[j - 1]) then 2
    else if i + 3 <= j && Space3(s[j - 3], s[j - 2], s[j - 1]) then 3
    else 0
  }

  /** Where the white space from i on ends. */
  function Skip(s: string, i: nat): (k: nat)
    requires i <= |s|
    ensures i <= k <= |s|
    decreases |s| - i
  {
    if Leading(s, i, |s|) > 0 then Skip(s, i + Leading(s, i, |s|)) else i
  }

  /** Where the white space up to j begins, no sooner than at i. */
  function Back(s: string, i: nat, j: nat): (k: nat)
    requires i <= j <= |s|
    ensures i <= k <= j
    decreases j
  {
    if Trailing(s, i, j) > 0 then Back(s, i, j - Trailing(s, i, j)) else j
  }

  function TrimSpace(s: string): string {
    s[Skip(s, 0)..Back(s, Skip(s, 0), |s|)]
  }

  // ---------------------------------------------------------------- what is trimmed

  /** From i to j there are white space runes only. */
  predicate Spaces(s: string, i: nat, j: nat)
    requires i <= j <= |s|
    decreases j - i
  {
    i == j || (Leading(s, i, j) > 0 && Spaces(s, i + Leading(s, i, j), j))
  }

  lemma {:induction false} SkipMeaning(s: string, i: nat)
    requires i <= |s|
    ensures Spaces(s, i, Skip(s, i)) && Leading(s, Skip(s, i), |s|) == 0
    decreases |s| - i
  {
    if Leading(s, i, |s|) > 0 { SkipMeaning(s, i + Leading(s, i, |s|)); }
  }

  lemma {:induction false} BackMeaning(s: string, i: nat, j: nat, e: nat)
    requires i <= j <= e <= |s| && Spaces(s, j, e)
    ensures Spaces(s, Back(s, i, j), e) && Trailing(s, i, Back(s, i, j)) == 0
    decreases j
  {
    if Trailing(s, i, j) > 0 { BackMeaning(s, i, j - Trailing(s, i, j), e); }
  }

  /** The text between its leading and its trailing white space. */
  lemma TrimSpaceParts(s: string) returns (i: nat, j: nat)
    ensures i <= j <= |s| && TrimSpace(s) == s[i..j]
    ensures Spaces(s, 0, i) && Spaces(s, j, |s|)
    ensures Leading(s, i, j) == 0 && Trailing(s, i, j) == 0
  {
    i := Skip(s, 0);
    j := Back(s, i, |s|);
    SkipMeaning(s, 0);
    BackMeaning(s, i, |s|, |s|);
  }

  // ---------------------------------------------------------------- in terms of runes

  /** A byte that continues a rune. */
  predicate Goes(c: char) {
    0x80 <= c as int < 0xC0
  }

  /** u is the UTF-8 form of the rune r below U+10000 (section 3 of RFC 3629). */
  predicate Encodes(u: string, r: nat) {
    || (|u| == 1 && r < 0x80 && r == u[0] as int)
    || (|u| == 2 && 0x80 <= r < 0x800 && Goes(u[1]) && r == (u[0] as int - 0xC0) * 64 + (u[1] as int - 0x80))
    || (|u| == 3 && 0x800 <= r < 0x10000 && Goes(u[1]) && Goes(u[2])
        && r == (u[0] as int - 0xE0) * 4096 + (u[1] as int - 0x80) * 64 + (u[2] as int - 0x80))
  }

  /** unicode.IsSpace */
  predicate IsSpace(r: nat) {
    || 0x09 <= r <= 0x0D || r == 0x20 || r == 0x85 || r == 0xA0 || r == 0x1680 || 0x2000 <= r <= 0x200A
    || r == 0x2028 || r == 0x2029 || r == 0x202F || r == 0x205F || r == 0x3000
  }

  /** Between i and j stand the bytes of the white space rune r. */
  predicate SpaceRune(s: string, i: nat, j: nat, r: nat) {
    i <= j <= |s| && IsSpace(r) && Encodes(s[i..j], r)
  }

  /** White space of one byte, and the class \s: all of it but the vertical tab. */
  lemma BlankIff(a: char)
    ensures Space1(a) <==> IsSpace(a as nat) && (a as nat) < 0x80
    ensures IsBlank(a) <==> IsSpace(a as nat) && (a as nat) < 0x80 && (a as nat) != 0x0B
  {
  }

  lemma BytesAt(s: string, i: nat, j: nat)
    requires i <= j <= |s|
    ensures forall k :: 0 <= k < j - i ==> s[i..j][k] == s[i + k]
  {
  }

  lemma SpaceLengths(s: string, i: nat, j: nat, r: nat)
    requires SpaceRune(s, i, j, r)
    ensures i + 1 <= j <= i + 3
    ensures j == i + 1 ==> Space1(s[i])
    ensures j == i + 2 ==> Space2(s[i], s[i + 1])
    ensures j == i + 3 ==> Space3(s[i], s[i + 1], s[i + 2])
  {
    BytesAt(s, i, j);
  }

  lemma RuneOf(s: string, i: nat, n: nat) returns (r: nat)
    requires 1 <= n <= 3 && i + n <= |s|
    requires n == 1 ==> Space1(s[i])
    requires n == 2 ==> Space2(s[i], s[i + 1])
    requires n == 3 ==> Space3(s[i], s[i + 1], s[i + 2])
    ensures SpaceRune(s, i, i + n, r)
  {
    BytesAt(s, i, i + n);
    r := if n == 1 then s[i] as nat
         else if n == 2 then s[i + 1] as nat
         else (s[i] as nat - 0xE0) * 4096 + (s[i + 1] as nat - 0x80) * 64 + (s[i + 2] as nat - 0x80);
  }

  /** What is measured at the front is the white space rune that starts at i and ends by j, if there is one. */
  lemma LeadingIsRune(s: string, i: nat, j: nat) returns (r: nat)
    requires i <= j <= |s|
    ensures Leading(s, i, j) > 0 ==> SpaceRune(s, i, i + Leading(s, i, j), r)
    ensures forall e: nat, q: nat :: e <= j && SpaceRune(s, i, e, q) ==> Leading(s, i, j) == e - i
  {
    r := 0;
    if Leading(s, i, j) > 0 { r := RuneOf(s, i, Leading(s, i, j)); }
    forall e: nat, q: nat | e <= j && SpaceRune(s, i, e, q) ensures Leading(s, i, j) == e - i {
      SpaceLengths(s, i, e, q);
    }
  }

  /** And at the back the one that ends at j and starts at i or later. */
  lemma TrailingIsRune(s: string, i: nat, j: nat) returns (r: nat)
    requires i <= j <= |s|
    ensures Trailing(s, i, j) > 0 ==> SpaceRune(s, j - Trailing(s, i, j), j, r)
    ensures forall b: nat, q: nat :: i <= b && SpaceRune(s, b, j, q) ==> Trailing(s, i, j) == j - b
  {
    r := 0;
    if Trailing(s, i, j) > 0 { r := RuneOf(s, j - Trailing(s, i, j), Trailing(s, i, j)); }
    forall b: nat, q: nat | i <= b && SpaceRune(s, b, j, q) ensures Trailing(s, i, j) == j - b {
      SpaceLengths(s, b, j, q);
    }
  }

  // ---------------------------------------------------------------- trimming parts

  lemma {:induction false} SkipShifts(s: string, k: nat, i: nat)
    requires k + i <= |s|
    ensures Skip(s[k..], i) == Skip(s, k + i) - k
    decreases |s| - i
  {
    var n := Leading(s[k..], i, |s| - k);
    assert n == Leading(s, k + i, |s|);
    if n > 0 { SkipShifts(s, k, i + n); }
  }

  lemma {:induction false} BackShifts(s: string, k: nat, i: nat, j: nat)
    requires i <= j && k + j <= |s|
    ensures Back(s[k..], i, j) == Back(s, k + i, k + j) - k
    decreases j
  {
    var n := Trailing(s[k..], i, j);
    assert n == Trailing(s, k + i, k + j);
    if n > 0 { BackShifts(s, k, i, j - n); }
  }

  lemma {:induction false} SkipsBlanks(s: string, i: nat, k: nat)
    requires i <= k <= |s| && forall x :: i <= x < k ==> Space1(s[x])
    ensures Skip(s, i) == Skip(s, k)
    decreases k - i
  {
    if i < k { SkipsBlanks(s, i + 1, k); }
  }

  lemma SameSlice(s: string, k: nat, i: nat, j: nat)
    requires i <= j && k + j <= |s|
    ensures s[k..][i..j] == s[k + i..k + j]
  {
  }

  lemma TrimShifts(s: string, k: nat, i: nat)
    requires k <= |s| && i == Skip(s[k..], 0) && Skip(s, k) == Skip(s, 0)
    ensures k + i == Skip(s, 0) && Back(s[k..], i, |s| - k) == Back(s, k + i, |s|) - k
  {
    SkipShifts(s, k, 0);
    BackShifts(s, k, i, |s| - k);
  }

  /** Leading blanks make no difference. */
  lemma TrimSkips(s: string, k: nat)
    requires k <= |s| && forall i :: 0 <= i < k ==> Space1(s[i])
    ensures TrimSpace(s[k..]) == TrimSpace(s)
  {
    SkipsBlanks(s, 0, k);
    var i := Skip(s[k..], 0);
    TrimShifts(s, k, i);
    SameSlice(s, k, i, Back(s[k..], i, |s| - k));
  }

  predicate Ticks(t: string) {
    forall k :: 0 <= k < |t| ==> t[k] == TICK
  }

  lemma {:induction false} SkipBeforeTicks(u: string, t: string, i: nat)
    requires t != [] && Ticks(t) && i <= |u|
    ensures Skip(u + t, i) == Skip(u, i)
    decreases |u| - i
  {
    var v := u + t;
    assert forall k :: |u| <= k < |v| ==> v[k] == TICK;
    assert forall k :: 0 <= k < |u| ==> v[k] == u[k];
    var n := Leading(u, i, |u|);
    assert n == Leading(v, i, |v|);
    if n > 0 { SkipBeforeTicks(u, t, i + n); }
  }

  /** Trimming a text that ends in backticks keeps more than trimming what stands before them. */
  lemma TicksKept(u: string, t: string)
    requires t != [] && Ticks(t)
    ensures |TrimSpace(u)| < |TrimSpace(u + t)|
  {
    SkipBeforeTicks(u, t, 0);
    assert (u + t)[|u + t| - 1] == TICK;
  }
}
