/**
 extractCode of internal/runtime/agent.go: the leftmost fenced block, closed as early as
 possible.
 */
module CodeFence {
  import opened Options
  import opened WhiteSpace

  const FENCE := "```"

  // ---------------------------------------------------------------- what a match is

  predicate At(s: string, i: nat, word: string) {
    i + |word| <= |s| && s[i..i + |word|] == word
  }

  predicate TicksAt(s: string, i: nat) {
    i + 3 <= |s| && s[i] == TICK && s[i + 1] == TICK && s[i + 2] == TICK
  }

  /** Blanks from j on, the last of them a newline, up to b. */
  predicate Opens(s: string, j: nat, b: nat) {
    j < b <= |s| && s[b - 1] == '\n' && forall k :: j <= k < b ==> IsBlank(s[k])
  }

  /** An opening fence at i whose block begins at b. */
  predicate FenceAt(s: string, i: nat, b: nat) {
    TicksAt(s, i) &&
    ((At(s, i + 3, "python") && Opens(s, i + 9, b)) || (At(s, i + 3, "py") && Opens(s, i + 5, b)) || Opens(s, i + 3, b))
  }

  predicate Match(s: string, i: nat, b: nat, e: nat) {
    FenceAt(s, i, b) && b <= e && TicksAt(s, e)
  }

  /** The match a leftmost-first engine prefers: leftmost, blanks greedily, the block lazily. */
  ghost predicate Preferred(s: string, i: nat, b: nat, e: nat) {
    && Match(s, i, b, e)
    && (forall i': nat, b': nat, e': nat :: i' < i ==> !Match(s, i', b', e'))
    && (forall b': nat, e': nat :: b < b' ==> !Match(s, i, b', e'))
    && (forall e': nat :: b <= e' < e ==> !TicksAt(s, e'))
  }

  // ---------------------------------------------------------------- the search

  function BlockStart(s: string, j: nat): Option<nat>
    decreases |s| - j
  {
    if j < |s| && IsBlank(s[j]) then
      var r := BlockStart(s, j + 1);
      if r.Some? then r else if s[j] == '\n' then Some(j + 1) else None
    else None
  }

  function AfterTag(s: string, i: nat): nat {
    if At(s, i + 3, "python") then i + 9
    else if At(s, i + 3, "py") then i + 5
    else i + 3
  }

  function FenceStart(s: string, i: nat): Option<nat> {
    if TicksAt(s, i) then BlockStart(s, AfterTag(s, i)) else None
  }

  function Close(s: string, b: nat): Option<nat>
    decreases |s| - b
  {
    if b >= |s| then None
    else if TicksAt(s, b) then Some(b)
    else Close(s, b + 1)
  }

  /** The bounds of the block of the first match from i on. */
  function Find(s: string, i: nat): Option<(nat, nat)>
    decreases |s| - i
  {
    if i >= |s| then None
    else
      var b := FenceStart(s, i);
      var e := if b.Some? then Close(s, b.value) else None;
      if e.Some? then Some((b.value, e.value)) else Find(s, i + 1)
  }

  /** The block of the first match, as it stands. */
  function Block(s: string): Option<string> {
    match Find(s, 0)
    case Some((b, e)) => FindInside(s, 0); Some(s[b..e])
    case None => None
  }

  function ExtractCode(s: string): string {
    match Block(s)
    case Some(block) => TrimSpace(block) + "\n"
    case None => ""
  }

  lemma {:induction false} FindInside(s: string, i: nat)
    ensures Find(s, i).Some? ==> Find(s, i).value.0 <= Find(s, i).value.1 <= |s|
    decreases |s| - i
  {
    if i < |s| {
      var b := FenceStart(s, i);
      if b.Some? { CloseMeaning(s, b.value); }
      FindInside(s, i + 1);
    }
  }

  lemma {:induction false} BlockStartMeaning(s: string, j: nat)
    ensures BlockStart(s, j).Some? ==> Opens(s, j, BlockStart(s, j).value)
    ensures forall b: nat :: Opens(s, j, b) ==> BlockStart(s, j).Some? && b <= BlockStart(s, j).value
    decreases |s| - j
  {
    if j < |s| && IsBlank(s[j]) {
      BlockStartMeaning(s, j + 1);
      assert forall b: nat :: Opens(s, j, b) && b > j + 1 ==> Opens(s, j + 1, b);
    }
  }

  /** The language tag can be read in one way only. */
  lemma TagMeaning(s: string, i: nat)
    ensures forall b: nat :: FenceAt(s, i, b) <==> TicksAt(s, i) && Opens(s, AfterTag(s, i), b)
  {
    if At(s, i + 3, "python") { assert s[i + 3] == "python"[0] && s[i + 5] == "python"[2]; }
    if At(s, i + 3, "py") { assert s[i + 3] == "py"[0]; }
  }

  lemma FenceStartMeaning(s: string, i: nat)
    ensures FenceStart(s, i).Some? ==> FenceAt(s, i, FenceStart(s, i).value)
    ensures forall b: nat :: FenceAt(s, i, b) ==> FenceStart(s, i).Some? && b <= FenceStart(s, i).value
  {
    TagMeaning(s, i);
    BlockStartMeaning(s, AfterTag(s, i));
  }

  lemma {:induction false} CloseMeaning(s: string, b: nat)
    ensures Close(s, b).Some? ==> b <= Close(s, b).value && TicksAt(s, Close(s, b).value)
    ensures Close(s, b).Some? ==> forall e: nat :: b <= e < Close(s, b).value ==> !TicksAt(s, e)
    ensures Close(s, b).None? ==> forall e: nat :: b <= e ==> !TicksAt(s, e)
    decreases |s| - b
  {
    if b < |s| && !TicksAt(s, b) { CloseMeaning(s, b + 1); }
  }

  /** Where the search finds no block nothing matches. */
  lemma NothingAt(s: string, i: nat)
    requires FenceStart(s, i).Some? ==> Close(s, FenceStart(s, i).value).None?
    ensures forall b: nat, e: nat :: !Match(s, i, b, e)
  {
    FenceStartMeaning(s, i);
    if FenceStart(s, i).Some? {
      var b := FenceStart(s, i).value;
      CloseMeaning(s, b);
      TagMeaning(s, i);
      forall b': nat, e: nat | FenceAt(s, i, b') && b' <= e < b ensures !TicksAt(s, e) { assert IsBlank(s[e]); }
    }
  }

  /** The search finds the preferred match, and nothing only where nothing matches. */
  lemma {:induction false} FindIsPreferred(s: string, i: nat)
    requires forall i': nat, b: nat, e: nat :: i' < i ==> !Match(s, i', b, e)
    ensures Find(s, i).Some? ==> exists k: nat :: Preferred(s, k, Find(s, i).value.0, Find(s, i).value.1)
    ensures Find(s, i).None? ==> forall k: nat, b: nat, e: nat :: !Match(s, k, b, e)
    decreases |s| - i
  {
    if i < |s| {
      FenceStartMeaning(s, i);
      var b := FenceStart(s, i);
      if b.Some? { CloseMeaning(s, b.value); }
      var e := if b.Some? then Close(s, b.value) else None;
      if e.Some? {
        forall b': nat, e': nat | b.value < b' ensures !Match(s, i, b', e') { }
        assert Preferred(s, i, b.value, e.value);
      } else {
        assert forall b': nat, e': nat :: !Match(s, i, b', e') by { NothingAt(s, i); }
        FindIsPreferred(s, i + 1);
      }
    }
  }

  lemma ExtractCodeMeaning(s: string)
    ensures (exists k: nat, b: nat, e: nat :: Preferred(s, k, b, e) && ExtractCode(s) == TrimSpace(s[b..e]) + "\n") ||
      (ExtractCode(s) == "" && forall k: nat, b: nat, e: nat :: !Match(s, k, b, e))
  {
    FindIsPreferred(s, 0);
    FindInside(s, 0);
    if Find(s, 0).Some? {
      var (b, e) := Find(s, 0).value;
      var k: nat :| Preferred(s, k, b, e);
    }
  }

  // ---------------------------------------------------------------- round trip

  predicate NoFence(s: string) {
    forall i :: 0 <= i <= |s| ==> !TicksAt(s, i)
  }

  function Untick(c: string): (u: string)
    ensures u <= c && (u == [] || u[|u| - 1] != TICK)
    ensures forall k :: |u| <= k < |c| ==> c[k] == TICK
  {
    if c != [] && c[|c| - 1] == TICK then Untick(c[..|c| - 1]) else c
  }

  function Fenced(p: string, tag: string, c: string, rest: string): string {
    p + FENCE + tag + "\n" + c + FENCE + rest
  }

  /** The text s has a fence at f, its block c from h on, and a fence after the block. */
  predicate Layout(s: string, p: string, tag: string, c: string, h: nat) {
    && p <= s && TicksAt(s, |p|) && At(s, |p| + 3, tag)
    && h == |p| + 3 + |tag| + 1 && h + |c| <= |s| && s[h - 1] == '\n'
    && s[h..h + |c|] == c && TicksAt(s, h + |c|)
  }

  lemma FencedLayout(p: string, tag: string, c: string, rest: string)
    ensures Layout(Fenced(p, tag, c, rest), p, tag, c, |p| + 3 + |tag| + 1)
  {
  }

  lemma {:induction false} NothingBefore(s: string, p: string, tag: string, c: string, h: nat, i: nat)
    requires Layout(s, p, tag, c, h) && NoFence(p) && i <= |p|
    ensures Find(s, i) == Find(s, |p|)
    decreases |p| - i
  {
    if i < |p| {
      assert TicksAt(s, i) && i + 3 <= |p| ==> TicksAt(p, i);
      TagChars(s, i + 3);
      FenceStartMeaning(s, i);
      assert forall b: nat :: !FenceAt(s, i, b);
      NothingBefore(s, p, tag, c, h, i + 1);
    }
  }

  lemma TagChars(s: string, j: nat)
    ensures At(s, j, "python") || At(s, j, "py") ==> s[j] == 'p'
  {
    if At(s, j, "python") { assert s[j] == s[j..j + 6][0] == "python"[0]; }
    if At(s, j, "py") { assert s[j] == s[j..j + 2][0] == "py"[0]; }
  }

  lemma Opening(s: string, p: string, tag: string, c: string, h: nat)
    requires Layout(s, p, tag, c, h) && tag in {"python", "py", ""}
    ensures FenceAt(s, |p|, h)
  {
  }

  /** The block character by character, and the backticks behind it. */
  lemma BlockChars(s: string, p: string, tag: string, c: string, h: nat)
    requires Layout(s, p, tag, c, h)
    ensures h + |c| + 3 <= |s|
    ensures forall k: nat :: h <= k < h + |c| ==> s[k] == c[k - h]
    ensures forall k: nat :: h + |Untick(c)| <= k < h + |c| + 3 ==> s[k] == TICK
  {
  }

  lemma NoCloseInside(s: string, p: string, tag: string, c: string, h: nat, x: nat)
    requires Layout(s, p, tag, c, h) && NoFence(c) && h <= x < h + |Untick(c)|
    ensures !TicksAt(s, x)
  {
    var u := Untick(c);
    BlockChars(s, p, tag, c, h);
    if x + 3 <= h + |c| {
      assert !TicksAt(c, x - h);
    } else {
      assert s[h + |u| - 1] == u[|u| - 1];
    }
  }

  lemma Closing(s: string, p: string, tag: string, c: string, h: nat, b: nat)
    requires Layout(s, p, tag, c, h) && NoFence(c)
    requires h <= b && forall k :: h <= k < b ==> k < |s| && IsBlank(s[k])
    ensures b <= h + |Untick(c)| && Close(s, b) == Some(h + |Untick(c)|)
  {
    var e := h + |Untick(c)|;
    BlockChars(s, p, tag, c, h);
    CloseMeaning(s, b);
    assert TicksAt(s, e) && s[e] == TICK && !IsBlank(s[e]);
    forall x: nat | h <= x < e ensures !TicksAt(s, x) { NoCloseInside(s, p, tag, c, h, x); }
  }

  lemma BlockFound(s: string, p: string, tag: string, c: string, h: nat) returns (b: nat)
    requires Layout(s, p, tag, c, h) && tag in {"python", "py", ""} && NoFence(p) && NoFence(c)
    ensures h <= b <= h + |Untick(c)| && Find(s, 0) == Some((b, h + |Untick(c)|))
    ensures forall k :: h <= k < b ==> k < |s| && IsBlank(s[k])
  {
    NothingBefore(s, p, tag, c, h, 0);
    Opening(s, p, tag, c, h);
    FenceStartMeaning(s, |p|);
    b := FenceStart(s, |p|).value;
    BlanksBefore(s, |p|, h, b);
    Closing(s, p, tag, c, h, b);
  }

  lemma LayoutBlock(s: string, p: string, tag: string, c: string, h: nat) returns (d: nat)
    requires Layout(s, p, tag, c, h) && tag in {"python", "py", ""} && NoFence(p) && NoFence(c)
    ensures d <= |Untick(c)| && Block(s) == Some(Untick(c)[d..])
    ensures forall k :: 0 <= k < d ==> Space1(Untick(c)[k])
  {
    var b := BlockFound(s, p, tag, c, h);
    BlockSlice(s, p, tag, c, h, b);
    d := b - h;
  }

  /** A fenced block is found again behind any prefix without a fence: trimmed, and without the backticks it ends in. */
  lemma FencedExtracted(p: string, tag: string, c: string, rest: string)
    requires tag in {"python", "py", ""} && NoFence(p) && NoFence(c)
    ensures ExtractCode(Fenced(p, tag, c, rest)) == TrimSpace(Untick(c)) + "\n"
  {
    FencedLayout(p, tag, c, rest);
    LayoutExtracted(Fenced(p, tag, c, rest), p, tag, c, |p| + 3 + |tag| + 1);
  }

  lemma LayoutExtracted(s: string, p: string, tag: string, c: string, h: nat)
    requires Layout(s, p, tag, c, h) && tag in {"python", "py", ""} && NoFence(p) && NoFence(c)
    ensures ExtractCode(s) == TrimSpace(Untick(c)) + "\n"
  {
    var d := LayoutBlock(s, p, tag, c, h);
    TrimSkips(Untick(c), d);
  }

  lemma BlanksBefore(s: string, i: nat, h: nat, b: nat)
    requires FenceAt(s, i, h) && FenceAt(s, i, b)
    ensures forall k :: h <= k < b ==> k < |s| && IsBlank(s[k])
  {
    TagMeaning(s, i);
  }

  lemma PrefixSlice(s: string, h: nat, c: string, u: string)
    requires h + |c| <= |s| && s[h..h + |c|] == c && u <= c
    ensures s[h..h + |u|] == u
  {
    assert s[h..h + |u|] == s[h..h + |c|][..|u|];
  }

  lemma SliceRest(s: string, h: nat, m: nat, d: nat)
    requires h + m <= |s| && d <= m
    ensures s[h + d..h + m] == s[h..h + m][d..]
  {
  }

  lemma BlanksAt(s: string, h: nat, u: string, d: nat)
    requires h + |u| <= |s| && s[h..h + |u|] == u && d <= |u|
    requires forall k :: h <= k < h + d ==> IsBlank(s[k])
    ensures forall k :: 0 <= k < d ==> Space1(u[k])
  {
    forall k | 0 <= k < d ensures Space1(u[k]) { assert u[k] == s[h..h + |u|][k] == s[h + k]; }
  }

  lemma BlockSlice(s: string, p: string, tag: string, c: string, h: nat, b: nat)
    requires Layout(s, p, tag, c, h) && h <= b <= h + |Untick(c)|
    requires forall k :: h <= k < b ==> k < |s| && IsBlank(s[k])
    ensures s[b..h + |Untick(c)|] == Untick(c)[b - h..]
    ensures forall k :: 0 <= k < b - h ==> Space1(Untick(c)[k])
  {
    var u := Untick(c);
    PrefixSlice(s, h, c, u);
    SliceRest(s, h, |u|, b - h);
    BlanksAt(s, h, u, b - h);
  }

  /** So the code comes back whole exactly when it does not end in a backtick. */
  lemma RecoveredIff(p: string, tag: string, c: string, rest: string)
    requires tag in {"python", "py", ""} && NoFence(p) && NoFence(c)
    ensures ExtractCode(Fenced(p, tag, c, rest)) == TrimSpace(c) + "\n" <==> c == [] || c[|c| - 1] != TICK
  {
    FencedExtracted(p, tag, c, rest);
    var u := Untick(c);
    if c != [] && c[|c| - 1] == TICK {
      var t := c[|u|..];
      assert c == u + t;
      TicksKept(u, t);
      assert |TrimSpace(u) + "\n"| != |TrimSpace(c) + "\n"|;
    }
  }
}
