/**
 The hash-chained audit log of internal/store/store.go: AppendAudit, VerifyAuditChain and
 auditHash. The table is a sequence in seq order; anyone may rewrite it between two calls.
 */
module Audit {
  import opened Hashing
  import opened Text

  const GENESIS := "GENESIS"

  datatype Entry = Entry(no: int, ts: int, actor: string, action: string, target: string, detail: string,
                         prev: string, hash: string)

  /** What auditHash feeds to the hash. */
  function Preimage(e: Entry): string {
    Dec(e.ts) + [NUL] + (e.actor + [NUL] + (e.action + [NUL] + (e.target + [NUL] + (e.detail + [NUL] + e.prev))))
  }

  function PrevOf(log: seq<Entry>, i: nat): string
    requires i <= |log|
  {
    if i == 0 then GENESIS else log[i - 1].hash
  }

  /** The hash the next entry will chain to. */
  function Head(log: seq<Entry>): string {
    PrevOf(log, |log|)
  }

  predicate LinkOk(h: HashFn, log: seq<Entry>, i: nat)
    requires i < |log|
  {
    log[i].prev == PrevOf(log, i) && h(Preimage(log[i])) == log[i].hash
  }

  ghost predicate Intact(h: HashFn, log: seq<Entry>) {
    forall i :: 0 <= i < |log| ==> LinkOk(h, log, i)
  }

  /** k is the first index whose link is broken, or the length of an intact log. */
  ghost predicate FirstBroken(h: HashFn, log: seq<Entry>, k: nat) {
    k <= |log| && (forall i :: 0 <= i < k ==> LinkOk(h, log, i)) && (k < |log| ==> !LinkOk(h, log, k))
  }

  /** The first index from i on whose link is broken. */
  function BrokenFrom(h: HashFn, log: seq<Entry>, i: nat): (k: nat)
    requires i <= |log|
    ensures i <= k <= |log| && (forall j :: i <= j < k ==> LinkOk(h, log, j)) && (k < |log| ==> !LinkOk(h, log, k))
    decreases |log| - i
  {
    if i < |log| && LinkOk(h, log, i) then BrokenFrom(h, log, i + 1) else i
  }

  /** What VerifyAuditChain answers: the seq of the first broken entry, and 0 for none. */
  function Answer(h: HashFn, log: seq<Entry>): int {
    var k := BrokenFrom(h, log, 0);
    if k == |log| then 0 else log[k].no
  }

  lemma AnswerAt(h: HashFn, log: seq<Entry>, k: nat)
    requires FirstBroken(h, log, k)
    ensures Answer(h, log) == if k == |log| then 0 else log[k].no
  {
  }

  ghost predicate HiddenBreak(h: HashFn, log: seq<Entry>, k: nat) {
    k < |log| && FirstBroken(h, log, k) && log[k].no == 0
  }

  /**
   The seq is neither hashed nor checked: the answer is 0 for an intact log, and when the first
   broken entry is numbered 0.
   */
  lemma ZeroIff(h: HashFn, log: seq<Entry>)
    ensures Answer(h, log) == 0 <==> Intact(h, log) || exists k: nat :: HiddenBreak(h, log, k)
    ensures (forall e <- log :: e.no != 0) ==> (Answer(h, log) == 0 <==> Intact(h, log))
  {
    var k := BrokenFrom(h, log, 0);
    assert FirstBroken(h, log, k);
    if k < |log| {
      assert log[k] in log && !Intact(h, log);
      assert log[k].no == 0 ==> HiddenBreak(h, log, k);
      assert forall j: nat :: HiddenBreak(h, log, j) ==> j == k;
    }
  }

  /** The table is read in the order of seq; the next seq is above all of them. */
  predicate Numbered(log: seq<Entry>, next: int) {
    && (forall i :: 0 <= i < |log| ==> log[i].no < next)
    && (forall i, j :: 0 <= i < j < |log| ==> log[i].no < log[j].no)
  }

  predicate Positive(log: seq<Entry>) {
    forall e <- log :: e.no > 0
  }

  class AuditLog {
    const sha256: HashFn
    var entries: seq<Entry>
    var nextSeq: int

    constructor (sha256: HashFn)
      ensures this.sha256 == sha256 && entries == [] && nextSeq == 1
    {
      this.sha256 := sha256;
      entries, nextSeq := [], 1;
    }

    method Append(now: int, actor: string, action: string, target: string, detail: string) returns (e: Entry)
      modifies this
      ensures entries == old(entries) + [e] && e.no == old(nextSeq) && nextSeq == old(nextSeq) + 1
      ensures old(Numbered(entries, nextSeq)) ==> Numbered(entries, nextSeq)
      ensures old(Positive(entries) && nextSeq > 0) ==> Positive(entries) && nextSeq > 0
      ensures (e.ts, e.actor, e.action, e.target, e.detail) == (now, actor, action, target, detail)
      ensures e.prev == if old(entries) == [] then "GENESIS" else old(entries)[|old(entries)| - 1].hash
      ensures e.hash == sha256(
        Dec(now) + "\0" + (actor + "\0" + (action + "\0" + (target + "\0" + (detail + "\0" + e.prev)))))
      ensures LinkOk(sha256, entries, |entries| - 1)
      ensures Intact(sha256, old(entries)) <==> Intact(sha256, entries)
    {
      var prev := GENESIS;
      if |entries| > 0 {
        prev := entries[|entries| - 1].hash;
      }
      e := Entry(nextSeq, now, actor, action, target, detail, prev, "");
      e := e.(hash := sha256(Preimage(e)));
      ghost var before := entries;
      entries := entries + [e];
      nextSeq := nextSeq + 1;
      assert Preimage(e) == Preimage(e.(hash := ""));
      assert forall i :: 0 <= i < |before| ==> LinkOk(sha256, before, i) == LinkOk(sha256, entries, i);
    }

    /** The seq of the first entry that does not fit, else 0. */
    method Verify() returns (r: int)
      ensures r == Answer(sha256, entries)
      ensures r == 0 <==> Intact(sha256, entries) || exists k: nat :: HiddenBreak(sha256, entries, k)
      ensures (forall e <- entries :: e.no != 0) ==> (r == 0 <==> Intact(sha256, entries))
    {
      r := Scan();
      ZeroIff(sha256, entries);
    }

    /** The loop of Verify. */
    method Scan() returns (r: int)
      ensures r == Answer(sha256, entries)
    {
      var prev := GENESIS;
      for i := 0 to |entries|
        invariant prev == PrevOf(entries, i)
        invariant BrokenFrom(sha256, entries, 0) == BrokenFrom(sha256, entries, i)
      {
        var e := entries[i];
        if e.prev != prev { return e.no; }
        var want := sha256(Preimage(e));
        if want != e.hash { return e.no; }
        prev := e.hash;
      }
      return 0;
    }
  }

  /** The text of a first entry. */
  function FirstText(now: int, actor: string, action: string, target: string, detail: string): string {
    Preimage(Entry(1, now, actor, action, target, detail, GENESIS, ""))
  }

  /** A run in which the verifier answers 0 for a changed entry: its seq is set to 0. */
  method ForgedFirst(sha256: HashFn, now: int, actor: string, action: string, target: string, detail: string,
                     forged: string)
    returns (log: AuditLog, r: int)
    requires forged != detail
    requires CollisionFree(sha256,
                           {FirstText(now, actor, action, target, detail),
                            FirstText(now, actor, action, target, forged)})
    ensures r == 0 && !Intact(log.sha256, log.entries) && log.entries != [] && log.entries[0].detail == forged
  {
    log := new AuditLog(sha256);
    var e := log.Append(now, actor, action, target, detail);
    ghost var f := e.(no := 0, detail := forged);
    log.entries := [e.(no := 0, detail := forged)];
    OtherDetail(e, f);
    assert LinkOk(sha256, [e], 0);
    assert !LinkOk(sha256, log.entries, 0) && HiddenBreak(sha256, log.entries, 0);
    r := log.Verify();
  }

  lemma OtherDetail(e: Entry, f: Entry)
    requires f == e.(no := f.no, detail := f.detail) && f.detail != e.detail
    ensures Preimage(f) != Preimage(e)
  {
    if Preimage(f) == Preimage(e) { DetailDetermined(e, f); }
  }

  lemma DetailDetermined(e: Entry, f: Entry)
    requires f == e.(no := f.no, detail := f.detail) && Preimage(f) == Preimage(e)
    ensures f.detail == e.detail
  {
    var before := Dec(e.ts) + [NUL] + (e.actor + [NUL] + (e.action + [NUL] + (e.target + [NUL])));
    DetailAt(e);
    DetailAt(f);
    assert |e.detail| == |f.detail|;
    assert Preimage(e)[|before|..|before| + |e.detail|] == e.detail;
    assert Preimage(f)[|before|..|before| + |f.detail|] == f.detail;
  }

  lemma DetailAt(e: Entry)
    ensures Preimage(e) ==
      Dec(e.ts) + [NUL] + (e.actor + [NUL] + (e.action + [NUL] + (e.target + [NUL]))) + e.detail + ([NUL] + e.prev)
  {
  }

  // ---------------------------------------------------------------- what the text of an entry determines

  /** The detail may hold anything. */
  predicate Clean(e: Entry) {
    NUL !in e.actor && NUL !in e.action && NUL !in e.target
  }

  predicate SameFields(a: Entry, b: Entry) {
    (a.ts, a.actor, a.action, a.target, a.detail, a.prev) == (b.ts, b.actor, b.action, b.target, b.detail, b.prev)
  }

  lemma PreimageInjective(a: Entry, b: Entry)
    requires Clean(a) && Clean(b) && NUL !in a.prev && NUL !in b.prev
    requires Preimage(a) == Preimage(b)
    ensures SameFields(a, b)
  {
    var a4, b4 := a.detail + [NUL] + a.prev, b.detail + [NUL] + b.prev;
    var a3, b3 := a.target + [NUL] + a4, b.target + [NUL] + b4;
    var a2, b2 := a.action + [NUL] + a3, b.action + [NUL] + b3;
    DecChars(a.ts);
    DecChars(b.ts);
    FirstSeparator(NUL, Dec(a.ts), a.actor + [NUL] + a2, Dec(b.ts), b.actor + [NUL] + b2);
    DecInjective(a.ts, b.ts);
    FirstSeparator(NUL, a.actor, a2, b.actor, b2);
    FirstSeparator(NUL, a.action, a3, b.action, b3);
    FirstSeparator(NUL, a.target, a4, b.target, b4);
    LastSeparator(NUL, a.detail, a.prev, b.detail, b.prev);
  }

  /** The previous hash comes last and holds no NUL: the text determines it, whatever the other fields hold. */
  lemma PrevDetermined(a: Entry, b: Entry)
    requires NUL !in a.prev && NUL !in b.prev && Preimage(a) == Preimage(b)
    ensures a.prev == b.prev
  {
    var a', b' := BeforePrev(a), BeforePrev(b);
    PreimageEnds(a);
    PreimageEnds(b);
    LastSeparator(NUL, a', a.prev, b', b.prev);
  }

  function BeforePrev(e: Entry): string {
    Dec(e.ts) + [NUL] + e.actor + [NUL] + e.action + [NUL] + e.target + [NUL] + e.detail
  }

  lemma PreimageEnds(e: Entry)
    ensures Preimage(e) == BeforePrev(e) + [NUL] + e.prev
  {
    Rejoin(e.target, e.detail, e.prev);
    Rejoin(e.action, e.target + [NUL] + e.detail, e.prev);
    Rejoin(e.actor, e.action + [NUL] + e.target + [NUL] + e.detail, e.prev);
    Rejoin(Dec(e.ts), e.actor + [NUL] + e.action + [NUL] + e.target + [NUL] + e.detail, e.prev);
  }

  predicate Plain(e: Entry) {
    Clean(e) && NUL !in e.detail
  }

  lemma PreimageNuls(e: Entry)
    ensures Nuls(Preimage(e)) == 5 + Nuls(e.actor) + Nuls(e.action) + Nuls(e.target) + Nuls(e.detail) + Nuls(e.prev)
  {
    var e4 := e.detail + [NUL] + e.prev;
    var e3 := e.target + [NUL] + e4;
    var e2 := e.action + [NUL] + e3;
    NulsJoin(e.detail, e.prev);
    NulsJoin(e.target, e4);
    NulsJoin(e.action, e3);
    NulsJoin(e.actor, e2);
    NulsJoin(Dec(e.ts), e.actor + [NUL] + e2);
    DecChars(e.ts);
    NulsZero(Dec(e.ts));
  }

  /** No other fields at all have the text of a plain entry. */
  lemma PlainTextUnique(e: Entry, f: Entry)
    requires Plain(e) && NUL !in e.prev && Preimage(f) == Preimage(e)
    ensures SameFields(e, f)
  {
    PreimageNuls(e);
    PreimageNuls(f);
    NulsZero(e.actor); NulsZero(e.action); NulsZero(e.target); NulsZero(e.detail); NulsZero(e.prev);
    NulsZero(f.actor); NulsZero(f.action); NulsZero(f.target); NulsZero(f.detail); NulsZero(f.prev);
    PreimageInjective(e, f);
  }

  function IndexOf(c: char, s: string): (i: nat)
    requires c in s
    ensures i < |s| && s[i] == c
  {
    if s[0] == c then 0 else 1 + IndexOf(c, s[1..])
  }

  /** A NUL in one of the four strings can be read as the end of that field. */
  function Shifted(e: Entry): Entry
    requires !Plain(e)
  {
    if NUL in e.actor then
      var i := IndexOf(NUL, e.actor);
      e.(actor := e.actor[..i], action := e.actor[i + 1..], target := e.action, detail := e.target + [NUL] + e.detail)
    else if NUL in e.action then
      var i := IndexOf(NUL, e.action);
      e.(action := e.action[..i], target := e.action[i + 1..], detail := e.target + [NUL] + e.detail)
    else if NUL in e.target then
      var i := IndexOf(NUL, e.target);
      e.(target := e.target[..i], detail := e.target[i + 1..] + [NUL] + e.detail)
    else
      var i := IndexOf(NUL, e.detail);
      e.(actor := e.actor + [NUL] + e.action, action := e.target, target := e.detail[..i], detail := e.detail[i + 1..])
  }

  lemma ShiftedSameText(e: Entry)
    requires !Plain(e)
    ensures Preimage(Shifted(e)) == Preimage(e) && !SameFields(Shifted(e), e)
  {
    if NUL in e.actor {
      var i := IndexOf(NUL, e.actor);
      Rejoin(e.actor[..i], e.actor[i + 1..], e.action + [NUL] + (e.target + [NUL] + (e.detail + [NUL] + e.prev)));
      Rejoin(e.target, e.detail, e.prev);
      assert e.actor == e.actor[..i] + [NUL] + e.actor[i + 1..];
    } else if NUL in e.action {
      var i := IndexOf(NUL, e.action);
      Rejoin(e.action[..i], e.action[i + 1..], e.target + [NUL] + (e.detail + [NUL] + e.prev));
      Rejoin(e.target, e.detail, e.prev);
      assert e.action == e.action[..i] + [NUL] + e.action[i + 1..];
    } else if NUL in e.target {
      var i := IndexOf(NUL, e.target);
      Rejoin(e.target[..i], e.target[i + 1..], e.detail + [NUL] + e.prev);
      Rejoin(e.target[i + 1..], e.detail, e.prev);
      assert e.target == e.target[..i] + [NUL] + e.target[i + 1..];
    } else {
      var i := IndexOf(NUL, e.detail);
      Rejoin(e.detail[..i], e.detail[i + 1..], e.prev);
      Rejoin(e.actor, e.action, e.target + [NUL] + (e.detail[..i] + [NUL] + (e.detail[i + 1..] + [NUL] + e.prev)));
      assert e.detail == e.detail[..i] + [NUL] + e.detail[i + 1..];
    }
  }

  lemma Rejoin(a: string, b: string, rest: string)
    ensures a + [NUL] + b + [NUL] + rest == a + [NUL] + (b + [NUL] + rest)
  {
  }

  /** The text of an entry stands for that entry alone exactly when its strings hold no NUL. */
  lemma AmbiguousIff(e: Entry)
    requires NUL !in e.prev
    ensures (exists f :: Preimage(f) == Preimage(e) && !SameFields(f, e)) <==> !Plain(e)
  {
    if Plain(e) {
      forall f | Preimage(f) == Preimage(e) ensures SameFields(f, e) { PlainTextUnique(e, f); }
    } else {
      ShiftedSameText(e);
    }
  }

  lemma HashClean(h: HashFn, log: seq<Entry>, i: nat)
    requires HexValued(h) && Intact(h, log) && i <= |log|
    ensures NUL !in PrevOf(log, i)
    ensures i > 0 ==> PrevOf(log, i) != GENESIS
    ensures i < |log| ==> NUL !in log[i].prev
  {
    if i > 0 {
      assert LinkOk(h, log, i - 1);
      assert HexDigest(h(Preimage(log[i - 1])));
    }
    if i < |log| { assert LinkOk(h, log, i); }
  }

  // ---------------------------------------------------------------- binding

  /** Any prefix of an intact log is intact. */
  lemma PrefixIntact(h: HashFn, log: seq<Entry>, m: nat)
    requires Intact(h, log) && m <= |log|
    ensures Intact(h, log[..m]) && Head(log[..m]) == PrevOf(log, m) && Texts(log[..m]) <= Texts(log)
  {
    forall i | 0 <= i < m ensures LinkOk(h, log[..m], i) {
      assert LinkOk(h, log, i);
    }
  }

  ghost function Texts(log: seq<Entry>): set<string> {
    set e | e in log :: Preimage(e)
  }

  predicate SameLink(a: Entry, b: Entry) {
    Preimage(a) == Preimage(b) && a.prev == b.prev && a.hash == b.hash
  }

  /** Entry by entry the same text, previous hash and hash. */
  ghost predicate SameLinks(p: seq<Entry>, q: seq<Entry>) {
    |p| == |q| && forall i :: 0 <= i < |p| ==> SameLink(p[i], q[i])
  }

  lemma LastAgrees(h: HashFn, p: seq<Entry>, q: seq<Entry>)
    requires HexValued(h) && Intact(h, p) && Intact(h, q) && p != [] && q != []
    requires Preimage(p[|p| - 1]) == Preimage(q[|q| - 1])
    ensures SameLink(p[|p| - 1], q[|q| - 1])
    ensures PrevOf(p, |p| - 1) == PrevOf(q, |q| - 1)
  {
    var m, n := |p| - 1, |q| - 1;
    HashClean(h, p, m);
    HashClean(h, q, n);
    PrevDetermined(p[m], q[n]);
    assert LinkOk(h, p, m) && LinkOk(h, q, n);
  }

  lemma LastCollide(h: HashFn, p: seq<Entry>, q: seq<Entry>) returns (x: string, y: string)
    requires Intact(h, p) && Intact(h, q) && p != [] && q != [] && Head(p) == Head(q)
    requires Preimage(p[|p| - 1]) != Preimage(q[|q| - 1])
    ensures x in Texts(p) && y in Texts(q) && x != y && h(x) == h(y)
  {
    assert LinkOk(h, p, |p| - 1) && LinkOk(h, q, |q| - 1);
    x, y := Preimage(p[|p| - 1]), Preimage(q[|q| - 1]);
  }

  /**
   Two intact logs with the same last hash have the same links, or else the lemma exhibits
   a text from each that differ and collide.
   */
  lemma {:induction false} ChainBinding(h: HashFn, p: seq<Entry>, q: seq<Entry>) returns (x: string, y: string)
    requires HexValued(h) && Intact(h, p) && Intact(h, q) && Head(p) == Head(q)
    ensures SameLinks(p, q) || (x in Texts(p) && y in Texts(q) && x != y && h(x) == h(y))
    decreases |p|
  {
    x, y := "", "";
    HashClean(h, p, |p|);
    HashClean(h, q, |q|);
    if p != [] && q != [] {
      var m, n := |p| - 1, |q| - 1;
      if Preimage(p[m]) != Preimage(q[n]) {
        x, y := LastCollide(h, p, q);
      } else {
        LastAgrees(h, p, q);
        PrefixIntact(h, p, m);
        PrefixIntact(h, q, n);
        x, y := ChainBinding(h, p[..m], q[..n]);
        if SameLinks(p[..m], q[..n]) { LinksExtend(p, q); }
      }
    }
  }

  lemma LinksExtend(p: seq<Entry>, q: seq<Entry>)
    requires p != [] && q != [] && SameLinks(p[..|p| - 1], q[..|q| - 1]) && SameLink(p[|p| - 1], q[|q| - 1])
    ensures SameLinks(p, q)
  {
    var m := |p| - 1;
    assert p == p[..m] + [p[m]] && q == q[..m] + [q[m]];
    forall i | 0 <= i < m ensures SameLink(p[i], q[i]) {
      assert SameLink(p[..m][i], q[..m][i]);
    }
  }

  /** Same links: the fields agree wherever one side holds no NUL, or neither does outside the detail. */
  lemma LinksFixFields(h: HashFn, p: seq<Entry>, q: seq<Entry>, i: nat)
    requires HexValued(h) && Intact(h, p) && SameLinks(p, q) && i < |p|
    requires Plain(p[i]) || Plain(q[i]) || (Clean(p[i]) && Clean(q[i]))
    ensures SameFields(p[i], q[i])
  {
    HashClean(h, p, i);
    assert SameLink(p[i], q[i]);
    if Plain(p[i]) {
      PlainTextUnique(p[i], q[i]);
    } else if Plain(q[i]) {
      PlainTextUnique(q[i], p[i]);
    } else {
      PreimageInjective(p[i], q[i]);
    }
  }

  // ---------------------------------------------------------------- localisation

  /** What the verifier looks at has changed. For a plain entry every change of a field is one, by PlainTextUnique. */
  predicate Altered(e: Entry, f: Entry) {
    Preimage(e) != Preimage(f) || e.prev != f.prev || e.hash != f.hash
  }

  /** An edit that keeps the stored hash is reported at the edited entry, by the seq that the edit left there. */
  lemma EditKeepingHash(h: HashFn, log: seq<Entry>, i: nat, e: Entry)
    requires Intact(h, log) && i < |log| && Altered(e, log[i]) && e.hash == log[i].hash
    requires CollisionFree(h, {Preimage(log[i]), Preimage(e)})
    ensures FirstBroken(h, log[i := e], i) && Answer(h, log[i := e]) == e.no
  {
    var edited := log[i := e];
    assert LinkOk(h, log, i);
    EditKeepsBefore(h, log, i, edited);
    assert PrevOf(edited, i) == PrevOf(log, i);
    AnswerAt(h, edited, i);
  }

  lemma EditKeepsBefore(h: HashFn, log: seq<Entry>, i: nat, edited: seq<Entry>)
    requires Intact(h, log) && i < |log| == |edited| && edited == log[i := edited[i]]
    ensures forall j :: 0 <= j < i ==> LinkOk(h, edited, j)
  {
    forall j | 0 <= j < i ensures LinkOk(h, edited, j) {
      assert LinkOk(h, log, j);
    }
  }

  /**
   An edit that also recomputes the entry's hash is reported at the next entry. When there
   is no next entry the edited log is intact: only a copy of the last hash tells them apart.
   */
  lemma EditRecomputingHash(h: HashFn, log: seq<Entry>, i: nat, e: Entry)
    requires Intact(h, log) && i < |log| && Altered(e, log[i]) && e.prev == log[i].prev && e.hash == h(Preimage(e))
    requires CollisionFree(h, {Preimage(log[i]), Preimage(e)})
    ensures FirstBroken(h, log[i := e], i + 1)
    ensures Answer(h, log[i := e]) == if i + 1 < |log| then log[i + 1].no else 0
    ensures Head(log[i := e]) == Head(log) <==> i + 1 < |log|
  {
    var edited := log[i := e];
    assert LinkOk(h, log, i);
    EditKeepsBefore(h, log, i, edited);
    assert PrevOf(edited, i) == PrevOf(log, i) && LinkOk(h, edited, i);
    if i + 1 < |log| {
      assert LinkOk(h, log, i + 1);
      assert edited[i + 1].prev == log[i].hash && PrevOf(edited, i + 1) == e.hash;
    }
    AnswerAt(h, edited, i + 1);
  }

  /**
   Any other change of one entry breaks the link of that entry or of the next, save one: the
   last entry with its hash recomputed, chained as before. The answer is the seq found there.
   */
  lemma AlteredEntry(h: HashFn, log: seq<Entry>, i: nat, e: Entry)
    requires Intact(h, log) && i < |log| && Altered(e, log[i])
    requires CollisionFree(h, {Preimage(log[i]), Preimage(e)})
    ensures var edited := log[i := e];
      var k := if LinkOk(h, edited, i) then i + 1 else i;
      && FirstBroken(h, edited, k) && (Intact(h, edited) <==> LinkOk(h, edited, i) && i + 1 == |log|)
      && Answer(h, edited) == if k == |log| then 0 else edited[k].no
  {
    var edited := log[i := e];
    EditKeepsBefore(h, log, i, edited);
    assert LinkOk(h, log, i) && PrevOf(edited, i) == PrevOf(log, i);
    if LinkOk(h, edited, i) && i + 1 < |log| {
      assert LinkOk(h, log, i + 1);
      assert PrevOf(edited, i + 1) == e.hash && edited[i + 1] == log[i + 1];
    }
    AnswerAt(h, edited, if LinkOk(h, edited, i) then i + 1 else i);
  }

  /** If some string of the entry holds a NUL, shifting its fields there goes unnoticed. */
  lemma ShiftUnnoticed(h: HashFn, log: seq<Entry>, i: nat)
    requires Intact(h, log) && i < |log| && !Plain(log[i])
    ensures Intact(h, log[i := Shifted(log[i])]) && !SameFields(Shifted(log[i]), log[i])
  {
    ShiftedSameText(log[i]);
    SameTextUnnoticed(h, log, i, Shifted(log[i]));
  }

  lemma SameTextUnnoticed(h: HashFn, log: seq<Entry>, i: nat, e: Entry)
    requires Intact(h, log) && i < |log| && Preimage(e) == Preimage(log[i])
    requires (e.prev, e.hash) == (log[i].prev, log[i].hash)
    ensures Intact(h, log[i := e])
  {
    var edited := log[i := e];
    forall j | 0 <= j < |log| ensures LinkOk(h, edited, j) {
      assert LinkOk(h, log, j) && PrevOf(edited, j) == PrevOf(log, j);
    }
  }

  // ---------------------------------------------------------------- deletion, reordering, duplication

  /** No hash of an intact log occurs twice. */
  lemma {:induction false} HashesDistinct(h: HashFn, log: seq<Entry>, i: nat, j: nat)
    requires HexValued(h) && Intact(h, log) && CollisionFree(h, Texts(log))
    requires i < j <= |log|
    ensures PrevOf(log, i) != PrevOf(log, j)
  {
    HashClean(h, log, j);
    if i > 0 && PrevOf(log, i) == PrevOf(log, j) {
      var a, b := log[i - 1], log[j - 1];
      assert LinkOk(h, log, i - 1) && LinkOk(h, log, j - 1);
      assert Preimage(a) in Texts(log) && Preimage(b) in Texts(log);
      HashClean(h, log, i - 1);
      HashClean(h, log, j - 1);
      PrevDetermined(a, b);
      HashesDistinct(h, log, i - 1, j - 1);
    }
  }

  /** The entries of a log, picked in any order, with gaps and repetitions. */
  function Picked(log: seq<Entry>, picks: seq<nat>): seq<Entry>
    requires forall k :: 0 <= k < |picks| ==> picks[k] < |log|
  {
    seq(|picks|, k requires 0 <= k < |picks| && picks[k] < |log| => log[picks[k]])
  }

  /** A log made of entries of an intact log is itself intact exactly when it is a prefix of it. */
  lemma RearrangedIffPrefix(h: HashFn, log: seq<Entry>, picks: seq<nat>)
    requires HexValued(h) && Intact(h, log) && CollisionFree(h, Texts(log))
    requires forall k :: 0 <= k < |picks| ==> picks[k] < |log|
    ensures Intact(h, Picked(log, picks)) <==> Picked(log, picks) <= log
  {
    var edited := Picked(log, picks);
    if Intact(h, edited) {
      forall k | 0 <= k < |picks| ensures picks[k] == k {
        IntactPickIsPosition(h, log, picks, k);
      }
      if |picks| > 0 { assert picks[|picks| - 1] < |log|; }
      assert edited == log[..|picks|];
    }
    if edited <= log {
      forall k | 0 <= k < |edited| ensures LinkOk(h, edited, k) {
        assert LinkOk(h, log, k);
      }
    }
  }

  lemma {:induction false} IntactPickIsPosition(h: HashFn, log: seq<Entry>, picks: seq<nat>, k: nat)
    requires HexValued(h) && Intact(h, log) && CollisionFree(h, Texts(log))
    requires forall k :: 0 <= k < |picks| ==> picks[k] < |log|
    requires Intact(h, Picked(log, picks)) && k < |picks|
    ensures picks[k] == k
  {
    var edited := Picked(log, picks);
    var m := picks[k];
    assert LinkOk(h, edited, k) && LinkOk(h, log, m);
    if k > 0 { IntactPickIsPosition(h, log, picks, k - 1); }
    assert PrevOf(edited, k) == PrevOf(log, k) == PrevOf(log, m);
    if m < k { HashesDistinct(h, log, m, k); }
    if k < m { HashesDistinct(h, log, k, m); }
  }
}
