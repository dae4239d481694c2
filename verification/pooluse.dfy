/** Who has a sandbox: exclusive use and tracking in disciplined runs of the pool. */
module PoolUse {
  import opened Options
  import opened Pool
  import opened PoolBalance

  /** The operation works on this sandbox. */
  predicate Names(op: Option<Op>, id: Id) {
    op.Some? && HasId(op.value) && op.value.id == id
  }

  /** Close took this sandbox out of the map and has not destroyed it yet. */
  predicate Took(op: Option<Op>, id: Id) {
    op.Some? && IsCloser(op.value) && id in op.value.snap
  }

  predicate UsesAt(ops: map<nat, Op>, t: nat, id: Id) {
    Names(At(ops, t), id)
  }

  ghost predicate Uses(ops: map<nat, Op>, id: Id) {
    exists t :: UsesAt(ops, t, id)
  }

  predicate ClaimsAt(ops: map<nat, Op>, t: nat, id: Id) {
    Took(At(ops, t), id)
  }

  ghost predicate Claimed(ops: map<nat, Op>, id: Id) {
    exists t :: ClaimsAt(ops, t, id)
  }

  /** The sandbox of this operation is already destroyed. */
  predicate Spent(op: Op) {
    op.Forgetting? || op.Dropping?
  }

  ghost predicate Below(ids: set<Id>, n: Id) {
    forall id <- ids :: id < n
  }

  ghost predicate OpBelow(op: Option<Op>, n: Id) {
    forall id: Id :: Names(op, id) || Took(op, id) ==> id < n
  }

  ghost predicate SharedBelow(sh: Shared, n: Id) {
    Below(Elements(sh.ready), n) && Below(sh.all, n)
  }

  /** Every sandbox named anywhere came from the driver. */
  ghost predicate Bounded(s: State) {
    SharedBelow(s.sh, s.next) && Below(s.destroyed, s.next) && forall t :: OpBelow(At(s.ops, t), s.next)
  }

  lemma SectionSharedBelow(size: nat, sh: Shared, op: Option<Op>, next: Id, a: Action)
    requires SharedBelow(sh, next) && OpBelow(op, next)
    ensures var e := Section(size, sh, op, next, a); e.next >= next && SharedBelow(e.sh, e.next)
  {
    if op.Some? && HasId(op.value) {
      assert Names(op, op.value.id);
      assert Elements(sh.ready + [op.value.id]) == Elements(sh.ready) + {op.value.id};
    }
    assert sh.ready != [] ==> Elements(sh.ready[1..]) <= Elements(sh.ready);
  }

  lemma SectionOpBelow(size: nat, sh: Shared, op: Option<Op>, next: Id, a: Action)
    requires SharedBelow(sh, next) && OpBelow(op, next)
    ensures var e := Section(size, sh, op, next, a);
      OpBelow(e.op, e.next) && (e.gone.Some? ==> e.gone.value < e.next)
  {
    if sh.ready != [] { assert sh.ready[0] in Elements(sh.ready); }
    if op.Some? && HasId(op.value) { assert Names(op, op.value.id); }
    if op.Some? && IsCloser(op.value) { assert forall id <- op.value.snap :: Took(op, id); }
  }

  lemma BoundedNext(s: State, a: Action)
    requires Bounded(s)
    ensures Bounded(Next(s, a)) && Next(s, a).next >= s.next
  {
    var op := At(s.ops, a.t);
    SectionSharedBelow(s.size, s.sh, op, s.next, a);
    SectionOpBelow(s.size, s.sh, op, s.next, a);
    forall t ensures OpBelow(At(Next(s, a).ops, t), Next(s, a).next) {
      assert OpBelow(At(s.ops, t), s.next);
    }
  }

  lemma NextIsNew(s: State)
    requires Bounded(s)
    ensures s.next !in s.sh.ready && s.next !in s.sh.all && s.next !in s.destroyed
    ensures forall t :: !UsesAt(s.ops, t, s.next) && !ClaimsAt(s.ops, t, s.next)
  {
    assert s.next in s.sh.ready ==> s.next in Elements(s.sh.ready);
    assert forall t :: OpBelow(At(s.ops, t), s.next);
  }

  /** No sandbox is queued twice, queued while in use, or used by two operations. */
  ghost predicate Exclusive(ready: seq<Id>, ops: map<nat, Op>) {
    && (forall i, j :: 0 <= i < j < |ready| ==> ready[i] != ready[j])
    && (forall t, i :: UsesAt(ops, t, i) ==> i !in ready)
    && (forall t, u, i :: UsesAt(ops, t, i) && UsesAt(ops, u, i) ==> t == u)
  }

  /** Where the sandboxes of a disciplined section come from and go to. */
  lemma SectionMoves(size: nat, sh: Shared, op: Option<Op>, next: Id, a: Action)
    requires !a.Release?
    ensures var e := Section(size, sh, op, next, a);
      || (e.sh.ready == sh.ready &&
          forall id :: Names(e.op, id) ==> Names(op, id) || (id == next && e.next == next + 1))
      || (sh.ready != [] && e.sh.ready == sh.ready[1..] && op.None? && e.op == Some(Held(sh.ready[0])))
      || (op.Some? && HasId(op.value) && e.sh.ready == sh.ready + [op.value.id] && e.op.None?)
      || (sh.ready != [] && e.sh.ready == sh.ready[1..] && op.Some? && op.value.Draining? && e.op == op)
  {
    if a.Run? && op.Some? { AdvanceMoves(size, sh, op.value, next, a.ok, a.pick); }
  }

  lemma AdvanceMoves(size: nat, sh: Shared, op: Op, next: Id, ok: bool, pick: Id)
    ensures var e := Advance(size, sh, op, next, ok, pick);
      || (e.sh.ready == sh.ready &&
          forall id :: Names(e.op, id) ==> Names(Some(op), id) || (id == next && e.next == next + 1))
      || (HasId(op) && e.sh.ready == sh.ready + [op.id] && e.op.None?)
      || (sh.ready != [] && e.sh.ready == sh.ready[1..] && op.Draining? && e.op == Some(op))
  {
  }

  lemma ExclusiveSame(ready: seq<Id>, ops: map<nat, Op>, t: nat, op: Option<Op>)
    requires Exclusive(ready, ops)
    requires forall i :: Names(op, i) ==> i !in ready && forall u :: UsesAt(ops, u, i) ==> u == t
    ensures Exclusive(ready, Put(ops, t, op))
  {
    assert forall u, i :: u != t ==> UsesAt(Put(ops, t, op), u, i) == UsesAt(ops, u, i);
  }

  lemma ExclusivePush(ready: seq<Id>, ops: map<nat, Op>, t: nat)
    requires Exclusive(ready, ops) && t in ops && HasId(ops[t])
    ensures Exclusive(ready + [ops[t].id], Put(ops, t, None))
  {
    assert UsesAt(ops, t, ops[t].id);
    assert forall u, i :: u != t ==> UsesAt(Put(ops, t, None), u, i) == UsesAt(ops, u, i);
  }

  lemma ExclusiveNext(s: State, a: Action)
    requires Bounded(s) && Exclusive(s.sh.ready, s.ops) && !a.Release?
    ensures Exclusive(Next(s, a).sh.ready, Next(s, a).ops)
  {
    var op := At(s.ops, a.t);
    var e := Section(s.size, s.sh, op, s.next, a);
    SectionMoves(s.size, s.sh, op, s.next, a);
    NextIsNew(s);
    assert forall i :: Names(op, i) ==> UsesAt(s.ops, a.t, i);
    if |e.sh.ready| > |s.sh.ready| {
      ExclusivePush(s.sh.ready, s.ops, a.t);
    } else {
      assert Exclusive(e.sh.ready, s.ops);
      ExclusiveSame(e.sh.ready, s.ops, a.t, e.op);
    }
  }

  ghost predicate OpAlive(op: Option<Op>, open: bool, destroyed: set<Id>) {
    forall id :: Names(op, id) ==> if Spent(op.value) then id in destroyed else open ==> id !in destroyed
  }

  /** While the channel is open only an operation that is past its Destroy names a destroyed sandbox. */
  ghost predicate Alive(s: State) {
    && (forall t :: OpAlive(At(s.ops, t), s.sh.open, s.destroyed))
    && (s.sh.open ==> forall id <- s.sh.ready :: id !in s.destroyed)
  }

  lemma SectionAlive(size: nat, sh: Shared, op: Option<Op>, next: Id, a: Action, destroyed: set<Id>)
    requires !a.Release? && OpAlive(op, sh.open, destroyed) && next !in destroyed
    requires sh.open ==> forall id <- sh.ready :: id !in destroyed
    requires op.Some? && HasId(op.value) ==> op.value.id !in sh.ready
    requires sh.open && op.Some? && IsCloser(op.value) ==> op.value.Shutting?
    ensures var e := Section(size, sh, op, next, a);
      && OpAlive(e.op, e.sh.open, Mark(destroyed, e.gone))
      && (e.sh.open ==> forall id <- e.sh.ready :: id !in Mark(destroyed, e.gone))
      && (e.sh.open && e.gone.Some? ==> Names(op, e.gone.value))
  {
    if op.Some? && HasId(op.value) { assert Names(op, op.value.id); }
  }

  lemma AliveNext(s: State, a: Action)
    requires Bounded(s) && Exclusive(s.sh.ready, s.ops) && Alive(s) && OneCloser(s) && !a.Release?
    ensures Alive(Next(s, a))
  {
    var op := At(s.ops, a.t);
    NextIsNew(s);
    assert op.Some? && HasId(op.value) ==> UsesAt(s.ops, a.t, op.value.id);
    SectionAlive(s.size, s.sh, op, s.next, a, s.destroyed);
    OneCloserNext(s, a);
    var n := Next(s, a);
    if !s.panicked {
      forall u | u != a.t ensures OpAlive(At(n.ops, u), n.sh.open, n.destroyed) {
        assert OpAlive(At(s.ops, u), s.sh.open, s.destroyed);
        assert forall id :: Names(At(s.ops, u), id) ==> UsesAt(s.ops, u, id);
        assert forall id :: Names(op, id) ==> UsesAt(s.ops, a.t, id);
      }
    }
  }

  ghost predicate Accounted(s: State, id: Id) {
    id in s.destroyed || id in s.sh.ready || Claimed(s.ops, id) || Uses(s.ops, id)
  }

  ghost predicate NoneLost(s: State) {
    s.sh.open ==> forall id :: 0 <= id < s.next ==> Accounted(s, id)
  }

  /** While the channel stays open, a section passes on every sandbox it had. */
  lemma SectionKeeps(size: nat, sh: Shared, op: Option<Op>, next: Id, a: Action, destroyed: set<Id>, id: Id)
    requires OpAlive(op, sh.open, destroyed) && Section(size, sh, op, next, a).sh.open
    requires op.Some? && IsCloser(op.value) ==> op.value.Shutting?
    requires id in sh.ready || Names(op, id) || Took(op, id)
    ensures var e := Section(size, sh, op, next, a);
      id in Mark(destroyed, e.gone) || id in e.sh.ready || Names(e.op, id) || Took(e.op, id)
  {
  }

  lemma AccountedNext(s: State, a: Action, id: Id)
    requires Alive(s) && OneCloser(s) && Next(s, a).sh.open && Accounted(s, id)
    ensures Accounted(Next(s, a), id)
  {
    var n := Next(s, a);
    var op := At(s.ops, a.t);
    OneCloserNext(s, a);
    assert OpAlive(op, s.sh.open, s.destroyed);
    if !s.panicked && id !in s.destroyed {
      if id in s.sh.ready || Names(op, id) || Took(op, id) {
        SectionKeeps(s.size, s.sh, op, s.next, a, s.destroyed, id);
        assert UsesAt(n.ops, a.t, id) || ClaimsAt(n.ops, a.t, id) || id in n.sh.ready || id in n.destroyed;
      } else if Claimed(s.ops, id) {
        var u :| ClaimsAt(s.ops, u, id);
        assert ClaimsAt(n.ops, u, id);
      } else {
        var u :| UsesAt(s.ops, u, id);
        assert UsesAt(n.ops, u, id);
      }
    }
  }

  lemma NoneLostNext(s: State, a: Action)
    requires Alive(s) && NoneLost(s) && OneCloser(s)
    ensures NoneLost(Next(s, a))
  {
    var n := Next(s, a);
    var op := At(s.ops, a.t);
    OneCloserNext(s, a);
    if n.sh.open {
      forall id | 0 <= id < n.next ensures Accounted(n, id) {
        if id < s.next {
          AccountedNext(s, a, id);
        } else {
          assert UsesAt(n.ops, a.t, id);
        }
      }
    }
  }

  ghost predicate OpTracked(op: Option<Op>, all: set<Id>) {
    forall id :: Names(op, id) ==> (id in all <==> !op.value.Tracking? && !op.value.Enrolling?)
  }

  /** Before Close, p.all holds the queued sandboxes and those in use, save between New and track. */
  ghost predicate Tracked(s: State) {
    !s.sh.closed ==>
      && (forall id <- s.sh.ready :: id in s.sh.all)
      && (forall id <- s.sh.all :: id in s.sh.ready || Uses(s.ops, id))
      && (forall t :: OpTracked(At(s.ops, t), s.sh.all))
  }

  /** Before Close, a section changes the tracking of its own sandbox only, and keeps the books. */
  lemma SectionTracks(size: nat, sh: Shared, op: Option<Op>, next: Id, a: Action)
    requires !a.Release? && OpTracked(op, sh.all) && next !in sh.all && forall id <- sh.ready :: id in sh.all
    requires forall id :: Names(op, id) ==> id !in sh.ready
    requires op.Some? ==> !IsCloser(op.value) && !op.value.Late?
    requires !Section(size, sh, op, next, a).sh.closed
    ensures var e := Section(size, sh, op, next, a);
      && OpTracked(e.op, e.sh.all)
      && (forall id <- e.sh.ready :: id in e.sh.all)
      && (forall id :: !Names(op, id) ==> (id in e.sh.all <==> id in sh.all))
      && (forall id <- e.sh.all :: id in sh.ready || Names(op, id) ==> id in e.sh.ready || Names(e.op, id))
  {
    if op.Some? && HasId(op.value) { assert Names(op, op.value.id); }
  }

  lemma TrackedNext(s: State, a: Action)
    requires Bounded(s) && Exclusive(s.sh.ready, s.ops) && Tracked(s) && OneCloser(s) && !a.Release?
    ensures Tracked(Next(s, a))
  {
    var n := Next(s, a);
    var op := At(s.ops, a.t);
    var e := Section(s.size, s.sh, op, s.next, a);
    if !n.sh.closed && !s.panicked {
      SectionCloser(s.size, s.sh, op, s.next, a);
      NextIsNew(s);
      assert OpTracked(op, s.sh.all);
      assert forall id :: Names(op, id) ==> UsesAt(s.ops, a.t, id);
      SectionTracks(s.size, s.sh, op, s.next, a);
      forall u | u != a.t ensures OpTracked(At(n.ops, u), n.sh.all) {
        assert OpTracked(At(s.ops, u), s.sh.all);
        assert forall id :: Names(At(s.ops, u), id) ==> UsesAt(s.ops, u, id);
      }
      forall id <- n.sh.all ensures id in n.sh.ready || Uses(n.ops, id) {
        if id in s.sh.ready || Names(op, id) {
          assert id in n.sh.ready || UsesAt(n.ops, a.t, id);
        } else {
          var u :| UsesAt(s.ops, u, id);
          assert UsesAt(n.ops, u, id);
        }
      }
    }
  }

  /** What every disciplined run keeps. */
  ghost predicate Inv(s: State) {
    && Bounded(s) && Exclusive(s.sh.ready, s.ops) && Alive(s)
    && NoneLost(s) && OneCloser(s) && Tracked(s)
  }

  lemma {:induction false} InvExec(s: State, acts: seq<Action>)
    requires Inv(s) && Disciplined(acts)
    ensures Inv(Exec(s, acts))
    decreases |acts|
  {
    if acts != [] {
      var a := acts[0];
      BoundedNext(s, a);
      ExclusiveNext(s, a);
      AliveNext(s, a);
      NoneLostNext(s, a);
      OneCloserNext(s, a);
      TrackedNext(s, a);
      InvExec(Next(s, a), acts[1..]);
    }
  }

  lemma InvInit(size: nat)
    ensures Inv(Init(size))
  {
    var s := Init(size);
    forall id | 0 <= id < size ensures id in s.sh.ready {
      assert s.sh.ready[id] == id;
    }
  }

  function HeldIds(ops: map<nat, Op>): set<Id> {
    set t | t in ops && ops[t].Held? :: ops[t].id
  }

  /**
   In every disciplined run no sandbox is queued twice, queued while in use, or in the
   hands of two operations. Before Close each queued one is tracked and not destroyed, and
   when the only operations in flight are holders, p.all is what is queued or held.
   */
  lemma Exclusivity(size: nat, acts: seq<Action>)
    requires Disciplined(acts)
    ensures var s := Exec(Init(size), acts);
      && (forall i, j :: 0 <= i < j < |s.sh.ready| ==> s.sh.ready[i] != s.sh.ready[j])
      && (forall t, id :: UsesAt(s.ops, t, id) ==> id !in s.sh.ready)
      && (forall t, u, id :: UsesAt(s.ops, t, id) && UsesAt(s.ops, u, id) ==> t == u)
      && (!s.sh.closed ==> forall id <- s.sh.ready :: id in s.sh.all && id !in s.destroyed)
      && (!s.sh.closed && (forall t <- s.ops :: s.ops[t].Held?) ==> s.sh.all == Elements(s.sh.ready) + HeldIds(s.ops))
  {
    InvInit(size);
    InvExec(Init(size), acts);
    var s := Exec(Init(size), acts);
    if !s.sh.closed && forall t <- s.ops :: s.ops[t].Held? {
      forall id <- s.sh.all ensures id in Elements(s.sh.ready) + HeldIds(s.ops) {
        if id !in s.sh.ready {
          var t :| UsesAt(s.ops, t, id);
        }
      }
      forall id <- HeldIds(s.ops) ensures id in s.sh.all {
        var t :| t in s.ops && s.ops[t].Held? && s.ops[t].id == id;
        assert OpTracked(At(s.ops, t), s.sh.all);
      }
    }
  }

  /** Three sections of goroutine t by which Release, having seen an open pool, queues its sandbox. */
  lemma ReleaseQueues(s: State, t: nat, id: Id)
    requires !s.panicked && s.sh.open && !s.sh.closed && |s.sh.ready| < s.size && At(s.ops, t) == Some(Checking(id))
    ensures var f := Exec(s, [Run(t, true, 0), Run(t, true, 0), Run(t, true, 0)]);
      f == s.(sh := s.sh.(ready := s.sh.ready + [id]), ops := s.ops - {t})
  {
    var go := Run(t, true, 0);
    var s1 := Next(s, go);
    assert s1 == s.(ops := s.ops[t := Resetting(id)]);
    var s2 := Next(s1, go);
    assert s1.ops[t := Sending(id)] == s.ops[t := Sending(id)];
    assert s2 == s.(ops := s.ops[t := Sending(id)]);
    assert s.ops[t := Sending(id)] - {t} == s.ops - {t};
    ExecThree(s, go, go, go);
  }

  /**
   Without the discipline the queue takes a sandbox twice: whenever two more fit, a holder's
   Release followed by a stray Release of the same sandbox queues it two times in a row.
   */
  lemma DoubleReleaseQueuesTwice(s: State, t: nat, u: nat)
    requires !s.panicked && s.sh.open && !s.sh.closed && |s.sh.ready| + 2 <= s.size
    requires t in s.ops && s.ops[t].Held? && s.ops[t].id < s.next && u !in s.ops && u != t
    ensures var id := s.ops[t].id;
      var run := [Return(t)] + [Run(t, true, 0), Run(t, true, 0), Run(t, true, 0)]
               + ([Release(u, id)] + [Run(u, true, 0), Run(u, true, 0), Run(u, true, 0)]);
      Exec(s, run).sh.ready == s.sh.ready + [id, id]
  {
    var id := s.ops[t].id;
    var once := [Return(t)] + [Run(t, true, 0), Run(t, true, 0), Run(t, true, 0)];
    var twice := [Release(u, id)] + [Run(u, true, 0), Run(u, true, 0), Run(u, true, 0)];
    ExecOne(s, Return(t));
    ExecConcat(s, [Return(t)], [Run(t, true, 0), Run(t, true, 0), Run(t, true, 0)]);
    ReleaseQueues(Next(s, Return(t)), t, id);
    var m := Exec(s, once);
    ExecOne(m, Release(u, id));
    ExecConcat(m, [Release(u, id)], [Run(u, true, 0), Run(u, true, 0), Run(u, true, 0)]);
    ReleaseQueues(Next(m, Release(u, id)), u, id);
    ExecConcat(s, once, twice);
  }

  lemma TakeOne(s: State, t: nat)
    requires !s.panicked && t !in s.ops && s.sh.ready != []
    ensures Next(s, Acquire(t)) == s.(sh := s.sh.(ready := s.sh.ready[1..]), ops := s.ops[t := Held(s.sh.ready[0])])
  {
  }

  /** Some run meets the hypotheses of DoubleReleaseQueuesTwice in any pool of two or more: two goroutines acquire. */
  lemma DoubleReleaseReached(size: nat, t: nat, v: nat, u: nat) returns (acts: seq<Action>)
    requires size >= 2 && t != v && u != t && u != v
    ensures Disciplined(acts)
    ensures var s := Exec(Init(size), acts);
      && !s.panicked && s.sh.open && !s.sh.closed && |s.sh.ready| + 2 <= s.size
      && t in s.ops && s.ops[t].Held? && s.ops[t].id < s.next && u !in s.ops
  {
    acts := [Acquire(t)] + [Acquire(v)];
    TakeOne(Init(size), t);
    TakeOne(Next(Init(size), Acquire(t)), v);
    ExecOne(Init(size), Acquire(t));
    ExecOne(Next(Init(size), Acquire(t)), Acquire(v));
    ExecConcat(Init(size), [Acquire(t)], [Acquire(v)]);
  }
}
