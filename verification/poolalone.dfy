/** The atomic sections of one operation of the pool, uninterrupted, against the methods. */
module PoolAlone {
  import opened Options
  import opened Pool

  /** n sections of goroutine t in a row. */
  function Alone(s: State, t: nat, ok: bool, n: nat): State {
    if n == 0 then s else Next(Alone(s, t, ok, n - 1), Run(t, ok, 0))
  }

  lemma {:induction false} AloneIsRun(s: State, t: nat, ok: bool, n: nat)
    ensures Exec(s, seq(n, i => Run(t, ok, 0))) == Alone(s, t, ok, n)
  {
    if n > 0 {
      AloneIsRun(s, t, ok, n - 1);
      assert seq(n, i => Run(t, ok, 0)) == seq(n - 1, i => Run(t, ok, 0)) + [Run(t, ok, 0)];
      ExecConcat(s, seq(n - 1, i => Run(t, ok, 0)), [Run(t, ok, 0)]);
      ExecOne(Alone(s, t, ok, n - 1), Run(t, ok, 0));
    }
  }

  /** From s to f only goroutine t ran; it stands at e.op now, and the shared state and the driver are as in e. */
  predicate Reached(s: State, f: State, t: nat, e: Effect, destroyed: set<Id>) {
    !f.panicked && f.size == s.size && f.sh == e.sh && f.ops == Put(s.ops, t, e.op) && f.next == e.next
    && f.destroyed == destroyed
  }

  lemma PutTwice(ops: map<nat, Op>, t: nat, a: Option<Op>, b: Option<Op>)
    ensures Put(Put(ops, t, a), t, b) == Put(ops, t, b) && At(Put(ops, t, a), t) == a
    ensures Put(ops, t, At(ops, t)) == ops
  {
  }

  /** Reached after n sections of t from z. */
  ghost predicate Done(s: State, z: State, t: nat, ok: bool, n: nat, e: Effect, destroyed: set<Id>) {
    Reached(s, Alone(z, t, ok, n), t, e, destroyed)
  }

  ghost predicate DonePanicked(z: State, t: nat, ok: bool, n: nat) {
    Alone(z, t, ok, n).panicked
  }

  /** One more section, or none when t has come to its end. */
  lemma DoneNext(s: State, z: State, t: nat, ok: bool, n: nat, e: Effect, destroyed: set<Id>) returns (e': Effect)
    requires Done(s, z, t, ok, n, e, destroyed)
    ensures e' == if e.op.Some? then Advance(s.size, e.sh, e.op.value, e.next, ok, 0) else Step(e.sh, None, e.next)
    ensures if e'.panic then DonePanicked(z, t, ok, n + 1) else Done(s, z, t, ok, n + 1, e', Mark(destroyed, e'.gone))
  {
    e' := if e.op.Some? then Advance(s.size, e.sh, e.op.value, e.next, ok, 0) else Step(e.sh, None, e.next);
    PutTwice(s.ops, t, e.op, e'.op);
  }

  lemma {:induction false} StaysPanicked(z: State, t: nat, ok: bool, n: nat, m: nat)
    requires DonePanicked(z, t, ok, n) && n <= m
    ensures DonePanicked(z, t, ok, m)
    decreases m - n
  {
    if n < m { StaysPanicked(z, t, ok, n + 1, m); }
  }

  lemma AtStart(s: State, t: nat, ok: bool, e: Effect)
    requires !s.panicked && e == Step(s.sh, At(s.ops, t), s.next)
    ensures Done(s, s, t, ok, 0, e, s.destroyed)
  {
    PutTwice(s.ops, t, None, None);
  }

  /** The end of an uninterrupted Release or replenish comes to what the method Requeue does. */
  lemma RequeueAlone(s: State, z: State, t: nat, n: nat, id: Id, e: Effect, destroyed: set<Id>)
    requires Done(s, z, t, true, n, e, destroyed) && e.op == Some(Sending(id))
    ensures var (r, sh) := RequeuedTo(e.sh, s.size, id);
      if r == Panicked then DonePanicked(z, t, true, n + 3)
      else Done(s, z, t, true, n + 3, Step(sh, None, e.next), if r == Destroyed then destroyed + {id} else destroyed)
  {
    var e1 := DoneNext(s, z, t, true, n, e, destroyed);
    if e1.panic {
      StaysPanicked(z, t, true, n + 1, n + 3);
    } else {
      var e2 := DoneNext(s, z, t, true, n + 1, e1, destroyed);
      var e3 := DoneNext(s, z, t, true, n + 2, e2, Mark(destroyed, e2.gone));
    }
  }

  /** So do the sections of Release, from its closed check on, and its method. */
  lemma ReleaseAlone(s: State, t: nat, id: Id, resets: bool) returns (n: nat)
    requires !s.panicked && At(s.ops, t) == Some(Checking(id))
    ensures var (r, sh) := ReleasedTo(s.sh, s.size, id, resets);
      if r == Panicked then DonePanicked(s, t, resets, n)
      else Done(s, s, t, resets, n, Step(sh, if r == Replaced then Some(Replenishing) else None, s.next),
                if r == Queued then s.destroyed else s.destroyed + {id})
  {
    var e := Step(s.sh, Some(Checking(id)), s.next);
    AtStart(s, t, resets, e);
    var e1 := DoneNext(s, s, t, resets, 0, e, s.destroyed);
    var e2 := DoneNext(s, s, t, resets, 1, e1, s.destroyed);
    if s.sh.closed {
      n := 2;
    } else if resets {
      n := 5;
      RequeueAlone(s, s, t, 2, id, e2, s.destroyed);
    } else {
      n := 4;
      var e3 := DoneNext(s, s, t, resets, 2, e2, s.destroyed);
      var e4 := DoneNext(s, s, t, resets, 3, e3, s.destroyed + {id});
    }
  }

  /** And those of Acquire, */
  lemma AcquireAlone(s: State, t: nat, works: bool)
    requires !s.panicked && t !in s.ops
    ensures var (r, sh) := AcquiredFrom(s.sh, works, s.next);
      var created := s.sh.ready == [] && s.sh.open && works;
      Done(s, Next(s, Acquire(t)), t, works, if created then 2 else 1,
           Step(sh, if r.Sandbox? then Some(Held(r.id)) else None, if created then s.next + 1 else s.next), s.destroyed)
    ensures var (r, _) := AcquiredFrom(s.sh, works, s.next);
      var f := Alone(Next(s, Acquire(t)), t, works, if r.Sandbox? && s.sh.ready == [] then 2 else 1);
      f.nils == (if r.NoSandbox? then s.nils + 1 else s.nils) && f.lost == s.lost
  {
    var z := Next(s, Acquire(t));
    var e := Receiving(s.sh, s.next);
    PutTwice(s.ops, t, None, None);
    assert Done(s, z, t, works, 0, e, s.destroyed);
    var e1 := DoneNext(s, z, t, works, 0, e, s.destroyed);
    Counted(s, Acquire(t));
    Counted(z, Run(t, works, 0));
    if e1.op.Some? && e1.op.value.Tracking? {
      var e2 := DoneNext(s, z, t, works, 1, e1, s.destroyed);
      Counted(Alone(z, t, works, 1), Run(t, works, 0));
    }
  }

  /** and of replenish. */
  lemma ReplenishAlone(s: State, t: nat, works: bool)
    requires !s.panicked && At(s.ops, t) == Some(Replenishing)
    ensures var (r, sh) := ReplenishedTo(s.sh, s.size, works, s.next);
      var n := if r == Nothing then 2 else 6;
      if r == Panicked then DonePanicked(s, t, works, n)
      else Done(s, s, t, works, n, Step(sh, None, if r == Nothing then s.next else s.next + 1),
                if r == Destroyed then s.destroyed + {s.next} else s.destroyed)
  {
    var e := Step(s.sh, Some(Replenishing), s.next);
    AtStart(s, t, works, e);
    var e1 := DoneNext(s, s, t, works, 0, e, s.destroyed);
    var e2 := DoneNext(s, s, t, works, 1, e1, s.destroyed);
    if works && !s.sh.closed {
      var e3 := DoneNext(s, s, t, works, 2, e2, s.destroyed);
      RequeueAlone(s, s, t, 3, s.next, e3, s.destroyed);
    }
  }

  /** Its first two sections, the closed check and driver.New, count it as lost iff New fails before Close. */
  lemma ReplenishCounted(s: State, t: nat, works: bool)
    requires !s.panicked && At(s.ops, t) == Some(Replenishing)
    ensures Alone(s, t, works, 2).lost == if s.sh.closed || works then s.lost else s.lost + 1
  {
    var z := Alone(s, t, works, 1);
    assert Alone(s, t, works, 0) == s;
    assert z == Next(s, Run(t, works, 0)) && At(z.ops, t) == if s.sh.closed then None else Some(Warming);
    Counted(s, Run(t, works, 0));
    Counted(z, Run(t, works, 0));
  }

  lemma {:induction false} DrainAll(c: State, t: nat)
    requires !c.panicked && t in c.ops && c.ops[t].Draining?
    ensures Exec(c, seq(|c.sh.ready|, i => Run(t, true, 0))) == c.(sh := c.sh.(ready := []))
    decreases |c.sh.ready|
  {
    if c.sh.ready != [] {
      var n := |c.sh.ready|;
      var go := Run(t, true, 0);
      var d := Next(c, go);
      assert seq(n, i => go)[1..] == seq(n - 1, i => go);
      DrainAll(d, t);
    }
  }

  predicate RunsOf(t: nat, acts: seq<Action>) {
    forall a <- acts :: a.Run? && a.t == t
  }

  lemma {:induction false} DestroyAll(c: State, t: nat) returns (acts: seq<Action>)
    requires !c.panicked && t in c.ops && c.ops[t].Destroying?
    ensures RunsOf(t, acts)
    ensures Exec(c, acts) == c.(ops := c.ops - {t}, destroyed := c.destroyed + c.ops[t].snap)
    decreases |c.ops[t].snap|
  {
    var snap := c.ops[t].snap;
    if snap == {} {
      acts := [Run(t, true, 0)];
      ExecOne(c, Run(t, true, 0));
    } else {
      var pick :| pick in snap;
      var a := Run(t, true, pick);
      var d := Next(c, a);
      var rest := DestroyAll(d, t);
      acts := [a] + rest;
      assert acts[1..] == rest;
      assert d.ops - {t} == c.ops - {t};
      assert d.destroyed + (snap - {pick}) == c.destroyed + snap;
    }
  }

  lemma DrainAndDestroy(d: State, t: nat) returns (acts: seq<Action>)
    requires !d.panicked && t in d.ops && d.ops[t].Draining?
    ensures RunsOf(t, acts)
    ensures Exec(d, acts) ==
      d.(sh := d.sh.(ready := []), ops := d.ops - {t}, destroyed := d.destroyed + d.ops[t].snap)
  {
    var go := Run(t, true, 0);
    var drain := seq(|d.sh.ready|, i => go);
    DrainAll(d, t);
    var e := Exec(d, drain);
    var f := Next(e, go);
    assert f == e.(ops := d.ops[t := Destroying(d.ops[t].snap)]);
    var rest := DestroyAll(f, t);
    assert f.ops - {t} == d.ops - {t};
    acts := drain + ([go] + rest);
    ExecOne(e, go);
    ExecConcat(e, [go], rest);
    ExecConcat(d, drain, [go] + rest);
  }

  /** The sections of Close, uninterrupted, come to what the method does. */
  lemma CloseAlone(s: State, t: nat) returns (acts: seq<Action>)
    requires !s.panicked && s.sh.open && !s.sh.closed && t !in s.ops
    ensures acts != [] && acts[0] == Close(t) && RunsOf(t, acts[1..])
    ensures Exec(s, acts) == s.(sh := Shared([], false, true, {}), destroyed := s.destroyed + s.sh.all)
  {
    var go := Run(t, true, 0);
    var c := Next(s, Close(t));
    var d := Next(c, go);
    assert d == s.(sh := Shared(s.sh.ready, false, true, {}), ops := s.ops[t := Draining(s.sh.all)]);
    var rest := DrainAndDestroy(d, t);
    assert d.ops - {t} == s.ops;
    acts := [Close(t)] + ([go] + rest);
    ExecOne(s, Close(t));
    ExecOne(c, go);
    ExecConcat(c, [go], rest);
    ExecConcat(s, [Close(t)], [go] + rest);
  }
}
