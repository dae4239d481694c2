/**
 Shutting the pool of internal/runtime/pool/pool.go down while operations are in flight:
 when nothing is sent on the closed channel and no sandbox is lost.
 */
module PoolShutdown {
  import opened Options
  import opened Pool
  import opened PoolAlone
  import opened PoolBalance
  import opened PoolUse

  ghost predicate WindowEmpty(ops: map<nat, Op>) {
    forall t <- ops :: !InWindow(ops[t])
  }

  /** This operation will destroy the sandbox without sending it anywhere. */
  predicate Ends(op: Option<Op>, id: Id) {
    Took(op, id) || (Names(op, id) && !Spent(op.value))
  }

  ghost predicate Doomed(s: State, id: Id) {
    id in s.destroyed || exists t :: Ends(At(s.ops, t), id)
  }

  ghost predicate QuietlyClosed(s: State) {
    s.sh.closed && !s.panicked && WindowEmpty(s.ops) && forall id :: 0 <= id < s.next ==> Doomed(s, id)
  }

  /** In a closed pool an operation outside the window stays outside it. */
  lemma SectionQuiet(size: nat, sh: Shared, op: Option<Op>, next: Id, a: Action)
    requires sh.closed && (op.Some? ==> !InWindow(op.value))
    ensures var e := Section(size, sh, op, next, a);
      && e.sh.closed && !e.panic && (e.op.Some? ==> !InWindow(e.op.value))
      && (e.next == next || (e.next == next + 1 && Ends(e.op, next)))
      && (forall id: Id :: Ends(op, id) ==> Ends(e.op, id) || e.gone == Some(id))
  {
  }

  lemma QuietlyClosedNext(s: State, a: Action)
    requires QuietlyClosed(s)
    ensures QuietlyClosed(Next(s, a))
  {
    var n := Next(s, a);
    var op := At(s.ops, a.t);
    SectionQuiet(s.size, s.sh, op, s.next, a);
    forall id | 0 <= id < n.next ensures Doomed(n, id) {
      if id < s.next {
        assert Doomed(s, id);
        if id !in s.destroyed {
          var u :| Ends(At(s.ops, u), id);
          assert Ends(At(n.ops, u), id) || id in n.destroyed;
        }
      } else {
        assert Ends(At(n.ops, a.t), id);
      }
    }
  }

  lemma {:induction false} QuietlyClosedExec(s: State, acts: seq<Action>)
    requires QuietlyClosed(s)
    ensures QuietlyClosed(Exec(s, acts))
    decreases |acts|
  {
    if acts != [] {
      QuietlyClosedNext(s, acts[0]);
      QuietlyClosedExec(Next(s, acts[0]), acts[1..]);
    }
  }

  lemma {:induction false} BoundedExec(s: State, acts: seq<Action>)
    requires Bounded(s)
    ensures Bounded(Exec(s, acts))
    decreases |acts|
  {
    if acts != [] {
      BoundedNext(s, acts[0]);
      BoundedExec(Next(s, acts[0]), acts[1..]);
    }
  }

  /**
   If no Release or replenish stands between its closed check and its send when Close swaps
   the map, then whatever runs afterwards, nothing is sent on the closed channel, and once
   no operation is left every sandbox the driver ever made is destroyed, those made on
   demand after the swap included.
   */
  lemma SafeShutdown(size: nat, before: seq<Action>, t: nat, after: seq<Action>)
    requires Disciplined(before)
    requires var s := Exec(Init(size), before); !s.sh.closed && t !in s.ops && WindowEmpty(s.ops)
    ensures var f := Exec(Next(Exec(Init(size), before), Close(t)), after);
      !f.panicked && EndsDestroyed(f)
  {
    InvInit(size);
    InvExec(Init(size), before);
    ConservedExec(Init(size), before);
    var s := Exec(Init(size), before);
    var c := Next(s, Close(t));
    forall id | 0 <= id < c.next ensures Doomed(c, id) {
      SwapDooms(s, t, id);
    }
    QuietlyClosedExec(c, after);
    BoundedNext(s, Close(t));
    BoundedExec(c, after);
    AllDestroyed(Exec(c, after));
  }

  /**
   And no less is enough at that point: with an operation in the window some disciplined
   continuation sends on the closed channel.
   */
  lemma SafeShutdownIff(size: nat, before: seq<Action>, t: nat)
    requires Disciplined(before)
    requires var s := Exec(Init(size), before); !s.sh.closed && t !in s.ops
    ensures var s := Exec(Init(size), before);
      WindowEmpty(s.ops) <==> forall after :: Disciplined(after) ==> EndsSafely(Exec(Next(s, Close(t)), after))
  {
    var s := Exec(Init(size), before);
    if WindowEmpty(s.ops) {
      forall after | Disciplined(after) ensures EndsSafely(Exec(Next(s, Close(t)), after)) {
        SafeShutdown(size, before, t, after);
      }
    } else {
      ConservedExec(Init(size), before);
      var after := WindowAtSwapPanics(s, t);
      assert !EndsSafely(Exec(Next(s, Close(t)), after));
    }
  }

  /** Nothing was sent on the closed channel, and with nothing in flight no sandbox is left. */
  ghost predicate EndsSafely(f: State) {
    !f.panicked && EndsDestroyed(f)
  }

  /** Close goes on to close the channel, then the operation in the window goes on to its send. */
  lemma WindowAtSwapPanics(s: State, t: nat) returns (after: seq<Action>)
    requires !s.panicked && !s.sh.closed && t !in s.ops && !WindowEmpty(s.ops)
    ensures Disciplined(after) && Exec(Next(s, Close(t)), after).panicked
  {
    var u :| u in s.ops && InWindow(s.ops[u]);
    var c := Next(s, Close(t));
    var d := Next(c, Run(t, true, 0));
    var sends := [Run(u, true, 0), Run(u, true, 0), Run(u, true, 0)];
    ChannelClosed(s, t, u);
    WindowPanics(d, u);
    ExecOne(c, Run(t, true, 0));
    ExecConcat(c, [Run(t, true, 0)], sends);
    after := [Run(t, true, 0)] + sends;
  }

  lemma ChannelClosed(s: State, t: nat, u: nat)
    requires !s.panicked && !s.sh.closed && t !in s.ops && u in s.ops
    ensures var d := Next(Next(s, Close(t)), Run(t, true, 0));
      !d.sh.open && u in d.ops && d.ops[u] == s.ops[u]
  {
    var c := Next(s, Close(t));
    assert At(c.ops, t) == Some(Shutting(s.sh.all));
  }

  /**
   Such a shutdown is completed from wherever it stands: some schedule leaves nothing in flight
   and every sandbox destroyed.
   */
  lemma ShutdownCompletes(size: nat, before: seq<Action>, t: nat, after: seq<Action>) returns (more: seq<Action>)
    requires Disciplined(before)
    requires var s := Exec(Init(size), before); !s.sh.closed && t !in s.ops && WindowEmpty(s.ops)
    ensures var m := Exec(Next(Exec(Init(size), before), Close(t)), after);
      var f := Exec(m, more);
      Schedule(m, more) && f.ops == map[] && f.destroyed == Elements(UpTo(f.next))
  {
    var s := Exec(Init(size), before);
    var c := Next(s, Close(t));
    ConservedExec(Init(size), before);
    OneCloserExec(Init(size), before);
    ConservedNext(s, Close(t));
    OneCloserNext(s, Close(t));
    ConservedExec(c, after);
    OneCloserExec(c, after);
    more := RunsOut(Exec(c, after));
    ExecConcat(c, after, more);
    SafeShutdown(size, before, t, after + more);
  }

  lemma SwapDooms(s: State, t: nat, id: Id)
    requires Inv(s) && !s.panicked && !s.sh.closed && t !in s.ops && WindowEmpty(s.ops) && id < s.next
    ensures Doomed(Next(s, Close(t)), id)
  {
    var c := Next(s, Close(t));
    assert Accounted(s, id);
    if id in s.sh.all {
      assert Ends(At(c.ops, t), id);
    } else if id !in s.destroyed {
      var u :| UsesAt(s.ops, u, id);
      assert OpAlive(At(s.ops, u), s.sh.open, s.destroyed);
      assert Ends(At(c.ops, u), id);
    }
  }

  /** A sandbox that is not destroyed and that nothing can reach any more. */
  ghost predicate Orphaned(s: State, id: Id) {
    id < s.next && !Accounted(s, id)
  }

  ghost predicate Failed(s: State) {
    s.panicked || exists id: Id :: Orphaned(s, id)
  }

  /** What Close could check just before close(p.ready). */
  ghost predicate ShutGuard(s: State, t: nat)
    requires t in s.ops && s.ops[t].Shutting?
  {
    WindowEmpty(s.ops) && forall id <- s.sh.ready :: id in s.ops[t].snap
  }

  /**
   At close(p.ready) itself: no continuation sends on the channel or leaks a sandbox exactly when no
   operation is inside the window and every queued sandbox is in the map Close took.
   */
  lemma ShutdownIff(size: nat, before: seq<Action>, t: nat)
    requires Disciplined(before)
    requires var s := Exec(Init(size), before); !s.panicked && t in s.ops && s.ops[t].Shutting? && s.sh.open
    ensures var s := Exec(Init(size), before);
      (forall after :: Disciplined(after) ==> !Failed(Exec(Next(s, Run(t, true, 0)), after))) <==> ShutGuard(s, t)
    ensures var s := Exec(Init(size), before);
      ShutGuard(s, t) ==> forall after :: EndsDestroyed(Exec(Next(s, Run(t, true, 0)), after))
  {
    InvInit(size);
    InvExec(Init(size), before);
    var s := Exec(Init(size), before);
    if ShutGuard(s, t) {
      forall after | Disciplined(after) ensures !Failed(Exec(Next(s, Run(t, true, 0)), after)) {
        GuardedNeverFails(s, t, after);
      }
      forall after ensures EndsDestroyed(Exec(Next(s, Run(t, true, 0)), after)) {
        GuardedDestroysAll(s, t, after);
      }
    } else {
      var after := UnguardedFails(s, t);
    }
  }

  lemma GuardedNeverFails(s: State, t: nat, after: seq<Action>)
    requires Inv(s) && !s.panicked && t in s.ops && s.ops[t].Shutting? && s.sh.open && ShutGuard(s, t)
    ensures !Failed(Exec(Next(s, Run(t, true, 0)), after))
  {
    GuardDooms(s, t);
    QuietlyClosedExec(Next(s, Run(t, true, 0)), after);
    var f := Exec(Next(s, Run(t, true, 0)), after);
    forall id: Id | id < f.next ensures Accounted(f, id) { DoomedAccounted(f, id); }
  }

  lemma GuardedDestroysAll(s: State, t: nat, after: seq<Action>)
    requires Inv(s) && !s.panicked && t in s.ops && s.ops[t].Shutting? && s.sh.open && ShutGuard(s, t)
    ensures EndsDestroyed(Exec(Next(s, Run(t, true, 0)), after))
  {
    var c := Next(s, Run(t, true, 0));
    GuardDooms(s, t);
    QuietlyClosedExec(c, after);
    BoundedNext(s, Run(t, true, 0));
    BoundedExec(c, after);
    AllDestroyed(Exec(c, after));
  }

  /** With nothing in flight every sandbox the driver ever made is destroyed. */
  ghost predicate EndsDestroyed(f: State) {
    f.ops == map[] ==> f.destroyed == Elements(UpTo(f.next))
  }

  lemma AllDestroyed(f: State)
    requires QuietlyClosed(f) && Bounded(f)
    ensures EndsDestroyed(f)
  {
    if f.ops == map[] {
      forall id | 0 <= id < f.next ensures id in f.destroyed { assert Doomed(f, id); }
      forall i: Id | i < f.next ensures i in UpTo(f.next) { assert UpTo(f.next)[i] == i; }
    }
  }

  lemma UnguardedFails(s: State, t: nat) returns (after: seq<Action>)
    requires Inv(s) && !s.panicked && t in s.ops && s.ops[t].Shutting? && s.sh.open && !ShutGuard(s, t)
    ensures Disciplined(after) && Failed(Exec(Next(s, Run(t, true, 0)), after))
  {
    if !WindowEmpty(s.ops) {
      var u :| u in s.ops && InWindow(s.ops[u]);
      WindowPanics(Next(s, Run(t, true, 0)), u);
      after := [Run(u, true, 0), Run(u, true, 0), Run(u, true, 0)];
    } else {
      var id :| id in s.sh.ready && id !in s.ops[t].snap;
      DrainLoses(s, t, id);
      after := seq(|s.sh.ready|, i => Run(t, true, 0));
      assert Orphaned(Exec(Next(s, Run(t, true, 0)), after), id);
    }
  }

  lemma DoomedAccounted(s: State, id: Id)
    requires Doomed(s, id)
    ensures Accounted(s, id)
  {
    if id !in s.destroyed {
      var t :| Ends(At(s.ops, t), id);
      assert UsesAt(s.ops, t, id) || ClaimsAt(s.ops, t, id);
    }
  }

  lemma GuardDooms(s: State, t: nat)
    requires Inv(s) && !s.panicked && t in s.ops && s.ops[t].Shutting? && s.sh.open && ShutGuard(s, t)
    ensures QuietlyClosed(Next(s, Run(t, true, 0)))
  {
    var c := Next(s, Run(t, true, 0));
    forall id | 0 <= id < c.next ensures Doomed(c, id) {
      assert Accounted(s, id);
      if id in s.sh.ready {
        assert Ends(At(c.ops, t), id);
      } else if Claimed(s.ops, id) {
        var u :| ClaimsAt(s.ops, u, id);
        assert Ends(At(c.ops, u), id);
      } else if id !in s.destroyed {
        var u :| UsesAt(s.ops, u, id);
        assert OpAlive(At(s.ops, u), s.sh.open, s.destroyed);
        assert Ends(At(c.ops, u), id);
      }
    }
  }

  lemma WindowPanics(c: State, u: nat)
    requires !c.sh.open && u in c.ops && InWindow(c.ops[u])
    ensures Exec(c, [Run(u, true, 0), Run(u, true, 0), Run(u, true, 0)]).panicked
  {
    var go := Run(u, true, 0);
    ExecThree(c, go, go, go);
    var c1 := Next(c, go);
    var c2 := Next(c1, go);
    if c.panicked || c.ops[u].Sending? {
      assert c1.panicked;
    } else if c.ops[u].Warming? {
      assert At(c1.ops, u) == Some(Enrolling(c.next)) && At(c2.ops, u) == Some(Sending(c.next)) && !c2.sh.open;
    } else {
      assert At(c1.ops, u) == Some(Sending(c.ops[u].id)) && !c1.sh.open;
    }
  }

  lemma DrainLoses(s: State, t: nat, id: Id)
    requires Inv(s) && !s.panicked && t in s.ops && s.ops[t].Shutting? && s.sh.open
    requires id in s.sh.ready && id !in s.ops[t].snap
    ensures Orphaned(Exec(Next(s, Run(t, true, 0)), seq(|s.sh.ready|, i => Run(t, true, 0))), id)
  {
    var c := Next(s, Run(t, true, 0));
    DrainAll(c, t);
    var f := Exec(c, seq(|s.sh.ready|, i => Run(t, true, 0)));
    assert f == c.(sh := c.sh.(ready := []));
    assert id in Elements(s.sh.ready);
    forall u ensures !UsesAt(f.ops, u, id) && !ClaimsAt(f.ops, u, id) {
      assert UsesAt(f.ops, u, id) ==> UsesAt(s.ops, u, id);
    }
  }

  /** A holder releases a sandbox whose Reset fails; the replenish it starts reaches driver.New. */
  function FailingRelease(u: nat): seq<Action> {
    [Return(u), Run(u, true, 0), Run(u, false, 0)] + [Run(u, true, 0), Run(u, true, 0), Run(u, true, 0)]
  }

  lemma FailingReleaseWarms(s: State, u: nat)
    requires !s.panicked && !s.sh.closed && u in s.ops && s.ops[u].Held?
    ensures var w := Exec(s, FailingRelease(u));
      && w == s.(sh := s.sh.(all := s.sh.all - {s.ops[u].id}), ops := s.ops[u := Warming],
                 destroyed := s.destroyed + {s.ops[u].id})
  {
    var id := s.ops[u].id;
    var go := Run(u, true, 0);
    var b := s.(ops := s.ops[u := Broken(id)]);
    BreaksOnReset(s, u);
    BrokenWarms(b, u);
    assert b.ops[u := Warming] == s.ops[u := Warming];
    ExecConcat(s, [Return(u), go, Run(u, false, 0)], [go, go, go]);
  }

  lemma BreaksOnReset(s: State, u: nat)
    requires !s.panicked && !s.sh.closed && u in s.ops && s.ops[u].Held?
    ensures Exec(s, [Return(u), Run(u, true, 0), Run(u, false, 0)]) ==
      s.(ops := s.ops[u := Broken(s.ops[u].id)])
  {
    var id := s.ops[u].id;
    ExecThree(s, Return(u), Run(u, true, 0), Run(u, false, 0));
    assert s.ops[u := Checking(id)][u := Resetting(id)][u := Broken(id)] == s.ops[u := Broken(id)];
  }

  lemma BrokenWarms(b: State, u: nat)
    requires !b.panicked && !b.sh.closed && u in b.ops && b.ops[u].Broken?
    ensures var id := b.ops[u].id;
      Exec(b, [Run(u, true, 0), Run(u, true, 0), Run(u, true, 0)]) ==
      b.(sh := b.sh.(all := b.sh.all - {id}), ops := b.ops[u := Warming], destroyed := b.destroyed + {id})
  {
    var id, go := b.ops[u].id, Run(u, true, 0);
    ExecThree(b, go, go, go);
    assert b.ops[u := Forgetting(id)][u := Replenishing][u := Warming] == b.ops[u := Warming];
  }

  /** Close swaps the map, then the replenish at u creates, tracks and queues its sandbox. */
  lemma LateReplenishQueues(s: State, u: nat, t: nat)
    requires !s.panicked && !s.sh.closed && s.sh.open && |s.sh.ready| < s.size
    requires At(s.ops, u) == Some(Warming) && t !in s.ops && t != u
    ensures var late := Exec(Next(s, Close(t)), [Run(u, true, 0), Run(u, true, 0), Run(u, true, 0)]);
      late == s.(sh := Shared(s.sh.ready + [s.next], true, true, {s.next}), next := s.next + 1,
                 ops := s.ops[t := Shutting(s.sh.all)] - {u})
  {
    var go := Run(u, true, 0);
    var c := Next(s, Close(t));
    var ops := s.ops[t := Shutting(s.sh.all)];
    assert c == s.(sh := Shared(s.sh.ready, true, true, {}), ops := ops) && At(ops, u) == Some(Warming);
    var c1 := Next(c, go);
    assert c1 == c.(ops := ops[u := Enrolling(s.next)], next := s.next + 1);
    var c2 := Next(c1, go);
    assert ops[u := Enrolling(s.next)][u := Sending(s.next)] == ops[u := Sending(s.next)] && {} + {s.next} == {s.next};
    assert c2 == c1.(sh := Shared(s.sh.ready, true, true, {s.next}), ops := ops[u := Sending(s.next)]);
    assert ops[u := Sending(s.next)] - {u} == ops - {u};
    ExecThree(c, go, go, go);
  }

  /**
   An empty window at close(p.ready) alone is not enough. A replenish that read closed ==
   false just before Close swapped the map, and finds room, tracks its sandbox in the new
   map and queues it before the channel closes; Close then drains it and no one destroys it.
   */
  lemma QuietChannelStillLeaks(size: nat, before: seq<Action>, u: nat, t: nat)
    requires Disciplined(before)
    requires var s := Exec(Init(size), before);
      && !s.sh.closed && |s.sh.ready| < size && u in s.ops && s.ops[u].Held? && t !in s.ops
      && forall v <- s.ops :: !InWindow(s.ops[v])
    ensures var w := Exec(Exec(Init(size), before), FailingRelease(u));
      var late := Exec(Next(w, Close(t)), [Run(u, true, 0), Run(u, true, 0), Run(u, true, 0)]);
      && t in late.ops && late.ops[t].Shutting? && WindowEmpty(late.ops)
      && Orphaned(Exec(Next(late, Run(t, true, 0)), seq(|late.sh.ready|, i => Run(t, true, 0))), w.next)
  {
    InvInit(size);
    InvExec(Init(size), before);
    ConservedExec(Init(size), before);
    SizeExec(Init(size), before);
    var s := Exec(Init(size), before);
    FailingReleaseWarms(s, u);
    InvExec(s, FailingRelease(u));
    LateReplenishOrphans(Exec(s, FailingRelease(u)), u, t);
  }

  lemma LateReplenishOrphans(w: State, u: nat, t: nat)
    requires Inv(w) && !w.panicked && !w.sh.closed && |w.sh.ready| < w.size
    requires At(w.ops, u) == Some(Warming) && t !in w.ops && t != u
    requires forall v <- w.ops :: v != u ==> !InWindow(w.ops[v])
    ensures var late := Exec(Next(w, Close(t)), [Run(u, true, 0), Run(u, true, 0), Run(u, true, 0)]);
      && t in late.ops && late.ops[t].Shutting? && WindowEmpty(late.ops)
      && Orphaned(Exec(Next(late, Run(t, true, 0)), seq(|late.sh.ready|, i => Run(t, true, 0))), w.next)
  {
    LateReplenishQueues(w, u, t);
    var go := Run(u, true, 0);
    var c := Next(w, Close(t));
    InvExec(w, [Close(t)]);
    ExecOne(w, Close(t));
    InvExec(c, [go, go, go]);
    NextIsNew(w);
    DrainLoses(Exec(c, [go, go, go]), t, w.next);
  }

  /** Some run meets the hypotheses of QuietChannelStillLeaks in any pool: one goroutine acquires. */
  lemma LeakReached(size: nat, u: nat, t: nat) returns (before: seq<Action>)
    requires size >= 1 && t != u
    ensures Disciplined(before)
    ensures var s := Exec(Init(size), before);
      && !s.sh.closed && |s.sh.ready| < size && u in s.ops && s.ops[u].Held? && t !in s.ops
      && forall v <- s.ops :: !InWindow(s.ops[v])
  {
    before := [Acquire(u)];
    TakeOne(Init(size), u);
    ExecOne(Init(size), Acquire(u));
  }

  // ---------------------------------------------------------------- Acquire's nil

  /** Acquire returns nil, without an error, exactly on a closed channel that is drained. */
  lemma NilIff(s: State, t: nat)
    requires !s.panicked && t !in s.ops
    ensures Next(s, Acquire(t)).nils == s.nils + 1 <==> s.sh.ready == [] && !s.sh.open
    ensures Next(s, Acquire(t)).nils <= s.nils + 1
  {
    Counted(s, Acquire(t));
  }

  /** A run that gets there: Close, its draining, then an Acquire. */
  lemma NilReached(size: nat, t: nat, u: nat) returns (acts: seq<Action>)
    requires t != u
    ensures Disciplined(acts) && Exec(Init(size), acts).nils == 1
  {
    var s := Init(size);
    var c := Next(s, Close(t));
    var d := Next(c, Run(t, true, 0));
    var drain := seq(|d.sh.ready|, i => Run(t, true, 0));
    assert At(c.ops, t) == Some(Shutting(s.sh.all));
    DrainAll(d, t);
    var e := Exec(d, drain);
    assert e.sh.ready == [] && !e.sh.open && e.nils == 0 && u !in e.ops;
    NilIff(e, u);
    ExecOne(s, Close(t));
    ExecOne(c, Run(t, true, 0));
    ExecOne(e, Acquire(u));
    ExecConcat(d, drain, [Acquire(u)]);
    ExecConcat(c, [Run(t, true, 0)], drain + [Acquire(u)]);
    ExecConcat(s, [Close(t)], [Run(t, true, 0)] + (drain + [Acquire(u)]));
    acts := [Close(t)] + ([Run(t, true, 0)] + (drain + [Acquire(u)]));
  }
}
