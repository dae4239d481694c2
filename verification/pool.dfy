/**
 The warm sandbox pool of internal/runtime/pool/pool.go.

 The mutex and the channel make some sections of the code atomic; between two such
 sections any other goroutine may run. `Shared` is what those sections read and write,
 class `WarmPool` performs them in place, and `Next` interleaves any number of
 operations in flight, one atomic section at a time.
 */
module Pool {
  import opened Options

  /** A sandbox. The driver hands out a new one on every successful driver.New. */
  type Id = nat

  // ---------------------------------------------------------------- shared state

  /** The fields guarded by the mutex, and the channel (`open` until close(p.ready)). */
  datatype Shared = Shared(ready: seq<Id>, open: bool, closed: bool, all: set<Id>)

  datatype Received = Got(id: Id) | Nil | Empty
  datatype Offered = Sent | Full | SendOnClosed

  /** `select { case sb := <-p.ready: default: }` */
  function Receive(sh: Shared): (Received, Shared) {
    if sh.ready != [] then (Got(sh.ready[0]), sh.(ready := sh.ready[1..]))
    else if sh.open then (Empty, sh)
    else (Nil, sh)
  }

  /** `select { case p.ready <- sb: default: }` on a channel of capacity `size` */
  function Offer(sh: Shared, size: nat, id: Id): (Offered, Shared) {
    if !sh.open then (SendOnClosed, sh)
    else if |sh.ready| < size then (Sent, sh.(ready := sh.ready + [id]))
    else (Full, sh)
  }

  function SwapForClose(sh: Shared): Shared {
    sh.(closed := true, all := {})
  }

  function Clamp(size: int): (n: nat)
    ensures n >= 1 && (size >= 1 ==> n == size)
  {
    if size < 1 then 1 else size
  }

  function UpTo(n: nat): seq<Id> {
    seq(n, i => i)
  }

  function Elements(q: seq<Id>): set<Id> {
    set id | id in q
  }

  function Prewarmed(n: nat): Shared {
    Shared(UpTo(n), true, false, Elements(UpTo(n)))
  }

  lemma PrewarmedAll(n: nat)
    ensures forall i: Id :: i in Prewarmed(n).all <==> i < n
  {
    forall i: Id ensures i in Elements(UpTo(n)) <==> i < n {
      if i < n { assert UpTo(n)[i] == i; }
    }
  }

  datatype Acquired = Sandbox(id: Id) | NoSandbox | NewFailed

  function AcquiredFrom(sh: Shared, works: bool, id: Id): (Acquired, Shared) {
    var (got, sh') := Receive(sh);
    match got
    case Got(sb) => (Sandbox(sb), sh')
    case Nil => (NoSandbox, sh')
    case Empty => if works then (Sandbox(id), sh.(all := sh.all + {id})) else (NewFailed, sh)
  }

  /** What becomes of a sandbox: `Replaced` means destroyed, with a replenish under way. */
  datatype Released = Queued | Destroyed | Replaced | Panicked | Nothing

  function RequeuedTo(sh: Shared, size: nat, id: Id): (Released, Shared) {
    var (sent, sh') := Offer(sh, size, id);
    match sent
    case Sent => (Queued, sh')
    case SendOnClosed => (Panicked, sh')
    case Full => (Destroyed, sh.(all := sh.all - {id}))
  }

  /** The end of Release and of replenish: queued last, destroyed and forgotten, or a panic. */
  predicate RequeuedAs(r: Released, before: Shared, after: Shared, size: nat, id: Id) {
    if !before.open then r == Panicked && after == before
    else if |before.ready| < size then r == Queued && after == before.(ready := before.ready + [id])
    else r == Destroyed && after == before.(all := before.all - {id})
  }

  function ReleasedTo(sh: Shared, size: nat, id: Id, resets: bool): (Released, Shared) {
    if sh.closed then (Destroyed, sh)
    else if !resets then (Replaced, sh.(all := sh.all - {id}))
    else RequeuedTo(sh, size, id)
  }

  function ReplenishedTo(sh: Shared, size: nat, works: bool, id: Id): (Released, Shared) {
    if sh.closed || !works then (Nothing, sh) else RequeuedTo(sh.(all := sh.all + {id}), size, id)
  }

  /** The pool object; every method down to Close is one section that the lock or the channel makes atomic. */
  class WarmPool {
    const size: nat
    var ready: seq<Id>
    var open: bool
    var closed: bool
    var all: set<Id>

    function View(): Shared
      reads this
    {
      Shared(ready, open, closed, all)
    }

    constructor (size: int)
      ensures this.size == Clamp(size)
      ensures View() == Shared([], true, false, {})
    {
      this.size := Clamp(size);
      ready, open, closed, all := [], true, false, {};
    }

    method TryReceive() returns (r: Received)
      modifies this
      ensures (r, View()) == Receive(old(View()))
      ensures r.Got? <==> old(ready) != []
      ensures r.Got? ==> r.id == old(ready)[0] && View() == old(View()).(ready := old(ready)[1..])
      ensures !r.Got? ==> (r == Nil <==> !old(open)) && View() == old(View())
    {
      if |ready| > 0 {
        r := Got(ready[0]);
        ready := ready[1..];
      } else {
        r := if open then Empty else Nil;
      }
    }

    method TrySend(id: Id) returns (r: Offered)
      modifies this
      ensures (r, View()) == Offer(old(View()), size, id)
      ensures r == Sent <==> old(open) && |old(ready)| < size
      ensures r == SendOnClosed <==> !old(open)
      ensures View() == if r == Sent then old(View()).(ready := old(ready) + [id]) else old(View())
    {
      if !open {
        r := SendOnClosed;
      } else if |ready| < size {
        ready := ready + [id];
        r := Sent;
      } else {
        r := Full;
      }
    }

    method Track(id: Id)
      modifies this
      ensures View() == old(View()).(all := old(all) + {id})
    {
      all := all + {id};
    }

    method Untrack(id: Id)
      modifies this
      ensures View() == old(View()).(all := old(all) - {id})
    {
      all := all - {id};
    }

    /** Close when nothing interleaves with it; `destroyed` collects the Destroy calls. */
    method Close() returns (destroyed: set<Id>)
      modifies this
      ensures old(closed) ==> View() == old(View()) && destroyed == {}
      ensures !old(closed) ==> View() == Shared([], false, true, {}) && destroyed == old(all)
    {
      destroyed := {};
      if closed {
        return;
      }
      closed := true;
      var snapshot := all;
      all := {};
      open := false;
      while |ready| > 0
        invariant closed && !open && all == {}
        decreases |ready|
      {
        ready := ready[1..];
      }
      while snapshot != {}
        invariant destroyed + snapshot == old(all)
        invariant View() == Shared([], false, true, {})
        decreases snapshot
      {
        var id :| id in snapshot;
        destroyed, snapshot := destroyed + {id}, snapshot - {id};
      }
    }

    /** Acquire from end to end: `works` and `id` are the outcome of driver.New, if it is called. */
    method Acquire(works: bool, id: Id) returns (r: Acquired)
      modifies this
      ensures (r, View()) == AcquiredFrom(old(View()), works, id)
      ensures r.NoSandbox? <==> old(ready) == [] && !old(open)
      ensures r.NewFailed? <==> old(ready) == [] && old(open) && !works
      ensures old(ready) != [] ==> r == Sandbox(old(ready)[0]) && View() == old(View()).(ready := old(ready)[1..])
      ensures r.Sandbox? && old(ready) == [] ==> r.id == id && View() == old(View()).(all := old(all) + {id})
      ensures !r.Sandbox? ==> View() == old(View())
    {
      var got := TryReceive();
      match got {
        case Got(sb) => return Sandbox(sb);
        case Nil => return NoSandbox;
        case Empty =>
          if !works { return NewFailed; }
          Track(id);
          return Sandbox(id);
      }
    }

    /** Release from end to end; `resets` is the outcome of Reset. */
    method Release(id: Id, resets: bool) returns (r: Released)
      modifies this
      ensures (r, View()) == ReleasedTo(old(View()), size, id, resets)
      ensures old(closed) ==> r == Destroyed && View() == old(View())
      ensures !old(closed) && !resets ==> r == Replaced && View() == old(View()).(all := old(all) - {id})
      ensures !old(closed) && resets ==> RequeuedAs(r, old(View()), View(), size, id)
    {
      if closed { return Destroyed; }
      if !resets {
        Untrack(id);
        return Replaced;
      }
      r := Requeue(id);
    }

    /** The end of Release and of replenish. */
    method Requeue(id: Id) returns (r: Released)
      modifies this
      ensures (r, View()) == RequeuedTo(old(View()), size, id)
      ensures RequeuedAs(r, old(View()), View(), size, id)
    {
      var sent := TrySend(id);
      match sent {
        case Sent => r := Queued;
        case SendOnClosed => r := Panicked;
        case Full =>
          Untrack(id);
          r := Destroyed;
      }
    }

    /** replenish from end to end. */
    method Replenish(works: bool, id: Id) returns (r: Released)
      modifies this
      ensures (r, View()) == ReplenishedTo(old(View()), size, works, id)
      ensures old(closed) || !works ==> r == Nothing && View() == old(View())
      ensures !old(closed) && works ==>
        RequeuedAs(r, old(View()).(all := old(all) + {id}), View(), size, id)
    {
      if closed || !works { return Nothing; }
      Track(id);
      r := Requeue(id);
    }

    /** New: `works(i)` tells whether the driver's i-th New succeeds. */
    static method New(works: nat -> bool, size: int) returns (p: WarmPool?, created: nat, destroyed: set<Id>)
      ensures p != null <==> forall i :: 0 <= i < Clamp(size) ==> works(i)
      ensures p != null ==>
        fresh(p) && p.size == created == Clamp(size) && p.View() == Prewarmed(p.size) && destroyed == {}
      ensures p != null ==>
        && p.open && !p.closed && |p.ready| == p.size && (forall i :: 0 <= i < p.size ==> p.ready[i] == i)
        && forall i: nat :: i in p.all <==> i < p.size
      ensures p == null ==> created < Clamp(size) && !works(created) && destroyed == Elements(UpTo(created))
    {
      var q := new WarmPool(size);
      created, destroyed := 0, {};
      while created < q.size
        invariant 0 <= created <= q.size == Clamp(size)
        invariant forall i :: 0 <= i < created ==> works(i)
        invariant fresh(q) && q.View() == Prewarmed(created) && destroyed == {}
      {
        if !works(created) {
          destroyed := q.Close();
          p := null;
          return;
        }
        q.Track(created);
        var sent := q.TrySend(created);
        assert UpTo(created + 1) == UpTo(created) + [created];
        created := created + 1;
      }
      p := q;
      PrewarmedAll(q.size);
    }
  }

  // ---------------------------------------------------------------- operations in flight

  /** Where an operation stands: the atomic section it will run next. */
  datatype Op =
    | Creating               // Acquire found the queue empty: driver.New
    | Tracking(id: Id)       // Acquire: p.track
    | Held(id: Id)           // the caller uses the sandbox
    | Checking(id: Id)       // Release: read p.closed
    | Late(id: Id)           // Release saw a closed pool: Destroy
    | Resetting(id: Id)      // Release: Reset
    | Broken(id: Id)         // Reset failed: Destroy
    | Forgetting(id: Id)     // Reset failed: delete from p.all, then go p.replenish
    | Sending(id: Id)        // Release or replenish: select-send
    | Surplus(id: Id)        // the queue was full: Destroy
    | Dropping(id: Id)       // the queue was full: delete from p.all
    | Replenishing           // replenish: read p.closed
    | Warming                // replenish: driver.New
    | Enrolling(id: Id)      // replenish: p.track
    | Shutting(snap: set<Id>)   // Close: map swapped, about to close(p.ready)
    | Draining(snap: set<Id>)   // Close: ranging over the closed channel
    | Destroying(snap: set<Id>) // Close: destroying the sandboxes of the old map

  predicate HasId(op: Op) {
    !op.Creating? && !op.Replenishing? && !op.Warming? && !IsCloser(op)
  }

  predicate IsCloser(op: Op) {
    op.Shutting? || op.Draining? || op.Destroying?
  }

  /** Past the closed check, and a send may still follow without another check. */
  predicate InWindow(op: Op) {
    op.Resetting? || op.Sending? || op.Warming? || op.Enrolling?
  }

  /** `next`: the driver's next sandbox; `lost`: failed replenish calls; `nils`: Acquires that got nil. */
  datatype State = State(size: nat, sh: Shared, ops: map<nat, Op>, next: Id, destroyed: set<Id>,
                         lost: nat, nils: nat, panicked: bool)

  datatype Action =
    | Acquire(t: nat)            // goroutine t calls Acquire
    | Return(t: nat)             // the holder t makes its deferred Release call
    | Release(t: nat, id: Id)    // a Release of any sandbox by someone who does not hold it
    | Close(t: nat)
    | Run(t: nat, ok: bool, pick: Id)  // t runs its next section; ok: outcome of New or Reset

  function Init(size: nat): State {
    State(size, Prewarmed(size), map[], size, {}, 0, 0, false)
  }

  /** What one atomic section does: the operation continues as `op`, or ends. */
  datatype Effect = Effect(sh: Shared, op: Option<Op>, next: Id, gone: Option<Id>, lost: nat, nils: nat, panic: bool)

  function At(ops: map<nat, Op>, t: nat): Option<Op> {
    if t in ops then Some(ops[t]) else None
  }

  function Put(ops: map<nat, Op>, t: nat, op: Option<Op>): map<nat, Op> {
    match op
    case Some(o) => ops[t := o]
    case None => ops - {t}
  }

  function Mark(destroyed: set<Id>, gone: Option<Id>): set<Id> {
    if gone.Some? then destroyed + {gone.value} else destroyed
  }

  /** The queue and the map change, nothing else does. */
  function Step(sh: Shared, op: Option<Op>, next: Id): Effect {
    Effect(sh, op, next, None, 0, 0, false)
  }

  function Destroy(sh: Shared, op: Option<Op>, next: Id, id: Id): Effect {
    Effect(sh, op, next, Some(id), 0, 0, false)
  }

  /** The section that action `a` runs when its goroutine stands at `op`; not enabled means no change. */
  function Section(size: nat, sh: Shared, op: Option<Op>, next: Id, a: Action): Effect {
    match a
    case Acquire(_) => if op.Some? then Step(sh, op, next) else Receiving(sh, next)
    case Return(_) => Step(sh, if op.Some? && op.value.Held? then Some(Checking(op.value.id)) else op, next)
    case Release(_, id) => Step(sh, if op.None? && id < next then Some(Checking(id)) else op, next)
    case Close(_) =>
      if op.Some? || sh.closed then Step(sh, op, next) else Step(SwapForClose(sh), Some(Shutting(sh.all)), next)
    case Run(_, ok, pick) => if op.None? then Step(sh, op, next) else Advance(size, sh, op.value, next, ok, pick)
  }

  function Receiving(sh: Shared, next: Id): Effect {
    var (r, sh') := Receive(sh);
    match r
    case Got(id) => Step(sh', Some(Held(id)), next)
    case Nil => Step(sh', None, next).(nils := 1)
    case Empty => Step(sh', Some(Creating), next)
  }

  function Offering(size: nat, sh: Shared, id: Id, next: Id): Effect {
    var (r, sh') := Offer(sh, size, id);
    match r
    case Sent => Step(sh', None, next)
    case Full => Step(sh', Some(Surplus(id)), next)
    case SendOnClosed => Step(sh', Some(Sending(id)), next).(panic := true)
  }

  function Advance(size: nat, sh: Shared, op: Op, next: Id, ok: bool, pick: Id): Effect {
    match op
    case Creating => if ok then Step(sh, Some(Tracking(next)), next + 1) else Step(sh, None, next)
    case Tracking(id) => Step(sh.(all := sh.all + {id}), Some(Held(id)), next)
    case Held(id) => Step(sh, Some(op), next)
    case Checking(id) => Step(sh, Some(if sh.closed then Late(id) else Resetting(id)), next)
    case Late(id) => Destroy(sh, None, next, id)
    case Resetting(id) => Step(sh, Some(if ok then Sending(id) else Broken(id)), next)
    case Broken(id) => Destroy(sh, Some(Forgetting(id)), next, id)
    case Forgetting(id) => Step(sh.(all := sh.all - {id}), Some(Replenishing), next)
    case Sending(id) => Offering(size, sh, id, next)
    case Surplus(id) => Destroy(sh, Some(Dropping(id)), next, id)
    case Dropping(id) => Step(sh.(all := sh.all - {id}), None, next)
    case Replenishing => Step(sh, if sh.closed then None else Some(Warming), next)
    case Warming => if ok then Step(sh, Some(Enrolling(next)), next + 1) else Step(sh, None, next).(lost := 1)
    case Enrolling(id) => Step(sh.(all := sh.all + {id}), Some(Sending(id)), next)
    case Shutting(snap) => Step(sh.(open := false), Some(Draining(snap)), next)
    case Draining(snap) =>
      if sh.ready == [] then Step(sh, Some(Destroying(snap)), next)
      else Step(sh.(ready := sh.ready[1..]), Some(op), next)
    case Destroying(snap) =>
      if snap == {} then Step(sh, None, next)
      else if pick in snap then Destroy(sh, Some(Destroying(snap - {pick})), next, pick)
      else Step(sh, Some(op), next)
  }

  /** One atomic section of the run; after a panic the process is gone. */
  function Next(s: State, a: Action): State {
    if s.panicked then s else
    var e := Section(s.size, s.sh, At(s.ops, a.t), s.next, a);
    State(s.size, e.sh, Put(s.ops, a.t, e.op), e.next, Mark(s.destroyed, e.gone), s.lost + e.lost, s.nils + e.nils,
          e.panic)
  }

  /** A run: any interleaving is some sequence of actions. */
  function Exec(s: State, acts: seq<Action>): State
    decreases |acts|
  {
    if acts == [] then s else Exec(Next(s, acts[0]), acts[1..])
  }

  /** Only holders release, each holding once, as the deferred Release of runInSandbox does. */
  predicate Disciplined(acts: seq<Action>) {
    forall a <- acts :: !a.Release?
  }

  lemma {:induction false} ExecConcat(s: State, before: seq<Action>, after: seq<Action>)
    ensures Exec(s, before + after) == Exec(Exec(s, before), after)
    decreases |before|
  {
    if before == [] {
      assert before + after == after;
    } else {
      assert (before + after)[1..] == before[1..] + after;
      ExecConcat(Next(s, before[0]), before[1..], after);
    }
  }

  lemma ExecOne(s: State, a: Action)
    ensures Exec(s, [a]) == Next(s, a)
  {
  }

  lemma ExecThree(s: State, a: Action, b: Action, c: Action)
    ensures Exec(s, [a, b, c]) == Next(Next(Next(s, a), b), c)
  {
    ExecOne(s, a);
    ExecOne(Next(s, a), b);
    ExecOne(Next(Next(s, a), b), c);
    ExecConcat(Next(s, a), [b], [c]);
    ExecConcat(s, [a], [b] + [c]);
    assert [a, b, c] == [a] + ([b] + [c]);
  }

  lemma {:induction false} SizeExec(s: State, acts: seq<Action>)
    ensures Exec(s, acts).size == s.size
    decreases |acts|
  {
    if acts != [] {
      SizeExec(Next(s, acts[0]), acts[1..]);
    }
  }

  /**
   What is counted: an Acquire that gets nil finds the channel closed and drained, a lost
   replenish is one whose driver.New failed; nothing else counts.
   */
  lemma Counted(s: State, a: Action)
    requires !s.panicked
    ensures Next(s, a).nils ==
      s.nils + if a.Acquire? && a.t !in s.ops && s.sh.ready == [] && !s.sh.open then 1 else 0
    ensures Next(s, a).lost == s.lost + if a.Run? && !a.ok && At(s.ops, a.t) == Some(Warming) then 1 else 0
  {
  }
}
