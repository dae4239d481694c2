/** What the pool keeps until someone calls Close, and why every schedule of its operations ends. */
module PoolBalance {
  import opened Options
  import opened Pool

  // ---------------------------------------------------------------- conservation

  /** The operation will bring a sandbox back to the queue, or has failed to. */
  predicate Owes(op: Op) {
    op.Held? || op.Checking? || op.Resetting? || op.Broken? || op.Forgetting? || op.Sending?
    || op.Replenishing? || op.Warming? || op.Enrolling?
  }

  function Owing(ops: map<nat, Op>): set<nat> {
    set t | t in ops && Owes(ops[t])
  }

  /** All but an Acquire without a sandbox, a sandbox about to be destroyed or forgotten as surplus, and Close. */
  lemma OwingIs(ops: map<nat, Op>)
    ensures Owing(ops) == set t | t in ops &&
      !(ops[t].Creating? || ops[t].Tracking? || ops[t].Late? || ops[t].Surplus? || ops[t].Dropping?
        || IsCloser(ops[t]))
  {
  }

  function Debt(op: Option<Op>): nat {
    if op.Some? && Owes(op.value) then 1 else 0
  }

  ghost predicate Conserved(s: State) {
    && |s.sh.ready| <= s.size
    && (!s.sh.closed ==>
          && s.sh.open && !s.panicked && s.nils == 0
          && |s.sh.ready| + |Owing(s.ops)| + s.lost >= s.size
          && forall t <- s.ops :: !IsCloser(s.ops[t]))
  }

  lemma OwingAt(ops: map<nat, Op>, t: nat)
    ensures |Owing(ops)| == |Owing(ops) - {t}| + Debt(At(ops, t))
  {
    assert Owing(ops) == Owing(ops) - {t} + if t in Owing(ops) then {t} else {};
  }

  lemma OwingElse(ops: map<nat, Op>, t: nat, op: Option<Op>)
    ensures Owing(Put(ops, t, op)) - {t} == Owing(ops) - {t}
  {
    var a, b := Owing(Put(ops, t, op)) - {t}, Owing(ops) - {t};
    forall u ensures u in a <==> u in b {
    }
  }

  lemma OwingPut(ops: map<nat, Op>, t: nat, op: Option<Op>)
    ensures |Owing(Put(ops, t, op))| + Debt(At(ops, t)) == |Owing(ops)| + Debt(op)
  {
    OwingAt(ops, t);
    OwingAt(Put(ops, t, op), t);
    OwingElse(ops, t, op);
  }

  /** A section keeps what it owes, or leaves the queue full. */
  lemma SectionDebt(size: nat, sh: Shared, op: Option<Op>, next: Id, a: Action)
    requires |sh.ready| <= size
    ensures var e := Section(size, sh, op, next, a);
      && |e.sh.ready| <= size
      && (sh.closed ==> e.sh.closed)
      && (!e.sh.closed && sh.open && !(op.Some? && IsCloser(op.value)) ==>
            && e.sh.open && !e.panic && e.nils == 0 && !(e.op.Some? && IsCloser(e.op.value))
            && (|e.sh.ready| + Debt(e.op) + e.lost >= |sh.ready| + Debt(op) || |e.sh.ready| == size))
  {
  }

  lemma ConservedNext(s: State, a: Action)
    requires Conserved(s)
    ensures Conserved(Next(s, a))
  {
    var op := At(s.ops, a.t);
    SectionDebt(s.size, s.sh, op, s.next, a);
    OwingPut(s.ops, a.t, Section(s.size, s.sh, op, s.next, a).op);
  }

  lemma {:induction false} ConservedExec(s: State, acts: seq<Action>)
    requires Conserved(s)
    ensures Conserved(Exec(s, acts))
    decreases |acts|
  {
    if acts != [] {
      ConservedNext(s, acts[0]);
      ConservedExec(Next(s, acts[0]), acts[1..]);
    }
  }

  /**
   Until someone calls Close, every queue slot is filled, owed by an operation in flight,
   or lost to a failed replenish; so a quiet pool that lost nothing is full again.
   */
  lemma Conservation(size: nat, acts: seq<Action>)
    ensures var s := Exec(Init(size), acts);
      && |s.sh.ready| <= size
      && (!s.sh.closed ==> !s.panicked && s.nils == 0 && |s.sh.ready| + |Owing(s.ops)| + s.lost >= size)
      && (!s.sh.closed && s.ops == map[] && s.lost == 0 ==> |s.sh.ready| == size)
  {
    ConservedExec(Init(size), acts);
    SizeExec(Init(size), acts);
  }

  // ---------------------------------------------------------------- one Close at most

  ghost predicate OneCloser(s: State) {
    && (!s.sh.closed ==> s.sh.open && forall t <- s.ops :: !IsCloser(s.ops[t]) && !s.ops[t].Late?)
    && (s.sh.open ==> forall t <- s.ops :: IsCloser(s.ops[t]) ==> s.ops[t].Shutting?)
    && (forall t, u :: t in s.ops && u in s.ops && IsCloser(s.ops[t]) && IsCloser(s.ops[u]) ==> t == u)
  }

  lemma SectionCloser(size: nat, sh: Shared, op: Option<Op>, next: Id, a: Action)
    requires !sh.closed ==> sh.open && (op.Some? ==> !IsCloser(op.value) && !op.value.Late?)
    requires sh.open && op.Some? && IsCloser(op.value) ==> op.value.Shutting?
    ensures var e := Section(size, sh, op, next, a);
      && (sh.closed ==> e.sh.closed) && (e.sh.open ==> sh.open)
      && (!e.sh.closed ==> e.sh.open && (e.op.Some? ==> !IsCloser(e.op.value) && !e.op.value.Late?))
      && (e.sh.open && e.op.Some? && IsCloser(e.op.value) ==> e.op.value.Shutting?)
      && (e.op.Some? && IsCloser(e.op.value) ==> !sh.closed || (op.Some? && IsCloser(op.value)))
  {
  }

  lemma OneCloserNext(s: State, a: Action)
    requires OneCloser(s)
    ensures OneCloser(Next(s, a)) && (Next(s, a).sh.open ==> s.sh.open)
  {
    var op := At(s.ops, a.t);
    SectionCloser(s.size, s.sh, op, s.next, a);
  }

  lemma {:induction false} OneCloserExec(s: State, acts: seq<Action>)
    requires OneCloser(s)
    ensures OneCloser(Exec(s, acts))
    decreases |acts|
  {
    if acts != [] {
      OneCloserNext(s, acts[0]);
      OneCloserExec(Next(s, acts[0]), acts[1..]);
    }
  }

  // ---------------------------------------------------------------- self-healing

  /**
   How many sections an operation has before it at most, save for the draining, if its caller
   returns the sandbox at once.
   */
  function Rank(op: Op): nat {
    match op
    case Dropping(_) => 1
    case Late(_) => 1
    case Surplus(_) => 2
    case Sending(_) => 3
    case Enrolling(_) => 4
    case Warming => 5
    case Replenishing => 6
    case Forgetting(_) => 7
    case Broken(_) => 8
    case Resetting(_) => 9
    case Checking(_) => 10
    case Held(_) => 11
    case Tracking(_) => 12
    case Creating => 13
    case Shutting(snap) => |snap| + 3
    case Draining(snap) => |snap| + 2
    case Destroying(snap) => |snap| + 1
  }

  /** What moves the operation on: its holder returns it, Close picks a sandbox that it has not destroyed yet. */
  predicate Onward(op: Op, t: nat, a: Action) {
    a.t == t && if op.Held? then a.Return? else a.Run? && (op.Destroying? && op.snap != {} ==> a.pick in op.snap)
  }

  /** What Close may have to drain. */
  function Slots(size: nat, sh: Shared): nat {
    if sh.open then size else |sh.ready|
  }

  function RankOf(op: Option<Op>): nat {
    if op.Some? then Rank(op.value) else 0
  }

  /** However New and Reset turn out, a section brings its operation nearer to its end. */
  lemma RankFalls(size: nat, sh: Shared, op: Op, next: Id, t: nat, a: Action)
    requires |sh.ready| <= size && Onward(op, t, a) && !(sh.open && op.Draining?)
    ensures var e := Section(size, sh, Some(op), next, a);
      && e.sh.closed == sh.closed && (a.Run? && a.ok ==> e.lost == 0)
      && (e.panic ==> e.op == Some(op) && e.sh == sh)
      && (!e.panic ==> RankOf(e.op) + Slots(size, e.sh) < Rank(op) + Slots(size, sh))
  {
    if IsCloser(op) { CloserFalls(size, sh, op, next, a); } else { OtherFalls(size, sh, op, next, a); }
  }

  lemma CloserFalls(size: nat, sh: Shared, op: Op, next: Id, a: Action)
    requires |sh.ready| <= size && IsCloser(op) && Onward(op, a.t, a) && !(sh.open && op.Draining?)
    ensures var e := Section(size, sh, Some(op), next, a);
      && e.sh.closed == sh.closed && e.lost == 0 && !e.panic
      && RankOf(e.op) + Slots(size, e.sh) < Rank(op) + Slots(size, sh)
  {
    if op.Destroying? && op.snap != {} { OneFewer(op.snap, a.pick); }
  }

  lemma OneFewer(snap: set<Id>, pick: Id)
    requires pick in snap
    ensures |snap - {pick}| == |snap| - 1
  {
  }

  lemma OtherFalls(size: nat, sh: Shared, op: Op, next: Id, a: Action)
    requires !IsCloser(op) && Onward(op, a.t, a)
    ensures var e := Section(size, sh, Some(op), next, a);
      && e.sh.closed == sh.closed && (a.Run? && a.ok ==> e.lost == 0)
      && (e.panic ==> e.op == Some(op) && e.sh == sh)
      && (!e.panic ==> RankOf(e.op) < Rank(op) && Slots(size, e.sh) == Slots(size, sh))
  {
  }

  /** The sections that the operations in flight have before them at most. */
  ghost function Load(ops: map<nat, Op>): nat
    decreases |ops.Keys|
  {
    if ops == map[] then 0 else Rank(ops[AnyOf(ops)]) + Load(ops - {AnyOf(ops)})
  }

  ghost function AnyOf(ops: map<nat, Op>): nat
    requires ops != map[]
    ensures AnyOf(ops) in ops
  {
    var t :| t in ops;
    t
  }

  lemma {:induction false} LoadAt(ops: map<nat, Op>, t: nat)
    requires t in ops
    ensures Load(ops) == Rank(ops[t]) + Load(ops - {t})
    decreases |ops.Keys|
  {
    var u := AnyOf(ops);
    if u != t {
      LoadAt(ops - {u}, t);
      LoadAt(ops - {t}, u);
      assert ops - {u} - {t} == ops - {t} - {u};
    }
  }

  lemma LoadPut(ops: map<nat, Op>, t: nat, op: Option<Op>)
    requires t in ops
    ensures Load(Put(ops, t, op)) + Rank(ops[t]) == Load(ops) + if op.Some? then Rank(op.value) else 0
  {
    LoadAt(ops, t);
    if op.Some? {
      LoadAt(ops[t := op.value], t);
      assert ops[t := op.value] - {t} == ops - {t};
    }
  }

  ghost function Potential(s: State): nat {
    Load(s.ops) + Slots(s.size, s.sh)
  }

  /** A schedule of the operations in flight: no new calls, New and Reset turn out as they like. */
  ghost predicate Schedule(s: State, acts: seq<Action>)
    decreases |acts|
  {
    acts == [] ||
    (&& !s.panicked && acts[0].t in s.ops && Onward(s.ops[acts[0].t], acts[0].t, acts[0])
     && Schedule(Next(s, acts[0]), acts[1..]))
  }

  lemma PotentialFalls(s: State, a: Action)
    requires Conserved(s) && OneCloser(s) && !s.panicked && a.t in s.ops && Onward(s.ops[a.t], a.t, a)
    ensures var n := Next(s, a);
      && Conserved(n) && OneCloser(n) && n.sh.closed == s.sh.closed && n.size == s.size
      && (a.Run? && a.ok ==> n.lost == s.lost) && (a.Return? ==> n.lost == s.lost)
      && (if n.panicked then Potential(n) == Potential(s) else Potential(n) < Potential(s))
  {
    RankFalls(s.size, s.sh, s.ops[a.t], s.next, a.t, a);
    LoadPut(s.ops, a.t, Section(s.size, s.sh, At(s.ops, a.t), s.next, a).op);
    ConservedNext(s, a);
    OneCloserNext(s, a);
  }

  /**
   Every schedule ends, before Close and after: its sections, whatever their order, are no
   more than the potential it starts with, and one more if it ends in a panic.
   */
  lemma {:induction false} EveryScheduleEnds(s: State, acts: seq<Action>)
    requires Conserved(s) && OneCloser(s) && Schedule(s, acts)
    ensures var f := Exec(s, acts);
      |acts| + Potential(f) <= Potential(s) + (if f.panicked then 1 else 0) && f.sh.closed == s.sh.closed
    decreases |acts|
  {
    if acts != [] {
      PotentialFalls(s, acts[0]);
      EveryScheduleEnds(Next(s, acts[0]), acts[1..]);
    }
  }

  /** Some schedule, without a failure of New or Reset, leaves nothing in flight, unless it panics. */
  lemma {:induction false} RunsOut(s: State) returns (acts: seq<Action>)
    requires Conserved(s) && OneCloser(s)
    ensures Schedule(s, acts) && Disciplined(acts)
    ensures var f := Exec(s, acts);
      (f.panicked || f.ops == map[]) && f.lost == s.lost && f.size == s.size && f.sh.closed == s.sh.closed
    decreases Potential(s)
  {
    acts := [];
    if !s.panicked && s.ops != map[] {
      var t :| t in s.ops;
      var op := s.ops[t];
      var pick: Id := 0;
      if op.Destroying? && op.snap != {} { pick :| pick in op.snap; }
      var a := if op.Held? then Return(t) else Run(t, true, pick);
      PotentialFalls(s, a);
      acts := [a];
      if !Next(s, a).panicked {
        var rest := RunsOut(Next(s, a));
        acts := [a] + rest;
        assert acts[1..] == rest;
      } else {
        assert Exec(Next(s, a), []) == Next(s, a);
      }
    }
  }

  /**
   Before Close every run can be continued, without a failure and without a new call, until
   the pool is quiet; it then has at least size minus lost sandboxes ready, all of them if
   no replenish failed.
   */
  lemma SelfHealing(size: nat, acts: seq<Action>) returns (more: seq<Action>)
    requires !Exec(Init(size), acts).sh.closed
    ensures Disciplined(more) && Schedule(Exec(Init(size), acts), more)
    ensures var lost := Exec(Init(size), acts).lost;
      var f := Exec(Init(size), acts + more);
      f.ops == map[] && f.lost == lost && size <= |f.sh.ready| + lost && |f.sh.ready| <= size
  {
    var s := Exec(Init(size), acts);
    ConservedExec(Init(size), acts);
    OneCloserExec(Init(size), acts);
    SizeExec(Init(size), acts);
    more := RunsOut(s);
    ConservedExec(s, more);
    ExecConcat(Init(size), acts, more);
  }
}
