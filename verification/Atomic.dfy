/** 32-bit int arithmetic, with wrap-around. */
module Words {

  const MODULUS: int := 0x1_0000_0000
  const MAX: int := 0x7fff_ffff
  const MIN: int := -0x8000_0000

  /** The int that holds x modulo 2^32. */
  function Wrap(x: int): (r: int)
    ensures MIN <= r <= MAX
  {
    (x - MIN) % MODULUS + MIN
  }

  lemma WrapIsUnique(x: int, r: int, k: int)
    requires MIN <= r <= MAX && x == r + k * MODULUS
    ensures Wrap(x) == r
  {
    var q := (x - MIN) / MODULUS;
    assert x - MIN == q * MODULUS + (x - MIN) % MODULUS;
    assert x - MIN == k * MODULUS + (r - MIN);
  }

  lemma WrapOffset(x: int) returns (k: int)
    ensures x == Wrap(x) + k * MODULUS
  {
    k := (x - MIN) / MODULUS;
  }

  /** Wrapping early or late makes no difference. */
  lemma WrapAdd(x: int, d: int)
    ensures Wrap(Wrap(x) + d) == Wrap(x + d)
  {
    var k := WrapOffset(x);
    var j := WrapOffset(Wrap(x) + d);
    WrapIsUnique(x + d, Wrap(Wrap(x) + d), k + j);
  }
}

/**
 ia64_atomic_add and ia64_atomic_sub: any number of threads, each in its load / compare-and-swap
 loop on one counter.  The compare-and-swap succeeds on equal values even if the counter has been
 changed and changed back in between.
 */
module CompareSwap {
  import opened Words

  /** (history) An operation that has taken effect: who, by how much, and what it returned. */
  datatype Entry = Entry(t: nat, delta: int, ret: int)

  datatype Proc = Resting | Called(delta: int) | Loaded(delta: int, seen: int)

  /** `calls` is history: the operations every thread has begun. */
  datatype Cell = Cell(initial: int, counter: int, procs: seq<Proc>, calls: seq<seq<int>>, log: seq<Entry>)

  datatype Action =
    | Call(t: nat, delta: int)
    | Load(t: nat)
    | Swap(t: nat)

  predicate Enabled(s: Cell, a: Action) {
    && a.t < |s.procs| == |s.calls|
    && match a
       case Call(t, _) => s.procs[t].Resting?
       case Load(t) => s.procs[t].Called?
       case Swap(t) => s.procs[t].Loaded?
  }

  function Next(s: Cell, a: Action): Cell
    requires Enabled(s, a)
  {
    match a
    case Call(t, delta) =>
      s.(procs := s.procs[t := Called(delta)], calls := s.calls[t := s.calls[t] + [delta]])
    case Load(t) =>
      s.(procs := s.procs[t := Loaded(s.procs[t].delta, s.counter)])
    case Swap(t) =>
      var p := s.procs[t];
      if s.counter == p.seen then
        s.(counter := Wrap(p.seen + p.delta), procs := s.procs[t := Resting],
           log := s.log + [Entry(t, p.delta, Wrap(p.seen + p.delta))])
      else
        s.(procs := s.procs[t := Called(p.delta)])
  }

  predicate IsRun(s: Cell, acts: seq<Action>)
    decreases |acts|
  {
    acts == [] || (Enabled(s, acts[0]) && IsRun(Next(s, acts[0]), acts[1..]))
  }

  function Run(s: Cell, acts: seq<Action>): Cell
    requires IsRun(s, acts)
    decreases |acts|
  {
    if acts == [] then s else Run(Next(s, acts[0]), acts[1..])
  }

  function Start(n: nat, initial: int): Cell {
    Cell(initial, initial, seq(n, _ => Resting), seq(n, _ => []), [])
  }

  /** The net of a list of operations. */
  function Net(log: seq<Entry>): int {
    if log == [] then 0 else Net(log[..|log| - 1]) + log[|log| - 1].delta
  }

  /** The operations of one thread, in the order they took effect. */
  function Of(log: seq<Entry>, t: nat): seq<int> {
    if log == [] then [] else
      Of(log[..|log| - 1], t) + if log[|log| - 1].t == t then [log[|log| - 1].delta] else []
  }

  /** What a thread has begun and not finished. */
  function Unfinished(p: Proc): seq<int> {
    if p.Resting? then [] else [p.delta]
  }

  lemma {:induction false} Push(log: seq<Entry>, e: Entry, t: nat)
    ensures Net(log + [e]) == Net(log) + e.delta
    ensures Of(log + [e], t) == Of(log, t) + if e.t == t then [e.delta] else []
  {
    assert (log + [e])[..|log|] == log;
  }

  /** Every operation returned what a counter that executes the log one by one would have returned. */
  ghost predicate Replays(initial: int, log: seq<Entry>) {
    log == [] || (Replays(initial, log[..|log| - 1]) && log[|log| - 1].ret == Wrap(initial + Net(log)))
  }

  lemma {:induction false} ReplaysAt(initial: int, log: seq<Entry>, j: nat)
    requires Replays(initial, log) && j < |log|
    ensures log[j].ret == Wrap(initial + Net(log[..j + 1]))
  {
    if j == |log| - 1 {
      assert log[..j + 1] == log;
    } else {
      ReplaysAt(initial, log[..|log| - 1], j);
      assert log[..|log| - 1][..j + 1] == log[..j + 1];
    }
  }

  /** Every thread's operations are in the log once each and in order, but for the one under way. */
  ghost predicate InProgramOrder(s: Cell) {
    |s.calls| == |s.procs| && forall t | 0 <= t < |s.procs| :: Of(s.log, t) + Unfinished(s.procs[t]) == s.calls[t]
  }

  ghost predicate Atomic(s: Cell) {
    s.counter == Wrap(s.initial + Net(s.log)) && Replays(s.initial, s.log) && InProgramOrder(s)
  }

  lemma SwapReturns(initial: int, counter: int, log: seq<Entry>, t: nat, delta: int)
    requires counter == Wrap(initial + Net(log)) && Replays(initial, log)
    ensures var log' := log + [Entry(t, delta, Wrap(counter + delta))];
            Wrap(counter + delta) == Wrap(initial + Net(log')) && Replays(initial, log')
  {
    var e := Entry(t, delta, Wrap(counter + delta));
    WrapAdd(initial + Net(log), delta);
    Push(log, e, t);
    assert (log + [e])[..|log|] == log;
  }

  lemma SwapOrder(s: Cell, t: nat)
    requires InProgramOrder(s) && Enabled(s, Swap(t))
    ensures InProgramOrder(Next(s, Swap(t)))
  {
    var p, s' := s.procs[t], Next(s, Swap(t));
    forall u | 0 <= u < |s.procs| ensures Of(s'.log, u) + Unfinished(s'.procs[u]) == s'.calls[u] {
      assert Of(s.log, u) + Unfinished(s.procs[u]) == s.calls[u];
      if s.counter == p.seen {
        Push(s.log, s'.log[|s.log|], u);
      }
    }
  }

  lemma CallOrder(s: Cell, t: nat, delta: int)
    requires InProgramOrder(s) && Enabled(s, Call(t, delta))
    ensures InProgramOrder(Next(s, Call(t, delta)))
  {
    assert Of(s.log, t) + Unfinished(s.procs[t]) == s.calls[t];
  }

  lemma LoadOrder(s: Cell, t: nat)
    requires InProgramOrder(s) && Enabled(s, Load(t))
    ensures InProgramOrder(Next(s, Load(t)))
  {
    assert Of(s.log, t) + Unfinished(s.procs[t]) == s.calls[t];
  }

  lemma Step(s: Cell, a: Action)
    requires Atomic(s) && Enabled(s, a)
    ensures Atomic(Next(s, a))
  {
    match a
    case Swap(t) =>
      SwapReturns(s.initial, s.counter, s.log, t, s.procs[t].delta);
      SwapOrder(s, t);
    case Call(t, delta) => CallOrder(s, t, delta);
    case Load(t) => LoadOrder(s, t);
  }

  lemma {:induction false} RunAtomic(s: Cell, acts: seq<Action>)
    requires Atomic(s) && IsRun(s, acts)
    ensures Atomic(Run(s, acts)) && Run(s, acts).initial == s.initial && |Run(s, acts).procs| == |s.procs|
    decreases |acts|
  {
    if acts != [] {
      Step(s, acts[0]);
      RunAtomic(Next(s, acts[0]), acts[1..]);
    }
  }

  /**
   Refinement of atomic addition, for any number of threads and any interleaving: the counter is
   the initial value plus the net of the operations in the log, each operation returned the value at
   its own place in the log, and every thread's operations are in the log once each, in program
   order, but perhaps for the one it is executing.
   */
  lemma RefinesAtomicAddition(n: nat, initial: int, acts: seq<Action>, j: nat, t: nat)
    requires MIN <= initial <= MAX && IsRun(Start(n, initial), acts)
    ensures var s := Run(Start(n, initial), acts);
            && s.counter == Wrap(initial + Net(s.log))
            && (j < |s.log| ==> s.log[j].ret == Wrap(initial + Net(s.log[..j + 1])))
            && |s.calls| == |s.procs| == n
            && (t < n ==> Begun(acts, t) == Of(s.log, t) + Unfinished(s.procs[t]))
  {
    StartIsAtomic(n, initial);
    RunAtomic(Start(n, initial), acts);
    RunCalls(Start(n, initial), acts, t);
    var s := Run(Start(n, initial), acts);
    if j < |s.log| {
      ReplaysAt(initial, s.log, j);
    }
  }

  /** The operations thread t has begun in a run. */
  function Begun(acts: seq<Action>, t: nat): seq<int> {
    if acts == [] then [] else
      (match acts[0]
       case Call(u, delta) => if u == t then [delta] else []
       case _ => [])
      + Begun(acts[1..], t)
  }

  lemma {:induction false} RunCalls(s: Cell, acts: seq<Action>, t: nat)
    requires IsRun(s, acts) && |s.calls| == |s.procs|
    ensures |Run(s, acts).calls| == |s.calls| && (t < |s.calls| ==> Run(s, acts).calls[t] == s.calls[t] + Begun(acts, t))
    decreases |acts|
  {
    if acts != [] {
      RunCalls(Next(s, acts[0]), acts[1..], t);
    }
  }

  lemma StartIsAtomic(n: nat, initial: int)
    requires MIN <= initial <= MAX
    ensures Atomic(Start(n, initial))
  {
    WrapIsUnique(initial, initial, 0);
  }

  // ---- the loops themselves ---------------------------------------------------------------------

  /** The counter as one thread's code sees it, while the other threads follow a schedule. */
  class AtomicCounter {
    var counter: int
    var sys: Cell                   // where the threads stand
    var schedule: seq<seq<Action>>  // what the others do at the successive preemption points

    ghost predicate Valid()
      reads this
    {
      counter == sys.counter && Atomic(sys)
    }

    /** atomic_set, before any thread has begun. */
    constructor (n: nat, initial: int, schedule: seq<seq<Action>>)
      requires MIN <= initial <= MAX
      ensures Valid() && sys == Start(n, initial) && this.schedule == schedule
    {
      counter, sys, this.schedule := initial, Start(n, initial), schedule;
      StartIsAtomic(n, initial);
    }

    /** What the others may have changed under thread t. */
    static ghost predicate Foreign(t: nat, s: Cell, s': Cell) {
      && s'.initial == s.initial && |s'.procs| == |s.procs| && s.log <= s'.log
      && (t < |s.procs| ==> s'.procs[t] == s.procs[t])
      && (forall j | |s.log| <= j < |s'.log| :: s'.log[j].t != t)
    }

    /** The others move: one entry of the schedule. */
    method Interfere(t: nat)
      requires Valid()
      modifies this
      ensures Valid() && Foreign(t, old(sys), sys)
      ensures if old(schedule) == [] then schedule == [] && sys == old(sys) else schedule == old(schedule[1..])
    {
      if schedule == [] {
        return;
      }
      var todo := schedule[0];
      schedule := schedule[1..];
      while todo != []
        invariant Valid() && Foreign(t, old(sys), sys) && schedule == old(schedule[1..])
        decreases |todo|
      {
        if todo[0].t != t && Enabled(sys, todo[0]) {
          Do(todo[0]);
        }
        todo := todo[1..];
      }
    }

    method Do(a: Action)
      requires Valid() && Enabled(sys, a)
      modifies this`sys, this`counter
      ensures Valid() && sys == Next(old(sys), a)
    {
      Step(sys, a);
      sys := Next(sys, a);
      counter := sys.counter;
    }

    /** Thread t's operation has taken effect just now, and not before. */
    static ghost predicate JustDone(t: nat, s: Cell, s': Cell, delta: int, value: int) {
      && |s'.procs| == |s.procs| && t < |s'.procs| && s'.procs[t].Resting? && s'.counter == value
      && |s.log| < |s'.log| && Quiet(t, s.log, s'.log[..|s'.log| - 1]) && s'.log[|s'.log| - 1] == Entry(t, delta, value)
    }

    /** Only others have added to the log. */
    static ghost predicate Quiet(t: nat, log: seq<Entry>, log': seq<Entry>) {
      log <= log' && forall j | |log| <= j < |log'| :: log'[j].t != t
    }

    /** atomic_read */
    method AtomicRead(t: nat) returns (seen: int)
      requires Valid() && t < |sys.procs| && sys.procs[t].Called?
      modifies this
      ensures Valid() && |sys.procs| == |old(sys.procs)| && Quiet(t, old(sys.log), sys.log)
      ensures sys.procs[t] == Loaded(old(sys.procs[t].delta), seen) && seen == counter
      ensures |schedule| <= |old(schedule)|
    {
      Interfere(t);
      seen := counter;
      Do(Load(t));
    }

    /** ia64_cmpxchg: returns the value found; the new value is stored if that is the expected one. */
    method CmpXchg(t: nat, expected: int, value: int) returns (found: int)
      requires Valid() && t < |sys.procs| && sys.procs[t].Loaded? && sys.procs[t].seen == expected == counter
      requires value == Wrap(expected + sys.procs[t].delta)
      modifies this
      ensures Valid() && |sys.procs| == |old(sys.procs)|
      ensures found == expected ==> JustDone(t, old(sys), sys, old(sys.procs[t].delta), value)
      ensures found != expected ==> sys.procs[t] == Called(old(sys.procs[t].delta)) && Quiet(t, old(sys.log), sys.log)
      ensures found != expected ==> |schedule| < |old(schedule)|
    {
      Interfere(t);
      found := counter;
      ghost var log := sys.log;
      Do(Swap(t));
      assert found == expected ==> sys.log[..|sys.log| - 1] == log;
    }

    /** ia64_atomic_add */
    method AtomicAdd(t: nat, i: int) returns (value: int)
      requires Valid() && t < |sys.procs| && sys.procs[t].Resting?
      modifies this
      ensures Valid() && JustDone(t, old(sys), sys, i, value)
    {
      Do(Call(t, i));
      while true
        invariant Valid() && |sys.procs| == |old(sys.procs)| && t < |sys.procs|
        invariant sys.procs[t] == Called(i) && Quiet(t, old(sys.log), sys.log)
        decreases |schedule|
      {
        var seen := AtomicRead(t);
        value := Wrap(seen + i);
        var found := CmpXchg(t, seen, Wrap(seen + i));
        if found == seen {
          return;
        }
      }
    }

    /** ia64_atomic_sub */
    method AtomicSub(t: nat, i: int) returns (value: int)
      requires Valid() && t < |sys.procs| && sys.procs[t].Resting?
      modifies this
      ensures Valid() && JustDone(t, old(sys), sys, -i, value)
    {
      Do(Call(t, -i));
      while true
        invariant Valid() && |sys.procs| == |old(sys.procs)| && t < |sys.procs|
        invariant sys.procs[t] == Called(-i) && Quiet(t, old(sys.log), sys.log)
        decreases |schedule|
      {
        var seen := AtomicRead(t);
        value := Wrap(seen - i);
        var found := CmpXchg(t, seen, value);
        if found == seen {
          return;
        }
      }
    }
  }
}

/**
 atomic_dec_if_positive: a load-reserved / store-conditional loop.  A store to the counter takes
 every other thread's reservation away, and a store may also fail for no reason.
 */
module Reservation {
  import opened Words

  datatype Proc = Resting | Called | Linked(t: int, reserved: bool)

  /** `tickets` is history: the results of the calls that decremented, in order; `refused` counts the others. */
  datatype Cell = Cell(initial: int, counter: int, procs: seq<Proc>, tickets: seq<int>, refused: nat)

  datatype Action =
    | Call(p: nat)
    | LoadLinked(p: nat)              // lwarx, addic. and the conditional exit
    | StoreConditional(p: nat, spurious: bool)

  predicate Enabled(s: Cell, a: Action) {
    && a.p < |s.procs|
    && match a
       case Call(p) => s.procs[p].Resting?
       case LoadLinked(p) => s.procs[p].Called?
       case StoreConditional(p, _) => s.procs[p].Linked?
  }

  /** The loop goes on to the store. */
  predicate Passes(counter: int) {
    Wrap(counter - 1) >= 0
  }

  /**
   The exit is taken on the sign of the 32-bit difference, so besides the positive values the
   smallest int passes the test as well.
   */
  lemma PassesExactly(counter: int)
    requires MIN <= counter <= MAX
    ensures Passes(counter) <==> counter > 0 || counter == MIN
  {
    if counter == MIN {
      WrapIsUnique(counter - 1, MAX, -1);
    } else {
      WrapIsUnique(counter - 1, counter - 1, 0);
    }
  }

  function Unreserve(procs: seq<Proc>): (r: seq<Proc>) {
    seq(|procs|, i requires 0 <= i < |procs| =>
      if procs[i].Linked? then procs[i].(reserved := false) else procs[i])
  }

  function Next(s: Cell, a: Action): Cell
    requires Enabled(s, a)
  {
    match a
    case Call(p) => s.(procs := s.procs[p := Called])
    case LoadLinked(p) =>
      if Passes(s.counter) then s.(procs := s.procs[p := Linked(Wrap(s.counter - 1), true)])
      else s.(procs := s.procs[p := Resting], refused := s.refused + 1)
    case StoreConditional(p, spurious) =>
      if s.procs[p].reserved && !spurious then
        s.(counter := s.procs[p].t, procs := Unreserve(s.procs)[p := Resting], tickets := s.tickets + [s.procs[p].t])
      else
        s.(procs := s.procs[p := Called])
  }

  predicate IsRun(s: Cell, acts: seq<Action>)
    decreases |acts|
  {
    acts == [] || (Enabled(s, acts[0]) && IsRun(Next(s, acts[0]), acts[1..]))
  }

  function Run(s: Cell, acts: seq<Action>): Cell
    requires IsRun(s, acts)
    decreases |acts|
  {
    if acts == [] then s else Run(Next(s, acts[0]), acts[1..])
  }

  function Start(n: nat, initial: int): Cell {
    Cell(initial, initial, seq(n, _ => Resting), [], 0)
  }

  /** How many calls can succeed: none on a negative counter, but 2^31 on the smallest int, which the first one takes to the largest. */
  function Supply(initial: int): nat {
    if initial >= 0 then initial else if initial == MIN then MAX + 1 else 0
  }

  ghost predicate Counted(s: Cell) {
    && MIN <= s.initial <= MAX && |s.tickets| <= Supply(s.initial)
    && s.counter == (if s.tickets == [] then s.initial else Supply(s.initial) - |s.tickets|)
    && (forall j | 0 <= j < |s.tickets| :: s.tickets[j] == Supply(s.initial) - 1 - j)
    && (forall p | 0 <= p < |s.procs| && s.procs[p].Linked? && s.procs[p].reserved ::
          s.procs[p].t == Supply(s.initial) - 1 - |s.tickets| >= 0)
    && (s.refused > 0 ==> |s.tickets| == Supply(s.initial))
  }

  /** The load finds something to take exactly while the supply lasts, and then computes the next ticket. */
  lemma LoadFinds(s: Cell)
    requires Counted(s)
    ensures Passes(s.counter) <==> |s.tickets| < Supply(s.initial)
    ensures Passes(s.counter) ==> Wrap(s.counter - 1) == Supply(s.initial) - 1 - |s.tickets|
    ensures !Passes(s.counter) ==> s.counter <= 0 && Wrap(s.counter - 1) == s.counter - 1
  {
    PassesExactly(s.counter);
    if s.counter == MIN {
      WrapIsUnique(s.counter - 1, MAX, -1);
    } else {
      WrapIsUnique(s.counter - 1, s.counter - 1, 0);
    }
  }

  lemma Step(s: Cell, a: Action)
    requires Counted(s) && Enabled(s, a)
    ensures Counted(Next(s, a)) && Next(s, a).initial == s.initial
  {
    if a.LoadLinked? {
      LoadFinds(s);
    }
  }

  lemma {:induction false} RunCounted(s: Cell, acts: seq<Action>)
    requires Counted(s) && IsRun(s, acts)
    ensures Counted(Run(s, acts)) && Run(s, acts).initial == s.initial
    decreases |acts|
  {
    if acts != [] {
      Step(s, acts[0]);
      RunCounted(Next(s, acts[0]), acts[1..]);
    }
  }

  /**
   Any number of threads, any interleaving, any spurious failures, any initial value: a counter that
   starts out non-negative stays so; the calls that return a non-negative value number exactly the
   amount it went down and return initial-1, initial-2, ... in turn; and a call is refused only once
   it is 0.  A negative counter is left alone, except that the smallest int wraps and then behaves like 2^31.
   */
  lemma TicketsMatchDecrease(n: nat, initial: int, acts: seq<Action>, j: nat)
    requires MIN <= initial <= MAX && IsRun(Start(n, initial), acts)
    ensures var s := Run(Start(n, initial), acts);
            && (0 <= initial ==> 0 <= s.counter <= initial && |s.tickets| == initial - s.counter)
            && (MIN < initial < 0 ==> s.counter == initial && s.tickets == [])
            && (initial == MIN && s.tickets != [] ==> 0 <= s.counter && |s.tickets| == MAX + 1 - s.counter)
            && (j < |s.tickets| ==> s.tickets[j] == Supply(initial) - 1 - j)
            && (s.refused > 0 ==> s.counter <= 0 && |s.tickets| == Supply(initial))
  {
    RunCounted(Start(n, initial), acts);
  }

  /** The counter as one thread's code sees it. */
  class ReservedCounter {
    var counter: int
    var sys: Cell
    var schedule: seq<seq<Action>>
    var glitches: seq<bool>         // which stores fail for no reason

    ghost predicate Valid()
      reads this
    {
      counter == sys.counter && Counted(sys)
    }

    /** atomic_set, before any thread has begun. */
    constructor (n: nat, initial: int, schedule: seq<seq<Action>>, glitches: seq<bool>)
      requires MIN <= initial <= MAX
      ensures Valid() && sys == Start(n, initial) && this.schedule == schedule && this.glitches == glitches
    {
      counter, sys, this.schedule, this.glitches := initial, Start(n, initial), schedule, glitches;
    }

    static ghost predicate Foreign(p: nat, s: Cell, s': Cell) {
      && s'.initial == s.initial && |s'.procs| == |s.procs| && s.tickets <= s'.tickets && s.refused <= s'.refused
      && (p < |s.procs| ==> s'.procs[p] == s.procs[p] || (s.procs[p].Linked? && s'.procs[p] == s.procs[p].(reserved := false)))
    }

    method Do(a: Action)
      requires Valid() && Enabled(sys, a)
      modifies this`sys, this`counter
      ensures Valid() && sys == Next(old(sys), a)
    {
      Step(sys, a);
      sys := Next(sys, a);
      counter := sys.counter;
    }

    method Interfere(p: nat)
      requires Valid()
      modifies this`sys, this`counter, this`schedule
      ensures Valid() && Foreign(p, old(sys), sys)
      ensures if old(schedule) == [] then schedule == [] && sys == old(sys) else schedule == old(schedule[1..])
    {
      if schedule == [] {
        return;
      }
      var todo := schedule[0];
      schedule := schedule[1..];
      while todo != []
        invariant Valid() && Foreign(p, old(sys), sys) && schedule == old(schedule[1..])
        decreases |todo|
      {
        if todo[0].p != p && Enabled(sys, todo[0]) {
          Do(todo[0]);
        }
        todo := todo[1..];
      }
    }

    method Glitch() returns (g: bool)
      modifies this`glitches
      ensures if old(glitches) == [] then !g && glitches == [] else glitches == old(glitches[1..])
    {
      if glitches == [] {
        return false;
      }
      g := glitches[0];
      glitches := glitches[1..];
    }

    /** lwarx, addic. and the test of the difference. */
    method LoadAndTest(p: nat) returns (t: int)
      requires Valid() && p < |sys.procs| && sys.procs[p].Called?
      modifies this`sys, this`counter, this`schedule
      ensures Valid() && |sys.procs| == |old(sys.procs)| && old(sys.tickets) <= sys.tickets && |schedule| <= |old(schedule)|
      ensures t < 0 ==> t == counter - 1 && counter <= 0 && sys.procs[p].Resting? && sys.refused > old(sys.refused)
      ensures t >= 0 ==> sys.procs[p] == Linked(t, true) && sys.refused >= old(sys.refused)
    {
      Interfere(p);
      t := Wrap(counter - 1);
      LoadFinds(sys);
      Do(LoadLinked(p));
    }

    /** stwcx.: fails if another store has come in between, or for no reason. */
    method Store(p: nat, t: int) returns (stored: bool)
      requires Valid() && p < |sys.procs| && sys.procs[p] == Linked(t, true)
      modifies this
      ensures Valid() && |sys.procs| == |old(sys.procs)| && old(sys.tickets) <= sys.tickets && old(sys.refused) <= sys.refused
      ensures stored ==> t == counter && old(sys.tickets) < sys.tickets && sys.tickets[|sys.tickets| - 1] == t && sys.procs[p].Resting?
      ensures !stored ==> sys.procs[p].Called? && |schedule| + |glitches| < old(|schedule| + |glitches|)
    {
      Interfere(p);
      var glitch := Glitch();
      stored := sys.procs[p].reserved && !glitch;
      Do(StoreConditional(p, glitch));
    }

    /**
     atomic_dec_if_positive: either the counter was found at zero or below and is left alone, and the
     result is one less; or the counter has just been taken down by one and the result is its new value.
     */
    method AtomicDecIfPositive(p: nat) returns (t: int)
      requires Valid() && p < |sys.procs| && sys.procs[p].Resting?
      modifies this
      ensures Valid() && |sys.procs| == |old(sys.procs)| && sys.procs[p].Resting?
      ensures t >= 0 ==> t == counter && old(sys.tickets) < sys.tickets && sys.tickets[|sys.tickets| - 1] == t
      ensures t < 0 ==> t == counter - 1 && counter <= 0 && sys.refused > old(sys.refused)
    {
      t := 0;
      Do(Call(p));
      while true
        invariant Valid() && |sys.procs| == |old(sys.procs)| && p < |sys.procs| && sys.procs[p].Called?
        invariant old(sys.tickets) <= sys.tickets && old(sys.refused) <= sys.refused
        decreases |schedule| + |glitches|
      {
        t := LoadAndTest(p);
        if t < 0 {
          return;
        }
        var stored := Store(p, t);
        if stored {
          return;
        }
      }
    }
  }
}
