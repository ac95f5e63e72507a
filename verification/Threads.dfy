/**
 The thread code itself: AssignTask and the listener loop (ListenThread.cpp), i_epoll_wait
 (iEpoll.cpp) and the handlers (TaskThread.cpp), each statement by statement, over a machine whose
 other threads, kernel and peers may move before every shared access.  What they do is read from a
 schedule, so a result holds for every schedule.  The machine's Valid() says that everything done so
 far, by this code and by everyone else, is a run of the system in Server.
 */
module Threads {
  import opened Epoll
  import opened Server
  import opened Sequences
  import Ownership
  import Accounting
  import Batches
  import Modes
  import Safety
  import Capacity

  /** struct epoll_event, as the server sees it. */
  datatype EpollEvent = EpollEvent(fd: Fd, events: Mask)

  function Visible(batch: seq<Event>): (r: seq<EpollEvent>)
    ensures |r| == |batch|
  {
    seq(|batch|, i requires 0 <= i < |batch| => EpollEvent(batch[i].fd, batch[i].flags))
  }

  // ---- what a thread may rely on while others move --------------------------------------------

  ghost predicate Foreign(me: Thread, acts: seq<Action>) {
    forall a | a in acts :: ThreadOf(a) != me
  }

  /** While the listener is between two accesses, nobody moves it and nobody accepts, rejects or registers. */
  ghost predicate ListenerUntouched(s: State, s': State) {
    && s'.lis == s.lis && |s'.ws| == |s.ws| && s'.maxclients == s.maxclients
    && s'.hist.accepted == s.hist.accepted && s'.hist.rejected == s.hist.rejected
    && s'.hist.addFailed == s.hist.addFailed && s'.hist.increments == s.hist.increments
    && s'.hist.placed == s.hist.placed
  }

  lemma {:induction false} ForeignToListener(s: State, acts: seq<Action>)
    requires IsRun(s, acts) && Foreign(ListenerThread, acts)
    ensures ListenerUntouched(s, Run(s, acts))
    decreases |acts|
  {
    if acts != [] {
      assert acts[0] in acts;
      ForeignToListener(Next(s, acts[0]), acts[1..]);
    }
  }

  /** Others may arm, wake or count a worker's connections; its own variables are private. */
  ghost predicate WorkerUntouched(t: Worker, t': Worker) {
    && t'.pc == t.pc && t'.cur == t.cur && t'.batch == t.batch && t'.nRet == t.nRet
    && t'.failed == t.failed && t'.rearmed == t.rearmed && t'.polls == t.polls
    && t'.reported == t.reported && t'.done == t.done
  }

  lemma {:induction false} ForeignToWorker(s: State, acts: seq<Action>, w: nat)
    requires IsRun(s, acts) && Foreign(WorkerThread(w), acts) && w < |s.ws|
    ensures |Run(s, acts).ws| == |s.ws| && WorkerUntouched(s.ws[w], Run(s, acts).ws[w])
    ensures Run(s, acts).maxevents == s.maxevents && s.hist.closes <= Run(s, acts).hist.closes
    decreases |acts|
  {
    if acts != [] {
      assert acts[0] in acts;
      ForeignStepToWorker(s, acts[0], w);
      ForeignToWorker(Next(s, acts[0]), acts[1..], w);
    }
  }

  lemma ForeignStepToWorker(s: State, a: Action, w: nat)
    requires Enabled(s, a) && ThreadOf(a) != WorkerThread(w) && w < |s.ws|
    ensures |Next(s, a).ws| == |s.ws| && WorkerUntouched(s.ws[w], Next(s, a).ws[w])
    ensures Next(s, a).maxevents == s.maxevents && s.hist.closes <= Next(s, a).hist.closes
  {
    if a.Advance? {
      ForeignMoveToWorker(s, a.w, a.ok, w);
    } else if ThreadOf(a) == ListenerThread {
      ListenerStepToWorker(s, a, w);
    }
  }

  lemma ForeignMoveToWorker(s: State, v: nat, ok: bool, w: nat)
    requires Enabled(s, Advance(v, ok)) && v != w && w < |s.ws|
    ensures var s' := Next(s, Advance(v, ok));
            && |s'.ws| == |s.ws| && WorkerUntouched(s.ws[w], s'.ws[w])
            && s'.maxevents == s.maxevents && s.hist.closes <= s'.hist.closes
  {
    var t := s.ws[v];
    var c := if t.pc.CloseFd? then Close(s, t.cur.fd, ByWorker(v)) else s;
    assert c.ws[w] == s.ws[w] || c.ws[w] == Drop(s.ws[w], t.cur.fd);
  }

  lemma ListenerStepToWorker(s: State, a: Action, w: nat)
    requires Enabled(s, a) && ThreadOf(a) == ListenerThread && w < |s.ws|
    ensures |Next(s, a).ws| == |s.ws| && WorkerUntouched(s.ws[w], Next(s, a).ws[w])
    ensures Next(s, a).maxevents == s.maxevents && s.hist.closes <= Next(s, a).hist.closes
  {
  }

  /** `acts`, none of them the thread's own, have led from s to s' and have been added to the trace. */
  ghost predicate Moved(me: Thread, s: State, trace: seq<Action>, acts: seq<Action>, s': State, trace': seq<Action>) {
    Foreign(me, acts) && IsRun(s, acts) && s' == Run(s, acts) && trace' == trace + acts
  }

  lemma ThenMoved(me: Thread, s: State, trace: seq<Action>, acts: seq<Action>, s1: State, trace1: seq<Action>,
                  more: seq<Action>, s2: State, trace2: seq<Action>)
    requires Moved(me, s, trace, acts, s1, trace1) && Moved(me, s1, trace1, more, s2, trace2)
    ensures Moved(me, s, trace, acts + more, s2, trace2)
  {
    RunAppend(s, acts, more);
    assert trace + acts + more == trace + (acts + more);
  }

  // ---- what a thread knows where it stands, whatever has happened before ----------------------

  /** The scan is over: the chosen worker, and what the listener may conclude from the sum it has read. */
  ghost predicate ScanOver(s: State) {
    && Enabled(s, Decide) && s.lis.target < |s.ws| == |s.lis.compared|
    && (forall j | 0 <= j < |s.ws| :: s.ws[s.lis.target].counter <= s.lis.compared[j])
    && if s.lis.activeConns > s.maxclients then Sum(s.lis.start) == s.maxclients
       else Safety.Dispatch.RoomFor(s.lis.target, Counters(s.ws), s.maxclients)
  }

  lemma AtDecision(s: State)
    requires Safety.Reachable(s) && Enabled(s, Decide)
    ensures ScanOver(s) && s.lis.inc !in s.hist.placed
  {
    Safety.ReachableOwned(s);
    Safety.ReachableDispatched(s);
    Safety.Dispatch.ScanEnd(s.lis, Counters(s.ws), s.maxclients);
    Safety.ChoiceIsLeastLoaded(s, 0);
    forall j | 0 <= j < |s.ws| ensures s.ws[s.lis.target].counter <= s.lis.compared[j] {
      Safety.ChoiceIsLeastLoaded(s, j);
    }
  }

  lemma AtReject(s: State)
    requires Safety.Reachable(s) && s.lis.Rejecting?
    ensures Next(s, CloseRejected).ws == s.ws && Next(s, CloseRejected).hist.placed == s.hist.placed
    ensures s.lis.fd !in Next(s, CloseRejected).open
    ensures Next(s, CloseRejected).hist.closes == s.hist.closes + [Closing(s.lis.inc, ByListener)]
  {
    Safety.ReachableOwned(s);
    Ownership.RejectForgetsNothing(s);
  }

  lemma AtAdd(s: State)
    requires Safety.Reachable(s) && s.lis.Adding?
    ensures s.lis.fd in s.open && s.open[s.lis.fd].inc == s.lis.inc && s.lis.inc !in s.hist.placed
    ensures s.lis.target < |s.ws| && s.lis.fd !in s.ws[s.lis.target].interest
  {
    Safety.ReachableDispatched(s);
    Safety.ReachableOwned(s);
    Ownership.HeldIsUnregistered(s, s.lis.target);
  }

  lemma AtMove(s: State, w: nat, ok: bool)
    requires Safety.Reachable(s) && Enabled(s, Advance(w, ok))
    ensures var s', t := Next(s, Advance(w, ok)), s.ws[w];
            && s'.ws == s.ws[w := Turn(t, s.open, ok)] && s'.maxevents == s.maxevents
            && Turn(t, s.open, ok).counter == t.counter - (if t.pc.Decrement? then 1 else 0)
            && s.hist.closes <= s'.hist.closes
            && (t.pc.CloseFd? ==> Closing(t.cur.inc, ByWorker(w)) in s'.hist.closes)
  {
    Safety.ReachableOwned(s);
    Ownership.MoveIsTurn(s, w, ok);
    if s.ws[w].pc.CloseFd? {
      Ownership.CloseForgetsNothing(s, w);
    }
    TurnCounter(s.ws[w], s.open, ok);
  }

  lemma TurnCounter(t: Worker, open: map<Fd, File>, ok: bool)
    requires CanMove(t, open, ok)
    ensures Turn(t, open, ok).counter == t.counter - (if t.pc.Decrement? then 1 else 0)
  {
  }

  /** What i_epoll_change_mode does to the worker's own view, successful or not. */
  lemma RearmEffect(t: Worker, open: map<Fd, File>, ok: bool)
    requires (t.pc.ArmWrite? || t.pc.ArmRead?) && CanMove(t, open, ok)
    ensures var t', mode := Turn(t, open, ok), if t.pc.ArmWrite? then Write else Read;
            && t'.rearmed && t'.nRet == 0 && t'.failed == t.failed && t'.polls == t.polls && t'.reported == t.reported
            && t'.cur == t.cur && t'.batch == t.batch && t'.pc == (if t.pc.ArmWrite? then TestOut else TestErr)
            && Armed(t', t.cur.fd, mode, ok)
  {
  }

  predicate Armed(t: Worker, fd: Fd, mode: Mode, ok: bool) {
    if ok then fd in t.interest && t.interest[fd].mask == ChangeMask(mode, true) else fd in t.stuck
  }

  /** The connection closed is registered nowhere, and the counter of its worker is exact again. */
  lemma AfterClose(s: State, w: nat, inc: nat)
    requires Safety.Reachable(s) && w < |s.ws| && s.ws[w].pc.Top? && Closing(inc, ByWorker(w)) in s.hist.closes
    ensures forall v, fd | 0 <= v < |s.ws| && fd in s.ws[v].interest :: s.ws[v].interest[fd].inc != inc
    ensures s.ws[w].counter == |s.ws[w].interest| - Accounting.Uncounted(s.lis, w)
  {
    forall v, fd | 0 <= v < |s.ws| && fd in s.ws[v].interest ensures s.ws[v].interest[fd].inc != inc {
      Safety.ClosedIsGone(s, Closing(inc, ByWorker(w)), v, fd);
    }
    Safety.ExactAccounting(s, w);
  }

  /** Between batches everything that has been reported has been dealt with. */
  lemma BetweenBatches(s: State, w: nat)
    requires Safety.Reachable(s) && w < |s.ws| && s.ws[w].pc.Top? && s.ws[w].batch == []
    ensures s.ws[w].reported == Batches.Events(s.ws[w].done)
    ensures forall i | 0 <= i < |s.ws[w].done| :: Batches.EndedWell(s.ws[w].done[i], w, s.hist.closes)
    ensures InTurn(s.ws[w])
  {
    Safety.EveryEventSettled(s, w);
    Safety.ReachableModed(s);
    assert Modes.WorkerModes(s.ws[w], s.hist.placed);
  }

  /** Every connection has been turned round by its events in turn, and is armed accordingly. */
  ghost predicate InTurn(t: Worker) {
    && Modes.Alternate(t.done)
    && forall fd | fd in t.interest :: t.interest[fd].mask == Modes.MaskAfter(|Modes.Turns(t.done, t.interest[fd].inc)|)
  }

  lemma AtWait(s: State, w: nat, fds: seq<Fd>)
    requires Enabled(s, Wait(w, fds))
    ensures var s' := Next(s, Wait(w, fds));
            && Counters(s'.ws) == Counters(s.ws) && s'.maxevents == s.maxevents
            && |s'.ws[w].batch| <= |fds| && s'.hist.closes == s.hist.closes
  {
    Ownership.CollectReports(s.ws[w], s.open, fds);
  }

  lemma AtTestErr(s: State, w: nat, ok: bool)
    requires Safety.Reachable(s) && w < |s.ws| && s.ws[w].pc.TestErr?
    ensures var t := Turn(s.ws[w], s.open, ok);
            (t.pc.Unregister? <==> t.failed) && (t.pc.Top? <==> !t.failed) && (t.pc.Top? ==> t.rearmed && Modes.TurnedRound(t))
  {
    Safety.ReachableDecided(s);
    Safety.Decision.DecisionAt(s, w, ok);
    Safety.ReachableOwned(s);
    Ownership.HandledIsRegistered(s, w);
    Safety.ReachableModed(s);
    Modes.EndTurnsRound(s.ws[w], s.hist.placed, s.open, ok);
  }

  /** The descriptors a list of answers picks out of a ready list after `got`: as long as they are on it, each once, and there is room. */
  function Chosen(answers: seq<int>, ready: set<Fd>, room: nat, got: seq<Fd>): seq<Fd>
    decreases |answers|
  {
    if |got| >= room || answers == [] || answers[0] < 0 || answers[0] !in ready || answers[0] in got then got
    else Chosen(answers[1..], ready, room, got + [answers[0]])
  }

  // ---- the machine ----------------------------------------------------------------------------

  class Machine {
    var sys: State
    var threads: seq<TaskThread>
    var schedule: seq<seq<Action>>  // what everybody else does at the successive preemption points
    var answers: seq<int>           // what recvn, sendn, epoll_ctl and the like return, in order
    ghost var trace: seq<Action>    // everything that has happened

    ghost predicate Coupled(ws: seq<Worker>)
      reads this, threads
    {
      |ws| == |threads| && forall i | 0 <= i < |threads| :: threads[i].activeConns == ws[i].counter
    }

    ghost predicate Wired()
      reads this, threads
    {
      forall i | 0 <= i < |threads| :: threads[i].machine == this && threads[i].id == i
    }

    ghost predicate IsHistory()
      reads this
    {
      var s0 := Init(|threads|, sys.maxclients, sys.maxevents);
      |threads| >= 2 && IsRun(s0, trace) && Run(s0, trace) == sys
    }

    ghost predicate Valid()
      reads this, threads
    {
      Wired() && Coupled(sys.ws) && IsHistory()
    }

    /** InitTaskThread: n workers with empty epolls and zero counters. */
    constructor (n: nat, maxclients: nat, limit: int, schedule: seq<seq<Action>>, answers: seq<int>)
      requires n >= 2 && Capacity.GetWorkerCapacity(limit, n) >= 0
      ensures Valid() && fresh(threads) && |threads| == n && this.schedule == schedule && this.answers == answers
      ensures sys == Init(n, maxclients, Capacity.GetWorkerCapacity(limit, n)) && trace == []
      ensures forall i | 0 <= i < n :: threads[i].events.Length == sys.maxevents
    {
      var capacity := Capacity.GetWorkerCapacity(limit, n);
      this.sys := Init(n, maxclients, capacity);
      this.threads := [];
      this.schedule := schedule;
      this.answers := answers;
      this.trace := [];
      new;
      var i := 0;
      while i < n
        invariant i == |threads| <= n && fresh(threads)
        invariant sys == Init(n, maxclients, capacity) && trace == []
        invariant this.schedule == schedule && this.answers == answers
        invariant forall j | 0 <= j < i :: threads[j].machine == this && threads[j].id == j && threads[j].activeConns == 0
        invariant forall j | 0 <= j < i :: threads[j].events.Length == capacity
        modifies this
      {
        var t := new TaskThread(this, i, capacity);
        threads := threads + [t];
        i := i + 1;
      }
    }

    lemma Extend(acts: seq<Action>)
      requires IsHistory() && IsRun(sys, acts)
      ensures var s0 := Init(|threads|, sys.maxclients, sys.maxevents);
              IsRun(s0, trace + acts) && Run(s0, trace + acts) == Run(sys, acts)
    {
      RunAppend(Init(|threads|, sys.maxclients, sys.maxevents), trace, acts);
    }

    lemma IsReachable()
      requires IsHistory()
      ensures Safety.Reachable(sys)
    {
    }

    /** So every theorem of Safety holds of the machine; the load bound, on the counters themselves: */
    lemma ShareKept(w: nat)
      requires Valid() && w < |threads|
      ensures threads[w].activeConns <= Safety.Dispatch.Share(sys.maxclients, |threads|)
      ensures |sys.ws[w].interest| <= Safety.Dispatch.Share(sys.maxclients, |threads|)
    {
      IsReachable();
      Safety.LoadBound(sys, w);
    }

    /** Every counter is within its share. */
    ghost predicate Balanced()
      requires threads != []
      reads this, threads
    {
      forall w | 0 <= w < |threads| :: threads[w].activeConns <= Safety.Dispatch.Share(sys.maxclients, |threads|)
    }

    lemma SharesKept()
      requires Valid()
      ensures Balanced()
    {
      forall w | 0 <= w < |threads| ensures threads[w].activeConns <= Safety.Dispatch.Share(sys.maxclients, |threads|) {
        ShareKept(w);
      }
    }

    /** The calling thread performs `a`; counters it writes have been written. */
    method Do(a: Action)
      requires Wired() && IsHistory() && Enabled(sys, a) && Coupled(Next(sys, a).ws)
      modifies this`sys, this`trace
      ensures Valid() && sys == Next(old(sys), a) && trace == old(trace) + [a]
    {
      Extend([a]);
      assert Run(sys, [a]) == Next(sys, a);
      trace := trace + [a];
      sys := Next(sys, a);
    }

    /** Others move: one entry of the schedule, without moves of the calling thread and without impossible moves. */
    method Interfere(me: Thread) returns (ghost acts: seq<Action>)
      requires Valid()
      modifies this`sys, this`trace, this`schedule, threads
      ensures Valid()
      ensures Moved(me, old(sys), old(trace), acts, sys, trace)
    {
      var todo := if schedule == [] then [] else schedule[0];
      schedule := if schedule == [] then [] else schedule[1..];
      acts := LetMoves(me, todo);
    }

    /** The moves of `todo` that are possible, in order. */
    method LetMoves(me: Thread, todo: seq<Action>) returns (ghost acts: seq<Action>)
      requires Valid()
      modifies this`sys, this`trace, threads
      ensures Valid()
      ensures Moved(me, old(sys), old(trace), acts, sys, trace)
      decreases |todo|
    {
      acts := [];
      if todo != [] {
        acts := LetMove(me, todo[0]);
        ghost var s1, trace1 := sys, trace;
        ghost var rest := LetMoves(me, todo[1..]);
        ThenMoved(me, old(sys), old(trace), acts, s1, trace1, rest, sys, trace);
        acts := acts + rest;
      }
    }

    /** One move of the schedule, unless it is the caller's or impossible. */
    method LetMove(me: Thread, a: Action) returns (ghost acts: seq<Action>)
      requires Valid()
      modifies this`sys, this`trace, threads
      ensures Valid()
      ensures Moved(me, old(sys), old(trace), acts, sys, trace)
      ensures acts == if Enabled(old(sys), a) && ThreadOf(a) != me then [a] else []
    {
      acts := [];
      if Enabled(sys, a) && ThreadOf(a) != me {
        RunPush(sys, [], a);
        LetDo(a);
        acts := [a];
        assert [] + [a] == acts;
      }
    }

    method LetDo(a: Action)
      requires Valid() && Enabled(sys, a)
      modifies this`sys, this`trace, threads
      ensures Valid() && sys == Next(old(sys), a) && trace == old(trace) + [a]
    {
      SetCounters(Next(sys, a).ws);
      Do(a);
    }

    /** The shared counters take the values the others have just written. */
    method SetCounters(ws: seq<Worker>)
      requires Wired() && |ws| == |threads|
      modifies threads
      ensures Coupled(ws) && Wired()
    {
      forall i | 0 <= i < |threads| {
        threads[i].activeConns := ws[i].counter;
      }
    }

    /** What the kernel will answer next; any int at all. */
    function Upcoming(): int
      reads this
    {
      if answers == [] then -1 else answers[0]
    }

    method Answer() returns (r: int)
      modifies this`answers
      ensures r == old(Upcoming()) && answers == if old(answers) == [] then [] else old(answers)[1..]
    {
      if answers == [] {
        return -1;
      }
      r := answers[0];
      answers := answers[1..];
    }
  }

  // ---- the listener ---------------------------------------------------------------------------

  class ListenThread {
    const machine: Machine

    constructor (machine: Machine)
      ensures this.machine == machine
    {
      this.machine := machine;
    }

    /** Interference, from where the listener stands. */
    method Pause()
      requires machine.Valid()
      modifies machine`sys, machine`trace, machine`schedule, machine.threads
      ensures machine.Valid() && ListenerUntouched(old(machine.sys), machine.sys)
    {
      ghost var acts := machine.Interfere(ListenerThread);
      ForeignToListener(old(machine.sys), acts);
    }

    /** activeConns += m_taskthread[i]->GetActiveConns() */
    method ReadForSum(i: nat) returns (c: int)
      requires machine.Valid() && i < |machine.threads|
      requires machine.sys.lis.Scanning? && !machine.sys.lis.summed && machine.sys.lis.i == i
      modifies machine`sys, machine`trace, machine`schedule, machine.threads
      ensures machine.Valid()
      ensures ListenerUntouched(old(machine.sys), machine.sys.(lis := old(machine.sys.lis)))
      ensures machine.sys.lis == old(machine.sys.lis).(activeConns := old(machine.sys.lis.activeConns) + c, summed := true)
    {
      Pause();
      c := machine.threads[i].GetActiveConns();
      machine.Do(ReadSum);
    }

    /** The left operand of the comparison. */
    method ReadCandidate(i: nat) returns (c: int)
      requires machine.Valid() && i < |machine.threads|
      requires machine.sys.lis.Scanning? && machine.sys.lis.summed && machine.sys.lis.left.None? && machine.sys.lis.i == i
      modifies machine`sys, machine`trace, machine`schedule, machine.threads
      ensures machine.Valid()
      ensures ListenerUntouched(old(machine.sys), machine.sys.(lis := old(machine.sys.lis)))
      ensures machine.sys.lis == old(machine.sys.lis).(left := Some(c))
    {
      Pause();
      c := machine.threads[i].GetActiveConns();
      machine.Do(ReadLeft);
    }

    /** The right operand of the comparison. */
    method ReadTarget(target: nat) returns (c: int)
      requires machine.Valid() && target < |machine.threads|
      requires machine.sys.lis.Scanning? && machine.sys.lis.summed && machine.sys.lis.right.None? && machine.sys.lis.target == target
      modifies machine`sys, machine`trace, machine`schedule, machine.threads
      ensures machine.Valid()
      ensures ListenerUntouched(old(machine.sys), machine.sys.(lis := old(machine.sys.lis)))
      ensures machine.sys.lis == old(machine.sys.lis).(right := Some(c))
    {
      Pause();
      c := machine.threads[target].GetActiveConns();
      machine.Do(ReadRight);
    }

    /** One iteration of the scan. */
    method Visit(i: nat, target0: nat, activeConns0: int) returns (target: nat, activeConns: int)
      requires machine.Valid() && i < |machine.threads| && target0 < |machine.threads|
      requires AtHead(machine.sys.lis, i, target0, activeConns0)
      modifies machine`sys, machine`trace, machine`schedule, machine.threads
      ensures machine.Valid() && target < |machine.threads|
      ensures ListenerUntouched(old(machine.sys), machine.sys.(lis := old(machine.sys.lis)))
      ensures AtHead(machine.sys.lis, i + 1, target, activeConns) && SameScan(old(machine.sys.lis), machine.sys.lis)
    {
      target := target0;
      var c := ReadForSum(i);
      activeConns := activeConns0 + c;
      var left, right;
      if * {                        // the order of evaluation is the compiler's
        left := ReadCandidate(i);
        right := ReadTarget(target);
      } else {
        right := ReadTarget(target);
        left := ReadCandidate(i);
      }
      if left < right {
        target := i;
      }
      machine.Do(Compare);
    }

    /** The listener is at the head of the loop with these locals. */
    static predicate AtHead(l: Listener, i: nat, target: nat, activeConns: int) {
      && l.Scanning? && l.i == i && l.target == target && l.activeConns == activeConns
      && !l.summed && l.left.None? && l.right.None?
    }

    static predicate SameScan(l: Listener, l': Listener) {
      l.Scanning? && l'.Scanning? && l'.fd == l.fd && l'.inc == l.inc && l'.start == l.start
    }

    /** The loop of AssignTask. */
    method Scan() returns (target: nat, activeConns: int)
      requires machine.Valid() && AtHead(machine.sys.lis, 0, 1, 1)
      modifies machine`sys, machine`trace, machine`schedule, machine.threads
      ensures machine.Valid() && target < |machine.threads|
      ensures ListenerUntouched(old(machine.sys), machine.sys.(lis := old(machine.sys.lis)))
      ensures AtHead(machine.sys.lis, |machine.threads|, target, activeConns)
      ensures SameScan(old(machine.sys.lis), machine.sys.lis)
      ensures ScanOver(machine.sys) && machine.sys.lis.inc !in machine.sys.hist.placed
      ensures forall j | 0 <= j < |machine.threads| :: machine.threads[target].activeConns <= machine.sys.lis.compared[j]
    {
      target := 1;
      activeConns := 1;
      var i := 0;
      while i < |machine.threads|
        invariant machine.Valid() && i <= |machine.threads| && target < |machine.threads|
        invariant ListenerUntouched(old(machine.sys), machine.sys.(lis := old(machine.sys.lis)))
        invariant AtHead(machine.sys.lis, i, target, activeConns) && SameScan(old(machine.sys.lis), machine.sys.lis)
      {
        target, activeConns := Visit(i, target, activeConns);
        i := i + 1;
      }
      machine.IsReachable();
      AtDecision(machine.sys);
    }

    /** close(sockfd) of a connection beyond the limit. */
    method Reject()
      requires machine.Valid() && machine.sys.lis.Rejecting?
      modifies machine, machine.threads
      ensures machine.Valid() && machine.threads == old(machine.threads) && machine.sys.lis.Idle?
      ensures old(machine.sys.lis.fd) !in machine.sys.open && Closing(old(machine.sys.lis.inc), ByListener) in machine.sys.hist.closes
      ensures var h, h' := old(machine.sys.hist), machine.sys.hist;
              && h'.rejected == h.rejected + 1 && h'.addFailed == h.addFailed && h'.increments == h.increments
              && h'.placed == h.placed && h'.accepted == h.accepted && machine.sys.maxclients == old(machine.sys.maxclients)
    {
      Pause();
      machine.IsReachable();
      AtReject(machine.sys);
      machine.Do(CloseRejected);
    }

    /** i_epoll_add, with the kernel free to refuse. */
    method Register(sockfd: Fd, target: nat) returns (nRet: int)
      requires machine.Valid() && machine.sys.lis.Adding? && machine.sys.lis.fd == sockfd && machine.sys.lis.target == target
      modifies machine, machine.threads
      ensures machine.Valid() && machine.threads == old(machine.threads) && target < |machine.threads|
      ensures nRet == if old(machine.Upcoming()) == 0 then 0 else -1
      ensures var h, h', l := old(machine.sys.hist), machine.sys.hist, old(machine.sys.lis);
              && h'.rejected == h.rejected && h'.increments == h.increments && h'.accepted == h.accepted
              && machine.sys.maxclients == old(machine.sys.maxclients)
              && (nRet == 0 ==> machine.sys.lis == Counting(sockfd, l.inc, target)
                                && h'.addFailed == h.addFailed && h'.placed == h.placed[l.inc := target])
              && (nRet != 0 ==> machine.sys.lis.Idle? && h'.addFailed == h.addFailed + 1 && h'.placed == h.placed
                                && sockfd in machine.sys.open && machine.sys.open[sockfd].inc == l.inc)
    {
      Pause();
      var answer := machine.Answer();
      machine.IsReachable();
      AtAdd(machine.sys);
      nRet := if answer == 0 then 0 else -1;
      assert Counters(Next(machine.sys, Add(nRet == 0)).ws) == Counters(machine.sys.ws);
      machine.Do(Add(nRet == 0));
    }

    method Count(target: nat)
      requires machine.Valid() && machine.sys.lis.Counting? && machine.sys.lis.target == target < |machine.threads|
      modifies machine, machine.threads
      ensures machine.Valid() && machine.threads == old(machine.threads) && machine.sys.lis.Idle?
      ensures var h, h' := old(machine.sys.hist), machine.sys.hist;
              && h'.rejected == h.rejected && h'.addFailed == h.addFailed && h'.increments == h.increments + 1
              && h'.placed == h.placed && h'.accepted == h.accepted && machine.sys.maxclients == old(machine.sys.maxclients)
    {
      Pause();
      machine.threads[target].IncrementActiveConns();
      machine.Do(Increment);
    }

    /**
     AssignTask on a connection that has just been accepted; `at` is the moment the scan is over.
     Exactly one of three things happens: it is rejected and closed, and then all maxclients places
     were taken when it arrived; or it is registered with the chosen worker, which has room, and
     counted; or epoll_ctl fails and it is neither, but left open.
     */
    method AssignTask(sockfd: Fd) returns (ghost at: State)
      requires machine.Valid() && AtHead(machine.sys.lis, 0, 1, 1) && machine.sys.lis.fd == sockfd
      modifies machine, machine.threads
      ensures machine.Valid() && machine.threads == old(machine.threads) && machine.sys.lis.Idle?
      ensures Safety.Reachable(at) && ScanOver(at) && SameScan(old(machine.sys.lis), at.lis) && at.maxclients == old(machine.sys.maxclients)
      ensures Disposed(old(machine.sys), at, machine.sys, old(machine.Upcoming()))
    {
      var target, activeConns := Scan();
      machine.IsReachable();
      at := machine.sys;
      machine.Do(Decide);
      if activeConns > machine.sys.maxclients {
        Reject();
        return;
      }
      var nRet := Register(sockfd, target);
      if nRet == 0 {
        Count(target);
      }
    }

    /**
     How one call of AssignTask changes the books; `s` is the state at the accept, `at` the one at the
     end of the scan, and `answer` what the kernel says if it is asked to register the connection.
     */
    static ghost predicate Disposed(s: State, at: State, s': State, answer: int)
      requires s.lis.Scanning? && at.lis.Scanning?
    {
      var h, h' := s.hist, s'.hist;
      && s.lis.inc !in h.placed && h'.accepted == h.accepted && s'.maxclients == s.maxclients
      && if at.lis.activeConns > at.maxclients then
           h'.rejected == h.rejected + 1 && h'.addFailed == h.addFailed && h'.increments == h.increments && h'.placed == h.placed
           && s.lis.fd !in s'.open && Closing(s.lis.inc, ByListener) in h'.closes
         else if answer != 0 then
           h'.rejected == h.rejected && h'.addFailed == h.addFailed + 1 && h'.increments == h.increments && h'.placed == h.placed
           && s.lis.fd in s'.open && s'.open[s.lis.fd].inc == s.lis.inc
         else
           h'.rejected == h.rejected && h'.addFailed == h.addFailed && h'.increments == h.increments + 1
           && h'.placed == h.placed[s.lis.inc := at.lis.target]
    }

    /** accept() yields a number that is not open: here the first one from `hint` on. */
    method FreeNumber(hint: Fd) returns (fd: Fd)
      ensures fd !in machine.sys.open && hint <= fd && forall n | hint <= n < fd :: n in machine.sys.open
    {
      fd := hint;
      while fd in machine.sys.open
        invariant hint <= fd && forall n | hint <= n < fd :: n in machine.sys.open
        decreases set n | n in machine.sys.open && n >= fd
      {
        ghost var rest := set n | n in machine.sys.open && n >= fd;
        assert fd in rest && rest - {fd} == set n | n in machine.sys.open && n >= fd + 1;
        fd := fd + 1;
      }
    }

    /** What has become of the connections assigned so far, each counted once. */
    static function Assigned(h: History): nat {
      h.rejected + h.addFailed + h.increments
    }

    /** Between s and s' the connections accepted went, one by one, where the counts say. */
    static ghost predicate Served(s: State, s': State, arrived: nat) {
      && s'.hist.accepted == s.hist.accepted + arrived && s'.maxclients == s.maxclients
      && Assigned(s'.hist) == Assigned(s.hist) + arrived
      && |s'.hist.placed| - |s.hist.placed| == s'.hist.increments - s.hist.increments
      && (forall inc | inc in s.hist.placed :: inc in s'.hist.placed && s'.hist.placed[inc] == s.hist.placed[inc])
    }

    lemma NoneYet(s: State)
      ensures Served(s, s, 0)
    {
    }

    lemma OneMore(s0: State, s: State, k: nat, a: State, at: State, s': State, answer: int)
      requires Served(s0, s, k) && a.lis.Scanning? && at.lis.Scanning?
      requires a.hist == s.hist.(accepted := s.hist.accepted + 1, tornDown := a.hist.tornDown, decrements := a.hist.decrements, closes := a.hist.closes)
      requires a.maxclients == s.maxclients && Disposed(a, at, s', answer)
      ensures Served(s0, s', k + 1)
    {
    }

    /** The listener thread, for any arrivals: `shutdown` is seen after the last one. */
    method Run(arrivals: seq<(Fd, Mask)>)
      requires machine.Valid() && machine.sys.lis.Idle?
      modifies machine, machine.threads
      ensures machine.Valid() && machine.sys.lis.Idle? && machine.threads == old(machine.threads)
      ensures Served(old(machine.sys), machine.sys, |arrivals|) && machine.Balanced()
    {
      var k := 0;
      NoneYet(machine.sys);
      while k < |arrivals|
        invariant machine.Valid() && machine.sys.lis.Idle? && machine.threads == old(machine.threads)
        invariant k <= |arrivals| && Served(old(machine.sys), machine.sys, k)
      {
        ServeNext(old(machine.sys), k, arrivals[k]);
        k := k + 1;
      }
      machine.SharesKept();
    }

    /** accept() and AssignTask: the k-th arrival since the state was `s0`. */
    method ServeNext(ghost s0: State, ghost k: nat, arrival: (Fd, Mask))
      requires machine.Valid() && machine.sys.lis.Idle? && Served(s0, machine.sys, k)
      modifies machine, machine.threads
      ensures machine.Valid() && machine.sys.lis.Idle? && machine.threads == old(machine.threads)
      ensures Served(s0, machine.sys, k + 1)
    {
      Pause();
      var sockfd := FreeNumber(arrival.0);
      machine.Do(Accept(sockfd, arrival.1 - {Et}));
      ghost var a, answer := machine.sys, machine.Upcoming();
      ghost var at := AssignTask(sockfd);
      OneMore(s0, old(machine.sys), k, a, at, machine.sys, answer);
    }
  }

  // ---- a worker -------------------------------------------------------------------------------

  class TaskThread {
    const machine: Machine
    const id: nat
    const events: array<EpollEvent>  // m_events
    var activeConns: int             // m_ActiveConns.counter

    constructor (machine: Machine, id: nat, capacity: nat)
      ensures this.machine == machine && this.id == id && activeConns == 0
      ensures fresh(events) && events.Length == capacity
    {
      this.machine := machine;
      this.id := id;
      this.activeConns := 0;
      this.events := new EpollEvent[capacity](_ => EpollEvent(0, {}));
    }

    method GetActiveConns() returns (c: int)
      ensures c == activeConns
    {
      c := activeConns;
    }

    method IncrementActiveConns()
      modifies this`activeConns
      ensures activeConns == old(activeConns) + 1
    {
      activeConns := activeConns + 1;
    }

    /** This worker is wired into a valid machine. */
    ghost predicate Valid()
      reads this, machine, machine.threads
    {
      machine.Valid() && id < |machine.threads| && machine.threads[id] == this
      && events.Length == machine.sys.maxevents
    }

    /** The worker as the system sees it. */
    ghost function Me(): Worker
      requires id < |machine.sys.ws|
      reads this, machine
    {
      machine.sys.ws[id]
    }

    /** Interference, from where this worker stands. */
    method Pause()
      requires Valid()
      modifies machine`sys, machine`trace, machine`schedule, machine.threads
      ensures Valid() && WorkerUntouched(old(Me()), Me())
      ensures old(machine.sys.hist.closes) <= machine.sys.hist.closes
    {
      ghost var acts := machine.Interfere(WorkerThread(id));
      ForeignToWorker(old(machine.sys), acts, id);
    }

    /** The next step of this worker; `ok` is what the kernel said where it is asked something. */
    method Move(ok: bool)
      requires Valid() && Enabled(machine.sys, Advance(id, ok)) && !Me().pc.Decrement?
      modifies machine`sys, machine`trace
      ensures Valid() && Me() == Turn(old(Me()), old(machine.sys.open), ok)
      ensures old(machine.sys.hist.closes) <= machine.sys.hist.closes
      ensures old(Me().pc.CloseFd?) ==> Closing(old(Me().cur.inc), ByWorker(id)) in machine.sys.hist.closes
    {
      machine.IsReachable();
      AtMove(machine.sys, id, ok);
      machine.Do(Advance(id, ok));
    }

    /** Which queued descriptors the kernel reports this time, and in which order. */
    method Pick() returns (fds: seq<Fd>)
      requires Valid()
      modifies machine`answers
      ensures Valid() && Distinct(fds) && |fds| <= events.Length && forall fd | fd in fds :: fd in Me().ready
      ensures fds == Chosen(old(machine.answers), Me().ready, events.Length, [])
    {
      fds := [];
      var more := true;
      while more && |fds| < events.Length
        invariant Valid() && Distinct(fds) && |fds| <= events.Length && forall fd | fd in fds :: fd in Me().ready
        invariant Me() == old(Me())
        invariant Chosen(old(machine.answers), Me().ready, events.Length, []) ==
                    if more then Chosen(machine.answers, Me().ready, events.Length, fds) else fds
        decreases more, events.Length - |fds|
      {
        var fd := machine.Answer();
        more := fd >= 0 && fd in machine.sys.ws[id].ready && fd !in fds;
        if more {
          fds := fds + [fd];
        }
      }
    }

    /** epoll_wait: fills m_events with up to m_maxevents reports. */
    method EpollWait() returns (num: nat)
      requires Valid() && Me().pc.Top? && Me().batch == []
      modifies machine, machine.threads, events
      ensures Valid() && machine.threads == old(machine.threads)
      ensures Me().pc.Top? && Me().nRet == old(Me().nRet) && Me().polls == old(Me().polls) + 1
      ensures Me().reported == old(Me().reported) + Me().batch
      ensures num <= events.Length && events[..num] == Visible(Me().batch)
    {
      Pause();
      var fds := Pick();
      AtWait(machine.sys, id, fds);
      machine.Do(Wait(id, fds));
      var batch := Visible(machine.sys.ws[id].batch);
      num := |batch|;
      forall k | 0 <= k < num {
        events[k] := batch[k];
      }
    }

    // ---- the handlers -------------------------------------------------------------------------

    /** i_epoll_change_mode; whatever it returns is ignored by the handlers. */
    method ChangeMode(sockfd: Fd, mode: Mode)
      requires Valid() && Me().cur.fd == sockfd
      requires (Me().pc.ArmWrite? && mode == Write) || (Me().pc.ArmRead? && mode == Read)
      modifies machine, machine.threads
      ensures Stepped(old(machine.threads), old(Me()), old(machine.sys.hist.closes))
      ensures Me().rearmed && Me().nRet == 0 && Me().failed == old(Me().failed)
      ensures Me().pc == (if old(Me().pc.ArmWrite?) then TestOut else TestErr)
      ensures Armed(Me(), sockfd, mode, old(machine.Upcoming()) == 0)
    {
      Pause();
      var answer := machine.Answer();
      machine.IsReachable();
      Safety.ModeChangeIsPossible(machine.sys, id);
      RearmEffect(machine.sys.ws[id], machine.sys.open, answer == 0);
      Move(answer == 0);
    }

    /** Still the same worker handling the same event of the same batch; nothing is ever un-closed. */
    ghost predicate Stepped(threads: seq<TaskThread>, t: Worker, closes: seq<Closing>)
      reads this, machine, machine.threads
    {
      Valid() && machine.threads == threads && Me().cur == t.cur && Me().batch == t.batch
      && Me().polls == t.polls && Me().reported == t.reported
      && closes <= machine.sys.hist.closes
    }

    /** The transfer has gone well: on to the mode change. */
    method Succeed(sockfd: Fd, mode: Mode)
      requires Valid() && Me().cur.fd == sockfd
      requires (Me().pc.TestIn? && In in Me().cur.flags && mode == Write) || (Me().pc.TestOut? && Out in Me().cur.flags && mode == Read)
      modifies machine, machine.threads
      ensures Stepped(old(machine.threads), old(Me()), old(machine.sys.hist.closes))
      ensures Me().rearmed && Me().nRet == 0 && Me().failed == old(Me().failed)
      ensures Me().pc == (if old(Me().pc.TestIn?) then TestOut else TestErr)
    {
      Move(true);
      ChangeMode(sockfd, mode);
    }

    /** TaskThread::iRead */
    method IRead(sockfd: Fd) returns (nRet: int)
      requires Valid() && Me().pc.TestIn? && Me().cur.fd == sockfd && In in Me().cur.flags
      modifies machine, machine.threads
      ensures Stepped(old(machine.threads), old(Me()), old(machine.sys.hist.closes))
      ensures Me().pc.TestOut? && Me().nRet == nRet == (if old(machine.Upcoming()) > 0 then 0 else -1)
      ensures Me().failed == (nRet < 0 || old(Me().failed)) && Me().rearmed == (nRet == 0 || old(Me().rearmed))
    {
      Pause();
      var bytes := machine.Answer();          // recvn
      if bytes <= 0 {
        Move(false);
        return -1;
      }
      Succeed(sockfd, Write);
      return 0;
    }

    /** TaskThread::iWrite */
    method IWrite(sockfd: Fd) returns (nRet: int)
      requires Valid() && Me().pc.TestOut? && Me().cur.fd == sockfd && Out in Me().cur.flags
      modifies machine, machine.threads
      ensures Stepped(old(machine.threads), old(Me()), old(machine.sys.hist.closes))
      ensures Me().pc.TestErr? && Me().nRet == nRet == (if old(machine.Upcoming()) > 0 then 0 else -1)
      ensures Me().failed == (nRet < 0 || old(Me().failed)) && Me().rearmed == (nRet == 0 || old(Me().rearmed))
    {
      Pause();
      var bytes := machine.Answer();          // sendn
      if bytes <= 0 {
        Move(false);
        return -1;
      }
      Succeed(sockfd, Read);
      return 0;
    }

    /** TaskThread::iError */
    method IError(sockfd: Fd) returns (nRet: int)
      ensures nRet == -1
    {
      return -1;
    }

    /** TaskThread::iClose: unregister, close, and only then decrement. */
    method IClose(sockfd: Fd)
      requires Valid() && Me().pc.Unregister? && Me().cur.fd == sockfd
      modifies machine, machine.threads
      ensures Stepped(old(machine.threads), old(Me()), old(machine.sys.hist.closes))
      ensures Me().pc.Top? && Me().nRet == old(Me().nRet) && Me().failed == old(Me().failed)
      ensures Closing(old(Me().cur.inc), ByWorker(id)) in machine.sys.hist.closes
      ensures forall w, fd | 0 <= w < |machine.sys.ws| && fd in machine.sys.ws[w].interest ::
                machine.sys.ws[w].interest[fd].inc != old(Me().cur.inc)
      ensures activeConns == |Me().interest| - Accounting.Uncounted(machine.sys.lis, id)
    {
      ShutDown();
      AtomicDec();
      Gone(old(Me().cur.inc));
    }

    /** iClose up to the decrement. */
    method ShutDown()
      requires Valid() && Me().pc.Unregister?
      modifies machine, machine.threads
      ensures Stepped(old(machine.threads), old(Me()), old(machine.sys.hist.closes))
      ensures Me().pc.Decrement? && Me().nRet == old(Me().nRet) && Me().failed == old(Me().failed)
      ensures Closing(old(Me().cur.inc), ByWorker(id)) in machine.sys.hist.closes
    {
      Unregister();
      CloseFile();
      Pause();
    }

    /** Once closed by this worker, a connection is registered nowhere, and the counter is exact again. */
    lemma Gone(inc: nat)
      requires Valid() && Me().pc.Top? && Closing(inc, ByWorker(id)) in machine.sys.hist.closes
      ensures forall w, fd | 0 <= w < |machine.sys.ws| && fd in machine.sys.ws[w].interest ::
                machine.sys.ws[w].interest[fd].inc != inc
      ensures activeConns == |Me().interest| - Accounting.Uncounted(machine.sys.lis, id)
    {
      machine.IsReachable();
      AfterClose(machine.sys, id, inc);
    }

    /** i_epoll_del */
    method Unregister()
      requires Valid() && Me().pc.Unregister?
      modifies machine, machine.threads
      ensures Stepped(old(machine.threads), old(Me()), old(machine.sys.hist.closes))
      ensures Me().pc.CloseFd? && Me().nRet == old(Me().nRet) && Me().failed == old(Me().failed)
    {
      Pause();
      Move(true);
    }

    /** close(sockfd) */
    method CloseFile()
      requires Valid() && Me().pc.CloseFd?
      modifies machine, machine.threads
      ensures Stepped(old(machine.threads), old(Me()), old(machine.sys.hist.closes))
      ensures Me().pc.Decrement? && Me().nRet == old(Me().nRet) && Me().failed == old(Me().failed)
      ensures Closing(old(Me().cur.inc), ByWorker(id)) in machine.sys.hist.closes
    {
      Pause();
      Move(true);
    }

    method AtomicDec()
      requires Valid() && Me().pc.Decrement?
      modifies this`activeConns, machine`sys, machine`trace
      ensures Valid() && Me() == Turn(old(Me()), old(machine.sys.open), true)
      ensures activeConns == old(activeConns) - 1
      ensures old(machine.sys.hist.closes) <= machine.sys.hist.closes
    {
      machine.IsReachable();
      AtMove(machine.sys, id, true);
      activeConns := activeConns - 1;
      machine.Do(Advance(id, true));
    }

    // ---- the event loop -----------------------------------------------------------------------

    /** The tests and handlers of one event of i_epoll_wait, up to the decision. */
    method CallHandlers(ev: EpollEvent, before: int) returns (nRet: int, ghost readOk: bool, ghost writeOk: bool)
      requires Valid() && Me().pc.TestIn? && Me().nRet == before
      requires ev == EpollEvent(Me().cur.fd, Me().cur.flags)
      modifies machine, machine.threads
      ensures Stepped(old(machine.threads), old(Me()), old(machine.sys.hist.closes))
      ensures Me().nRet == nRet && (Me().pc.Unregister? <==> nRet < 0) && (Me().pc.Top? <==> nRet >= 0)
      ensures (nRet < 0 <==> Me().failed) && (nRet >= 0 ==> Me().rearmed && Modes.TurnedRound(Me()))
      ensures nRet == HandlerChain(before, ev.events, readOk, writeOk)
      ensures In in ev.events ==> readOk == (old(machine.Upcoming()) > 0)
      ensures In !in ev.events && Out in ev.events ==> writeOk == (old(machine.Upcoming()) > 0)
    {
      nRet, readOk := TestForInput(ev, before);
      nRet, writeOk := TestForOutput(ev, nRet);
      nRet := TestForTrouble(ev, nRet);
    }

    /** The last test, after which nRet decides. */
    method TestForTrouble(ev: EpollEvent, before: int) returns (nRet: int)
      requires Valid() && Me().pc.TestErr? && Me().nRet == before
      requires ev == EpollEvent(Me().cur.fd, Me().cur.flags)
      modifies machine, machine.threads
      ensures Stepped(old(machine.threads), old(Me()), old(machine.sys.hist.closes))
      ensures Me().nRet == nRet == (if ev.events * Troubles != {} then -1 else before)
      ensures (Me().pc.Unregister? <==> nRet < 0) && (Me().pc.Top? <==> nRet >= 0)
      ensures (nRet < 0 <==> Me().failed) && (nRet >= 0 ==> Me().rearmed && Modes.TurnedRound(Me()))
    {
      nRet := before;
      if ev.events * Troubles != {} {
        nRet := IError(ev.fd);
      }
      machine.IsReachable();
      AtTestErr(machine.sys, id, true);
      Move(true);
    }

    method TestForInput(ev: EpollEvent, before: int) returns (nRet: int, ghost ok: bool)
      requires Valid() && Me().pc.TestIn? && Me().nRet == before
      requires ev == EpollEvent(Me().cur.fd, Me().cur.flags)
      modifies machine, machine.threads
      ensures Stepped(old(machine.threads), old(Me()), old(machine.sys.hist.closes))
      ensures Me().pc.TestOut? && Me().nRet == nRet == (if In in ev.events then (if ok then 0 else -1) else before)
      ensures In in ev.events ==> ok == (old(machine.Upcoming()) > 0)
      ensures In !in ev.events ==> machine.Upcoming() == old(machine.Upcoming())
    {
      nRet, ok := before, machine.Upcoming() > 0;
      if In in ev.events {
        nRet := IRead(ev.fd);
      } else {
        Move(true);
      }
    }

    method TestForOutput(ev: EpollEvent, before: int) returns (nRet: int, ghost ok: bool)
      requires Valid() && Me().pc.TestOut? && Me().nRet == before
      requires ev == EpollEvent(Me().cur.fd, Me().cur.flags)
      modifies machine, machine.threads
      ensures Stepped(old(machine.threads), old(Me()), old(machine.sys.hist.closes))
      ensures Me().pc.TestErr? && Me().nRet == nRet == (if Out in ev.events then (if ok then 0 else -1) else before)
      ensures Out in ev.events ==> ok == (old(machine.Upcoming()) > 0)
    {
      nRet, ok := before, machine.Upcoming() > 0;
      if Out in ev.events {
        nRet := IWrite(ev.fd);
      } else {
        Move(true);
      }
    }

    /**
     One event of a batch: afterwards either a handler of this event had failed and this worker has
     closed this very connection, or none had and the connection is armed the other way round, unless
     the kernel has refused that.
     */
    method HandleEvent(ev: EpollEvent, before: int) returns (nRet: int)
      requires Valid() && Me().pc.Top? && Me().nRet == before && Me().batch != []
      requires ev == Visible(Me().batch)[0]
      modifies machine, machine.threads
      ensures Valid() && machine.threads == old(machine.threads)
      ensures Me().pc.Top? && Me().nRet == nRet && Me().batch == old(Me().batch[1..])
      ensures Me().cur == old(Me().batch[0]) && Me().polls == old(Me().polls) && Me().reported == old(Me().reported)
      ensures if Me().failed then Closing(Me().cur.inc, ByWorker(id)) in machine.sys.hist.closes else Modes.TurnedRound(Me())
    {
      Move(true);
      ghost var readOk, writeOk;
      nRet, readOk, writeOk := CallHandlers(ev, before);
      if nRet < 0 {
        IClose(ev.fd);
      }
    }

    /**
     i_epoll_wait; `shutdown` is seen after `rounds` batches.  By then every event reported has been
     dealt with, in order: its connection has been closed by this worker or re-armed, or the mode change
     has failed; and every connection is armed for what its re-armed events, taken in turn, call for.
     */
    method IEpollWait(rounds: nat)
      requires Valid() && Me().pc.Top? && Me().batch == [] && Me().nRet == -1
      modifies machine, machine.threads, events
      ensures Valid() && machine.threads == old(machine.threads) && Me().pc.Top? && Me().batch == []
      ensures Me().polls == old(Me().polls) + rounds && old(Me().reported) <= Me().reported
      ensures Me().reported == Batches.Events(Me().done)
      ensures forall i | 0 <= i < |Me().done| :: Batches.EndedWell(Me().done[i], id, machine.sys.hist.closes)
      ensures InTurn(Me())
    {
      var nRet := -1;
      var r := 0;
      while r < rounds
        invariant Valid() && machine.threads == old(machine.threads)
        invariant Me().pc.Top? && Me().batch == [] && Me().nRet == nRet && r <= rounds && Me().polls == old(Me().polls) + r
        invariant old(Me().reported) <= Me().reported
      {
        nRet := ServeBatch(nRet);
        r := r + 1;
      }
      machine.IsReachable();
      BetweenBatches(machine.sys, id);
    }

    /** One call of epoll_wait and the loop over what it reports. */
    method ServeBatch(before: int) returns (nRet: int)
      requires Valid() && Me().pc.Top? && Me().batch == [] && Me().nRet == before
      modifies machine, machine.threads, events
      ensures Valid() && machine.threads == old(machine.threads) && Me().pc.Top? && Me().batch == [] && Me().nRet == nRet
      ensures Me().polls == old(Me().polls) + 1 && old(Me().reported) <= Me().reported
    {
      var num := EpollWait();
      nRet := before;
      var i := 0;
      while i < num
        invariant Valid() && machine.threads == old(machine.threads) && i <= num <= events.Length
        invariant Me().pc.Top? && Me().nRet == nRet && events[i..num] == Visible(Me().batch)
        invariant Me().polls == old(Me().polls) + 1 && old(Me().reported) <= Me().reported
      {
        assert events[i..num][0] == events[i];
        nRet := HandleEvent(events[i], nRet);
        i := i + 1;
      }
    }
  }
}
