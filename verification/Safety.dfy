/** The theorems about the server: what holds in every reachable state and over every run. */
module Safety {
  import opened Epoll
  import opened Server
  import opened Sequences
  import Ownership
  import Accounting
  import Dispatch
  import Decision
  import Wakeups
  import Batches
  import Modes
  import Closures
  import Settings
  import ConfigText
  import Capacity

  ghost predicate Inv(s: State) {
    && Ownership.WellOwned(s)
    && Accounting.Accounted(s)
    && Accounting.Conserved(s)
    && Dispatch.Dispatched(s)
    && Decision.Decided(s)
    && Wakeups.Awake(s)
    && Batches.Settled(s)
    && Modes.Moded(s)
    && Closures.Complete(s)
  }

  lemma InvStart(n: nat, maxclients: nat, maxevents: nat)
    requires n >= 2
    ensures Inv(Init(n, maxclients, maxevents))
  {
    Ownership.Start(n, maxclients, maxevents);
    Accounting.Start(n, maxclients, maxevents);
    Dispatch.Start(n, maxclients, maxevents);
    Decision.Start(n, maxclients, maxevents);
    Wakeups.Start(n, maxclients, maxevents);
    Batches.Start(n, maxclients, maxevents);
    Modes.Start(n, maxclients, maxevents);
    Closures.Start(n, maxclients, maxevents);
  }

  lemma InvStep(s: State, a: Action)
    requires Inv(s) && Enabled(s, a)
    ensures Inv(Next(s, a))
  {
    Ownership.Step(s, a);
    Accounting.Step(s, a);
    Dispatch.Step(s, a);
    Decision.Step(s, a);
    Wakeups.Step(s, a);
    Batches.Step(s, a);
    Modes.Step(s, a);
    Closures.Step(s, a);
  }

  lemma {:induction false} InvRun(s: State, acts: seq<Action>)
    requires Inv(s) && IsRun(s, acts)
    ensures Inv(Run(s, acts))
    decreases |acts|
  {
    if acts != [] {
      InvStep(s, acts[0]);
      InvRun(Next(s, acts[0]), acts[1..]);
    }
  }

  /** The states of all runs, for any interleaving and any behaviour of kernel and peers. */
  ghost predicate Reachable(s: State) {
    exists n: nat, m: nat, e: nat, acts: seq<Action> ::
      n >= 2 && IsRun(Init(n, m, e), acts) && Run(Init(n, m, e), acts) == s
  }

  lemma ReachableInv(s: State)
    requires Reachable(s)
    ensures Inv(s)
  {
    var n: nat, m: nat, e: nat, acts: seq<Action> :|
      n >= 2 && IsRun(Init(n, m, e), acts) && Run(Init(n, m, e), acts) == s;
    InvStart(n, m, e);
    InvRun(Init(n, m, e), acts);
  }

  lemma ReachableOwned(s: State)
    requires Reachable(s)
    ensures Ownership.WellOwned(s)
  {
    ReachableInv(s);
  }

  lemma ReachableAccounted(s: State)
    requires Reachable(s)
    ensures Accounting.Accounted(s)
  {
    ReachableInv(s);
  }

  lemma ReachableDispatched(s: State)
    requires Reachable(s)
    ensures Dispatch.Dispatched(s)
  {
    ReachableInv(s);
  }

  lemma ReachableDecided(s: State)
    requires Reachable(s)
    ensures Decision.Decided(s)
  {
    ReachableInv(s);
  }

  lemma ReachableModed(s: State)
    requires Reachable(s)
    ensures Modes.Moded(s)
  {
    ReachableInv(s);
  }

  // ---- load and admission ---------------------------------------------------------------------

  ghost predicate TargetStuckAtOne(s: State) {
    s.lis.Scanning? ==> s.lis.target == 1 && s.lis.right.None?
  }

  lemma {:induction false} NoSecondWorker(s: State, acts: seq<Action>)
    requires |s.ws| < 2 && TargetStuckAtOne(s) && IsRun(s, acts)
    ensures TargetStuckAtOne(Run(s, acts))
    decreases |acts|
  {
    if acts != [] {
      NoSecondWorker(Next(s, acts[0]), acts[1..]);
    }
  }

  /**
   `target` starts out as 1, so the scan's reads of m_taskthread[target] are in range exactly if
   there are at least two workers; the configuration file may ask for one.
   */
  lemma TargetInRangeIffTwoWorkers(n: nat, maxclients: nat, maxevents: nat, acts: seq<Action>)
    requires IsRun(Init(n, maxclients, maxevents), acts) && Run(Init(n, maxclients, maxevents), acts).lis.Scanning?
    ensures Run(Init(n, maxclients, maxevents), acts).lis.target < n <==> n >= 2
  {
    if n >= 2 {
      InvStart(n, maxclients, maxevents);
      InvRun(Init(n, maxclients, maxevents), acts);
      FixedParameters(Init(n, maxclients, maxevents), acts);
    } else {
      NoSecondWorker(Init(n, maxclients, maxevents), acts);
    }
  }

  /**
   The failing input: a configuration with one thread is accepted, and then the first connection sets
   the scan going with `target` past the end.
   */
  lemma OneThreadOverruns(g: ConfigText.Settings, env: ConfigText.Env, maxclients: nat, maxevents: nat, fd: Fd)
    ensures ConfigText.Load(g, Settings.Render(g.(maxthreads := 1), [Settings.Field(Settings.MaxThreads)]), env) == (g.(maxthreads := 1), 0)
    ensures var acts := [Accept(fd, {})];
            && IsRun(Init(1, maxclients, maxevents), acts)
            && var s := Run(Init(1, maxclients, maxevents), acts); s.lis.Scanning? && |s.ws| == 1 && s.lis.target == 1
  {
    Settings.RenderedIsLoaded(g, g.(maxthreads := 1), [Settings.Field(Settings.MaxThreads)], env);
    RunPush(Init(1, maxclients, maxevents), [], Accept(fd, {}));
    assert [] + [Accept(fd, {})] == [Accept(fd, {})];
  }

  /** No worker ever counts or holds more than its share, ceil(maxclients / n). */
  lemma LoadBound(s: State, w: nat)
    requires Reachable(s) && w < |s.ws|
    ensures s.ws[w].counter <= Dispatch.Share(s.maxclients, |s.ws|)
    ensures |s.ws[w].interest| <= Dispatch.Share(s.maxclients, |s.ws|)
  {
    ReachableAccounted(s);
    ReachableDispatched(s);
    Accounting.RegisteredAt(s, w);
    assert Counters(s.ws)[w] == s.ws[w].counter;
  }

  /** Neither the counters nor the registered connections ever add up to more than maxclients. */
  lemma NeverOverAdmits(s: State)
    requires Reachable(s)
    ensures Sum(Counters(s.ws)) <= s.maxclients
    ensures Sum(Accounting.Registrations(s.ws)) <= s.maxclients
  {
    ReachableAccounted(s);
    ReachableDispatched(s);
    Accounting.CountedTotals(s);
  }

  lemma {:induction false} ScanGoesOn(s: State, acts: seq<Action>)
    requires IsRun(s, acts) && s.lis.Scanning? && Decide !in acts
    ensures var l := Run(s, acts).lis; l.Scanning? && l.fd == s.lis.fd && l.inc == s.lis.inc && l.start == s.lis.start
    ensures Run(s, acts).maxclients == s.maxclients
    decreases |acts|
  {
    if acts != [] {
      ScanGoesOn(Next(s, acts[0]), acts[1..]);
    }
  }

  /**
   The admission test takes effect at a single moment although it reads n counters one by one:
   an admission at the end of the scan, a rejection at the moment the connection was accepted.
   `s0` is the state that moment, `acts` everything all threads do until the listener decides.
   */
  lemma AdmissionLinearises(s0: State, fd: Fd, level: Mask, acts: seq<Action>)
    requires Reachable(s0) && Enabled(s0, Accept(fd, level))
    requires IsRun(Next(s0, Accept(fd, level)), acts) && Decide !in acts
    requires Enabled(Run(Next(s0, Accept(fd, level)), acts), Decide)
    ensures var s := Run(Next(s0, Accept(fd, level)), acts);
            var l := Next(s, Decide).lis;
            && (l.Adding? || l.Rejecting?) && l.fd == fd && l.inc == s0.hist.accepted
            && (l.Adding? ==> Sum(Counters(s.ws)) < s.maxclients)
            && (l.Rejecting? ==> Sum(Counters(s0.ws)) == s.maxclients)
  {
    var s1 := Next(s0, Accept(fd, level));
    ReachableInv(s0);
    InvStep(s0, Accept(fd, level));
    InvRun(s1, acts);
    ScanGoesOn(s1, acts);
    var s := Run(s1, acts);
    Dispatch.ScanEnd(s.lis, Counters(s.ws), s.maxclients);
  }

  /**
   The racing least-loaded choice: when the scan is over, the chosen worker's live counter is at
   most the value that was compared for every worker, and the sum variable has not overflowed
   maxclients by more than one.
   */
  lemma ChoiceIsLeastLoaded(s: State, j: nat)
    requires Reachable(s) && Enabled(s, Decide) && j < |s.ws|
    ensures s.lis.target < |s.ws| && |s.lis.compared| == |s.ws|
    ensures s.ws[s.lis.target].counter <= s.lis.compared[j]
    ensures 1 <= s.lis.activeConns <= s.maxclients + 1
  {
    ReachableDispatched(s);
    Dispatch.ScanEnd(s.lis, Counters(s.ws), s.maxclients);
    ReachableAccounted(s);
    CountersNonNegative(s);
    Dispatch.SumVariableIsPositive(s.lis, Counters(s.ws), s.maxclients);
    assert Counters(s.ws)[s.lis.target] == s.ws[s.lis.target].counter;
  }

  lemma CountersNonNegative(s: State)
    requires Accounting.Accounted(s) && !s.lis.Counting?
    ensures forall w | 0 <= w < |s.ws| :: 0 <= s.ws[w].counter
  {
    forall w | 0 <= w < |s.ws| ensures 0 <= s.ws[w].counter {
      assert Accounting.WorkerAccounts(s.ws[w], w, s.lis);
    }
  }

  // ---- what can always happen -----------------------------------------------------------------

  /** No worker is ever blocked: it can wait, for any choice of the kernel, or go on, with either outcome of the call it is at. */
  lemma WorkersGoOn(s: State, w: nat, fds: seq<Fd>, ok: bool)
    requires Reachable(s) && w < |s.ws|
    ensures if s.ws[w].pc.Top? && s.ws[w].batch == []
            then Distinct(fds) && |fds| <= s.maxevents && (forall fd | fd in fds :: fd in s.ws[w].ready) ==> Enabled(s, Wait(w, fds))
            else Enabled(s, Advance(w, ok))
  {
    if s.ws[w].pc.ArmWrite? || s.ws[w].pc.ArmRead? {
      ModeChangeIsPossible(s, w);
    }
  }

  /** Nor is the listener: any free number may be accepted, every read of the scan is in range, and the kernel may register or refuse. */
  lemma ListenerGoesOn(s: State, fd: Fd, level: Mask, ok: bool)
    requires Reachable(s)
    ensures match s.lis
            case Idle => fd !in s.open && Et !in level ==> Enabled(s, Accept(fd, level))
            case Scanning(_, _, _, _, _, summed, left, right, _, _) =>
              if !summed then Enabled(s, ReadSum) || Enabled(s, Decide)
              else (left.None? ==> Enabled(s, ReadLeft)) && (right.None? ==> Enabled(s, ReadRight))
                   && (left.Some? && right.Some? ==> Enabled(s, Compare))
            case Rejecting(_, _, _) => Enabled(s, CloseRejected)
            case Adding(_, _, _) => Enabled(s, Add(ok))
            case Counting(_, _, _) => Enabled(s, Increment)
  {
    ReachableDispatched(s);
    if s.lis.Adding? {
      ReachableOwned(s);
      Ownership.HeldIsUnregistered(s, s.lis.target);
    }
  }

  /** And conditions come up and go away on any open file at any time. */
  lemma ConditionsChange(s: State, fd: Fd, flags: Mask)
    requires fd in s.open && Et !in flags
    ensures Enabled(s, Rise(fd, flags)) && Next(s, Rise(fd, flags)).open == s.open[fd := File(s.open[fd].inc, s.open[fd].level + flags)]
    ensures Enabled(s, Fall(fd, flags)) && Next(s, Fall(fd, flags)).open == s.open[fd := File(s.open[fd].inc, s.open[fd].level - flags)]
  {
  }

  // ---- accounting -----------------------------------------------------------------------------

  /** A counter is the registered connections, give or take the two windows; it may dip to -1 and no further. */
  lemma ExactAccounting(s: State, w: nat)
    requires Reachable(s) && w < |s.ws|
    ensures var t := s.ws[w];
            && t.counter == |t.interest| + (if t.pc.CloseFd? || t.pc.Decrement? then 1 else 0)
                                         - (if s.lis.Counting? && s.lis.target == w then 1 else 0)
            && -1 <= t.counter
            && (s.lis.Scanning? ==> 0 <= t.counter)
            && (t.pc.Top? && s.lis.Idle? ==> t.counter == |t.interest|)
  {
    ReachableAccounted(s);
    assert Accounting.WorkerAccounts(s.ws[w], w, s.lis);
  }

  /** Every accepted connection is accounted for, and the counters are the increments minus the decrements. */
  lemma Conservation(s: State)
    requires Reachable(s)
    ensures s.hist.accepted == s.hist.rejected + s.hist.addFailed + Sum(Accounting.Registrations(s.ws))
                               + s.hist.tornDown + Sum(Accounting.Closings(s.ws)) + Accounting.Held(s.lis)
    ensures 0 <= Accounting.Held(s.lis) <= 1
    ensures s.hist.increments - s.hist.decrements == Sum(Counters(s.ws))
  {
    ReachableInv(s);
  }

  // ---- ownership ------------------------------------------------------------------------------

  /** Every unprocessed event names a file that is still open and still registered with its worker, and no other one does. */
  lemma EventsAreLive(s: State, w: nat, i: nat)
    requires Reachable(s) && w < |s.ws| && i < |s.ws[w].batch|
    ensures var e := s.ws[w].batch[i];
            && e.fd in s.open && s.open[e.fd].inc == e.inc && Registered(s.ws[w], s.open, e.fd)
            && forall j | 0 <= j < |s.ws[w].batch| && j != i :: e.fd != s.ws[w].batch[j].fd && e.inc != s.ws[w].batch[j].inc
  {
    ReachableOwned(s);
    var t := s.ws[w];
    assert Ownership.WorkerOwns(t, w, s.open, s.hist.placed);
    assert Ownership.Has(t, t.batch[i].fd, t.batch[i].inc);
    forall j | 0 <= j < |t.batch| && j != i
      ensures t.batch[i].fd != t.batch[j].fd && t.batch[i].inc != t.batch[j].inc
    {
      assert Ownership.Has(t, t.batch[j].fd, t.batch[j].inc);
    }
  }

  /**
   No event is dropped: what was reported is what has been dealt with, what is being handled and what is
   left.  Dealt with means closed by this worker, re-armed, or left as it was by a mode change that failed.
   */
  lemma EveryEventSettled(s: State, w: nat)
    requires Reachable(s) && w < |s.ws|
    ensures s.ws[w].reported == Batches.Events(s.ws[w].done) + Batches.Current(s.ws[w]) + s.ws[w].batch
    ensures forall i | 0 <= i < |s.ws[w].done| :: Batches.EndedWell(s.ws[w].done[i], w, s.hist.closes)
  {
    ReachableInv(s);
    assert Batches.WorkerSettles(s.ws[w], w, s.hist.closes);
  }

  /** An incarnation that has been closed is registered nowhere any more, though its number may be. */
  lemma ClosedIsGone(s: State, c: Closing, w: nat, fd: Fd)
    requires Reachable(s) && c in s.hist.closes && w < |s.ws| && fd in s.ws[w].interest
    ensures s.ws[w].interest[fd].inc != c.inc
  {
    ReachableOwned(s);
    assert Ownership.WorkerOwns(s.ws[w], w, s.open, s.hist.placed);
  }

  /** No file is in two interest sets, and what a worker closes is what it was handling. */
  lemma OwnersAreUnique(s: State, v: nat, w: nat)
    requires Reachable(s) && v < |s.ws| && w < |s.ws| && v != w
    ensures s.ws[v].interest.Keys !! s.ws[w].interest.Keys
    ensures s.ws[v].pc.CloseFd? ==> s.ws[v].cur.fd in s.open && s.open[s.ws[v].cur.fd].inc == s.ws[v].cur.inc
    ensures s.ws[v].pc.CloseFd? ==> s.ws[v].cur.fd !in s.ws[w].interest
  {
    ReachableOwned(s);
    Ownership.InterestsDisjoint(s, v, w);
    assert Ownership.WorkerOwns(s.ws[v], v, s.open, s.hist.placed);
    assert Ownership.WorkerOwns(s.ws[w], w, s.open, s.hist.placed);
  }

  /** No incarnation is closed twice; a worker closes only what was placed with it, the listener only what was placed nowhere. */
  lemma ClosedOnceByOwner(s: State, i: nat, j: nat)
    requires Reachable(s) && i < |s.hist.closes| && j < |s.hist.closes|
    ensures i != j ==> s.hist.closes[i].inc != s.hist.closes[j].inc
    ensures match s.hist.closes[i].closer
            case ByListener => s.hist.closes[i].inc !in s.hist.placed
            case ByWorker(w) => s.hist.closes[i].inc in s.hist.placed && s.hist.placed[s.hist.closes[i].inc] == w
  {
    ReachableOwned(s);
    assert Ownership.ClosedByOwner(s.hist.closes[i], s.hist.placed);
    assert Ownership.ClosesOk(s.open, s.hist);
  }

  /**
   Nothing leaks but what the kernel has refused to register: every connection accepted is open or
   has been closed, not both; the listener has closed just the rejected ones and the workers just those
   torn down; and the descriptors open are the registered ones, those being closed, those whose
   registration failed, and at most one the listener holds.
   */
  lemma EveryDescriptorIsClosed(s: State, inc: nat)
    requires Reachable(s)
    ensures inc < s.hist.accepted ==> (Closures.IsOpen(s.open, inc) <==> !Closures.IsClosed(s.hist.closes, inc))
    ensures Closures.ByTheListener(s.hist.closes) == s.hist.rejected
    ensures |s.hist.closes| == s.hist.rejected + s.hist.tornDown
    ensures |s.open| == Sum(Accounting.Registrations(s.ws)) + Sum(Accounting.Closings(s.ws)) + s.hist.addFailed + Accounting.Held(s.lis)
  {
    ReachableInv(s);
    if inc < s.hist.accepted {
      assert Closures.IsOpen(s.open, inc) || Closures.IsClosed(s.hist.closes, inc);
    }
  }

  // ---- event decisions ------------------------------------------------------------------------

  /**
   Connections are armed for exactly one direction, always; and so iClose follows exactly if a
   handler of this very event failed, whatever earlier events left in nRet.
   */
  lemma DecisionIsNeverStale(s: State, w: nat, ok: bool)
    requires Reachable(s) && w < |s.ws|
    ensures forall fd | fd in s.ws[w].interest :: OneWay(s.ws[w].interest[fd].mask)
    ensures s.ws[w].pc.TestErr? ==>
              var t := Next(s, Advance(w, ok)).ws[w];
              (t.pc.Unregister? <==> t.failed) && (t.pc.Top? <==> !t.failed)
  {
    ReachableDecided(s);
    assert Decision.WorkerDecides(s.ws[w]);
    if s.ws[w].pc.TestErr? {
      Decision.DecisionAt(s, w, ok);
    }
  }

  /**
   The mode machine: of every incarnation the events its worker has re-armed are about writing, reading,
   writing, ... in turn, and what it is registered for is what the last of them calls for, whatever mode
   changes have been refused in between.
   */
  lemma ModesAlternate(s: State, w: nat, inc: nat, j: nat, fd: Fd)
    requires Reachable(s) && w < |s.ws|
    ensures j < |Modes.Turns(s.ws[w].done, inc)| ==> Modes.Turns(s.ws[w].done, inc)[j] == Modes.TurnOf(j)
    ensures Registers(s.ws[w], fd, inc) ==> s.ws[w].interest[fd].mask == Modes.MaskAfter(Modes.Changes(s.ws[w], inc))
  {
    ReachableModed(s);
    assert Modes.WorkerModes(s.ws[w], s.hist.placed);
  }

  /**
   Errors and hang-ups are asked for on every registered connection at any time, edge-triggered; a
   half-close is asked for exactly until the first mode change that succeeds, which drops EPOLLRDHUP.
   */
  lemma TroubleIsArmed(s: State, w: nat, fd: Fd)
    requires Reachable(s) && w < |s.ws| && fd in s.ws[w].interest
    ensures {Err, Hup, Et} <= s.ws[w].interest[fd].mask
    ensures RdHup in s.ws[w].interest[fd].mask <==> Modes.Changes(s.ws[w], s.ws[w].interest[fd].inc) == 0
  {
    ModesAlternate(s, w, s.ws[w].interest[fd].inc, 0, fd);
  }

  /** The file is in trouble that its registration asks for: an error, a hang-up, or a half-close before the first turn. */
  predicate InTrouble(s: State, w: nat, fd: Fd)
    requires w < |s.ws| && fd in s.ws[w].interest
  {
    && fd in s.open
    && (|| Err in s.open[fd].level || Hup in s.open[fd].level
        || (RdHup in s.open[fd].level && Modes.Changes(s.ws[w], s.ws[w].interest[fd].inc) == 0))
  }

  /** So it is noticed: the connection is queued, reported or being handled, and an event fetched for it tells of the trouble. */
  lemma TroubleIsServed(s: State, w: nat, fd: Fd, fds: seq<Fd>)
    requires Reachable(s) && w < |s.ws| && fd in s.ws[w].interest && InTrouble(s, w, fd)
    ensures fd !in s.ws[w].stuck ==> Wakeups.Served(s.ws[w], fd)
    ensures Enabled(s, Wait(w, fds)) && fd in fds ==>
              exists i :: 0 <= i < |Next(s, Wait(w, fds)).ws[w].batch| && Tells(Next(s, Wait(w, fds)).ws[w].batch[i], fd)
  {
    TroubleIsArmed(s, w, fd);
    var t := s.ws[w];
    var f := if Err in s.open[fd].level then Err else if Hup in s.open[fd].level then Hup else RdHup;
    assert f in s.open[fd].level * t.interest[fd].mask;
    if fd !in t.stuck {
      NoLostWakeup(s, w, fd);
    }
    if Enabled(s, Wait(w, fds)) && fd in fds {
      Wakeups.CollectMisses(t, s.open, fds, fd);
      var batch := Collect(t, s.open, fds);
      var i :| 0 <= i < |batch| && batch[i].fd == fd;
      Ownership.CollectReports(t, s.open, fds);
      assert f in batch[i].flags * {Err, Hup, RdHup};
      assert Next(s, Wait(w, fds)).ws[w].batch == batch;
      assert Tells(Next(s, Wait(w, fds)).ws[w].batch[i], fd);
    }
  }

  predicate Tells(e: Event, fd: Fd) {
    e.fd == fd && e.flags * {Err, Hup, RdHup} != {}
  }

  /** What can put descriptor `fd` on the ready list of worker w: registration, a mode change, or a condition that comes up. */
  predicate Requeues(s: State, a: Action, w: nat, fd: Fd) {
    || (a.Rise? && a.fd == fd)
    || (a == Add(true) && s.lis.Adding? && s.lis.fd == fd)
    || (a.Advance? && a.w == w < |s.ws| && (s.ws[w].pc.ArmWrite? || s.ws[w].pc.ArmRead?) && s.ws[w].cur.fd == fd && a.ok)
  }

  ghost predicate NoneRequeues(s: State, acts: seq<Action>, w: nat, fd: Fd)
    requires IsRun(s, acts)
    decreases |acts|
  {
    acts != [] ==> !Requeues(s, acts[0], w, fd) && NoneRequeues(Next(s, acts[0]), acts[1..], w, fd)
  }

  /** Edge-triggered: a descriptor that epoll_wait has taken is reported again only after one of these. */
  lemma OneReportPerEdge(s: State, w: nat, fds: seq<Fd>, fd: Fd, acts: seq<Action>)
    requires Reachable(s) && Enabled(s, Wait(w, fds)) && fd in fds
    requires IsRun(Next(s, Wait(w, fds)), acts) && NoneRequeues(Next(s, Wait(w, fds)), acts, w, fd)
    ensures var s' := Run(Next(s, Wait(w, fds)), acts); |s'.ws| == |s.ws| && fd !in s'.ws[w].ready
  {
    ReachableStep(s, Wait(w, fds));
    StaysOffTheList(Next(s, Wait(w, fds)), acts, w, fd);
  }

  lemma {:induction false} StaysOffTheList(s: State, acts: seq<Action>, w: nat, fd: Fd)
    requires Reachable(s) && w < |s.ws| && fd !in s.ws[w].ready && IsRun(s, acts) && NoneRequeues(s, acts, w, fd)
    ensures |Run(s, acts).ws| == |s.ws| && fd !in Run(s, acts).ws[w].ready
    decreases |acts|
  {
    if acts != [] {
      ReachableOwned(s);
      OffTheListStep(s, acts[0], w, fd);
      ReachableStep(s, acts[0]);
      StaysOffTheList(Next(s, acts[0]), acts[1..], w, fd);
    }
  }

  lemma OffTheListStep(s: State, a: Action, w: nat, fd: Fd)
    requires Ownership.WellOwned(s) && Enabled(s, a) && w < |s.ws| && fd !in s.ws[w].ready && !Requeues(s, a, w, fd)
    ensures |Next(s, a).ws| == |s.ws| && fd !in Next(s, a).ws[w].ready
  {
    match a
    case Advance(v, ok) =>
      Ownership.MoveIsTurn(s, v, ok);
      if v == w {
        OffTheListTurn(s.ws[w], s.open, ok, fd);
      }
    case CloseRejected => Ownership.RejectForgetsNothing(s);
    case _ =>
  }

  lemma OffTheListTurn(t: Worker, open: map<Fd, File>, ok: bool, fd: Fd)
    requires CanMove(t, open, ok) && fd !in t.ready
    requires !((t.pc.ArmWrite? || t.pc.ArmRead?) && t.cur.fd == fd && ok)
    ensures fd !in Turn(t, open, ok).ready
  {
  }

  predicate Registers(t: Worker, fd: Fd, inc: nat) {
    fd in t.interest && t.interest[fd].inc == inc
  }

  // ---- wakeups --------------------------------------------------------------------------------

  /** Every i_epoll_change_mode of the run succeeds. */
  ghost predicate ModeChangesSucceed(s: State, acts: seq<Action>)
    requires IsRun(s, acts)
    decreases |acts|
  {
    acts != [] ==> !ModeChangeFails(s, acts[0]) && ModeChangesSucceed(Next(s, acts[0]), acts[1..])
  }

  predicate ModeChangeFails(s: State, a: Action) {
    a.Advance? && a.w < |s.ws| && (s.ws[a.w].pc.ArmWrite? || s.ws[a.w].pc.ArmRead?) && !a.ok
  }

  ghost predicate Unstuck(t: Worker) {
    t.stuck == {} && forall i | 0 <= i < |t.done| :: !t.done[i].ChangeFailed?
  }

  ghost predicate NobodyStuck(s: State) {
    forall w | 0 <= w < |s.ws| :: Unstuck(s.ws[w])
  }

  lemma {:induction false} StuckOnlyByFailure(s: State, acts: seq<Action>)
    requires Ownership.WellOwned(s) && NobodyStuck(s) && IsRun(s, acts) && ModeChangesSucceed(s, acts)
    ensures NobodyStuck(Run(s, acts))
    decreases |acts|
  {
    if acts != [] {
      Ownership.Step(s, acts[0]);
      StepStuck(s, acts[0]);
      StuckOnlyByFailure(Next(s, acts[0]), acts[1..]);
    }
  }

  lemma StepStuck(s: State, a: Action)
    requires Ownership.WellOwned(s) && NobodyStuck(s) && Enabled(s, a) && !ModeChangeFails(s, a)
    ensures NobodyStuck(Next(s, a))
  {
    match a
    case Advance(w, ok) =>
      Ownership.MoveIsTurn(s, w, ok);
      TurnStuck(s.ws[w], s.open, ok);
    case CloseRejected => Ownership.RejectForgetsNothing(s);
    case _ => OtherStuck(s, a);
  }

  lemma TurnStuck(t: Worker, open: map<Fd, File>, ok: bool)
    requires Unstuck(t) && CanMove(t, open, ok) && (t.pc.ArmWrite? || t.pc.ArmRead? ==> ok)
    ensures Unstuck(Turn(t, open, ok))
  {
    assert t.done <= Turn(t, open, ok).done;
  }

  lemma OtherStuck(s: State, a: Action)
    requires NobodyStuck(s) && Enabled(s, a) && !a.Advance? && !a.CloseRejected?
    ensures NobodyStuck(Next(s, a))
  {
    forall w | 0 <= w < |s.ws| ensures Unstuck(Next(s, a).ws[w]) {
      assert Unstuck(s.ws[w]);
    }
  }

  /**
   No lost wakeup: a registered connection whose armed condition holds is in the ready list, in the
   rest of the batch, or being handled and not yet re-armed; and once its worker is back at epoll_wait
   it is in the ready list.  The only exception is a connection whose own last mode change has failed.
   */
  lemma NoLostWakeup(s: State, w: nat, fd: Fd)
    requires Reachable(s) && w < |s.ws| && fd !in s.ws[w].stuck && Wakeups.Armed(s.ws[w], s.open, fd)
    ensures Wakeups.Served(s.ws[w], fd)
    ensures s.ws[w].pc.Top? && s.ws[w].batch == [] ==> fd in s.ws[w].ready
  {
    ReachableInv(s);
    Wakeups.AwakeAt(s, w, fd);
  }

  /** In a run in which no mode change fails there are no exceptions, and no event has ended in a failed change. */
  lemma NothingStuckWithoutFailure(n: nat, maxclients: nat, maxevents: nat, acts: seq<Action>)
    requires n >= 2 && IsRun(Init(n, maxclients, maxevents), acts)
    requires ModeChangesSucceed(Init(n, maxclients, maxevents), acts)
    ensures NobodyStuck(Run(Init(n, maxclients, maxevents), acts))
  {
    Ownership.Start(n, maxclients, maxevents);
    StuckOnlyByFailure(Init(n, maxclients, maxevents), acts);
  }

  /** The kernel has no reason to refuse a mode change: the handlers only change what is registered. */
  lemma ModeChangeIsPossible(s: State, w: nat)
    requires Reachable(s) && w < |s.ws| && (s.ws[w].pc.ArmWrite? || s.ws[w].pc.ArmRead?)
    ensures Enabled(s, Advance(w, true))
  {
    ReachableOwned(s);
    Ownership.HandledIsRegistered(s, w);
  }

  /**
   What an ignored failure of i_epoll_change_mode costs.  After the call the connection is without a
   wakeup it is due exactly if the call failed, no new event was queued meanwhile, and the condition
   it was armed for before still holds.
   */
  lemma IgnoredFailureLosesEvents(s: State, w: nat, ok: bool)
    requires Reachable(s) && w < |s.ws| && (s.ws[w].pc.ArmWrite? || s.ws[w].pc.ArmRead?)
    requires Enabled(s, Advance(w, ok))
    ensures s.ws[w].cur.fd in s.open && s.ws[w].cur.fd in s.ws[w].interest
    ensures var fd, t, s' := s.ws[w].cur.fd, s.ws[w], Next(s, Advance(w, ok));
            (Wakeups.Armed(s'.ws[w], s'.open, fd) ==> Wakeups.Served(s'.ws[w], fd))
            <==> ok || fd in t.ready || s.open[fd].level * t.interest[fd].mask == {}
  {
    ReachableOwned(s);
    Wakeups.ChangeOutcome(s, w, ok);
  }

  /** A connection its worker has lost sight of stays so until one of the conditions it is armed for comes up anew. */
  lemma {:induction false} AbandonedForGood(s: State, acts: seq<Action>, w: nat, fd: Fd, mask: Mask)
    requires Reachable(s) && IsRun(s, acts) && w < |s.ws| && Wakeups.Abandoned(s.ws[w], fd, mask)
    requires forall a | a in acts :: !Wakeups.Wakes(a, fd, mask)
    ensures |Run(s, acts).ws| == |s.ws| && Wakeups.Abandoned(Run(s, acts).ws[w], fd, mask)
    decreases |acts|
  {
    if acts != [] {
      assert acts[0] in acts;
      ReachableOwned(s);
      Wakeups.AbandonedStep(s, acts[0], w, fd, mask);
      ReachableStep(s, acts[0]);
      AbandonedForGood(Next(s, acts[0]), acts[1..], w, fd, mask);
    }
  }

  lemma ReachableStep(s: State, a: Action)
    requires Reachable(s) && Enabled(s, a)
    ensures Reachable(Next(s, a))
  {
    var n: nat, m: nat, e: nat, acts: seq<Action> :|
      n >= 2 && IsRun(Init(n, m, e), acts) && Run(Init(n, m, e), acts) == s;
    RunPush(Init(n, m, e), acts, a);
  }

  /** The connection of LostWakeup, as its worker 1 sees it: writable, and never to be told so. */
  lemma LostWakeup() returns (acts: seq<Action>)
    ensures IsRun(Init(2, 1, 1), acts)
    ensures var s := Run(Init(2, 1, 1), acts);
            && |s.ws| == 2 && s.ws[1].pc.Top? && s.ws[1].batch == []
            && Wakeups.Armed(s.ws[1], s.open, 5) && !Wakeups.Served(s.ws[1], 5)
            && Wakeups.Abandoned(s.ws[1], 5, AddMask(Write, true))
  {
    acts := Admission();
    var s := Writable();
    Reported(s.ws[1]);
    acts, s := Play(acts, s, Wait(1, [5]));
    acts, s := Serve(acts, s);
    assert Out in s.open[5].level * s.ws[1].interest[5].mask;
  }

  lemma Play(acts: seq<Action>, s: State, a: Action) returns (acts': seq<Action>, s': State)
    requires IsRun(Init(2, 1, 1), acts) && Run(Init(2, 1, 1), acts) == s && Enabled(s, a)
    ensures IsRun(Init(2, 1, 1), acts') && Run(Init(2, 1, 1), acts') == s' == Next(s, a)
  {
    RunPush(Init(2, 1, 1), acts, a);
    acts', s' := acts + [a], Next(s, a);
  }

  lemma Reported(t: Worker)
    requires t.interest == map[5 := Registration(0, AddMask(Write, true))]
    ensures Collect(t, Writable().open, [5]) == [Event(5, 0, {Out})]
  {
    assert Out in {Out} * AddMask(Write, true);
    assert {Out} * AddMask(Write, true) == {Out};
    assert Collect(t, Writable().open, [5][1..]) == [];
  }

  /** The handling of that event, with a mode change that fails. */
  lemma Serve(acts: seq<Action>, s: State) returns (acts': seq<Action>, s': State)
    requires IsRun(Init(2, 1, 1), acts) && Run(Init(2, 1, 1), acts) == s && |s.ws| == 2
    requires s.ws[1].pc.Top? && s.ws[1].batch == [Event(5, 0, {Out})]
    ensures IsRun(Init(2, 1, 1), acts') && Run(Init(2, 1, 1), acts') == s' && |s'.ws| == 2
    ensures s'.ws[1].pc.Top? && s'.ws[1].batch == [] && s'.open == s.open
    ensures s'.ws[1].interest == s.ws[1].interest && s'.ws[1].ready == s.ws[1].ready
  {
    acts', s' := PlayTurn(acts, s, true);
    acts', s' := PlayTurn(acts', s', true);
    acts', s' := PlayTurn(acts', s', true);
    acts', s' := PlayTurn(acts', s', false);
    acts', s' := PlayTurn(acts', s', true);
  }

  /** A move of worker 1 that is not close(). */
  lemma PlayTurn(acts: seq<Action>, s: State, ok: bool) returns (acts': seq<Action>, s': State)
    requires IsRun(Init(2, 1, 1), acts) && Run(Init(2, 1, 1), acts) == s && |s.ws| == 2
    requires CanMove(s.ws[1], s.open, ok) && !s.ws[1].pc.CloseFd?
    ensures IsRun(Init(2, 1, 1), acts') && Run(Init(2, 1, 1), acts') == s' && |s'.ws| == 2
    ensures s'.ws[1] == Turn(s.ws[1], s.open, ok) && s'.open == s.open
  {
    acts', s' := Play(acts, s, Advance(1, ok));
  }

  /** One writable connection, number 5, with worker 1. */
  function Writable(): State {
    State(1, 1,
      [FreshWorker, FreshWorker.(counter := 1, interest := map[5 := Registration(0, AddMask(Write, true))], ready := {5})],
      Idle, map[5 := File(0, {Out})], History(1, 0, 0, 0, 1, 0, map[0 := 1], []))
  }

  lemma Admission() returns (acts: seq<Action>)
    ensures IsRun(Init(2, 1, 1), acts) && Run(Init(2, 1, 1), acts) == Writable()
  {
    acts := Arrival();
    var s := Admitted();
    assert Out in {Out} * AddMask(Write, true);
    acts, s := Play(acts, s, Add(true));
    acts, s := Play(acts, s, Increment);
    var t := FreshWorker;
    assert t.ready + {5} == {5} && t.stuck - {5} == {} && t.interest[5 := Registration(0, AddMask(Write, true))] == Writable().ws[1].interest;
    assert s.ws == Writable().ws && s.hist == Writable().hist;
  }

  /** The same connection, after the scan. */
  function Admitted(): State {
    State(1, 1, [FreshWorker, FreshWorker], Adding(5, 0, 1), map[5 := File(0, {Out})], History(1, 0, 0, 0, 0, 0, map[], []))
  }

  lemma Arrival() returns (acts: seq<Action>)
    ensures IsRun(Init(2, 1, 1), acts) && Run(Init(2, 1, 1), acts) == Admitted()
  {
    var s := Init(2, 1, 1);
    acts := [];
    acts, s := Play(acts, s, Accept(5, {Out}));
    acts, s := Play(acts, s, ReadSum);
    acts, s := Play(acts, s, ReadLeft);
    acts, s := Play(acts, s, ReadRight);
    acts, s := Play(acts, s, Compare);
    acts, s := Play(acts, s, ReadSum);
    acts, s := Play(acts, s, ReadLeft);
    acts, s := Play(acts, s, ReadRight);
    acts, s := Play(acts, s, Compare);
    acts, s := Play(acts, s, Decide);
    assert s.ws == Admitted().ws;
  }

  // ---- capacity -------------------------------------------------------------------------------

  /**
   With maxclients within n times the capacity, every worker's whole registered set fits its
   event buffer and the registered connections fit the descriptor limit, in every reachable state.
   */
  lemma CapacitySuffices(s: State, limit: int, w: nat)
    requires Reachable(s) && w < |s.ws| && limit >= 4 + |s.ws|
    requires s.maxclients <= |s.ws| * Capacity.GetWorkerCapacity(limit, |s.ws|)
    ensures |s.ws[w].interest| <= Capacity.GetWorkerCapacity(limit, |s.ws|)
    ensures |s.ws[w].ready| <= |s.ws[w].interest|
    ensures Capacity.Fits(limit, |s.ws|, Sum(Accounting.Registrations(s.ws)))
  {
    var n, c := |s.ws|, Capacity.GetWorkerCapacity(limit, |s.ws|);
    ReachableOwned(s);
    LoadBound(s, w);
    NeverOverAdmits(s);
    Capacity.CapacityIsLargest(limit, n, c);
    ShareWithin(s.maxclients, n, c);
    assert Ownership.WorkerOwns(s.ws[w], w, s.open, s.hist.placed);
    SubsetCardinality(s.ws[w].ready, s.ws[w].interest.Keys);
    assert |s.ws[w].interest.Keys| == |s.ws[w].interest|;
  }

  lemma ShareWithin(m: nat, n: nat, c: nat)
    requires n > 0 && m <= n * c
    ensures Dispatch.Share(m, n) <= c
  {
    var q := Dispatch.Share(m, n);
    assert m + n - 1 == n * q + (m + n - 1) % n;
    assert q >= c + 1 ==> n * q >= n * (c + 1);
  }

  lemma {:induction false} SubsetCardinality<T>(a: set<T>, b: set<T>)
    requires a <= b
    ensures |a| <= |b|
  {
    assert b == a + (b - a);
  }
}
