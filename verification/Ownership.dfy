/**
 Who owns which file, although descriptor numbers are reused while a batch is being walked:
 interest sets name only open files, every unprocessed event names a file its worker still
 has registered, and close() always hits the incarnation the caller means.
 */
module Ownership {
  import opened Epoll
  import opened Server

  /** Between taking an event and unregistering its descriptor. */
  predicate Handling(pc: Pc) {
    !pc.Top? && !pc.CloseFd? && !pc.Decrement?
  }

  /** `fd` names incarnation `inc` right now, and that incarnation was given to worker w. */
  predicate Owned(fd: Fd, inc: nat, w: nat, open: map<Fd, File>, placed: map<nat, nat>) {
    fd in open && open[fd].inc == inc && inc in placed && placed[inc] == w
  }

  predicate Has(t: Worker, fd: Fd, inc: nat) {
    fd in t.interest && t.interest[fd].inc == inc
  }

  ghost predicate WorkerOwns(t: Worker, w: nat, open: map<Fd, File>, placed: map<nat, nat>) {
    && (forall fd | fd in t.interest :: Owned(fd, t.interest[fd].inc, w, open, placed))
    && t.ready <= t.interest.Keys
    && t.stuck <= t.interest.Keys
    && (forall i | 0 <= i < |t.batch| :: Has(t, t.batch[i].fd, t.batch[i].inc))
    && (forall i, j | 0 <= i < j < |t.batch| :: t.batch[i].fd != t.batch[j].fd)
    && (Handling(t.pc) ==> Has(t, t.cur.fd, t.cur.inc))
    && (Handling(t.pc) ==> forall i | 0 <= i < |t.batch| :: t.batch[i].fd != t.cur.fd)
    && (t.pc.CloseFd? ==> t.cur.fd !in t.interest && Owned(t.cur.fd, t.cur.inc, w, open, placed))
  }

  ghost predicate FilesOk(open: map<Fd, File>, h: History) {
    && (forall fd | fd in open :: open[fd].inc < h.accepted)
    && (forall fd, fd' | fd in open && fd' in open && open[fd].inc == open[fd'].inc :: fd == fd')
    && (forall inc | inc in h.placed :: inc < h.accepted)
  }

  /** Nothing is closed twice, and only its owner closes a file. */
  ghost predicate ClosesOk(open: map<Fd, File>, h: History) {
    && (forall i | 0 <= i < |h.closes| :: h.closes[i].inc < h.accepted)
    && (forall i, j | 0 <= i < j < |h.closes| :: h.closes[i].inc != h.closes[j].inc)
    && (forall i, fd | 0 <= i < |h.closes| && fd in open :: h.closes[i].inc != open[fd].inc)
    && (forall i | 0 <= i < |h.closes| :: ClosedByOwner(h.closes[i], h.placed))
  }

  predicate ClosedByOwner(c: Closing, placed: map<nat, nat>) {
    match c.closer
    case ByListener => c.inc !in placed
    case ByWorker(w) => c.inc in placed && placed[c.inc] == w
  }

  /** Until the connection is registered the listener alone holds it. */
  ghost predicate ListenerHolds(lis: Listener, open: map<Fd, File>, placed: map<nat, nat>) {
    !lis.Idle? && !lis.Counting? ==> lis.fd in open && open[lis.fd].inc == lis.inc && lis.inc !in placed
  }

  ghost predicate WellOwned(s: State) {
    && (forall w | 0 <= w < |s.ws| :: WorkerOwns(s.ws[w], w, s.open, s.hist.placed))
    && FilesOk(s.open, s.hist)
    && ClosesOk(s.open, s.hist)
    && ListenerHolds(s.lis, s.open, s.hist.placed)
  }

  // ---- consequences ---------------------------------------------------------------------------

  /** Interest sets are pairwise disjoint. */
  lemma InterestsDisjoint(s: State, v: nat, w: nat)
    requires WellOwned(s) && v < |s.ws| && w < |s.ws| && v != w
    ensures s.ws[v].interest.Keys !! s.ws[w].interest.Keys
  {
    forall fd | fd in s.ws[v].interest
      ensures fd !in s.ws[w].interest
    {
      assert WorkerOwns(s.ws[v], v, s.open, s.hist.placed) && WorkerOwns(s.ws[w], w, s.open, s.hist.placed);
    }
  }

  /** i_epoll_change_mode and i_epoll_del always meet the registration of the event being handled. */
  lemma HandledIsRegistered(s: State, w: nat)
    requires WellOwned(s) && w < |s.ws| && Handling(s.ws[w].pc)
    ensures Registered(s.ws[w], s.open, s.ws[w].cur.fd)
    ensures s.open[s.ws[w].cur.fd].inc == s.ws[w].cur.inc
  {
    assert WorkerOwns(s.ws[w], w, s.open, s.hist.placed);
  }

  /** close() never drops a live registration: i_epoll_del has always come first. */
  lemma CloseForgetsNothing(s: State, w: nat)
    requires WellOwned(s) && w < |s.ws| && s.ws[w].pc.CloseFd?
    ensures s.ws[w].cur.fd in s.open && s.open[s.ws[w].cur.fd].inc == s.ws[w].cur.inc
    ensures ForgetAll(s.ws, s.ws[w].cur.fd, s.ws[w].cur.inc) == s.ws
  {
    var fd, inc := s.ws[w].cur.fd, s.ws[w].cur.inc;
    forall j | 0 <= j < |s.ws| ensures Forget(s.ws[j], fd, inc) == s.ws[j] {
      assert WorkerOwns(s.ws[j], j, s.open, s.hist.placed);
      assert WorkerOwns(s.ws[w], w, s.open, s.hist.placed);
    }
  }

  /** A move, seen as the replacement of one worker. */
  lemma MoveIsTurn(s: State, w: nat, ok: bool)
    requires WellOwned(s) && Enabled(s, Advance(w, ok))
    ensures var s' := Next(s, Advance(w, ok)); var t := s.ws[w];
            && s'.ws == s.ws[w := Turn(t, s.open, ok)] && s'.lis == s.lis
            && s'.maxclients == s.maxclients && s'.maxevents == s.maxevents
            && s'.open == (if t.pc.CloseFd? then s.open - {t.cur.fd} else s.open)
            && s'.hist.(closes := s.hist.closes) == s.hist.(
                 tornDown := s.hist.tornDown + (if t.pc.CloseFd? then 1 else 0),
                 decrements := s.hist.decrements + (if t.pc.Decrement? then 1 else 0))
  {
    if s.ws[w].pc.CloseFd? {
      CloseForgetsNothing(s, w);
    }
  }

  lemma RejectForgetsNothing(s: State)
    requires WellOwned(s) && s.lis.Rejecting?
    ensures ForgetAll(s.ws, s.lis.fd, s.lis.inc) == s.ws
  {
    forall j | 0 <= j < |s.ws| ensures Forget(s.ws[j], s.lis.fd, s.lis.inc) == s.ws[j] {
      assert WorkerOwns(s.ws[j], j, s.open, s.hist.placed);
    }
  }

  /** A file the listener still holds is in no interest set. */
  lemma HeldIsUnregistered(s: State, w: nat)
    requires WellOwned(s) && s.lis.Adding? && w < |s.ws|
    ensures s.lis.fd !in s.ws[w].interest
  {
    assert WorkerOwns(s.ws[w], w, s.open, s.hist.placed);
  }

  // ---- what epoll_wait reports ----------------------------------------------------------------

  predicate Reports(t: Worker, open: map<Fd, File>, e: Event) {
    && e.fd in open && Has(t, e.fd, e.inc)
    && e.flags == open[e.fd].level * t.interest[e.fd].mask != {}
  }

  lemma {:induction false} CollectReports(t: Worker, open: map<Fd, File>, fds: seq<Fd>)
    ensures var r := Collect(t, open, fds);
            && |r| <= |fds|
            && (forall i | 0 <= i < |r| :: Reports(t, open, r[i]) && r[i].fd in fds)
            && (Distinct(fds) ==> forall i, j | 0 <= i < j < |r| :: r[i].fd != r[j].fd)
    decreases |fds|
  {
    if fds != [] {
      CollectReports(t, open, fds[1..]);
      assert fds == [fds[0]] + fds[1..];
      assert Distinct(fds) ==> Distinct(fds[1..]) && fds[0] !in fds[1..];
    }
  }

  // ---- preservation ---------------------------------------------------------------------------

  lemma Start(n: nat, maxclients: nat, maxevents: nat)
    ensures WellOwned(Init(n, maxclients, maxevents))
  {
  }

  /** Replacing one worker, with files and placement as they were. */
  lemma PutKeeps(s: State, w: nat, t: Worker, s': State)
    requires WellOwned(s) && w < |s.ws|
    requires WorkerOwns(t, w, s.open, s.hist.placed)
    requires s'.ws == s.ws[w := t] && s'.open == s.open && s'.lis == s.lis
    requires s'.hist.placed == s.hist.placed && s'.hist.closes == s.hist.closes && s'.hist.accepted == s.hist.accepted
    ensures WellOwned(s')
  {
  }

  lemma ScanStep(s: State, a: Action)
    requires WellOwned(s) && Enabled(s, a)
    requires a.ReadSum? || a.ReadLeft? || a.ReadRight? || a.Compare? || a.Decide?
    ensures WellOwned(Next(s, a))
  {
  }

  lemma AcceptStep(s: State, fd: Fd, level: Mask)
    requires WellOwned(s) && Enabled(s, Accept(fd, level))
    ensures WellOwned(Next(s, Accept(fd, level)))
  {
    var s' := Next(s, Accept(fd, level));
    forall w | 0 <= w < |s.ws| ensures WorkerOwns(s'.ws[w], w, s'.open, s'.hist.placed) {
      assert WorkerOwns(s.ws[w], w, s.open, s.hist.placed);
    }
  }

  lemma RejectStep(s: State)
    requires WellOwned(s) && Enabled(s, CloseRejected)
    ensures WellOwned(Next(s, CloseRejected))
  {
    var s' := Next(s, CloseRejected);
    RejectForgetsNothing(s);
    forall w | 0 <= w < |s.ws| ensures WorkerOwns(s'.ws[w], w, s'.open, s'.hist.placed) {
      assert WorkerOwns(s.ws[w], w, s.open, s.hist.placed);
    }
  }

  /** Registration makes worker w the owner of what the listener has held. */
  lemma ArmKeepsOwner(t: Worker, w: nat, open: map<Fd, File>, placed: map<nat, nat>, fd: Fd, mask: Mask)
    requires WorkerOwns(t, w, open, placed) && fd in open && fd !in t.interest && open[fd].inc !in placed
    ensures WorkerOwns(Arm(t, fd, open[fd], mask), w, open, placed[open[fd].inc := w])
  {
  }

  /** The other workers own what they have owned. */
  lemma PlacementKeepsOwner(t: Worker, j: nat, open: map<Fd, File>, placed: map<nat, nat>, inc: nat, w: nat)
    requires WorkerOwns(t, j, open, placed) && inc !in placed
    ensures WorkerOwns(t, j, open, placed[inc := w])
  {
  }

  lemma RegisterStep(s: State)
    requires WellOwned(s) && Enabled(s, Add(true))
    ensures WellOwned(Next(s, Add(true)))
  {
    var s', w, fd := Next(s, Add(true)), s.lis.target, s.lis.fd;
    HeldIsUnregistered(s, w);
    forall j | 0 <= j < |s.ws| ensures WorkerOwns(s'.ws[j], j, s'.open, s'.hist.placed) {
      if j == w {
        ArmKeepsOwner(s.ws[w], w, s.open, s.hist.placed, fd, AddMask(Write, true));
      } else {
        PlacementKeepsOwner(s.ws[j], j, s.open, s.hist.placed, s.lis.inc, w);
      }
    }
    PlacementKeepsCloses(s.open, s.hist, fd, w);
  }

  lemma PlacementKeepsCloses(open: map<Fd, File>, h: History, fd: Fd, w: nat)
    requires FilesOk(open, h) && ClosesOk(open, h) && fd in open && open[fd].inc !in h.placed
    ensures FilesOk(open, h.(placed := h.placed[open[fd].inc := w]))
    ensures ClosesOk(open, h.(placed := h.placed[open[fd].inc := w]))
  {
    forall i | 0 <= i < |h.closes| ensures ClosedByOwner(h.closes[i], h.placed[open[fd].inc := w]) {
      assert ClosedByOwner(h.closes[i], h.placed);
    }
  }

  lemma AddStep(s: State, ok: bool)
    requires WellOwned(s) && Enabled(s, Add(ok))
    ensures WellOwned(Next(s, Add(ok)))
  {
    if ok {
      RegisterStep(s);
    }
  }

  lemma IncrementStep(s: State)
    requires WellOwned(s) && Enabled(s, Increment)
    ensures WellOwned(Next(s, Increment))
  {
    assert WorkerOwns(s.ws[s.lis.target], s.lis.target, s.open, s.hist.placed);
  }

  lemma WaitStep(s: State, w: nat, fds: seq<Fd>)
    requires WellOwned(s) && Enabled(s, Wait(w, fds))
    ensures WellOwned(Next(s, Wait(w, fds)))
  {
    CollectReports(s.ws[w], s.open, fds);
    assert WorkerOwns(s.ws[w], w, s.open, s.hist.placed);
    PutKeeps(s, w, Next(s, Wait(w, fds)).ws[w], Next(s, Wait(w, fds)));
  }

  lemma CloseStep(s: State, w: nat, ok: bool)
    requires WellOwned(s) && Enabled(s, Advance(w, ok)) && s.ws[w].pc.CloseFd?
    ensures WellOwned(Next(s, Advance(w, ok)))
  {
    var s' := Next(s, Advance(w, ok));
    CloseForgetsNothing(s, w);
    var fd := s.ws[w].cur.fd;
    assert s'.ws == s.ws[w := s.ws[w].(pc := Decrement)] && s'.open == s.open - {fd};
    forall j | 0 <= j < |s.ws| ensures WorkerOwns(s'.ws[j], j, s'.open, s'.hist.placed) {
      ShutKeepsOwner(s, w, j);
    }
    CloseKeepsCloses(s.open, s.hist, fd, w);
  }

  /** Another worker's close() takes no file away from worker j. */
  lemma ShutKeepsOwner(s: State, w: nat, j: nat)
    requires WellOwned(s) && w < |s.ws| && j < |s.ws| && s.ws[w].pc.CloseFd?
    ensures WorkerOwns(if j == w then s.ws[w].(pc := Decrement) else s.ws[j], j, s.open - {s.ws[w].cur.fd}, s.hist.placed)
  {
    assert WorkerOwns(s.ws[w], w, s.open, s.hist.placed) && WorkerOwns(s.ws[j], j, s.open, s.hist.placed);
  }

  lemma CloseKeepsCloses(open: map<Fd, File>, h: History, fd: Fd, w: nat)
    requires FilesOk(open, h) && ClosesOk(open, h) && fd in open && Owned(fd, open[fd].inc, w, open, h.placed)
    ensures ClosesOk(open - {fd}, h.(closes := h.closes + [Closing(open[fd].inc, ByWorker(w))]))
  {
  }

  lemma TakeKeepsOwner(t: Worker, w: nat, open: map<Fd, File>, placed: map<nat, nat>, ok: bool)
    requires WorkerOwns(t, w, open, placed) && t.pc.Top? && t.batch != []
    ensures WorkerOwns(Turn(t, open, ok), w, open, placed)
  {
  }

  lemma RearmKeepsOwner(t: Worker, w: nat, open: map<Fd, File>, placed: map<nat, nat>, mode: Mode, ok: bool, pc: Pc)
    requires WorkerOwns(t, w, open, placed) && Handling(t.pc) && Handling(pc)
    requires ok ==> Registered(t, open, t.cur.fd)
    ensures WorkerOwns(Rearm(t, open, mode, ok).(pc := pc), w, open, placed)
  {
  }

  lemma DropKeepsOwner(t: Worker, w: nat, open: map<Fd, File>, placed: map<nat, nat>)
    requires WorkerOwns(t, w, open, placed) && Handling(t.pc)
    ensures WorkerOwns(Drop(t, t.cur.fd).(pc := CloseFd), w, open, placed)
  {
  }

  /** Moving between handlers touches nothing that ownership speaks of. */
  lemma SameHoldingsKeepOwner(t: Worker, t': Worker, w: nat, open: map<Fd, File>, placed: map<nat, nat>)
    requires WorkerOwns(t, w, open, placed)
    requires t'.interest == t.interest && t'.ready == t.ready && t'.stuck == t.stuck
    requires t'.batch == t.batch && t'.cur == t.cur
    requires (Handling(t'.pc) ==> Handling(t.pc)) && !t'.pc.CloseFd?
    ensures WorkerOwns(t', w, open, placed)
  {
  }

  /** Every other move of a worker changes that worker only. */
  lemma TurnKeepsOwner(t: Worker, w: nat, open: map<Fd, File>, placed: map<nat, nat>, ok: bool)
    requires WorkerOwns(t, w, open, placed) && CanMove(t, open, ok) && !t.pc.CloseFd?
    ensures WorkerOwns(Turn(t, open, ok), w, open, placed)
  {
    if t.pc.Top? {
      TakeKeepsOwner(t, w, open, placed, ok);
    } else if t.pc.ArmWrite? {
      RearmKeepsOwner(t, w, open, placed, Write, ok, TestOut);
    } else if t.pc.ArmRead? {
      RearmKeepsOwner(t, w, open, placed, Read, ok, TestErr);
    } else if t.pc.Unregister? {
      DropKeepsOwner(t, w, open, placed);
    } else {
      SameHoldings(t, open, ok);
      SameHoldingsKeepOwner(t, Turn(t, open, ok), w, open, placed);
    }
  }

  lemma SameHoldings(t: Worker, open: map<Fd, File>, ok: bool)
    requires CanMove(t, open, ok) && (t.pc.TestIn? || t.pc.TestOut? || t.pc.TestErr? || t.pc.Decrement?)
    ensures var t' := Turn(t, open, ok);
            && t'.interest == t.interest && t'.ready == t.ready && t'.stuck == t.stuck
            && t'.batch == t.batch && t'.cur == t.cur
            && (Handling(t'.pc) ==> Handling(t.pc)) && !t'.pc.CloseFd?
  {
  }

  lemma AdvanceStep(s: State, w: nat, ok: bool)
    requires WellOwned(s) && Enabled(s, Advance(w, ok))
    ensures WellOwned(Next(s, Advance(w, ok)))
  {
    if s.ws[w].pc.CloseFd? {
      CloseStep(s, w, ok);
    } else {
      TurnKeepsOwner(s.ws[w], w, s.open, s.hist.placed, ok);
      PutKeeps(s, w, Next(s, Advance(w, ok)).ws[w], Next(s, Advance(w, ok)));
    }
  }

  lemma OutsideStep(s: State, a: Action)
    requires WellOwned(s) && Enabled(s, a) && ThreadOf(a) == Outside
    ensures WellOwned(Next(s, a))
  {
    var s' := Next(s, a);
    forall w | 0 <= w < |s.ws| ensures WorkerOwns(s'.ws[w], w, s'.open, s'.hist.placed) {
      assert WorkerOwns(s.ws[w], w, s.open, s.hist.placed);
    }
  }

  lemma Step(s: State, a: Action)
    requires WellOwned(s) && Enabled(s, a)
    ensures WellOwned(Next(s, a))
  {
    match a
    case Wait(w, fds) => WaitStep(s, w, fds);
    case Advance(w, ok) => AdvanceStep(s, w, ok);
    case Rise(_, _) => OutsideStep(s, a);
    case Fall(_, _) => OutsideStep(s, a);
    case Accept(fd, level) => AcceptStep(s, fd, level);
    case CloseRejected => RejectStep(s);
    case Add(ok) => AddStep(s, ok);
    case Increment => IncrementStep(s);
    case _ => ScanStep(s, a);
  }
}
