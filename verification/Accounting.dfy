/**
 What the counters count.  IncrementActiveConns runs after the descriptor is already live in
 the worker's epoll, and iClose unregisters before it decrements, so a counter is exact only
 up to those two windows.
 */
module Accounting {
  import opened Epoll
  import opened Server
  import opened Sequences
  import opened Ownership

  function Leaving(pc: Pc): int {
    if pc.CloseFd? || pc.Decrement? then 1 else 0
  }

  function Uncounted(lis: Listener, w: nat): int {
    if lis.Counting? && lis.target == w then 1 else 0
  }

  predicate WorkerAccounts(t: Worker, w: nat, lis: Listener) {
    t.counter == |t.interest| + Leaving(t.pc) - Uncounted(lis, w)
  }

  ghost predicate Accounted(s: State) {
    forall w | 0 <= w < |s.ws| :: WorkerAccounts(s.ws[w], w, s.lis)
  }

  // ---- totals over all workers ----------------------------------------------------------------

  function Registrations(ws: seq<Worker>): seq<int> {
    seq(|ws|, i requires 0 <= i < |ws| => |ws[i].interest|)
  }

  /** 1 for a worker that has unregistered a connection and not closed it yet. */
  function Closings(ws: seq<Worker>): seq<int> {
    seq(|ws|, i requires 0 <= i < |ws| => if ws[i].pc.CloseFd? then 1 else 0)
  }

  function Held(lis: Listener): int {
    if lis.Idle? || lis.Counting? then 0 else 1
  }

  /** Every accepted connection is in exactly one place. */
  ghost predicate Conserved(s: State) {
    && s.hist.accepted == s.hist.rejected + s.hist.addFailed + Sum(Registrations(s.ws))
                          + s.hist.tornDown + Sum(Closings(s.ws)) + Held(s.lis)
    && s.hist.increments - s.hist.decrements == Sum(Counters(s.ws))
  }

  /** How the three totals move when one worker is replaced. */
  lemma PutTotals(ws: seq<Worker>, w: nat, t: Worker)
    requires w < |ws|
    ensures Sum(Counters(ws[w := t])) == Sum(Counters(ws)) - ws[w].counter + t.counter
    ensures Sum(Registrations(ws[w := t])) == Sum(Registrations(ws)) - |ws[w].interest| + |t.interest|
    ensures Sum(Closings(ws[w := t]))
         == Sum(Closings(ws)) - (if ws[w].pc.CloseFd? then 1 else 0) + (if t.pc.CloseFd? then 1 else 0)
  {
    assert Counters(ws[w := t]) == Counters(ws)[w := t.counter];
    assert Registrations(ws[w := t]) == Registrations(ws)[w := |t.interest|];
    assert Closings(ws[w := t]) == Closings(ws)[w := if t.pc.CloseFd? then 1 else 0];
    SumUpdate(Counters(ws), w, t.counter);
    SumUpdate(Registrations(ws), w, |t.interest|);
    SumUpdate(Closings(ws), w, if t.pc.CloseFd? then 1 else 0);
  }

  /** One worker's registrations, from its counter. */
  lemma RegisteredAt(s: State, w: nat)
    requires Accounted(s) && w < |s.ws|
    ensures |s.ws[w].interest| <= Counters(s.ws)[w] + Uncounted(s.lis, w)
  {
    assert WorkerAccounts(s.ws[w], w, s.lis);
  }

  /** The worker counters and the registrations differ exactly by what is in flight. */
  lemma CountedTotals(s: State)
    requires Accounted(s)
    ensures Sum(Registrations(s.ws)) <= Sum(Counters(s.ws)) + (if s.lis.Counting? then 1 else 0)
  {
    var cs := Counters(s.ws);
    if s.lis.Counting? && s.lis.target < |s.ws| {
      var t := s.lis.target;
      SumUpdate(cs, t, cs[t] + 1);
      SumMonotone(Registrations(s.ws), cs[t := cs[t] + 1]);
    } else {
      SumMonotone(Registrations(s.ws), cs);
    }
  }

  // ---- preservation ---------------------------------------------------------------------------

  lemma Start(n: nat, maxclients: nat, maxevents: nat)
    ensures Accounted(Init(n, maxclients, maxevents)) && Conserved(Init(n, maxclients, maxevents))
  {
    var s := Init(n, maxclients, maxevents);
    SumOfConstant(Counters(s.ws), 0);
    SumOfConstant(Registrations(s.ws), 0);
    SumOfConstant(Closings(s.ws), 0);
  }

  lemma DropShrinks(t: Worker, fd: Fd)
    requires fd in t.interest
    ensures |Drop(t, fd).interest| == |t.interest| - 1
  {
    assert t.interest.Keys == (t.interest - {fd}).Keys + {fd};
    assert |t.interest.Keys| == |t.interest| && |(t.interest - {fd}).Keys| == |t.interest - {fd}|;
  }

  /** A turn trades a registration for a pending decrement, and later the pending decrement for the counter. */
  lemma TurnAccounts(t: Worker, open: map<Fd, File>, ok: bool)
    requires CanMove(t, open, ok) && (Handling(t.pc) ==> Registered(t, open, t.cur.fd))
    ensures var t' := Turn(t, open, ok);
            && |t'.interest| == |t.interest| - (if t.pc.Unregister? then 1 else 0)
            && t'.counter == t.counter - (if t.pc.Decrement? then 1 else 0)
            && t'.pc.CloseFd? == t.pc.Unregister?
            && Leaving(t'.pc) == Leaving(t.pc) + (if t.pc.Unregister? then 1 else 0) - (if t.pc.Decrement? then 1 else 0)
  {
    if t.pc.Unregister? {
      DropShrinks(t, t.cur.fd);
    } else if t.pc.ArmWrite? || t.pc.ArmRead? {
      var t' := Turn(t, open, ok);
      assert t'.interest.Keys == t.interest.Keys;
      assert |t'.interest.Keys| == |t'.interest| && |t.interest.Keys| == |t.interest|;
    }
  }

  lemma AdvanceStep(s: State, w: nat, ok: bool)
    requires WellOwned(s) && Accounted(s) && Conserved(s) && Enabled(s, Advance(w, ok))
    ensures Accounted(Next(s, Advance(w, ok))) && Conserved(Next(s, Advance(w, ok)))
  {
    var t := s.ws[w];
    assert WorkerAccounts(t, w, s.lis);
    MoveIsTurn(s, w, ok);
    if Handling(t.pc) {
      HandledIsRegistered(s, w);
    }
    TurnAccounts(t, s.open, ok);
    PutTotals(s.ws, w, Turn(t, s.open, ok));
    AccountsAfterPut(s, w, Turn(t, s.open, ok), Next(s, Advance(w, ok)));
  }

  lemma AccountsAfterPut(s: State, w: nat, t: Worker, s': State)
    requires Accounted(s) && w < |s.ws| && WorkerAccounts(t, w, s.lis)
    requires s'.ws == s.ws[w := t] && s'.lis == s.lis
    ensures Accounted(s')
  {
  }

  /** A new registration, not counted yet. */
  lemma AddAccounts(s: State)
    requires WellOwned(s) && Accounted(s) && Enabled(s, Add(true))
    ensures Accounted(Next(s, Add(true)))
  {
    var t, s' := s.lis.target, Next(s, Add(true));
    HeldIsUnregistered(s, t);
    forall w | 0 <= w < |s.ws| ensures WorkerAccounts(s'.ws[w], w, s'.lis) {
      assert WorkerAccounts(s.ws[w], w, s.lis);
    }
  }

  lemma AddConserves(s: State)
    requires WellOwned(s) && Conserved(s) && Enabled(s, Add(true))
    ensures Conserved(Next(s, Add(true)))
  {
    var t := s.lis.target;
    HeldIsUnregistered(s, t);
    PutTotals(s.ws, t, Next(s, Add(true)).ws[t]);
  }

  lemma AddStep(s: State, ok: bool)
    requires WellOwned(s) && Accounted(s) && Conserved(s) && Enabled(s, Add(ok))
    ensures Accounted(Next(s, Add(ok))) && Conserved(Next(s, Add(ok)))
  {
    if ok {
      AddAccounts(s);
      AddConserves(s);
    } else {
      Undisturbed(s, Next(s, Add(false)));
    }
  }

  lemma IncrementStep(s: State)
    requires Accounted(s) && Conserved(s) && Enabled(s, Increment)
    ensures Accounted(Next(s, Increment)) && Conserved(Next(s, Increment))
  {
    assert WorkerAccounts(s.ws[s.lis.target], s.lis.target, s.lis);
    PutTotals(s.ws, s.lis.target, Next(s, Increment).ws[s.lis.target]);
  }

  lemma WaitStep(s: State, w: nat, fds: seq<Fd>)
    requires Accounted(s) && Conserved(s) && Enabled(s, Wait(w, fds))
    ensures Accounted(Next(s, Wait(w, fds))) && Conserved(Next(s, Wait(w, fds)))
  {
    assert WorkerAccounts(s.ws[w], w, s.lis);
    PutTotals(s.ws, w, Next(s, Wait(w, fds)).ws[w]);
  }

  /** Steps that change no counter, no interest set's size and no program counter of a worker. */
  lemma Undisturbed(s: State, s': State)
    requires Accounted(s) && Conserved(s) && |s'.ws| == |s.ws|
    requires forall w | 0 <= w < |s.ws| ::
      s'.ws[w].counter == s.ws[w].counter && s'.ws[w].interest == s.ws[w].interest && s'.ws[w].pc == s.ws[w].pc
    requires (!s.lis.Counting? && !s'.lis.Counting?) || s'.lis == s.lis
    requires s'.hist.accepted - s'.hist.rejected - s'.hist.addFailed - Held(s'.lis)
          == s.hist.accepted - s.hist.rejected - s.hist.addFailed - Held(s.lis)
    requires s'.hist.tornDown == s.hist.tornDown
    requires s'.hist.increments == s.hist.increments && s'.hist.decrements == s.hist.decrements
    ensures Accounted(s') && Conserved(s')
  {
    assert Counters(s'.ws) == Counters(s.ws);
    assert Registrations(s'.ws) == Registrations(s.ws);
    assert Closings(s'.ws) == Closings(s.ws);
    forall w | 0 <= w < |s.ws| ensures WorkerAccounts(s'.ws[w], w, s'.lis) {
      assert WorkerAccounts(s.ws[w], w, s.lis);
    }
  }

  lemma AcceptStep(s: State, fd: Fd, level: Mask)
    requires Accounted(s) && Conserved(s) && Enabled(s, Accept(fd, level))
    ensures Accounted(Next(s, Accept(fd, level))) && Conserved(Next(s, Accept(fd, level)))
  {
    Undisturbed(s, Next(s, Accept(fd, level)));
  }

  lemma ScanStep(s: State, a: Action)
    requires Accounted(s) && Conserved(s) && Enabled(s, a)
    requires a.ReadSum? || a.ReadLeft? || a.ReadRight? || a.Compare? || a.Decide?
    ensures Accounted(Next(s, a)) && Conserved(Next(s, a))
  {
    Undisturbed(s, Next(s, a));
  }

  lemma RejectStep(s: State)
    requires WellOwned(s) && Accounted(s) && Conserved(s) && Enabled(s, CloseRejected)
    ensures Accounted(Next(s, CloseRejected)) && Conserved(Next(s, CloseRejected))
  {
    RejectForgetsNothing(s);
    Undisturbed(s, Next(s, CloseRejected));
  }

  lemma OutsideStep(s: State, a: Action)
    requires Accounted(s) && Conserved(s) && Enabled(s, a) && ThreadOf(a) == Outside
    ensures Accounted(Next(s, a)) && Conserved(Next(s, a))
  {
    Undisturbed(s, Next(s, a));
  }

  lemma Step(s: State, a: Action)
    requires WellOwned(s) && Accounted(s) && Conserved(s) && Enabled(s, a)
    ensures Accounted(Next(s, a)) && Conserved(Next(s, a))
  {
    match a
    case Advance(w, ok) => AdvanceStep(s, w, ok);
    case Add(ok) => AddStep(s, ok);
    case Increment => IncrementStep(s);
    case Wait(w, fds) => WaitStep(s, w, fds);
    case Accept(fd, level) => AcceptStep(s, fd, level);
    case CloseRejected => RejectStep(s);
    case Rise(_, _) => OutsideStep(s, a);
    case Fall(_, _) => OutsideStep(s, a);
    case _ => ScanStep(s, a);
  }
}
