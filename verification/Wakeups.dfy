/**
 No lost edge-triggered wakeup: a registered connection whose armed condition holds is queued in
 the kernel, or its event is in the rest of the batch, or it is being handled and has not been
 re-armed yet.  The one way out is an i_epoll_change_mode that fails, whose result the handlers
 ignore; `stuck` names the connections this has happened to.
 */
module Wakeups {
  import opened Epoll
  import opened Server
  import opened Ownership
  import opened Decision

  ghost predicate InBatch(batch: seq<Event>, fd: Fd) {
    exists i :: 0 <= i < |batch| && batch[i].fd == fd
  }

  ghost predicate Served(t: Worker, fd: Fd) {
    fd in t.ready || InBatch(t.batch, fd) || (Handling(t.pc) && t.cur.fd == fd && !t.rearmed)
  }

  predicate Armed(t: Worker, open: map<Fd, File>, fd: Fd) {
    fd in open && fd in t.interest && open[fd].level * t.interest[fd].mask != {}
  }

  ghost predicate WorkerAwake(t: Worker, open: map<Fd, File>) {
    forall fd | Armed(t, open, fd) :: Served(t, fd) || fd in t.stuck
  }

  ghost predicate Awake(s: State) {
    forall w | 0 <= w < |s.ws| :: WorkerAwake(s.ws[w], s.open)
  }

  lemma AwakeAt(s: State, w: nat, fd: Fd)
    requires Awake(s) && w < |s.ws| && fd !in s.ws[w].stuck && Armed(s.ws[w], s.open, fd)
    ensures Served(s.ws[w], fd)
    ensures s.ws[w].pc.Top? && s.ws[w].batch == [] ==> fd in s.ws[w].ready
  {
    assert WorkerAwake(s.ws[w], s.open);
  }

  function Wanted(pc: Pc): Mask {
    if pc.ArmWrite? then ChangeMask(Write, true) else ChangeMask(Read, true)
  }

  lemma ChangeOutcome(s: State, w: nat, ok: bool)
    requires WellOwned(s) && Enabled(s, Advance(w, ok)) && (s.ws[w].pc.ArmWrite? || s.ws[w].pc.ArmRead?)
    ensures var fd, t, s' := s.ws[w].cur.fd, s.ws[w], Next(s, Advance(w, ok));
            && fd in s.open && fd in t.interest
            && (Served(s'.ws[w], fd) <==> fd in t.ready || (ok && s.open[fd].level * Wanted(t.pc) != {}))
            && (Armed(s'.ws[w], s'.open, fd)
                <==> s.open[fd].level * (if ok then Wanted(t.pc) else t.interest[fd].mask) != {})
  {
    var t := s.ws[w];
    HandledIsRegistered(s, w);
    assert WorkerOwns(t, w, s.open, s.hist.placed);
    assert !InBatch(t.batch, t.cur.fd);
    assert Next(s, Advance(w, ok)).ws[w] == Turn(t, s.open, ok);
  }

  // ---- after a loss ---------------------------------------------------------------------------

  /** Registered for `mask`, but neither queued nor reported nor being handled. */
  ghost predicate Abandoned(t: Worker, fd: Fd, mask: Mask) {
    && fd in t.interest && t.interest[fd].mask == mask
    && fd !in t.ready && !InBatch(t.batch, fd) && !(Handling(t.pc) && t.cur.fd == fd)
  }

  /** The one thing that can help: one of the conditions in the mask comes up anew. */
  predicate Wakes(a: Action, fd: Fd, mask: Mask) {
    a.Rise? && a.fd == fd && a.flags * mask != {}
  }

  lemma {:induction false} CollectsOnly(t: Worker, open: map<Fd, File>, fds: seq<Fd>, fd: Fd)
    requires fd !in fds
    ensures !InBatch(Collect(t, open, fds), fd)
  {
    CollectReports(t, open, fds);
  }

  lemma TurnAbandons(t: Worker, open: map<Fd, File>, ok: bool, fd: Fd, mask: Mask)
    requires Abandoned(t, fd, mask) && CanMove(t, open, ok)
    ensures Abandoned(Turn(t, open, ok), fd, mask)
  {
    if t.pc.Top? {
      assert t.batch[0].fd != fd;
    } else if t.pc.TestIn? || t.pc.TestOut? || t.pc.TestErr? || t.pc.Decrement? {
      SameHoldings(t, open, ok);
    }
  }

  /** Whatever anybody does, short of that: the connection stays where it is. */
  lemma AbandonedStep(s: State, a: Action, w: nat, fd: Fd, mask: Mask)
    requires WellOwned(s) && Enabled(s, a) && w < |s.ws| && Abandoned(s.ws[w], fd, mask) && !Wakes(a, fd, mask)
    ensures |Next(s, a).ws| == |s.ws| && Abandoned(Next(s, a).ws[w], fd, mask)
  {
    match a
    case Advance(v, ok) =>
      MoveIsTurn(s, v, ok);
      if v == w {
        TurnAbandons(s.ws[w], s.open, ok, fd, mask);
      }
    case Wait(v, fds) =>
      if v == w {
        CollectsOnly(s.ws[w], s.open, fds, fd);
      }
    case CloseRejected => RejectForgetsNothing(s);
    case Add(_) => HeldIsUnregistered(s, w);
    case _ =>
  }

  // ---- preservation ---------------------------------------------------------------------------

  lemma Start(n: nat, maxclients: nat, maxevents: nat)
    ensures Awake(Init(n, maxclients, maxevents))
  {
  }

  lemma {:induction false} CollectMisses(t: Worker, open: map<Fd, File>, fds: seq<Fd>, fd: Fd)
    requires fd in fds && Armed(t, open, fd)
    ensures InBatch(Collect(t, open, fds), fd)
    decreases |fds|
  {
    var r := Collect(t, open, fds);
    if fds[0] == fd {
      assert r[0].fd == fd;
    } else {
      CollectMisses(t, open, fds[1..], fd);
      var rest := Collect(t, open, fds[1..]);
      var i :| 0 <= i < |rest| && rest[i].fd == fd;
      assert r[i].fd == fd || r[i + 1].fd == fd;
    }
  }

  lemma WaitAwake(t: Worker, open: map<Fd, File>, fds: seq<Fd>)
    requires WorkerAwake(t, open) && t.pc.Top? && t.batch == []
    ensures WorkerAwake(Fetch(t, Collect(t, open, fds), set fd | fd in fds), open)
  {
    var t' := Fetch(t, Collect(t, open, fds), set fd | fd in fds);
    forall fd | Armed(t', open, fd) ensures Served(t', fd) || fd in t'.stuck {
      assert Armed(t, open, fd);
      if fd in fds {
        CollectMisses(t, open, fds, fd);
      }
    }
  }

  lemma TakeAwake(t: Worker, open: map<Fd, File>, ok: bool)
    requires WorkerAwake(t, open) && t.pc.Top? && t.batch != []
    ensures WorkerAwake(Turn(t, open, ok), open)
  {
    var t' := Turn(t, open, ok);
    forall fd | Armed(t', open, fd) ensures Served(t', fd) || fd in t'.stuck {
      assert Armed(t, open, fd);
      if InBatch(t.batch, fd) && t.batch[0].fd != fd {
        var i :| 0 <= i < |t.batch| && t.batch[i].fd == fd;
        assert t'.batch[i - 1].fd == fd;
      }
    }
  }

  lemma RearmAwake(t: Worker, open: map<Fd, File>, mode: Mode, ok: bool, pc: Pc)
    requires WorkerAwake(t, open) && Handling(t.pc) && Handling(pc) && !t.rearmed
    requires ok ==> Registered(t, open, t.cur.fd)
    ensures WorkerAwake(Rearm(t, open, mode, ok).(pc := pc), open)
  {
    var t' := Rearm(t, open, mode, ok).(pc := pc);
    forall fd | Armed(t', open, fd) ensures Served(t', fd) || fd in t'.stuck {
      if fd != t.cur.fd {
        assert Armed(t, open, fd);
      }
    }
  }

  /** Dropping the current event is fine once it has been re-armed. */
  lemma SettleAwake(t: Worker, open: map<Fd, File>, t': Worker)
    requires WorkerAwake(t, open)
    requires t'.interest == t.interest && t'.ready == t.ready && t'.stuck == t.stuck
    requires t'.batch == t.batch && t'.cur == t.cur && t'.rearmed == t.rearmed
    requires Handling(t.pc) && !t.rearmed ==> Handling(t'.pc)
    ensures WorkerAwake(t', open)
  {
    forall fd | Armed(t', open, fd) ensures Served(t', fd) || fd in t'.stuck {
      assert Armed(t, open, fd);
    }
  }

  lemma UnregisterAwake(t: Worker, open: map<Fd, File>)
    requires WorkerAwake(t, open)
    ensures WorkerAwake(Drop(t, t.cur.fd).(pc := CloseFd), open)
  {
    var t' := Drop(t, t.cur.fd).(pc := CloseFd);
    forall fd | Armed(t', open, fd) ensures Served(t', fd) || fd in t'.stuck {
      assert Armed(t, open, fd);
    }
  }

  lemma TurnAwake(t: Worker, open: map<Fd, File>, ok: bool)
    requires WorkerAwake(t, open) && WorkerDecides(t) && CanMove(t, open, ok)
    requires Handling(t.pc) ==> Registered(t, open, t.cur.fd)
    ensures WorkerAwake(Turn(t, open, ok), open)
  {
    if t.pc.Top? {
      TakeAwake(t, open, ok);
    } else if t.pc.ArmWrite? {
      RearmAwake(t, open, Write, ok, TestOut);
    } else if t.pc.ArmRead? {
      RearmAwake(t, open, Read, ok, TestErr);
    } else if t.pc.Unregister? {
      UnregisterAwake(t, open);
    } else {
      if t.pc.TestErr? {
        ClosesIffOwnHandlerFailed(t, open, ok);
      }
      SettleAwake(t, open, Turn(t, open, ok));
    }
  }

  lemma AdvanceStep(s: State, w: nat, ok: bool)
    requires WellOwned(s) && Decided(s) && Awake(s) && Enabled(s, Advance(w, ok))
    ensures Awake(Next(s, Advance(w, ok)))
  {
    var s' := Next(s, Advance(w, ok));
    MoveIsTurn(s, w, ok);
    if Handling(s.ws[w].pc) {
      HandledIsRegistered(s, w);
    }
    TurnAwake(s.ws[w], s.open, ok);
    forall j | 0 <= j < |s.ws| ensures WorkerAwake(s'.ws[j], s'.open) {
      FewerFilesAwake(s'.ws[j], s.open, s'.open);
    }
  }

  lemma FewerFilesAwake(t: Worker, open: map<Fd, File>, open': map<Fd, File>)
    requires WorkerAwake(t, open)
    requires forall fd | fd in open' && fd in t.interest :: fd in open && open'[fd].level <= open[fd].level
    ensures WorkerAwake(t, open')
  {
    forall fd | Armed(t, open', fd) ensures Served(t, fd) || fd in t.stuck {
      var f :| f in open'[fd].level * t.interest[fd].mask;
      assert f in open[fd].level * t.interest[fd].mask;
      assert Armed(t, open, fd);
    }
  }

  lemma RiseAwake(t: Worker, w: nat, open: map<Fd, File>, placed: map<nat, nat>, fd: Fd, flags: Mask)
    requires WorkerAwake(t, open) && WorkerOwns(t, w, open, placed) && fd in open
    ensures WorkerAwake(Wake(t, fd, open[fd].inc, flags), open[fd := open[fd].(level := open[fd].level + flags)])
  {
    var t', open' := Wake(t, fd, open[fd].inc, flags), open[fd := open[fd].(level := open[fd].level + flags)];
    forall x | Armed(t', open', x) ensures Served(t', x) || x in t'.stuck {
      if x == fd && open[fd].level * t.interest[fd].mask == {} {
        var f :| f in open'[fd].level * t.interest[fd].mask;
        assert f !in open[fd].level * t.interest[fd].mask;
        assert f in flags * t.interest[fd].mask;
        assert Owned(fd, t.interest[fd].inc, w, open, placed);
      } else {
        assert Armed(t, open, x);
      }
    }
  }

  lemma OutsideStep(s: State, a: Action)
    requires WellOwned(s) && Awake(s) && Enabled(s, a) && ThreadOf(a) == Outside
    ensures Awake(Next(s, a))
  {
    var s' := Next(s, a);
    forall w | 0 <= w < |s.ws| ensures WorkerAwake(s'.ws[w], s'.open) {
      assert WorkerOwns(s.ws[w], w, s.open, s.hist.placed) && WorkerAwake(s.ws[w], s.open);
      if a.Rise? {
        RiseAwake(s.ws[w], w, s.open, s.hist.placed, a.fd, a.flags);
      } else {
        FewerFilesAwake(s.ws[w], s.open, s'.open);
      }
    }
  }

  lemma ArmAwake(t: Worker, open: map<Fd, File>, fd: Fd, mask: Mask)
    requires WorkerAwake(t, open) && fd in open
    ensures WorkerAwake(Arm(t, fd, open[fd], mask), open)
  {
    var t' := Arm(t, fd, open[fd], mask);
    forall x | Armed(t', open, x) ensures Served(t', x) || x in t'.stuck {
      if x != fd {
        assert Armed(t, open, x);
      }
    }
  }

  lemma CountAwake(t: Worker, open: map<Fd, File>, c: int)
    requires WorkerAwake(t, open)
    ensures WorkerAwake(t.(counter := c), open)
  {
    forall fd | Armed(t.(counter := c), open, fd) ensures Served(t.(counter := c), fd) || fd in t.stuck {
      assert Armed(t, open, fd);
    }
  }

  lemma ListenerStep(s: State, a: Action)
    requires WellOwned(s) && Awake(s) && Enabled(s, a) && ThreadOf(a) == ListenerThread
    ensures Awake(Next(s, a))
  {
    var s' := Next(s, a);
    if a.CloseRejected? {
      RejectForgetsNothing(s);
    }
    forall w | 0 <= w < |s.ws| ensures WorkerAwake(s'.ws[w], s'.open) {
      assert WorkerOwns(s.ws[w], w, s.open, s.hist.placed) && WorkerAwake(s.ws[w], s.open);
      if a.Add? && a.ok && s.lis.target == w {
        ArmAwake(s.ws[w], s.open, s.lis.fd, AddMask(Write, true));
      } else if a.Increment? && s.lis.target == w {
        CountAwake(s.ws[w], s.open, s.ws[w].counter + 1);
      } else {
        FewerFilesAwake(s.ws[w], s.open, s'.open);
      }
    }
  }

  lemma Step(s: State, a: Action)
    requires WellOwned(s) && Decided(s) && Awake(s) && Enabled(s, a)
    ensures Awake(Next(s, a))
  {
    match a
    case Advance(w, ok) => AdvanceStep(s, w, ok);
    case Wait(w, fds) => WaitAwake(s.ws[w], s.open, fds);
    case Rise(_, _) => OutsideStep(s, a);
    case Fall(_, _) => OutsideStep(s, a);
    case _ => ListenerStep(s, a);
  }
}
