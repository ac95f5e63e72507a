/**
 No event gets lost inside a worker.  What epoll_wait has reported is, in order, the events that have
 been dealt with, the one being handled, and the rest of the batch; and an event has been dealt
 with when its connection has been closed by this very worker or re-armed, or the kernel has refused to.
 */
module Batches {
  import opened Epoll
  import opened Server
  import opened Ownership
  import opened Decision

  function Events(done: seq<Outcome>): (r: seq<Event>)
    ensures |r| == |done|
  {
    seq(|done|, i requires 0 <= i < |done| => done[i].ev)
  }

  /** The event being handled, as a sequence of at most one. */
  function Current(t: Worker): seq<Event> {
    if t.pc.Top? then [] else [t.cur]
  }

  predicate EndedWell(d: Outcome, w: nat, closes: seq<Closing>) {
    && !d.Neglected?
    && (d.Closed? ==> Closing(d.ev.inc, ByWorker(w)) in closes)
    && (d.ev.flags * {Err, Hup, RdHup} != {} ==> d.Closed?)
  }

  ghost predicate WorkerSettles(t: Worker, w: nat, closes: seq<Closing>) {
    && t.reported == Events(t.done) + Current(t) + t.batch
    && (forall i | 0 <= i < |t.done| :: EndedWell(t.done[i], w, closes))
    && (t.pc.Decrement? ==> Closing(t.cur.inc, ByWorker(w)) in closes)
  }

  ghost predicate Settled(s: State) {
    forall w | 0 <= w < |s.ws| :: WorkerSettles(s.ws[w], w, s.hist.closes)
  }

  // ---- preservation ---------------------------------------------------------------------------

  lemma Start(n: nat, maxclients: nat, maxevents: nat)
    ensures Settled(Init(n, maxclients, maxevents))
  {
  }

  lemma PushOutcome(done: seq<Outcome>, d: Outcome)
    ensures Events(done + [d]) == Events(done) + [d.ev]
  {
  }

  lemma FetchSettles(t: Worker, w: nat, closes: seq<Closing>, batch: seq<Event>, taken: set<Fd>)
    requires WorkerSettles(t, w, closes) && t.pc.Top? && t.batch == []
    ensures WorkerSettles(Fetch(t, batch, taken), w, closes)
  {
    assert t.reported == Events(t.done);
  }

  /** A turn at the end of an event adds its outcome; every other turn leaves the sequence as it is. */
  lemma TurnSettles(t: Worker, w: nat, closes: seq<Closing>, open: map<Fd, File>, ok: bool, closes': seq<Closing>)
    requires WorkerSettles(t, w, closes) && WorkerDecides(t) && CanMove(t, open, ok)
    requires closes <= closes' && (t.pc.CloseFd? ==> Closing(t.cur.inc, ByWorker(w)) in closes')
    ensures WorkerSettles(Turn(t, open, ok), w, closes')
  {
    var t' := Turn(t, open, ok);
    if t.pc.Top? {
      assert t.batch == [t.batch[0]] + t.batch[1..];
    } else if t.pc.TestErr? {
      ClosesIffOwnHandlerFailed(t, open, ok);
      PushOutcome(t.done, OutcomeOf(t));
    } else if t.pc.Decrement? {
      PushOutcome(t.done, Closed(t.cur));
    } else {
      StillHandling(t, open, ok);
    }
  }

  lemma StillHandling(t: Worker, open: map<Fd, File>, ok: bool)
    requires CanMove(t, open, ok) && !t.pc.Top? && !t.pc.TestErr? && !t.pc.Decrement?
    ensures var t' := Turn(t, open, ok);
            && t'.reported == t.reported && t'.done == t.done && t'.batch == t.batch && t'.cur == t.cur && !t'.pc.Top?
            && (t'.pc.Decrement? <==> t.pc.CloseFd?)
  {
    if t.pc.ArmWrite? {
      RearmIsQuiet(t, open, Write, ok);
    } else if t.pc.ArmRead? {
      RearmIsQuiet(t, open, Read, ok);
    }
  }

  lemma RearmIsQuiet(t: Worker, open: map<Fd, File>, mode: Mode, ok: bool)
    requires ok ==> Registered(t, open, t.cur.fd)
    ensures var t' := Rearm(t, open, mode, ok);
            t'.reported == t.reported && t'.done == t.done && t'.batch == t.batch && t'.cur == t.cur
  {
  }

  lemma AdvanceStep(s: State, w: nat, ok: bool)
    requires WellOwned(s) && Decided(s) && Settled(s) && Enabled(s, Advance(w, ok))
    ensures Settled(Next(s, Advance(w, ok)))
  {
    var s' := Next(s, Advance(w, ok));
    MoveIsTurn(s, w, ok);
    if s.ws[w].pc.CloseFd? {
      CloseForgetsNothing(s, w);
    }
    TurnSettles(s.ws[w], w, s.hist.closes, s.open, ok, s'.hist.closes);
    Monotone(s, s', w);
  }

  /** What worker w has done; nothing is ever un-closed. */
  lemma Monotone(s: State, s': State, w: nat)
    requires Settled(s) && |s'.ws| == |s.ws| && s.hist.closes <= s'.hist.closes
    requires forall j | 0 <= j < |s.ws| && j != w :: SameEvents(s.ws[j], s'.ws[j])
    requires w < |s.ws| ==> WorkerSettles(s'.ws[w], w, s'.hist.closes)
    ensures Settled(s')
  {
    forall j | 0 <= j < |s.ws| ensures WorkerSettles(s'.ws[j], j, s'.hist.closes) {
      if j != w {
        assert SameEvents(s.ws[j], s'.ws[j]) && WorkerSettles(s.ws[j], j, s.hist.closes);
      }
    }
  }

  predicate SameEvents(t: Worker, t': Worker) {
    t'.reported == t.reported && t'.done == t.done && t'.cur == t.cur && t'.batch == t.batch && t'.pc == t.pc
  }

  lemma OtherStep(s: State, a: Action)
    requires Settled(s) && Enabled(s, a) && !a.Advance? && !a.Wait?
    ensures Settled(Next(s, a))
  {
    Monotone(s, Next(s, a), |s.ws|);
  }

  lemma Step(s: State, a: Action)
    requires WellOwned(s) && Decided(s) && Settled(s) && Enabled(s, a)
    ensures Settled(Next(s, a))
  {
    match a
    case Advance(w, ok) => AdvanceStep(s, w, ok);
    case Wait(w, fds) =>
      FetchSettles(s.ws[w], w, s.hist.closes, Collect(s.ws[w], s.open, fds), set fd | fd in fds);
      Monotone(s, Next(s, a), w);
    case _ => OtherStep(s, a);
  }
}
