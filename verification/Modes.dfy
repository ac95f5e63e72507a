/**
 The mode machine of a connection.  A connection is registered for writing; every event its worker
 re-arms turns it round, and a refused mode change leaves it as it is.  So the events re-armed
 alternate Out, In, Out, ..., and their number says what the connection is armed for.
 */
module Modes {
  import opened Epoll
  import opened Server
  import opened Ownership
  import opened Decision

  /** What an event with a handler has been about. */
  function Direction(e: Event): Flag {
    if Out in e.flags then Out else In
  }

  /** The directions of the events of incarnation `inc` that have been re-armed, in order. */
  function Turns(done: seq<Outcome>, inc: nat): seq<Flag> {
    if done == [] then [] else
      var d := done[|done| - 1];
      Turns(done[..|done| - 1], inc) + if d.Rearmed? && d.ev.inc == inc then [Direction(d.ev)] else []
  }

  /** What the k-th of them (from 0) is about. */
  function TurnOf(k: nat): Flag {
    if k % 2 == 0 then Out else In
  }

  /** What the connection is registered for after k of them. */
  function MaskAfter(k: nat): Mask {
    if k == 0 then {Out, Err, Hup, RdHup, Et}
    else if k % 2 == 1 then {In, Err, Hup, Et}
    else {Out, Err, Hup, Et}
  }

  /** The event being handled has turned the connection round already. */
  predicate Turned(t: Worker, inc: nat) {
    Handling(t.pc) && t.cur.inc == inc && t.rearmed && t.cur.fd !in t.stuck
  }

  function Changes(t: Worker, inc: nat): nat {
    |Turns(t.done, inc)| + if Turned(t, inc) then 1 else 0
  }

  ghost predicate Alternate(done: seq<Outcome>) {
    forall inc, j | 0 <= j < |Turns(done, inc)| :: Turns(done, inc)[j] == TurnOf(j)
  }

  predicate WithinMask(t: Worker, e: Event) {
    e.fd in t.interest && e.flags <= t.interest[e.fd].mask
  }

  ghost predicate AllPlaced(t: Worker, placed: map<nat, nat>) {
    && (forall i | 0 <= i < |t.done| :: t.done[i].ev.inc in placed)
    && (!t.pc.Top? ==> t.cur.inc in placed)
  }

  predicate CurrentOk(t: Worker) {
    && (Handling(t.pc) && !t.rearmed ==> WithinMask(t, t.cur))
    && (Turned(t, t.cur.inc) ==> Direction(t.cur) == TurnOf(|Turns(t.done, t.cur.inc)|) && Direction(t.cur) in t.cur.flags)
  }

  ghost predicate WorkerModes(t: Worker, placed: map<nat, nat>) {
    && AllPlaced(t, placed) && Alternate(t.done) && CurrentOk(t)
    && (forall fd | fd in t.interest :: t.interest[fd].mask == MaskAfter(Changes(t, t.interest[fd].inc)))
    && (forall i | 0 <= i < |t.batch| :: WithinMask(t, t.batch[i]))
  }

  ghost predicate Moded(s: State) {
    forall w | 0 <= w < |s.ws| :: WorkerModes(s.ws[w], s.hist.placed)
  }

  // ---- consequences ---------------------------------------------------------------------------

  lemma MaskParity(k: nat)
    ensures Out in MaskAfter(k) <==> k % 2 == 0
    ensures In in MaskAfter(k) <==> k % 2 == 1
  {
  }

  /** The mode an event asks for: the opposite of what it is about. */
  function Answer(e: Event): Mode {
    if Direction(e) == In then Write else Read
  }

  /** An event that has turned its connection round leaves it armed the other way. */
  lemma TurnedIsOpposite(t: Worker, placed: map<nat, nat>)
    requires WorkerModes(t, placed) && Turned(t, t.cur.inc) && Has(t, t.cur.fd, t.cur.inc)
    ensures t.interest[t.cur.fd].mask == ChangeMask(Answer(t.cur), true)
  {
  }

  /** The connection of the event being handled is armed for the opposite of what the event was about, unless the change has failed. */
  predicate TurnedRound(t: Worker) {
    Has(t, t.cur.fd, t.cur.inc) && (t.cur.fd in t.stuck || t.interest[t.cur.fd].mask == ChangeMask(Answer(t.cur), true))
  }

  lemma EndTurnsRound(t: Worker, placed: map<nat, nat>, open: map<Fd, File>, ok: bool)
    requires WorkerModes(t, placed) && WorkerDecides(t) && t.pc.TestErr? && Has(t, t.cur.fd, t.cur.inc)
    ensures Turn(t, open, ok).pc.Top? ==> Turn(t, open, ok).rearmed && TurnedRound(Turn(t, open, ok))
  {
    ClosesIffOwnHandlerFailed(t, open, ok);
    if Turned(t, t.cur.inc) {
      TurnedIsOpposite(t, placed);
    }
  }

  // ---- preservation ---------------------------------------------------------------------------

  lemma Start(n: nat, maxclients: nat, maxevents: nat)
    ensures Moded(Init(n, maxclients, maxevents))
  {
  }

  lemma {:induction false} TurnsPush(done: seq<Outcome>, d: Outcome, inc: nat)
    ensures Turns(done + [d], inc) == Turns(done, inc) + if d.Rearmed? && d.ev.inc == inc then [Direction(d.ev)] else []
  {
    assert (done + [d])[..|done|] == done;
  }

  lemma AlternatePush(done: seq<Outcome>, d: Outcome)
    requires Alternate(done)
    requires d.Rearmed? ==> Direction(d.ev) == TurnOf(|Turns(done, d.ev.inc)|)
    ensures Alternate(done + [d])
  {
    forall inc, j | 0 <= j < |Turns(done + [d], inc)| ensures Turns(done + [d], inc)[j] == TurnOf(j) {
      TurnsPush(done, d, inc);
    }
  }

  lemma {:induction false} NoTurnsYet(done: seq<Outcome>, inc: nat)
    requires forall i | 0 <= i < |done| :: done[i].ev.inc != inc
    ensures Turns(done, inc) == []
  {
    if done != [] {
      NoTurnsYet(done[..|done| - 1], inc);
    }
  }

  /** Two connections of a worker are two incarnations. */
  ghost predicate Apart(t: Worker) {
    forall fd, fd' | fd in t.interest && fd' in t.interest && t.interest[fd].inc == t.interest[fd'].inc :: fd == fd'
  }

  lemma OwnedAreApart(s: State, w: nat)
    requires WellOwned(s) && w < |s.ws|
    ensures Apart(s.ws[w])
  {
    assert WorkerOwns(s.ws[w], w, s.open, s.hist.placed);
  }

  /** A worker whose registrations, outcomes and events are as before. */
  lemma SameModes(t: Worker, t': Worker, placed: map<nat, nat>)
    requires WorkerModes(t, placed) && t'.interest == t.interest && t'.done == t.done && t'.batch == t.batch
    requires t'.cur == t.cur && t'.rearmed == t.rearmed && t'.stuck == t.stuck
    requires Handling(t'.pc) == Handling(t.pc) && t'.pc.Top? == t.pc.Top?
    ensures WorkerModes(t', placed)
  {
    assert forall inc :: Changes(t', inc) == Changes(t, inc);
  }

  lemma TakeModes(t: Worker, open: map<Fd, File>, ok: bool, placed: map<nat, nat>)
    requires WorkerModes(t, placed) && t.pc.Top? && t.batch != []
    requires Has(t, t.batch[0].fd, t.batch[0].inc) && t.batch[0].inc in placed
    ensures WorkerModes(Turn(t, open, ok), placed)
  {
    var t' := Turn(t, open, ok);
    assert forall inc :: Changes(t', inc) == Changes(t, inc);
    forall i | 0 <= i < |t'.batch| ensures WithinMask(t', t'.batch[i]) {
      assert WithinMask(t, t.batch[i + 1]);
    }
    assert WithinMask(t, t.batch[0]);
  }

  /** i_epoll_change_mode: the mode is the opposite of what the event is about. */
  lemma RearmModes(t: Worker, open: map<Fd, File>, ok: bool, pc: Pc, placed: map<nat, nat>)
    requires WorkerModes(t, placed) && Apart(t) && Handling(t.pc) && Handling(pc) && !t.rearmed && Has(t, t.cur.fd, t.cur.inc)
    requires Direction(t.cur) in t.cur.flags && (forall i | 0 <= i < |t.batch| :: t.batch[i].fd != t.cur.fd)
    requires ok ==> Registered(t, open, t.cur.fd)
    ensures WorkerModes(Rearm(t, open, Answer(t.cur), ok).(pc := pc), placed)
  {
    var t', k := Rearm(t, open, Answer(t.cur), ok).(pc := pc), |Turns(t.done, t.cur.inc)|;
    MaskParity(k);
    assert t'.done == t.done && t'.cur == t.cur && t'.batch == t.batch;
    assert WithinMask(t, t.cur);
    assert Direction(t.cur) == TurnOf(k);
    forall fd | fd in t'.interest ensures t'.interest[fd].mask == MaskAfter(Changes(t', t'.interest[fd].inc)) {
      if fd != t.cur.fd {
        assert t'.interest[fd] == t.interest[fd] && t.interest[fd].inc != t.cur.inc;
      }
    }
    forall i | 0 <= i < |t'.batch| ensures WithinMask(t', t'.batch[i]) {
      assert WithinMask(t, t.batch[i]);
    }
  }

  /** The end of an event that leaves its connection open. */
  lemma EndModes(t: Worker, t': Worker, placed: map<nat, nat>)
    requires WorkerModes(t, placed) && Handling(t.pc) && t.rearmed
    requires t' == t.(nRet := t'.nRet, failed := t'.failed, pc := Top, done := t.done + [OutcomeOf(t)])
    ensures WorkerModes(t', placed)
  {
    AlternatePush(t.done, OutcomeOf(t));
    forall inc ensures Changes(t', inc) == Changes(t, inc) {
      TurnsPush(t.done, OutcomeOf(t), inc);
    }
  }

  lemma DropModes(t: Worker, placed: map<nat, nat>)
    requires WorkerModes(t, placed) && Apart(t) && Handling(t.pc) && Has(t, t.cur.fd, t.cur.inc)
    requires forall i | 0 <= i < |t.batch| :: t.batch[i].fd != t.cur.fd
    ensures WorkerModes(Drop(t, t.cur.fd).(pc := CloseFd), placed)
  {
    var t' := Drop(t, t.cur.fd).(pc := CloseFd);
    forall fd | fd in t'.interest ensures t'.interest[fd].mask == MaskAfter(Changes(t', t'.interest[fd].inc)) {
      assert t.interest[fd].inc != t.cur.inc;
    }
    forall i | 0 <= i < |t'.batch| ensures WithinMask(t', t'.batch[i]) {
      assert WithinMask(t, t.batch[i]);
    }
  }

  lemma CountModes(t: Worker, placed: map<nat, nat>)
    requires WorkerModes(t, placed) && t.pc.Decrement?
    ensures WorkerModes(t.(counter := t.counter - 1, pc := Top, done := t.done + [Closed(t.cur)]), placed)
  {
    var t' := t.(counter := t.counter - 1, pc := Top, done := t.done + [Closed(t.cur)]);
    AlternatePush(t.done, Closed(t.cur));
    forall inc ensures Changes(t', inc) == Changes(t, inc) {
      TurnsPush(t.done, Closed(t.cur), inc);
    }
  }

  lemma TestModes(t: Worker, open: map<Fd, File>, ok: bool, placed: map<nat, nat>)
    requires WorkerModes(t, placed) && WorkerDecides(t) && CanMove(t, open, ok)
    requires t.pc.TestIn? || t.pc.TestOut? || t.pc.TestErr? || t.pc.CloseFd?
    ensures WorkerModes(Turn(t, open, ok), placed)
  {
    if t.pc.TestErr? {
      ClosesIffOwnHandlerFailed(t, open, ok);
    }
    if Turn(t, open, ok).pc.Top? {
      EndModes(t, Turn(t, open, ok), placed);
    } else {
      SameModes(t, Turn(t, open, ok), placed);
    }
  }

  /** Changing the mode, or giving the connection up. */
  lemma HandledModes(t: Worker, open: map<Fd, File>, ok: bool, placed: map<nat, nat>)
    requires WorkerModes(t, placed) && WorkerDecides(t) && CanMove(t, open, ok) && Apart(t)
    requires t.pc.ArmWrite? || t.pc.ArmRead? || t.pc.Unregister?
    requires Registered(t, open, t.cur.fd) && Has(t, t.cur.fd, t.cur.inc)
    requires forall i | 0 <= i < |t.batch| :: t.batch[i].fd != t.cur.fd
    ensures WorkerModes(Turn(t, open, ok), placed)
  {
    match t.pc
    case ArmWrite => RearmModes(t, open, ok, TestOut, placed);
    case ArmRead => RearmModes(t, open, ok, TestErr, placed);
    case Unregister => DropModes(t, placed);
  }

  lemma TurnModes(s: State, w: nat, ok: bool)
    requires WellOwned(s) && Decided(s) && Moded(s) && Enabled(s, Advance(w, ok))
    ensures WorkerModes(Turn(s.ws[w], s.open, ok), s.hist.placed)
  {
    var t, placed := s.ws[w], s.hist.placed;
    assert WorkerOwns(t, w, s.open, placed) && WorkerDecides(t) && WorkerModes(t, placed);
    match t.pc
    case Top =>
      assert Has(t, t.batch[0].fd, t.batch[0].inc);
      TakeModes(t, s.open, ok, placed);
    case Decrement => CountModes(t, placed);
    case TestIn => TestModes(t, s.open, ok, placed);
    case TestOut => TestModes(t, s.open, ok, placed);
    case TestErr => TestModes(t, s.open, ok, placed);
    case CloseFd => TestModes(t, s.open, ok, placed);
    case _ =>
      OwnedAreApart(s, w);
      HandledIsRegistered(s, w);
      HandledModes(t, s.open, ok, placed);
  }

  lemma AdvanceStep(s: State, w: nat, ok: bool)
    requires WellOwned(s) && Decided(s) && Moded(s) && Enabled(s, Advance(w, ok))
    ensures Moded(Next(s, Advance(w, ok)))
  {
    MoveIsTurn(s, w, ok);
    TurnModes(s, w, ok);
  }

  lemma WaitStep(s: State, w: nat, fds: seq<Fd>)
    requires Moded(s) && Enabled(s, Wait(w, fds))
    ensures Moded(Next(s, Wait(w, fds)))
  {
    var t, t' := s.ws[w], Next(s, Wait(w, fds)).ws[w];
    assert WorkerModes(t, s.hist.placed);
    CollectReports(t, s.open, fds);
    assert forall inc :: Changes(t', inc) == Changes(t, inc);
    forall i | 0 <= i < |t'.batch| ensures WithinMask(t', t'.batch[i]) {
      assert Reports(t, s.open, t'.batch[i]);
    }
  }

  /** A new incarnation starts with no turns. */
  lemma AddStep(s: State)
    requires WellOwned(s) && Moded(s) && Enabled(s, Add(true))
    ensures Moded(Next(s, Add(true)))
  {
    var s', v := Next(s, Add(true)), s.lis.target;
    HeldIsUnregistered(s, v);
    forall w | 0 <= w < |s.ws| ensures WorkerModes(s'.ws[w], s'.hist.placed) {
      assert WorkerModes(s.ws[w], s.hist.placed);
      if w == v {
        assert WorkerOwns(s.ws[w], w, s.open, s.hist.placed);
        ArmModes(s.ws[w], s.open[s.lis.fd], s.lis.fd, s.hist.placed, v);
      }
    }
  }

  lemma ArmModes(t: Worker, file: File, fd: Fd, placed: map<nat, nat>, w: nat)
    requires WorkerModes(t, placed) && fd !in t.interest && file.inc !in placed
    requires (forall x | x in t.interest :: t.interest[x].inc in placed) && (Handling(t.pc) ==> t.cur.fd in t.interest)
    ensures WorkerModes(Arm(t, fd, file, AddMask(Write, true)), placed[file.inc := w])
  {
    var t' := Arm(t, fd, file, AddMask(Write, true));
    NoTurnsYet(t.done, file.inc);
    assert forall inc :: Changes(t', inc) == Changes(t, inc);
    forall i | 0 <= i < |t'.batch| ensures WithinMask(t', t'.batch[i]) {
      assert WithinMask(t, t.batch[i]);
    }
  }

  lemma OtherStep(s: State, a: Action)
    requires WellOwned(s) && Moded(s) && Enabled(s, a) && !a.Advance? && !a.Wait? && a != Add(true)
    ensures Moded(Next(s, a))
  {
    if a.CloseRejected? {
      RejectForgetsNothing(s);
    }
    forall w | 0 <= w < |s.ws| ensures WorkerModes(Next(s, a).ws[w], Next(s, a).hist.placed) {
      assert WorkerModes(s.ws[w], s.hist.placed);
      SameModes(s.ws[w], Next(s, a).ws[w], s.hist.placed);
    }
  }

  lemma Step(s: State, a: Action)
    requires WellOwned(s) && Decided(s) && Moded(s) && Enabled(s, a)
    ensures Moded(Next(s, a))
  {
    match a
    case Advance(w, ok) => AdvanceStep(s, w, ok);
    case Wait(w, fds) => WaitStep(s, w, fds);
    case _ =>
      if a == Add(true) {
        AddStep(s);
      } else {
        OtherStep(s, a);
      }
  }
}
