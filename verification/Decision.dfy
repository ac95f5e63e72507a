/**
 nRet is one variable for a whole batch, and iError, iRead and iWrite overwrite it in turn.
 Connections are always armed for exactly one of IN and OUT, so what decides iClose is always
 a handler of the very event being handled.
 */
module Decision {
  import opened Epoll
  import opened Server
  import opened Ownership

  predicate EventOk(e: Event) {
    e.flags != {} && IsLevel(e.flags) && !(In in e.flags && Out in e.flags)
  }

  /** The event has an I/O handler, and it has run. */
  predicate IoDone(t: Worker) {
    (t.nRet < 0 <==> t.failed) && (t.failed || t.rearmed)
  }

  predicate PcOk(t: Worker) {
    match t.pc
    case Top => true
    case TestIn => !t.failed && !t.rearmed
    case ArmWrite => !t.failed && !t.rearmed && In in t.cur.flags
    case TestOut => if In in t.cur.flags then IoDone(t) else !t.failed && !t.rearmed
    case ArmRead => !t.failed && !t.rearmed && Out in t.cur.flags
    case TestErr => if In in t.cur.flags || Out in t.cur.flags then IoDone(t) else !t.failed
    case _ => t.failed
  }

  ghost predicate WorkerDecides(t: Worker) {
    && (forall fd | fd in t.interest :: OneWay(t.interest[fd].mask))
    && (forall i | 0 <= i < |t.batch| :: EventOk(t.batch[i]))
    && (Handling(t.pc) ==> EventOk(t.cur))
    && PcOk(t)
  }

  ghost predicate Decided(s: State) {
    && (forall fd | fd in s.open :: IsLevel(s.open[fd].level))
    && (forall w | 0 <= w < |s.ws| :: WorkerDecides(s.ws[w]))
  }

  /** After the last test of an event the worker goes to iClose exactly if a handler of that event failed. */
  lemma ClosesIffOwnHandlerFailed(t: Worker, open: map<Fd, File>, ok: bool)
    requires WorkerDecides(t) && t.pc.TestErr?
    ensures var t' := Turn(t, open, ok);
            && t'.failed == (t.failed || t.cur.flags * Troubles != {})
            && (t'.pc.Unregister? <==> t'.failed)
            && (t'.pc.Top? <==> !t'.failed)
            && (t'.pc.Top? ==> t.rearmed)
  {
    NoIoMeansTrouble(t.cur.flags);
  }

  lemma DecisionAt(s: State, w: nat, ok: bool)
    requires Decided(s) && w < |s.ws| && s.ws[w].pc.TestErr?
    ensures var t := Turn(s.ws[w], s.open, ok);
            && Next(s, Advance(w, ok)).ws[w] == t
            && (t.pc.Unregister? <==> t.failed) && (t.pc.Top? <==> !t.failed) && (t.pc.Top? ==> t.rearmed)
    ensures forall fd | fd in s.ws[w].interest :: OneWay(s.ws[w].interest[fd].mask)
  {
    ClosesIffOwnHandlerFailed(s.ws[w], s.open, ok);
  }

  /** The part of an event's flags whose handlers have run when the worker stands at `pc`. */
  function Seen(pc: Pc, flags: Mask): Mask {
    match pc
    case TestIn => {}
    case ArmWrite => {}
    case TestOut => flags * {In}
    case ArmRead => flags * {In}
    case TestErr => flags * {In, Out}
    case _ => flags
  }

  /** nRet and the failures so far are those of the handler chain, cut off where the worker stands. */
  predicate OnChain(t: Worker, before: int, readOk: bool, writeOk: bool) {
    var flags := Seen(t.pc, t.cur.flags);
    && t.nRet == HandlerChain(before, flags, readOk, writeOk)
    && (t.failed <==> SomeHandlerFails(flags, readOk, writeOk))
    && (t.pc.ArmWrite? ==> In in t.cur.flags && readOk)
    && (t.pc.ArmRead? ==> Out in t.cur.flags && writeOk)
    && (t.pc.Unregister? ==> t.nRet < 0)
    && (t.pc.Top? ==> t.nRet >= 0)
  }

  /** The worker's steps compute the handler chain: nRet, the failures, and the decision that follows from nRet. */
  lemma ChainStep(t: Worker, open: map<Fd, File>, ok: bool, before: int, readOk: bool, writeOk: bool)
    requires OnChain(t, before, readOk, writeOk) && CanMove(t, open, ok) && IsLevel(t.cur.flags)
    requires t.pc.TestIn? || t.pc.ArmWrite? || t.pc.TestOut? || t.pc.ArmRead? || t.pc.TestErr?
    requires t.pc.TestIn? && In in t.cur.flags ==> ok == readOk
    requires t.pc.TestOut? && Out in t.cur.flags ==> ok == writeOk
    ensures OnChain(Turn(t, open, ok), before, readOk, writeOk)
    ensures t.pc.TestErr? ==> Turn(t, open, ok).pc == if HandlerChain(before, t.cur.flags, readOk, writeOk) < 0 then Unregister else Top
  {
    PartsAreQuiet(t.cur.flags);
  }

  lemma PartsAreQuiet(flags: Mask)
    ensures {} * Troubles == {} && flags * {In} * Troubles == {} && flags * {In, Out} * Troubles == {}
    ensures In in flags * {In} <==> In in flags
    ensures In in flags * {In, Out} <==> In in flags
    ensures Out in flags * {In, Out} <==> Out in flags
    ensures Out !in flags * {In}
  {
  }

  // ---- preservation ---------------------------------------------------------------------------

  lemma Start(n: nat, maxclients: nat, maxevents: nat)
    ensures Decided(Init(n, maxclients, maxevents))
  {
  }

  lemma TurnDecides(t: Worker, open: map<Fd, File>, ok: bool)
    requires WorkerDecides(t) && CanMove(t, open, ok)
    ensures WorkerDecides(Turn(t, open, ok))
  {
    ServerMasksAreOneWay();
    if t.pc.TestErr? {
      ClosesIffOwnHandlerFailed(t, open, ok);
    }
  }

  lemma CollectDecides(t: Worker, open: map<Fd, File>, fds: seq<Fd>)
    requires WorkerDecides(t) && (forall fd | fd in open :: IsLevel(open[fd].level))
    ensures forall i | 0 <= i < |Collect(t, open, fds)| :: EventOk(Collect(t, open, fds)[i])
  {
    var r := Collect(t, open, fds);
    CollectReports(t, open, fds);
    forall i | 0 <= i < |r| ensures EventOk(r[i]) {
      assert Reports(t, open, r[i]);
      OneWayEvent(open[r[i].fd].level, t.interest[r[i].fd].mask);
    }
  }

  lemma AdvanceStep(s: State, w: nat, ok: bool)
    requires WellOwned(s) && Decided(s) && Enabled(s, Advance(w, ok))
    ensures Decided(Next(s, Advance(w, ok)))
  {
    MoveIsTurn(s, w, ok);
    TurnDecides(s.ws[w], s.open, ok);
  }

  lemma WaitStep(s: State, w: nat, fds: seq<Fd>)
    requires Decided(s) && Enabled(s, Wait(w, fds))
    ensures Decided(Next(s, Wait(w, fds)))
  {
    CollectDecides(s.ws[w], s.open, fds);
  }

  lemma ArmDecides(t: Worker, fd: Fd, file: File, mask: Mask)
    requires WorkerDecides(t) && OneWay(mask)
    ensures WorkerDecides(Arm(t, fd, file, mask))
  {
  }

  lemma ListenerStep(s: State, a: Action)
    requires WellOwned(s) && Decided(s) && Enabled(s, a) && ThreadOf(a) == ListenerThread
    ensures Decided(Next(s, a))
  {
    if a.Add? && a.ok {
      ServerMasksAreOneWay();
      ArmDecides(s.ws[s.lis.target], s.lis.fd, s.open[s.lis.fd], AddMask(Write, true));
    } else if a.CloseRejected? {
      RejectForgetsNothing(s);
    } else if a.Increment? {
      assert WorkerDecides(Next(s, a).ws[s.lis.target]);
    } else {
      assert Next(s, a).ws == s.ws;
    }
  }

  lemma OutsideStep(s: State, a: Action)
    requires Decided(s) && Enabled(s, a) && ThreadOf(a) == Outside
    ensures Decided(Next(s, a))
  {
    forall w | 0 <= w < |s.ws| ensures WorkerDecides(Next(s, a).ws[w]) {
      assert WorkerDecides(s.ws[w]);
    }
  }

  lemma Step(s: State, a: Action)
    requires WellOwned(s) && Decided(s) && Enabled(s, a)
    ensures Decided(Next(s, a))
  {
    match a
    case Advance(w, ok) => AdvanceStep(s, w, ok);
    case Wait(w, fds) => WaitStep(s, w, fds);
    case Rise(_, _) => OutsideStep(s, a);
    case Fall(_, _) => OutsideStep(s, a);
    case _ => ListenerStep(s, a);
  }
}
