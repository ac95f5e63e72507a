/**
 One connection from end to end: the epoll system and the conversation of Exchange, joined at the recvn
 and sendn calls of the worker.  Whatever else happens to workers, listener and other connections, the
 connection is armed for what the server's end of the conversation waits for, so that when that
 condition holds the connection is queued, reported or being handled.
 */
module EndToEnd {
  import opened Epoll
  import Server
  import Exchange
  import Ownership
  import Decision
  import Modes
  import Wakeups
  import Safety

  datatype Joint = Joint(sys: Server.State, talk: Exchange.Talk)

  /** For the incarnation whose connection it is: a step of the system, one that is its recvn or sendn, or one of client and network. */
  datatype Move =
    | System(a: Server.Action)
    | Transfer(w: nat, ok: bool, b: Exchange.Action)
    | Outside(b: Exchange.Action)

  /** The worker is about to call recvn or sendn on incarnation `inc`. */
  predicate AtTransfer(t: Server.Worker, inc: nat) {
    t.cur.inc == inc && ((t.pc.TestIn? && In in t.cur.flags) || (t.pc.TestOut? && Out in t.cur.flags))
  }

  predicate Transfers(s: Server.State, a: Server.Action, inc: nat) {
    a.Advance? && a.w < |s.ws| && AtTransfer(s.ws[a.w], inc)
  }

  /** What the call does to the conversation: the outcome the worker sees is that of the bytes. */
  predicate Corresponds(pc: Server.Pc, ok: bool, b: Exchange.Action) {
    if pc.TestIn? then
      if ok then b.Read? && b.p == Exchange.Server else b == Exchange.Quit(Exchange.Server)
    else
      b.Write? && b.p == Exchange.Server && (ok <==> b.k == |b.msg|)
  }

  predicate Enabled(j: Joint, inc: nat, m: Move) {
    match m
    case System(a) => Server.Enabled(j.sys, a) && !Transfers(j.sys, a, inc)
    case Transfer(w, ok, b) =>
      && Server.Enabled(j.sys, Server.Advance(w, ok)) && Transfers(j.sys, Server.Advance(w, ok), inc)
      && Exchange.Enabled(j.talk, b) && Corresponds(j.sys.ws[w].pc, ok, b)
    case Outside(b) => Exchange.Enabled(j.talk, b) && (b.Deliver? || b.p == Exchange.Client)
  }

  function Next(j: Joint, inc: nat, m: Move): Joint
    requires Enabled(j, inc, m)
  {
    match m
    case System(a) => j.(sys := Server.Next(j.sys, a))
    case Transfer(w, ok, b) => Joint(Server.Next(j.sys, Server.Advance(w, ok)), Exchange.Next(j.talk, b))
    case Outside(b) => j.(talk := Exchange.Next(j.talk, b))
  }

  /** A mode change of this connection is refused. */
  predicate Refused(j: Joint, inc: nat, m: Move) {
    m.System? && Safety.ModeChangeFails(j.sys, m.a) && j.sys.ws[m.a.w].cur.inc == inc
  }

  ghost predicate IsRun(j: Joint, inc: nat, moves: seq<Move>)
    decreases |moves|
  {
    moves != [] ==> Enabled(j, inc, moves[0]) && !Refused(j, inc, moves[0]) && IsRun(Next(j, inc, moves[0]), inc, moves[1..])
  }

  function Run(j: Joint, inc: nat, moves: seq<Move>): Joint
    requires IsRun(j, inc, moves)
    decreases |moves|
  {
    if moves == [] then j else Run(Next(j, inc, moves[0]), inc, moves[1..])
  }

  function Start(n: nat, maxclients: nat, maxevents: nat): Joint {
    Joint(Server.Init(n, maxclients, maxevents), Exchange.Start)
  }

  // ---- the server's end is armed as registered ------------------------------------------------

  /** What the server's end waits for: the mask says so, except between a transfer and its mode change. */
  function Due(t: Server.Worker, fd: Server.Fd, inc: nat): Exchange.Armed
    requires fd in t.interest
  {
    if t.cur.inc == inc && t.pc.ArmWrite? then Exchange.Writing
    else if t.cur.inc == inc && t.pc.ArmRead? then Exchange.Reading
    else if Out in t.interest[fd].mask then Exchange.Writing
    else Exchange.Reading
  }

  /** The connection is being given up after a transfer that has failed. */
  predicate GivenUp(t: Server.Worker, inc: nat) {
    Ownership.Handling(t.pc) && t.cur.inc == inc && t.failed
  }

  predicate ConnectionMatches(t: Server.Worker, fd: Server.Fd, inc: nat, e: Exchange.End)
    requires fd in t.interest
  {
    fd !in t.stuck && if e.open then e.armed == Due(t, fd, inc) else GivenUp(t, inc)
  }

  predicate WorkerMatches(t: Server.Worker, inc: nat, e: Exchange.End) {
    forall fd | fd in t.interest && t.interest[fd].inc == inc :: ConnectionMatches(t, fd, inc, e)
  }

  ghost predicate Matches(s: Server.State, inc: nat, e: Exchange.End) {
    && (inc !in s.hist.placed ==> e.open && e.armed == Exchange.Writing)
    && forall w | 0 <= w < |s.ws| :: WorkerMatches(s.ws[w], inc, e)
  }

  ghost predicate Good(j: Joint, inc: nat) {
    Safety.Inv(j.sys) && Exchange.Faithful(j.talk) && Exchange.Alive(j.talk) && Matches(j.sys, inc, j.talk.server)
  }

  /** At a recvn the server's end is open and waits to read, at a sendn to write: the calls are steps of the conversation. */
  lemma TransferIsDue(j: Joint, inc: nat, w: nat)
    requires Good(j, inc) && w < |j.sys.ws| && AtTransfer(j.sys.ws[w], inc)
    ensures j.talk.server.open
    ensures j.talk.server.armed == if j.sys.ws[w].pc.TestIn? then Exchange.Reading else Exchange.Writing
  {
    assert Ownership.WorkerOwns(j.sys.ws[w], w, j.sys.open, j.sys.hist.placed);
    EventIsDue(j.sys.ws[w], j.sys.hist.placed, inc, j.talk.server);
  }

  lemma EventIsDue(t: Server.Worker, placed: map<nat, nat>, inc: nat, e: Exchange.End)
    requires Decision.WorkerDecides(t) && Modes.WorkerModes(t, placed) && WorkerMatches(t, inc, e)
    requires AtTransfer(t, inc) && Ownership.Has(t, t.cur.fd, t.cur.inc)
    ensures e.open && e.armed == if t.pc.TestIn? then Exchange.Reading else Exchange.Writing
  {
    assert Modes.WithinMask(t, t.cur) && ConnectionMatches(t, t.cur.fd, inc, e);
    assert OneWay(t.interest[t.cur.fd].mask);
  }

  // ---- preservation ---------------------------------------------------------------------------

  /** A turn that is no transfer of this connection, nor a refused mode change of it. */
  lemma TurnMatches(t: Server.Worker, open: map<Server.Fd, Server.File>, ok: bool, inc: nat, e: Exchange.End)
    requires WorkerMatches(t, inc, e) && Server.CanMove(t, open, ok) && Decision.WorkerDecides(t)
    requires Ownership.Handling(t.pc) ==> Ownership.Has(t, t.cur.fd, t.cur.inc) && Server.Registered(t, open, t.cur.fd)
    requires Modes.Apart(t) && !AtTransfer(t, inc)
    requires t.cur.inc == inc && (t.pc.ArmWrite? || t.pc.ArmRead?) ==> ok
    ensures WorkerMatches(Server.Turn(t, open, ok), inc, e)
  {
    if t.pc.ArmWrite? || t.pc.ArmRead? {
      RearmMatches(t, open, ok, inc, e);
    } else if t.pc.Unregister? {
      assert forall fd | fd in t.interest && t.interest[fd].inc == inc :: ConnectionMatches(t, fd, inc, e);
    } else {
      PassMatches(t, open, ok, inc, e);
    }
  }

  /** The mode change: what the end waits for is now in the mask. */
  lemma RearmMatches(t: Server.Worker, open: map<Server.Fd, Server.File>, ok: bool, inc: nat, e: Exchange.End)
    requires WorkerMatches(t, inc, e) && Server.CanMove(t, open, ok) && (t.pc.ArmWrite? || t.pc.ArmRead?)
    requires Ownership.Has(t, t.cur.fd, t.cur.inc) && Server.Registered(t, open, t.cur.fd) && Modes.Apart(t)
    requires t.cur.inc == inc ==> ok
    ensures WorkerMatches(Server.Turn(t, open, ok), inc, e)
  {
    var t' := Server.Turn(t, open, ok);
    ServerMasksAreOneWay();
    forall fd | fd in t'.interest && t'.interest[fd].inc == inc ensures ConnectionMatches(t', fd, inc, e) {
      assert fd == t.cur.fd <==> t.cur.inc == inc;
      assert ConnectionMatches(t, fd, inc, e);
    }
  }

  /** Steps that change no registration. */
  lemma PassMatches(t: Server.Worker, open: map<Server.Fd, Server.File>, ok: bool, inc: nat, e: Exchange.End)
    requires WorkerMatches(t, inc, e) && Server.CanMove(t, open, ok) && Decision.WorkerDecides(t) && !AtTransfer(t, inc)
    requires !t.pc.ArmWrite? && !t.pc.ArmRead? && !t.pc.Unregister?
    ensures WorkerMatches(Server.Turn(t, open, ok), inc, e)
  {
    var t' := Server.Turn(t, open, ok);
    if t.pc.TestErr? {
      Decision.ClosesIffOwnHandlerFailed(t, open, ok);
    }
    forall fd | fd in t'.interest && t'.interest[fd].inc == inc ensures ConnectionMatches(t', fd, inc, e) {
      assert ConnectionMatches(t, fd, inc, e);
    }
  }

  /** The transfer itself: the end waits for the other direction, and the mode change is next. */
  lemma TransferMatches(t: Server.Worker, open: map<Server.Fd, Server.File>, ok: bool, inc: nat, e: Exchange.End, e': Exchange.End)
    requires WorkerMatches(t, inc, e) && Server.CanMove(t, open, ok) && AtTransfer(t, inc)
    requires if ok then e'.open && e'.armed == (if t.pc.TestIn? then Exchange.Writing else Exchange.Reading) else !e'.open
    ensures WorkerMatches(Server.Turn(t, open, ok), inc, e')
  {
    var t' := Server.Turn(t, open, ok);
    assert t'.interest == t.interest && t'.stuck == t.stuck;
    assert forall fd | fd in t.interest && t.interest[fd].inc == inc :: ConnectionMatches(t, fd, inc, e);
  }

  lemma AdvanceMatches(s: Server.State, w: nat, ok: bool, inc: nat, e: Exchange.End, e': Exchange.End)
    requires Ownership.WellOwned(s) && Decision.Decided(s) && Matches(s, inc, e)
    requires Server.Enabled(s, Server.Advance(w, ok))
    requires !(s.ws[w].cur.inc == inc && (s.ws[w].pc.ArmWrite? || s.ws[w].pc.ArmRead?) && !ok)
    requires if AtTransfer(s.ws[w], inc)
             then if ok then e'.open && e'.armed == (if s.ws[w].pc.TestIn? then Exchange.Writing else Exchange.Reading) else !e'.open
             else e' == e
    ensures Matches(Server.Next(s, Server.Advance(w, ok)), inc, e')
  {
    var s', t := Server.Next(s, Server.Advance(w, ok)), s.ws[w];
    Ownership.MoveIsTurn(s, w, ok);
    assert Ownership.WorkerOwns(t, w, s.open, s.hist.placed) && Decision.WorkerDecides(t) && WorkerMatches(t, inc, e);
    if AtTransfer(t, inc) {
      TransferMatches(t, s.open, ok, inc, e, e');
      OnlyOwnerRegisters(s, w, inc);
    } else {
      if Ownership.Handling(t.pc) {
        Ownership.HandledIsRegistered(s, w);
      }
      Modes.OwnedAreApart(s, w);
      TurnMatches(t, s.open, ok, inc, e);
    }
    forall v | 0 <= v < |s'.ws| ensures WorkerMatches(s'.ws[v], inc, e') {
      assert WorkerMatches(s.ws[v], inc, e);
    }
  }

  /** The incarnation a worker handles is placed, and no other worker has it. */
  lemma OnlyOwnerRegisters(s: Server.State, w: nat, inc: nat)
    requires Ownership.WellOwned(s) && w < |s.ws| && Ownership.Handling(s.ws[w].pc) && s.ws[w].cur.inc == inc
    ensures inc in s.hist.placed
    ensures forall v, fd | 0 <= v < |s.ws| && v != w && fd in s.ws[v].interest :: s.ws[v].interest[fd].inc != inc
  {
    assert Ownership.WorkerOwns(s.ws[w], w, s.open, s.hist.placed);
    forall v, fd | 0 <= v < |s.ws| && v != w && fd in s.ws[v].interest ensures s.ws[v].interest[fd].inc != inc {
      assert Ownership.WorkerOwns(s.ws[v], v, s.open, s.hist.placed);
    }
  }

  lemma AddMatches(s: Server.State, inc: nat, e: Exchange.End)
    requires Ownership.WellOwned(s) && Matches(s, inc, e) && Server.Enabled(s, Server.Add(true))
    ensures Matches(Server.Next(s, Server.Add(true)), inc, e)
  {
    var s', v := Server.Next(s, Server.Add(true)), s.lis.target;
    Ownership.HeldIsUnregistered(s, v);
    forall w | 0 <= w < |s.ws| ensures WorkerMatches(s'.ws[w], inc, e) {
      assert WorkerMatches(s.ws[w], inc, e) && Ownership.WorkerOwns(s.ws[w], w, s.open, s.hist.placed);
      forall fd | fd in s'.ws[w].interest && s'.ws[w].interest[fd].inc == inc
        ensures ConnectionMatches(s'.ws[w], fd, inc, e)
      {
        if w == v && fd == s.lis.fd {
          assert inc == s.lis.inc && inc !in s.hist.placed;
        }
      }
    }
  }

  lemma OtherMatches(s: Server.State, a: Server.Action, inc: nat, e: Exchange.End)
    requires Ownership.WellOwned(s) && Matches(s, inc, e) && Server.Enabled(s, a) && !a.Advance? && a != Server.Add(true)
    ensures Matches(Server.Next(s, a), inc, e)
  {
    if a.CloseRejected? {
      Ownership.RejectForgetsNothing(s);
    }
    forall w | 0 <= w < |s.ws| ensures WorkerMatches(Server.Next(s, a).ws[w], inc, e) {
      assert WorkerMatches(s.ws[w], inc, e);
    }
  }

  /** What client and network do does not change what the server's end waits for. */
  lemma OutsideMatches(s: Server.State, inc: nat, e: Exchange.End, e': Exchange.End)
    requires Matches(s, inc, e) && e'.armed == e.armed && e'.open == e.open
    ensures Matches(s, inc, e')
  {
    forall w | 0 <= w < |s.ws| ensures WorkerMatches(s.ws[w], inc, e') {
      assert WorkerMatches(s.ws[w], inc, e);
    }
  }

  lemma SystemMatches(s: Server.State, a: Server.Action, inc: nat, e: Exchange.End)
    requires Ownership.WellOwned(s) && Decision.Decided(s) && Matches(s, inc, e)
    requires Server.Enabled(s, a) && !Transfers(s, a, inc) && !(Safety.ModeChangeFails(s, a) && s.ws[a.w].cur.inc == inc)
    ensures Matches(Server.Next(s, a), inc, e)
  {
    if a.Advance? {
      AdvanceMatches(s, a.w, a.ok, inc, e, e);
    } else if a == Server.Add(true) {
      AddMatches(s, inc, e);
    } else {
      OtherMatches(s, a, inc, e);
    }
  }

  /** The server's end after a transfer. */
  lemma EndAfterTransfer(talk: Exchange.Talk, pc: Server.Pc, ok: bool, b: Exchange.Action)
    requires Exchange.Enabled(talk, b) && Corresponds(pc, ok, b)
    ensures var e' := Exchange.Next(talk, b).server;
            if ok then e'.open && e'.armed == (if pc.TestIn? then Exchange.Writing else Exchange.Reading) else !e'.open
  {
  }

  lemma EndAfterOutside(talk: Exchange.Talk, b: Exchange.Action)
    requires Exchange.Enabled(talk, b) && (b.Deliver? || b.p == Exchange.Client)
    ensures var e' := Exchange.Next(talk, b).server; e'.armed == talk.server.armed && e'.open == talk.server.open
  {
  }

  lemma MoveGood(j: Joint, inc: nat, m: Move)
    requires Good(j, inc) && Enabled(j, inc, m) && !Refused(j, inc, m)
    ensures Good(Next(j, inc, m), inc)
  {
    match m
    case System(a) =>
      SystemMatches(j.sys, a, inc, j.talk.server);
      Safety.InvStep(j.sys, a);
    case Transfer(w, ok, b) =>
      EndAfterTransfer(j.talk, j.sys.ws[w].pc, ok, b);
      AdvanceMatches(j.sys, w, ok, inc, j.talk.server, Exchange.Next(j.talk, b).server);
      Safety.InvStep(j.sys, Server.Advance(w, ok));
      TalkStep(j.talk, b);
    case Outside(b) =>
      EndAfterOutside(j.talk, b);
      OutsideMatches(j.sys, inc, j.talk.server, Exchange.Next(j.talk, b).server);
      TalkStep(j.talk, b);
  }

  lemma TalkStep(talk: Exchange.Talk, b: Exchange.Action)
    requires Exchange.Faithful(talk) && Exchange.Alive(talk) && Exchange.Enabled(talk, b)
    ensures Exchange.Faithful(Exchange.Next(talk, b)) && Exchange.Alive(Exchange.Next(talk, b))
  {
    Exchange.StepFaithful(talk, b);
    Exchange.StepAlive(talk, b);
  }

  lemma {:induction false} RunGood(j: Joint, inc: nat, moves: seq<Move>)
    requires Good(j, inc) && IsRun(j, inc, moves)
    ensures Good(Run(j, inc, moves), inc)
    decreases |moves|
  {
    if moves != [] {
      MoveGood(j, inc, moves[0]);
      RunGood(Next(j, inc, moves[0]), inc, moves[1..]);
    }
  }

  lemma StartGood(n: nat, maxclients: nat, maxevents: nat, inc: nat)
    requires n >= 2
    ensures Good(Start(n, maxclients, maxevents), inc)
  {
    Safety.InvStart(n, maxclients, maxevents);
  }

  // ---- the theorem ----------------------------------------------------------------------------

  /** The condition the server's end waits for holds. */
  predicate ServerReady(j: Joint, fd: Server.Fd) {
    fd in j.sys.open && if j.talk.server.armed == Exchange.Writing then Out in j.sys.open[fd].level else In in j.sys.open[fd].level
  }

  /** The kernel shows the socket as writable, and as readable if there are bytes to read. */
  predicate ShowsReadiness(j: Joint, fd: Server.Fd) {
    && fd in j.sys.open && Out in j.sys.open[fd].level
    && (j.talk.client.consumed < j.talk.client.delivered ==> In in j.sys.open[fd].level)
  }

  lemma ReadyIsServed(j: Joint, inc: nat, w: nat, fd: Server.Fd)
    requires Good(j, inc) && w < |j.sys.ws| && Safety.Registers(j.sys.ws[w], fd, inc)
    requires j.talk.server.open && ServerReady(j, fd)
    ensures Wakeups.Served(j.sys.ws[w], fd)
  {
    var s, t := j.sys, j.sys.ws[w];
    assert WorkerMatches(t, inc, j.talk.server);
    if t.cur.inc == inc && (t.pc.ArmWrite? || t.pc.ArmRead?) {
      assert Decision.WorkerDecides(t) && Ownership.WorkerOwns(t, w, s.open, s.hist.placed);
      Modes.OwnedAreApart(s, w);
    } else {
      MaskCovers(s, w, fd);
      var f := if j.talk.server.armed == Exchange.Writing then Out else In;
      assert f in s.open[fd].level * t.interest[fd].mask;
      Wakeups.AwakeAt(s, w, fd);
    }
  }

  lemma MaskCovers(s: Server.State, w: nat, fd: Server.Fd)
    requires Decision.Decided(s) && w < |s.ws| && fd in s.ws[w].interest
    ensures Out !in s.ws[w].interest[fd].mask ==> In in s.ws[w].interest[fd].mask
  {
    assert Decision.WorkerDecides(s.ws[w]);
    assert OneWay(s.ws[w].interest[fd].mask);
  }

  /** The client can send or read. */
  predicate ClientCanAct(s: Exchange.Talk) {
    Exchange.Enabled(s, Exchange.Write(Exchange.Client, [0], 1)) || Exchange.Enabled(s, Exchange.Read(Exchange.Client, 1))
  }

  ghost predicate NetworkCanAct(s: Exchange.Talk) {
    exists p :: Exchange.Enabled(s, Exchange.Deliver(p, 1))
  }

  /**
   In every joint run in which no mode change of this connection is refused: while the server's end is
   open and what it waits for holds, the connection is queued, reported or being handled; and while both
   ends are open the conversation cannot come to a halt, for either that is so, or the client can act, or
   bytes are on their way.
   */
  lemma ConversationGoesOn(n: nat, maxclients: nat, maxevents: nat, inc: nat, moves: seq<Move>, w: nat, fd: Server.Fd)
    requires n >= 2 && IsRun(Start(n, maxclients, maxevents), inc, moves)
    requires var j := Run(Start(n, maxclients, maxevents), inc, moves);
             w < |j.sys.ws| && Safety.Registers(j.sys.ws[w], fd, inc) && j.talk.server.open
    ensures var j := Run(Start(n, maxclients, maxevents), inc, moves);
            && (ServerReady(j, fd) ==> Wakeups.Served(j.sys.ws[w], fd))
            && (j.talk.client.open && ShowsReadiness(j, fd) ==>
                  Wakeups.Served(j.sys.ws[w], fd) || ClientCanAct(j.talk) || NetworkCanAct(j.talk))
  {
    var j := Run(Start(n, maxclients, maxevents), inc, moves);
    StartGood(n, maxclients, maxevents, inc);
    RunGood(Start(n, maxclients, maxevents), inc, moves);
    if ServerReady(j, fd) {
      ReadyIsServed(j, inc, w, fd);
    } else if j.talk.client.open && ShowsReadiness(j, fd) {
      SomebodyElseActs(j.talk);
    }
  }

  /** If the server's end waits for bytes and none have arrived, it is somebody else's turn. */
  lemma SomebodyElseActs(s: Exchange.Talk)
    requires Exchange.Faithful(s) && Exchange.Alive(s) && s.server.open && s.client.open
    requires s.server.armed == Exchange.Reading && s.client.consumed >= s.client.delivered
    ensures ClientCanAct(s) || NetworkCanAct(s)
  {
    if s.client.armed == Exchange.Writing {
      assert Exchange.Enabled(s, Exchange.Write(Exchange.Client, [0], 1));
    } else if Exchange.Pending(s.client) {
      assert Exchange.Enabled(s, Exchange.Deliver(Exchange.Client, 1));
    } else if s.server.consumed < s.server.delivered {
      assert Exchange.Enabled(s, Exchange.Read(Exchange.Client, 1));
    } else {
      assert Exchange.Enabled(s, Exchange.Deliver(Exchange.Server, 1));
    }
  }
}
