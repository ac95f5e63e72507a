/**
 The conversation of a TaskThread connection with its Test client.  Both ends run the same two
 handlers: readable, recvn whatever is there and arm WRITE; writable, sendn one message and arm READ.
 The network in between delivers bytes in pieces, when it likes.
 */
module Exchange {
  import opened Transport

  datatype Peer = Server | Client

  datatype Armed = Reading | Writing

  /**
   One end: what it is armed for, whether it is still open, and its outgoing direction.
   `msgs`, `partial` and `outputs` are history: the messages sendn accepted whole, the prefix a
   failing sendn left behind, and what the recvn calls of this end returned.
   */
  datatype End = End(
    armed: Armed, open: bool,
    wire: seq<byte>, delivered: nat, consumed: nat,
    msgs: seq<seq<byte>>, partial: seq<byte>, outputs: seq<seq<byte>>)

  /** `sends` is history: who has completed a message, in order. */
  datatype Talk = Talk(server: End, client: End, sends: seq<Peer>)

  datatype Action =
    | Write(p: Peer, msg: seq<byte>, k: nat)   // iWrite: k bytes of msg get onto the wire
    | Deliver(p: Peer, k: nat)                 // k more bytes of p's wire reach the other end
    | Read(p: Peer, k: nat)                    // iRead: recvn returns k bytes
    | Quit(p: Peer)                            // iClose

  const BUFFER: nat := 1024                    // MIN_BUFSZ

  function Other(p: Peer): Peer {
    if p == Server then Client else Server
  }

  function At(s: Talk, p: Peer): End {
    if p == Server then s.server else s.client
  }

  function Set(s: Talk, p: Peer, e: End): Talk {
    if p == Server then s.(server := e) else s.(client := e)
  }

  /** The server registers with WRITE, the client with READ. */
  const Start: Talk := Talk(End(Writing, true, [], 0, 0, [], [], []), End(Reading, true, [], 0, 0, [], [], []), [])

  predicate Enabled(s: Talk, a: Action) {
    match a
    case Write(p, msg, k) => At(s, p).open && At(s, p).armed == Writing && 0 < |msg| < BUFFER && k <= |msg|
    case Deliver(p, k) => At(s, p).delivered + k <= |At(s, p).wire|
    case Read(p, k) =>
      var from := At(s, Other(p));
      At(s, p).open && At(s, p).armed == Reading && 0 < k <= BUFFER && from.consumed + k <= from.delivered <= |from.wire|
    case Quit(p) => At(s, p).open
  }

  function Next(s: Talk, a: Action): Talk
    requires Enabled(s, a)
  {
    match a
    case Write(p, msg, k) =>
      var e := At(s, p);
      var e' := e.(wire := e.wire + msg[..k]);
      if k == |msg| then
        Set(s, p, e'.(armed := Reading, msgs := e.msgs + [msg])).(sends := s.sends + [p])
      else
        Set(s, p, e'.(open := false, partial := msg[..k]))
    case Deliver(p, k) =>
      Set(s, p, At(s, p).(delivered := At(s, p).delivered + k))
    case Read(p, k) =>
      var from := At(s, Other(p));
      var got := from.wire[from.consumed..from.consumed + k];
      var s' := Set(s, Other(p), from.(consumed := from.consumed + k));
      Set(s', p, At(s', p).(armed := Writing, outputs := At(s', p).outputs + [got]))
    case Quit(p) =>
      Set(s, p, At(s, p).(open := false))
  }

  predicate IsRun(s: Talk, acts: seq<Action>)
    decreases |acts|
  {
    acts == [] || (Enabled(s, acts[0]) && IsRun(Next(s, acts[0]), acts[1..]))
  }

  function Run(s: Talk, acts: seq<Action>): Talk
    requires IsRun(s, acts)
    decreases |acts|
  {
    if acts == [] then s else Run(Next(s, acts[0]), acts[1..])
  }

  lemma {:induction false} RunPush(s: Talk, acts: seq<Action>, a: Action)
    requires IsRun(s, acts) && Enabled(Run(s, acts), a)
    ensures IsRun(s, acts + [a]) && Run(s, acts + [a]) == Next(Run(s, acts), a)
    decreases |acts|
  {
    if acts == [] {
      assert Run(Next(s, a), []) == Next(s, a);
    } else {
      assert (acts + [a])[1..] == acts[1..] + [a];
      RunPush(Next(s, acts[0]), acts[1..], a);
    }
  }

  // ---- stream fidelity --------------------------------------------------------------------------

  ghost predicate EndOk(e: End, reader: End) {
    && e.consumed <= e.delivered <= |e.wire|
    && e.wire == Flatten(e.msgs) + e.partial
    && (e.open ==> e.partial == [])
    && Flatten(reader.outputs) == e.wire[..e.consumed]
  }

  ghost predicate Faithful(s: Talk) {
    EndOk(s.server, s.client) && EndOk(s.client, s.server)
  }

  lemma WriteFaithful(e: End, reader: End, msg: seq<byte>, k: nat)
    requires EndOk(e, reader) && e.open && k <= |msg|
    ensures EndOk(e.(wire := e.wire + msg[..k], open := false, partial := msg[..k]), reader)
    ensures k == |msg| ==> EndOk(e.(armed := Reading, wire := e.wire + msg[..k], msgs := e.msgs + [msg]), reader)
  {
    FlattenPush(e.msgs, msg);
    assert (e.wire + msg[..k])[..e.consumed] == e.wire[..e.consumed];
    if k == |msg| {
      assert msg[..k] == msg;
    }
  }

  lemma ReadFaithful(e: End, reader: End, k: nat)
    requires EndOk(e, reader) && e.consumed + k <= e.delivered
    ensures EndOk(e.(consumed := e.consumed + k),
                  reader.(armed := Writing, outputs := reader.outputs + [e.wire[e.consumed..e.consumed + k]]))
  {
    FlattenPush(reader.outputs, e.wire[e.consumed..e.consumed + k]);
    assert e.wire[..e.consumed] + e.wire[e.consumed..e.consumed + k] == e.wire[..e.consumed + k];
  }

  /** A direction does not care about the reader's own writing, nor about what the writer reads. */
  lemma OtherDirection(e: End, reader: End, e': End, reader': End)
    requires EndOk(e, reader) && reader'.outputs == reader.outputs && (e'.open ==> e.open)
    requires e'.wire == e.wire && e'.delivered == e.delivered && e'.consumed == e.consumed
    requires e'.msgs == e.msgs && e'.partial == e.partial
    ensures EndOk(e', reader')
  {
  }

  lemma WriteStep(s: Talk, p: Peer, msg: seq<byte>, k: nat)
    requires Faithful(s) && Enabled(s, Write(p, msg, k))
    ensures Faithful(Next(s, Write(p, msg, k)))
  {
    var e, r, e' := At(s, p), At(s, Other(p)), At(Next(s, Write(p, msg, k)), p);
    WriteFaithful(e, r, msg, k);
    OtherDirection(r, e, r, e');
  }

  lemma ReadStep(s: Talk, p: Peer, k: nat)
    requires Faithful(s) && Enabled(s, Read(p, k))
    ensures Faithful(Next(s, Read(p, k)))
  {
    var e, r, s' := At(s, p), At(s, Other(p)), Next(s, Read(p, k));
    var r' := r.(consumed := r.consumed + k);
    var e' := e.(armed := Writing, outputs := e.outputs + [r.wire[r.consumed..r.consumed + k]]);
    ReadFaithful(r, e, k);
    OtherDirection(e, r, e', r');
    assert At(s', p) == e' && At(s', Other(p)) == r';
  }

  lemma StepFaithful(s: Talk, a: Action)
    requires Faithful(s) && Enabled(s, a)
    ensures Faithful(Next(s, a))
  {
    match a
    case Write(p, msg, k) => WriteStep(s, p, msg, k);
    case Read(p, k) => ReadStep(s, p, k);
    case _ =>
  }

  lemma {:induction false} RunFaithful(s: Talk, acts: seq<Action>)
    requires Faithful(s) && IsRun(s, acts)
    ensures Faithful(Run(s, acts))
    decreases |acts|
  {
    if acts != [] {
      StepFaithful(s, acts[0]);
      RunFaithful(Next(s, acts[0]), acts[1..]);
    }
  }

  /** The messages of p's sendn calls that went out whole, in order. */
  function Sent(acts: seq<Action>, p: Peer): seq<seq<byte>> {
    if acts == [] then [] else
      var a := acts[|acts| - 1];
      Sent(acts[..|acts| - 1], p) + if a.Write? && a.p == p && a.k == |a.msg| then [a.msg] else []
  }

  /** The i-th action is a sendn of p that fails half-way. */
  predicate BreaksOff(acts: seq<Action>, p: Peer, i: int) {
    0 <= i < |acts| && acts[i].Write? && acts[i].p == p && acts[i].k < |acts[i].msg|
  }

  /**
   The bytes after the whole messages: a proper prefix of the message whose sendn failed, after which p
   is closed and sends no more; nothing if none failed.
   */
  ghost predicate Remainder(acts: seq<Action>, p: Peer, partial: seq<byte>, open: bool) {
    && (forall i | BreaksOff(acts, p, i) ::
          partial == acts[i].msg[..acts[i].k] && !open && forall j | i < j < |acts| :: !(acts[j].Write? && acts[j].p == p))
    && ((forall i :: !BreaksOff(acts, p, i)) ==> partial == [])
  }

  /** What p has put on the wire: whole messages, and at most one proper prefix of a message. */
  ghost predicate Transmitted(acts: seq<Action>, p: Peer, e: End) {
    e.msgs == Sent(acts, p) && Remainder(acts, p, e.partial, e.open)
  }

  lemma {:induction false} RunPop(s: Talk, acts: seq<Action>)
    requires IsRun(s, acts) && acts != []
    ensures var before, a := acts[..|acts| - 1], acts[|acts| - 1];
            IsRun(s, before) && Enabled(Run(s, before), a) && Run(s, acts) == Next(Run(s, before), a)
    decreases |acts|
  {
    if |acts| > 1 {
      assert acts[1..][..|acts| - 2] == acts[..|acts| - 1][1..];
      RunPop(Next(s, acts[0]), acts[1..]);
    } else {
      assert acts[1..] == [];
    }
  }

  lemma RemainderStep(acts: seq<Action>, p: Peer, e: End, e': End)
    requires acts != [] && Remainder(acts[..|acts| - 1], p, e.partial, e.open)
    requires var a := acts[|acts| - 1];
             if a.Write? && a.p == p then
               e.open && (if a.k < |a.msg| then e'.partial == a.msg[..a.k] && !e'.open else e'.partial == e.partial)
             else e'.partial == e.partial && (e'.open ==> e.open)
    ensures Remainder(acts, p, e'.partial, e'.open)
  {
    var before := acts[..|acts| - 1];
    assert forall i :: BreaksOff(before, p, i) ==> BreaksOff(acts, p, i);
    forall i | BreaksOff(acts, p, i)
      ensures e'.partial == acts[i].msg[..acts[i].k] && !e'.open && forall j | i < j < |acts| :: !(acts[j].Write? && acts[j].p == p)
    {
      assert i < |before| ==> BreaksOff(before, p, i);
    }
    if forall i :: !BreaksOff(acts, p, i) {
      assert !BreaksOff(acts, p, |acts| - 1);
    }
  }

  lemma {:induction false} RunTransmits(acts: seq<Action>, p: Peer)
    requires IsRun(Start, acts)
    ensures Transmitted(acts, p, At(Run(Start, acts), p))
    decreases |acts|
  {
    if acts != [] {
      var before := acts[..|acts| - 1];
      RunPop(Start, acts);
      RunTransmits(before, p);
      RemainderStep(acts, p, At(Run(Start, before), p), At(Run(Start, acts), p));
    }
  }

  /**
   In every run and in both directions: what the reader's recvn calls returned is, in order, a prefix
   of what the writer's sendn calls put on the wire; and that is the messages sent whole, followed by
   at most one proper prefix of a message, after which the writer is closed and sends no more.
   */
  lemma StreamFidelity(acts: seq<Action>, p: Peer)
    requires IsRun(Start, acts)
    ensures var e, reader := At(Run(Start, acts), p), At(Run(Start, acts), Other(p));
            && e.consumed <= |e.wire| && Flatten(reader.outputs) == e.wire[..e.consumed]
            && e.wire == Flatten(Sent(acts, p)) + e.partial
            && Remainder(acts, p, e.partial, e.open)
            && |e.partial| < 1024
            && (e.open ==> e.partial == [])
  {
    RunFaithful(Start, acts);
    RunTransmits(acts, p);
    var e := At(Run(Start, acts), p);
    if i :| BreaksOff(acts, p, i) {
      RunEnabled(Start, acts, i);
    }
  }

  /** Messages fit the buffer they are composed in. */
  lemma {:induction false} RunEnabled(s: Talk, acts: seq<Action>, i: nat)
    requires IsRun(s, acts) && i < |acts| && acts[i].Write?
    ensures |acts[i].msg| < BUFFER
    decreases |acts|
  {
    if i > 0 {
      RunEnabled(Next(s, acts[0]), acts[1..], i - 1);
    }
  }

  // ---- no deadlock ------------------------------------------------------------------------------

  predicate Pending(e: End) {
    e.consumed < |e.wire|
  }

  ghost predicate Alive(s: Talk) {
    s.server.open && s.client.open ==>
      s.server.armed == Writing || s.client.armed == Writing || Pending(s.server) || Pending(s.client)
  }

  lemma StepAlive(s: Talk, a: Action)
    requires Faithful(s) && Alive(s) && Enabled(s, a)
    ensures Alive(Next(s, a))
  {
  }

  lemma {:induction false} RunAlive(s: Talk, acts: seq<Action>)
    requires Faithful(s) && Alive(s) && IsRun(s, acts)
    ensures Alive(Run(s, acts))
    decreases |acts|
  {
    if acts != [] {
      StepFaithful(s, acts[0]);
      StepAlive(s, acts[0]);
      RunAlive(Next(s, acts[0]), acts[1..]);
    }
  }

  /** Something other than closing can still happen. */
  ghost predicate CanProceed(s: Talk) {
    || (exists p :: Enabled(s, Write(p, [0], 1)))
    || (exists p :: Enabled(s, Deliver(p, 1)))
    || (exists p :: Enabled(s, Read(p, 1)))
  }

  /** However the network fragments and delays: while both ends are open the conversation can go on. */
  lemma NeverDeadlocks(acts: seq<Action>)
    requires IsRun(Start, acts)
    requires Run(Start, acts).server.open && Run(Start, acts).client.open
    ensures CanProceed(Run(Start, acts))
  {
    RunFaithful(Start, acts);
    RunAlive(Start, acts);
    var s := Run(Start, acts);
    if s.server.armed == Writing {
      assert Enabled(s, Write(Server, [0], 1));
    } else if s.client.armed == Writing {
      assert Enabled(s, Write(Client, [0], 1));
    } else {
      var p := if Pending(s.server) then Server else Client;
      if At(s, p).consumed < At(s, p).delivered {
        assert Enabled(s, Read(Other(p), 1));
      } else {
        assert Enabled(s, Deliver(p, 1));
      }
    }
  }

  // ---- taking turns -----------------------------------------------------------------------------

  function Tokens(s: Talk): nat {
    (if s.server.armed == Writing then 1 else 0) + (if s.client.armed == Writing then 1 else 0)
    + (if Pending(s.server) then 1 else 0) + (if Pending(s.client) then 1 else 0)
  }

  /** Nobody closes, and no sendn fails. */
  predicate Open(a: Action) {
    !a.Quit? && (a.Write? ==> a.k == |a.msg|)
  }

  /** A recvn that empties the wire: everything sent had arrived before the reader drained. */
  predicate Whole(s: Talk, a: Action) {
    a.Read? ==> At(s, Other(a.p)).consumed + a.k == |At(s, Other(a.p)).wire|
  }

  ghost predicate AllWhole(s: Talk, acts: seq<Action>)
    requires IsRun(s, acts)
    decreases |acts|
  {
    acts != [] ==> Whole(s, acts[0]) && AllWhole(Next(s, acts[0]), acts[1..])
  }

  ghost predicate AlwaysOneToken(s: Talk, acts: seq<Action>)
    requires IsRun(s, acts)
    decreases |acts|
  {
    Tokens(s) == 1 && (acts != [] ==> AlwaysOneToken(Next(s, acts[0]), acts[1..]))
  }

  lemma TokenStep(s: Talk, a: Action)
    requires Faithful(s) && Tokens(s) == 1 && Enabled(s, a) && Open(a)
    ensures Tokens(Next(s, a)) == 1 <==> Whole(s, a)
  {
  }

  lemma {:induction false} OneTokenFrom(s: Talk, acts: seq<Action>)
    requires Faithful(s) && Tokens(s) == 1 && IsRun(s, acts) && forall a | a in acts :: Open(a)
    ensures AlwaysOneToken(s, acts) <==> AllWhole(s, acts)
    decreases |acts|
  {
    if acts != [] {
      assert acts[0] in acts;
      StepFaithful(s, acts[0]);
      TokenStep(s, acts[0]);
      if Whole(s, acts[0]) {
        OneTokenFrom(Next(s, acts[0]), acts[1..]);
      } else {
        assert !AlwaysOneToken(Next(s, acts[0]), acts[1..]);
      }
    }
  }

  /** There is one turn token throughout exactly if every recvn finds the peer's message whole. */
  lemma OneTokenIffWhole(acts: seq<Action>)
    requires IsRun(Start, acts) && forall a | a in acts :: Open(a)
    ensures AlwaysOneToken(Start, acts) <==> AllWhole(Start, acts)
  {
    OneTokenFrom(Start, acts);
  }

  /** Whose turn the token is. */
  ghost predicate Turns(s: Talk) {
    && (forall i | 0 <= i < |s.sends| :: s.sends[i] == if i % 2 == 0 then Server else Client)
    && (|s.sends| % 2 == 0 ==> s.client.armed == Reading && !Pending(s.server))
    && (|s.sends| % 2 == 1 ==> s.server.armed == Reading && !Pending(s.client))
    && Echoed(s.server, s.client) && Echoed(s.client, s.server)
  }

  /** The reader's recvn calls have returned the writer's messages one for one, but perhaps for the last. */
  ghost predicate Echoed(e: End, reader: End) {
    if Pending(e) then e.msgs != [] && reader.outputs == e.msgs[..|e.msgs| - 1] && e.wire[e.consumed..] == e.msgs[|e.msgs| - 1]
    else reader.outputs == e.msgs
  }

  lemma EchoedAfterWrite(e: End, reader: End, msg: seq<byte>)
    requires Echoed(e, reader) && e.consumed == |e.wire| && msg != []
    ensures Echoed(e.(armed := Reading, wire := e.wire + msg, msgs := e.msgs + [msg]), reader)
  {
    assert (e.wire + msg)[e.consumed..] == msg;
    assert (e.msgs + [msg])[..|e.msgs|] == e.msgs;
  }

  lemma EchoedAfterRead(e: End, reader: End)
    requires Echoed(e, reader) && Pending(e)
    ensures Echoed(e.(consumed := |e.wire|), reader.(armed := Writing, outputs := reader.outputs + [e.wire[e.consumed..|e.wire|]]))
  {
    assert e.wire[e.consumed..|e.wire|] == e.wire[e.consumed..];
    assert e.msgs == e.msgs[..|e.msgs| - 1] + [e.msgs[|e.msgs| - 1]];
  }

  lemma WriteTurn(s: Talk, p: Peer, msg: seq<byte>)
    requires Faithful(s) && Tokens(s) == 1 && Turns(s) && Enabled(s, Write(p, msg, |msg|))
    ensures Turns(Next(s, Write(p, msg, |msg|)))
  {
    assert msg[..|msg|] == msg;
    EchoedAfterWrite(At(s, p), At(s, Other(p)), msg);
    assert p == if |s.sends| % 2 == 0 then Server else Client;
  }

  lemma ReadTurn(s: Talk, p: Peer, k: nat)
    requires Faithful(s) && Tokens(s) == 1 && Turns(s) && Enabled(s, Read(p, k)) && Whole(s, Read(p, k))
    ensures Turns(Next(s, Read(p, k)))
  {
    EchoedAfterRead(At(s, Other(p)), At(s, p));
  }

  lemma TurnStep(s: Talk, a: Action)
    requires Faithful(s) && Tokens(s) == 1 && Turns(s) && Enabled(s, a) && Open(a) && Whole(s, a)
    ensures Turns(Next(s, a))
  {
    match a
    case Write(p, msg, k) => WriteTurn(s, p, msg);
    case Read(p, k) => ReadTurn(s, p, k);
    case _ =>
  }

  lemma {:induction false} TurnsFrom(s: Talk, acts: seq<Action>)
    requires Faithful(s) && Tokens(s) == 1 && Turns(s) && IsRun(s, acts)
    requires AllWhole(s, acts) && forall a | a in acts :: Open(a)
    ensures Turns(Run(s, acts))
    decreases |acts|
  {
    if acts != [] {
      assert acts[0] in acts;
      StepFaithful(s, acts[0]);
      TokenStep(s, acts[0]);
      TurnStep(s, acts[0]);
      TurnsFrom(Next(s, acts[0]), acts[1..]);
    }
  }

  /**
   If every recvn finds its message whole, the ends strictly take turns, the server first, and each
   recvn returns exactly one message.
   */
  lemma SendsAlternate(acts: seq<Action>, i: nat)
    requires IsRun(Start, acts) && (forall a | a in acts :: Open(a)) && AllWhole(Start, acts)
    ensures i < |Senders(acts)| ==> Senders(acts)[i] == if i % 2 == 0 then Server else Client
    ensures Run(Start, acts).client.outputs <= Sent(acts, Server)
    ensures Run(Start, acts).server.outputs <= Sent(acts, Client)
  {
    TurnsFrom(Start, acts);
    RunTransmits(acts, Server);
    RunTransmits(acts, Client);
    RunSends(acts);
  }

  /** Who has sent a message, in order. */
  function Senders(acts: seq<Action>): seq<Peer> {
    if acts == [] then [] else
      var a := acts[|acts| - 1];
      Senders(acts[..|acts| - 1]) + if a.Write? && a.k == |a.msg| then [a.p] else []
  }

  lemma {:induction false} RunSends(acts: seq<Action>)
    requires IsRun(Start, acts)
    ensures Run(Start, acts).sends == Senders(acts)
    decreases |acts|
  {
    if acts != [] {
      RunPop(Start, acts);
      RunSends(acts[..|acts| - 1]);
    }
  }

  /** Without that the turns are lost: one message read in two pieces lets both ends write. */
  lemma FragmentsBreakTurns() returns (acts: seq<Action>)
    ensures IsRun(Start, acts) && (forall a | a in acts :: Open(a))
    ensures Senders(acts) == [Server, Client, Client]
  {
    var msg := [1, 2];
    acts := Extend([], Write(Server, msg, 2));
    acts := Extend(acts, Deliver(Server, 1));
    acts := Extend(acts, Read(Client, 1));
    acts := Extend(acts, Write(Client, msg, 2));
    acts := Extend(acts, Deliver(Server, 1));
    acts := Extend(acts, Read(Client, 1));
    acts := Extend(acts, Write(Client, msg, 2));
    RunSends(acts);
  }

  lemma Extend(acts: seq<Action>, a: Action) returns (more: seq<Action>)
    requires IsRun(Start, acts) && Enabled(Run(Start, acts), a) && Open(a) && forall x | x in acts :: Open(x)
    ensures IsRun(Start, more) && Run(Start, more) == Next(Run(Start, acts), a) && forall x | x in more :: Open(x)
  {
    more := acts + [a];
    RunPush(Start, acts, a);
  }
}
