/**
 The handlers of TaskThread and Test at byte level: sendn and recvn on the two directions of one
 connection, each call with its own adversarial kernel replies.  Valid() says that the conversation
 so far is a run of Exchange, so its theorems hold of every session, whatever the kernel does.
 */
module Handlers {
  import opened Transport
  import opened Exchange

  /**
   What may happen next to the connection, and what the kernel does when it is handled: its replies, and
   what arrives before the successive recv() calls.  `errno` is what the handling thread, which also
   serves other connections and calls epoll, happens to have left there: any value.
   */
  datatype Op =
    | Writable(p: Peer, msg: seq<byte>, errno: Errno, replies: seq<Reply>)
    | Readable(p: Peer, errno: Errno, replies: seq<Reply>, arrivals: seq<nat>)
    | Arrive(p: Peer, k: nat)

  /** k of n bytes are what the kernel's replies move, and less than n only if they end the loop. */
  ghost predicate Sends(replies: seq<Reply>, errno: Errno, used: seq<Reply>, n: nat, k: nat) {
    && (forall i | 0 <= i < |used| :: used[i] == ReplyAt(replies, i))
    && k == Min(n, Follow(used, errno).total)
    && Needed(used, errno, n) && (k < n ==> !Follow(used, errno).going)
  }

  /** Likewise for reading what has arrived by the time of each recv(). */
  ghost predicate Receives(c: Scene, used: seq<Reply>, k: nat) {
    && used == Actuals(c, |used|) && k == Follow(used, c.errno).total <= BUFFER
    && Needed(used, c.errno, BUFFER) && (k < BUFFER ==> !Follow(used, c.errno).going)
  }

  /** One end of the connection: the TaskThread's, or the Test client's, whose handlers are the same. */
  class Side {
    const out: Stream             // what it sends
    const inward: Stream          // what it receives
    var armed: Armed
    var open: bool
    var got: seq<seq<byte>>       // what its successful recvn calls have returned

    constructor (out: Stream, inward: Stream, armed: Armed)
      ensures this.out == out && this.inward == inward && this.armed == armed && open && got == []
    {
      this.out, this.inward, this.armed, this.open, this.got := out, inward, armed, true, [];
    }

    /** i_epoll_change_mode */
    method ChangeMode(mode: Armed)
      modifies this`armed
      ensures armed == mode
    {
      armed := mode;
    }

    method IClose()
      modifies this`open
      ensures !open
    {
      open := false;
    }

    /** iWrite: sendn, and then the connection waits for the answer. */
    method IWrite(msg: seq<byte>, errno: Errno) returns (nRet: int, ghost used: seq<Reply>)
      requires out.Valid() && msg != []
      modifies this`armed, out`replies, out`wire
      ensures out.Valid()
      ensures var k := |out.wire| - |old(out.wire)|;
              0 <= k <= |msg| && out.wire == old(out.wire) + msg[..k] && nRet == (if k == |msg| then 0 else -1)
              && Sends(old(out.replies), errno, used, |msg|, k)
      ensures armed == if nRet == 0 then Reading else old(armed)
    {
      var bytes;
      bytes, used := out.Sendn(msg, errno);
      if bytes <= 0 {
        return -1, used;
      }
      ChangeMode(Reading);
      return 0, used;
    }

    /** iRead: recvn, and then the connection waits until it can answer; `data` is what recvn has left in the buffer. */
    method IRead(errno: Errno) returns (nRet: int, data: seq<byte>, ghost used: seq<Reply>)
      requires inward.Valid()
      modifies this`armed, inward`replies, inward`arrivals, inward`delivered, inward`consumed
      ensures inward.Valid() && inward.delivered == DeliveredBy(old(inward.Before(errno, BUFFER)), |used|) >= old(inward.delivered)
      ensures old(inward.consumed) <= inward.consumed && data == inward.wire[old(inward.consumed)..inward.consumed]
      ensures Receives(old(inward.Before(errno, BUFFER)), used, |data|)
      ensures nRet == (if data == [] then -1 else 0)
      ensures armed == if nRet == 0 then Writing else old(armed)
    {
      var buf := new byte[BUFFER];
      var bytes;
      bytes, used := inward.Recvn(buf, errno);
      data := buf[..bytes];
      if bytes <= 0 {
        return -1, data, used;
      }
      ChangeMode(Writing);
      return 0, data, used;
    }

    /** A writable event: iWrite, and iClose if it has failed. */
    method HandleWritable(msg: seq<byte>, errno: Errno) returns (ghost k: nat, ghost used: seq<Reply>)
      requires out.Valid() && open && armed == Writing && msg != []
      modifies this`armed, this`open, out`replies, out`wire
      ensures out.Valid() && k <= |msg| && out.wire == old(out.wire) + msg[..k]
      ensures Sends(old(out.replies), errno, used, |msg|, k)
      ensures armed == (if k == |msg| then Reading else Writing) && open == (k == |msg|)
    {
      var nRet;
      nRet, used := IWrite(msg, errno);
      k := |out.wire| - |old(out.wire)|;
      if nRet < 0 {
        IClose();
      }
    }

    /** A readable event: iRead, keeping what it has read, and iClose if it has failed. */
    method HandleReadable(errno: Errno) returns (ghost k: nat, ghost used: seq<Reply>)
      requires inward.Valid() && open && armed == Reading
      modifies this`armed, this`open, this`got, inward`replies, inward`arrivals, inward`delivered, inward`consumed
      ensures inward.Valid() && inward.delivered == DeliveredBy(old(inward.Before(errno, BUFFER)), |used|) >= old(inward.delivered)
      ensures inward.consumed == old(inward.consumed) + k && Receives(old(inward.Before(errno, BUFFER)), used, k)
      ensures got == old(got) + (if k == 0 then [] else [inward.wire[old(inward.consumed)..inward.consumed]])
      ensures armed == (if k > 0 then Writing else Reading) && open == (k > 0)
    {
      var nRet, data;
      nRet, data, used := IRead(errno);
      k := |data|;
      if nRet < 0 {
        IClose();
      } else {
        got := got + [data];
      }
    }
  }

  class Conversation {
    const server: Side
    const client: Side
    ghost var talk: Talk
    ghost var trace: seq<Action>

    ghost predicate IsHistory()
      reads this
    {
      IsRun(Exchange.Start, trace) && Run(Exchange.Start, trace) == talk
    }

    ghost method Record(a: Action)
      requires IsHistory() && Enabled(talk, a)
      modifies this`talk, this`trace
      ensures IsHistory() && talk == Next(old(talk), a) && trace == old(trace) + [a]
    {
      RunPush(Exchange.Start, trace, a);
      trace := trace + [a];
      talk := Next(talk, a);
    }

    /** Two ends, and what one sends the other receives. */
    ghost predicate Wired() {
      server != client && server.out != client.out && server.inward == client.out && client.inward == server.out
    }

    ghost predicate Valid()
      reads this, server, client, server.out, client.out
    {
      Wired() && IsHistory() && Shows(server, talk.server) && Shows(client, talk.client)
    }

    /** The fields of an end are those of the conversation. */
    static ghost predicate Shows(side: Side, e: End)
      reads side, side.out
    {
      && Carries(side.out, e)
      && side.armed == e.armed && side.open == e.open && side.got == e.outputs
    }

    static ghost predicate Carries(w: Stream, e: End)
      reads w
    {
      w.Valid() && w.wire == e.wire && w.delivered == e.delivered && w.consumed == e.consumed
    }

    constructor ()
      ensures Valid() && fresh(server) && fresh(client) && fresh(server.out) && fresh(client.out) && trace == []
    {
      var down := new Stream([], []);
      var up := new Stream([], []);
      server := new Side(down, up, Writing);
      client := new Side(up, down, Reading);
      talk, trace := Exchange.Start, [];
    }

    function Of(p: Peer): Side {
      if p == Server then server else client
    }

    /** A writable event: one whole message goes out, or a proper prefix of it and the end closes. */
    method OnWritable(p: Peer, msg: seq<byte>, errno: Errno) returns (ghost acts: seq<Action>, ghost used: seq<Reply>)
      requires Valid() && Of(p).open && Of(p).armed == Writing && 0 < |msg| < BUFFER
      modifies this, Of(p), Of(p).out
      ensures Valid() && trace == old(trace) + acts && IsRun(old(talk), acts) && talk == Run(old(talk), acts)
      ensures var k := |Of(p).out.wire| - |old(Of(p).out.wire)|;
              0 <= k <= |msg| && acts == [Write(p, msg, k)] && (Of(p).open <==> k == |msg|)
              && Sends(old(Of(p).out.replies), errno, used, |msg|, k)
    {
      ghost var k;
      k, used := Of(p).HandleWritable(msg, errno);
      acts := RecordWrite(p, msg, k);
    }

    ghost method RecordWrite(p: Peer, msg: seq<byte>, k: nat) returns (acts: seq<Action>)
      requires IsHistory() && Enabled(talk, Write(p, msg, k))
      modifies this`talk, this`trace
      ensures acts == [Write(p, msg, k)] && HasWritten(old(talk), p, msg, k, talk)
      ensures IsHistory() && trace == old(trace) + acts && IsRun(old(talk), acts) && talk == Run(old(talk), acts)
    {
      acts := [Write(p, msg, k)];
      RunOne(talk, acts[0]);
      Record(acts[0]);
    }

    /**
     A readable event: some bytes come in and the end turns to writing, or none do and it closes.  What
     has arrived between the recv() calls is put before the read, where the other end cannot tell.
     */
    method OnReadable(p: Peer, errno: Errno) returns (ghost acts: seq<Action>, ghost used: seq<Reply>)
      requires Valid() && Of(p).open && Of(p).armed == Reading
      modifies this, Of(p), Of(p).inward
      ensures Valid() && trace == old(trace) + acts && IsRun(old(talk), acts) && talk == Run(old(talk), acts)
      ensures var me, was := Of(p).inward, old(Of(p).inward.Before(errno, BUFFER));
              var k, d := me.consumed - was.consumed, me.delivered - was.delivered;
              k >= 0 && d >= 0 && acts == [Deliver(Other(p), d), if k == 0 then Quit(p) else Read(p, k)]
              && Of(p).got == old(Of(p).got) + (if k == 0 then [] else [me.wire[was.consumed..me.consumed]])
              && Receives(was, used, k) && me.delivered == DeliveredBy(was, |used|)
    {
      acts, used := ReadBy(p, Of(p), Of(Other(p)), errno);
    }

    /** The same, for the two ends by name. */
    method ReadBy(ghost p: Peer, me: Side, ghost other: Side, errno: Errno) returns (ghost acts: seq<Action>, ghost used: seq<Reply>)
      requires IsHistory() && me != other && me.out != other.out && me.inward == other.out
      requires Shows(me, At(talk, p)) && Shows(other, At(talk, Other(p))) && me.open && me.armed == Reading
      modifies this, me, me.inward
      ensures IsHistory() && Shows(me, At(talk, p)) && Shows(other, At(talk, Other(p)))
      ensures trace == old(trace) + acts && IsRun(old(talk), acts) && talk == Run(old(talk), acts)
      ensures var was := old(me.inward.Before(errno, BUFFER));
              var k, d := me.inward.consumed - was.consumed, me.inward.delivered - was.delivered;
              k >= 0 && d >= 0 && acts == [Deliver(Other(p), d), if k == 0 then Quit(p) else Read(p, k)]
              && me.got == old(me.got) + (if k == 0 then [] else [me.inward.wire[was.consumed..me.inward.consumed]])
              && Receives(was, used, k) && me.inward.delivered == DeliveredBy(was, |used|)
    {
      ghost var k, there := 0, me.inward.delivered;
      k, used := me.HandleReadable(errno);
      acts := RecordRead(p, me.inward.delivered - there, k);
    }

    /** The two steps of a readable event. */
    ghost method RecordRead(p: Peer, d: nat, k: nat) returns (acts: seq<Action>)
      requires IsHistory() && Readies(talk, p, d, k)
      modifies this`talk, this`trace
      ensures acts == [Deliver(Other(p), d), if k == 0 then Quit(p) else Read(p, k)]
      ensures IsHistory() && trace == old(trace) + acts && IsRun(old(talk), acts) && talk == Run(old(talk), acts)
      ensures HasRead(old(talk), p, d, k, talk)
    {
      var a := if k == 0 then Quit(p) else Read(p, k);
      RunTwo(talk, Deliver(Other(p), d), a);
      Record(Deliver(Other(p), d));
      Record(a);
      acts := [Deliver(Other(p), d), a];
      assert old(trace) + [Deliver(Other(p), d)] + [a] == old(trace) + acts;
    }

    /** The network moves up to k bytes of p's wire to the other end. */
    method OnArrival(p: Peer, k: nat) returns (ghost a: Action)
      requires Valid()
      modifies this`talk, this`trace, Of(p).out
      ensures Valid() && trace == old(trace) + [a] && Enabled(old(talk), a) && talk == Next(old(talk), a)
      ensures a == Deliver(p, Min(k, old(|Of(p).out.wire| - Of(p).out.delivered)))
    {
      a := Deliver(p, Min(k, |Of(p).out.wire| - Of(p).out.delivered));
      Of(p).out.Deliver(k);
      Record(a);
    }

    /** A whole session: every event that can occur at its turn is handled, in order; `states` are the moments between. */
    method Session(ops: seq<Op>) returns (ghost parts: seq<seq<Action>>, ghost states: seq<Talk>)
      requires Valid()
      modifies this, server, client, server.out, client.out
      ensures Valid() && trace == old(trace) + Flatten(parts)
      ensures Plays(ops, parts, states) && states[0] == old(talk) && states[|ops|] == talk
      decreases |ops|
    {
      if ops == [] {
        parts, states := [], [talk];
      } else {
        var last := |ops| - 1;
        parts, states := Session(ops[..last]);
        parts, states := HandleNext(old(trace), ops[..last], parts, states, ops[last]);
        assert ops[..last] + [ops[last]] == ops;
      }
    }

    /** One more event of a session that began when the trace was `begin`. */
    method HandleNext(ghost begin: seq<Action>, ghost done: seq<Op>, ghost parts: seq<seq<Action>>, ghost states: seq<Talk>, op: Op)
      returns (ghost parts': seq<seq<Action>>, ghost states': seq<Talk>)
      requires Valid() && Plays(done, parts, states) && states[|done|] == talk && trace == begin + Flatten(parts)
      modifies this, server, client, server.out, client.out
      ensures Valid() && Plays(done + [op], parts', states') && states'[0] == states[0] && states'[|done| + 1] == talk
      ensures trace == begin + Flatten(parts')
    {
      ghost var acts := Handle(op);
      PlaysOn(done, parts, states, op, acts, talk);
      FlattenPush(parts, acts);
      parts', states' := parts + [acts], states + [talk];
    }

    /** The theorems of Exchange, on the wires and flags of the two ends and on what their recvn calls have returned. */
    lemma Faithfully()
      requires Valid()
      ensures Flatten(client.got) == server.out.wire[..server.out.consumed]
      ensures Flatten(server.got) == client.out.wire[..client.out.consumed]
      ensures server.out.wire == Flatten(Sent(trace, Server)) + talk.server.partial && Remainder(trace, Server, talk.server.partial, server.open)
      ensures client.out.wire == Flatten(Sent(trace, Client)) + talk.client.partial && Remainder(trace, Client, talk.client.partial, client.open)
      ensures |talk.server.partial| < BUFFER && (server.open ==> server.out.wire == Flatten(Sent(trace, Server)))
      ensures |talk.client.partial| < BUFFER && (client.open ==> client.out.wire == Flatten(Sent(trace, Client)))
      ensures server.open && client.open ==> CanProceed(talk)
    {
      StreamFidelity(trace, Server);
      StreamFidelity(trace, Client);
      if server.open && client.open {
        NeverDeadlocks(trace);
      }
    }

    /** One event; nothing happens if it cannot occur now. */
    method Handle(op: Op) returns (ghost acts: seq<Action>)
      requires Valid()
      modifies this, server, client, server.out, client.out
      ensures Valid() && trace == old(trace) + acts && Handles(old(talk), op, acts, talk)
    {
      acts := [];
      match op {
        case Writable(p, msg, _, _) =>
          if Of(p).open && Of(p).armed == Writing && 0 < |msg| < BUFFER {
            acts := LetWrite(op);
          }
        case Readable(p, _, _, _) =>
          if Of(p).open && Of(p).armed == Reading {
            acts := LetRead(op);
          }
        case Arrive(p, k) =>
          ghost var a := OnArrival(p, k);
          RunOne(old(talk), a);
          acts := [a];
      }
    }

    method LetWrite(op: Op) returns (ghost acts: seq<Action>)
      requires Valid() && op.Writable? && Of(op.p).open && Of(op.p).armed == Writing && 0 < |op.msg| < BUFFER
      modifies this, Of(op.p), Of(op.p).out
      ensures Valid() && trace == old(trace) + acts && Handles(old(talk), op, acts, talk)
    {
      Of(op.p).out.replies := op.replies;
      ghost var used;
      acts, used := OnWritable(op.p, op.msg, op.errno);
      assert Writes(old(talk), op, acts, used);
    }

    method LetRead(op: Op) returns (ghost acts: seq<Action>)
      requires Valid() && op.Readable? && Of(op.p).open && Of(op.p).armed == Reading
      modifies this, Of(op.p), Of(op.p).inward
      ensures Valid() && trace == old(trace) + acts && Handles(old(talk), op, acts, talk)
    {
      acts := LetReadBy(op, Of(op.p), Of(Other(op.p)));
    }

    method LetReadBy(op: Op, me: Side, ghost other: Side) returns (ghost acts: seq<Action>)
      requires IsHistory() && me != other && me.out != other.out && me.inward == other.out && op.Readable?
      requires Shows(me, At(talk, op.p)) && Shows(other, At(talk, Other(op.p))) && me.open && me.armed == Reading
      modifies this, me, me.inward
      ensures IsHistory() && Shows(me, At(talk, op.p)) && Shows(other, At(talk, Other(op.p)))
      ensures trace == old(trace) + acts && Handles(old(talk), op, acts, talk)
    {
      me.inward.replies, me.inward.arrivals := op.replies, op.arrivals;
      ghost var was := me.inward.Before(op.errno, BUFFER);
      assert was == SceneOf(talk, op);
      ghost var used;
      acts, used := ReadBy(op.p, me, other, op.errno);
      assert Reads(old(talk), op, acts, used);
    }
  }

  /** d bytes can arrive at p, and k can then be read. */
  predicate Readies(s: Talk, p: Peer, d: nat, k: nat) {
    var from := At(s, Other(p));
    && At(s, p).open && At(s, p).armed == Reading && k <= BUFFER
    && from.consumed + k <= from.delivered + d <= |from.wire|
  }

  predicate HasWritten(s: Talk, p: Peer, msg: seq<byte>, k: nat, s': Talk)
    requires k <= |msg|
  {
    var e, e' := At(s, p), At(s', p);
    && e'.wire == e.wire + msg[..k] && e'.delivered == e.delivered && e'.consumed == e.consumed && e'.outputs == e.outputs
    && e'.armed == (if k == |msg| then Reading else e.armed) && e'.open == (k == |msg|)
    && At(s', Other(p)) == At(s, Other(p))
  }

  predicate HasRead(s: Talk, p: Peer, d: nat, k: nat, s': Talk) {
    var e, e', from, from' := At(s, p), At(s', p), At(s, Other(p)), At(s', Other(p));
    && e'.wire == e.wire && e'.delivered == e.delivered && e'.consumed == e.consumed
    && e'.armed == (if k > 0 then Writing else Reading) && e'.open == (k > 0)
    && from'.wire == from.wire && from'.delivered == from.delivered + d && from'.consumed == from.consumed + k
    && from'.armed == from.armed && from'.open == from.open && from'.outputs == from.outputs
    && from.consumed + k <= |from.wire|
    && e'.outputs == e.outputs + if k == 0 then [] else [from.wire[from.consumed..from.consumed + k]]
  }

  lemma RunOne(s: Talk, a: Action)
    requires Enabled(s, a)
    ensures IsRun(s, [a]) && Run(s, [a]) == Next(s, a)
  {
    assert [a][1..] == [];
    assert Run(Next(s, a), []) == Next(s, a);
  }

  lemma RunTwo(s: Talk, a: Action, b: Action)
    requires Enabled(s, a) && Enabled(Next(s, a), b)
    ensures IsRun(s, [a, b]) && Run(s, [a, b]) == Next(Next(s, a), b)
  {
    assert [a, b][1..] == [b];
    RunOne(Next(s, a), b);
  }

  predicate Possible(s: Talk, op: Op) {
    match op
    case Writable(p, msg, _, _) => At(s, p).open && At(s, p).armed == Writing && 0 < |msg| < BUFFER
    case Readable(p, _, _, _) => At(s, p).open && At(s, p).armed == Reading
    case Arrive(p, k) => true
  }

  /** One write, of exactly the bytes the replies move. */
  ghost predicate Writes(s: Talk, op: Op, acts: seq<Action>, used: seq<Reply>)
    requires op.Writable?
  {
    |acts| == 1 && acts[0].Write? && acts[0].p == op.p && acts[0].msg == op.msg
    && Sends(op.replies, op.errno, used, |op.msg|, acts[0].k)
  }

  /** What a recvn would find that handles this event now. */
  function SceneOf(s: Talk, op: Op): Scene
    requires op.Readable?
  {
    var e := At(s, Other(op.p));
    Scene(op.replies, op.arrivals, op.errno, e.consumed, e.delivered, |e.wire|, BUFFER)
  }

  /** An arrival and one read, or the close, of exactly the bytes that arrivals and replies move. */
  ghost predicate Reads(s: Talk, op: Op, acts: seq<Action>, used: seq<Reply>)
    requires op.Readable?
  {
    var c := SceneOf(s, op);
    var d, k := DeliveredBy(c, |used|) - c.delivered, Follow(used, op.errno).total;
    d >= 0 && acts == [Deliver(Other(op.p), d), if k == 0 then Quit(op.p) else Read(op.p, k)] && Receives(c, used, k)
  }

  /** These steps are the handling of the event. */
  ghost predicate Fits(s: Talk, op: Op, acts: seq<Action>) {
    match op
    case Writable(p, msg, _, _) => exists used :: Writes(s, op, acts, used)
    case Readable(p, _, _, _) => exists used :: Reads(s, op, acts, used)
    case Arrive(p, k) => acts == [Deliver(p, Min(k, Less(|At(s, p).wire|, At(s, p).delivered)))]
  }

  ghost predicate Handles(s: Talk, op: Op, acts: seq<Action>, s': Talk) {
    && IsRun(s, acts) && Run(s, acts) == s'
    && if Possible(s, op) then Fits(s, op, acts) else acts == []
  }

  ghost predicate Plays(ops: seq<Op>, parts: seq<seq<Action>>, states: seq<Talk>) {
    && |parts| == |ops| && |states| == |ops| + 1
    && forall i | 0 <= i < |ops| :: Handles(states[i], ops[i], parts[i], states[i + 1])
  }

  lemma PlaysOn(ops: seq<Op>, parts: seq<seq<Action>>, states: seq<Talk>, op: Op, acts: seq<Action>, s': Talk)
    requires Plays(ops, parts, states) && Handles(states[|ops|], op, acts, s')
    ensures Plays(ops + [op], parts + [acts], states + [s'])
  {
    forall i | 0 <= i <= |ops|
      ensures Handles((states + [s'])[i], (ops + [op])[i], (parts + [acts])[i], (states + [s'])[i + 1])
    {
      if i < |ops| {
        assert Handles(states[i], ops[i], parts[i], states[i + 1]);
      }
    }
  }
}
