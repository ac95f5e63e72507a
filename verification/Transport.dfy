/**
 sendn and recvn (iSocket.cpp) over one direction of a connection.  The kernel is an adversary: it
 fragments, interrupts and fails as a list of replies says, and bytes on the wire arrive when it
 likes, also between two recv() calls of one recvn.  errno is the calling thread's: a call finds in
 it whatever the thread has done before, and a reply that moves nothing leaves it alone, as recv()
 does at end of file.
 */
module Transport {

  newtype byte = x: int | 0 <= x < 256

  datatype Errno = EINTR | EAGAIN | EOTHER

  /** What one send() or recv() does: moves up to `most` bytes, or fails. */
  datatype Reply = Moves(most: nat) | Fails(errno: Errno)

  // ---- the meaning of a list of replies -------------------------------------------------------

  /** Where the loops are after some replies: bytes moved if none are missing, errno, and whether they go round again. */
  datatype Progress = Progress(total: nat, errno: Errno, going: bool)

  function Follow(replies: seq<Reply>, errno: Errno): Progress {
    if replies == [] then Progress(0, errno, true) else
      var p := Follow(replies[..|replies| - 1], errno);
      if !p.going then p else After(p, replies[|replies| - 1])
  }

  function After(p: Progress, r: Reply): Progress {
    match r
    case Moves(k) => Progress(p.total + k, p.errno, k > 0 || p.errno == EINTR)
    case Fails(e) => Progress(p.total, e, e == EINTR)
  }

  /** Every reply in `used` has been asked for: before it the loop was going, and short of its goal. */
  ghost predicate Needed(used: seq<Reply>, errno: Errno, goal: nat)
    decreases |used|
  {
    used == [] ||
    var before := used[..|used| - 1];
    Needed(before, errno, goal) && Follow(before, errno).going && Follow(before, errno).total < goal
  }

  /** The i-th reply; a kernel with no replies left has EAGAIN. */
  function ReplyAt(replies: seq<Reply>, i: nat): Reply {
    if i < |replies| then replies[i] else Fails(EAGAIN)
  }

  function Rest<T>(s: seq<T>, n: nat): seq<T> {
    if n <= |s| then s[n..] else []
  }

  lemma PushReply(replies: seq<Reply>, r: Reply, errno: Errno)
    requires Follow(replies, errno).going
    ensures Follow(replies + [r], errno) == After(Follow(replies, errno), r)
    ensures (replies + [r])[..|replies|] == replies
  {
    assert (replies + [r])[..|replies|] == replies;
  }

  /** `used` are the kernel's first replies, and `rest` what is left after them. */
  ghost predicate Taken(all: seq<Reply>, used: seq<Reply>, rest: seq<Reply>) {
    rest == Rest(all, |used|) && forall i | 0 <= i < |used| :: used[i] == ReplyAt(all, i)
  }

  lemma TakeOn(all: seq<Reply>, used: seq<Reply>, rest: seq<Reply>)
    requires Taken(all, used, rest)
    ensures Taken(all, used + [ReplyAt(rest, 0)], Rest(rest, 1))
  {
  }

  /** A loop that has done `used` and looks at its condition again. */
  ghost predicate GoesOn(used: seq<Reply>, errno: Errno, total: nat, err: Errno, goal: nat) {
    Needed(used, errno, goal) && Follow(used, errno) == Progress(total, err, true)
  }

  lemma GoOn(used: seq<Reply>, errno: Errno, total: nat, err: Errno, goal: nat, r: Reply)
    requires GoesOn(used, errno, total, err, goal) && total < goal
    ensures Needed(used + [r], errno, goal) && Follow(used + [r], errno) == After(Progress(total, err, true), r)
  {
    PushReply(used, r, errno);
  }

  /** What is on the wire after k more bytes of the message. */
  lemma SentOn(before: seq<byte>, msg: seq<byte>, str: nat, k: nat)
    requires str + k <= |msg|
    ensures before + msg[..str] + msg[str..][..k] == before + msg[..str + k]
  {
  }

  /** What recv() can do with a reply: it moves no more than has arrived and there is room for. */
  function Actual(r: Reply, available: nat, room: nat): Reply {
    if !r.Moves? || r.most == 0 then r
    else if available == 0 then Fails(EAGAIN)
    else Moves(Min(r.most, Min(available, room)))
  }

  /** How many bytes arrive before the n-th recv() of a call. */
  function Arriving(arrivals: seq<nat>, n: nat): nat {
    if n == 0 then 0 else Arriving(arrivals, n - 1) + if n <= |arrivals| then arrivals[n - 1] else 0
  }

  function Min(a: nat, b: nat): nat {
    if a < b then a else b
  }

  function Less(a: nat, b: nat): nat {
    if a > b then a - b else 0
  }

  /**
   What a recvn finds: the replies and arrivals to come, errno, how much of the wire has been consumed
   and delivered, the size of the wire, and the room in the buffer.
   */
  datatype Scene = Scene(replies: seq<Reply>, arrivals: seq<nat>, errno: Errno, consumed: nat, delivered: nat, size: nat, room: nat)

  /** How much has been delivered by the n-th recv(). */
  function DeliveredBy(c: Scene, n: nat): nat {
    Min(c.delivered + Arriving(c.arrivals, n), c.size)
  }

  /** What the first n recv() calls of the recvn do. */
  function Actuals(c: Scene, n: nat): (r: seq<Reply>)
    ensures |r| == n
  {
    if n == 0 then [] else
      var before := Actuals(c, n - 1);
      var moved := Follow(before, c.errno).total;
      before + [Actual(ReplyAt(c.replies, n - 1), Less(DeliveredBy(c, n), c.consumed + moved), Less(c.room, moved))]
  }

  /** Where the replies, the arrivals and the delivery stand after `used`. */
  ghost predicate Performed(c: Scene, used: seq<Reply>, left: seq<Reply>, later: seq<nat>, delivered: nat) {
    && left == Rest(c.replies, |used|) && later == Rest(c.arrivals, |used|)
    && delivered == DeliveredBy(c, |used|) && used == Actuals(c, |used|)
  }

  /** One more recv(): it sees what has arrived by then, less what has been read. */
  lemma PerformOn(c: Scene, used: seq<Reply>, left: seq<Reply>, later: seq<nat>, delivered: nat, delivered': nat, r: Reply)
    requires Performed(c, used, left, later, delivered) && c.delivered <= c.size
    requires delivered' == Min(delivered + Arriving(later, 1), c.size)
    requires var moved := Follow(used, c.errno).total;
             r == Actual(ReplyAt(left, 0), Less(delivered', c.consumed + moved), Less(c.room, moved))
    ensures Performed(c, used + [r], Rest(left, 1), Rest(later, 1), delivered')
  {
    assert Arriving(later, 0) == 0;
    assert ReplyAt(left, 0) == ReplyAt(c.replies, |used|);
  }

  /**
   After the peer has closed, recv() keeps answering 0, which leaves errno alone.  recvn then leaves its
   loop exactly if errno does not hold EINTR; otherwise it goes round for as long as the answers last, be
   it once or for ever.  And errno holds EINTR exactly if it did at the call, from whatever the thread had
   done before, or if one of the recv() calls of this recvn, `pre`, has been interrupted.
   */
  lemma {:induction false} EndOfFileSpins(pre: seq<Reply>, n: nat, errno: Errno)
    requires Follow(pre, errno).going && n > 0
    ensures var p := Follow(pre, errno); Follow(pre + Answers(n), errno) == Progress(p.total, p.errno, p.errno == EINTR)
    ensures Follow(pre, errno).errno == EINTR <==> errno == EINTR || exists r :: r in pre && r.Fails?
  {
    var all := pre + Answers(n);
    assert all[..|all| - 1] == pre + Answers(n - 1);
    if n > 1 {
      EndOfFileSpins(pre, n - 1, errno);
    } else {
      assert pre + Answers(0) == pre;
      ErrnoSoFar(pre, errno);
    }
  }

  /** While a loop goes on, all failures have been interruptions. */
  lemma {:induction false} ErrnoSoFar(pre: seq<Reply>, errno: Errno)
    requires Follow(pre, errno).going
    ensures Follow(pre, errno).errno == if exists r :: r in pre && r.Fails? then EINTR else errno
  {
    if pre != [] {
      var before, last := pre[..|pre| - 1], pre[|pre| - 1];
      ErrnoSoFar(before, errno);
      assert forall r :: r in pre <==> r in before || r == last;
    }
  }

  function MovedBy(replies: seq<Reply>): nat {
    if replies == [] then 0 else
      var r := replies[|replies| - 1];
      MovedBy(replies[..|replies| - 1]) + if r.Moves? then r.most else 0
  }

  /** errno holds EINTR at the i-th reply: from before the call, or from an interruption since. */
  ghost predicate Interrupted(replies: seq<Reply>, errno: Errno, i: nat)
    requires i <= |replies|
  {
    errno == EINTR || exists r :: r in replies[..i] && r.Fails?
  }

  /** A reply after which a loop goes round again: bytes, an interruption, or end of file with EINTR in errno. */
  ghost predicate Continues(replies: seq<Reply>, errno: Errno, i: nat)
    requires i < |replies|
  {
    match replies[i]
    case Moves(k) => k > 0 || Interrupted(replies, errno, i)
    case Fails(e) => e == EINTR
  }

  /** A loop is going exactly if all its replies have been such; and then it has moved what they move. */
  lemma {:induction false} GoesOnExactly(replies: seq<Reply>, errno: Errno)
    ensures Follow(replies, errno).going <==> forall i | 0 <= i < |replies| :: Continues(replies, errno, i)
    ensures Follow(replies, errno).going ==> Follow(replies, errno).total == MovedBy(replies)
  {
    if replies != [] {
      var last := |replies| - 1;
      var before := replies[..last];
      GoesOnExactly(before, errno);
      forall i | 0 <= i < last ensures Continues(before, errno, i) <==> Continues(replies, errno, i) {
        assert before[..i] == replies[..i];
      }
      if Follow(before, errno).going {
        ErrnoSoFar(before, errno);
        assert Continues(replies, errno, last) <==> Follow(replies, errno).going;
      }
    }
  }

  /** Where a recvn stands after n recv() calls. */
  function Standing(c: Scene, n: nat): Progress {
    if n == 0 then Progress(0, c.errno, true) else
      var p := Standing(c, n - 1);
      if !p.going then p else
        After(p, Actual(ReplyAt(c.replies, n - 1), Less(DeliveredBy(c, n), c.consumed + p.total), Less(c.room, p.total)))
  }

  lemma {:induction false} AfterIsFollow(c: Scene, n: nat)
    ensures Follow(Actuals(c, n), c.errno) == Standing(c, n)
  {
    if n > 0 {
      AfterIsFollow(c, n - 1);
      assert Actuals(c, n)[..n - 1] == Actuals(c, n - 1);
    }
  }

  /**
   End of file in a recvn, after n recv() calls that have left it going: m answers of 0 in a row take it
   nowhere.  They end it at once, with what it has, unless errno holds EINTR, and then they never do.
   */
  lemma RecvnAtEndOfFile(c: Scene, n: nat, m: nat)
    requires n + m <= |c.replies| && m > 0 && forall i | n <= i < n + m :: c.replies[i] == Moves(0)
    requires Follow(Actuals(c, n), c.errno).going
    ensures var p := Follow(Actuals(c, n), c.errno);
            Follow(Actuals(c, n + m), c.errno) == Progress(p.total, p.errno, p.errno == EINTR)
  {
    AfterIsFollow(c, n);
    AfterIsFollow(c, n + m);
    StandingAtEndOfFile(c, n, m);
  }

  lemma {:induction false} StandingAtEndOfFile(c: Scene, n: nat, m: nat)
    requires n + m <= |c.replies| && m > 0 && forall i | n <= i < n + m :: c.replies[i] == Moves(0)
    requires Standing(c, n).going
    ensures var p := Standing(c, n); Standing(c, n + m) == Progress(p.total, p.errno, p.errno == EINTR)
  {
    assert c.replies[n + m - 1] == Moves(0);
    if m > 1 {
      StandingAtEndOfFile(c, n, m - 1);
    }
  }

  /** No more is read than has arrived and there is room for. */
  lemma {:induction false} ReadsWithin(c: Scene, n: nat)
    requires c.consumed <= c.delivered <= c.size
    ensures Standing(c, n).total <= c.room && c.consumed + Standing(c, n).total <= DeliveredBy(c, n)
  {
    if n > 0 {
      ReadsWithin(c, n - 1);
    }
  }

  /**
   recvn drains: if the kernel's replies only move bytes or interrupt, the loop stops when the buffer is
   full or nothing that has arrived is left, and not before.
   */
  lemma RecvnDrains(c: Scene, used: seq<Reply>)
    requires c.consumed <= c.delivered <= c.size && |used| <= |c.replies| && used == Actuals(c, |used|)
    requires forall i | 0 <= i < |used| :: c.replies[i] == Fails(EINTR) || (c.replies[i].Moves? && c.replies[i].most > 0)
    requires Needed(used, c.errno, c.room) && (Follow(used, c.errno).going ==> Follow(used, c.errno).total >= c.room)
    ensures Follow(used, c.errno).total == Min(c.room, DeliveredBy(c, |used|) - c.consumed)
  {
    AfterIsFollow(c, |used|);
    ReadsWithin(c, |used|);
    if !Standing(c, |used|).going {
      LastIsNeeded(c, used);
      StopsDry(c, |used|);
    }
  }

  lemma LastIsNeeded(c: Scene, used: seq<Reply>)
    requires used != [] && used == Actuals(c, |used|) && Needed(used, c.errno, c.room)
    ensures Standing(c, |used| - 1).going && Standing(c, |used| - 1).total < c.room
  {
    AfterIsFollow(c, |used| - 1);
    assert used[..|used| - 1] == Actuals(c, |used| - 1);
  }

  lemma StopsDry(c: Scene, n: nat)
    requires n > 0 && c.consumed <= c.delivered <= c.size && n <= |c.replies|
    requires c.replies[n - 1] == Fails(EINTR) || (c.replies[n - 1].Moves? && c.replies[n - 1].most > 0)
    requires Standing(c, n - 1).going && Standing(c, n - 1).total < c.room && !Standing(c, n).going
    ensures c.consumed + Standing(c, n).total == DeliveredBy(c, n)
  {
    ReadsWithin(c, n);
  }

  /** n times end of file. */
  function Answers(n: nat): seq<Reply> {
    seq(n, _ => Moves(0))
  }

  /** A recvn under way: what it has done so far, how much it has got, and errno. */
  ghost predicate Reading(c: Scene, used: seq<Reply>, left: seq<Reply>, later: seq<nat>, delivered: nat, p: Progress) {
    Performed(c, used, left, later, delivered) && Needed(used, c.errno, c.room) && Follow(used, c.errno) == p
  }

  lemma ReadingOn(c: Scene, used: seq<Reply>, left: seq<Reply>, later: seq<nat>, delivered: nat, p: Progress,
                  delivered': nat, available: nat, room: nat, r: Reply)
    returns (used': seq<Reply>)
    requires Reading(c, used, left, later, delivered, p) && p.going && p.total < c.room && c.delivered <= c.size
    requires delivered' == Min(delivered + Arriving(later, 1), c.size)
    requires delivered' == c.consumed + p.total + available && c.room == p.total + room
    requires r == Actual(ReplyAt(left, 0), available, room)
    ensures Reading(c, used', Rest(left, 1), Rest(later, 1), delivered', After(p, r))
  {
    used' := used + [r];
    PerformOn(c, used, left, later, delivered, delivered', r);
    GoOn(used, c.errno, p.total, p.errno, c.room, r);
  }

  /** The progress of a loop, told by what its recv() has returned. */
  lemma AfterRead(total: nat, err: Errno, r: Reply, nRet: int, err': Errno)
    requires if r.Moves? then nRet == r.most && err' == err else nRet == -1 && err' == r.errno
    ensures After(Progress(total, err, true), r) == Progress(total + (if nRet > 0 then nRet else 0), err', nRet > 0 || err' == EINTR)
  {
  }

  // ---- messages -------------------------------------------------------------------------------

  function Flatten<T>(parts: seq<seq<T>>): seq<T> {
    if parts == [] then [] else Flatten(parts[..|parts| - 1]) + parts[|parts| - 1]
  }

  lemma {:induction false} FlattenPush<T>(parts: seq<seq<T>>, p: seq<T>)
    ensures Flatten(parts + [p]) == Flatten(parts) + p
  {
    assert (parts + [p])[..|parts|] == parts;
  }

  // ---- one direction of a connection ----------------------------------------------------------

  class Stream {
    var replies: seq<Reply>     // the kernel's answers still to come; nothing more means EAGAIN
    var arrivals: seq<nat>      // how much arrives before the successive recv() calls
    var wire: seq<byte>         // everything send() has accepted
    var delivered: nat          // how much of it has arrived at the reader
    var consumed: nat           // how much of that recv() has handed out

    ghost predicate Valid()
      reads this
    {
      consumed <= delivered <= |wire|
    }

    constructor (replies: seq<Reply>, arrivals: seq<nat>)
      ensures Valid() && wire == [] && delivered == 0 && consumed == 0
      ensures this.replies == replies && this.arrivals == arrivals
    {
      this.replies := replies;
      this.arrivals := arrivals;
      this.wire := [];
      this.delivered := 0;
      this.consumed := 0;
    }

    /** The network carries up to k bytes to the reader. */
    method Deliver(k: nat)
      requires Valid()
      modifies this`delivered
      ensures Valid() && delivered == Min(old(delivered) + k, |wire|)
    {
      delivered := Min(delivered + k, |wire|);
    }

    /** What arrives before the next recv(). */
    method Arrive()
      requires Valid()
      modifies this`delivered, this`arrivals
      ensures Valid() && arrivals == Rest(old(arrivals), 1)
      ensures delivered == Min(old(delivered) + Arriving(old(arrivals), 1), |wire|)
    {
      if arrivals != [] {
        Deliver(arrivals[0]);
        arrivals := arrivals[1..];
      }
    }

    method Take() returns (r: Reply)
      modifies this`replies
      ensures r == ReplyAt(old(replies), 0) && replies == Rest(old(replies), 1)
    {
      if replies == [] {
        return Fails(EAGAIN);
      }
      r := replies[0];
      replies := replies[1..];
    }

    /** send(): returns the number of bytes accepted, or -1. */
    method Send(data: seq<byte>, errno: Errno) returns (ret: int, errno': Errno, ghost r: Reply)
      requires Valid() && data != []
      modifies this`replies, this`wire
      ensures Valid() && r == ReplyAt(old(replies), 0) && replies == Rest(old(replies), 1)
      ensures match r
              case Moves(k) => ret == Min(k, |data|) && wire == old(wire) + data[..ret] && errno' == errno
              case Fails(e) => ret == -1 && wire == old(wire) && errno' == e
    {
      var reply := Take();
      r := reply;
      match reply
      case Moves(k) =>
        ret, errno' := Min(k, |data|), errno;
        wire := wire + data[..ret];
      case Fails(e) =>
        ret, errno' := -1, e;
    }

    /**
     sendn: all of `msg`, or -1 with a proper prefix of it on the wire.  It gives up only at a reply
     that is neither progress nor an interruption; and what is on the wire is exactly what the
     replies up to there move.
     */
    method Sendn(msg: seq<byte>, errno: Errno) returns (ret: int, ghost used: seq<Reply>)
      requires Valid()
      modifies this`replies, this`wire
      ensures Valid() && Taken(old(replies), used, replies)
      ensures wire == old(wire) + msg[..Min(|msg|, Follow(used, errno).total)]
      ensures ret == if Follow(used, errno).total >= |msg| then |msg| else -1
      ensures Needed(used, errno, |msg|) && (ret == -1 <==> !Follow(used, errno).going)
    {
      var n := |msg|;
      var str := 0;
      var err := errno;
      used := [];
      ghost var total: nat := 0;
      while n > 0
        invariant Valid() && 0 <= n <= |msg| && str == |msg| - n && str == Min(|msg|, total)
        invariant Taken(old(replies), used, replies) && wire == old(wire) + msg[..str]
        invariant GoesOn(used, errno, total, err, |msg|)
        decreases |replies|, n
      {
        TakeOn(old(replies), used, replies);
        GoOn(used, errno, total, err, |msg|, ReplyAt(replies, 0));
        var nRet: int;
        ghost var r;
        nRet, err, r := Send(msg[str..], err);
        used := used + [r];
        if nRet <= 0 {
          if err == EINTR {
            continue;
          }
          return -1, used;
        }
        SentOn(old(wire), msg, str, nRet);
        total := total + r.most;
        n := n - nRet;
        str := str + nRet;
      }
      return |msg| - n, used;
    }

    /** recv() into buf[at..at+n]: returns the number of bytes, 0 at end of file, or -1. */
    method Recv(buf: array<byte>, at: nat, n: nat, errno: Errno) returns (ret: int, errno': Errno, ghost r: Reply)
      requires Valid() && n > 0 && at + n <= buf.Length
      modifies this`replies, this`arrivals, this`delivered, this`consumed, buf
      ensures Valid() && replies == Rest(old(replies), 1) && arrivals == Rest(old(arrivals), 1)
      ensures delivered == Min(old(delivered) + Arriving(old(arrivals), 1), |wire|)
      ensures r == Actual(ReplyAt(old(replies), 0), delivered - old(consumed), n)
      ensures consumed == old(consumed) + if ret > 0 then ret else 0
      ensures forall i | 0 <= i < buf.Length :: buf[i] ==
                if at <= i < at + ret then wire[old(consumed) + i - at] else old(buf[i])
      ensures match r
              case Moves(k) => ret == k && errno' == errno
              case Fails(e) => ret == -1 && errno' == e
    {
      Arrive();
      var reply := Take();
      reply := Actual(reply, delivered - consumed, n);
      r := reply;
      match reply
      case Moves(k) =>
        ret, errno' := k, errno;
        forall i | 0 <= i < ret {
          buf[at + i] := wire[consumed + i];
        }
        consumed := consumed + ret;
      case Fails(e) =>
        ret, errno' := -1, e;
    }

    /** The buffer holds the bytes read since `start`, then what it held before. */
    ghost predicate Filled(buf: array<byte>, orig: seq<byte>, start: nat)
      reads this, buf
    {
      && start <= consumed <= |wire| && |orig| == buf.Length
      && forall i | 0 <= i < buf.Length :: buf[i] == if i < consumed - start then wire[start + i] else orig[i]
    }

    /** One recv() of recvn: the buffer grows by what it returns. */
    method ReadOn(buf: array<byte>, n: nat, err: Errno, ghost orig: seq<byte>, ghost start: nat)
      returns (nRet: int, err': Errno, ghost r: Reply)
      requires Valid() && 0 < n <= buf.Length && Filled(buf, orig, start) && consumed - start == buf.Length - n
      modifies this`replies, this`arrivals, this`delivered, this`consumed, buf
      ensures Valid() && replies == Rest(old(replies), 1) && arrivals == Rest(old(arrivals), 1)
      ensures delivered == Min(old(delivered) + Arriving(old(arrivals), 1), |wire|)
      ensures r == Actual(ReplyAt(old(replies), 0), delivered - old(consumed), n) && nRet <= n
      ensures Filled(buf, orig, start) && consumed == old(consumed) + if nRet > 0 then nRet else 0
      ensures match r
              case Moves(k) => nRet == k && err' == err
              case Fails(e) => nRet == -1 && err' == e
    {
      nRet, err', r := Recv(buf, buf.Length - n, n, err);
    }

    /** The same, and what it means for the loop. */
    method ReadStep(buf: array<byte>, n: nat, err: Errno, ghost orig: seq<byte>, ghost c: Scene, ghost used: seq<Reply>)
      returns (nRet: int, err': Errno, ghost used': seq<Reply>)
      requires Valid() && 0 < n <= buf.Length == c.room && Filled(buf, orig, c.consumed) && consumed - c.consumed == buf.Length - n
      requires Reading(c, used, replies, arrivals, delivered, Progress(buf.Length - n, err, true)) && c.delivered <= c.size == |wire|
      modifies this`replies, this`arrivals, this`delivered, this`consumed, buf
      ensures Valid() && Filled(buf, orig, c.consumed) && consumed == old(consumed) + (if nRet > 0 then nRet else 0) && nRet <= n
      ensures Reading(c, used', replies, arrivals, delivered, Progress(consumed - c.consumed, err', nRet > 0 || err' == EINTR))
      ensures |replies| < |old(replies)| || (replies == [] && nRet <= 0 && err' != EINTR)
    {
      ghost var left, later, there, from := replies, arrivals, delivered, consumed;
      ghost var r;
      nRet, err', r := ReadOn(buf, n, err, orig, c.consumed);
      ghost var available := delivered - from;
      ghost var got: nat := buf.Length - n;
      used' := ReadingOn(c, used, left, later, there, Progress(got, err, true), delivered, available, n, r);
      AfterRead(got, err, r, nRet, err');
    }

    /**
     recvn: reads until the buffer is full or the loop meets a reply it does not go on from, and
     returns the number of bytes read either way, never -1.  The buffer gets the next bytes of the
     wire in order and keeps the rest of its contents.
     */
    method Recvn(buf: array<byte>, errno: Errno) returns (ret: nat, ghost used: seq<Reply>)
      requires Valid()
      modifies this`replies, this`arrivals, this`delivered, this`consumed, buf
      ensures Valid() && Performed(old(Before(errno, buf.Length)), used, replies, arrivals, delivered)
      ensures ret == Follow(used, errno).total <= buf.Length && consumed == old(consumed) + ret
      ensures Filled(buf, old(buf[..]), old(consumed))
      ensures Needed(used, errno, buf.Length) && (ret < buf.Length ==> !Follow(used, errno).going)
    {
      ghost var orig, start, c := buf[..], consumed, Before(errno, buf.Length);
      var n := buf.Length;
      var err := errno;
      used := [];
      while n > 0
        invariant Valid() && 0 <= n <= buf.Length && Filled(buf, orig, start) && consumed - start == buf.Length - n
        invariant Reading(c, used, replies, arrivals, delivered, Progress(buf.Length - n, err, true)) && |wire| == c.size
        decreases |replies|, n
      {
        var nRet: int;
        nRet, err, used := ReadStep(buf, n, err, orig, c, used);
        if nRet <= 0 {
          if err == EINTR {
            continue;
          }
          break;
        }
        n := n - nRet;
      }
      return buf.Length - n, used;
    }

    /** What a recvn called now would find. */
    ghost function Before(errno: Errno, room: nat): Scene
      reads this
    {
      Scene(replies, arrivals, errno, consumed, delivered, |wire|, room)
    }
  }
}
