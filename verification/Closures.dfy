/**
 What becomes of the descriptors.  Every connection ever accepted is either open or has been closed,
 never both; the listener has closed exactly the rejected ones, the workers exactly those torn down.
 */
module Closures {
  import opened Epoll
  import opened Server
  import opened Ownership

  ghost predicate IsOpen(open: map<Fd, File>, inc: nat) {
    exists fd :: fd in open && open[fd].inc == inc
  }

  ghost predicate IsClosed(closes: seq<Closing>, inc: nat) {
    exists i :: 0 <= i < |closes| && closes[i].inc == inc
  }

  /** How many of the closes are the listener's; the others are the workers'. */
  function ByTheListener(closes: seq<Closing>): nat {
    if closes == [] then 0 else
      ByTheListener(closes[..|closes| - 1]) + if closes[|closes| - 1].closer.ByListener? then 1 else 0
  }

  ghost predicate Complete(s: State) {
    && (forall inc | 0 <= inc < s.hist.accepted :: IsOpen(s.open, inc) || IsClosed(s.hist.closes, inc))
    && ByTheListener(s.hist.closes) == s.hist.rejected
    && |s.hist.closes| == s.hist.rejected + s.hist.tornDown
    && |s.open| + |s.hist.closes| == s.hist.accepted
  }

  // ---- preservation ---------------------------------------------------------------------------

  lemma Start(n: nat, maxclients: nat, maxevents: nat)
    ensures Complete(Init(n, maxclients, maxevents))
  {
  }

  lemma {:induction false} Push(closes: seq<Closing>, c: Closing)
    ensures ByTheListener(closes + [c]) == ByTheListener(closes) + if c.closer.ByListener? then 1 else 0
  {
    assert (closes + [c])[..|closes|] == closes;
  }

  lemma Shut(open: map<Fd, File>, closes: seq<Closing>, fd: Fd, closer: Closer, inc: nat)
    requires fd in open && (IsOpen(open, inc) || IsClosed(closes, inc))
    ensures IsOpen(open - {fd}, inc) || IsClosed(closes + [Closing(open[fd].inc, closer)], inc)
    ensures |open - {fd}| == |open| - 1
  {
    var closes' := closes + [Closing(open[fd].inc, closer)];
    if IsOpen(open, inc) {
      var x :| x in open && open[x].inc == inc;
      if x == fd {
        assert closes'[|closes|].inc == inc;
      } else {
        assert x in open - {fd} && (open - {fd})[x].inc == inc;
      }
    } else {
      var i :| 0 <= i < |closes| && closes[i].inc == inc;
      assert closes'[i].inc == inc;
    }
    assert (open - {fd}).Keys == open.Keys - {fd};
    assert |(open - {fd}).Keys| == |open.Keys| - 1;
  }

  /** One file is closed, and whoever has closed it is counted. */
  lemma CloseStep(s: State, fd: Fd, closer: Closer, s': State)
    requires Complete(s) && fd in s.open && s'.open == s.open - {fd} && s'.hist.accepted == s.hist.accepted
    requires s'.hist.closes == s.hist.closes + [Closing(s.open[fd].inc, closer)]
    requires s'.hist.rejected == s.hist.rejected + (if closer.ByListener? then 1 else 0)
    requires s'.hist.tornDown == s.hist.tornDown + (if closer.ByListener? then 0 else 1)
    ensures Complete(s')
  {
    Push(s.hist.closes, Closing(s.open[fd].inc, closer));
    Shut(s.open, s.hist.closes, fd, closer, s.open[fd].inc) by {
      assert IsOpen(s.open, s.open[fd].inc);
    }
    forall inc | 0 <= inc < s.hist.accepted ensures IsOpen(s'.open, inc) || IsClosed(s'.hist.closes, inc) {
      Shut(s.open, s.hist.closes, fd, closer, inc);
    }
  }

  lemma AcceptStep(s: State, fd: Fd, level: Mask)
    requires Complete(s) && Enabled(s, Accept(fd, level))
    ensures Complete(Next(s, Accept(fd, level)))
  {
    var s' := Next(s, Accept(fd, level));
    assert s'.open.Keys == s.open.Keys + {fd};
    forall inc | 0 <= inc < s'.hist.accepted ensures IsOpen(s'.open, inc) || IsClosed(s'.hist.closes, inc) {
      if inc == s.hist.accepted {
        assert s'.open[fd].inc == inc;
      } else {
        StillOpen(s.open, s'.open, inc);
      }
    }
  }

  lemma StillOpen(open: map<Fd, File>, open': map<Fd, File>, inc: nat)
    requires forall fd | fd in open :: fd in open' && open'[fd].inc == open[fd].inc
    ensures IsOpen(open, inc) ==> IsOpen(open', inc)
  {
    if IsOpen(open, inc) {
      var x :| x in open && open[x].inc == inc;
      assert open'[x].inc == inc;
    }
  }

  /** Steps that open and close nothing. */
  lemma SameFiles(s: State, s': State)
    requires Complete(s) && s'.open.Keys == s.open.Keys && forall fd | fd in s.open :: s'.open[fd].inc == s.open[fd].inc
    requires s'.hist.closes == s.hist.closes && s'.hist.accepted == s.hist.accepted
    requires s'.hist.rejected == s.hist.rejected && s'.hist.tornDown == s.hist.tornDown
    ensures Complete(s')
  {
    assert |s'.open| == |s'.open.Keys| == |s.open.Keys| == |s.open|;
    forall inc | 0 <= inc < s'.hist.accepted ensures IsOpen(s'.open, inc) || IsClosed(s'.hist.closes, inc) {
      StillOpen(s.open, s'.open, inc);
    }
  }

  lemma AdvanceStep(s: State, w: nat, ok: bool)
    requires WellOwned(s) && Complete(s) && Enabled(s, Advance(w, ok))
    ensures Complete(Next(s, Advance(w, ok)))
  {
    var s', t := Next(s, Advance(w, ok)), s.ws[w];
    MoveIsTurn(s, w, ok);
    if t.pc.CloseFd? {
      CloseForgetsNothing(s, w);
      CloseStep(s, t.cur.fd, ByWorker(w), s');
    } else {
      SameFiles(s, s');
    }
  }

  lemma Step(s: State, a: Action)
    requires WellOwned(s) && Complete(s) && Enabled(s, a)
    ensures Complete(Next(s, a))
  {
    match a
    case Accept(fd, level) => AcceptStep(s, fd, level);
    case Advance(w, ok) => AdvanceStep(s, w, ok);
    case CloseRejected => CloseStep(s, s.lis.fd, ByListener, Next(s, a));
    case _ => SameFiles(s, Next(s, a));
  }
}
