/**
 AssignTask under interference.  The scan reads the counters one at a time while workers
 decrement them; nobody but the listener increments.  So every value read bounds the live
 value from above for the rest of the scan, which is all the admission test and the
 least-loaded choice need.
 */
module Dispatch {
  import opened Server
  import opened Sequences

  /** ceil(m / n): the share of one worker. */
  function Share(m: nat, n: nat): nat
    requires n > 0
  {
    (m + n - 1) / n
  }

  /** The least whole number of connections with which n workers can hold m. */
  lemma ShareIsCeiling(m: nat, n: nat, c: int)
    requires n > 0
    ensures Share(m, n) <= c <==> m <= n * c
  {
    var q := Share(m, n);
    assert m + n - 1 == n * q + (m + n - 1) % n;
    if q <= c {
      assert n * q <= n * c;
    } else {
      assert n * (c + 1) <= n * q;
      assert n * (c + 1) == n * c + n;
    }
  }

  ghost predicate AllAtMost(xs: seq<int>, ys: seq<int>) {
    |xs| <= |ys| && forall j | 0 <= j < |xs| :: xs[j] <= ys[j]
  }

  /** The scan's locals, against the live counters `cs`. */
  ghost predicate ScanOk(l: Listener, cs: seq<int>, m: nat)
    requires l.Scanning?
  {
    && l.i <= |cs| && l.target < |cs| && |l.compared| == l.i
    && AllAtMost(cs, l.start) && |l.start| == |cs| && Sum(l.start) <= m
    && AllAtMost(cs[..l.i], l.compared)
    && (forall j | 0 <= j < l.i :: cs[l.target] <= l.compared[j])
    && (l.summed ==> l.i < |cs| && Sum(l.compared) + cs[l.i] <= l.activeConns - 1 <= Sum(l.start[..l.i + 1]))
    && (!l.summed ==> Sum(l.compared) <= l.activeConns - 1 <= Sum(l.start[..l.i]) && l.left.None? && l.right.None?)
    && (l.left.Some? ==> cs[l.i] <= l.left.value <= l.activeConns - 1 - Sum(l.compared))
    && (l.right.Some? ==> cs[l.target] <= l.right.value && forall j | 0 <= j < l.i :: l.right.value <= l.compared[j])
  }

  /** Room for one more, overall and on the chosen worker. */
  ghost predicate RoomFor(t: nat, cs: seq<int>, m: nat) {
    t < |cs| && Sum(cs) + 1 <= m && cs[t] + 1 <= Share(m, |cs|)
  }

  ghost predicate DispatchOk(l: Listener, cs: seq<int>, m: nat) {
    && |cs| >= 2
    && Sum(cs) <= m
    && (forall j | 0 <= j < |cs| :: cs[j] <= Share(m, |cs|))
    && match l
       case Idle => true
       case Scanning(_, _, _, _, _, _, _, _, _, _) => ScanOk(l, cs, m)
       case Rejecting(_, _, start) => Sum(start) == m
       case Adding(_, _, t) => RoomFor(t, cs, m)
       case Counting(_, _, t) => RoomFor(t, cs, m)
  }

  ghost predicate Dispatched(s: State) {
    DispatchOk(s.lis, Counters(s.ws), s.maxclients)
  }

  // ---- the scan ---------------------------------------------------------------------------------

  /** Decrements anywhere, at any point of AssignTask, do no harm. */
  lemma Lower(l: Listener, cs: seq<int>, cs': seq<int>, m: nat)
    requires DispatchOk(l, cs, m) && |cs'| == |cs| && AllAtMost(cs', cs)
    ensures DispatchOk(l, cs', m)
  {
    SumMonotone(cs', cs);
    if l.Scanning? {
      forall j | 0 <= j < l.i ensures cs'[j] <= l.compared[j] {
        assert cs[..l.i][j] == cs[j];
      }
    }
  }

  /** The racing least-loaded choice, one comparison at a time and for either operand order. */
  lemma CompareKeeps(l: Listener, cs: seq<int>, m: nat)
    requires l.Scanning? && ScanOk(l, cs, m) && l.left.Some? && l.right.Some?
    ensures var l' := l.(target := if l.left.value < l.right.value then l.i else l.target,
                         i := l.i + 1, summed := false, left := None, right := None,
                         compared := l.compared + [l.left.value]);
            ScanOk(l', cs, m)
  {
    SumPush(l.compared, l.left.value);
    StillAtMost(cs, l.compared, l.i, l.left.value);
    StillLeast(cs, l.compared, l.target, l.i, l.left.value, l.right.value);
  }

  lemma StillLeast(cs: seq<int>, compared: seq<int>, target: nat, i: nat, left: int, right: int)
    requires target < |cs| && i < |cs| && |compared| == i
    requires cs[i] <= left && cs[target] <= right && forall j | 0 <= j < i :: right <= compared[j]
    ensures var t := if left < right then i else target;
            forall j | 0 <= j <= i :: cs[t] <= (compared + [left])[j]
  {
  }

  lemma StillAtMost(cs: seq<int>, compared: seq<int>, i: nat, x: int)
    requires i < |cs| && |compared| == i && AllAtMost(cs[..i], compared) && cs[i] <= x
    ensures AllAtMost(cs[..i + 1], compared + [x])
  {
    forall j | 0 <= j < i ensures cs[j] <= compared[j] {
      assert cs[..i][j] == cs[j];
    }
  }

  lemma SumReadKeeps(l: Listener, cs: seq<int>, m: nat)
    requires l.Scanning? && ScanOk(l, cs, m) && !l.summed && l.i < |cs|
    ensures ScanOk(l.(activeConns := l.activeConns + cs[l.i], summed := true), cs, m)
  {
    SumPrefix(l.start, l.i);
  }

  /** At the end of the scan the chosen counter is at most every compared value, hence at most the average. */
  lemma ScanEnd(l: Listener, cs: seq<int>, m: nat)
    requires l.Scanning? && DispatchOk(l, cs, m) && !l.summed && l.i == |cs|
    ensures forall j | 0 <= j < |cs| :: cs[l.target] <= l.compared[j]
    ensures l.activeConns <= m + 1
    ensures l.activeConns > m ==> Sum(l.start) == m
    ensures l.activeConns <= m ==> RoomFor(l.target, cs, m)
  {
    assert l.start[..l.i] == l.start && cs[..l.i] == cs;
    SumMonotone(cs, l.compared);
    SumAtLeast(l.compared, cs[l.target]);
    if l.activeConns <= m {
      ShareBound(cs[l.target], m, |cs|);
    }
  }

  /** The sum variable never drops below its initial value, as the counters are not negative during a scan. */
  lemma SumVariableIsPositive(l: Listener, cs: seq<int>, m: nat)
    requires l.Scanning? && DispatchOk(l, cs, m) && !l.summed && forall j | 0 <= j < |cs| :: 0 <= cs[j]
    ensures 1 <= l.activeConns
  {
    forall j | 0 <= j < l.i ensures 0 <= l.compared[j] {
      assert cs[..l.i][j] == cs[j];
    }
    SumAtLeast(l.compared, 0);
  }

  lemma ShareBound(c: int, m: nat, n: nat)
    requires n > 0 && n * c <= m - 1
    ensures c + 1 <= Share(m, n)
  {
    var q := Share(m, n);
    assert m + n - 1 == n * q + (m + n - 1) % n;
    assert q <= c ==> n * q <= n * c;
  }

  // ---- preservation ---------------------------------------------------------------------------

  lemma Start(n: nat, maxclients: nat, maxevents: nat)
    requires n >= 2
    ensures Dispatched(Init(n, maxclients, maxevents))
  {
    SumOfConstant(Counters(Init(n, maxclients, maxevents).ws), 0);
  }

  /** Only the listener's increment raises a counter, and only iClose lowers one. */
  lemma CountersFall(s: State, a: Action)
    requires Enabled(s, a) && !a.Increment?
    ensures |Next(s, a).ws| == |s.ws| && AllAtMost(Counters(Next(s, a).ws), Counters(s.ws))
  {
    if a.Advance? {
      TurnFalls(s.ws[a.w], s.open, a.ok);
      MoveFalls(s, a.w, a.ok);
    }
  }

  lemma TurnFalls(t: Worker, open: map<Fd, File>, ok: bool)
    requires CanMove(t, open, ok)
    ensures Turn(t, open, ok).counter <= t.counter
  {
  }

  lemma MoveFalls(s: State, w: nat, ok: bool)
    requires Enabled(s, Advance(w, ok))
    ensures |Next(s, Advance(w, ok)).ws| == |s.ws| && AllAtMost(Counters(Next(s, Advance(w, ok)).ws), Counters(s.ws))
  {
    var t := s.ws[w];
    var c := if t.pc.CloseFd? then Close(s, t.cur.fd, ByWorker(w)) else s;
    assert forall j | 0 <= j < |s.ws| :: c.ws[j].counter == s.ws[j].counter;
  }

  lemma OthersStep(s: State, a: Action)
    requires Dispatched(s) && Enabled(s, a) && ThreadOf(a) != ListenerThread
    ensures Dispatched(Next(s, a))
  {
    CountersFall(s, a);
    Lower(s.lis, Counters(s.ws), Counters(Next(s, a).ws), s.maxclients);
  }

  lemma OperandKeeps(l: Listener, cs: seq<int>, m: nat)
    requires l.Scanning? && ScanOk(l, cs, m) && l.summed
    ensures l.left.None? ==> ScanOk(l.(left := Some(cs[l.i])), cs, m)
    ensures l.right.None? ==> ScanOk(l.(right := Some(cs[l.target])), cs, m)
  {
  }

  lemma CountKeeps(l: Listener, cs: seq<int>, m: nat)
    requires l.Counting? && DispatchOk(l, cs, m)
    ensures DispatchOk(Idle, cs[l.target := cs[l.target] + 1], m)
  {
    SumUpdate(cs, l.target, cs[l.target] + 1);
  }

  /** The counters a listener step leaves behind. */
  lemma ListenerCounters(s: State, a: Action)
    requires Enabled(s, a) && ThreadOf(a) == ListenerThread
    ensures var cs := Counters(s.ws);
            Counters(Next(s, a).ws) == if a.Increment? then cs[s.lis.target := cs[s.lis.target] + 1] else cs
  {
  }

  lemma AcceptKeeps(cs: seq<int>, m: nat, fd: Fd, inc: nat)
    requires DispatchOk(Idle, cs, m)
    ensures DispatchOk(Scanning(fd, inc, 0, 1, 1, false, None, None, [], cs), cs, m)
  {
  }

  lemma ScanStep(s: State, a: Action)
    requires Dispatched(s) && Enabled(s, a)
    requires a.ReadSum? || a.ReadLeft? || a.ReadRight? || a.Compare? || a.Decide?
    ensures Dispatched(Next(s, a))
  {
    var l, cs, m := s.lis, Counters(s.ws), s.maxclients;
    assert Next(s, a).ws == s.ws;
    match a
    case ReadSum => SumReadKeeps(l, cs, m);
    case Compare => CompareKeeps(l, cs, m);
    case Decide => ScanEnd(l, cs, m);
    case ReadLeft => OperandKeeps(l, cs, m);
    case ReadRight => OperandKeeps(l, cs, m);
  }

  lemma ListenerStep(s: State, a: Action)
    requires Dispatched(s) && Enabled(s, a) && ThreadOf(a) == ListenerThread
    ensures Dispatched(Next(s, a))
  {
    ListenerCounters(s, a);
    match a
    case Accept(fd, _) => AcceptKeeps(Counters(s.ws), s.maxclients, fd, s.hist.accepted);
    case CloseRejected =>
    case Add(ok) =>
    case Increment => CountKeeps(s.lis, Counters(s.ws), s.maxclients);
    case _ => ScanStep(s, a);
  }

  lemma Step(s: State, a: Action)
    requires Dispatched(s) && Enabled(s, a)
    ensures Dispatched(Next(s, a))
  {
    if ThreadOf(a) == ListenerThread {
      ListenerStep(s, a);
    } else {
      OthersStep(s, a);
    }
  }
}
