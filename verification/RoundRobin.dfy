/**
 Least-loaded becomes round robin when nobody leaves.  `target` starts at worker 1 and is only
 replaced by a strictly smaller counter, so the order of service is 1, 0, 2, 3, ..., n-1.
 The result is about runs of the interleaved system: workers keep handling events all along.
 */
module RoundRobin {
  import opened Server
  import opened Sequences

  /** Exchanges 0 and 1: the k-th place of the order of service, and the place of worker k. */
  function Swap(j: nat): nat {
    if j == 0 then 1 else if j == 1 then 0 else j
  }

  /** Who gets the k-th admission. */
  function Order(n: nat, k: nat): (w: nat)
    requires n >= 2
    ensures w < n
  {
    Swap(k % n)
  }

  /** The counters after `a` admissions. */
  function Loads(n: nat, a: nat): (r: seq<int>)
    requires n >= 2
    ensures |r| == n
  {
    seq(n, j requires 0 <= j < n => a / n + if Swap(j) < a % n then 1 else 0)
  }

  /** The scan of AssignTask over counters that stand still, after i comparisons. */
  function PickUpTo(cs: seq<int>, i: nat): (t: nat)
    requires |cs| >= 2 && i <= |cs|
    ensures t < |cs|
  {
    if i == 0 then 1 else
      var t := PickUpTo(cs, i - 1);
      if cs[i - 1] < cs[t] then i - 1 else t
  }

  // ---- arithmetic of the loads ----------------------------------------------------------------

  lemma DivStep(a: nat, n: nat)
    requires n >= 2
    ensures a % n < n - 1 ==> (a + 1) / n == a / n && (a + 1) % n == a % n + 1
    ensures a % n == n - 1 ==> (a + 1) / n == a / n + 1 && (a + 1) % n == 0
  {
    var q, r := a / n, a % n;
    assert a == n * q + r;
    if r < n - 1 {
      DivUnique(a + 1, n, q, r + 1);
    } else {
      assert a + 1 == n * (q + 1) + 0;
      DivUnique(a + 1, n, q + 1, 0);
    }
  }

  lemma DivUnique(a: nat, n: nat, q: nat, r: nat)
    requires n > 0 && r < n && a == n * q + r
    ensures a / n == q && a % n == r
  {
    var q', r' := a / n, a % n;
    assert a == n * q' + r';
    assert n * (q - q') == r' - r;
    assert q - q' >= 1 ==> n * (q - q') >= n;
    assert q - q' <= -1 ==> n * (q - q') + n <= 0;
  }

  lemma LoadsStep(n: nat, a: nat)
    requires n >= 2
    ensures Loads(n, a + 1) == Loads(n, a)[Order(n, a) := Loads(n, a)[Order(n, a)] + 1]
  {
    DivStep(a, n);
  }

  lemma NoLoad(n: nat)
    requires n >= 2
    ensures Sum(Loads(n, 0)) == 0
  {
    SumOfConstant(Loads(n, 0), 0);
  }

  lemma {:induction false} SumOfLoads(n: nat, a: nat)
    requires n >= 2
    ensures Sum(Loads(n, a)) == a
  {
    if a == 0 {
      NoLoad(n);
    } else {
      SumOfLoads(n, a - 1);
      LoadsStep(n, a - 1);
      SumUpdate(Loads(n, a - 1), Order(n, a - 1), Loads(n, a - 1)[Order(n, a - 1)] + 1);
    }
  }

  lemma {:induction false} PickOnLoads(n: nat, a: nat, i: nat)
    requires n >= 2 && i <= n
    ensures PickUpTo(Loads(n, a), i) == if i <= Order(n, a) then 1 else Order(n, a)
  {
    if i > 0 {
      PickOnLoads(n, a, i - 1);
    }
  }

  // ---- the scan is deterministic while no counter changes --------------------------------------

  ghost predicate ScanSettled(l: Listener, cs: seq<int>)
  {
    l.Scanning? && |cs| >= 2 && l.start == cs ==>
      && l.i <= |cs| && l.target == PickUpTo(cs, l.i)
      && (l.summed ==> l.i < |cs| && l.activeConns == 1 + Sum(cs[..l.i + 1]))
      && (!l.summed ==> l.activeConns == 1 + Sum(cs[..l.i]) && l.left.None? && l.right.None?)
      && (l.left.Some? ==> l.left.value == cs[l.i])
      && (l.right.Some? ==> l.right.value == cs[l.target])
  }

  // ---- runs in which nobody leaves ------------------------------------------------------------

  /** Neither tears a connection down nor fails to register one. */
  predicate Stays(s: State, a: Action) {
    !(a.Advance? && a.w < |s.ws| && s.ws[a.w].pc.Unregister?) && a != Add(false)
  }

  ghost predicate StayingRun(s: State, acts: seq<Action>)
    requires IsRun(s, acts)
    decreases |acts|
  {
    acts != [] ==> Stays(s, acts[0]) && StayingRun(Next(s, acts[0]), acts[1..])
  }

  /** Connections admitted so far. */
  function Admitted(s: State): int {
    s.hist.accepted - s.hist.rejected - if s.lis.Idle? || s.lis.Counting? then 0 else 1
  }

  ghost predicate RoundRobin(s: State) {
    var n, m, a := |s.ws|, s.maxclients, Admitted(s);
    && n >= 2 && 0 <= a <= m
    && (s.hist.rejected > 0 ==> a == m)
    && (forall k :: k in s.hist.placed <==> 0 <= k < a)
    && (forall k | k in s.hist.placed :: s.hist.placed[k] == Order(n, k))
    && (forall w | 0 <= w < n :: !s.ws[w].pc.CloseFd? && !s.ws[w].pc.Decrement?)
    && (forall fd | fd in s.open :: s.open[fd].inc < s.hist.accepted)
    && match s.lis
       case Idle => Counters(s.ws) == Loads(n, a)
       case Scanning(fd, inc, _, _, _, _, _, _, _, start) =>
         Held(s, fd, inc) && Counters(s.ws) == Loads(n, a) == start && ScanSettled(s.lis, Counters(s.ws))
       case Rejecting(fd, inc, _) => Held(s, fd, inc) && Counters(s.ws) == Loads(n, a) && a == m
       case Adding(fd, inc, t) => Held(s, fd, inc) && Counters(s.ws) == Loads(n, a) && t == Order(n, a) && a < m
       case Counting(_, inc, t) => a > 0 && Counters(s.ws) == Loads(n, a - 1) && t == Order(n, a - 1)
  }

  predicate Held(s: State, fd: Fd, inc: nat) {
    inc == s.hist.accepted - 1 && fd in s.open && s.open[fd].inc == inc
  }

  lemma Start(n: nat, maxclients: nat, maxevents: nat)
    requires n >= 2
    ensures RoundRobin(Init(n, maxclients, maxevents))
  {
  }

  /** Only the scan's own variables have moved. */
  lemma ScanMoved(s: State, l: Listener)
    requires RoundRobin(s) && s.lis.Scanning? && l.Scanning? && ScanSettled(l, Counters(s.ws))
    requires l.fd == s.lis.fd && l.inc == s.lis.inc && l.start == s.lis.start
    ensures RoundRobin(s.(lis := l))
  {
  }

  lemma SumReadSettled(l: Listener, cs: seq<int>)
    requires l.Scanning? && l.start == cs && |cs| >= 2 && ScanSettled(l, cs) && !l.summed && l.i < |cs|
    ensures ScanSettled(l.(activeConns := l.activeConns + cs[l.i], summed := true), cs)
  {
    SumPrefix(cs, l.i);
  }

  lemma CompareSettled(l: Listener, cs: seq<int>)
    requires l.Scanning? && l.start == cs && |cs| >= 2 && ScanSettled(l, cs) && l.left.Some? && l.right.Some?
    ensures ScanSettled(l.(target := if l.left.value < l.right.value then l.i else l.target,
                           i := l.i + 1, summed := false, left := None, right := None,
                           compared := l.compared + [l.left.value]), cs)
  {
  }

  lemma OperandSettled(l: Listener, cs: seq<int>)
    requires l.Scanning? && l.start == cs && |cs| >= 2 && ScanSettled(l, cs) && l.summed
    ensures ScanSettled(l.(left := Some(cs[l.i])), cs) && ScanSettled(l.(right := Some(cs[l.target])), cs)
  {
  }

  lemma ScanStep(s: State, a: Action)
    requires RoundRobin(s) && Enabled(s, a) && (a.ReadSum? || a.ReadLeft? || a.ReadRight? || a.Compare?)
    ensures RoundRobin(Next(s, a))
  {
    var l, cs := s.lis, Counters(s.ws);
    if a.ReadSum? {
      SumReadSettled(l, cs);
      ScanMoved(s, l.(activeConns := l.activeConns + cs[l.i], summed := true));
    } else if a.Compare? {
      CompareSettled(l, cs);
      ScanMoved(s, Next(s, a).lis);
    } else {
      OperandSettled(l, cs);
      ScanMoved(s, Next(s, a).lis);
    }
  }

  lemma DecideStep(s: State)
    requires RoundRobin(s) && Enabled(s, Decide)
    ensures RoundRobin(Next(s, Decide))
  {
    var cs := Counters(s.ws);
    assert cs[..s.lis.i] == cs;
    SumOfLoads(|s.ws|, Admitted(s));
    PickOnLoads(|s.ws|, Admitted(s), |s.ws|);
  }

  lemma AddStep(s: State)
    requires RoundRobin(s) && Enabled(s, Add(true)) && s.hist.rejected == 0
    ensures RoundRobin(Next(s, Add(true)))
  {
    assert Counters(Next(s, Add(true)).ws) == Counters(s.ws);
  }

  lemma IncrementStep(s: State)
    requires RoundRobin(s) && Enabled(s, Increment)
    ensures RoundRobin(Next(s, Increment))
  {
    var t, a := s.lis.target, Admitted(s);
    LoadsStep(|s.ws|, a - 1);
    assert Counters(Next(s, Increment).ws) == Counters(s.ws)[t := Counters(s.ws)[t] + 1];
  }

  /** Only the counters, the placement and the listener's choice matter. */
  lemma Unaffected(s: State, s': State)
    requires RoundRobin(s) && s'.lis == s.lis && s'.hist == s.hist && s'.maxclients == s.maxclients
    requires |s'.ws| == |s.ws| && Counters(s'.ws) == Counters(s.ws)
    requires forall w | 0 <= w < |s'.ws| :: !s'.ws[w].pc.CloseFd? && !s'.ws[w].pc.Decrement?
    requires s'.open.Keys == s.open.Keys && forall fd | fd in s.open :: s'.open[fd].inc == s.open[fd].inc
    ensures RoundRobin(s')
  {
  }

  lemma AdvanceStep(s: State, w: nat, ok: bool)
    requires RoundRobin(s) && Enabled(s, Advance(w, ok)) && Stays(s, Advance(w, ok))
    ensures RoundRobin(Next(s, Advance(w, ok)))
  {
    var t := Turn(s.ws[w], s.open, ok);
    assert t.counter == s.ws[w].counter && !t.pc.CloseFd? && !t.pc.Decrement?;
    Unaffected(s, s.(ws := s.ws[w := t]));
  }

  lemma OtherStep(s: State, a: Action)
    requires RoundRobin(s) && Enabled(s, a) && (a.Wait? || a.Rise? || a.Fall?)
    ensures RoundRobin(Next(s, a))
  {
    Unaffected(s, Next(s, a));
  }

  lemma AcceptStep(s: State, a: Action)
    requires RoundRobin(s) && Enabled(s, a) && (a.Accept? || a.CloseRejected?)
    ensures RoundRobin(Next(s, a))
  {
    assert Counters(Next(s, a).ws) == Counters(s.ws);
  }

  lemma Step(s: State, a: Action)
    requires RoundRobin(s) && Enabled(s, a) && Stays(s, a)
    ensures RoundRobin(Next(s, a))
  {
    match a
    case Accept(_, _) => AcceptStep(s, a);
    case CloseRejected => AcceptStep(s, a);
    case Decide => DecideStep(s);
    case Add(_) => AddStep(s);
    case Increment => IncrementStep(s);
    case ReadSum => ScanStep(s, a);
    case ReadLeft => ScanStep(s, a);
    case ReadRight => ScanStep(s, a);
    case Compare => ScanStep(s, a);
    case Advance(w, ok) => AdvanceStep(s, w, ok);
    case _ => OtherStep(s, a);
  }

  lemma {:induction false} Runs(s: State, acts: seq<Action>)
    requires RoundRobin(s) && IsRun(s, acts) && StayingRun(s, acts)
    ensures RoundRobin(Run(s, acts))
    decreases |acts|
  {
    if acts != [] {
      Step(s, acts[0]);
      Runs(Next(s, acts[0]), acts[1..]);
    }
  }

  /**
   From the start, in every run in which nobody leaves: the k-th connection goes to worker
   1, 0, 2, 3, ..., n-1 in turn while k is below maxclients and is rejected from then on, and
   the counters never differ by more than one.
   */
  lemma RoundRobinService(n: nat, maxclients: nat, maxevents: nat, acts: seq<Action>)
    requires n >= 2 && IsRun(Init(n, maxclients, maxevents), acts)
    requires StayingRun(Init(n, maxclients, maxevents), acts)
    ensures var s := Run(Init(n, maxclients, maxevents), acts);
            && |s.ws| == n
            && (forall k | k in s.hist.placed :: k < maxclients && s.hist.placed[k] == Order(n, k))
            && (s.lis.Idle? ==> forall k | 0 <= k < s.hist.accepted && k < maxclients :: k in s.hist.placed)
            && (s.lis.Idle? ==> s.hist.rejected == if s.hist.accepted > maxclients then s.hist.accepted - maxclients else 0)
            && (forall i, j | 0 <= i < n && 0 <= j < n :: s.ws[i].counter <= s.ws[j].counter + 1)
  {
    var s0 := Init(n, maxclients, maxevents);
    Start(n, maxclients, maxevents);
    Runs(s0, acts);
    FixedParameters(s0, acts);
    var s := Run(s0, acts);
    forall i, j | 0 <= i < n && 0 <= j < n
      ensures s.ws[i].counter <= s.ws[j].counter + 1
    {
      assert s.ws[i].counter == Counters(s.ws)[i] && s.ws[j].counter == Counters(s.ws)[j];
    }
  }
}
