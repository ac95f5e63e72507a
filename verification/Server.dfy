/**
 The server as an interleaved system: one listener running AssignTask, n workers running
 i_epoll_wait, and the kernel.  A step of the system is an Action; everything an adversary
 may choose (who moves, what the kernel answers) is part of the action, so a run is simply
 a sequence of actions and "for every run" is "for every sequence".

 Fields marked (history) are never read by the server; they make the theorems stateable.
 */
module Server {
  import opened Epoll

  datatype Option<+T> = None | Some(value: T)

  type Fd = nat

  /** An open file: its incarnation (history: the how-many-th accept produced it) and poll conditions. */
  datatype File = File(inc: nat, level: Mask)

  /** An entry of an epoll interest set; like the kernel it remembers the file, not only its number. */
  datatype Registration = Registration(inc: nat, mask: Mask)

  /** One reported event; `inc` is history, the server only sees the number and the flags. */
  datatype Event = Event(fd: Fd, inc: nat, flags: Mask)

  /** Where a worker stands in i_epoll_wait, iRead, iWrite and iClose. */
  datatype Pc = Top | TestIn | ArmWrite | TestOut | ArmRead | TestErr | Unregister | CloseFd | Decrement

  /** (history) How the handling of an event has ended; the mode change may have been tried and failed. */
  datatype Outcome = Closed(ev: Event) | Rearmed(ev: Event) | ChangeFailed(ev: Event) | Neglected(ev: Event)

  datatype Worker = Worker(
    counter: int,                   // m_ActiveConns
    interest: map<Fd, Registration>,
    ready: set<Fd>,                 // the kernel's ready list of this epoll instance
    batch: seq<Event>,              // m_events[i+1..num_fds]
    cur: Event,                     // m_events[i]
    pc: Pc,
    nRet: int,
    failed: bool,                   // (history) some handler of `cur` has failed
    rearmed: bool,                  // (history) `cur` has been through i_epoll_change_mode, successfully or not
    stuck: set<Fd>,                 // (history) the last i_epoll_change_mode on these failed
    polls: nat,                     // (history) how often epoll_wait has returned
    reported: seq<Event>,           // (history) everything it has reported
    done: seq<Outcome>              // (history) what has become of the events dealt with
  )

  /** Where the listener stands in AssignTask. */
  datatype Listener =
    | Idle
    | Scanning(
        fd: Fd, inc: nat,
        i: nat, target: nat, activeConns: int,
        summed: bool, left: Option<int>, right: Option<int>,
        compared: seq<int>,         // (history) the left operand of every finished comparison
        start: seq<int>)            // (history) all counters when the connection was accepted
    | Rejecting(fd: Fd, inc: nat, start: seq<int>)
    | Adding(fd: Fd, inc: nat, target: nat)
    | Counting(fd: Fd, inc: nat, target: nat)

  datatype Closer = ByListener | ByWorker(w: nat)

  datatype Closing = Closing(inc: nat, closer: Closer)

  /** (history) What has happened so far. */
  datatype History = History(
    accepted: nat, rejected: nat, addFailed: nat, tornDown: nat,
    increments: nat, decrements: nat,
    placed: map<nat, nat>,          // incarnation -> the worker it was registered with
    closes: seq<Closing>            // every successful close(), in order
  )

  datatype State = State(
    maxclients: nat,
    maxevents: nat,
    ws: seq<Worker>,
    lis: Listener,
    open: map<Fd, File>,
    hist: History
  )

  datatype Action =
    // the listener
    | Accept(fd: Fd, level: Mask)
    | ReadSum | ReadLeft | ReadRight | Compare | Decide
    | CloseRejected | Add(ok: bool) | Increment
    // worker w
    | Wait(w: nat, fds: seq<Fd>)
    | Advance(w: nat, ok: bool)
    // the kernel and the peers
    | Rise(fd: Fd, flags: Mask)
    | Fall(fd: Fd, flags: Mask)

  datatype Thread = ListenerThread | WorkerThread(w: nat) | Outside

  function ThreadOf(a: Action): Thread {
    match a
    case Wait(w, _) => WorkerThread(w)
    case Advance(w, _) => WorkerThread(w)
    case Rise(_, _) => Outside
    case Fall(_, _) => Outside
    case _ => ListenerThread
  }

  const NoEvent := Event(0, 0, {})

  const FreshWorker := Worker(0, map[], {}, [], NoEvent, Top, -1, false, false, {}, 0, [], [])

  function Init(n: nat, maxclients: nat, maxevents: nat): State {
    State(maxclients, maxevents, seq(n, _ => FreshWorker), Idle, map[],
          History(0, 0, 0, 0, 0, 0, map[], []))
  }

  function Counters(ws: seq<Worker>): (r: seq<int>)
  {
    seq(|ws|, i requires 0 <= i < |ws| => ws[i].counter)
  }

  // ---- kernel operations ------------------------------------------------------------------

  /** epoll_ctl MOD and DEL find the registration of the file that `fd` names right now. */
  predicate Registered(t: Worker, open: map<Fd, File>, fd: Fd) {
    fd in open && fd in t.interest && t.interest[fd].inc == open[fd].inc
  }

  /** Registering or changing a mask queues an event when the file already meets the mask. */
  function Arm(t: Worker, fd: Fd, file: File, mask: Mask): Worker {
    t.(interest := t.interest[fd := Registration(file.inc, mask)],
       ready := if file.level * mask != {} then t.ready + {fd} else t.ready,
       stuck := t.stuck - {fd})
  }

  function Drop(t: Worker, fd: Fd): Worker {
    t.(interest := t.interest - {fd}, ready := t.ready - {fd}, stuck := t.stuck - {fd})
  }

  function Forget(t: Worker, fd: Fd, inc: nat): Worker {
    if fd in t.interest && t.interest[fd].inc == inc then Drop(t, fd) else t
  }

  function ForgetAll(ws: seq<Worker>, fd: Fd, inc: nat): (r: seq<Worker>) {
    seq(|ws|, i requires 0 <= i < |ws| => Forget(ws[i], fd, inc))
  }

  /** close(fd): frees the number, and the kernel drops the file from every interest set. */
  function Close(s: State, fd: Fd, closer: Closer): State {
    if fd !in s.open then s else
      var inc := s.open[fd].inc;
      s.(open := s.open - {fd},
         ws := ForgetAll(s.ws, fd, inc),
         hist := s.hist.(closes := s.hist.closes + [Closing(inc, closer)]))
  }

  /** The events epoll_wait reports for the queued descriptors `fds`, in that order. */
  function Collect(t: Worker, open: map<Fd, File>, fds: seq<Fd>): (r: seq<Event>)
    decreases |fds|
  {
    if fds == [] then [] else
      var fd := fds[0];
      var rest := Collect(t, open, fds[1..]);
      if fd in open && fd in t.interest && open[fd].level * t.interest[fd].mask != {} then
        [Event(fd, t.interest[fd].inc, open[fd].level * t.interest[fd].mask)] + rest
      else
        rest
  }

  /** epoll_wait returns these reports; the descriptors reported leave the ready list. */
  function Fetch(t: Worker, batch: seq<Event>, taken: set<Fd>): Worker {
    t.(batch := batch, ready := t.ready - taken, polls := t.polls + 1, reported := t.reported + batch)
  }

  predicate Distinct<T(==)>(s: seq<T>) {
    forall i, j | 0 <= i < j < |s| :: s[i] != s[j]
  }

  function Wake(t: Worker, fd: Fd, inc: nat, flags: Mask): Worker {
    if fd in t.interest && t.interest[fd].inc == inc && flags * t.interest[fd].mask != {} then
      t.(ready := t.ready + {fd})
    else
      t
  }

  function WakeAll(ws: seq<Worker>, fd: Fd, inc: nat, flags: Mask): (r: seq<Worker>) {
    seq(|ws|, i requires 0 <= i < |ws| => Wake(ws[i], fd, inc, flags))
  }

  // ---- steps ----------------------------------------------------------------------------------

  predicate Enabled(s: State, a: Action) {
    match a
    case Accept(fd, level) => s.lis.Idle? && fd !in s.open && IsLevel(level)
    case ReadSum => s.lis.Scanning? && !s.lis.summed && s.lis.i < |s.ws|
    case ReadLeft => s.lis.Scanning? && s.lis.summed && s.lis.left.None? && s.lis.i < |s.ws|
    case ReadRight => s.lis.Scanning? && s.lis.summed && s.lis.right.None? && s.lis.target < |s.ws|
    case Compare => s.lis.Scanning? && s.lis.left.Some? && s.lis.right.Some?
    case Decide => s.lis.Scanning? && !s.lis.summed && s.lis.i == |s.ws|
    case CloseRejected => s.lis.Rejecting?
    case Add(ok) =>
      && s.lis.Adding? && s.lis.target < |s.ws|
      && (ok ==> s.lis.fd in s.open && !Registered(s.ws[s.lis.target], s.open, s.lis.fd))
    case Increment => s.lis.Counting? && s.lis.target < |s.ws|
    case Wait(w, fds) =>
      && w < |s.ws| && s.ws[w].pc.Top? && s.ws[w].batch == []
      && Distinct(fds) && |fds| <= s.maxevents && (forall fd | fd in fds :: fd in s.ws[w].ready)
    case Advance(w, ok) =>
      w < |s.ws| && CanMove(s.ws[w], s.open, ok)
    case Rise(fd, flags) => fd in s.open && IsLevel(flags)
    case Fall(fd, flags) => fd in s.open
  }

  function Next(s: State, a: Action): State
    requires Enabled(s, a)
  {
    var h := s.hist;
    match a
    case Accept(fd, level) =>
      s.(open := s.open[fd := File(h.accepted, level)],
         lis := Scanning(fd, h.accepted, 0, 1, 1, false, None, None, [], Counters(s.ws)),
         hist := h.(accepted := h.accepted + 1))
    case ReadSum =>
      s.(lis := s.lis.(activeConns := s.lis.activeConns + s.ws[s.lis.i].counter, summed := true))
    case ReadLeft =>
      s.(lis := s.lis.(left := Some(s.ws[s.lis.i].counter)))
    case ReadRight =>
      s.(lis := s.lis.(right := Some(s.ws[s.lis.target].counter)))
    case Compare =>
      s.(lis := s.lis.(target := if s.lis.left.value < s.lis.right.value then s.lis.i else s.lis.target,
                       i := s.lis.i + 1, summed := false, left := None, right := None,
                       compared := s.lis.compared + [s.lis.left.value]))
    case Decide =>
      s.(lis := if s.lis.activeConns > s.maxclients then Rejecting(s.lis.fd, s.lis.inc, s.lis.start)
                else Adding(s.lis.fd, s.lis.inc, s.lis.target))
    case CloseRejected =>
      var s' := Close(s, s.lis.fd, ByListener);
      s'.(lis := Idle, hist := s'.hist.(rejected := h.rejected + 1))
    case Add(ok) =>
      if ok then
        var t := s.lis.target;
        s.(ws := s.ws[t := Arm(s.ws[t], s.lis.fd, s.open[s.lis.fd], AddMask(Write, true))],
           lis := Counting(s.lis.fd, s.lis.inc, t),
           hist := h.(placed := h.placed[s.open[s.lis.fd].inc := t]))
      else
        s.(lis := Idle, hist := h.(addFailed := h.addFailed + 1))
    case Increment =>
      var t := s.ws[s.lis.target];
      s.(ws := s.ws[s.lis.target := t.(counter := t.counter + 1)], lis := Idle,
         hist := h.(increments := h.increments + 1))
    case Wait(w, fds) =>
      var t := s.ws[w];
      s.(ws := s.ws[w := Fetch(t, Collect(t, s.open, fds), set fd | fd in fds)])
    case Advance(w, ok) => Move(s, w, ok)
    case Rise(fd, flags) =>
      var file := s.open[fd];
      s.(open := s.open[fd := file.(level := file.level + flags)],
         ws := WakeAll(s.ws, fd, file.inc, flags))
    case Fall(fd, flags) =>
      var file := s.open[fd];
      s.(open := s.open[fd := file.(level := file.level - flags)])
  }

  predicate CanMove(t: Worker, open: map<Fd, File>, ok: bool) {
    && (t.pc.Top? ==> t.batch != [])
    && ((t.pc.ArmWrite? || t.pc.ArmRead?) && ok ==> Registered(t, open, t.cur.fd))
  }

  /** i_epoll_change_mode: its result is ignored, the handler returns 0 either way. */
  function Rearm(t: Worker, open: map<Fd, File>, mode: Mode, ok: bool): Worker
    requires ok ==> Registered(t, open, t.cur.fd)
  {
    var fd := t.cur.fd;
    var t' := if ok then Arm(t, fd, open[fd], ChangeMask(mode, true)) else t.(stuck := t.stuck + {fd});
    t'.(rearmed := true, nRet := 0)
  }

  /** The outcome of an event after which the connection stays open. */
  function OutcomeOf(t: Worker): Outcome {
    if !t.rearmed then Neglected(t.cur)
    else if t.cur.fd in t.stuck then ChangeFailed(t.cur)
    else Rearmed(t.cur)
  }

  /** A move that changes nothing but the moving worker: every move except close(). */
  function Turn(t: Worker, open: map<Fd, File>, ok: bool): Worker
    requires CanMove(t, open, ok)
  {
    match t.pc
    case Top =>
      t.(cur := t.batch[0], batch := t.batch[1..], pc := TestIn, failed := false, rearmed := false)
    case TestIn =>
      if In !in t.cur.flags then t.(pc := TestOut)
      else if ok then t.(pc := ArmWrite)
      else t.(pc := TestOut, nRet := -1, failed := true)
    case ArmWrite =>
      Rearm(t, open, Write, ok).(pc := TestOut)
    case TestOut =>
      if Out !in t.cur.flags then t.(pc := TestErr)
      else if ok then t.(pc := ArmRead)
      else t.(pc := TestErr, nRet := -1, failed := true)
    case ArmRead =>
      Rearm(t, open, Read, ok).(pc := TestErr)
    case TestErr =>
      var trouble := t.cur.flags * Troubles != {};
      var nRet := if trouble then -1 else t.nRet;
      var t' := t.(nRet := nRet, failed := t.failed || trouble);
      if nRet < 0 then t'.(pc := Unregister)
      else t'.(pc := Top, done := t.done + [OutcomeOf(t)])
    case Unregister =>
      (if Registered(t, open, t.cur.fd) then Drop(t, t.cur.fd) else t).(pc := CloseFd)
    case CloseFd =>
      t.(pc := Decrement)
    case Decrement =>
      t.(counter := t.counter - 1, pc := Top, done := t.done + [Closed(t.cur)])
  }

  /** One move of worker w; `ok` is the outcome of recvn, sendn or i_epoll_change_mode where one is due. */
  function Move(s: State, w: nat, ok: bool): State
    requires Enabled(s, Advance(w, ok))
  {
    var t := s.ws[w];
    var c := if t.pc.CloseFd? then Close(s, t.cur.fd, ByWorker(w)) else s;
    c.(ws := c.ws[w := Turn(c.ws[w], c.open, ok)],
       hist := c.hist.(tornDown := c.hist.tornDown + if t.pc.CloseFd? then 1 else 0,
                       decrements := c.hist.decrements + if t.pc.Decrement? then 1 else 0))
  }

  // ---- runs -----------------------------------------------------------------------------------

  /** `acts` is a run from s: every action is enabled when its turn comes. */
  predicate IsRun(s: State, acts: seq<Action>)
    decreases |acts|
  {
    acts == [] || (Enabled(s, acts[0]) && IsRun(Next(s, acts[0]), acts[1..]))
  }

  function Run(s: State, acts: seq<Action>): State
    requires IsRun(s, acts)
    decreases |acts|
  {
    if acts == [] then s else Run(Next(s, acts[0]), acts[1..])
  }

  lemma {:induction false} RunAppend(s: State, acts: seq<Action>, more: seq<Action>)
    requires IsRun(s, acts) && IsRun(Run(s, acts), more)
    ensures IsRun(s, acts + more) && Run(s, acts + more) == Run(Run(s, acts), more)
    decreases |acts|
  {
    if acts == [] {
      assert acts + more == more;
    } else {
      assert (acts + more)[1..] == acts[1..] + more;
      RunAppend(Next(s, acts[0]), acts[1..], more);
    }
  }

  lemma RunPush(s: State, acts: seq<Action>, a: Action)
    requires IsRun(s, acts) && Enabled(Run(s, acts), a)
    ensures IsRun(s, acts + [a]) && Run(s, acts + [a]) == Next(Run(s, acts), a)
  {
    assert Run(Run(s, acts), [a]) == Next(Run(s, acts), a);
    RunAppend(s, acts, [a]);
  }

  lemma {:induction false} FixedParameters(s: State, acts: seq<Action>)
    requires IsRun(s, acts)
    ensures var s' := Run(s, acts); |s'.ws| == |s.ws| && s'.maxclients == s.maxclients && s'.maxevents == s.maxevents
    decreases |acts|
  {
    if acts != [] {
      FixedParameters(Next(s, acts[0]), acts[1..]);
    }
  }
}
