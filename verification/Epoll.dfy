/** Interest masks and the handler chain of one event (iEpoll.cpp). */
module Epoll {

  datatype Flag = In | Out | Err | Hup | RdHup | Et

  type Mask = set<Flag>

  /** The I_EPOLL_READ, I_EPOLL_WRITE and I_EPOLL_RW modes. */
  datatype Mode = Read | Write | ReadWrite

  function ModeBits(mode: Mode): Mask {
    match mode
    case Read => {In}
    case Write => {Out}
    case ReadWrite => {In, Out}
  }

  /** The mask i_epoll_add hands to the kernel. */
  function AddMask(mode: Mode, edge: bool): Mask {
    {Err, Hup, RdHup} + (if edge then {Et} else {}) + ModeBits(mode)
  }

  /** The mask i_epoll_change_mode hands to the kernel: RdHup is not asked for again. */
  function ChangeMask(mode: Mode, edge: bool): Mask {
    {Err, Hup} + (if edge then {Et} else {}) + ModeBits(mode)
  }

  /** What is asked for, flag by flag. */
  lemma AskedFor(mode: Mode, edge: bool)
    ensures forall m | m == AddMask(mode, edge) || m == ChangeMask(mode, edge) ::
              && (In in m <==> mode != Write) && (Out in m <==> mode != Read) && (Et in m <==> edge) && {Err, Hup} <= m
    ensures RdHup in AddMask(mode, edge) && RdHup !in ChangeMask(mode, edge)
  {
  }

  /** Armed for exactly one direction. */
  predicate OneWay(m: Mask) {
    (In in m) != (Out in m)
  }

  /** What the kernel can report: poll conditions, never the edge-trigger option. */
  predicate IsLevel(m: Mask) {
    Et !in m
  }

  const Troubles: Mask := {Err, Hup, RdHup}

  // ---- one event of a batch -------------------------------------------------------------------

  /** The value of nRet after the handlers of one event have run; `before` is what earlier events left. */
  function HandlerChain(before: int, flags: Mask, readOk: bool, writeOk: bool): int {
    var n1 := if In in flags then (if readOk then 0 else -1) else before;
    var n2 := if Out in flags then (if writeOk then 0 else -1) else n1;
    if flags * Troubles != {} then -1 else n2
  }

  /** Some handler this event calls fails. */
  predicate SomeHandlerFails(flags: Mask, readOk: bool, writeOk: bool) {
    (In in flags && !readOk) || (Out in flags && !writeOk) || flags * Troubles != {}
  }

  /**
   iClose is decided by nRet < 0.  That agrees with "a handler of this very event failed" except in
   two cases: no handler ran and an earlier event had failed, or a failed read was followed by a
   successful write of the same event.
   */
  lemma CloseDecision(before: int, flags: Mask, readOk: bool, writeOk: bool)
    requires IsLevel(flags)
    ensures (HandlerChain(before, flags, readOk, writeOk) < 0) == SomeHandlerFails(flags, readOk, writeOk)
        <==> !(flags == {} && before < 0) && !({In, Out} <= flags && flags * Troubles == {} && !readOk && writeOk)
  {
    if flags != {} {
      NoIoMeansTrouble(flags);
    }
  }

  /** What is neither readable nor writable was reported for an error or a hang-up. */
  lemma NoIoMeansTrouble(flags: Mask)
    requires flags != {} && IsLevel(flags)
    ensures In in flags || Out in flags || flags * Troubles != {}
  {
    var f :| f in flags;
    if f != In && f != Out {
      assert f == Err || f == Hup || f == RdHup;
      assert f in flags * Troubles;
    }
  }

  /** A mask armed for one direction never reports both. */
  lemma OneWayEvent(level: Mask, mask: Mask)
    requires OneWay(mask) && IsLevel(level)
    ensures IsLevel(level * mask) && !({In, Out} <= level * mask)
  {
    assert In !in level * mask || Out !in level * mask;
  }

  lemma ServerMasksAreOneWay()
    ensures OneWay(AddMask(Write, true)) && OneWay(ChangeMask(Write, true)) && OneWay(ChangeMask(Read, true))
    ensures !OneWay(AddMask(ReadWrite, true))
  {
  }
}
