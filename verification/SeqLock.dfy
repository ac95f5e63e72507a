/**
 The begin/end sequence lock of iAtomic.h (snd_atomic_*): one writer changes a record word by word
 between write_begin and write_end, readers copy words between read_begin and read_ok.  Memory is
 sequentially consistent; begin and end are 32-bit and wrap.
 */
module SeqLock {

  const WRAP: int := 0x1_0000_0000

  /** A word a reader has copied. */
  datatype Copy = Copy(word: nat, value: int)

  /** `end` is what read_begin noted; `since` is history: how many writes were complete then. */
  datatype Reader = Reader(active: bool, end: int, since: nat, copies: seq<Copy>)

  /** `begun` and `versions` are history: writes begun, and the record after each complete write. */
  datatype Lock = Lock(
    begin: int, end: int, data: seq<int>, writing: bool, readers: seq<Reader>,
    begun: nat, versions: seq<seq<int>>)

  datatype Action =
    | WriteBegin
    | WriteWord(word: nat, value: int)
    | WriteEnd
    | ReadBegin(r: nat)
    | ReadWord(r: nat, word: nat)

  predicate Enabled(s: Lock, a: Action) {
    match a
    case WriteBegin => !s.writing
    case WriteWord(i, _) => s.writing && i < |s.data|
    case WriteEnd => s.writing
    case ReadBegin(r) => r < |s.readers|
    case ReadWord(r, i) => r < |s.readers| && s.readers[r].active && i < |s.data|
  }

  function Next(s: Lock, a: Action): Lock
    requires Enabled(s, a)
  {
    match a
    case WriteBegin => s.(begin := (s.begin + 1) % WRAP, writing := true, begun := s.begun + 1)
    case WriteWord(i, v) => s.(data := s.data[i := v])
    case WriteEnd => s.(end := (s.end + 1) % WRAP, writing := false, versions := s.versions + [s.data])
    case ReadBegin(r) => s.(readers := s.readers[r := Reader(true, s.end, if s.versions == [] then 0 else |s.versions| - 1, [])])
    case ReadWord(r, i) =>
      var reader := s.readers[r];
      s.(readers := s.readers[r := reader.(copies := reader.copies + [Copy(i, s.data[i])])])
  }

  /** snd_atomic_read_ok */
  predicate ReadOk(s: Lock, r: nat)
    requires r < |s.readers|
  {
    s.readers[r].end == s.begin
  }

  predicate IsRun(s: Lock, acts: seq<Action>)
    decreases |acts|
  {
    acts == [] || (Enabled(s, acts[0]) && IsRun(Next(s, acts[0]), acts[1..]))
  }

  function Run(s: Lock, acts: seq<Action>): Lock
    requires IsRun(s, acts)
    decreases |acts|
  {
    if acts == [] then s else Run(Next(s, acts[0]), acts[1..])
  }

  /** snd_atomic_write_init over a record, with any number of readers. */
  function Start(data: seq<int>, readers: nat): Lock {
    Lock(0, 0, data, false, seq(readers, _ => Reader(false, 0, 0, [])), 0, [data])
  }

  function Completed(s: Lock): int {
    |s.versions| - 1
  }

  ghost predicate ReaderOk(s: Lock, x: Reader)
    requires |s.versions| > 0
  {
    x.active ==>
      && x.since <= Completed(s)
      && x.end == x.since % WRAP
      && (forall c | c in x.copies :: c.word < |s.data|)
      && (s.begun == x.since ==> CopiesOf(x.copies, s.versions[x.since]))
  }

  ghost predicate CopiesOf(copies: seq<Copy>, record: seq<int>) {
    forall c | c in copies :: c.word < |record| && record[c.word] == c.value
  }

  ghost predicate Consistent(s: Lock) {
    && |s.versions| > 0
    && (forall v | v in s.versions :: |v| == |s.data|)
    && s.begin == s.begun % WRAP
    && s.end == Completed(s) % WRAP
    && s.begun == Completed(s) + (if s.writing then 1 else 0)
    && (!s.writing ==> s.data == s.versions[Completed(s)])
    && (forall r | 0 <= r < |s.readers| :: ReaderOk(s, s.readers[r]))
  }

  lemma CountUp(n: nat)
    ensures (n % WRAP + 1) % WRAP == (n + 1) % WRAP
  {
  }

  lemma Step(s: Lock, a: Action)
    requires Consistent(s) && Enabled(s, a)
    ensures Consistent(Next(s, a))
  {
    var s' := Next(s, a);
    CountUp(s.begun);
    CountUp(Completed(s));
    forall r | 0 <= r < |s'.readers| ensures ReaderOk(s', s'.readers[r]) {
      assert ReaderOk(s, s.readers[r]);
    }
  }

  lemma {:induction false} RunConsistent(s: Lock, acts: seq<Action>)
    requires Consistent(s) && IsRun(s, acts)
    ensures Consistent(Run(s, acts))
    decreases |acts|
  {
    if acts != [] {
      Step(s, acts[0]);
      RunConsistent(Next(s, acts[0]), acts[1..]);
    }
  }

  lemma SameResidue(b: nat, e: nat)
    requires e <= b
    ensures e % WRAP == b % WRAP <==> (b - e) % WRAP == 0
  {
    var q, p := b / WRAP, e / WRAP;
    assert b == q * WRAP + b % WRAP && e == p * WRAP + e % WRAP;
    assert b - e == (q - p) * WRAP + (b % WRAP - e % WRAP);
  }

  /** read_ok, in terms of the writes complete when read_begin noted `end`. */
  lemma AcceptsSince(data: seq<int>, readers: nat, acts: seq<Action>, r: nat)
    requires IsRun(Start(data, readers), acts)
    requires var s := Run(Start(data, readers), acts); r < |s.readers| && s.readers[r].active
    ensures var s := Run(Start(data, readers), acts);
            && s.readers[r].since <= s.begun
            && (ReadOk(s, r) <==> (s.begun - s.readers[r].since) % WRAP == 0)
  {
    RunConsistent(Start(data, readers), acts);
    var s := Run(Start(data, readers), acts);
    assert ReaderOk(s, s.readers[r]);
    SameResidue(s.begun, s.readers[r].since);
  }

  // ---- what an accepted read means, in terms of what writer and readers have done ----------------

  function Begins(acts: seq<Action>): nat {
    if acts == [] then 0 else Begins(acts[1..]) + if acts[0] == WriteBegin then 1 else 0
  }

  function Ends(acts: seq<Action>): nat {
    if acts == [] then 0 else Ends(acts[1..]) + if acts[0] == WriteEnd then 1 else 0
  }

  lemma {:induction false} RunAppend(s: Lock, acts: seq<Action>, more: seq<Action>)
    requires IsRun(s, acts) && IsRun(Run(s, acts), more)
    ensures IsRun(s, acts + more) && Run(s, acts + more) == Run(Run(s, acts), more)
    decreases |acts|
  {
    if acts == [] {
      assert acts + more == more;
    } else {
      assert (acts + more)[1..] == acts[1..] + more;
      RunAppend(Next(s, acts[0]), acts[1..], more);
    }
  }

  /** The counters count the writes begun and ended. */
  lemma {:induction false} RunCounts(s: Lock, acts: seq<Action>)
    requires Consistent(s) && IsRun(s, acts)
    ensures var s' := Run(s, acts);
            && Consistent(s') && s'.begun == s.begun + Begins(acts) && Completed(s') == Completed(s) + Ends(acts)
            && |s'.readers| == |s.readers| && |s'.data| == |s.data|
    decreases |acts|
  {
    if acts != [] {
      Step(s, acts[0]);
      RunCounts(Next(s, acts[0]), acts[1..]);
    }
  }

  /** What read_begin has noted stays until the next one. */
  lemma {:induction false} RunNoted(s: Lock, acts: seq<Action>, r: nat)
    requires IsRun(s, acts) && ReadBegin(r) !in acts && r < |s.readers|
    ensures r < |Run(s, acts).readers| && Run(s, acts).readers[r].end == s.readers[r].end
    decreases |acts|
  {
    if acts != [] {
      assert acts[0] != ReadBegin(r);
      RunNoted(Next(s, acts[0]), acts[1..], r);
    }
  }

  /** Reader r has begun after `pre` and has not begun again in `mid`. */
  ghost predicate Reads(s0: Lock, pre: seq<Action>, r: nat, mid: seq<Action>) {
    IsRun(s0, pre) && r < |Run(s0, pre).readers| && ReadBegin(r) !in mid && IsRun(Next(Run(s0, pre), ReadBegin(r)), mid)
  }

  function After(s0: Lock, pre: seq<Action>, r: nat, mid: seq<Action>): Lock
    requires Reads(s0, pre, r, mid)
  {
    Run(Next(Run(s0, pre), ReadBegin(r)), mid)
  }

  /** Writes under way at read_begin or begun since. */
  function Overlapping(pre: seq<Action>, mid: seq<Action>): int {
    Begins(pre) - Ends(pre) + Begins(mid)
  }

  /** read_ok accepts exactly if the number of writes under way at read_begin or begun since is a multiple of 2^32. */
  lemma AcceptsExactly(data: seq<int>, readers: nat, pre: seq<Action>, r: nat, mid: seq<Action>)
    requires Reads(Start(data, readers), pre, r, mid)
    ensures var s := After(Start(data, readers), pre, r, mid);
            r < |s.readers| && (ReadOk(s, r) <==> Overlapping(pre, mid) % WRAP == 0)
    ensures 0 <= Begins(pre) - Ends(pre) <= 1
  {
    var s0 := Start(data, readers);
    var s1 := Run(s0, pre);
    RunCounts(s0, pre);
    Step(s1, ReadBegin(r));
    RunCounts(Next(s1, ReadBegin(r)), mid);
    RunNoted(Next(s1, ReadBegin(r)), mid, r);
    SameResidue(Begins(pre) + Begins(mid), Ends(pre));
  }

  /** A read that no write overlaps is accepted. */
  lemma GoodReadIsAccepted(data: seq<int>, readers: nat, pre: seq<Action>, r: nat, mid: seq<Action>)
    requires Reads(Start(data, readers), pre, r, mid)
    requires Begins(pre) == Ends(pre) && WriteBegin !in mid
    ensures var s := After(Start(data, readers), pre, r, mid); r < |s.readers| && ReadOk(s, r)
  {
    AcceptsExactly(data, readers, pre, r, mid);
    NoBegins(mid);
  }

  lemma {:induction false} NoBegins(acts: seq<Action>)
    ensures Begins(acts) == 0 <==> WriteBegin !in acts
  {
    if acts != [] {
      NoBegins(acts[1..]);
      assert acts == [acts[0]] + acts[1..];
    }
  }

  /** Without a writer the record stands still. */
  lemma {:induction false} RunQuiet(s: Lock, acts: seq<Action>)
    requires IsRun(s, acts) && !s.writing && WriteBegin !in acts
    ensures Run(s, acts).data == s.data && !Run(s, acts).writing
    decreases |acts|
  {
    if acts != [] {
      assert acts[0] != WriteBegin;
      RunQuiet(Next(s, acts[0]), acts[1..]);
    }
  }

  /** With fewer than 2^32 writes in the window, an accepted read is one that no write overlaps. */
  lemma AcceptedIsUndisturbed(data: seq<int>, readers: nat, pre: seq<Action>, r: nat, mid: seq<Action>)
    requires Reads(Start(data, readers), pre, r, mid) && Overlapping(pre, mid) < WRAP
    requires var s := After(Start(data, readers), pre, r, mid); r < |s.readers| && ReadOk(s, r)
    ensures Begins(pre) == Ends(pre) && WriteBegin !in mid
    ensures !Run(Start(data, readers), pre).writing
  {
    AcceptsExactly(data, readers, pre, r, mid);
    NoBegins(mid);
    RunCounts(Start(data, readers), pre);
  }

  /** Any moment of such a read. */
  lemma StandsStill(s1: Lock, mid: seq<Action>, part: seq<Action>)
    requires IsRun(s1, mid) && part <= mid && !s1.writing && WriteBegin !in mid
    ensures IsRun(s1, part) && Run(s1, part).data == Run(s1, mid).data && !Run(s1, part).writing && !Run(s1, mid).writing
  {
    assert part + mid[|part|..] == mid;
    RunSplit(s1, part, mid[|part|..]);
    RunQuiet(s1, mid);
    RunQuiet(s1, part);
  }

  /** What a reader has copied by the end of a read in which the record has stood still. */
  lemma {:induction false} CopiesOfStill(s: Lock, acts: seq<Action>, r: nat)
    requires IsRun(s, acts) && !s.writing && WriteBegin !in acts
    ensures CopiesOf(Copied(s, acts, r), s.data)
    decreases |acts|
  {
    if acts != [] {
      assert acts[0] != WriteBegin;
      CopiesOfStill(Next(s, acts[0]), acts[1..], r);
    }
  }

  /**
   The snapshot property: with fewer than 2^32 writes in the window, an accepted read means that the
   record has stood still all along, no write under way; every word the reader has copied, at any moment,
   is the word of the record that the last complete write has left, and still is.
   */
  lemma AcceptedReadIsSnapshot(data: seq<int>, readers: nat, pre: seq<Action>, r: nat, mid: seq<Action>, part: seq<Action>)
    requires Reads(Start(data, readers), pre, r, mid) && part <= mid && Overlapping(pre, mid) < WRAP
    requires var s := After(Start(data, readers), pre, r, mid); r < |s.readers| && ReadOk(s, r)
    ensures Begins(pre) == Ends(pre) && WriteBegin !in mid
    ensures var s1, s := Next(Run(Start(data, readers), pre), ReadBegin(r)), After(Start(data, readers), pre, r, mid);
            && IsRun(s1, part) && Run(s1, part).data == s.data && !Run(s1, part).writing && !s.writing
            && CopiesOf(Copied(s1, mid, r), s.data)
            && |s.versions| > 0 && s.data == s.versions[|s.versions| - 1]
            && r < |s.readers| && s.readers[r].copies == Copied(s1, mid, r)
  {
    var s0 := Start(data, readers);
    var s1 := Next(Run(s0, pre), ReadBegin(r));
    AcceptedIsUndisturbed(data, readers, pre, r, mid);
    RunConsistent(s0, pre);
    Step(Run(s0, pre), ReadBegin(r));
    UndisturbedIsSnapshot(s1, r, mid, part);
  }

  lemma UndisturbedIsSnapshot(s1: Lock, r: nat, mid: seq<Action>, part: seq<Action>)
    requires Consistent(s1) && !s1.writing && r < |s1.readers| && s1.readers[r].copies == []
    requires IsRun(s1, mid) && part <= mid && WriteBegin !in mid && ReadBegin(r) !in mid
    ensures var s := Run(s1, mid);
            && IsRun(s1, part) && Run(s1, part).data == s.data && !Run(s1, part).writing && !s.writing
            && CopiesOf(Copied(s1, mid, r), s.data)
            && |s.versions| > 0 && s.data == s.versions[|s.versions| - 1]
            && r < |s.readers| && s.readers[r].copies == Copied(s1, mid, r)
  {
    StandsStill(s1, mid, part);
    StandsStill(s1, mid, mid);
    CopiesOfStill(s1, mid, r);
    assert Run(s1, mid).data == s1.data by {
      RunQuiet(s1, mid);
    }
    RunKeepsReading(s1, mid, r);
    RunConsistent(s1, mid);
  }

  lemma {:induction false} RunSplit(s: Lock, acts: seq<Action>, more: seq<Action>)
    requires IsRun(s, acts + more)
    ensures IsRun(s, acts)
    decreases |acts|
  {
    if acts != [] {
      assert (acts + more)[1..] == acts[1..] + more;
      RunSplit(Next(s, acts[0]), acts[1..], more);
    }
  }

  lemma {:induction false} RunKeepsReading(s: Lock, acts: seq<Action>, r: nat)
    requires IsRun(s, acts) && ReadBegin(r) !in acts && r < |s.readers|
    ensures var s' := Run(s, acts);
            r < |s'.readers| && s'.readers[r].active == s.readers[r].active && s'.readers[r].since == s.readers[r].since
    ensures Run(s, acts).readers[r].copies == s.readers[r].copies + Copied(s, acts, r)
    decreases |acts|
  {
    if acts != [] {
      assert acts[0] != ReadBegin(r);
      RunKeepsReading(Next(s, acts[0]), acts[1..], r);
    }
  }

  /** The words reader r copies in a run, each as it is in the record at that moment. */
  function Copied(s: Lock, acts: seq<Action>, r: nat): seq<Copy>
    requires IsRun(s, acts)
    decreases |acts|
  {
    if acts == [] then [] else
      (match acts[0]
       case ReadWord(x, i) => if x == r then [Copy(i, s.data[i])] else []
       case _ => [])
      + Copied(Next(s, acts[0]), acts[1..], r)
  }

  // ---- what happens at 2^32 -----------------------------------------------------------------------

  /** k complete writes of the two-word record (1, 1). */
  function Writes(k: nat): seq<Action> {
    if k == 0 then [] else [WriteBegin, WriteWord(0, 1)] + [WriteWord(1, 1), WriteEnd] + Writes(k - 1)
  }

  function Repeat(k: nat, v: seq<int>): (r: seq<seq<int>>)
    ensures |r| == k && forall i | 0 <= i < k :: r[i] == v
  {
    seq(k, _ => v)
  }

  lemma TwoSteps(s: Lock, a: Action, b: Action)
    requires Enabled(s, a) && Enabled(Next(s, a), b)
    ensures IsRun(s, [a, b]) && Run(s, [a, b]) == Next(Next(s, a), b)
  {
    var s1 := Next(s, a);
    var s2 := Next(s1, b);
    assert [a, b][1..] == [b] && [b][1..] == [];
    assert IsRun(s2, []) && Run(s2, []) == s2;
    assert IsRun(s1, [b]) && Run(s1, [b]) == s2;
  }

  lemma OneWrite(s: Lock)
    requires !s.writing && |s.data| == 2
    ensures var acts := [WriteBegin, WriteWord(0, 1)] + [WriteWord(1, 1), WriteEnd];
            && IsRun(s, acts)
            && Run(s, acts) == s.(begin := (s.begin + 1) % WRAP, end := (s.end + 1) % WRAP, begun := s.begun + 1,
                                  data := [1, 1], versions := s.versions + [[1, 1]])
  {
    var s1 := Next(s, WriteBegin);
    var s2 := Next(s1, WriteWord(0, 1));
    var s3 := Next(s2, WriteWord(1, 1));
    assert s3.data == [1, 1];
    TwoSteps(s, WriteBegin, WriteWord(0, 1));
    TwoSteps(s2, WriteWord(1, 1), WriteEnd);
    RunAppend(s, [WriteBegin, WriteWord(0, 1)], [WriteWord(1, 1), WriteEnd]);
  }

  lemma {:induction false} ManyWrites(s: Lock, k: nat)
    requires !s.writing && |s.data| == 2
    ensures IsRun(s, Writes(k))
    ensures var s' := Run(s, Writes(k));
            && s'.readers == s.readers && !s'.writing && s'.begun == s.begun + k
            && s'.versions == s.versions + Repeat(k, [1, 1]) && |s'.data| == 2 && (k > 0 ==> s'.data == [1, 1])
    decreases k
  {
    if k == 0 {
      assert s.versions + Repeat(0, [1, 1]) == s.versions;
    } else {
      var one := [WriteBegin, WriteWord(0, 1)] + [WriteWord(1, 1), WriteEnd];
      OneWrite(s);
      ManyWrites(Run(s, one), k - 1);
      RunAppend(s, one, Writes(k - 1));
      assert s.versions + [[1, 1]] + Repeat(k - 1, [1, 1]) == s.versions + Repeat(k, [1, 1]);
    }
  }

  /**
   The bound is sharp.  A reader that copies one word, sleeps through exactly 2^32 writes and copies
   the other word is told its read is fine, although no complete write ever left that pair.
   */
  lemma TornReadAfterWrap(k: nat)
    requires k == WRAP
    ensures var acts := [ReadBegin(0), ReadWord(0, 0)] + (Writes(k) + [ReadWord(0, 1)]);
            && IsRun(Start([0, 0], 1), acts)
            && var s := Run(Start([0, 0], 1), acts);
               && |s.readers| == 1 && s.readers[0].copies == [Copy(0, 0), Copy(1, 1)]
               && ReadOk(s, 0)
               && (forall v | v in s.versions :: !CopiesOf(s.readers[0].copies, v))
  {
    var s0 := Start([0, 0], 1);
    var head, tail := [ReadBegin(0), ReadWord(0, 0)], [ReadWord(0, 1)];
    var s1 := Next(s0, ReadBegin(0));
    var s2 := Next(s1, ReadWord(0, 0));
    assert head[1..] == [ReadWord(0, 0)] && Run(s2, []) == s2;
    assert Run(s1, [ReadWord(0, 0)]) == s2;
    assert Run(s0, head) == s2;
    ManyWrites(s2, k);
    var s3 := Run(s2, Writes(k));
    var s4 := Next(s3, ReadWord(0, 1));
    assert Run(s3, tail) == s4;
    RunAppend(s2, Writes(k), tail);
    RunAppend(s0, head, Writes(k) + tail);
    Torn(s4, head + (Writes(k) + tail), k);
  }

  lemma Torn(s: Lock, acts: seq<Action>, k: nat)
    requires IsRun(Start([0, 0], 1), acts) && Run(Start([0, 0], 1), acts) == s && k == WRAP
    requires |s.readers| == 1 && s.readers[0].active && s.readers[0].copies == [Copy(0, 0), Copy(1, 1)]
    requires s.begun == k && s.readers[0].since == 0 && s.versions == [[0, 0]] + Repeat(k, [1, 1])
    ensures ReadOk(s, 0) && forall v | v in s.versions :: !CopiesOf(s.readers[0].copies, v)
  {
    AcceptsSince([0, 0], 1, acts, 0);
    assert Copy(0, 0) in s.readers[0].copies && Copy(1, 1) in s.readers[0].copies;
  }

  // ---- the operations -----------------------------------------------------------------------------

  /** snd_atomic_write_t with the record it protects; readers are addressed by number. */
  class Guarded {
    var begin: int
    var end: int
    var sys: Lock                 // the record, and where writer and readers stand

    ghost predicate Valid()
      reads this
    {
      begin == sys.begin && end == sys.end && Consistent(sys)
    }

    /** snd_atomic_write_init */
    constructor (data: seq<int>, readers: nat)
      ensures Valid() && sys == Start(data, readers)
    {
      begin, end := 0, 0;
      sys := Start(data, readers);
    }

    /** snd_atomic_write_begin */
    method BeginWrite()
      requires Valid() && Enabled(sys, WriteBegin)
      modifies this
      ensures Valid() && sys == Next(old(sys), WriteBegin)
    {
      Step(sys, WriteBegin);
      begin := (begin + 1) % WRAP;
      sys := Next(sys, WriteBegin);
    }

    /** snd_atomic_write_end */
    method EndWrite()
      requires Valid() && Enabled(sys, WriteEnd)
      modifies this
      ensures Valid() && sys == Next(old(sys), WriteEnd)
    {
      Step(sys, WriteEnd);
      end := (end + 1) % WRAP;
      sys := Next(sys, WriteEnd);
    }

    /** snd_atomic_read_begin */
    method BeginRead(r: nat) returns (noted: int)
      requires Valid() && r < |sys.readers|
      modifies this`sys
      ensures Valid() && sys == Next(old(sys), ReadBegin(r)) && noted == sys.readers[r].end == end
    {
      noted := end;
      Step(sys, ReadBegin(r));
      sys := Next(sys, ReadBegin(r));
    }

    /** One word of the record is read. */
    method ReadWord(r: nat, word: nat) returns (value: int)
      requires Valid() && Enabled(sys, Action.ReadWord(r, word))
      modifies this`sys
      ensures Valid() && sys == Next(old(sys), Action.ReadWord(r, word)) && value == sys.data[word]
      ensures sys.readers[r].copies == old(sys.readers[r].copies) + [Copy(word, value)]
    {
      value := sys.data[word];
      Step(sys, Action.ReadWord(r, word));
      sys := Next(sys, Action.ReadWord(r, word));
    }

    /** One word of the record is written. */
    method WriteWord(word: nat, value: int)
      requires Valid() && Enabled(sys, Action.WriteWord(word, value))
      modifies this`sys
      ensures Valid() && sys == Next(old(sys), Action.WriteWord(word, value)) && sys.data == old(sys.data)[word := value]
    {
      Step(sys, Action.WriteWord(word, value));
      sys := Next(sys, Action.WriteWord(word, value));
    }

    /** snd_atomic_read_ok */
    method CheckRead(r: nat, noted: int) returns (ok: bool)
      requires Valid() && r < |sys.readers| && sys.readers[r].active && noted == sys.readers[r].end
      ensures ok <==> (sys.begun - sys.readers[r].since) % WRAP == 0
      ensures ok && sys.begun - sys.readers[r].since < WRAP ==>
                !sys.writing && CopiesOf(sys.readers[r].copies, sys.versions[|sys.versions| - 1])
    {
      ok := noted == begin;
      assert ReaderOk(sys, sys.readers[r]);
      SameResidue(sys.begun, sys.readers[r].since);
    }
  }
}
