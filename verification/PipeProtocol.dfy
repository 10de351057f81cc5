/**
 Any number of processes reading and writing one scull pipe.  A step is what one process does
 between two points where others can interfere: taking or releasing the semaphore, loading one
 pointer without the semaphore, joining or leaving a wait queue, moving a pointer, or wrapping it.
 The pipe stays open throughout; opening it again is the subject of `PipeReopen`.
 */
module PipeProtocol {
  import opened Ring
  import opened PipeBuffer

  type Pid = nat

  datatype Request = Reading(count: nat) | Writing(data: seq<byte>)

  datatype Result = Count(n: nat) | Error(errno: Errno)

  /** Where a process stands inside its call. */
  datatype Pc =
    | Down                      // about to take the semaphore
    | Test                      // holds it, about to test for data or space
    | UpAndWait                 // holds it, found none, about to release
    | Event                     // has released it, not queued yet, about to load rp
    | EventRest(seen: nat)      // has loaded rp, about to load wp
    | Prepare                   // about to join the wait queue
    | Check                     // queued, about to look again and load rp
    | CheckRest(seen: nat)      // has loaded rp, about to load wp and compare
    | Reload                    // a writer that found them different, about to load rp once more if it does
    | ReloadRest(seen: nat)     // has a loaded rp, about to load wp and compute the space
    | Sched                     // queued and gone to sleep until woken
    | Finish                    // about to leave the queue
    | Copy                      // holds it, about to transfer
    | Fault                     // holds it, the copy failed
    | Adjust(moved: nat)        // holds it, pointer advanced, about to wrap it
    | Up(moved: nat)            // holds it, about to release after a transfer
    | Wake(moved: nat)          // released, about to wake the other side
    | Returned(result: Result)  // the call is over

  datatype Proc = Proc(request: Request, nonblocking: bool, pc: Pc) {
    /** Between a successful down() and the matching up(). */
    predicate Holds() {
      pc.Test? || pc.UpAndWait? || pc.Copy? || pc.Fault? || pc.Adjust? || pc.Up?
    }

    /** Moved a pointer and still owes the other side a wake-up. */
    predicate Owes() {
      pc.Adjust? || pc.Up? || pc.Wake?
    }

    predicate Queued() {
      pc.Prepare? || pc.Check? || pc.CheckRest? || pc.Reload? || pc.ReloadRest? || pc.Sched? || pc.Finish?
    }

    predicate Live() {
      !pc.Returned?
    }
  }

  /**
   What the processes share, with two history variables: every byte accepted, every byte delivered.  The
   function that computes the space names the readers' pointer twice and nothing makes it volatile, so
   compiled code may load it twice or, without the semaphore, go on with what it has: `reload` tells.
   */
  datatype Device = Device(
    reload: bool, cells: seq<byte>, rp: nat, wp: nat, sem: nat, inq: set<Pid>, outq: set<Pid>,
    accepted: seq<byte>, delivered: seq<byte>)
  {
    ghost predicate Bounded() {
      0 < |cells| && rp <= |cells| && wp <= |cells|
    }

    function Space(): int
      requires Bounded()
    {
      SpaceFree(|cells|, rp, wp)
    }

    /** The ring once any pointer standing past the end has been wrapped. */
    function Ring(): Fifo
      requires Bounded()
    {
      Fifo(cells, Wrap(|cells|, rp), Wrap(|cells|, wp))
    }

    ghost predicate Empty()
      requires Bounded()
    {
      Ring().rp == Ring().wp
    }

    ghost predicate Full()
      requires Bounded()
    {
      Writable(|cells|, Ring().rp, Ring().wp) == 0
    }
  }

  datatype State = State(dev: Device, procs: map<Pid, Proc>)

  /** What the environment decides in a step: a signal arrives, or a copy to or from user space faults. */
  datatype Luck = Plain | Signal | BadAddress(junk: seq<byte>)

  datatype Action = Call(p: Pid, request: Request, nonblocking: bool) | Step(p: Pid, luck: Luck)

  /** Can the process move without a signal? */
  predicate CanMove(d: Device, p: Pid, proc: Proc) {
    match proc.pc
    case Down => d.sem > 0
    case Sched => if proc.request.Reading? then p !in d.inq else p !in d.outq
    case Returned(_) => false
    case _ => true
  }

  /** Where a pending signal makes a difference. */
  predicate Interruptible(d: Device, proc: Proc) {
    match proc.pc
    case Down => true
    case Sched => true
    case CheckRest(seen) => proc.request.Reading? && seen == d.wp
    case Finish => proc.request.Writing?
    case _ => false
  }

  /** A pointer loaded earlier was within the buffer, and the buffer stays. */
  predicate SeenInRange(d: Device, proc: Proc) {
    proc.pc.ReloadRest? || proc.pc.CheckRest? ==> proc.pc.seen <= |d.cells|
  }

  ghost predicate Possible(d: Device, p: Pid, proc: Proc, luck: Luck)
    requires d.Bounded()
  {
    match luck
    case Plain => CanMove(d, p, proc) && SeenInRange(d, proc)
    case Signal => Interruptible(d, proc)
    case BadAddress(junk) =>
      && proc.pc.Copy?
      && (proc.request.Writing? ==> |junk| <= WriteCount(|d.cells|, d.rp, d.wp, |proc.request.data|))
  }

  /** One step of a process inside read, named by the source line it stands at. */
  function ReaderStep(d: Device, p: Pid, proc: Proc): (Device, Pc)
    requires d.Bounded() && CanMove(d, p, proc) && proc.request.Reading?
  {
    match proc.pc
    case Down => (d.(sem := d.sem - 1), Test)
    case Test => (d, if d.rp == d.wp then UpAndWait else Copy)
    case UpAndWait => (d.(sem := d.sem + 1), if proc.nonblocking then Returned(Error(EAGAIN)) else Event)
    case Event => (d, EventRest(d.rp))
    case EventRest(seen) => (d, if seen != d.wp then Down else Prepare)
    case Prepare => (d.(inq := d.inq + {p}), Check)
    case Check => (d, CheckRest(d.rp))
    case CheckRest(seen) => (d, if seen != d.wp then Finish else Sched)
    case Sched => (d, Prepare)
    case Finish => (d.(inq := d.inq - {p}), Down)
    case Copy =>
      var k := ReadCount(|d.cells|, d.rp, d.wp, proc.request.count);
      (d.(rp := d.rp + k, delivered := d.delivered + d.cells[d.rp..d.rp + k]), Adjust(k))
    case Fault => (d.(sem := d.sem + 1), Returned(Error(EFAULT)))
    case Adjust(k) => (d.(rp := Wrap(|d.cells|, d.rp)), Up(k))
    case Up(k) => (d.(sem := d.sem + 1), Wake(k))
    case Wake(k) => (d.(outq := {}), Returned(Count(k)))
    case _ => (d, Finish)     // only writers compute the space
  }

  /** One step of a process inside write. */
  function WriterStep(d: Device, p: Pid, proc: Proc): (Device, Pc)
    requires d.Bounded() && SeenInRange(d, proc) && CanMove(d, p, proc) && proc.request.Writing?
  {
    match proc.pc
    case Down => (d.(sem := d.sem - 1), Test)
    case Test => (d, if d.Space() == 0 then UpAndWait else Copy)
    case UpAndWait => (d.(sem := d.sem + 1), if proc.nonblocking then Returned(Error(EAGAIN)) else Event)
    case Event => (d, Prepare)
    case Prepare => (d.(outq := d.outq + {p}), Check)
    case Check => (d, CheckRest(d.rp))
    case CheckRest(seen) =>
      (d, if seen == d.wp then (if |d.cells| - 1 == 0 then Sched else Finish)
          else if d.reload then Reload else ReloadRest(seen))
    case Reload => (d, ReloadRest(d.rp))
    case ReloadRest(seen) => (d, if Gap(|d.cells|, seen, d.wp) == 0 then Sched else Finish)
    case Sched => (d, Finish)
    case Finish => (d.(outq := d.outq - {p}), Down)
    case Copy =>
      var k := WriteCount(|d.cells|, d.rp, d.wp, |proc.request.data|);
      (d.(cells := Splice(d.cells, d.wp, proc.request.data[..k]), wp := d.wp + k,
          accepted := d.accepted + proc.request.data[..k]), Adjust(k))
    case Fault => (d.(sem := d.sem + 1), Returned(Error(EFAULT)))
    case Adjust(k) => (d.(wp := Wrap(|d.cells|, d.wp)), Up(k))
    case Up(k) => (d.(sem := d.sem + 1), Wake(k))
    case Wake(k) => (d.(inq := {}), Returned(Count(k)))
    case _ => (d, Prepare)    // only readers look before they queue
  }

  /** A signal takes a sleeper out of schedule(); elsewhere it ends the call. */
  function Signalled(d: Device, p: Pid, proc: Proc): (Device, Pc)
    requires Interruptible(d, proc)
  {
    if proc.pc.Sched? then
      (d, if proc.request.Reading? then Prepare else Finish)
    else
      (d.(inq := d.inq - {p}, outq := d.outq - {p}), Returned(Error(ERESTARTSYS)))
  }

  function StepOf(d: Device, p: Pid, proc: Proc, luck: Luck): (Device, Pc)
    requires d.Bounded() && Possible(d, p, proc, luck)
  {
    match luck
    case Plain => if proc.request.Reading? then ReaderStep(d, p, proc) else WriterStep(d, p, proc)
    case Signal => Signalled(d, p, proc)
    case BadAddress(junk) =>
      (if proc.request.Reading? then d else d.(cells := Splice(d.cells, d.wp, junk)), Fault)
  }

  ghost predicate Enabled(s: State, a: Action) {
    && s.dev.Bounded()
    && match a
       case Call(p, _, _) => p in s.procs ==> !s.procs[p].Live()
       case Step(p, luck) => p in s.procs && Possible(s.dev, p, s.procs[p], luck)
  }

  function Do(s: State, a: Action): State
    requires Enabled(s, a)
  {
    match a
    case Call(p, request, nonblocking) => s.(procs := s.procs[p := Proc(request, nonblocking, Down)])
    case Step(p, luck) =>
      var (d, pc) := StepOf(s.dev, p, s.procs[p], luck);
      State(d, s.procs[p := s.procs[p].(pc := pc)])
  }

  /** A freshly opened pipe with nobody inside. */
  ghost predicate Initial(s: State) {
    var d := s.dev;
    && 0 < |d.cells| && d.rp == d.wp == 0 && d.sem == 1
    && d.inq == d.outq == {} && d.accepted == d.delivered == [] && s.procs == map[]
  }

  /** A script that can be carried out action by action. */
  ghost predicate Runs(s: State, script: seq<Action>)
    decreases |script|
  {
    script == [] || (Enabled(s, script[0]) && Runs(Do(s, script[0]), script[1..]))
  }

  function After(s: State, script: seq<Action>): State
    requires Runs(s, script)
    decreases |script|
  {
    if script == [] then s else After(Do(s, script[0]), script[1..])
  }

  // ---------------------------------------------------------------- the invariant

  ghost predicate IsHolder(s: State, h: Pid) {
    && h in s.procs && s.procs[h].Holds()
    && forall p :: p in s.procs && s.procs[p].Holds() ==> p == h
  }

  /** The semaphore is free and nobody is inside, or it is taken and exactly one process is. */
  ghost predicate Exclusive(s: State) {
    || (s.dev.sem == 1 && forall p :: p in s.procs ==> !s.procs[p].Holds())
    || (s.dev.sem == 0 && exists h :: IsHolder(s, h))
  }

  /** Only processes still inside the waiting code are queued, each on the queue of its own direction. */
  ghost predicate QueuesOk(s: State) {
    && (forall p :: p in s.dev.inq ==> p in s.procs && s.procs[p].request.Reading? && s.procs[p].Queued())
    && (forall p :: p in s.dev.outq ==> p in s.procs && s.procs[p].request.Writing? && s.procs[p].Queued())
  }

  /** What a process may rely on at the point where it stands. */
  ghost predicate ProcOk(d: Device, proc: Proc)
    requires d.Bounded()
  {
    && (proc.Holds() && d.rp == |d.cells| ==> proc.request.Reading? && proc.pc.Adjust?)
    && (proc.Holds() && d.wp == |d.cells| ==> proc.request.Writing? && proc.pc.Adjust?)
    && (proc.pc.Copy? ==> if proc.request.Reading? then !d.Empty() else !d.Full())
    && SeenInRange(d, proc)
  }

  /** Pointers are in range, past the end only inside the process that moved them, and no byte is lost. */
  ghost predicate RingOk(s: State) {
    && s.dev.Bounded()
    && (forall p :: p in s.procs ==> ProcOk(s.dev, s.procs[p]))
    && (s.dev.sem > 0 ==> s.dev.rp < |s.dev.cells| && s.dev.wp < |s.dev.cells|)
    && s.dev.accepted == s.dev.delivered + s.dev.Ring().Stored()
  }

  ghost predicate OwesWake(s: State, p: Pid, reader: bool) {
    p in s.procs && s.procs[p].Owes() && s.procs[p].request.Reading? == reader
  }

  /** Asleep although there is data, or about to be because of a pointer loaded too early. */
  ghost predicate ReaderDue(d: Device, p: Pid, proc: Proc)
    requires d.Bounded()
  {
    && p in d.inq && proc.request.Reading? && !d.Empty()
    && (proc.pc.Sched? || (proc.pc.CheckRest? && proc.pc.seen == d.wp))
  }

  /** A writer that has loaded the readers' pointer and is going to compute the space from it. */
  predicate Relies(d: Device, proc: Proc) {
    proc.request.Writing? && (proc.pc.ReloadRest? || (proc.pc.CheckRest? && !d.reload))
  }

  /** Asleep although there is space, or about to be because of a pointer loaded too early. */
  ghost predicate WriterDue(d: Device, p: Pid, proc: Proc)
    requires d.Bounded()
  {
    && p in d.outq && proc.request.Writing? && SeenInRange(d, proc)
    && ((proc.pc.Sched? && !d.Full()) || (Relies(d, proc) && Wrap(|d.cells|, proc.pc.seen) != d.Ring().rp))
  }

  /** Nobody misses data that is there unless some writer is about to wake the readers. */
  ghost predicate ReadersNotForgotten(s: State)
    requires s.dev.Bounded()
  {
    forall p :: p in s.procs && ReaderDue(s.dev, p, s.procs[p]) ==> exists w :: OwesWake(s, w, false)
  }

  /** Nobody misses space that is there unless some reader is about to wake the writers. */
  ghost predicate WritersNotForgotten(s: State)
    requires s.dev.Bounded()
  {
    forall p :: p in s.procs && WriterDue(s.dev, p, s.procs[p]) ==> exists r :: OwesWake(s, r, true)
  }

  ghost predicate Inv(s: State) {
    && RingOk(s)
    && Exclusive(s)
    && QueuesOk(s)
    && ReadersNotForgotten(s)
    && WritersNotForgotten(s)
  }

  // ---------------------------------------------------------------- every step keeps it

  /** The semaphore counts down when the process gets inside and up when it leaves. */
  lemma SemaphoreFollows(d: Device, p: Pid, proc: Proc, luck: Luck)
    requires d.Bounded() && Possible(d, p, proc, luck)
    ensures var (e, pc) := StepOf(d, p, proc, luck);
            e.sem + (if proc.(pc := pc).Holds() then 1 else 0) == d.sem + (if proc.Holds() then 1 else 0)
  {
  }

  /** Only taking and releasing the semaphore changes who is inside. */
  lemma StepKeepsExclusive(s: State, a: Action)
    requires Enabled(s, a) && Exclusive(s)
    ensures Exclusive(Do(s, a))
  {
    var t := Do(s, a);
    if a.Step? {
      SemaphoreFollows(s.dev, a.p, s.procs[a.p], a.luck);
    }
    if s.dev.sem == 0 {
      var h :| IsHolder(s, h);
      if t.dev.sem == 0 {
        assert IsHolder(t, h);
      }
    } else if t.dev.sem == 0 {
      assert IsHolder(t, a.p);
    }
  }

  /** A process puts only itself on a queue, the one of its direction, and leaves it with the waiting code. */
  lemma QueuesFollow(d: Device, p: Pid, proc: Proc, luck: Luck)
    requires d.Bounded() && Possible(d, p, proc, luck)
    requires p in d.inq ==> proc.request.Reading? && proc.Queued()
    requires p in d.outq ==> proc.request.Writing? && proc.Queued()
    ensures var (e, pc) := StepOf(d, p, proc, luck);
            && e.inq <= d.inq + {p} && e.outq <= d.outq + {p}
            && (p in e.inq ==> proc.request.Reading? && proc.(pc := pc).Queued())
            && (p in e.outq ==> proc.request.Writing? && proc.(pc := pc).Queued())
  {
  }

  lemma StepKeepsQueues(s: State, a: Action)
    requires Enabled(s, a) && QueuesOk(s)
    ensures QueuesOk(Do(s, a))
  {
    if a.Step? {
      QueuesFollow(s.dev, a.p, s.procs[a.p], a.luck);
    }
  }

  /** A step by a process that does not hold the semaphore leaves ring and semaphore alone, except to take it. */
  lemma OutsiderLeavesRing(d: Device, p: Pid, proc: Proc, luck: Luck)
    requires d.Bounded() && Possible(d, p, proc, luck) && !proc.Holds()
    ensures var e := StepOf(d, p, proc, luck).0;
            && e.cells == d.cells && e.rp == d.rp && e.wp == d.wp
            && e.accepted == d.accepted && e.delivered == d.delivered
            && (e.sem == d.sem || (d.sem > 0 && e.sem == d.sem - 1))
            && !StepOf(d, p, proc, luck).1.Copy?
            && !StepOf(d, p, proc, luck).1.Adjust?
  {
  }

  /** What the holder of the semaphore must leave behind for itself and for whoever takes it next. */
  ghost predicate LeavesRingOk(d: Device, proc: Proc, e: Device, pc: Pc) {
    && e.Bounded() && |e.cells| == |d.cells|
    && e.accepted == e.delivered + e.Ring().Stored()
    && ProcOk(e, proc.(pc := pc))
    && (!proc.(pc := pc).Holds() ==> e.rp < |e.cells| && e.wp < |e.cells|)
  }

  /** The copy of a read, once wrapped, is the read operation of the ring. */
  lemma ReaderCopies(d: Device, p: Pid, proc: Proc)
    requires d.Bounded() && proc.pc.Copy? && proc.request.Reading?
    requires d.rp < |d.cells| && d.wp < |d.cells| && d.rp != d.wp
    ensures var e := ReaderStep(d, p, proc).0;
            var (ring, bytes) := d.Ring().Read(proc.request.count);
            && e.Bounded() && e.cells == d.cells && e.wp == d.wp && e.accepted == d.accepted
            && e.Ring() == ring && e.delivered == d.delivered + bytes
  {
  }

  /** The copy of a write, once wrapped, is the write operation of the ring. */
  lemma WriterCopies(d: Device, p: Pid, proc: Proc)
    requires d.Bounded() && proc.pc.Copy? && proc.request.Writing?
    requires d.rp < |d.cells| && d.wp < |d.cells| && |d.Ring().Stored()| < |d.cells| - 1
    ensures var e := WriterStep(d, p, proc).0;
            var (ring, k) := d.Ring().Write(proc.request.data);
            && e.Bounded() && |e.cells| == |d.cells| && e.rp == d.rp && e.delivered == d.delivered
            && e.Ring() == ring && e.accepted == d.accepted + proc.request.data[..k]
  {
  }

  lemma ReaderCopyKeepsRing(d: Device, p: Pid, proc: Proc)
    requires d.Bounded() && proc.pc.Copy? && proc.request.Reading? && ProcOk(d, proc)
    requires d.accepted == d.delivered + d.Ring().Stored()
    ensures LeavesRingOk(d, proc, ReaderStep(d, p, proc).0, ReaderStep(d, p, proc).1)
  {
    ReaderCopies(d, p, proc);
    var (ring, bytes) := d.Ring().Read(proc.request.count);
    Regroup(d.delivered, bytes, ring.Stored());
  }

  lemma WriterCopyKeepsRing(d: Device, p: Pid, proc: Proc)
    requires d.Bounded() && proc.pc.Copy? && proc.request.Writing? && ProcOk(d, proc)
    requires d.accepted == d.delivered + d.Ring().Stored()
    ensures LeavesRingOk(d, proc, WriterStep(d, p, proc).0, WriterStep(d, p, proc).1)
  {
    WriterCopies(d, p, proc);
    var (ring, k) := d.Ring().Write(proc.request.data);
    var (e, pc) := WriterStep(d, p, proc);
    assert e.Ring() == ring && e.rp == d.rp && pc == Adjust(k) && e.accepted == d.accepted + proc.request.data[..k];
    Regroup(d.delivered, d.Ring().Stored(), proc.request.data[..k]);
  }

  lemma FaultyCopyIsInvisible(d: Device, p: Pid, proc: Proc, luck: Luck)
    requires d.Bounded() && luck.BadAddress? && Possible(d, p, proc, luck) && ProcOk(d, proc)
    requires d.accepted == d.delivered + d.Ring().Stored()
    ensures LeavesRingOk(d, proc, StepOf(d, p, proc, luck).0, StepOf(d, p, proc, luck).1)
  {
  }

  lemma HolderKeepsRing(d: Device, p: Pid, proc: Proc, luck: Luck)
    requires d.Bounded() && Possible(d, p, proc, luck) && proc.Holds() && ProcOk(d, proc)
    requires d.accepted == d.delivered + d.Ring().Stored()
    ensures LeavesRingOk(d, proc, StepOf(d, p, proc, luck).0, StepOf(d, p, proc, luck).1)
  {
    if luck.BadAddress? {
      FaultyCopyIsInvisible(d, p, proc, luck);
    } else if proc.pc.Copy? && proc.request.Reading? {
      ReaderCopyKeepsRing(d, p, proc);
    } else if proc.pc.Copy? {
      WriterCopyKeepsRing(d, p, proc);
    } else if !proc.pc.Adjust? {
      SpaceFreeIsExact(|d.cells|, d.rp, d.wp);
    }
  }

  lemma OutsiderStaysOk(d: Device, p: Pid, proc: Proc, luck: Luck)
    requires d.Bounded() && Possible(d, p, proc, luck) && !proc.Holds() && ProcOk(d, proc)
    requires d.sem > 0 ==> d.rp < |d.cells| && d.wp < |d.cells|
    ensures var (e, pc) := StepOf(d, p, proc, luck); e.Bounded() && ProcOk(e, proc.(pc := pc))
  {
  }

  lemma HolderStepKeepsRing(s: State, a: Action)
    requires Enabled(s, a) && Exclusive(s) && RingOk(s) && a.Step? && s.procs[a.p].Holds()
    ensures RingOk(Do(s, a))
  {
    var t := Do(s, a);
    HolderKeepsRing(s.dev, a.p, s.procs[a.p], a.luck);
    assert t.dev.sem > 0 ==> !t.procs[a.p].Holds();
    forall q | q in t.procs ensures ProcOk(t.dev, t.procs[q]) {
      assert q != a.p ==> ProcOk(s.dev, s.procs[q]) && !s.procs[q].Holds();
    }
  }

  lemma OutsiderStepKeepsRing(s: State, a: Action)
    requires Enabled(s, a) && RingOk(s) && a.Step? && !s.procs[a.p].Holds()
    ensures RingOk(Do(s, a))
  {
    OutsiderLeavesRing(s.dev, a.p, s.procs[a.p], a.luck);
    OutsiderStaysOk(s.dev, a.p, s.procs[a.p], a.luck);
  }

  lemma StepKeepsRing(s: State, a: Action)
    requires Enabled(s, a) && Exclusive(s) && RingOk(s)
    ensures RingOk(Do(s, a))
  {
    if a.Step? {
      if s.procs[a.p].Holds() {
        HolderStepKeepsRing(s, a);
      } else {
        OutsiderStepKeepsRing(s, a);
      }
    }
  }

  /** Data appears, or the writers' pointer moves, only by the hand of a process that then owes the readers a wake-up. */
  lemma NewReaderDue(s: State, a: Action, p: Pid)
    requires Enabled(s, a) && RingOk(s) && p in s.procs && p != a.p
    requires Do(s, a).dev.Bounded() && ReaderDue(Do(s, a).dev, p, s.procs[p]) && !ReaderDue(s.dev, p, s.procs[p])
    ensures OwesWake(Do(s, a), a.p, false)
  {
    if a.Step? && !s.procs[a.p].Holds() {
      OutsiderLeavesRing(s.dev, a.p, s.procs[a.p], a.luck);
    }
  }

  /** Space appears, or the readers' pointer moves, only by the hand of a process that then owes the writers a wake-up. */
  lemma NewWriterDue(s: State, a: Action, p: Pid)
    requires Enabled(s, a) && RingOk(s) && p in s.procs && p != a.p
    requires Do(s, a).dev.Bounded() && WriterDue(Do(s, a).dev, p, s.procs[p]) && !WriterDue(s.dev, p, s.procs[p])
    ensures OwesWake(Do(s, a), a.p, true)
  {
    if a.Step? && !s.procs[a.p].Holds() {
      OutsiderLeavesRing(s.dev, a.p, s.procs[a.p], a.luck);
    }
  }

  /** A debt is passed on from step to step until the queue of the other side has been emptied. */
  lemma DebtsArePaid(s: State, a: Action, w: Pid, reader: bool)
    requires Enabled(s, a) && OwesWake(s, w, reader)
    ensures OwesWake(Do(s, a), w, reader) || (if reader then Do(s, a).dev.outq == {} else Do(s, a).dev.inq == {})
  {
  }

  lemma OwnReadDue(d: Device, p: Pid, proc: Proc, luck: Luck)
    requires d.Bounded() && Possible(d, p, proc, luck) && ProcOk(d, proc)
    requires var (e, pc) := StepOf(d, p, proc, luck); e.Bounded() && ReaderDue(e, p, proc.(pc := pc))
    ensures ReaderDue(d, p, proc)
  {
  }

  /** A reader goes to sleep in vain only on the strength of a pointer loaded too early. */
  lemma OwnReaderDue(s: State, a: Action)
    requires Enabled(s, a) && RingOk(s) && a.p in Do(s, a).procs
    requires Do(s, a).dev.Bounded() && ReaderDue(Do(s, a).dev, a.p, Do(s, a).procs[a.p])
    ensures a.p in s.procs && ReaderDue(s.dev, a.p, s.procs[a.p])
  {
    if a.Step? {
      OwnReadDue(s.dev, a.p, s.procs[a.p], a.luck);
    }
  }

  lemma ComputingDue(d: Device, p: Pid, proc: Proc)
    requires d.Bounded() && SeenInRange(d, proc) && proc.request.Writing? && proc.pc.ReloadRest?
    requires WriterDue(d, p, proc.(pc := WriterStep(d, p, proc).1))
    ensures WriterDue(d, p, proc)
  {
    if Gap(|d.cells|, proc.pc.seen, d.wp) == 0 {
      GapMeansFull(|d.cells|, proc.pc.seen, d.wp);
    }
  }

  lemma OwnStepDue(d: Device, p: Pid, proc: Proc, luck: Luck)
    requires d.Bounded() && Possible(d, p, proc, luck) && ProcOk(d, proc)
    requires var (e, pc) := StepOf(d, p, proc, luck); e.Bounded() && WriterDue(e, p, proc.(pc := pc))
    ensures WriterDue(d, p, proc)
  {
    if proc.pc.ReloadRest? {
      ComputingDue(d, p, proc);
    }
  }

  /** So does a writer. */
  lemma OwnWriterDue(s: State, a: Action)
    requires Enabled(s, a) && RingOk(s) && a.p in Do(s, a).procs
    requires Do(s, a).dev.Bounded() && WriterDue(Do(s, a).dev, a.p, Do(s, a).procs[a.p])
    ensures a.p in s.procs && WriterDue(s.dev, a.p, s.procs[a.p])
  {
    if a.Step? {
      OwnStepDue(s.dev, a.p, s.procs[a.p], a.luck);
    }
  }

  /** The space computed from raw pointers is safe even while one stands past the end. */
  lemma GapMeansFull(n: nat, rp: nat, wp: nat)
    requires 0 < n && rp <= n && wp <= n && Gap(n, rp, wp) == 0
    ensures Writable(n, Wrap(n, rp), Wrap(n, wp)) == 0
  {
    if rp + n - wp < 2 * n {
      ModOnce(rp + n - wp, n);
    }
  }

  lemma StepKeepsReaders(s: State, a: Action)
    requires Enabled(s, a) && RingOk(s) && RingOk(Do(s, a)) && ReadersNotForgotten(s)
    ensures ReadersNotForgotten(Do(s, a))
  {
    var t := Do(s, a);
    forall p | p in t.procs && ReaderDue(t.dev, p, t.procs[p]) ensures exists w :: OwesWake(t, w, false) {
      if p == a.p {
        OwnReaderDue(s, a);
      }
      if ReaderDue(s.dev, p, s.procs[p]) {
        var w :| OwesWake(s, w, false);
        DebtsArePaid(s, a, w, false);
        assert OwesWake(t, w, false);
      } else {
        NewReaderDue(s, a, p);
        assert OwesWake(t, a.p, false);
      }
    }
  }

  lemma StepKeepsWriters(s: State, a: Action)
    requires Enabled(s, a) && RingOk(s) && RingOk(Do(s, a)) && WritersNotForgotten(s)
    ensures WritersNotForgotten(Do(s, a))
  {
    var t := Do(s, a);
    forall p | p in t.procs && WriterDue(t.dev, p, t.procs[p]) ensures exists r :: OwesWake(t, r, true) {
      if p == a.p {
        OwnWriterDue(s, a);
      }
      if WriterDue(s.dev, p, s.procs[p]) {
        var r :| OwesWake(s, r, true);
        DebtsArePaid(s, a, r, true);
        assert OwesWake(t, r, true);
      } else {
        NewWriterDue(s, a, p);
        assert OwesWake(t, a.p, true);
      }
    }
  }

  lemma StepKeepsInv(s: State, a: Action)
    requires Inv(s) && Enabled(s, a)
    ensures Inv(Do(s, a))
  {
    StepKeepsExclusive(s, a);
    StepKeepsQueues(s, a);
    StepKeepsRing(s, a);
    StepKeepsReaders(s, a);
    StepKeepsWriters(s, a);
  }

  lemma {:induction false} RunKeepsInv(s: State, script: seq<Action>)
    requires Inv(s) && Runs(s, script)
    ensures Inv(After(s, script)) && |After(s, script).dev.cells| == |s.dev.cells|
    decreases |script|
  {
    if script != [] {
      StepKeepsInv(s, script[0]);
      RunKeepsInv(Do(s, script[0]), script[1..]);
    }
  }

  // ---------------------------------------------------------------- main results over every run

  /**
   In every interleaving the readers together have received exactly the bytes the writers together
   got accepted, in order, but for what is still in the ring; ring content and free space add up.
   */
  lemma FirstInFirstOut(s: State, script: seq<Action>)
    requires Initial(s) && Runs(s, script)
    ensures var d := After(s, script).dev;
            && d.Bounded() && |d.cells| == |s.dev.cells|
            && d.accepted == d.delivered + d.Ring().Stored()
            && |d.Ring().Stored()| <= |d.cells| - 1
            && (d.sem == 1 ==>
                  && d.rp < |d.cells| && d.wp < |d.cells|
                  && d.Space() == |d.cells| - 1 - |d.Ring().Stored()|)
  {
    RunKeepsInv(s, script);
    var d := After(s, script).dev;
    if d.sem == 1 {
      SpaceFreeIsExact(|d.cells|, d.rp, d.wp);
    }
  }

  /** At most one process is ever inside, and once every call has returned the semaphore is free. */
  lemma MutualExclusion(s: State, script: seq<Action>)
    requires Initial(s) && Runs(s, script)
    ensures var t := After(s, script);
            && t.dev.sem <= 1
            && (forall p, q :: p in t.procs && q in t.procs && t.procs[p].Holds() && t.procs[q].Holds() ==> p == q)
            && (t.dev.sem == 1 <==> forall p :: p in t.procs ==> !t.procs[p].Holds())
            && ((forall p :: p in t.procs ==> !t.procs[p].Live()) ==> t.dev.sem == 1)
  {
    RunKeepsInv(s, script);
  }

  /** No wake-up is ever lost, in either direction. */
  lemma NoLostWakeUp(s: State, script: seq<Action>, p: Pid)
    requires Initial(s) && Runs(s, script)
    requires p in After(s, script).procs && After(s, script).procs[p].pc.Sched?
    ensures var t := After(s, script);
            && t.dev.Bounded()
            && (p in t.dev.inq && t.dev.Ring().Stored() != [] ==> exists w :: OwesWake(t, w, false))
            && (p in t.dev.outq && |t.dev.Ring().Stored()| < |t.dev.cells| - 1 ==> exists r :: OwesWake(t, r, true))
  {
    RunKeepsInv(s, script);
  }

  /** Holding the semaphore, a process goes on to transfer exactly if there is data, or space, for it. */
  lemma TestIsExact(d: Device, p: Pid, proc: Proc)
    requires d.Bounded() && ProcOk(d, proc) && proc.pc.Test?
    ensures var pc := StepOf(d, p, proc, Plain).1;
            && (pc.Copy? <==> if proc.request.Reading? then d.Ring().Stored() != []
                              else |d.Ring().Stored()| < |d.cells| - 1)
            && (pc.Copy? || pc.UpAndWait?)
  {
    SpaceFreeIsExact(|d.cells|, d.rp, d.wp);
  }

  predicate Carries(pc: Pc, m: nat) {
    pc == Adjust(m) || pc == Up(m) || pc == Wake(m) || pc == Returned(Count(m))
  }

  lemma ReaderCounts(d: Device, p: Pid, proc: Proc)
    requires d.Bounded() && ProcOk(d, proc) && proc.pc.Copy? && proc.request.Reading?
    ensures var (e, pc) := ReaderStep(d, p, proc);
            var m := Min(proc.request.count, Readable(|d.cells|, d.rp, d.wp));
            && pc == Adjust(m) && e.accepted == d.accepted && (0 < proc.request.count ==> 0 < m)
            && m <= |d.Ring().Stored()| && e.delivered == d.delivered + d.Ring().Stored()[..m]
  {
    Consume(d.cells, d.rp, d.wp, Min(proc.request.count, Readable(|d.cells|, d.rp, d.wp)));
  }

  lemma WriterCounts(d: Device, p: Pid, proc: Proc)
    requires d.Bounded() && ProcOk(d, proc) && proc.pc.Copy? && proc.request.Writing?
    ensures var (e, pc) := WriterStep(d, p, proc);
            var m := Min(|proc.request.data|, Writable(|d.cells|, d.rp, d.wp));
            && pc == Adjust(m) && e.delivered == d.delivered && (0 < |proc.request.data| ==> 0 < m)
            && e.accepted == d.accepted + proc.request.data[..m]
  {
  }

  lemma OthersPassCountsOn(d: Device, p: Pid, proc: Proc, luck: Luck, m: nat)
    requires d.Bounded() && Possible(d, p, proc, luck) && !proc.pc.Copy? && Carries(StepOf(d, p, proc, luck).1, m)
    ensures var e := StepOf(d, p, proc, luck).0;
            Carries(proc.pc, m) && e.accepted == d.accepted && e.delivered == d.delivered
  {
  }

  /** The count a call reports is the number of bytes its copy moved, the first ones of its own request. */
  lemma CountsAreHonest(d: Device, p: Pid, proc: Proc, luck: Luck, m: nat)
    requires d.Bounded() && Possible(d, p, proc, luck) && ProcOk(d, proc)
    requires Carries(StepOf(d, p, proc, luck).1, m)
    ensures var e := StepOf(d, p, proc, luck).0;
            if !proc.pc.Copy? then
              Carries(proc.pc, m) && e.accepted == d.accepted && e.delivered == d.delivered
            else if proc.request.Writing? then
              && m == Min(|proc.request.data|, Writable(|d.cells|, d.rp, d.wp))
              && e.accepted == d.accepted + proc.request.data[..m] && e.delivered == d.delivered
              && (0 < |proc.request.data| ==> 0 < m)
            else
              && m == Min(proc.request.count, Readable(|d.cells|, d.rp, d.wp))
              && e.delivered == d.delivered + d.Ring().Stored()[..m] && e.accepted == d.accepted
              && (0 < proc.request.count ==> 0 < m)
  {
    if proc.pc.Copy? && proc.request.Reading? {
      ReaderCounts(d, p, proc);
    } else if proc.pc.Copy? {
      WriterCounts(d, p, proc);
    } else {
      OthersPassCountsOn(d, p, proc, luck, m);
    }
  }

  /** The bytes by which a history has grown. */
  function Grown(before: seq<byte>, after: seq<byte>): seq<byte> {
    if |before| <= |after| then after[|before|..] else []
  }

  /** What the latest call of `p` has moved after an action: whatever its own steps have added to the history. */
  function MovedThen(s: State, a: Action, p: Pid, moved: seq<byte>): seq<byte>
    requires Enabled(s, a)
  {
    if a.p != p then
      moved
    else if a.Call? then
      []
    else if s.procs[p].request.Writing? then
      moved + Grown(s.dev.accepted, Do(s, a).dev.accepted)
    else
      moved + Grown(s.dev.delivered, Do(s, a).dev.delivered)
  }

  function Moved(s: State, script: seq<Action>, p: Pid, moved: seq<byte>): seq<byte>
    requires Runs(s, script)
    decreases |script|
  {
    if script == [] then moved else Moved(Do(s, script[0]), script[1..], p, MovedThen(s, script[0], p, moved))
  }

  /** The count a call is going to report, or has reported. */
  function Reported(pc: Pc): nat {
    match pc
    case Adjust(m) => m
    case Up(m) => m
    case Wake(m) => m
    case Returned(Count(m)) => m
    case _ => 0
  }

  /** The call has moved as many bytes as it says, and of a write the first ones of its data. */
  predicate Honest(proc: Proc, moved: seq<byte>) {
    && |moved| == Reported(proc.pc)
    && match proc.request
       case Writing(data) => moved <= data && (Carries(proc.pc, 0) ==> data == [])
       case Reading(count) => |moved| <= count && (Carries(proc.pc, 0) ==> count == 0)
  }

  /** Only a copy that succeeds adds to the histories or changes what will be reported. */
  lemma OtherStepsMoveNothing(d: Device, p: Pid, proc: Proc, luck: Luck)
    requires d.Bounded() && Possible(d, p, proc, luck) && (proc.pc.Copy? ==> luck.BadAddress?)
    ensures var (e, pc) := StepOf(d, p, proc, luck);
            && e.accepted == d.accepted && e.delivered == d.delivered
            && Reported(pc) == Reported(proc.pc) && (Carries(pc, 0) ==> Carries(proc.pc, 0))
  {
  }

  lemma CopyIsHonest(d: Device, p: Pid, proc: Proc, moved: seq<byte>)
    requires d.Bounded() && ProcOk(d, proc) && proc.pc.Copy? && Possible(d, p, proc, Plain) && moved == []
    ensures var (e, pc) := StepOf(d, p, proc, Plain);
            Honest(proc.(pc := pc), if proc.request.Writing? then moved + Grown(d.accepted, e.accepted)
                                    else moved + Grown(d.delivered, e.delivered))
  {
    CountsAreHonest(d, p, proc, Plain, Reported(StepOf(d, p, proc, Plain).1));
  }

  lemma StepIsHonest(s: State, a: Action, p: Pid, moved: seq<byte>)
    requires Enabled(s, a) && RingOk(s) && p in Do(s, a).procs
    requires p in s.procs ==> Honest(s.procs[p], moved)
    ensures Honest(Do(s, a).procs[p], MovedThen(s, a, p, moved))
  {
    if a.Step? && a.p == p {
      var d, proc := s.dev, s.procs[p];
      if proc.pc.Copy? && !a.luck.BadAddress? {
        CopyIsHonest(d, p, proc, moved);
      } else {
        OtherStepsMoveNothing(d, p, proc, a.luck);
      }
    }
  }

  lemma {:induction false} RunIsHonest(s: State, script: seq<Action>, p: Pid, moved: seq<byte>)
    requires Inv(s) && Runs(s, script) && p in After(s, script).procs
    requires p in s.procs ==> Honest(s.procs[p], moved)
    ensures Honest(After(s, script).procs[p], Moved(s, script, p, moved))
    decreases |script|
  {
    if script != [] {
      var t := Do(s, script[0]);
      StepKeepsInv(s, script[0]);
      if p in t.procs {
        StepIsHonest(s, script[0], p, moved);
      }
      RunIsHonest(t, script[1..], p, MovedThen(s, script[0], p, moved));
    }
  }

  /**
   In every run, a call that returned a count has moved just that many bytes since it was made, and not
   none unless none were asked for; a call that returned an error has moved nothing.
   */
  lemma CountsOverRuns(s: State, script: seq<Action>, p: Pid)
    requires Initial(s) && Runs(s, script)
    requires p in After(s, script).procs && After(s, script).procs[p].pc.Returned?
    ensures var proc, moved := After(s, script).procs[p], Moved(s, script, p, []);
            match proc.pc.result
            case Error(_) => moved == []
            case Count(n) =>
              && |moved| == n
              && match proc.request
                 case Writing(data) => n <= |data| && moved == data[..n] && (n == 0 ==> data == [])
                 case Reading(count) => n <= count && (n == 0 ==> count == 0)
  {
    RunIsHonest(s, script, p, []);
  }

  // ---------------------------------------------------------------- errors

  /**
   What was asked for, and what has happened to the call: a signal, a faulting copy, and, whenever it looked with the semaphore
   held, whether that was in vain because the ring had no data, or no space, for it.
   */
  datatype Past = Past(request: Request, nonblocking: bool, signalled: bool, faulted: bool, vain: bool)

  const NEW := Past(Reading(0), false, false, false, false)

  /** Is there nothing for the process to transfer? */
  predicate InVain(d: Device, proc: Proc)
    requires d.Bounded()
  {
    if proc.request.Reading? then d.Ring().Stored() == [] else |d.Ring().Stored()| == |d.cells| - 1
  }

  function Later(s: State, a: Action, p: Pid, past: Past): Past
    requires Enabled(s, a)
  {
    if a.p != p then past
    else if a.Call? then Past(a.request, a.nonblocking, false, false, false)
    else match a.luck
      case Signal => past.(signalled := true)
      case BadAddress(_) => past.(faulted := true)
      case Plain => if s.procs[p].pc.Test? then past.(vain := InVain(s.dev, s.procs[p])) else past
  }

  function PastOf(s: State, script: seq<Action>, p: Pid, past: Past): Past
    requires Runs(s, script)
    decreases |script|
  {
    if script == [] then past else PastOf(Do(s, script[0]), script[1..], p, Later(s, script[0], p, past))
  }

  /** The process is in the code that waits for the other side. */
  predicate Waiting(pc: Pc) {
    pc.Event? || pc.EventRest? || pc.Prepare? || pc.Check? || pc.CheckRest? || pc.Reload? || pc.ReloadRest?
    || pc.Sched? || pc.Finish?
  }

  /** Who gets which error, and that a call which does not block goes nowhere else once it has looked in vain. */
  predicate Fair(proc: Proc, past: Past) {
    && proc.request == past.request && proc.nonblocking == past.nonblocking
    && (Waiting(proc.pc) ==> !proc.nonblocking && past.vain)
    && (proc.pc.UpAndWait? ==> past.vain)
    && (proc.pc.Copy? || proc.pc.Fault? || proc.Owes() || (proc.pc.Returned? && proc.pc.result.Count?) ==> !past.vain)
    && (past.vain && proc.nonblocking ==> proc.pc.UpAndWait? || proc.pc == Returned(Error(EAGAIN)))
    && (past.faulted <==> proc.pc.Fault? || proc.pc == Returned(Error(EFAULT)))
    && (proc.pc.Returned? && proc.pc.result.Error? ==>
          match proc.pc.result.errno
          case EAGAIN => proc.nonblocking && past.vain
          case EFAULT => past.faulted
          case ERESTARTSYS => past.signalled
          case _ => false)
  }

  lemma OwnStepIsFair(d: Device, p: Pid, proc: Proc, luck: Luck, past: Past)
    requires d.Bounded() && Possible(d, p, proc, luck) && ProcOk(d, proc) && Fair(proc, past)
    ensures var s := State(d, map[p := proc]);
            Fair(proc.(pc := StepOf(d, p, proc, luck).1), Later(s, Step(p, luck), p, past))
  {
    if proc.pc.Test? {
      TestIsExact(d, p, proc);
    }
  }

  lemma {:induction false} RunIsFair(s: State, script: seq<Action>, p: Pid, past: Past)
    requires Inv(s) && Runs(s, script) && p in After(s, script).procs
    requires p in s.procs ==> Fair(s.procs[p], past)
    ensures Fair(After(s, script).procs[p], PastOf(s, script, p, past))
    decreases |script|
  {
    if script != [] {
      var a := script[0];
      StepKeepsInv(s, a);
      if a.p == p && a.Step? {
        OwnStepIsFair(s.dev, p, s.procs[p], a.luck, past);
      }
      RunIsFair(Do(s, a), script[1..], p, Later(s, a, p, past));
    }
  }

  /**
   In every run: a call that does not block never waits, and returns EAGAIN exactly if it found no data,
   or no space, under the semaphore; one that blocks never returns it.  EFAULT is returned exactly after
   a faulting copy, ERESTARTSYS only after a signal, and nothing but these.
   */
  lemma ErrorsOverRuns(s: State, script: seq<Action>, p: Pid)
    requires Initial(s) && Runs(s, script) && p in After(s, script).procs
    ensures var proc, past := After(s, script).procs[p], PastOf(s, script, p, NEW);
            && proc.request == past.request && proc.nonblocking == past.nonblocking
            && (past.nonblocking ==> !Waiting(proc.pc))
            && match proc.pc
               case Returned(Count(_)) => !past.vain && !past.faulted
               case Returned(Error(e)) =>
                 && (e == EAGAIN <==> past.nonblocking && past.vain) && (e == EFAULT <==> past.faulted)
                 && (e != EAGAIN && e != EFAULT ==> e == ERESTARTSYS && past.signalled)
               case _ => true
  {
    RunIsFair(s, script, p, NEW);
  }

  /** A copy may fault wherever one is made, and then the call gives the semaphore back and moves no pointer. */
  lemma FaultEnds(d: Device, p: Pid, proc: Proc, junk: seq<byte>)
    requires d.Bounded() && proc.pc.Copy?
    requires proc.request.Writing? ==> |junk| <= WriteCount(|d.cells|, d.rp, d.wp, |proc.request.data|)
    ensures Possible(d, p, proc, BadAddress(junk))
    ensures var (e, pc) := StepOf(d, p, proc, BadAddress(junk));
            && e.Bounded() && Possible(e, p, proc.(pc := pc), Plain)
            && StepOf(e, p, proc.(pc := pc), Plain) == (d.(cells := e.cells, sem := d.sem + 1), Returned(Error(EFAULT)))
  {
  }

  // ---------------------------------------------------------------- waiting

  /** One process on its own, for up to `n` steps. */
  ghost function Solo(s: State, p: Pid, n: nat): State
    decreases n
  {
    if n == 0 || !Enabled(s, Step(p, Plain)) then s else Solo(Do(s, Step(p, Plain)), p, n - 1)
  }

  lemma {:induction false} SoloMore(s: State, p: Pid, n: nat)
    ensures Solo(s, p, n + 1) == Solo(Solo(s, p, n), p, 1)
    decreases n
  {
    if n > 0 && Enabled(s, Step(p, Plain)) {
      SoloMore(Do(s, Step(p, Plain)), p, n - 1);
    }
  }

  /** After `n` steps the process is there, and only the device has changed besides. */
  ghost predicate GetsTo(s: State, p: Pid, n: nat, d: Device, pc: Pc) {
    p in s.procs && Solo(s, p, n) == State(d, s.procs[p := s.procs[p].(pc := pc)])
  }

  lemma OneStepOn(s: State, p: Pid, n: nat, d: Device, pc: Pc)
    requires GetsTo(s, p, n, d, pc) && d.Bounded() && Possible(d, p, s.procs[p].(pc := pc), Plain)
    ensures var (e, next) := StepOf(d, p, s.procs[p].(pc := pc), Plain); GetsTo(s, p, n + 1, e, next)
  {
    SoloMore(s, p, n);
    var t := Solo(s, p, n);
    assert Solo(Do(t, Step(p, Plain)), p, 0) == Do(t, Step(p, Plain));
  }

  /** The semaphore is free, so nobody is in between moving a pointer and wrapping it. */
  ghost predicate Settled(d: Device) {
    d.Bounded() && d.rp < |d.cells| && d.wp < |d.cells|
  }

  /** Left alone, a reader that waits tries again exactly if there is data, and else falls asleep queued. */
  lemma ReaderWaits(s: State, p: Pid)
    requires Settled(s.dev) && p in s.procs && s.procs[p].request.Reading? && s.procs[p].pc.Event?
    ensures exists n :: if s.dev.Ring().Stored() != [] then GetsTo(s, p, n, s.dev, Down)
                        else GetsTo(s, p, n, s.dev.(inq := s.dev.inq + {p}), Sched)
  {
    var d := s.dev;
    assert s.procs[p := s.procs[p]] == s.procs;
    OneStepOn(s, p, 0, d, Event);
    OneStepOn(s, p, 1, d, EventRest(d.rp));
    if d.rp == d.wp {
      OneStepOn(s, p, 2, d, Prepare);
      ReaderLooks(s, p, 3, d.(inq := d.inq + {p}));
    }
  }

  lemma ReaderLooks(s: State, p: Pid, n: nat, d: Device)
    requires Settled(d) && p in s.procs && s.procs[p].request.Reading? && GetsTo(s, p, n, d, Check)
    ensures if d.rp == d.wp then GetsTo(s, p, n + 2, d, Sched)
            else GetsTo(s, p, n + 3, d.(inq := d.inq - {p}), Down)
  {
    OneStepOn(s, p, n, d, Check);
    OneStepOn(s, p, n + 1, d, CheckRest(d.rp));
    if d.rp != d.wp {
      OneStepOn(s, p, n + 2, d, Finish);
    }
  }

  /** One that has been woken looks again, and goes back to sleep if others have taken the data. */
  lemma ReaderWakes(s: State, p: Pid)
    requires Settled(s.dev) && p in s.procs && s.procs[p].request.Reading? && s.procs[p].pc.Sched? && p !in s.dev.inq
    ensures exists n :: if s.dev.Ring().Stored() != [] then GetsTo(s, p, n, s.dev, Down)
                        else GetsTo(s, p, n, s.dev.(inq := s.dev.inq + {p}), Sched)
  {
    var d := s.dev;
    var e := d.(inq := d.inq + {p});
    assert s.procs[p := s.procs[p]] == s.procs;
    OneStepOn(s, p, 0, d, Sched);
    OneStepOn(s, p, 1, d, Prepare);
    ReaderLooks(s, p, 2, e);
    assert e.(inq := e.inq - {p}) == d;
  }

  /** Left alone, a writer that waits tries again exactly if there is space, and else falls asleep queued. */
  lemma WriterWaits(s: State, p: Pid)
    requires Settled(s.dev) && p in s.procs && s.procs[p].request.Writing? && s.procs[p].pc.Event?
    ensures exists n :: if |s.dev.Ring().Stored()| < |s.dev.cells| - 1
                        then GetsTo(s, p, n, s.dev.(outq := s.dev.outq - {p}), Down)
                        else GetsTo(s, p, n, s.dev.(outq := s.dev.outq + {p}), Sched)
  {
    var d, m := s.dev, |s.dev.cells|;
    var e := d.(outq := d.outq + {p});
    assert s.procs[p := s.procs[p]] == s.procs;
    SpaceFreeIsExact(m, d.rp, d.wp);
    OneStepOn(s, p, 0, d, Event);
    OneStepOn(s, p, 1, d, Prepare);
    OneStepOn(s, p, 2, e, Check);
    OneStepOn(s, p, 3, e, CheckRest(d.rp));
    var n := 4;
    if d.rp != d.wp {
      if d.reload {
        OneStepOn(s, p, 4, e, Reload);
        n := 5;
      }
      OneStepOn(s, p, n, e, ReloadRest(d.rp));
      n := n + 1;
    }
    if |d.Ring().Stored()| < m - 1 {
      OneStepOn(s, p, n, e, Finish);
      assert e.(outq := e.outq - {p}) == d.(outq := d.outq - {p});
    }
  }

  /** One that has been woken does not look, but tries again. */
  lemma WriterWakes(s: State, p: Pid)
    requires Settled(s.dev) && p in s.procs && s.procs[p].request.Writing? && s.procs[p].pc.Sched? && p !in s.dev.outq
    ensures GetsTo(s, p, 2, s.dev, Down)
  {
    assert s.procs[p := s.procs[p]] == s.procs;
    OneStepOn(s, p, 0, s.dev, Sched);
    OneStepOn(s, p, 1, s.dev, Finish);
    assert s.dev.(outq := s.dev.outq - {p}) == s.dev;
  }

  // ---------------------------------------------------------------- deadlock

  /** Somebody is inside a call, and nobody can move without a signal or a new call. */
  ghost predicate Stuck(s: State) {
    && (exists p :: p in s.procs && s.procs[p].Live())
    && forall p :: p in s.procs ==> !CanMove(s.dev, p, s.procs[p])
  }

  ghost predicate AsleepOn(s: State, p: Pid, reader: bool) {
    && p in s.procs && s.procs[p].pc.Sched? && s.procs[p].request.Reading? == reader
    && (if reader then p in s.dev.inq else p in s.dev.outq)
  }

  /** Readers and writers asleep together, each waiting for the other. */
  ghost predicate Deadlocked(s: State) {
    && Stuck(s)
    && (exists r :: AsleepOn(s, r, true))
    && (exists w :: AsleepOn(s, w, false))
  }

  /** When nothing moves, the semaphore is free and all live calls sleep for a reason: no data, or no space. */
  lemma WhoIsStuck(s: State)
    requires Inv(s) && Stuck(s)
    ensures s.dev.sem == 1
    ensures forall p :: p in s.procs && s.procs[p].Live() ==> AsleepOn(s, p, s.procs[p].request.Reading?)
    ensures (exists p :: AsleepOn(s, p, true)) ==> s.dev.Empty()
    ensures (exists p :: AsleepOn(s, p, false)) ==> s.dev.Full()
  {
  }

  lemma {:induction false} RunsThen(s: State, script: seq<Action>, a: Action)
    requires Runs(s, script) && Enabled(After(s, script), a)
    ensures Runs(s, script + [a]) && After(s, script + [a]) == Do(After(s, script), a)
    decreases |script|
  {
    if script == [] {
      assert script + [a] == [a];
      assert [a][1..] == [];
    } else {
      RunsThen(Do(s, script[0]), script[1..], a);
      assert (script + [a])[1..] == script[1..] + [a];
    }
  }

  /** `n` plain steps of one process. */
  lemma {:induction false} StepsThen(s: State, script: seq<Action>, p: Pid, steps: seq<State>) returns (longer: seq<Action>)
    requires Runs(s, script) && 0 < |steps| && After(s, script) == steps[0]
    requires forall i :: 0 <= i < |steps| - 1 ==>
               Enabled(steps[i], Step(p, Plain)) && Do(steps[i], Step(p, Plain)) == steps[i + 1]
    ensures Runs(s, longer) && After(s, longer) == steps[|steps| - 1]
    decreases |steps|
  {
    longer := script;
    if |steps| > 1 {
      RunsThen(s, script, Step(p, Plain));
      longer := StepsThen(s, script + [Step(p, Plain)], p, steps[1..]);
    }
  }

  /** A read on an empty idle pipe finds nothing and is about to wait. */
  lemma ReaderFindsNothing(s: State, script: seq<Action>, p: Pid) returns (longer: seq<Action>)
    requires Runs(s, script)
    requires var t := After(s, script); t.dev.Bounded() && t.dev.sem == 1 && t.dev.rp == t.dev.wp && p !in t.procs
    ensures var t := After(s, script);
            Runs(s, longer) && After(s, longer) == State(t.dev, t.procs[p := Proc(Reading(1), false, Event)])
  {
    var t := After(s, script);
    var proc, taken := Proc(Reading(1), false, Down), t.dev.(sem := 0);
    RunsThen(s, script, Call(p, proc.request, false));
    longer := StepsThen(s, script + [Call(p, proc.request, false)], p, [
      State(t.dev, t.procs[p := proc]), State(taken, t.procs[p := proc.(pc := Test)]),
      State(taken, t.procs[p := proc.(pc := UpAndWait)]), State(t.dev, t.procs[p := proc.(pc := Event)])]);
  }

  /** And then falls asleep. */
  lemma ReaderFallsAsleep(s: State, script: seq<Action>, p: Pid) returns (longer: seq<Action>)
    requires Runs(s, script)
    requires var t := After(s, script); t.dev.Bounded() && t.dev.sem == 1 && t.dev.rp == t.dev.wp && p !in t.procs
    ensures var t := After(s, script);
            && Runs(s, longer)
            && After(s, longer) == State(t.dev.(inq := t.dev.inq + {p}), t.procs[p := Proc(Reading(1), false, Sched)])
  {
    var t := After(s, script);
    var proc, idle, queued := Proc(Reading(1), false, Event), t.dev, t.dev.(inq := t.dev.inq + {p});
    longer := ReaderFindsNothing(s, script, p);
    longer := StepsThen(s, longer, p, [
      State(idle, t.procs[p := proc]), State(idle, t.procs[p := proc.(pc := EventRest(t.dev.rp))]),
      State(idle, t.procs[p := proc.(pc := Prepare)]), State(queued, t.procs[p := proc.(pc := Check)]),
      State(queued, t.procs[p := proc.(pc := CheckRest(t.dev.rp))]), State(queued, t.procs[p := proc.(pc := Sched)])]);
  }

  /** A write on an idle pipe without space queues up, and has not looked again yet. */
  lemma WriterQueues(s: State, script: seq<Action>, p: Pid) returns (longer: seq<Action>)
    requires Runs(s, script)
    requires var t := After(s, script); t.dev.Bounded() && t.dev.sem == 1 && t.dev.Space() == 0 && p !in t.procs
    ensures var t := After(s, script);
            && Runs(s, longer)
            && After(s, longer) == State(t.dev.(outq := t.dev.outq + {p}), t.procs[p := Proc(Writing([0]), false, Check)])
  {
    var t := After(s, script);
    var proc, idle, taken, queued :=
      Proc(Writing([0]), false, Down), t.dev, t.dev.(sem := 0), t.dev.(outq := t.dev.outq + {p});
    RunsThen(s, script, Call(p, proc.request, false));
    longer := StepsThen(s, script + [Call(p, proc.request, false)], p, [
      State(idle, t.procs[p := proc]), State(taken, t.procs[p := proc.(pc := Test)]),
      State(taken, t.procs[p := proc.(pc := UpAndWait)]), State(idle, t.procs[p := proc.(pc := Event)]),
      State(idle, t.procs[p := proc.(pc := Prepare)]), State(queued, t.procs[p := proc.(pc := Check)])]);
  }

  /** A write on an idle pipe of one byte falls asleep. */
  lemma WriterFallsAsleep(s: State, script: seq<Action>, p: Pid) returns (longer: seq<Action>)
    requires Runs(s, script)
    requires var t := After(s, script);
             && t.dev.Bounded() && t.dev.sem == 1 && |t.dev.cells| == 1 && t.dev.rp == t.dev.wp && p !in t.procs
    ensures var t := After(s, script);
            && Runs(s, longer)
            && After(s, longer) == State(t.dev.(outq := t.dev.outq + {p}), t.procs[p := Proc(Writing([0]), false, Sched)])
  {
    var t := After(s, script);
    var queued, proc := t.dev.(outq := t.dev.outq + {p}), Proc(Writing([0]), false, Check);
    longer := WriterQueues(s, script, p);
    longer := StepsThen(s, longer, p, [
      State(queued, t.procs[p := proc]), State(queued, t.procs[p := proc.(pc := CheckRest(t.dev.rp))]),
      State(queued, t.procs[p := proc.(pc := Sched)])]);
  }

  /** With one byte of buffer, which is never usable, a reader and a writer block each other for good. */
  lemma OneByteDeadlocks(s: State) returns (script: seq<Action>)
    requires Initial(s) && |s.dev.cells| == 1
    ensures Runs(s, script) && Deadlocked(After(s, script))
  {
    script := ReaderFallsAsleep(s, [], 0);
    script := WriterFallsAsleep(s, script, 1);
    var t := After(s, script);
    assert AsleepOn(t, 0, true) && AsleepOn(t, 1, false);
  }

  /** With two bytes or more, no run ever gets there. */
  lemma TwoBytesNeverDeadlock(s: State, script: seq<Action>)
    requires Initial(s) && 2 <= |s.dev.cells| && Runs(s, script)
    ensures !Deadlocked(After(s, script))
  {
    RunKeepsInv(s, script);
    var t := After(s, script);
    if Stuck(t) {
      WhoIsStuck(t);
    }
  }

  ghost predicate LeadsToDeadlock(s: State, script: seq<Action>) {
    Runs(s, script) && Deadlocked(After(s, script))
  }

  /** Some run deadlocks exactly when the buffer holds a single byte. */
  lemma DeadlockExactlyWithOneByte(s: State)
    requires Initial(s)
    ensures (exists script :: LeadsToDeadlock(s, script)) <==> |s.dev.cells| == 1
  {
    if |s.dev.cells| == 1 {
      var script := OneByteDeadlocks(s);
      assert LeadsToDeadlock(s, script);
    } else {
      forall script | Runs(s, script)
        ensures !LeadsToDeadlock(s, script)
      {
        TwoBytesNeverDeadlock(s, script);
      }
    }
  }
}
