/**
 The output half of the shortprint driver: any number of writers, serialised by a semaphore, feed
 a page-sized ring; a workqueue function drains it to the printer one byte at a time under a spin
 lock the writers' space computation ignores; interrupts and a timer requeue the work.

 The space computation names the consumer's pointer twice.  Whether the compiled code loads it once
 or twice is not fixed by the language, so `reload` is a parameter of the model.
 */
module ShortPrint {
  import opened Ring

  type Pid = nat

  datatype Result = Count(n: nat) | Fault | Interrupted

  /** Which evaluation of the space computation is under way. */
  datatype Ctx = First | Unqueued | Queued

  datatype Pc =
    | Down                             // about to take the writers' semaphore
    | Loop                             // the head of the write loop
    | Eval(ctx: Ctx)                   // about to compute the space
    | Eval2(ctx: Ctx, ahead: bool)     // has compared the pointers, about to load the tail again
    | Prepare                          // about to join the wait queue
    | Sched                            // asleep until woken
    | Copy(space: nat)                 // about to copy into the ring
    | BadCopy                          // the copy faulted
    | Advance(copied: nat)             // copied, about to move the head
    | Start                            // head moved, about to make output active
    | Leave                            // about to release the semaphore
    | Returned(result: Result)

  datatype Writer = Writer(data: seq<byte>, written: nat, pc: Pc) {
    predicate Holds() {
      !pc.Down? && !pc.Returned?
    }
  }

  datatype WorkerPc =
    | Idle | WaitReady                 // outside the lock
    | Test | Drained | Strobe | StepTail | Threshold | Unlock

  /** The ring, and everything handed to the printer so far. */
  datatype Output = Output(cells: seq<byte>, head: nat, tail: nat, printed: seq<byte>) {
    ghost predicate Bounded() {
      head < |cells| && tail < |cells|
    }

    function Stored(): seq<byte>
      requires Bounded()
    {
      Content(cells, tail, head)
    }

    /** What was handed to the printer and what is still to be, in order; `mid` says the oldest byte is both. */
    function Stream(mid: bool): seq<byte>
      requires Bounded()
    {
      printed + (if mid && Stored() != [] then Stored()[1..] else Stored())
    }
  }

  /** The workqueue, the spin lock, and the sources of further work. */
  datatype Control = Control(
    active: bool, locked: bool, pending: bool, worker: WorkerPc,
    timer: bool, fired: nat, checked: nat, expired: nat, queuers: nat)

  /** All shared state; `log` has the accepted part of every finished write. */
  datatype Port = Port(reload: bool, sem: nat, outq: set<Pid>, log: seq<seq<byte>>, out: Output, ctl: Control) {
    ghost predicate Bounded() {
      out.Bounded()
    }

    function Stream(): seq<byte>
      requires Bounded()
    {
      out.Stream(ctl.worker.StepTail?)
    }
  }

  datatype State = State(port: Port, procs: map<Pid, Writer>)

  datatype Luck = Plain | Signal | BadAddress(junk: seq<byte>)

  datatype Action =
    | Call(p: Pid, data: seq<byte>)
    | Step(p: Pid, luck: Luck)
    | Work                             // next step of the workqueue function
    | Interrupt                        // the printer interrupts and the handler sees output active
    | Enqueue                          // an interrupt handler queues the work
    | TimerFires
    | TimerChecks                      // the timeout handler looks at the active flag
    | TimerLocks(busy: bool)           // the timeout handler looks at the printer, under the lock
    | TimerInterrupts                  // the timeout handler calls the interrupt handler

  /** The space computation once the pointers have been compared, `ahead` being the outcome. */
  function SpaceGiven(n: nat, head: nat, tail: nat, ahead: bool): int {
    if ahead then
      var space := n - head;
      if tail == 0 then space - 1 else space
    else
      tail - head - 1
  }

  /** The whole computation with a single load of the tail. */
  function OutSpace(n: nat, head: nat, tail: nat): int {
    SpaceGiven(n, head, tail, head >= tail)
  }

  function IncrBp(n: nat, bp: nat, incr: nat): (y: nat) {
    if bp + incr >= n then bp + incr - n else bp + incr
  }

  /** The quantity compared with the wake-up threshold. */
  function Room(n: nat, head: nat, tail: nat): int
    requires 0 < n
  {
    (n + tail - head) % n
  }

  function Concat(log: seq<seq<byte>>): seq<byte> {
    if log == [] then [] else Concat(log[..|log| - 1]) + log[|log| - 1]
  }

  predicate CanMove(t: Port, p: Pid, w: Writer) {
    match w.pc
    case Down => t.sem > 0
    case Sched => p !in t.outq
    case Start => !t.ctl.locked
    case Returned(_) => false
    case _ => true
  }

  ghost predicate Possible(t: Port, p: Pid, w: Writer, luck: Luck)
    requires InRange(t, w)
  {
    match luck
    case Plain => CanMove(t, p, w)
    case Signal => w.pc.Down? || w.pc.Sched? || w.pc == Eval(Queued) || (w.pc.Eval2? && w.pc.ctx.Queued?)
    case BadAddress(junk) => w.pc.Copy? && |junk| <= CopyCount(w)
  }

  /** Every buffer access is in bounds; this holds in every reachable state, see `RunKeepsInv`. */
  ghost predicate InRange(t: Port, w: Writer) {
    && t.Bounded() && w.written <= |w.data|
    && (w.pc.Copy? ==> t.out.head + w.pc.space <= |t.out.cells|)
    && (w.pc.Advance? ==> t.out.head + w.pc.copied <= |t.out.cells| && w.written + w.pc.copied <= |w.data|)
  }

  /** How much of the space a writer uses. */
  function CopyCount(w: Writer): nat
    requires w.pc.Copy? && w.written <= |w.data|
  {
    if w.pc.space + w.written > |w.data| then |w.data| - w.written else w.pc.space
  }

  /** Where a computed space leads to; leaving the wait includes leaving its queue. */
  function Settle(t: Port, p: Pid, w: Writer, ctx: Ctx, space: int, signal: bool): (Port, Writer) {
    if space > 0 then
      (t.(outq := t.outq - {p}), w.(pc := Copy(space)))
    else match ctx
      case First => (t, w.(pc := Eval(Unqueued)))
      case Unqueued => (t, w.(pc := Prepare))
      case Queued => if signal then (t.(outq := t.outq - {p}), w.(pc := Leave)) else (t, w.(pc := Sched))
  }

  /** One step of a writer. */
  function WriterStep(t: Port, p: Pid, w: Writer, luck: Luck): (Port, Writer)
    requires InRange(t, w) && Possible(t, p, w, luck)
  {
    var out := t.out;
    match w.pc
    case Down =>
      if luck.Signal? then (t, w.(pc := Returned(Interrupted))) else (t.(sem := t.sem - 1), w.(pc := Loop))
    case Loop => (t, w.(pc := if w.written < |w.data| then Eval(First) else Leave))
    case Eval(ctx) =>
      if t.reload then
        (t, w.(pc := Eval2(ctx, out.head >= out.tail)))
      else
        Settle(t, p, w, ctx, OutSpace(|out.cells|, out.head, out.tail), luck.Signal?)
    case Eval2(ctx, ahead) => Settle(t, p, w, ctx, SpaceGiven(|out.cells|, out.head, out.tail, ahead), luck.Signal?)
    case Prepare => (t.(outq := t.outq + {p}), w.(pc := Eval(Queued)))
    case Sched => (t, w.(pc := Prepare))
    case Copy(_) =>
      if luck.BadAddress? then
        (t.(out := StoreAtHead(out, luck.junk)), w.(pc := BadCopy))
      else
        var k := CopyCount(w);
        (t.(out := StoreAtHead(out, w.data[w.written..w.written + k])), w.(pc := Advance(k)))
    case BadCopy => (t.(sem := t.sem + 1, log := t.log + [w.data[..w.written]]), w.(pc := Returned(Fault)))
    case Advance(k) => (t.(out := MoveHead(out, k)), w.(written := w.written + k, pc := Start))
    case Start =>
      (if t.ctl.active then t else t.(ctl := t.ctl.(active := true, timer := true, pending := true)), w.(pc := Loop))
    case Leave => (t.(sem := t.sem + 1, log := t.log + [w.data[..w.written]]), w.(pc := Returned(Count(w.written))))
    case Returned(_) => (t, w)
  }

  function StoreAtHead(out: Output, data: seq<byte>): Output
    requires out.Bounded() && out.head + |data| <= |out.cells|
  {
    out.(cells := Splice(out.cells, out.head, data))
  }

  function MoveHead(out: Output, k: nat): Output
    requires out.Bounded() && out.head + k <= |out.cells|
  {
    out.(head := IncrBp(|out.cells|, out.head, k))
  }

  predicate WorkerCanMove(c: Control) {
    match c.worker
    case Idle => c.pending
    case WaitReady => !c.locked
    case _ => true
  }

  /** One step of the workqueue function, as seen by the ring and the printer. */
  function WorkerOutput(out: Output, worker: WorkerPc): Output
    requires out.Bounded()
  {
    match worker
    case Strobe => out.(printed := out.printed + [out.cells[out.tail]])
    case StepTail => out.(tail := IncrBp(|out.cells|, out.tail, 1))
    case _ => out
  }

  /** The same step, as seen by the flags. */
  function WorkerControl(out: Output, c: Control): Control {
    match c.worker
    case Idle => c.(pending := false, worker := WaitReady)
    case WaitReady => c.(locked := true, worker := Test)
    case Test => c.(worker := if out.head == out.tail then Drained else Strobe)
    case Drained => c.(active := false, timer := false, worker := Threshold)
    case Strobe => c.(timer := true, worker := StepTail)
    case StepTail => c.(worker := Threshold)
    case Threshold => c.(worker := Unlock)
    case Unlock => c.(locked := false, worker := Idle)
  }

  /** The same step, as seen by sleeping writers. */
  predicate WorkerWakes(out: Output, worker: WorkerPc)
    requires out.Bounded()
  {
    worker.Threshold? && Room(|out.cells|, out.head, out.tail) > |out.cells| / 2
  }

  function WorkerStep(t: Port): Port
    requires t.Bounded()
  {
    t.(out := WorkerOutput(t.out, t.ctl.worker), ctl := WorkerControl(t.out, t.ctl),
       outq := if WorkerWakes(t.out, t.ctl.worker) then {} else t.outq)
  }

  /** Interrupt and timer handlers; they only touch the flags. */
  ghost predicate HandlerEnabled(c: Control, a: Action) {
    match a
    case Interrupt => c.active
    case Enqueue => c.queuers > 0
    case TimerFires => c.timer
    case TimerChecks => c.fired > 0
    case TimerLocks(_) => c.checked > 0 && !c.locked
    case TimerInterrupts => c.expired > 0
    case _ => false
  }

  function HandlerStep(c: Control, a: Action): Control
    requires HandlerEnabled(c, a)
  {
    match a
    case Interrupt => c.(queuers := c.queuers + 1)
    case Enqueue => c.(queuers := c.queuers - 1, pending := true)
    case TimerFires => c.(timer := false, fired := c.fired + 1)
    case TimerChecks => c.(fired := c.fired - 1, checked := c.checked + (if c.active then 1 else 0))
    case TimerLocks(busy) =>
      if busy then c.(checked := c.checked - 1, timer := true)
      else c.(checked := c.checked - 1, expired := c.expired + 1)
    case TimerInterrupts => c.(expired := c.expired - 1, queuers := c.queuers + (if c.active then 1 else 0))
  }

  ghost predicate Enabled(s: State, a: Action) {
    && s.port.Bounded()
    && match a
       case Call(p, _) => p in s.procs ==> s.procs[p].pc.Returned?
       case Step(p, luck) => p in s.procs && InRange(s.port, s.procs[p]) && Possible(s.port, p, s.procs[p], luck)
       case Work => WorkerCanMove(s.port.ctl)
       case _ => HandlerEnabled(s.port.ctl, a)
  }

  function Do(s: State, a: Action): State
    requires Enabled(s, a)
  {
    match a
    case Call(p, data) => s.(procs := s.procs[p := Writer(data, 0, Down)])
    case Step(p, luck) =>
      var (t, w) := WriterStep(s.port, p, s.procs[p], luck);
      State(t, s.procs[p := w])
    case Work => s.(port := WorkerStep(s.port))
    case _ => s.(port := s.port.(ctl := HandlerStep(s.port.ctl, a)))
  }

  /** The driver just initialised, nobody writing. */
  ghost predicate Initial(s: State) {
    var t := s.port;
    && 0 < |t.out.cells| && t.out.head == t.out.tail == 0 && t.out.printed == []
    && t.sem == 1 && t.outq == {} && t.log == [] && s.procs == map[]
    && t.ctl == Control(false, false, false, Idle, false, 0, 0, 0, 0)
  }

  ghost predicate Runs(s: State, script: seq<Action>)
    decreases |script|
  {
    script == [] || (Enabled(s, script[0]) && Runs(Do(s, script[0]), script[1..]))
  }

  function After(s: State, script: seq<Action>): State
    requires Runs(s, script)
    decreases |script|
  {
    if script == [] then s else After(Do(s, script[0]), script[1..])
  }

  // ---------------------------------------------------------------- the invariant

  ghost predicate IsHolder(s: State, h: Pid) {
    && h in s.procs && s.procs[h].Holds()
    && forall p :: p in s.procs && s.procs[p].Holds() ==> p == h
  }

  ghost predicate Exclusive(s: State) {
    || (s.port.sem == 1 && forall p :: p in s.procs ==> !s.procs[p].Holds())
    || (s.port.sem == 0 && exists h :: IsHolder(s, h))
  }

  /** The spin lock is taken exactly in the locked part of the workqueue function. */
  ghost predicate LockOk(c: Control) {
    c.locked <==> !c.worker.Idle? && !c.worker.WaitReady?
  }

  /** The worker, having found a byte, still has it. */
  ghost predicate OutputOk(out: Output, worker: WorkerPc) {
    out.Bounded() && (worker.Strobe? || worker.StepTail? ==> out.head != out.tail)
  }

  /** A writer's idea of the free space, however old, is never too large. */
  ghost predicate WriterOk(t: Port, w: Writer) {
    && InRange(t, w)
    && (w.pc.Down? ==> w.written == 0)
    && (w.pc.Copy? ==> 0 < w.pc.space <= Writable(|t.out.cells|, t.out.tail, t.out.head))
    && (w.pc.Advance? ==>
          && w.pc.copied <= Writable(|t.out.cells|, t.out.tail, t.out.head)
          && t.out.cells[t.out.head..t.out.head + w.pc.copied] == w.data[w.written..w.written + w.pc.copied])
    && (w.pc.Eval2? && w.pc.ahead ==> t.out.tail <= t.out.head)
    && (w.pc.Eval2? ==> t.reload)
  }

  /** Everything accepted, whole writes one after the other, is printed or still stored, in order. */
  ghost predicate StreamOk(s: State)
    requires s.port.Bounded()
  {
    && (s.port.sem == 1 ==> s.port.Stream() == Concat(s.port.log))
    && (forall h :: h in s.procs && s.procs[h].Holds() && s.procs[h].written <= |s.procs[h].data| ==>
          s.port.Stream() == Concat(s.port.log) + s.procs[h].data[..s.procs[h].written])
  }

  ghost predicate AllWritersOk(s: State) {
    forall p :: p in s.procs ==> WriterOk(s.port, s.procs[p])
  }

  ghost predicate DataOk(s: State) {
    && OutputOk(s.port.out, s.port.ctl.worker)
    && AllWritersOk(s)
    && StreamOk(s)
  }

  // ---------------------------------------------------------------- data

  /** Only taking and releasing the semaphore changes who is inside. */
  lemma StepKeepsExclusive(s: State, a: Action)
    requires Enabled(s, a) && Exclusive(s)
    ensures Exclusive(Do(s, a))
  {
    var t := Do(s, a);
    if s.port.sem == 0 {
      var h :| IsHolder(s, h);
      if t.port.sem == 0 {
        assert IsHolder(t, h);
      }
    } else if t.port.sem == 0 {
      assert IsHolder(t, a.p);
    }
  }

  lemma StepKeepsLock(s: State, a: Action)
    requires Enabled(s, a) && LockOk(s.port.ctl)
    ensures LockOk(Do(s, a).port.ctl)
  {
  }

  /** Printing a byte and stepping past it are two moments, but the stream never changes. */
  lemma WorkerKeepsStream(out: Output, c: Control)
    requires OutputOk(out, c.worker)
    ensures var next, d := WorkerOutput(out, c.worker), WorkerControl(out, c);
            OutputOk(next, d.worker) && next.Stream(d.worker.StepTail?) == out.Stream(c.worker.StepTail?)
  {
    if c.worker.Strobe? {
      StrobeKeepsStream(out);
    } else if c.worker.StepTail? {
      StepTailKeepsStream(out);
    }
  }

  lemma StepTailKeepsStream(out: Output)
    requires out.Bounded() && out.head != out.tail
    ensures WorkerOutput(out, StepTail).Bounded()
    ensures WorkerOutput(out, StepTail).Stream(false) == out.Stream(true)
  {
    Consume(out.cells, out.tail, out.head, 1);
    assert WorkerOutput(out, StepTail).Stored() == out.Stored()[1..];
  }

  lemma StrobeKeepsStream(out: Output)
    requires out.Bounded() && out.head != out.tail
    ensures WorkerOutput(out, Strobe).Stream(true) == out.Stream(false)
  {
  }

  /** The consumer running ahead never invalidates what the writer computed earlier. */
  lemma WorkerKeepsWriter(t: Port, w: Writer)
    requires OutputOk(t.out, t.ctl.worker) && WriterOk(t, w)
    ensures WriterOk(WorkerStep(t), w)
  {
  }

  /** Space computed with one load of the tail is exact; with a second load it is at worst too small. */
  lemma SpaceIsSafe(n: nat, head: nat, tail: nat, ahead: bool)
    requires head < n && tail < n && (ahead ==> tail <= head)
    ensures SpaceGiven(n, head, tail, ahead) <= Writable(n, tail, head)
    ensures OutSpace(n, head, tail) == Writable(n, tail, head)
  {
  }

  /** Moving the head publishes exactly the bytes copied before. */
  lemma AdvancePublishes(out: Output, worker: WorkerPc, data: seq<byte>)
    requires OutputOk(out, worker) && |data| <= Writable(|out.cells|, out.tail, out.head)
    requires out.cells[out.head..out.head + |data|] == data
    ensures OutputOk(MoveHead(out, |data|), worker)
    ensures MoveHead(out, |data|).Stream(worker.StepTail?) == out.Stream(worker.StepTail?) + data
  {
    assert Splice(out.cells, out.head, data) == out.cells;
    Produce(out.cells, out.tail, out.head, data);
    Regroup(out.printed, out.Stored(), data);
    if worker.StepTail? {
      assert (out.Stored() + data)[1..] == out.Stored()[1..] + data;
      Regroup(out.printed, out.Stored()[1..], data);
    }
  }

  /** Bytes copied beyond the head never overwrite anything still to be printed. */
  lemma CopyIsInvisible(out: Output, worker: WorkerPc, data: seq<byte>)
    requires OutputOk(out, worker) && |data| <= Writable(|out.cells|, out.tail, out.head)
    ensures OutputOk(StoreAtHead(out, data), worker)
    ensures StoreAtHead(out, data).Stored() == out.Stored()
    ensures StoreAtHead(out, data).Stream(worker.StepTail?) == out.Stream(worker.StepTail?)
    ensures StoreAtHead(out, data).cells[out.head..out.head + |data|] == data
  {
  }

  /** A writer's step keeps what holds for it, and extends the stream by exactly what it counts as written. */
  ghost predicate GoodWriterStep(t: Port, w: Writer, u: Port, v: Writer)
    requires t.Bounded() && w.written <= |w.data|
  {
    && OutputOk(u.out, u.ctl.worker) && WriterOk(u, v)
    && v.data == w.data && w.written <= v.written
    && u.Stream() == if v.written == w.written then t.Stream() else t.Stream() + w.data[w.written..v.written]
  }

  lemma WriterComputes(t: Port, p: Pid, w: Writer, luck: Luck)
    requires OutputOk(t.out, t.ctl.worker) && WriterOk(t, w) && Possible(t, p, w, luck)
    requires w.pc.Eval? || w.pc.Eval2?
    ensures WriterStep(t, p, w, luck).0.out == t.out
    ensures GoodWriterStep(t, w, WriterStep(t, p, w, luck).0, WriterStep(t, p, w, luck).1)
  {
    SpaceIsSafe(|t.out.cells|, t.out.head, t.out.tail, if w.pc.Eval? then false else w.pc.ahead);
  }

  lemma WriterFaults(t: Port, p: Pid, w: Writer, luck: Luck)
    requires OutputOk(t.out, t.ctl.worker) && WriterOk(t, w) && Possible(t, p, w, luck) && luck.BadAddress?
    ensures GoodWriterStep(t, w, WriterStep(t, p, w, luck).0, WriterStep(t, p, w, luck).1)
  {
    CopyIsInvisible(t.out, t.ctl.worker, luck.junk);
  }

  lemma WriterCopies(t: Port, p: Pid, w: Writer, luck: Luck)
    requires OutputOk(t.out, t.ctl.worker) && WriterOk(t, w) && Possible(t, p, w, luck)
    requires w.pc.Copy? && !luck.BadAddress?
    ensures GoodWriterStep(t, w, WriterStep(t, p, w, luck).0, WriterStep(t, p, w, luck).1)
  {
    var k := CopyCount(w);
    var u, v := t.(out := StoreAtHead(t.out, w.data[w.written..w.written + k])), w.(pc := Advance(k));
    assert WriterStep(t, p, w, luck) == (u, v);
    CopyIsInvisible(t.out, t.ctl.worker, w.data[w.written..w.written + k]);
    assert u.out.head == t.out.head && u.out.tail == t.out.tail && |u.out.cells| == |t.out.cells|;
    assert WriterOk(u, v);
  }

  lemma WriterAdvances(t: Port, p: Pid, w: Writer, luck: Luck)
    requires OutputOk(t.out, t.ctl.worker) && WriterOk(t, w) && Possible(t, p, w, luck) && w.pc.Advance?
    ensures GoodWriterStep(t, w, WriterStep(t, p, w, luck).0, WriterStep(t, p, w, luck).1)
  {
    var k := w.pc.copied;
    var data := w.data[w.written..w.written + k];
    var u, v := t.(out := MoveHead(t.out, k)), w.(written := w.written + k, pc := Start);
    assert WriterStep(t, p, w, luck) == (u, v);
    AdvancePublishes(t.out, t.ctl.worker, data);
    assert WriterOk(u, v);
    Regroup(t.Stream(), [], data);
  }

  lemma WriterStepIsGood(t: Port, p: Pid, w: Writer, luck: Luck)
    requires OutputOk(t.out, t.ctl.worker) && WriterOk(t, w) && Possible(t, p, w, luck)
    ensures GoodWriterStep(t, w, WriterStep(t, p, w, luck).0, WriterStep(t, p, w, luck).1)
  {
    if w.pc.Eval? || w.pc.Eval2? {
      WriterComputes(t, p, w, luck);
    } else if luck.BadAddress? {
      WriterFaults(t, p, w, luck);
    } else if w.pc.Copy? {
      WriterCopies(t, p, w, luck);
    } else if w.pc.Advance? {
      WriterAdvances(t, p, w, luck);
    }
  }

  lemma WriterStepLeavesOthers(t: Port, p: Pid, w: Writer, luck: Luck, other: Writer)
    requires OutputOk(t.out, t.ctl.worker) && WriterOk(t, w) && Possible(t, p, w, luck)
    requires WriterOk(t, other) && (w.Holds() ==> !other.Holds())
    ensures WriterOk(WriterStep(t, p, w, luck).0, other)
  {
    WriterStepIsGood(t, p, w, luck);
  }

  lemma WriterStepLog(t: Port, p: Pid, w: Writer, luck: Luck)
    requires InRange(t, w) && Possible(t, p, w, luck)
    ensures var (u, v) := WriterStep(t, p, w, luck);
            && (u.log == if w.Holds() && !v.Holds() then t.log + [w.data[..w.written]] else t.log)
            && (w.Holds() && !v.Holds() ==> v.written == w.written)
            && (u.sem == t.sem + (if w.Holds() && !v.Holds() then 1 else 0) - (if v.Holds() && !w.Holds() then 1 else 0))
  {
  }

  lemma WriterTurnKeepsWriters(s: State, p: Pid, luck: Luck)
    requires Enabled(s, Step(p, luck)) && Exclusive(s) && DataOk(s)
    ensures AllWritersOk(Do(s, Step(p, luck)))
  {
    var (t, w) := WriterStep(s.port, p, s.procs[p], luck);
    WriterStepIsGood(s.port, p, s.procs[p], luck);
    forall q | q in s.procs && q != p ensures WriterOk(t, s.procs[q]) {
      WriterStepLeavesOthers(s.port, p, s.procs[p], luck, s.procs[q]);
    }
  }

  lemma WorkKeepsWriters(s: State)
    requires Enabled(s, Work) && DataOk(s)
    ensures AllWritersOk(Do(s, Work))
  {
    WorkerKeepsStream(s.port.out, s.port.ctl);
    forall p | p in s.procs ensures WriterOk(WorkerStep(s.port), s.procs[p]) {
      WorkerKeepsWriter(s.port, s.procs[p]);
    }
  }

  lemma HandlerKeepsWriters(s: State, a: Action)
    requires Enabled(s, a) && !a.Call? && !a.Step? && !a.Work? && DataOk(s)
    ensures AllWritersOk(Do(s, a))
  {
  }

  lemma StepKeepsWriters(s: State, a: Action)
    requires Enabled(s, a) && Exclusive(s) && DataOk(s)
    ensures AllWritersOk(Do(s, a))
  {
    if a.Step? {
      WriterTurnKeepsWriters(s, a.p, a.luck);
    } else if a.Work? {
      WorkKeepsWriters(s);
    } else if !a.Call? {
      HandlerKeepsWriters(s, a);
    }
  }

  /** The stream a writer should see, given what has been accepted before it and what it has written. */
  ghost predicate Accounts(t: Port, w: Writer)
    requires t.Bounded() && w.written <= |w.data|
  {
    t.Stream() == Concat(t.log) + w.data[..w.written]
  }

  lemma WriterStepAccounts(t: Port, p: Pid, w: Writer, luck: Luck)
    requires OutputOk(t.out, t.ctl.worker) && WriterOk(t, w) && Possible(t, p, w, luck)
    requires if w.Holds() then Accounts(t, w) else t.sem > 0 ==> t.Stream() == Concat(t.log)
    ensures var (u, v) := WriterStep(t, p, w, luck);
            && u.Bounded() && v.written <= |v.data|
            && (v.Holds() ==> Accounts(u, v))
            && (w.Holds() && !v.Holds() ==> u.Stream() == Concat(u.log))
            && (!w.Holds() ==> u.Stream() == t.Stream() && u.log == t.log)
  {
    WriterStepIsGood(t, p, w, luck);
    WriterStepLog(t, p, w, luck);
    var (u, v) := WriterStep(t, p, w, luck);
    if v.written > w.written {
      Regroup(Concat(t.log), w.data[..w.written], w.data[w.written..v.written]);
      assert w.data[..w.written] + w.data[w.written..v.written] == w.data[..v.written];
    } else if !w.Holds() && v.Holds() {
      Regroup(Concat(t.log), [], []);
      assert w.data[..0] == [];
    }
  }

  lemma StepKeepsStream(s: State, a: Action)
    requires Enabled(s, a) && Exclusive(s) && DataOk(s)
    ensures OutputOk(Do(s, a).port.out, Do(s, a).port.ctl.worker) && StreamOk(Do(s, a))
  {
    var t := Do(s, a);
    if a.Step? {
      var w := s.procs[a.p];
      WriterStepIsGood(s.port, a.p, w, a.luck);
      WriterStepAccounts(s.port, a.p, w, a.luck);
      WriterStepLog(s.port, a.p, w, a.luck);
    } else if a.Work? {
      WorkerKeepsStream(s.port.out, s.port.ctl);
    }
  }

  // ---------------------------------------------------------------- progress

  ghost predicate InStart(s: State, p: Pid) {
    p in s.procs && s.procs[p].pc.Start?
  }

  /** If bytes wait while output is off, or about to be switched off, the writer that put them there has yet to check. */
  ghost predicate HandshakeOk(s: State) {
    var t := s.port;
    t.out.head != t.out.tail && (!t.ctl.active || t.ctl.worker.Drained?) ==> exists p :: InStart(s, p)
  }

  /** While output is on, something is under way that leads to the next run of the workqueue function. */
  ghost predicate EventOk(c: Control) {
    c.active ==>
      || c.pending || c.worker.WaitReady? || c.worker.Test? || c.worker.Drained? || c.worker.Strobe?
      || c.timer || c.fired > 0 || c.checked > 0 || c.expired > 0 || c.queuers > 0
  }

  ghost predicate Asleep(s: State, p: Pid) {
    p in s.procs && s.procs[p].pc.Sched? && p in s.port.outq
  }

  /** A sleeping writer still has more than half a ring of bytes before the worker, or is about to be woken. */
  ghost predicate SleepersOk(s: State)
    requires s.port.Bounded()
  {
    var n, used := |s.port.out.cells|, Used(|s.port.out.cells|, s.port.out.tail, s.port.out.head);
    forall p :: Asleep(s, p) ==> used >= n - n / 2 - (if s.port.ctl.worker.Threshold? then 1 else 0)
  }

  lemma WriterTurnKeepsHandshake(s: State, p: Pid, luck: Luck)
    requires Enabled(s, Step(p, luck)) && LockOk(s.port.ctl) && HandshakeOk(s)
    ensures HandshakeOk(Do(s, Step(p, luck)))
  {
    var t := Do(s, Step(p, luck));
    if t.port.out.head != t.port.out.tail && (!t.port.ctl.active || t.port.ctl.worker.Drained?) {
      if s.procs[p].pc.Advance? {
        assert InStart(t, p);
      } else {
        var q :| InStart(s, q);
        assert InStart(t, q);
      }
    }
  }

  lemma WorkKeepsHandshake(s: State)
    requires Enabled(s, Work) && OutputOk(s.port.out, s.port.ctl.worker) && HandshakeOk(s)
    ensures HandshakeOk(Do(s, Work))
  {
    var t := Do(s, Work);
    if t.port.out.head != t.port.out.tail && (!t.port.ctl.active || t.port.ctl.worker.Drained?) {
      var q :| InStart(s, q);
      assert InStart(t, q);
    }
  }

  lemma StepKeepsHandshake(s: State, a: Action)
    requires Enabled(s, a) && LockOk(s.port.ctl) && OutputOk(s.port.out, s.port.ctl.worker) && HandshakeOk(s)
    ensures HandshakeOk(Do(s, a))
  {
    match a
    case Step(p, luck) => WriterTurnKeepsHandshake(s, p, luck);
    case Work => WorkKeepsHandshake(s);
    case _ =>
      if q :| InStart(s, q) {
        assert InStart(Do(s, a), q);
      }
  }

  lemma StepKeepsEvent(s: State, a: Action)
    requires Enabled(s, a) && EventOk(s.port.ctl)
    ensures EventOk(Do(s, a).port.ctl)
  {
  }

  lemma RoomIsExact(n: nat, head: nat, tail: nat)
    requires head < n && tail < n
    ensures Room(n, head, tail) == if head == tail then 0 else n - Used(n, tail, head)
  {
    ModOnce(n + tail - head, n);
  }

  /** With a single load a writer goes to sleep only on a full ring. */
  lemma SleepsOnlyWhenFull(t: Port, p: Pid, w: Writer, luck: Luck)
    requires WriterOk(t, w) && Possible(t, p, w, luck) && !t.reload
    requires WriterStep(t, p, w, luck).1.pc.Sched?
    ensures Used(|t.out.cells|, t.out.tail, t.out.head) == |t.out.cells| - 1
    ensures WriterStep(t, p, w, luck).0.out == t.out && WriterStep(t, p, w, luck).0.ctl == t.ctl
  {
  }

  lemma WriterTurnKeepsSleepers(s: State, p: Pid, luck: Luck)
    requires Enabled(s, Step(p, luck)) && Exclusive(s) && DataOk(s) && SleepersOk(s)
    requires !s.port.reload && 2 <= |s.port.out.cells|
    ensures Do(s, Step(p, luck)).port.Bounded() && SleepersOk(Do(s, Step(p, luck)))
  {
    var t := Do(s, Step(p, luck));
    WriterStepIsGood(s.port, p, s.procs[p], luck);
    forall q | Asleep(t, q)
      ensures Used(|t.port.out.cells|, t.port.out.tail, t.port.out.head)
              >= |t.port.out.cells| - |t.port.out.cells| / 2 - (if t.port.ctl.worker.Threshold? then 1 else 0)
    {
      if q == p {
        SleepsOnlyWhenFull(s.port, p, s.procs[p], luck);
      } else {
        assert Asleep(s, q);
      }
    }
  }

  lemma WorkKeepsSleepers(s: State)
    requires Enabled(s, Work) && DataOk(s) && SleepersOk(s) && 3 <= |s.port.out.cells|
    ensures Do(s, Work).port.Bounded() && SleepersOk(Do(s, Work))
  {
    var out, worker := s.port.out, s.port.ctl.worker;
    RoomIsExact(|out.cells|, out.head, out.tail);
    if worker.StepTail? {
      WritableGrows(|out.cells|, out.tail, out.head);
    }
    assert forall p :: Asleep(Do(s, Work), p) ==> Asleep(s, p);
  }

  ghost predicate Inv(s: State) {
    && Exclusive(s) && LockOk(s.port.ctl) && DataOk(s) && HandshakeOk(s) && EventOk(s.port.ctl)
    && (!s.port.reload && 3 <= |s.port.out.cells| ==> SleepersOk(s))
  }

  lemma StepKeepsSleepers(s: State, a: Action)
    requires Enabled(s, a) && Exclusive(s) && DataOk(s) && SleepersOk(s)
    requires !s.port.reload && 3 <= |s.port.out.cells|
    ensures Do(s, a).port.Bounded() && SleepersOk(Do(s, a))
  {
    match a
    case Step(p, luck) => WriterTurnKeepsSleepers(s, p, luck);
    case Work => WorkKeepsSleepers(s);
    case _ => assert forall p :: Asleep(Do(s, a), p) ==> Asleep(s, p);
  }

  lemma StepKeepsShape(s: State, a: Action)
    requires Enabled(s, a)
    ensures Do(s, a).port.reload == s.port.reload && |Do(s, a).port.out.cells| == |s.port.out.cells|
  {
  }

  lemma StepKeepsInv(s: State, a: Action)
    requires Inv(s) && Enabled(s, a)
    ensures Inv(Do(s, a))
  {
    StepKeepsShape(s, a);
    StepKeepsExclusive(s, a);
    StepKeepsLock(s, a);
    StepKeepsWriters(s, a);
    StepKeepsStream(s, a);
    StepKeepsHandshake(s, a);
    StepKeepsEvent(s, a);
    if !s.port.reload && 3 <= |s.port.out.cells| {
      StepKeepsSleepers(s, a);
    }
  }

  lemma {:induction false} RunKeepsInv(s: State, script: seq<Action>)
    requires Inv(s) && Runs(s, script)
    ensures var t := After(s, script);
            Inv(t) && t.port.reload == s.port.reload && |t.port.out.cells| == |s.port.out.cells|
    decreases |script|
  {
    if script != [] {
      StepKeepsShape(s, script[0]);
      StepKeepsInv(s, script[0]);
      RunKeepsInv(Do(s, script[0]), script[1..]);
    }
  }

  // ---------------------------------------------------------------- main results over every run

  /**
   Whatever the interleaving and however stale the writer's view of the tail, the bytes printed are
   exactly the first ones of the accepted parts of all writes, one whole write after the other.
   */
  lemma PrintsInOrder(s: State, script: seq<Action>)
    requires Initial(s) && Runs(s, script)
    ensures var t := After(s, script).port;
            && t.Bounded()
            && (t.sem == 1 ==> t.Stream() == Concat(t.log))
            && (forall p :: p in After(s, script).procs && After(s, script).procs[p].Holds() ==>
                  var w := After(s, script).procs[p];
                  w.written <= |w.data| && t.Stream() == Concat(t.log) + w.data[..w.written])
            && t.out.printed <= t.Stream()
  {
    RunKeepsInv(s, script);
  }

  // ---------------------------------------------------------------- what a call answers

  /** What was to be written, what has happened to the call, and by which bytes it has extended the stream. */
  datatype Past = Past(data: seq<byte>, signalled: bool, faulted: bool, moved: seq<byte>)

  const NEW := Past([], false, false, [])

  /** The bytes by which a stream has grown. */
  function Grown(before: seq<byte>, after: seq<byte>): seq<byte> {
    if |before| <= |after| then after[|before|..] else []
  }

  function Later(s: State, a: Action, p: Pid, past: Past): Past
    requires Enabled(s, a) && Do(s, a).port.Bounded()
  {
    match a
    case Call(q, data) => if q == p then Past(data, false, false, []) else past
    case Step(q, luck) =>
      if q != p then past
      else Past(past.data, past.signalled || luck.Signal?, past.faulted || luck.BadAddress?,
                past.moved + Grown(s.port.Stream(), Do(s, a).port.Stream()))
    case _ => past
  }

  /** What has happened over a run; the ring stays in bounds in every run, see `RunKeepsInv`. */
  ghost function PastOf(s: State, script: seq<Action>, p: Pid, past: Past): Past
    requires Inv(s) && Runs(s, script)
    decreases |script|
  {
    if script == [] then past
    else
      StepKeepsInv(s, script[0]);
      PastOf(Do(s, script[0]), script[1..], p, Later(s, script[0], p, past))
  }

  /** The call stops early only for a fault or a signal, and its answer says so. */
  ghost predicate Answers(w: Writer, signalled: bool, faulted: bool) {
    && w.written <= |w.data|
    && (w.pc.Down? ==> w.written == 0)
    && (w.pc.Leave? ==> signalled || w.written == |w.data|)
    && (faulted <==> w.pc.BadCopy? || w.pc == Returned(Fault))
    && (w.pc.Returned? ==>
          match w.pc.result
          case Count(n) => n == w.written && (signalled || n == |w.data|)
          case Fault => faulted
          case Interrupted => signalled && w.written == 0)
  }

  /** And what it has counted is what it has moved. */
  ghost predicate Fair(w: Writer, past: Past) {
    Answers(w, past.signalled, past.faulted) && w.data == past.data && past.moved == past.data[..w.written]
  }

  lemma StepAnswers(t: Port, p: Pid, w: Writer, luck: Luck, signalled: bool, faulted: bool)
    requires InRange(t, w) && Possible(t, p, w, luck) && Answers(w, signalled, faulted)
    ensures var v := WriterStep(t, p, w, luck).1;
            v.data == w.data && Answers(v, signalled || luck.Signal?, faulted || luck.BadAddress?)
  {
  }

  lemma MovedMore(data: seq<byte>, m: nat, n: nat, before: seq<byte>, after: seq<byte>)
    requires m <= n <= |data| && after == if n == m then before else before + data[m..n]
    ensures data[..m] + Grown(before, after) == data[..n]
  {
    assert (before + data[m..n])[|before|..] == data[m..n];
    assert data[..m] + data[m..n] == data[..n];
  }

  lemma OwnStepIsFair(s: State, p: Pid, luck: Luck, past: Past)
    requires Enabled(s, Step(p, luck)) && Fair(s.procs[p], past)
    requires OutputOk(s.port.out, s.port.ctl.worker) && WriterOk(s.port, s.procs[p])
    ensures Do(s, Step(p, luck)).port.Bounded()
    ensures Fair(Do(s, Step(p, luck)).procs[p], Later(s, Step(p, luck), p, past))
  {
    WriterStepIsGood(s.port, p, s.procs[p], luck);
    StepAnswers(s.port, p, s.procs[p], luck, past.signalled, past.faulted);
    var w, v := s.procs[p], Do(s, Step(p, luck)).procs[p];
    MovedMore(w.data, w.written, v.written, s.port.Stream(), Do(s, Step(p, luck)).port.Stream());
  }

  lemma {:induction false} RunIsFair(s: State, script: seq<Action>, p: Pid, past: Past)
    requires Inv(s) && Runs(s, script) && p in After(s, script).procs && (p in s.procs ==> Fair(s.procs[p], past))
    ensures Fair(After(s, script).procs[p], PastOf(s, script, p, past))
    decreases |script|
  {
    if script != [] {
      var a := script[0];
      StepKeepsInv(s, a);
      if a.Step? && a.p == p {
        OwnStepIsFair(s, p, a.luck, past);
      }
      RunIsFair(Do(s, a), script[1..], p, Later(s, a, p, past));
    }
  }

  lemma InitiallyOk(s: State)
    requires Initial(s)
    ensures Inv(s)
  {
  }

  /**
   In every run, a call that returned a count has put just that many bytes into the stream, the first ones
   of its data, and all of them unless there was a signal; EFAULT comes exactly after a faulting copy, and
   a call interrupted at the semaphore has taken nothing.
   */
  lemma CountsOverRuns(s: State, script: seq<Action>, p: Pid)
    requires Initial(s) && Runs(s, script)
    requires p in After(s, script).procs && After(s, script).procs[p].pc.Returned?
    ensures Inv(s)
    ensures var w, past := After(s, script).procs[p], PastOf(s, script, p, NEW);
            && (w.pc.result == Fault <==> past.faulted)
            && match w.pc.result
               case Count(n) =>
                 n <= |past.data| && past.moved == past.data[..n] && (n < |past.data| ==> past.signalled)
               case Fault => past.moved <= past.data
               case Interrupted => past.moved == [] && past.signalled
  {
    InitiallyOk(s);
    RunIsFair(s, script, p, NEW);
  }

  /** With one load of the tail, a writer goes on to copy exactly if there is room, and into all of that. */
  lemma LooksExactly(t: Port, p: Pid, w: Writer, luck: Luck)
    requires OutputOk(t.out, t.ctl.worker) && WriterOk(t, w) && Possible(t, p, w, luck) && w.pc.Eval? && !t.reload
    ensures var (u, v) := WriterStep(t, p, w, luck);
            var room := Writable(|t.out.cells|, t.out.tail, t.out.head);
            if room > 0 then v.pc == Copy(room) && u == t.(outq := t.outq - {p})
            else match w.pc.ctx
              case First => v.pc == Eval(Unqueued) && u == t
              case Unqueued => v.pc.Prepare? && u == t
              case Queued => if luck.Signal? then v.pc.Leave? && p !in u.outq else v.pc.Sched? && u == t
  {
    SpaceIsSafe(|t.out.cells|, t.out.head, t.out.tail, false);
  }

  /** A signal at the semaphore ends the call at once; a faulting copy ends it with the semaphore given back. */
  lemma EndsEarly(t: Port, p: Pid, w: Writer, junk: seq<byte>)
    requires InRange(t, w)
    ensures w.pc.Down? ==>
              Possible(t, p, w, Signal) && WriterStep(t, p, w, Signal) == (t, w.(pc := Returned(Interrupted)))
    ensures w.pc.Copy? && |junk| <= CopyCount(w) ==>
              && Possible(t, p, w, BadAddress(junk))
              && var (u, v) := WriterStep(t, p, w, BadAddress(junk));
                 && InRange(u, v) && Possible(u, p, v, Plain)
                 && WriterStep(u, p, v, Plain) ==
                    (u.(sem := t.sem + 1, log := t.log + [w.data[..w.written]]), w.(pc := Returned(Fault)))
  {
  }

  /** One that has been woken queues again before it looks; one that gets a signal may then give up. */
  lemma WokenQueuesAgain(t: Port, p: Pid, w: Writer, luck: Luck)
    requires InRange(t, w) && w.pc.Sched? && !luck.BadAddress?
    ensures Possible(t, p, w, luck) <==> luck.Signal? || p !in t.outq
    ensures Possible(t, p, w, luck) ==>
              var (u, v) := WriterStep(t, p, w, luck);
              && u == t && Possible(u, p, v, Plain)
              && WriterStep(u, p, v, Plain) == (t.(outq := t.outq + {p}), w.(pc := Eval(Queued)))
              && Possible(t.(outq := t.outq + {p}), p, w.(pc := Eval(Queued)), Signal)
  {
  }

  /** Something inside the driver can move, without a signal, a new call or an interrupt from the printer. */
  ghost predicate CanProgress(s: State) {
    var c := s.port.ctl;
    || WorkerCanMove(c) || c.queuers > 0 || c.timer || c.fired > 0 || c.expired > 0 || (c.checked > 0 && !c.locked)
    || exists p :: p in s.procs && !s.procs[p].pc.Down? && CanMove(s.port, p, s.procs[p])
  }

  /** Bytes wait to be printed or a writer sleeps, and nothing in the driver will ever do anything about it. */
  ghost predicate Stalled(s: State) {
    && (s.port.out.head != s.port.out.tail || exists p :: Asleep(s, p))
    && !CanProgress(s)
  }

  /** A byte in the ring never gets stuck: either output is on, or its writer is about to switch it on. */
  lemma StoredBytesMoveOn(s: State, script: seq<Action>)
    requires Initial(s) && Runs(s, script)
    ensures var t := After(s, script);
            t.port.out.head != t.port.out.tail ==>
              (t.port.ctl.active || exists p :: InStart(t, p)) && CanProgress(t)
  {
    RunKeepsInv(s, script);
    var t := After(s, script);
    if !t.port.ctl.active && t.port.out.head != t.port.out.tail {
      var p :| InStart(t, p);
      assert WorkerCanMove(t.port.ctl) || CanMove(t.port, p, t.procs[p]);
    }
  }

  // ---------------------------------------------------------------- without interrupts

  /** A step the driver takes by itself: no call, no signal, no interrupt, and the printer is never found busy. */
  predicate Unaided(s: State, a: Action) {
    match a
    case Step(p, luck) => p in s.procs && s.procs[p].pc.Start? && luck.Plain?
    case TimerLocks(busy) => !busy
    case Call(_, _) => false
    case Interrupt => false
    case _ => true
  }

  ghost predicate AllUnaided(s: State, script: seq<Action>)
    requires Runs(s, script)
    decreases |script|
  {
    script == [] || (Unaided(s, script[0]) && AllUnaided(Do(s, script[0]), script[1..]))
  }

  /** How many bytes are stored and not yet handed to the printer. */
  function Unprinted(t: Port): nat
    requires t.Bounded()
  {
    if t.ctl.worker.StepTail? && t.out.Stored() != [] then |t.out.Stored()| - 1 else |t.out.Stored()|
  }

  /** How far it is from here to the next byte handed to the printer. */
  function Distance(c: Control): nat {
    match c.worker
    case Strobe => 1
    case Test => 2
    case WaitReady => 3
    case Drained => 22
    case StepTail => 22
    case Threshold => 21
    case Unlock => 20
    case Idle =>
      if c.pending then 4 else if !c.active then 10
      else if c.queuers > 0 then 5 else if c.expired > 0 then 6 else if c.checked > 0 then 7
      else if c.fired > 0 then 8 else 9
  }

  /** What the driver does next towards it. */
  lemma NextStep(s: State) returns (a: Action)
    requires Inv(s) && s.port.out.head != s.port.out.tail
    ensures Enabled(s, a) && Unaided(s, a)
    ensures a.Work? || (s.port.ctl.worker.Idle? && !s.port.ctl.pending && Do(s, a).port.ctl.worker.Idle?)
    ensures !a.Work? ==> Distance(Do(s, a).port.ctl) < Distance(s.port.ctl) && Do(s, a).port.out == s.port.out
  {
    var c := s.port.ctl;
    if !c.worker.Idle? || c.pending {
      a := Work;
    } else if !c.active {
      var p :| InStart(s, p);
      a := Step(p, Plain);
    } else {
      a := if c.queuers > 0 then Enqueue else if c.expired > 0 then TimerInterrupts
           else if c.checked > 0 then TimerLocks(false) else if c.fired > 0 then TimerChecks else TimerFires;
    }
  }

  lemma WorkGetsNearer(t: Port)
    requires OutputOk(t.out, t.ctl.worker) && t.out.head != t.out.tail && WorkerCanMove(t.ctl)
    ensures WorkerStep(t).Bounded()
    ensures Unprinted(WorkerStep(t)) < Unprinted(t) ||
            (Unprinted(WorkerStep(t)) == Unprinted(t) && Distance(WorkerStep(t).ctl) < Distance(t.ctl))
  {
    if t.ctl.worker.StepTail? {
      StepTailKeepsStream(t.out);
      Consume(t.out.cells, t.out.tail, t.out.head, 1);
    }
  }

  /** From any such state the ring can be drained to the printer, in order. */
  lemma {:induction false} Drains(s: State) returns (script: seq<Action>)
    requires Inv(s)
    ensures Runs(s, script) && AllUnaided(s, script)
    ensures var t := After(s, script).port; t.out.head == t.out.tail && t.out.printed == s.port.Stream()
    decreases Unprinted(s.port), Distance(s.port.ctl)
  {
    script := [];
    if s.port.out.head != s.port.out.tail {
      var a := NextStep(s);
      StepKeepsInv(s, a);
      StreamStays(s, a);
      if a.Work? {
        WorkGetsNearer(s.port);
      }
      var rest := Drains(Do(s, a));
      script := [a] + rest;
      assert script[1..] == rest;
    }
  }

  lemma StreamStays(s: State, a: Action)
    requires Inv(s) && Enabled(s, a) && Unaided(s, a)
    ensures Do(s, a).port.Bounded() && Do(s, a).port.Stream() == s.port.Stream()
  {
    if a.Work? {
      WorkerKeepsStream(s.port.out, s.port.ctl);
    }
  }

  /**
   Whatever has happened, everything stored can still be printed, in order, without a single interrupt
   from the printer: the timer makes up for those that are lost.
   */
  lemma PrintsWithoutInterrupts(s: State, script: seq<Action>) returns (more: seq<Action>)
    requires Initial(s) && Runs(s, script)
    ensures var t := After(s, script);
            && Runs(t, more) && AllUnaided(t, more)
            && t.port.Bounded()
            && After(t, more).port.out.head == After(t, more).port.out.tail
            && After(t, more).port.out.printed == t.port.Stream()
  {
    RunKeepsInv(s, script);
    more := Drains(After(s, script));
  }

  /** The timer sets itself again while the printer is busy, and otherwise stands in for the interrupt. */
  lemma TimerLooks(c: Control, busy: bool)
    requires HandlerEnabled(c, TimerLocks(busy))
    ensures var d := HandlerStep(c, TimerLocks(busy));
            && d.checked + d.expired == c.checked + c.expired - (if busy then 1 else 0)
            && (if busy then d.timer else d.timer == c.timer && d.expired > c.expired)
  {
  }

  /** Sleeping writers are woken exactly when more than half of the ring is free, but not by an empty one. */
  lemma WakesExactly(out: Output)
    requires out.Bounded()
    ensures WorkerWakes(out, Threshold) <==>
              out.head != out.tail && |out.cells| - |out.Stored()| > |out.cells| / 2
  {
    RoomIsExact(|out.cells|, out.head, out.tail);
  }

  /** A writer asleep for space has bytes before it and output switched on. */
  lemma SleepersHaveBytesAhead(s: State, script: seq<Action>, p: Pid)
    requires Initial(s) && Runs(s, script) && !s.port.reload && 3 <= |s.port.out.cells|
    requires Asleep(After(s, script), p)
    ensures var t := After(s, script).port;
            t.out.head != t.out.tail && t.ctl.active
  {
    RunKeepsInv(s, script);
    var t := After(s, script);
    if q :| InStart(t, q) {
      assert p == q;
    }
  }

  /** With one load of the tail per evaluation the driver never stalls. */
  lemma SingleLoadNeverStalls(s: State, script: seq<Action>)
    requires Initial(s) && Runs(s, script) && !s.port.reload && 3 <= |s.port.out.cells|
    ensures !Stalled(After(s, script))
  {
    StoredBytesMoveOn(s, script);
    if p :| Asleep(After(s, script), p) {
      SleepersHaveBytesAhead(s, script, p);
    }
  }

  // ---------------------------------------------------------------- the stall with two loads

  lemma {:induction false} RunsThen(s: State, script: seq<Action>, a: Action) returns (longer: seq<Action>)
    requires Runs(s, script) && Enabled(After(s, script), a)
    ensures Runs(s, longer) && After(s, longer) == Do(After(s, script), a)
    decreases |script|
  {
    if script == [] {
      longer := [a];
      assert longer[1..] == [];
    } else {
      var rest := RunsThen(Do(s, script[0]), script[1..], a);
      longer := [script[0]] + rest;
      assert longer[1..] == rest;
    }
  }

  /** Output switched on, worker idle, no handler under way. */
  ghost predicate Quiet(c: Control) {
    c.active && !c.locked && c.worker.Idle? && c.timer && c.fired == c.checked == c.expired == c.queuers == 0
  }

  /** An interrupt comes and the worker gets as far as testing the ring. */
  lemma WorkerTests(s: State, script: seq<Action>) returns (longer: seq<Action>)
    requires Runs(s, script) && After(s, script).port.Bounded() && Quiet(After(s, script).port.ctl)
    ensures Runs(s, longer)
    ensures var t := After(s, script);
            After(s, longer) == t.(port := t.port.(ctl := Control(true, true, false, Test, true, 0, 0, 0, 0)))
  {
    longer := RunsThen(s, script, Interrupt);
    longer := RunsThen(s, longer, Enqueue);
    longer := RunsThen(s, longer, Work);
    longer := RunsThen(s, longer, Work);
  }

  /** The worker, holding the lock and a byte, prints it. */
  lemma WorkerPrints(s: State, script: seq<Action>) returns (longer: seq<Action>)
    requires Runs(s, script) && After(s, script).port.Bounded() && After(s, script).port.ctl.worker.Test?
    requires After(s, script).port.out.head != After(s, script).port.out.tail
    ensures Runs(s, longer)
    ensures var t, u := After(s, script).port, After(s, longer);
            && u.procs == After(s, script).procs && u.port.reload == t.reload && u.port.outq == t.outq
            && u.port.out.cells == t.out.cells && u.port.out.head == t.out.head
            && u.port.out.tail == Wrap(|t.out.cells|, t.out.tail + 1)
            && u.port.ctl == t.ctl.(worker := Threshold, timer := true)
  {
    longer := RunsThen(s, script, Work);
    longer := RunsThen(s, longer, Work);
    longer := RunsThen(s, longer, Work);
  }

  /** One byte is printed from start to end. */
  lemma PrintsOne(s: State, script: seq<Action>) returns (longer: seq<Action>)
    requires Runs(s, script) && After(s, script).port.Bounded() && Quiet(After(s, script).port.ctl)
    requires After(s, script).port.out.head != After(s, script).port.out.tail
    ensures Runs(s, longer)
    ensures var t, u := After(s, script), After(s, longer);
            && u.procs == t.procs && u.port.reload == t.port.reload && Quiet(u.port.ctl) && !u.port.ctl.pending
            && u.port.out.cells == t.port.out.cells && u.port.out.head == t.port.out.head
            && u.port.out.tail == Wrap(|t.port.out.cells|, t.port.out.tail + 1)
            && u.port.outq == if Room(|u.port.out.cells|, u.port.out.head, u.port.out.tail) > |u.port.out.cells| / 2
                              then {} else t.port.outq
  {
    longer := WorkerTests(s, script);
    longer := WorkerPrints(s, longer);
    longer := RunsThen(s, longer, Work);
    longer := RunsThen(s, longer, Work);
  }

  /** The worker finds the ring empty and switches output off. */
  lemma SwitchesOff(s: State, script: seq<Action>) returns (longer: seq<Action>)
    requires Runs(s, script) && After(s, script).port.Bounded() && Quiet(After(s, script).port.ctl)
    requires After(s, script).port.out.head == After(s, script).port.out.tail
    ensures Runs(s, longer)
    ensures var t := After(s, script);
            After(s, longer) == t.(port := t.port.(ctl := Control(false, false, false, Idle, false, 0, 0, 0, 0)))
  {
    var t := After(s, script).port;
    RoomIsExact(|t.out.cells|, t.out.head, t.out.tail);
    longer := WorkerTests(s, script);
    longer := RunsThen(s, longer, Work);
    longer := RunsThen(s, longer, Work);
    longer := RunsThen(s, longer, Work);
    longer := RunsThen(s, longer, Work);
  }

  /** `k` bytes are printed while no writer is queued. */
  lemma {:induction false} PrintsMany(s: State, script: seq<Action>, k: nat) returns (longer: seq<Action>)
    requires Runs(s, script) && After(s, script).port.Bounded() && Quiet(After(s, script).port.ctl)
    requires After(s, script).port.out.head == 0 && After(s, script).port.outq == {}
    requires 0 < After(s, script).port.out.tail && After(s, script).port.out.tail + k < |After(s, script).port.out.cells|
    ensures Runs(s, longer)
    ensures var t, u := After(s, script), After(s, longer);
            && u.procs == t.procs && u.port.reload == t.port.reload && Quiet(u.port.ctl) && u.port.outq == {}
            && |u.port.out.cells| == |t.port.out.cells| && u.port.out.head == 0 && u.port.out.tail == t.port.out.tail + k
    decreases k
  {
    longer := script;
    if k > 0 {
      longer := PrintsOne(s, script);
      longer := PrintsMany(s, longer, k - 1);
    }
  }

  /** Process 0 at a given place of a write a little too large for the ring, with nobody else around. */
  ghost predicate Alone(s: State, data: seq<byte>, written: nat, pc: Pc) {
    && s.port.Bounded() && 3 <= |s.port.out.cells| == |data| - 1
    && s.port.reload && s.procs == map[0 := Writer(data, written, pc)]
  }

  ghost predicate Offsets(s: State, head: nat, tail: nat) {
    s.port.out.head == head && s.port.out.tail == tail
  }

  /** Half a round of the write loop: space is computed and bytes are copied. */
  lemma CopiesIntoSpace(s: State, script: seq<Action>, data: seq<byte>, written: nat) returns (longer: seq<Action>)
    requires Runs(s, script) && written < |data| && Alone(After(s, script), data, written, Loop)
    requires After(s, script).port.out.tail <= After(s, script).port.out.head
    requires var out := After(s, script).port.out;
             0 < OutSpace(|out.cells|, out.head, out.tail) <= |data| - written
    ensures Runs(s, longer)
    ensures var t, u := After(s, script).port, After(s, longer);
            && Alone(u, data, written, Advance(OutSpace(|t.out.cells|, t.out.head, t.out.tail)))
            && |u.port.out.cells| == |t.out.cells| && u.port.outq == t.outq - {0}
            && Offsets(u, t.out.head, t.out.tail) && u.port.ctl == t.ctl
  {
    longer := RunsThen(s, script, Step(0, Plain));
    longer := RunsThen(s, longer, Step(0, Plain));
    longer := RunsThen(s, longer, Step(0, Plain));
    longer := RunsThen(s, longer, Step(0, Plain));
  }

  /** A round of the write loop: after the copy the head moves and output is switched on. */
  lemma WriteRound(s: State, script: seq<Action>, data: seq<byte>, written: nat) returns (longer: seq<Action>)
    requires Runs(s, script) && written < |data| && Alone(After(s, script), data, written, Loop)
    requires !After(s, script).port.ctl.locked && After(s, script).port.out.tail <= After(s, script).port.out.head
    requires var out := After(s, script).port.out;
             0 < OutSpace(|out.cells|, out.head, out.tail) <= |data| - written
    ensures Runs(s, longer)
    ensures var t, u := After(s, script).port, After(s, longer);
            var space := OutSpace(|t.out.cells|, t.out.head, t.out.tail);
            && Alone(u, data, written + space, Loop) && |u.port.out.cells| == |t.out.cells|
            && u.port.outq == t.outq - {0}
            && Offsets(u, IncrBp(|t.out.cells|, t.out.head, space), t.out.tail)
            && u.port.ctl == if t.ctl.active then t.ctl else t.ctl.(active := true, timer := true, pending := true)
  {
    longer := CopiesIntoSpace(s, script, data, written);
    longer := RunsThen(s, longer, Step(0, Plain));
    longer := RunsThen(s, longer, Step(0, Plain));
  }

  /** On a full ring with the head in front, the writer looks twice and decides to queue. */
  lemma DecidesToQueue(s: State, script: seq<Action>, data: seq<byte>, written: nat) returns (longer: seq<Action>)
    requires Runs(s, script) && written < |data| && Alone(After(s, script), data, written, Loop)
    requires Offsets(After(s, script), 0, 1)
    ensures Runs(s, longer)
    ensures var t, u := After(s, script), After(s, longer);
            u.port == t.port && Alone(u, data, written, Prepare)
  {
    longer := RunsThen(s, script, Step(0, Plain));
    longer := RunsThen(s, longer, Step(0, Plain));
    longer := RunsThen(s, longer, Step(0, Plain));
    longer := RunsThen(s, longer, Step(0, Plain));
    longer := RunsThen(s, longer, Step(0, Plain));
  }

  /** From a fresh driver to a ring whose last byte is the only free one. */
  lemma FirstRound(s: State, data: seq<byte>) returns (script: seq<Action>)
    requires Initial(s) && s.port.reload && 3 <= |s.port.out.cells| == |data| - 1
    ensures Runs(s, script)
    ensures var t, n := After(s, script), |s.port.out.cells|;
            && Alone(t, data, n - 1, Loop) && Offsets(t, n - 1, 1) && Quiet(t.port.ctl) && t.port.outq == {}
            && |t.port.out.cells| == n
  {
    script := RunsThen(s, [], Call(0, data));
    script := RunsThen(s, script, Step(0, Plain));
    script := WriteRound(s, script, data, 0);
    script := PrintsOne(s, script);
  }

  /** From a fresh driver to a full ring with the head back at the start and one byte more to write. */
  lemma FillsRing(s: State, data: seq<byte>) returns (script: seq<Action>)
    requires Initial(s) && s.port.reload && 3 <= |s.port.out.cells| == |data| - 1
    ensures Runs(s, script)
    ensures var t := After(s, script);
            && Alone(t, data, |data| - 1, Prepare) && Offsets(t, 0, 1) && Quiet(t.port.ctl) && t.port.outq == {}
            && |t.port.out.cells| == |s.port.out.cells|
  {
    var n := |s.port.out.cells|;
    script := FirstRound(s, data);
    script := WriteRound(s, script, data, n - 1);
    script := DecidesToQueue(s, script, data, n);
  }

  /**
   A run that stalls for every ring size: the writer, queued, compares the pointers while one byte is
   left before the wrap; the worker prints it and wraps the tail, which looks like no room at all to the
   wake-up test; the writer loads the tail again, takes it for a full ring and sleeps.
   */
  lemma TwoLoadsStall(s: State, data: seq<byte>) returns (script: seq<Action>)
    requires Initial(s) && s.port.reload && 3 <= |s.port.out.cells| == |data| - 1
    ensures Runs(s, script) && Stalled(After(s, script))
  {
    script := FillsRing(s, data);
    script := PrintsMany(s, script, |s.port.out.cells| - 2);
    script := FallsAsleepOnEmpty(s, script, data);
    var t := After(s, script);
    assert Asleep(t, 0);
  }

  lemma FallsAsleepOnEmpty(s: State, script: seq<Action>, data: seq<byte>) returns (longer: seq<Action>)
    requires 0 < |data| && Runs(s, script) && Alone(After(s, script), data, |data| - 1, Prepare)
    requires Quiet(After(s, script).port.ctl) && After(s, script).port.outq == {}
    requires Offsets(After(s, script), 0, |After(s, script).port.out.cells| - 1)
    ensures Runs(s, longer)
    ensures var t := After(s, longer);
            && Alone(t, data, |data| - 1, Sched) && t.port.outq == {0} && Offsets(t, 0, 0)
            && t.port.ctl == Control(false, false, false, Idle, false, 0, 0, 0, 0)
  {
    longer := RunsThen(s, script, Step(0, Plain));
    longer := RunsThen(s, longer, Step(0, Plain));
    longer := MissesTheWrap(s, longer, data);
    longer := SwitchesOff(s, longer);
  }

  lemma MissesTheWrap(s: State, script: seq<Action>, data: seq<byte>) returns (longer: seq<Action>)
    requires 0 < |data| && Runs(s, script) && Alone(After(s, script), data, |data| - 1, Eval2(Queued, false))
    requires Quiet(After(s, script).port.ctl)
    requires Offsets(After(s, script), 0, |After(s, script).port.out.cells| - 1)
    ensures Runs(s, longer)
    ensures var t, u := After(s, script), After(s, longer);
            && Alone(u, data, |data| - 1, Sched) && u.port.outq == t.port.outq && Offsets(u, 0, 0)
            && Quiet(u.port.ctl)
  {
    RoomIsExact(|After(s, script).port.out.cells|, 0, 0);
    longer := PrintsOne(s, script);
    longer := RunsThen(s, longer, Step(0, Plain));
  }

  ghost predicate LeadsToStall(s: State, script: seq<Action>) {
    Runs(s, script) && Stalled(After(s, script))
  }

  /** Some run stalls exactly when the tail is loaded twice. */
  lemma StallsExactlyWithTwoLoads(s: State)
    requires Initial(s) && 3 <= |s.port.out.cells|
    ensures (exists script :: LeadsToStall(s, script)) <==> s.port.reload
  {
    if s.port.reload {
      var script := TwoLoadsStall(s, s.port.out.cells + [0]);
      assert LeadsToStall(s, script);
    } else {
      forall script | Runs(s, script) ensures !LeadsToStall(s, script) {
        SingleLoadNeverStalls(s, script);
      }
    }
  }
}
