/**
 When a scull pipe can deadlock after it has been opened again: exactly if a writer sleeps at that
 moment, or is about to because it has seen the readers' pointer at offset 1, and no reader is about
 to wake it.  A writer that has seen a larger offset sleeps only on bytes that a reader will take.
 */
module ReopenDeadlock {
  import opened Ring
  import opened PipeBuffer
  import opened PipeProtocol
  import opened PipeReopen

  /** A writer that is asleep, or will be if it goes on while the ring is empty from offset 0. */
  ghost predicate Doomed(s: State, w: Pid) {
    && w in s.procs && w in s.dev.outq && s.procs[w].request.Writing?
    && (s.procs[w].pc.Sched? || (Relies(s.dev, s.procs[w]) && s.procs[w].pc.seen == 1))
  }

  /** Opening now leaves such a writer to itself. */
  ghost predicate Fatal(s: State) {
    (exists w :: Doomed(s, w)) && !(exists r :: OwesWake(s, r, true))
  }

  // ---------------------------------------------------------------- an open that is not fatal

  /** Space goes unnoticed, but some reader will still move: there are bytes, or there will be if this one sleeps. */
  ghost predicate Excused(d: Device, proc: Proc)
    requires d.Bounded()
  {
    || (proc.pc.Sched? && !d.Empty())
    || (Relies(d, proc) && 2 <= proc.pc.seen < |d.cells| && d.rp == 0)
  }

  ghost predicate Covered(s: State)
    requires s.dev.Bounded()
  {
    forall p :: p in s.procs && WriterDue(s.dev, p, s.procs[p]) ==>
      Excused(s.dev, s.procs[p]) || exists r :: OwesWake(s, r, true)
  }

  /** A reader takes bytes, or moves its pointer off the start, only with a debt to the writers. */
  lemma ExcuseOfOthers(d: Device, p: Pid, proc: Proc, luck: Luck, other: Proc)
    requires d.Bounded() && Possible(d, p, proc, luck) && ProcOk(d, proc) && Excused(d, other)
    requires d.accepted == d.delivered + d.Ring().Stored()
    ensures var (e, pc) := StepOf(d, p, proc, luck);
            && e.Bounded()
            && (Excused(e, other) || (proc.request.Reading? && proc.(pc := pc).Owes()))
  {
    if proc.Holds() {
      HolderKeepsRing(d, p, proc, luck);
    } else {
      OutsiderLeavesRing(d, p, proc, luck);
    }
  }

  lemma FullBefore(n: nat, seen: nat, wp: nat)
    requires 2 <= seen < n && wp <= n && Gap(n, seen, wp) == 0
    ensures wp == seen - 1
  {
    if seen + n - wp < 2 * n {
      ModOnce(seen + n - wp, n);
    }
  }

  /** Asleep on an old pointer means asleep on bytes. */
  lemma OwnExcuse(d: Device, p: Pid, proc: Proc, luck: Luck)
    requires d.Bounded() && Possible(d, p, proc, luck) && ProcOk(d, proc) && Excused(d, proc)
    requires var (e, pc) := StepOf(d, p, proc, luck); e.Bounded() && WriterDue(e, p, proc.(pc := pc))
    ensures var (e, pc) := StepOf(d, p, proc, luck); Excused(e, proc.(pc := pc))
  {
    if proc.pc.ReloadRest? && Gap(|d.cells|, proc.pc.seen, d.wp) == 0 {
      FullBefore(|d.cells|, proc.pc.seen, d.wp);
    }
  }

  lemma StepKeepsCovered(s: State, a: Action)
    requires Enabled(s, a) && RingOk(s) && RingOk(Do(s, a)) && Covered(s)
    ensures Covered(Do(s, a))
  {
    var t := Do(s, a);
    forall p | p in t.procs && WriterDue(t.dev, p, t.procs[p])
      ensures Excused(t.dev, t.procs[p]) || exists r :: OwesWake(t, r, true)
    {
      if p == a.p {
        OwnWriterDue(s, a);
      }
      if !WriterDue(s.dev, p, s.procs[p]) {
        NewWriterDue(s, a, p);
        assert OwesWake(t, a.p, true);
      } else if r :| OwesWake(s, r, true) {
        DebtsArePaid(s, a, r, true);
        assert OwesWake(t, r, true);
      } else if a.Step? && p == a.p {
        OwnExcuse(s.dev, p, s.procs[p], a.luck);
      } else if a.Step? {
        ExcuseOfOthers(s.dev, a.p, s.procs[a.p], a.luck, s.procs[p]);
        assert Excused(t.dev, t.procs[p]) || OwesWake(t, a.p, true);
      }
    }
  }

  /** An open that is not fatal leaves every writer covered that had a reader to wait for. */
  lemma MildOpenCovers(s: State)
    requires Rest(s) && s.dev.sem == 1 && 2 <= |s.dev.cells| && !Fatal(s)
    ensures Reopened(s).dev.Bounded() && Covered(Reopened(s))
  {
    var t := Reopened(s);
    forall p | p in t.procs && WriterDue(t.dev, p, t.procs[p])
      ensures Excused(t.dev, t.procs[p]) || exists r :: OwesWake(t, r, true)
    {
      DueAfterOpen(s, p);
      if r :| OwesWake(s, r, true) {
        assert OwesWake(t, r, true);
      } else {
        assert !Doomed(s, p);
      }
    }
  }

  lemma HarmlessIsNotFatal(s: State)
    requires Inv(s) && s.dev.sem == 1 && 2 <= |s.dev.cells| && Harmless(s)
    ensures !Fatal(s)
  {
    if w :| Doomed(s, w) {
      assert AsleepOn(s, w, false) || LooksBehind(s, w);
    }
  }

  lemma CoveredIsNoDeadlock(s: State)
    requires Rest(s) && Covered(s) && 2 <= |s.dev.cells|
    ensures !Deadlocked(s)
  {
    if Deadlocked(s) {
      var r :| AsleepOn(s, r, true);
      var w :| AsleepOn(s, w, false);
      assert forall p, reader :: OwesWake(s, p, reader) ==> CanMove(s.dev, p, s.procs[p]);
      assert !ReaderDue(s.dev, r, s.procs[r]);
      assert s.dev.Empty() && !s.dev.Full();
      assert WriterDue(s.dev, w, s.procs[w]);
    }
  }

  /** No open of the run is fatal. */
  ghost predicate Mild(s: State, moves: seq<Move>)
    requires Plays(s, moves)
    decreases |moves|
  {
    moves == [] || ((moves[0].Open? ==> !Fatal(s)) && Mild(Apply(s, moves[0]), moves[1..]))
  }

  lemma {:induction false} MildKeepsCovered(s: State, moves: seq<Move>)
    requires Rest(s) && Covered(s) && 2 <= |s.dev.cells| && Plays(s, moves) && Mild(s, moves)
    ensures Rest(End(s, moves)) && Covered(End(s, moves)) && |End(s, moves).dev.cells| == |s.dev.cells|
    decreases |moves|
  {
    if moves != [] {
      MoveKeepsRest(s, moves[0]);
      if moves[0].Open? {
        MildOpenCovers(s);
      } else {
        StepKeepsCovered(s, moves[0].action);
      }
      MildKeepsCovered(Apply(s, moves[0]), moves[1..]);
    }
  }

  /** With two bytes or more, a run without a fatal open does not deadlock, whatever else is opened. */
  lemma MildNeverDeadlocks(s: State, moves: seq<Move>)
    requires Initial(s) && 2 <= |s.dev.cells| && Plays(s, moves) && Mild(s, moves)
    ensures !Deadlocked(End(s, moves))
  {
    MildKeepsCovered(s, moves);
    CoveredIsNoDeadlock(End(s, moves));
  }

  lemma {:induction false} RunKeepsCovered(s: State, script: seq<Action>)
    requires Rest(s) && Covered(s) && Runs(s, script)
    ensures Rest(After(s, script)) && Covered(After(s, script)) && |After(s, script).dev.cells| == |s.dev.cells|
    decreases |script|
  {
    if script != [] {
      MoveKeepsRest(s, Act(script[0]));
      StepKeepsCovered(s, script[0]);
      RunKeepsCovered(Do(s, script[0]), script[1..]);
    }
  }

  // ---------------------------------------------------------------- getting everybody out of the way

  /** Nobody is inside, the ring is empty from offset 0. */
  ghost predicate Calm(s: State) {
    && s.dev.Bounded() && s.dev.rp == s.dev.wp == 0 && s.dev.sem == 1
    && forall p :: p in s.procs ==> !s.procs[p].Holds() && SeenInRange(s.dev, s.procs[p])
  }

  /** The writers to be left asleep are asleep, and nobody will wake them. */
  ghost predicate Spared(s: State, spare: set<Pid>) {
    && (forall w :: w in spare ==> AsleepOn(s, w, false))
    && (spare != {} ==> !exists r :: OwesWake(s, r, true))
  }

  /** How far a process is from returning, if it is interrupted wherever it can be. */
  function Distance(proc: Proc): nat {
    match proc.pc
    case Returned(_) => 0
    case Down => 1
    case Wake(_) => 1
    case Finish => if proc.request.Reading? then 2 else 1
    case Sched => if proc.request.Reading? then 8 else 2
    case ReloadRest(_) => 3
    case Reload => 4
    case CheckRest(_) => if proc.request.Reading? then 3 else 5
    case Check => 6
    case Prepare => 7
    case EventRest(_) => 8
    case _ => 9
  }

  /** A signal where it ends the call or the sleep, an ordinary step elsewhere. */
  function Hurry(d: Device, proc: Proc): Luck {
    if Interruptible(d, proc) then Signal else Plain
  }

  lemma HurryGetsNearer(d: Device, p: Pid, proc: Proc)
    requires d.Bounded() && d.rp == d.wp == 0 && d.sem == 1
    requires proc.Live() && !proc.Holds() && SeenInRange(d, proc)
    ensures Possible(d, p, proc, Hurry(d, proc))
    ensures var (e, pc) := StepOf(d, p, proc, Hurry(d, proc));
            && e == d.(inq := e.inq, outq := e.outq) && !proc.(pc := pc).Holds() && SeenInRange(e, proc.(pc := pc))
            && Distance(proc.(pc := pc)) < Distance(proc) && !pc.Wake?
            && (!(proc.request.Reading? && proc.pc.Wake?) ==> forall w :: w in d.outq && w != p ==> w in e.outq)
  {
  }

  /** What driving `todo` out of their calls leaves alone. */
  ghost predicate OnlyReturned(s: State, t: State, todo: set<Pid>) {
    && t.procs.Keys == s.procs.Keys && t.dev == s.dev.(inq := t.dev.inq, outq := t.dev.outq)
    && (forall p :: p in todo && p in t.procs ==> !t.procs[p].Live())
    && (forall p :: p in s.procs && p !in todo ==> t.procs[p] == s.procs[p])
  }

  lemma HurryOnce(s: State, p: Pid, spare: set<Pid>)
    requires Calm(s) && Spared(s, spare) && p in s.procs && p !in spare && s.procs[p].Live()
    ensures Possible(s.dev, p, s.procs[p], Hurry(s.dev, s.procs[p]))
    ensures var t := Do(s, Step(p, Hurry(s.dev, s.procs[p])));
            && Calm(t) && Spared(t, spare) && t.procs == s.procs[p := t.procs[p]]
            && t.dev == s.dev.(inq := t.dev.inq, outq := t.dev.outq) && Distance(t.procs[p]) < Distance(s.procs[p])
  {
    HurryGetsNearer(s.dev, p, s.procs[p]);
    var t := Do(s, Step(p, Hurry(s.dev, s.procs[p])));
    assert forall r :: OwesWake(t, r, true) ==> OwesWake(s, r, true);
    if spare != {} {
      assert !OwesWake(s, p, true);
    }
  }

  lemma {:induction false} DriveOut(s: State, script: seq<Action>, p: Pid, spare: set<Pid>) returns (longer: seq<Action>)
    requires Runs(s, script) && Calm(After(s, script)) && Spared(After(s, script), spare)
    requires p in After(s, script).procs && p !in spare
    ensures Runs(s, longer) && Calm(After(s, longer)) && Spared(After(s, longer), spare)
    ensures OnlyReturned(After(s, script), After(s, longer), {p})
    decreases Distance(After(s, script).procs[p])
  {
    longer := script;
    var t := After(s, script);
    if t.procs[p].Live() {
      var a := Step(p, Hurry(t.dev, t.procs[p]));
      HurryOnce(t, p, spare);
      RunsThen(s, script, a);
      longer := DriveOut(s, script + [a], p, spare);
    }
  }

  lemma {:induction false} DriveAll(s: State, script: seq<Action>, todo: set<Pid>, spare: set<Pid>)
    returns (longer: seq<Action>)
    requires Runs(s, script) && Calm(After(s, script)) && Spared(After(s, script), spare)
    requires todo <= After(s, script).procs.Keys && todo !! spare
    ensures Runs(s, longer) && Calm(After(s, longer)) && Spared(After(s, longer), spare)
    ensures OnlyReturned(After(s, script), After(s, longer), todo)
    decreases |todo|
  {
    longer := script;
    if p :| p in todo {
      longer := DriveOut(s, script, p, spare);
      longer := DriveAll(s, longer, todo - {p}, spare);
    }
  }

  // ---------------------------------------------------------------- a fatal open

  lemma {:induction false} FreshPid(pids: set<Pid>) returns (p: Pid)
    ensures forall q :: q in pids ==> q < p
    decreases |pids|
  {
    p := 0;
    if q :| q in pids {
      var rest := pids - {q};
      p := FreshPid(rest);
      p := if p <= q then q + 1 else p;
      assert forall k :: k in pids ==> k == q || k in rest;
    }
  }

  /** A doomed writer goes to sleep, if it has not yet. */
  lemma DoomedSleeps(s: State, script: seq<Action>, w: Pid) returns (longer: seq<Action>)
    requires Runs(s, script) && Calm(After(s, script)) && 2 <= |After(s, script).dev.cells|
    requires Doomed(After(s, script), w) && Spared(After(s, script), {})
    requires !exists r :: OwesWake(After(s, script), r, true)
    ensures Runs(s, longer) && Calm(After(s, longer)) && Spared(After(s, longer), {w})
    ensures After(s, longer).dev == After(s, script).dev && After(s, longer).procs.Keys == After(s, script).procs.Keys
  {
    var t := After(s, script);
    var proc := t.procs[w];
    var states := [t];
    if proc.pc.CheckRest? {
      states := states + [State(t.dev, t.procs[w := proc.(pc := ReloadRest(1))])];
    }
    if !proc.pc.Sched? {
      states := states + [State(t.dev, t.procs[w := proc.(pc := Sched)])];
    }
    longer := StepsThen(s, script, w, states);
    var u := After(s, longer);
    assert AsleepOn(u, w, false);
    assert forall r :: OwesWake(u, r, true) ==> OwesWake(t, r, true);
  }

  lemma TwoSleepers(s: State, r: Pid, w: Pid)
    requires AsleepOn(s, r, true) && AsleepOn(s, w, false)
    requires forall p :: p in s.procs && p != r && p != w ==> !s.procs[p].Live()
    ensures Deadlocked(s)
  {
  }

  /** Everybody else out, a reader finds the ring empty: both sleep for good. */
  lemma FatalOpenDeadlocks(s: State) returns (script: seq<Action>)
    requires Rest(s) && s.dev.sem == 1 && 2 <= |s.dev.cells| && Fatal(s)
    ensures LeadsToDeadlock(Reopened(s), script)
  {
    var t := Reopened(s);
    var w :| Doomed(s, w);
    assert Doomed(t, w) && forall r :: OwesWake(t, r, true) ==> OwesWake(s, r, true);
    script := DoomedSleeps(t, [], w);
    script := DriveAll(t, script, t.procs.Keys - {w}, {w});
    var u := After(t, script);
    var r := FreshPid(t.procs.Keys);
    script := ReaderFallsAsleep(t, script, r);
    var v := After(t, script);
    assert v.procs == u.procs[r := v.procs[r]] && AsleepOn(u, w, false);
    TwoSleepers(v, r, w);
  }

  /** With a single byte there is no need of a forgotten writer. */
  lemma OneByteStillDeadlocks(s: State) returns (script: seq<Action>)
    requires Rest(s) && s.dev.sem == 1 && |s.dev.cells| == 1
    ensures LeadsToDeadlock(Reopened(s), script)
  {
    var t := Reopened(s);
    script := DriveAll(t, [], t.procs.Keys, {});
    var u := After(t, script);
    var r := FreshPid(t.procs.Keys);
    script := ReaderFallsAsleep(t, script, r);
    var v := After(t, script);
    assert v.procs == u.procs[r := v.procs[r]];
    script := WriterFallsAsleep(t, script, r + 1);
    var x := After(t, script);
    assert x.procs == v.procs[r + 1 := x.procs[r + 1]];
    TwoSleepers(x, r, r + 1);
  }

  /**
   In any state that reads, writes and opens can lead to, whatever was forgotten before: if the pipe is
   opened now, some run after that deadlocks if and only if it has a single byte or the open is fatal.
   */
  lemma OpenDeadlocksExactly(s: State)
    requires Rest(s) && s.dev.sem == 1
    ensures (exists script :: LeadsToDeadlock(Reopened(s), script)) <==> |s.dev.cells| == 1 || Fatal(s)
  {
    if |s.dev.cells| == 1 {
      var script := OneByteStillDeadlocks(s);
    } else if Fatal(s) {
      var script := FatalOpenDeadlocks(s);
    } else {
      ReopeningKeepsRest(s);
      MildOpenCovers(s);
      forall script | Runs(Reopened(s), script) ensures !LeadsToDeadlock(Reopened(s), script) {
        RunKeepsCovered(Reopened(s), script);
        CoveredIsNoDeadlock(After(Reopened(s), script));
      }
    }
  }

  /** The same for the state at the end of any run. */
  lemma OpensDeadlockExactly(s: State, moves: seq<Move>)
    requires Initial(s) && Plays(s, moves) && End(s, moves).dev.sem == 1
    ensures (exists script :: LeadsToDeadlock(Reopened(End(s, moves)), script)) <==>
              |s.dev.cells| == 1 || Fatal(End(s, moves))
  {
    PlayKeepsRest(s, moves);
    OpenDeadlocksExactly(End(s, moves));
  }

  /** An open that forgets a writer without being fatal: what the writer sleeps on, a reader takes. */
  lemma ForgottenNotFatal()
    ensures var s := State(Device(true, [0, 0, 0], 2, 1, 1, {}, {0}, [0, 0], []),
                           map[0 := Proc(Writing([0]), false, ReloadRest(2))]);
            Inv(s) && !Harmless(s) && !exists script :: LeadsToDeadlock(Reopened(s), script)
  {
    var s := State(Device(true, [0, 0, 0], 2, 1, 1, {}, {0}, [0, 0], []),
                   map[0 := Proc(Writing([0]), false, ReloadRest(2))]);
    assert LooksBehind(s, 0);
    OpenDeadlocksExactly(s);
  }
}
