/**
 The single-open device: an atomic counter that starts at one.  An opener decrements and tests it in
 one step, and if that did not bring it to zero increments it again in a later step; closing
 increments it.  Any number of processes try.
 */
module SingleOpen {
  type Pid = nat

  datatype Pc =
    | Trying    // about to decrement and test
    | Undoing   // the test failed, about to increment again
    | Busy      // returned with EBUSY
    | Holding   // has the device open
    | Closed

  datatype State = State(available: int, procs: map<Pid, Pc>)

  datatype Action = Open(p: Pid) | Step(p: Pid)

  function Holders(s: State): set<Pid> {
    set p | p in s.procs && s.procs[p].Holding?
  }

  function Undoers(s: State): set<Pid> {
    set p | p in s.procs && s.procs[p].Undoing?
  }

  predicate Enabled(s: State, a: Action) {
    match a
    case Open(p) => p in s.procs ==> s.procs[p].Busy? || s.procs[p].Closed?
    case Step(p) => p in s.procs && !s.procs[p].Busy? && !s.procs[p].Closed?
  }

  function Do(s: State, a: Action): State
    requires Enabled(s, a)
  {
    match a
    case Open(p) => s.(procs := s.procs[p := Trying])
    case Step(p) =>
      match s.procs[p]
      case Trying => State(s.available - 1, s.procs[p := if s.available - 1 == 0 then Holding else Undoing])
      case Undoing => State(s.available + 1, s.procs[p := Busy])
      case Holding => State(s.available + 1, s.procs[p := Closed])
      case _ => s
  }

  ghost predicate Runs(s: State, script: seq<Action>)
    decreases |script|
  {
    script == [] || (Enabled(s, script[0]) && Runs(Do(s, script[0]), script[1..]))
  }

  function After(s: State, script: seq<Action>): State
    requires Runs(s, script)
    decreases |script|
  {
    if script == [] then s else After(Do(s, script[0]), script[1..])
  }

  const START := State(1, map[])

  ghost predicate Inv(s: State) {
    && s.available == 1 - |Holders(s)| - |Undoers(s)|
    && |Holders(s)| <= 1
  }

  lemma Moved(s: State, n: int, p: Pid, pc: Pc)
    ensures var t := State(n, s.procs[p := pc]);
            && Holders(t) == (if pc.Holding? then Holders(s) + {p} else Holders(s) - {p})
            && Undoers(t) == (if pc.Undoing? then Undoers(s) + {p} else Undoers(s) - {p})
  {
  }

  lemma StepKeepsInv(s: State, a: Action)
    requires Enabled(s, a) && Inv(s)
    ensures Inv(Do(s, a))
  {
    var t := Do(s, a);
    Moved(s, t.available, a.p, t.procs[a.p]);
    assert a.p in Holders(s) <==> a.p in s.procs && s.procs[a.p].Holding?;
    assert a.p in Undoers(s) <==> a.p in s.procs && s.procs[a.p].Undoing?;
  }

  lemma {:induction false} RunKeepsInv(s: State, script: seq<Action>)
    requires Inv(s) && Runs(s, script)
    ensures Inv(After(s, script))
    decreases |script|
  {
    if script != [] {
      StepKeepsInv(s, script[0]);
      RunKeepsInv(Do(s, script[0]), script[1..]);
    }
  }

  /** The counter is one less the holders less the failed openers not yet undone, and nobody shares the device. */
  lemma AtMostOneHolder(script: seq<Action>, p: Pid, q: Pid)
    requires Runs(START, script)
    ensures var s := After(START, script);
            && s.available == 1 - |Holders(s)| - |Undoers(s)|
            && (p in Holders(s) && q in Holders(s) ==> p == q)
  {
    RunKeepsInv(START, script);
    var s := After(START, script);
    if p in Holders(s) && q in Holders(s) && p != q {
      assert {p, q} <= Holders(s);
      Smaller({p, q}, Holders(s));
    }
  }

  lemma {:induction false} Smaller(a: set<Pid>, b: set<Pid>)
    requires a <= b
    ensures |a| <= |b|
  {
    if a != {} {
      var x :| x in a;
      Smaller(a - {x}, b - {x});
    }
  }

  /** An attempt succeeds exactly when nobody holds the device and no failed attempt is still to be undone. */
  lemma SucceedsExactlyWhenFree(script: seq<Action>, p: Pid)
    requires Runs(START, script)
    requires var s := After(START, script); p in s.procs && s.procs[p].Trying?
    ensures var s := After(START, script);
            Do(s, Step(p)).procs[p].Holding? <==> Holders(s) == {} && Undoers(s) == {}
  {
    RunKeepsInv(START, script);
  }

  /** So an attempt can fail although nobody has the device open: two failures can outlast the holder. */
  lemma BusyWithoutHolder()
    ensures var script := [Open(0), Open(1), Open(2), Step(0), Step(1), Step(0)];
            && Runs(START, script)
            && Holders(After(START, script)) == {}
            && Do(After(START, script), Step(2)).procs[2].Undoing?
  {
  }

  /** With nobody in between, the device is free exactly when nobody has it open. */
  lemma QuietMeansFree(script: seq<Action>)
    requires Runs(START, script) && Undoers(After(START, script)) == {}
    ensures After(START, script).available == 1 <==> Holders(After(START, script)) == {}
  {
    RunKeepsInv(START, script);
  }

  // ---------------------------------------------------------------- what a call answers

  /** How many steps a process has made since it last called open, and whether the device was free at the first. */
  datatype Past = Past(steps: nat, free: bool)

  function Later(s: State, a: Action, p: Pid, past: Past): Past {
    if a.p != p then past
    else match a
      case Open(_) => Past(0, false)
      case Step(_) => Past(past.steps + 1, if past.steps == 0 then Holders(s) == {} && Undoers(s) == {} else past.free)
  }

  function PastOf(s: State, script: seq<Action>, p: Pid, past: Past): Past
    requires Runs(s, script)
    decreases |script|
  {
    if script == [] then past else PastOf(Do(s, script[0]), script[1..], p, Later(s, script[0], p, past))
  }

  /** One attempt to a call: it has the device until it closes it, or is busy once it has undone its decrement. */
  predicate Fair(pc: Pc, past: Past) {
    && past.steps <= 2
    && (pc.Trying? <==> past.steps == 0)
    && (pc.Holding? <==> past.steps == 1 && past.free)
    && (pc.Undoing? <==> past.steps == 1 && !past.free)
    && (pc.Closed? <==> past.steps == 2 && past.free)
    && (pc.Busy? <==> past.steps == 2 && !past.free)
  }

  lemma {:induction false} RunIsFair(s: State, script: seq<Action>, p: Pid, past: Past)
    requires Inv(s) && Runs(s, script) && p in After(s, script).procs && (p in s.procs ==> Fair(s.procs[p], past))
    ensures Fair(After(s, script).procs[p], PastOf(s, script, p, past))
    decreases |script|
  {
    if script != [] {
      StepKeepsInv(s, script[0]);
      RunIsFair(Do(s, script[0]), script[1..], p, Later(s, script[0], p, past));
    }
  }

  /** In every run a call makes a single attempt, and ends busy exactly if that did not find the device free. */
  lemma OneAttemptEach(script: seq<Action>, p: Pid)
    requires Runs(START, script) && p in After(START, script).procs
    ensures var pc, past := After(START, script).procs[p], PastOf(START, script, p, Past(0, false));
            && (pc.Busy? <==> past.steps == 2 && !past.free) && (pc.Closed? <==> past.steps == 2 && past.free)
            && (pc.Holding? <==> past.steps == 1 && past.free) && past.steps <= 2
  {
    RunIsFair(START, script, p, Past(0, false));
  }
}
