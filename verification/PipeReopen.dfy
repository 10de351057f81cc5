/**
 A scull pipe that is opened again while it is in use.  Opening empties the ring under the semaphore
 and wakes nobody, so a writer that sleeps for space sleeps on although there is space.
 */
module PipeReopen {
  import opened Ring
  import opened PipeProtocol

  /** What a further open does to the device; the histories start over with the emptied ring. */
  function Reopened(s: State): State {
    s.(dev := s.dev.(rp := 0, wp := 0, accepted := [], delivered := []))
  }

  /** A writer between loading the readers' pointer and using it, which an emptied ring makes stale. */
  ghost predicate LooksBehind(s: State, p: Pid) {
    && p in s.procs && p in s.dev.outq && Relies(s.dev, s.procs[p])
    && 0 < s.procs[p].pc.seen < |s.dev.cells|
  }

  /** The ring is of no use anyway, no writer sleeps or is about to, or some reader is about to wake the writers. */
  ghost predicate Harmless(s: State) {
    || |s.dev.cells| == 1
    || (forall p :: !AsleepOn(s, p, false) && !LooksBehind(s, p))
    || (exists r :: OwesWake(s, r, true))
  }

  /** All of the invariant but the part about sleeping writers. */
  ghost predicate Rest(s: State) {
    RingOk(s) && Exclusive(s) && QueuesOk(s) && ReadersNotForgotten(s)
  }

  lemma ReopeningKeepsRest(s: State)
    requires Rest(s) && s.dev.sem == 1
    ensures Rest(Reopened(s))
  {
  }

  lemma EmptiedHasSpace(s: State)
    requires RingOk(s)
    ensures Reopened(s).dev.Bounded() && (Reopened(s).dev.Full() <==> |s.dev.cells| == 1)
  {
  }

  /** After the open a writer misses space if it sleeps and there is any, or if it has seen another pointer. */
  lemma DueAfterOpen(s: State, p: Pid)
    requires RingOk(s) && p in s.procs
    ensures Reopened(s).dev.Bounded()
    ensures WriterDue(Reopened(s).dev, p, s.procs[p]) <==>
              (AsleepOn(s, p, false) && |s.dev.cells| != 1) || LooksBehind(s, p)
  {
    EmptiedHasSpace(s);
  }

  /** Opening forgets a writer exactly if it is not harmless. */
  lemma ReopeningForgetsWriters(s: State)
    requires Inv(s) && s.dev.sem == 1
    ensures Inv(Reopened(s)) <==> Harmless(s)
  {
    ReopeningKeepsRest(s);
    var t := Reopened(s);
    forall p | p in s.procs
      ensures WriterDue(t.dev, p, t.procs[p]) <==> (AsleepOn(s, p, false) && |s.dev.cells| != 1) || LooksBehind(s, p)
    {
      DueAfterOpen(s, p);
    }
    assert forall r :: OwesWake(t, r, true) <==> OwesWake(s, r, true);
  }

  // ---------------------------------------------------------------- runs with opens

  /** Opening takes the semaphore and gives it back, so it is one move. */
  datatype Move = Act(action: Action) | Open

  ghost predicate Allowed(s: State, m: Move) {
    match m
    case Act(a) => Enabled(s, a)
    case Open => s.dev.sem == 1
  }

  function Apply(s: State, m: Move): State
    requires Allowed(s, m)
  {
    match m
    case Act(a) => Do(s, a)
    case Open => Reopened(s)
  }

  ghost predicate Plays(s: State, moves: seq<Move>)
    decreases |moves|
  {
    moves == [] || (Allowed(s, moves[0]) && Plays(Apply(s, moves[0]), moves[1..]))
  }

  function End(s: State, moves: seq<Move>): State
    requires Plays(s, moves)
    decreases |moves|
  {
    if moves == [] then s else End(Apply(s, moves[0]), moves[1..])
  }

  lemma MoveKeepsRest(s: State, m: Move)
    requires Rest(s) && Allowed(s, m)
    ensures Rest(Apply(s, m)) && |Apply(s, m).dev.cells| == |s.dev.cells|
  {
    match m
    case Open =>
      ReopeningKeepsRest(s);
    case Act(a) =>
      StepKeepsExclusive(s, a);
      StepKeepsQueues(s, a);
      StepKeepsRing(s, a);
      StepKeepsReaders(s, a);
      CellsStay(s, a);
  }

  lemma CellsStay(s: State, a: Action)
    requires Enabled(s, a) && RingOk(s)
    ensures |Do(s, a).dev.cells| == |s.dev.cells|
  {
  }

  lemma {:induction false} PlayKeepsRest(s: State, moves: seq<Move>)
    requires Rest(s) && Plays(s, moves)
    ensures Rest(End(s, moves)) && |End(s, moves).dev.cells| == |s.dev.cells|
    decreases |moves|
  {
    if moves != [] {
      MoveKeepsRest(s, moves[0]);
      PlayKeepsRest(Apply(s, moves[0]), moves[1..]);
    }
  }

  /**
   Opens at any moment and in any number cost the readers nothing, let nobody in beside another, and
   leave exactly the bytes accepted and not yet delivered since the latest of them.
   */
  lemma OpensAreSafe(s: State, moves: seq<Move>)
    requires Initial(s) && Plays(s, moves)
    ensures var t := End(s, moves);
            && t.dev.Bounded() && t.dev.accepted == t.dev.delivered + t.dev.Ring().Stored()
            && (forall p, q :: p in t.procs && q in t.procs && t.procs[p].Holds() && t.procs[q].Holds() ==> p == q)
            && forall p :: AsleepOn(t, p, true) && t.dev.Ring().Stored() != [] ==> exists w :: OwesWake(t, w, false)
  {
    PlayKeepsRest(s, moves);
  }

  // ---------------------------------------------------------------- when writers are remembered

  /** Every open of the run is made at a harmless moment. */
  ghost predicate Careful(s: State, moves: seq<Move>)
    requires Plays(s, moves)
    decreases |moves|
  {
    moves == [] || ((moves[0].Open? ==> Harmless(s)) && Careful(Apply(s, moves[0]), moves[1..]))
  }

  /** Nobody is forgotten at any point of the run. */
  ghost predicate NeverForgets(s: State, moves: seq<Move>)
    requires Plays(s, moves)
    decreases |moves|
  {
    Inv(s) && (moves == [] || NeverForgets(Apply(s, moves[0]), moves[1..]))
  }

  lemma {:induction false} CarefulNeverForgets(s: State, moves: seq<Move>)
    requires Inv(s) && Plays(s, moves)
    ensures NeverForgets(s, moves) <==> Careful(s, moves)
    decreases |moves|
  {
    if moves != [] {
      if moves[0].Open? {
        ReopeningForgetsWriters(s);
      } else {
        StepKeepsInv(s, moves[0].action);
      }
      if Inv(Apply(s, moves[0])) {
        CarefulNeverForgets(Apply(s, moves[0]), moves[1..]);
      }
    }
  }

  // ---------------------------------------------------------------- the deadlock

  lemma {:induction false} PlaysThen(s: State, moves: seq<Move>, script: seq<Action>) returns (longer: seq<Move>)
    requires Plays(s, moves) && Runs(End(s, moves), script)
    ensures Plays(s, longer) && End(s, longer) == After(End(s, moves), script)
    ensures Opens(longer) == Opens(moves)
    decreases |script|
  {
    longer := moves;
    if script != [] {
      PlaysOneMore(s, moves, Act(script[0]));
      longer := PlaysThen(s, moves + [Act(script[0])], script[1..]);
    }
  }

  lemma {:induction false} PlaysOneMore(s: State, moves: seq<Move>, m: Move)
    requires Plays(s, moves) && Allowed(End(s, moves), m)
    ensures Plays(s, moves + [m]) && End(s, moves + [m]) == Apply(End(s, moves), m)
    ensures Opens(moves + [m]) == Opens(moves) + (if m.Open? then 1 else 0)
    decreases |moves|
  {
    if moves == [] {
      assert moves + [m] == [m];
      assert [m][1..] == [];
    } else {
      PlaysOneMore(Apply(s, moves[0]), moves[1..], m);
      assert (moves + [m])[1..] == moves[1..] + [m];
    }
  }

  function Opens(moves: seq<Move>): nat {
    if moves == [] then 0 else Opens(moves[1..]) + (if moves[0].Open? then 1 else 0)
  }

  /** A write on an idle empty pipe gets as far as its copy. */
  lemma WriterEnters(s: State, script: seq<Action>, p: Pid, data: seq<byte>) returns (longer: seq<Action>)
    requires Runs(s, script)
    requires var t := After(s, script);
             && t.dev.Bounded() && t.dev.sem == 1 && t.dev.rp == t.dev.wp == 0 && 1 < |t.dev.cells| && p !in t.procs
    ensures var t := After(s, script);
            && Runs(s, longer)
            && After(s, longer) == State(t.dev.(sem := 0), t.procs[p := Proc(Writing(data), false, Copy)])
  {
    var t := After(s, script);
    var proc, taken := Proc(Writing(data), false, Down), t.dev.(sem := 0);
    RunsThen(s, script, Call(p, proc.request, false));
    longer := StepsThen(s, script + [Call(p, proc.request, false)], p, [
      State(t.dev, t.procs[p := proc]), State(taken, t.procs[p := proc.(pc := Test)]),
      State(taken, t.procs[p := proc.(pc := Copy)])]);
  }

  lemma FillingCopy(d: Device, p: Pid, data: seq<byte>)
    requires d.Bounded() && d.rp == d.wp == 0 && 0 < |data| == |d.cells| - 1
    ensures WriterStep(d, p, Proc(Writing(data), false, Copy)) ==
            (d.(cells := Splice(d.cells, 0, data), wp := |data|, accepted := d.accepted + data), Adjust(|data|))
  {
    assert data[..|data|] == data;
  }

  lemma WriterReturns(s: State, script: seq<Action>, p: Pid, k: nat) returns (longer: seq<Action>)
    requires Runs(s, script)
    requires var t := After(s, script);
             && t.dev.Bounded() && t.dev.sem == 0 && t.dev.wp < |t.dev.cells|
             && p in t.procs && t.procs[p].request.Writing? && t.procs[p].pc == Adjust(k)
    ensures var t := After(s, script);
            && Runs(s, longer)
            && After(s, longer) == State(t.dev.(sem := 1, inq := {}), t.procs[p := t.procs[p].(pc := Returned(Count(k)))])
  {
    var t := After(s, script);
    var d, proc := t.dev, t.procs[p];
    longer := StepsThen(s, script, p, [
      t, State(d, t.procs[p := proc.(pc := Up(k))]), State(d.(sem := 1), t.procs[p := proc.(pc := Wake(k))]),
      State(d.(sem := 1, inq := {}), t.procs[p := proc.(pc := Returned(Count(k)))])]);
  }

  /** Once there it stores all it can, which here is all it has, and returns. */
  lemma WriterFills(s: State, script: seq<Action>, p: Pid, data: seq<byte>) returns (longer: seq<Action>)
    requires Runs(s, script)
    requires var t := After(s, script);
             && t.dev.Bounded() && t.dev.sem == 1 && t.dev.rp == t.dev.wp == 0 && p !in t.procs
             && 0 < |data| == |t.dev.cells| - 1
    ensures var t := After(s, script);
            && Runs(s, longer)
            && After(s, longer) == State(
                 t.dev.(cells := Splice(t.dev.cells, 0, data), wp := |data|, accepted := t.dev.accepted + data, inq := {}),
                 t.procs[p := Proc(Writing(data), false, Returned(Count(|data|)))])
  {
    var t := After(s, script);
    var proc, k := Proc(Writing(data), false, Copy), |data|;
    var stored := t.dev.(cells := Splice(t.dev.cells, 0, data), wp := k, accepted := t.dev.accepted + data, sem := 0);
    longer := WriterEnters(s, script, p, data);
    FillingCopy(t.dev.(sem := 0), p, data);
    RunsThen(s, longer, Step(p, Plain));
    assert After(s, longer + [Step(p, Plain)]) == State(stored, t.procs[p := proc.(pc := Adjust(k))]);
    longer := WriterReturns(s, longer + [Step(p, Plain)], p, k);
  }

  /** A queued writer looks again and loads the readers' pointer, at the start, once or twice. */
  lemma WriterLooks(s: State, script: seq<Action>, p: Pid) returns (longer: seq<Action>)
    requires Runs(s, script)
    requires var t := After(s, script);
             && t.dev.Bounded() && t.dev.rp == 0 < t.dev.wp
             && p in t.procs && t.procs[p].request.Writing? && t.procs[p].pc.Check?
    ensures var t := After(s, script);
            Runs(s, longer) && After(s, longer) == State(t.dev, t.procs[p := t.procs[p].(pc := ReloadRest(0))])
  {
    var t := After(s, script);
    var proc := t.procs[p];
    var states := [t, State(t.dev, t.procs[p := proc.(pc := CheckRest(0))])];
    if t.dev.reload {
      states := states + [State(t.dev, t.procs[p := proc.(pc := Reload)])];
    }
    longer := StepsThen(s, script, p, states + [State(t.dev, t.procs[p := proc.(pc := ReloadRest(0))])]);
  }

  /** A write on an idle full pipe falls asleep. */
  lemma WriterBlocks(s: State, script: seq<Action>, p: Pid) returns (longer: seq<Action>)
    requires Runs(s, script)
    requires var t := After(s, script);
             && t.dev.Bounded() && t.dev.sem == 1 && t.dev.rp == 0 && t.dev.wp == |t.dev.cells| - 1 && 0 < t.dev.wp
             && p !in t.procs
    ensures var t := After(s, script);
            && Runs(s, longer)
            && After(s, longer) == State(t.dev.(outq := t.dev.outq + {p}), t.procs[p := Proc(Writing([0]), false, Sched)])
  {
    var t := After(s, script);
    var queued, proc := t.dev.(outq := t.dev.outq + {p}), Proc(Writing([0]), false, Check);
    longer := WriterQueues(s, script, p);
    longer := WriterLooks(s, longer, p);
    longer := StepsThen(s, longer, p, [
      State(queued, t.procs[p := proc.(pc := ReloadRest(0))]), State(queued, t.procs[p := proc.(pc := Sched)])]);
  }

  /** One process fills the pipe, another falls asleep for space. */
  lemma FillsAndBlocks(s: State) returns (script: seq<Action>)
    requires Initial(s) && 2 <= |s.dev.cells|
    ensures Runs(s, script)
    ensures var t := After(s, script);
            && t.dev.Bounded() && t.dev.sem == 1 && |t.dev.cells| == |s.dev.cells| && t.dev.inq == {}
            && t.procs.Keys == {0, 1} && !t.procs[0].Live() && AsleepOn(t, 1, false)
  {
    script := WriterFills(s, [], 0, seq(|s.dev.cells| - 1, _ => 0));
    script := WriterBlocks(s, script, 1);
  }

  /**
   For every size with usable space: one process fills the pipe, another falls asleep for space, the
   pipe is opened once more, and a reader finds it empty.  Both sleep for good, with all the space free.
   */
  lemma OneOpenDeadlocks(s: State) returns (before: seq<Move>, moves: seq<Move>)
    requires Initial(s) && 2 <= |s.dev.cells|
    ensures Plays(s, before) && End(s, before).dev.sem == 1 && Opens(before) == 0
    ensures End(s, before).dev.Bounded() && !WritersNotForgotten(Reopened(End(s, before)))
    ensures Plays(s, moves) && Opens(moves) == 1 && Deadlocked(End(s, moves))
    ensures End(s, moves).dev.Bounded() && End(s, moves).dev.Ring().Stored() == []
  {
    var script := FillsAndBlocks(s);
    before := PlaysThen(s, [], script);
    var t := End(s, before);
    PlaysOneMore(s, before, Open);
    assert WriterDue(Reopened(t).dev, 1, Reopened(t).procs[1]);
    script := ReaderFallsAsleep(Reopened(t), [], 2);
    moves := PlaysThen(s, before + [Open], script);
    var u := End(s, moves);
    assert AsleepOn(u, 2, true) && AsleepOn(u, 1, false);
  }
}
