/**
 The two devices that belong to whoever opens them first: others are refused (sculluid) or wait for
 their turn (scullwuid).  Any number of processes open and close; a step is what one does between
 two points where others can interfere.  The test that wait_event makes is not protected by the
 lock: it reads the count in one step and the owner in each of the next two.
 */
module OwnerOpen {
  type Pid = nat

  type Uid = nat

  datatype Cred = Cred(uid: Uid, euid: Uid, capable: bool) {
    predicate Matches(owner: Uid) {
      owner == uid || MatchesAsEuid(owner)
    }

    predicate MatchesAsEuid(owner: Uid) {
      owner == euid || capable
    }
  }

  datatype Errno = EBUSY | EAGAIN | ERESTARTSYS

  datatype Result = Refused(errno: Errno) | Released

  datatype Pc =
    // open
    | Lock                    // about to take the lock
    | Test                    // holds it, about to test
    | Deny                    // holds it, not admitted, about to release it
    | Claim                   // holds it, about to become owner if the count is zero
    | Increment               // holds it, about to count itself
    | Leave                   // holds it, counted, about to release it
    | Opened                  // has the device open
    // wait_event
    | EventCount              // about to read the count
    | EventUid                // about to read the owner and compare it with the uid
    | EventEuid               // about to read it again for the euid, and to ask for the capability
    | Prepare                 // about to join the wait queue
    | CheckCount              // queued, about to read the count
    | CheckUid                // queued, about to read the owner and compare it with the uid
    | CheckEuid               // queued, about to read it again for the euid, and to ask for the capability
    | Sleep                   // queued and gone to sleep until woken
    | Finish                  // about to leave the queue
    // release
    | LockAgain               // about to take the lock
    | Decrement               // holds it, about to stop being counted
    | Unlock(seen: int)       // holds it, about to release it, having seen that count
    | Wake(seen: int)         // about to wake the queue if it saw zero
    | Gone(result: Result)

  datatype Proc = Proc(cred: Cred, nonblocking: bool, pc: Pc) {
    predicate Holds() {
      pc.Test? || pc.Deny? || pc.Claim? || pc.Increment? || pc.Leave? || pc.Decrement? || pc.Unlock?
    }

    /** Is the process one of those the count stands for? */
    predicate Counted() {
      pc.Leave? || pc.Opened? || pc.LockAgain? || pc.Decrement?
    }

    /** Saw the count go to zero and has not yet woken the queue. */
    predicate Owes() {
      (pc.Unlock? || pc.Wake?) && pc.seen == 0
    }
  }

  /** `waits` tells the blocking device from the refusing one. */
  datatype Device = Device(waits: bool, count: int, owner: Uid, locked: bool, queue: set<Pid>) {
    predicate Available(cred: Cred) {
      count == 0 || cred.Matches(owner)
    }
  }

  datatype State = State(dev: Device, procs: map<Pid, Proc>)

  datatype Action = Open(p: Pid, cred: Cred, nonblocking: bool) | Close(p: Pid) | Step(p: Pid) | Signal(p: Pid)

  predicate CanMove(d: Device, p: Pid, pc: Pc) {
    match pc
    case Lock => !d.locked
    case LockAgain => !d.locked
    case Sleep => p !in d.queue
    case Opened => false
    case Gone(_) => false
    case _ => true
  }

  predicate Enabled(s: State, a: Action) {
    match a
    case Open(p, _, _) => p in s.procs ==> s.procs[p].pc.Gone?
    case Close(p) => p in s.procs && s.procs[p].pc.Opened?
    case Step(p) => p in s.procs && CanMove(s.dev, p, s.procs[p].pc)
    case Signal(p) =>
      p in s.procs && (s.procs[p].pc.Sleep? || (s.procs[p].pc.CheckEuid? && !s.procs[p].cred.MatchesAsEuid(s.dev.owner)))
  }

  /** One step of a process, named by the source line it stands at. */
  function StepOf(d: Device, p: Pid, proc: Proc): (Device, Pc)
    requires CanMove(d, p, proc.pc)
  {
    match proc.pc
    case Lock => (d.(locked := true), Test)
    case Test => (d, if d.Available(proc.cred) then Claim else Deny)
    case Deny =>
      (d.(locked := false),
       if !d.waits then Gone(Refused(EBUSY)) else if proc.nonblocking then Gone(Refused(EAGAIN)) else EventCount)
    case Claim => (if d.count == 0 then d.(owner := proc.cred.uid) else d, Increment)
    case Increment => (d.(count := d.count + 1), Leave)
    case Leave => (d.(locked := false), Opened)
    case EventCount => (d, if d.count == 0 then Lock else EventUid)
    case EventUid => (d, if proc.cred.uid == d.owner then Lock else EventEuid)
    case EventEuid => (d, if proc.cred.MatchesAsEuid(d.owner) then Lock else Prepare)
    case Prepare => (d.(queue := d.queue + {p}), CheckCount)
    case CheckCount => (d, if d.count == 0 then Finish else CheckUid)
    case CheckUid => (d, if proc.cred.uid == d.owner then Finish else CheckEuid)
    case CheckEuid => (d, if proc.cred.MatchesAsEuid(d.owner) then Finish else Sleep)
    case Sleep => (d, Prepare)
    case Finish => (d.(queue := d.queue - {p}), Lock)
    case LockAgain => (d.(locked := true), Decrement)
    case Decrement => (d.(count := d.count - 1), Unlock(d.count - 1))
    case Unlock(seen) => (d.(locked := false), if d.waits then Wake(seen) else Gone(Released))
    case Wake(seen) => (if seen == 0 then d.(queue := {}) else d, Gone(Released))
    case _ => (d, proc.pc)
  }

  function Do(s: State, a: Action): State
    requires Enabled(s, a)
  {
    match a
    case Open(p, cred, nonblocking) => s.(procs := s.procs[p := Proc(cred, nonblocking, Lock)])
    case Close(p) => s.(procs := s.procs[p := s.procs[p].(pc := LockAgain)])
    case Step(p) =>
      var (d, pc) := StepOf(s.dev, p, s.procs[p]);
      State(d, s.procs[p := s.procs[p].(pc := pc)])
    case Signal(p) =>
      // A sleeper looks once more; one that has looked in vain gives up.
      if s.procs[p].pc.Sleep? then s.(procs := s.procs[p := s.procs[p].(pc := Prepare)])
      else State(s.dev.(queue := s.dev.queue - {p}), s.procs[p := s.procs[p].(pc := Gone(Refused(ERESTARTSYS)))])
  }

  ghost predicate Runs(s: State, script: seq<Action>)
    decreases |script|
  {
    script == [] || (Enabled(s, script[0]) && Runs(Do(s, script[0]), script[1..]))
  }

  function After(s: State, script: seq<Action>): State
    requires Runs(s, script)
    decreases |script|
  {
    if script == [] then s else After(Do(s, script[0]), script[1..])
  }

  ghost predicate Initial(s: State) {
    s.dev.count == 0 && !s.dev.locked && s.dev.queue == {} && s.procs == map[]
  }

  /** The processes that the count stands for: those between being counted in and being counted out. */
  function Users(procs: map<Pid, Proc>): set<Pid> {
    set p | p in procs && procs[p].Counted()
  }

  // ---------------------------------------------------------------- the invariant

  ghost predicate IsHolder(s: State, h: Pid) {
    && h in s.procs && s.procs[h].Holds()
    && forall p :: p in s.procs && s.procs[p].Holds() ==> p == h
  }

  ghost predicate Exclusive(s: State) {
    || (!s.dev.locked && forall p :: p in s.procs ==> !s.procs[p].Holds())
    || (s.dev.locked && exists h :: IsHolder(s, h))
  }

  ghost predicate CountOk(s: State) {
    s.dev.count == |Users(s.procs)|
  }

  /** Whoever is or is about to be counted belongs to the owner. */
  ghost predicate Belongs(d: Device, proc: Proc) {
    && (proc.Counted() || proc.pc.Increment? ==> proc.cred.Matches(d.owner))
    && (proc.pc.Claim? ==> d.Available(proc.cred))
  }

  ghost predicate OwnersOk(s: State) {
    forall p :: p in s.procs ==> Belongs(s.dev, s.procs[p])
  }

  ghost predicate Owing(s: State, r: Pid) {
    r in s.procs && s.procs[r].Owes()
  }

  /** Should the process be on its way to be woken? */
  ghost predicate Overdue(d: Device, p: Pid, proc: Proc) {
    && p in d.queue
    && ((proc.pc.CheckUid? && d.count == 0)
        || (proc.pc.CheckEuid? && (d.count == 0 || d.owner == proc.cred.uid))
        || (proc.pc.Sleep? && d.Available(proc.cred)))
  }

  ghost predicate NotForgotten(s: State) {
    s.dev.waits ==> forall p :: p in s.procs && Overdue(s.dev, p, s.procs[p]) ==> exists r :: Owing(s, r)
  }

  ghost predicate Inv(s: State) {
    Exclusive(s) && CountOk(s) && OwnersOk(s) && NotForgotten(s)
  }

  // ---------------------------------------------------------------- every step keeps it

  lemma StepKeepsExclusive(s: State, a: Action)
    requires Enabled(s, a) && Exclusive(s)
    ensures Exclusive(Do(s, a))
  {
    var t := Do(s, a);
    if s.dev.locked {
      var h :| IsHolder(s, h);
      if t.dev.locked {
        assert IsHolder(t, h);
      }
    } else if t.dev.locked {
      assert IsHolder(t, a.p);
    }
  }

  function Share(procs: map<Pid, Proc>, p: Pid): int {
    if p in procs && procs[p].Counted() then 1 else 0
  }

  lemma Moved(procs: map<Pid, Proc>, p: Pid, proc: Proc)
    ensures |Users(procs[p := proc])| == |Users(procs)| - Share(procs, p) + if proc.Counted() then 1 else 0
  {
    var after := Users(procs[p := proc]);
    assert after == if proc.Counted() then Users(procs) + {p} else Users(procs) - {p};
    assert p in Users(procs) <==> p in procs && procs[p].Counted();
  }

  /** A step moves the count by what it makes of the process that takes it. */
  lemma CountFollows(s: State, a: Action)
    requires Enabled(s, a)
    ensures var t := Do(s, a);
            && t.procs == s.procs[a.p := t.procs[a.p]]
            && t.dev.count == s.dev.count - Share(s.procs, a.p) + if t.procs[a.p].Counted() then 1 else 0
  {
  }

  lemma StepKeepsCount(s: State, a: Action)
    requires Enabled(s, a) && CountOk(s)
    ensures CountOk(Do(s, a))
  {
    CountFollows(s, a);
    Moved(s.procs, a.p, Do(s, a).procs[a.p]);
  }

  /** The owner changes only by the hand of a claimer that found the count at zero, and so nobody counted. */
  lemma OwnerChange(s: State, a: Action)
    requires Enabled(s, a) && Do(s, a).dev.owner != s.dev.owner
    ensures a.Step? && s.procs[a.p].pc.Claim? && s.dev.count == 0
  {
  }

  lemma NobodyCounted(s: State, p: Pid)
    requires CountOk(s) && s.dev.count == 0 && p in s.procs
    ensures !s.procs[p].Counted()
  {
    assert p !in Users(s.procs);
  }

  lemma StepKeepsOwners(s: State, a: Action)
    requires Enabled(s, a) && Exclusive(s) && CountOk(s) && OwnersOk(s)
    ensures OwnersOk(Do(s, a))
  {
    var t := Do(s, a);
    forall p | p in t.procs ensures Belongs(t.dev, t.procs[p]) {
      if p in s.procs {
        assert Belongs(s.dev, s.procs[p]);
        if p != a.p && s.dev.count == 0 {
          NobodyCounted(s, p);
        }
      }
    }
  }

  /** What makes a waiter overdue is the count reaching zero, and then the one who did it owes the wake-up. */
  lemma NewlyOverdue(s: State, a: Action, p: Pid)
    requires Enabled(s, a) && CountOk(s) && s.dev.waits && p in s.procs && p != a.p
    requires Overdue(Do(s, a).dev, p, s.procs[p]) && !Overdue(s.dev, p, s.procs[p])
    ensures Owing(Do(s, a), a.p)
  {
  }

  /** A process that steps and ends up overdue was so before; going to sleep does not make it so. */
  lemma OwnStep(s: State, a: Action)
    requires Enabled(s, a) && Overdue(Do(s, a).dev, a.p, Do(s, a).procs[a.p])
    ensures a.p in s.procs && Overdue(s.dev, a.p, s.procs[a.p])
  {
  }

  /** A wake-up stays owed until it is given, and then nobody is left on the queue. */
  lemma StillOwing(s: State, a: Action, r: Pid)
    requires Enabled(s, a) && Owing(s, r) && s.dev.waits
    ensures Owing(Do(s, a), r) || Do(s, a).dev.queue == {}
  {
  }

  lemma StepKeepsNotForgotten(s: State, a: Action)
    requires Enabled(s, a) && CountOk(s) && NotForgotten(s)
    ensures NotForgotten(Do(s, a))
  {
    var t := Do(s, a);
    forall p | t.dev.waits && p in t.procs && Overdue(t.dev, p, t.procs[p]) ensures exists r :: Owing(t, r) {
      if p == a.p {
        OwnStep(s, a);
      }
      if Overdue(s.dev, p, s.procs[p]) {
        var r :| Owing(s, r);
        StillOwing(s, a, r);
        assert Owing(t, r);
      } else {
        NewlyOverdue(s, a, p);
        assert Owing(t, a.p);
      }
    }
  }

  lemma StepKeepsInv(s: State, a: Action)
    requires Enabled(s, a) && Inv(s)
    ensures Inv(Do(s, a))
  {
    StepKeepsExclusive(s, a);
    StepKeepsCount(s, a);
    StepKeepsOwners(s, a);
    StepKeepsNotForgotten(s, a);
  }

  lemma {:induction false} RunKeepsInv(s: State, script: seq<Action>)
    requires Inv(s) && Runs(s, script)
    ensures Inv(After(s, script))
    decreases |script|
  {
    if script != [] {
      StepKeepsInv(s, script[0]);
      RunKeepsInv(Do(s, script[0]), script[1..]);
    }
  }

  lemma Reached(s: State, script: seq<Action>)
    requires Initial(s) && Runs(s, script)
    ensures Inv(After(s, script))
  {
    assert Users(map[]) == {};
    RunKeepsInv(s, script);
  }

  // ---------------------------------------------------------------- what follows

  /** The count is the number of open handles, and all of them belong to the owner. */
  lemma HandlesBelongToOwner(s: State, script: seq<Action>, p: Pid)
    requires Initial(s) && Runs(s, script)
    ensures var t := After(s, script);
            && t.dev.count == |Users(t.procs)|
            && (p in Users(t.procs) ==> t.procs[p].cred.Matches(t.dev.owner))
  {
    Reached(s, script);
    var t := After(s, script);
    assert p in Users(t.procs) ==> Belongs(t.dev, t.procs[p]);
  }

  /** Nobody becomes the owner while anybody has the device open. */
  lemma OwnerStays(s: State, script: seq<Action>, a: Action)
    requires Initial(s) && Runs(s, script) && Enabled(After(s, script), a)
    requires Users(After(s, script).procs) != {}
    ensures Do(After(s, script), a).dev.owner == After(s, script).dev.owner
  {
    Reached(s, script);
    var t := After(s, script);
    if Do(t, a).dev.owner != t.dev.owner {
      OwnerChange(t, a);
    }
  }

  /** At its test a process is turned away exactly when the device is open and it does not belong to the owner. */
  lemma TurnedAwayExactly(s: State, script: seq<Action>, p: Pid)
    requires Initial(s) && Runs(s, script)
    requires var t := After(s, script); p in t.procs && t.procs[p].pc.Test?
    ensures var t := After(s, script);
            Do(t, Step(p)).procs[p].pc ==
            var cred := t.procs[p].cred;
            if Users(t.procs) != {} && t.dev.owner !in {cred.uid, cred.euid} && !cred.capable then Deny else Claim
  {
    Reached(s, script);
  }

  /** A process asleep although it could be admitted is about to be woken. */
  lemma NoLostWakeUp(s: State, script: seq<Action>, p: Pid)
    requires Initial(s) && Runs(s, script)
    requires var t := After(s, script);
             t.dev.waits && p in t.dev.queue && p in t.procs && t.procs[p].pc.Sleep? && t.dev.Available(t.procs[p].cred)
    ensures exists r :: Owing(After(s, script), r)
  {
    Reached(s, script);
    var t := After(s, script);
    assert Overdue(t.dev, p, t.procs[p]);
  }

  // ---------------------------------------------------------------- what a call answers

  /** Who called open last, and how, and what has happened since. */
  datatype Past = Past(cred: Cred, nonblocking: bool, closed: bool, signalled: bool)

  const NEW := Past(Cred(0, 0, false), false, false, false)

  function Later(past: Past, a: Action, p: Pid): Past {
    if a.p != p then past
    else match a
      case Open(_, cred, nonblocking) => Past(cred, nonblocking, false, false)
      case Close(_) => past.(closed := true)
      case Signal(_) => past.(signalled := true)
      case Step(_) => past
  }

  function PastOf(script: seq<Action>, p: Pid, past: Past): Past {
    if script == [] then past else PastOf(script[1..], p, Later(past, script[0], p))
  }

  /** The process is inside wait_event. */
  predicate Waiting(pc: Pc) {
    pc.EventCount? || pc.EventUid? || pc.EventEuid? || pc.Prepare? || pc.CheckCount? || pc.CheckUid? || pc.CheckEuid?
    || pc.Sleep? || pc.Finish?
  }

  predicate Closing(pc: Pc) {
    pc.LockAgain? || pc.Decrement? || pc.Unlock? || pc.Wake? || pc == Gone(Released)
  }

  /** Who may wait, who may be refused and how, and that release comes after close. */
  ghost predicate Fair(d: Device, proc: Proc, past: Past) {
    && proc.cred == past.cred && proc.nonblocking == past.nonblocking
    && (Waiting(proc.pc) ==> d.waits && !proc.nonblocking)
    && (Closing(proc.pc) <==> past.closed)
    && (proc.pc.Gone? && proc.pc.result.Refused? ==>
          match proc.pc.result.errno
          case EBUSY => !d.waits
          case EAGAIN => d.waits && proc.nonblocking
          case ERESTARTSYS => d.waits && !proc.nonblocking && past.signalled)
  }

  lemma StepIsFair(s: State, a: Action, p: Pid, past: Past)
    requires Enabled(s, a) && p in Do(s, a).procs && (p in s.procs ==> Fair(s.dev, s.procs[p], past))
    ensures Fair(Do(s, a).dev, Do(s, a).procs[p], Later(past, a, p))
  {
  }

  lemma {:induction false} RunIsFair(s: State, script: seq<Action>, p: Pid, past: Past)
    requires Runs(s, script) && p in After(s, script).procs && (p in s.procs ==> Fair(s.dev, s.procs[p], past))
    ensures After(s, script).dev.waits == s.dev.waits
    ensures Fair(After(s, script).dev, After(s, script).procs[p], PastOf(script, p, past))
    decreases |script|
  {
    if script != [] {
      var t := Do(s, script[0]);
      if p in t.procs {
        StepIsFair(s, script[0], p, past);
      }
      RunIsFair(t, script[1..], p, Later(past, script[0], p));
    }
  }

  /**
   In every run: on the refusing device nobody waits, and a refusal is EBUSY; on the waiting one a refusal
   is EAGAIN for those who do not want to wait, who never do, and ERESTARTSYS, after a signal, for the
   others.  Only a process that has called close gets out by releasing, and it gets out no other way.
   */
  lemma AnswersOverRuns(s: State, script: seq<Action>, p: Pid)
    requires Initial(s) && Runs(s, script) && p in After(s, script).procs
    ensures var proc, past := After(s, script).procs[p], PastOf(script, p, NEW);
            && proc.cred == past.cred
            && (Waiting(proc.pc) ==> s.dev.waits && !past.nonblocking)
            && match proc.pc
               case Gone(Refused(errno)) =>
                 && !past.closed && (errno == ERESTARTSYS ==> past.signalled)
                 && errno == if !s.dev.waits then EBUSY else if past.nonblocking then EAGAIN else ERESTARTSYS
               case Gone(Released) => past.closed
               case _ => true
  {
    RunIsFair(s, script, p, NEW);
  }

  /** One process on its own, for up to `n` steps. */
  function Solo(s: State, p: Pid, n: nat): State
    decreases n
  {
    if n == 0 || !Enabled(s, Step(p)) then s else Solo(Do(s, Step(p)), p, n - 1)
  }

  lemma {:induction false} SoloMore(s: State, p: Pid, n: nat)
    ensures Solo(s, p, n + 1) == Solo(Solo(s, p, n), p, 1)
    decreases n
  {
    if n > 0 && Enabled(s, Step(p)) {
      SoloMore(Do(s, Step(p)), p, n - 1);
    }
  }

  /** After `n` steps the process is there, and only the device has changed besides. */
  ghost predicate GetsTo(s: State, p: Pid, n: nat, d: Device, pc: Pc) {
    p in s.procs && Solo(s, p, n) == State(d, s.procs[p := s.procs[p].(pc := pc)])
  }

  lemma Here(s: State, p: Pid)
    requires p in s.procs
    ensures GetsTo(s, p, 0, s.dev, s.procs[p].pc)
  {
    assert s.procs[p := s.procs[p]] == s.procs;
  }

  lemma OneStepOn(s: State, p: Pid, n: nat, d: Device, pc: Pc)
    requires GetsTo(s, p, n, d, pc) && CanMove(d, p, pc)
    ensures var (e, next) := StepOf(d, p, s.procs[p].(pc := pc)); GetsTo(s, p, n + 1, e, next)
  {
    SoloMore(s, p, n);
    var t := Solo(s, p, n);
    assert Solo(Do(t, Step(p)), p, 0) == Do(t, Step(p));
  }

  /** A process that is turned away leaves the lock behind, and gets its answer or goes to wait. */
  lemma TurnedAway(s: State, p: Pid)
    requires p in s.procs && s.procs[p].pc.Deny?
    ensures GetsTo(s, p, 1, s.dev.(locked := false),
                   if s.dev.waits && !s.procs[p].nonblocking then EventCount
                   else Gone(Refused(if s.dev.waits then EAGAIN else EBUSY)))
  {
    Here(s, p);
    OneStepOn(s, p, 0, s.dev, Deny);
  }

  /** A process that passes the test has the device open three steps later, as its owner if nobody had it. */
  lemma AdmittedOpens(s: State, p: Pid)
    requires p in s.procs && s.procs[p].pc.Claim?
    ensures GetsTo(s, p, 3, s.dev.(owner := if s.dev.count == 0 then s.procs[p].cred.uid else s.dev.owner,
                                   count := s.dev.count + 1, locked := false), Opened)
  {
    var d := s.dev;
    var e := d.(owner := if d.count == 0 then s.procs[p].cred.uid else d.owner);
    Here(s, p);
    OneStepOn(s, p, 0, d, Claim);
    OneStepOn(s, p, 1, e, Increment);
    OneStepOn(s, p, 2, e.(count := d.count + 1), Leave);
  }

  /** A process that closes is no longer counted, and the last one wakes all that wait. */
  lemma CloseReleases(s: State, p: Pid)
    requires p in s.procs && s.procs[p].pc.LockAgain? && !s.dev.locked
    ensures var e := s.dev.(count := s.dev.count - 1);
            if s.dev.waits then GetsTo(s, p, 4, if e.count == 0 then e.(queue := {}) else e, Gone(Released))
            else GetsTo(s, p, 3, e, Gone(Released))
  {
    var d := s.dev;
    var e := d.(count := d.count - 1);
    Here(s, p);
    OneStepOn(s, p, 0, d, LockAgain);
    OneStepOn(s, p, 1, d.(locked := true), Decrement);
    OneStepOn(s, p, 2, e.(locked := true), Unlock(e.count));
    if d.waits {
      OneStepOn(s, p, 3, e, Wake(e.count));
    }
  }

  /** Queued, the process compares step by step and ends up asleep or off the queue. */
  lemma Looks(s: State, p: Pid, from: nat, e: Device) returns (n: nat)
    requires GetsTo(s, p, from, e, CheckCount)
    ensures from < n
    ensures if e.Available(s.procs[p].cred) then GetsTo(s, p, n, e.(queue := e.queue - {p}), Lock)
            else GetsTo(s, p, n, e, Sleep)
  {
    n := from + 1;
    OneStepOn(s, p, from, e, CheckCount);
    if e.count != 0 {
      OneStepOn(s, p, n, e, CheckUid);
      n := n + 1;
      if s.procs[p].cred.uid != e.owner {
        OneStepOn(s, p, n, e, CheckEuid);
        n := n + 1;
      }
    }
    if e.Available(s.procs[p].cred) {
      OneStepOn(s, p, n, e, Finish);
      n := n + 1;
    }
  }

  /** Left alone, a process that waits tries again exactly if it would be admitted, and else falls asleep queued. */
  lemma WaitsExactly(s: State, p: Pid) returns (n: nat)
    requires p in s.procs && s.procs[p].pc.EventCount?
    ensures if s.dev.Available(s.procs[p].cred) then GetsTo(s, p, n, s.dev, Lock)
            else GetsTo(s, p, n, s.dev.(queue := s.dev.queue + {p}), Sleep)
  {
    var d, cred := s.dev, s.procs[p].cred;
    Here(s, p);
    OneStepOn(s, p, 0, d, EventCount);
    n := 1;
    if d.count != 0 {
      OneStepOn(s, p, 1, d, EventUid);
      n := 2;
      if cred.uid != d.owner {
        OneStepOn(s, p, 2, d, EventEuid);
        n := 3;
        if !cred.MatchesAsEuid(d.owner) {
          OneStepOn(s, p, 3, d, Prepare);
          n := Looks(s, p, 4, d.(queue := d.queue + {p}));
        }
      }
    }
  }

  /** So does one that has been woken, which leaves the queue before it tries again. */
  lemma LooksAgain(s: State, p: Pid) returns (n: nat)
    requires p in s.procs && s.procs[p].pc.Sleep? && p !in s.dev.queue
    ensures if s.dev.Available(s.procs[p].cred) then GetsTo(s, p, n, s.dev, Lock)
            else GetsTo(s, p, n, s.dev.(queue := s.dev.queue + {p}), Sleep)
  {
    var d := s.dev;
    var e := d.(queue := d.queue + {p});
    Here(s, p);
    OneStepOn(s, p, 0, d, Sleep);
    OneStepOn(s, p, 1, d, Prepare);
    n := Looks(s, p, 2, e);
    assert e.(queue := e.queue - {p}) == d;
  }

  /** A signal to a sleeper that would still not be admitted ends its call, and it is off the queue. */
  lemma SignalEndsWait(s: State, p: Pid)
    requires p in s.procs && s.procs[p].pc.Sleep? && !s.dev.Available(s.procs[p].cred)
    ensures Enabled(s, Signal(p))
    ensures var t := Solo(Do(s, Signal(p)), p, 3);
            && Enabled(t, Signal(p))
            && Do(t, Signal(p)) == State(s.dev.(queue := s.dev.queue - {p}),
                                         s.procs[p := s.procs[p].(pc := Gone(Refused(ERESTARTSYS)))])
  {
    var t, d := Do(s, Signal(p)), s.dev;
    var e := d.(queue := d.queue + {p});
    Here(t, p);
    OneStepOn(t, p, 0, d, Prepare);
    OneStepOn(t, p, 1, e, CheckCount);
    OneStepOn(t, p, 2, e, CheckUid);
  }
}
