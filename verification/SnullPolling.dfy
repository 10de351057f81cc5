/**
 The poll routine of a snull interface against transmissions of its twin, in the steps in which they
 can interfere on two processors: the poll routine holds no lock when it finds the queue empty and
 turns receive interrupts on again.
 */
module SnullPolling {

  /** Where the poll routine stands. */
  datatype Poll =
    | Asleep              // not running
    | Looping(left: nat)  // at the head of its loop, with so much of the quota left
    | Testing             // behind the loop, about to test whether the queue is empty
    | Completing          // found it empty, about to say that no poll is scheduled any more
    | Enabling            // has said so, about to turn interrupts on

  /** Where the twin stands with a transmission. */
  datatype Sender =
    | Quiet
    | Enqueued(late: bool) // has put a packet on the queue, late or not; about to look whether interrupts are on
    | Disabling           // found them on: in the interrupt handler, about to turn them off
    | Scheduling          // has turned them off, about to schedule a poll

  /**
   Two history variables: `late` says that a packet was queued between the test for an empty queue and the
   turning on of interrupts, `missed` that its sender, since a poll was last scheduled, also looked in between.
   */
  datatype State = State(queue: nat, ints: bool, scheduled: bool, poll: Poll, sender: Sender, missed: bool) {
    /** Between the test for an empty queue and the turning on of interrupts. */
    predicate InWindow() {
      poll.Completing? || poll.Enabling?
    }

    /** A packet is queued, and nothing will happen to it until another one is sent. */
    predicate Stranded() {
      queue > 0 && !scheduled && poll.Asleep? && sender.Quiet?
    }
  }

  datatype Action = Send | Twin | Start(quota: nat) | Run(dropped: bool)

  predicate Enabled(s: State, a: Action) {
    match a
    case Send => s.sender.Quiet?
    case Twin => !s.sender.Quiet?
    case Start(_) => s.scheduled && s.poll.Asleep?
    case Run(_) => !s.poll.Asleep?
  }

  function TwinStep(s: State): State
    requires !s.sender.Quiet?
  {
    match s.sender
    case Enqueued(late) =>
      if s.ints then s.(sender := Disabling)
      else s.(sender := Quiet, missed := s.missed || (late && s.InWindow()))
    case Disabling => s.(ints := false, sender := Scheduling)
    case Scheduling => s.(scheduled := true, sender := Quiet, missed := false)
  }

  function PollStep(s: State, dropped: bool): State
    requires !s.poll.Asleep?
  {
    match s.poll
    case Looping(left) =>
      if left > 0 && s.queue > 0 then
        s.(queue := s.queue - 1, poll := Looping(if dropped then left else left - 1))
      else s.(poll := Testing)
    case Testing => s.(poll := if s.queue == 0 then Completing else Asleep)
    case Completing => s.(scheduled := false, poll := Enabling)
    case Enabling => s.(ints := true, poll := Asleep)
  }

  function Do(s: State, a: Action): State
    requires Enabled(s, a)
  {
    match a
    case Send => s.(queue := s.queue + 1, sender := Enqueued(s.InWindow()))
    case Twin => TwinStep(s)
    case Start(quota) => s.(poll := Looping(quota))
    case Run(dropped) => PollStep(s, dropped)
  }

  const FRESH := State(0, true, false, Asleep, Quiet, false)

  predicate Runs(s: State, script: seq<Action>)
    decreases |script|
  {
    script == [] || (Enabled(s, script[0]) && Runs(Do(s, script[0]), script[1..]))
  }

  function After(s: State, script: seq<Action>): State
    requires Runs(s, script)
    decreases |script|
  {
    if script == [] then s else After(Do(s, script[0]), script[1..])
  }

  /** Interrupts are off exactly while a poll is scheduled, or just before, or just after. */
  predicate LinesOk(s: State) {
    && (s.ints <==> !s.scheduled && !s.poll.Enabling? && !s.sender.Scheduling?)
    && (s.poll.Looping? || s.poll.Testing? || s.poll.Completing? ==> s.scheduled)
    && (s.poll.Enabling? || s.sender.Disabling? || s.sender.Scheduling? ==> !s.scheduled)
    && (s.sender.Disabling? || s.sender.Scheduling? ==> s.poll.Asleep?)
  }

  /** A packet that no poll will find has its sender still at work, or was missed; and only then. */
  predicate QueueOk(s: State) {
    && (s.missed ==> s.queue > 0 && (s.InWindow() || !s.scheduled))
    && (s.InWindow() ==> (s.queue > 0 <==> s.missed || (s.sender.Enqueued? && s.sender.late)))
    && (s.queue > 0 && !s.scheduled && s.sender.Quiet? ==> s.missed)
    && (s.sender.Enqueued? && s.sender.late ==> s.InWindow() || (s.poll.Asleep? && !s.scheduled))
  }

  predicate Inv(s: State) {
    LinesOk(s) && QueueOk(s)
  }

  lemma StepKeepsInv(s: State, a: Action)
    requires Inv(s) && Enabled(s, a)
    ensures Inv(Do(s, a))
  {
  }

  lemma {:induction false} RunKeepsInv(s: State, script: seq<Action>)
    requires Inv(s) && Runs(s, script)
    ensures Inv(After(s, script))
    decreases |script|
  {
    if script != [] {
      StepKeepsInv(s, script[0]);
      RunKeepsInv(Do(s, script[0]), script[1..]);
    }
  }

  /** How many packets the poll routine has received since it was last started, and for what quota. */
  datatype Share = Share(quota: nat, taken: nat)

  function Later(s: State, a: Action, share: Share): Share {
    match a
    case Start(quota) => Share(quota, 0)
    case Run(dropped) =>
      if s.poll.Looping? && s.poll.left > 0 && s.queue > 0 && !dropped then share.(taken := share.taken + 1) else share
    case _ => share
  }

  function ShareOf(s: State, script: seq<Action>, share: Share): Share
    requires Runs(s, script)
    decreases |script|
  {
    if script == [] then share else ShareOf(Do(s, script[0]), script[1..], Later(s, script[0], share))
  }

  /** What is left of the quota while the loop runs; and it is left early only for an empty queue. */
  predicate ShareOk(s: State, share: Share) {
    && share.taken <= share.quota
    && (s.poll.Looping? ==> s.poll.left == share.quota - share.taken)
  }

  lemma {:induction false} RunKeepsShare(s: State, script: seq<Action>, share: Share)
    requires Runs(s, script) && ShareOk(s, share)
    ensures ShareOk(After(s, script), ShareOf(s, script, share))
    decreases |script|
  {
    if script != [] {
      RunKeepsShare(Do(s, script[0]), script[1..], Later(s, script[0], share));
    }
  }

  /** A poll never receives more than its quota, and its loop ends only with that used up or the queue empty. */
  lemma QuotaIsKept(script: seq<Action>, dropped: bool)
    requires Runs(FRESH, script)
    ensures var t, share := After(FRESH, script), ShareOf(FRESH, script, Share(0, 0));
            && share.taken <= share.quota
            && (t.poll.Looping? ==>
                  (PollStep(t, dropped).poll.Testing? <==> share.taken == share.quota || t.queue == 0))
  {
    RunKeepsShare(FRESH, script, Share(0, 0));
  }

  /**
   In every run a packet ends up stranded exactly if some transmission has, since a poll was last scheduled,
   both queued its packet and looked for interrupts between the test and the turning on.
   */
  lemma StrandedExactly(script: seq<Action>)
    requires Runs(FRESH, script)
    ensures var t := After(FRESH, script);
            t.Stranded() <==> t.missed && t.poll.Asleep? && t.sender.Quiet?
  {
    RunKeepsInv(FRESH, script);
  }

  /** It then stays where it is until something else is sent. */
  lemma OnlySendingHelps(script: seq<Action>, a: Action)
    requires Runs(FRESH, script) && After(FRESH, script).Stranded()
    ensures Enabled(After(FRESH, script), a) <==> a.Send?
  {
  }

  /** The next transmission finds interrupts on, and a poll is scheduled for both. */
  lemma NextSendHelps(script: seq<Action>)
    requires Runs(FRESH, script) && After(FRESH, script).Stranded()
    ensures var t := After(FRESH, script);
            && Runs(t, [Send, Twin, Twin, Twin])
            && After(t, [Send, Twin, Twin, Twin]) ==
               t.(queue := t.queue + 1, ints := false, scheduled := true, missed := false)
  {
    RunKeepsInv(FRESH, script);
    var t := After(FRESH, script);
    var u := Do(t, Send);
    var v := Do(u, Twin);
    var w := Do(v, Twin);
    assert [Send, Twin, Twin, Twin][1..] == [Twin, Twin, Twin];
    assert [Twin, Twin, Twin][1..] == [Twin, Twin] && [Twin, Twin][1..] == [Twin] && [Twin][1..] == [];
    assert Runs(w, [Twin]) && Runs(v, [Twin, Twin]) && Runs(u, [Twin, Twin, Twin]);
  }

  lemma {:induction false} RunsThen(s: State, script: seq<Action>, a: Action) returns (longer: seq<Action>)
    requires Runs(s, script) && Enabled(After(s, script), a)
    ensures Runs(s, longer) && After(s, longer) == Do(After(s, script), a)
    decreases |script|
  {
    if script == [] {
      longer := [a];
      assert longer[1..] == [];
    } else {
      var rest := RunsThen(Do(s, script[0]), script[1..], a);
      longer := [script[0]] + rest;
      assert longer[1..] == rest;
    }
  }

  /** A run that strands a packet: one is delivered, the next comes after the queue has been found empty. */
  lemma SomeRunStrands() returns (script: seq<Action>)
    ensures Runs(FRESH, script) && After(FRESH, script).Stranded()
  {
    script := RunsThen(FRESH, [], Send);
    script := RunsThen(FRESH, script, Twin);
    script := RunsThen(FRESH, script, Twin);
    script := RunsThen(FRESH, script, Twin);
    script := RunsThen(FRESH, script, Start(1));
    script := RunsThen(FRESH, script, Run(false));
    script := RunsThen(FRESH, script, Run(false));
    script := RunsThen(FRESH, script, Run(false));
    script := RunsThen(FRESH, script, Send);
    script := RunsThen(FRESH, script, Twin);
    script := RunsThen(FRESH, script, Run(false));
    script := RunsThen(FRESH, script, Run(false));
  }
}
