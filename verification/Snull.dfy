/**
 The two snull interfaces: what one transmits the other receives, in packets that each interface
 draws from its own fixed pool.  Every handler is one step.
 */
module Snull {
  import opened Ring

  const ETH_ZLEN: nat := 60
  const HEADERS: nat := 34 // an Ethernet header and an IP header

  type Frame = seq<byte>

  // ---------------------------------------------------------------- lists of packets

  class Packet {
    var next: Packet?
    var data: Frame
    const dev: NetDev

    constructor (dev: NetDev, next: Packet?)
      ensures this.dev == dev && this.next == next
    {
      this.dev, this.next, data := dev, next, [];
    }
  }

  /** The list that starts at `head` runs through `s`. */
  ghost predicate Chained(head: Packet?, s: seq<Packet>)
    reads set p | p in s
  {
    if s == [] then head == null else head == s[0] && Chained(s[0].next, s[1..])
  }

  /** The packets of a list hold these frames. */
  ghost predicate Carry(s: seq<Packet>, frames: seq<Frame>)
    reads set p | p in s
  {
    |s| == |frames| && forall i :: 0 <= i < |s| ==> s[i].data == frames[i]
  }

  ghost predicate Distinct(s: seq<Packet>) {
    s != [] ==> s[0] !in s[1..] && Distinct(s[1..])
  }

  /** How many bytes the frames have. */
  function Total(frames: seq<Frame>): nat {
    if frames == [] then 0 else |frames[0]| + Total(frames[1..])
  }

  lemma Pushed(pkt: Packet, s: seq<Packet>)
    requires Chained(pkt.next, s)
    ensures Chained(pkt, [pkt] + s)
  {
  }

  lemma Counts<T>(s: seq<T>)
    requires s != []
    ensures multiset(s) == multiset{s[0]} + multiset(s[1..])
  {
    assert s == [s[0]] + s[1..];
  }

  /** Whether the first frame waits or has been handled makes no difference to the sum. */
  lemma OneLess(handled: multiset<Frame>, frame: Frame, frames: seq<Frame>)
    ensures Total([frame] + frames) == |frame| + Total(frames)
    ensures handled + multiset{frame} + multiset(frames) == handled + multiset([frame] + frames)
    ensures handled + multiset([frame] + frames) == handled + multiset(frames) + multiset{frame}
  {
    Counts([frame] + frames);
    assert ([frame] + frames)[1..] == frames;
  }

  lemma {:induction false} DistinctCounts(s: seq<Packet>)
    requires Distinct(s)
    ensures forall p :: p in multiset(s) ==> multiset(s)[p] == 1
  {
    if s != [] {
      Counts(s);
      DistinctCounts(s[1..]);
    }
  }

  // ---------------------------------------------------------------- one interface

  datatype Stats = Stats(rxPackets: nat, rxBytes: nat, rxDropped: nat, txPackets: nat, txBytes: nat)

  /** What the counters stand for: the frames sent, handed up, dropped, those two together, and refused allocations. */
  datatype Log = Log(sent: multiset<Frame>, received: multiset<Frame>, lost: multiset<Frame>,
                     handled: multiset<Frame>, lostBytes: nat, refused: nat)

  const NOTHING := Log(multiset{}, multiset{}, multiset{}, multiset{}, 0, 0)

  /** So many packets with so many bytes, which are these frames. */
  datatype Count = Count(packets: nat, bytes: nat, frames: multiset<Frame>)
  {
    function Plus(frame: Frame): Count {
      Count(packets + 1, bytes + |frame|, frames + multiset{frame})
    }
  }

  /** The receive counters count the frames handed up and the frames dropped for want of memory. */
  ghost predicate Tally(rxPackets: nat, rxDropped: nat, handled: multiset<Frame>, received: multiset<Frame>,
                        lost: multiset<Frame>, refused: nat) {
    handled == received + lost && rxPackets == |received| && rxDropped == |lost| == refused
  }

  datatype Status = Status(rxIntr: bool, txIntr: bool)

  const QUIET := Status(false, false)

  /** The size of a pool when so many are asked for and the allocator grants so many. */
  function PoolSize(asked: int, granted: nat): nat {
    Min(if asked < 0 then 0 else asked, granted)
  }

  class NetDev {
    var ppool: Packet?
    var rxQueue: Packet?
    var rxIntEnabled: bool
    var status: Status
    var txPacketLen: nat
    var stopped: bool
    var scheduled: bool
    var stats: Stats

    ghost const total: nat
    ghost var pool: seq<Packet>
    ghost var queue: seq<Packet>
    ghost var frames: seq<Frame>
    ghost var packets: multiset<Packet>
    ghost var log: Log

    /** The interface as set up: interrupts on, queue started, as many packets as the allocator grants. */
    constructor (poolSize: int, granted: nat)
      ensures New() && total == PoolSize(poolSize, granted)
      ensures forall p :: p in packets ==> fresh(p)
    {
      ppool, rxQueue, rxIntEnabled, status := null, null, true, QUIET;
      txPacketLen, stopped, scheduled, stats := 0, false, false, Stats(0, 0, 0, 0, 0);
      total := PoolSize(poolSize, granted);
      pool, queue, frames, packets, log := [], [], [], multiset{}, NOTHING;
      new;
      SetupPool(poolSize, granted);
    }

    /** All packets are in the pool, nothing has arrived or been sent, interrupts are on, the queue is started. */
    ghost predicate New()
      reads this, set p | p in pool
    {
      && Chained(ppool, pool) && multiset(pool) == packets && |pool| == total
      && (forall p :: p in packets ==> p.dev == this && packets[p] == 1)
      && rxQueue == null && queue == [] && frames == []
      && rxIntEnabled && status == QUIET && !stopped && !scheduled
      && stats == Stats(0, 0, 0, 0, 0) && log == NOTHING
    }

    /** Allocate the pool, stopping early when memory runs out. */
    method SetupPool(poolSize: int, granted: nat)
      modifies this`ppool, this`pool, this`packets
      ensures Chained(ppool, pool) && multiset(pool) == packets && |pool| == PoolSize(poolSize, granted)
      ensures forall p :: p in packets ==> fresh(p) && p.dev == this && packets[p] == 1
    {
      ppool, pool := null, [];
      var i := 0;
      while i < poolSize
        invariant i == |pool| <= granted && (i == 0 || i <= poolSize)
        invariant Chained(ppool, pool) && Distinct(pool)
        invariant forall p :: p in pool ==> fresh(p) && p.dev == this
      {
        if i == granted {
          break;
        }
        var pkt := new Packet(this, ppool);
        Pushed(pkt, pool);
        ppool := pkt;
        pool := [pkt] + pool;
        i := i + 1;
      }
      packets := multiset(pool);
      DistinctCounts(pool);
      assert forall p :: p in packets ==> p in pool;
    }

    /** The pool is what the list says, and the transmit queue is stopped exactly while it is empty. */
    ghost predicate PoolOk()
      reads `ppool, `pool, `stopped, set p | p in pool
    {
      Chained(ppool, pool) && (stopped <==> pool == [])
    }

    /** The receive queue is what the list says and holds these frames. */
    ghost predicate QueueOk()
      reads `rxQueue, `queue, `frames, set p | p in queue
    {
      Chained(rxQueue, queue) && Carry(queue, frames)
    }

    // The fields by what they belong to, so that an operation can say in one equation what it leaves alone.

    ghost function PoolPart(): (Packet?, seq<Packet>, multiset<Packet>, bool)
      reads this
    {
      (ppool, pool, packets, stopped)
    }

    ghost function QueuePart(): (Packet?, seq<Packet>, seq<Frame>)
      reads this
    {
      (rxQueue, queue, frames)
    }

    ghost function LinesPart(): (bool, Status, bool, nat)
      reads this
    {
      (rxIntEnabled, status, scheduled, txPacketLen)
    }

    ghost function BooksPart(): (Stats, Log)
      reads this
    {
      (stats, log)
    }

    twostate predicate PoolKept()
      reads this
    {
      PoolPart() == old(PoolPart())
    }

    twostate predicate QueueKept()
      reads this
    {
      QueuePart() == old(QueuePart())
    }

    twostate predicate LinesKept()
      reads this
    {
      LinesPart() == old(LinesPart())
    }

    twostate predicate BooksKept()
      reads this
    {
      BooksPart() == old(BooksPart())
    }

    /** What has been counted, and what waits to be. */
    ghost function Arrived(): Count
      reads this
    {
      Count(stats.rxPackets + stats.rxDropped + |frames|, stats.rxBytes + log.lostBytes + Total(frames),
            log.handled + multiset(frames))
    }

    /** What has been transmitted and counted. */
    ghost function Sent(): Count
      reads this
    {
      Count(stats.txPackets, stats.txBytes, log.sent)
    }

    ghost predicate Tallied()
      reads this
    {
      Tally(stats.rxPackets, stats.rxDropped, log.handled, log.received, log.lost, log.refused)
    }

    /** Nothing on its way up has appeared or vanished. */
    twostate predicate Balanced()
      reads this
    {
      Arrived() == old(Arrived()) && (old(Tallied()) ==> Tallied())
    }

    /** Nothing has been handed up or dropped. */
    twostate predicate NoneTaken()
      reads this
    {
      && stats == old(stats).(txPackets := stats.txPackets, txBytes := stats.txBytes)
      && log == old(log).(sent := log.sent) && queue == old(queue)
    }

    /** Nor has anything been sent. */
    twostate predicate Still()
      reads this
    {
      Balanced() && Sent() == old(Sent())
    }

    /** Take a packet from the pool, which is not empty; the last one stops the transmit queue. */
    method GetTxBuffer() returns (pkt: Packet)
      requires PoolOk() && pool != []
      modifies this
      ensures PoolOk() && old(pool) == [pkt] + pool
      ensures packets == old(packets) && QueueKept() && LinesKept() && BooksKept()
    {
      pkt := ppool;
      ppool := pkt.next;
      pool := pool[1..];
      if ppool == null {
        stopped := true;
      }
    }

    /** Put a packet back into the pool; if that was empty, the transmit queue is started again. */
    method ReleaseBuffer(pkt: Packet)
      requires PoolOk() && pkt !in pool && pkt.dev == this
      modifies pkt`next, this
      ensures PoolOk() && pool == [pkt] + old(pool)
      ensures packets == old(packets) && QueueKept() && LinesKept() && BooksKept()
    {
      pkt.next := ppool;
      Pushed(pkt, pool);
      ppool := pkt;
      pool := [pkt] + pool;
      if stopped && pkt.next == null {
        stopped := false;
      }
    }

    twostate lemma Gains(new frame: Frame)
      requires frames == [frame] + old(frames) && BooksKept()
      ensures Arrived() == old(Arrived()).Plus(frame)
    {
      OneLess(log.handled, frame, old(frames));
    }

    method EnqueueBuf(pkt: Packet)
      requires QueueOk() && pkt !in queue
      modifies pkt`next, this
      ensures QueueOk() && queue == [pkt] + old(queue) && frames == [pkt.data] + old(frames)
      ensures Arrived() == old(Arrived()).Plus(pkt.data) && PoolKept() && LinesKept() && BooksKept()
    {
      pkt.next := rxQueue;
      Pushed(pkt, queue);
      rxQueue := pkt;
      queue, frames := [pkt] + queue, [pkt.data] + frames;
      Gains(pkt.data);
    }

    method DequeueBuf() returns (pkt: Packet?)
      requires QueueOk()
      modifies this
      ensures QueueOk() && pkt == old(rxQueue)
      ensures if old(queue) == [] then pkt == null && queue == [] && frames == old(frames)
              else pkt != null && old(queue) == [pkt] + queue && old(frames) == [pkt.data] + frames
      ensures PoolKept() && LinesKept() && BooksKept()
    {
      pkt := rxQueue;
      if pkt != null {
        rxQueue := pkt.next;
        queue, frames := queue[1..], frames[1..];
      }
    }

    /** Ask for a buffer to hand a frame up in. */
    method AllocSkb() returns (ok: bool)
      modifies this
      ensures log == if ok then old(log) else old(log).(refused := old(log).refused + 1)
      ensures stats == old(stats) && PoolKept() && QueueKept() && LinesKept()
    {
      if * {
        log := log.(refused := log.refused + 1);
        return false;
      }
      ok := true;
    }

    /** Hand a frame to the upper layers, or drop it exactly if there is no memory for it. */
    method Receive(frame: Frame) returns (ok: bool)
      modifies this
      ensures var was, one := old(stats), multiset{frame};
              stats == if ok then was.(rxPackets := was.rxPackets + 1, rxBytes := was.rxBytes + |frame|)
                       else was.(rxDropped := was.rxDropped + 1)
      ensures var was, one := old(log), multiset{frame};
              log == if ok then was.(handled := was.handled + one, received := was.received + one)
                     else was.(handled := was.handled + one, lost := was.lost + one,
                               lostBytes := was.lostBytes + |frame|, refused := was.refused + 1)
      ensures PoolKept() && QueueKept() && LinesKept()
    {
      ok := AllocSkb();
      log := log.(handled := log.handled + multiset{frame});
      if !ok {
        stats := stats.(rxDropped := stats.rxDropped + 1);
        log := log.(lost := log.lost + multiset{frame}, lostBytes := log.lostBytes + |frame|);
        return false;
      }
      stats := stats.(rxPackets := stats.rxPackets + 1, rxBytes := stats.rxBytes + |frame|);
      log := log.(received := log.received + multiset{frame});
      return true;
    }

    /** Take the first packet off the queue, if there is one, and hand its frame up or drop it. */
    method TakeOne() returns (pkt: Packet?, ok: bool)
      requires QueueOk()
      modifies this
      ensures QueueOk() && Still() && pkt == old(rxQueue)
      ensures if old(queue) == [] then pkt == null && queue == [] else pkt != null && old(queue) == [pkt] + queue
      ensures stats.rxPackets == old(stats.rxPackets) + (if pkt != null && ok then 1 else 0)
      ensures PoolKept() && LinesKept()
    {
      ok := false;
      pkt := DequeueBuf();
      if pkt != null {
        OneLess(log.handled, pkt.data, frames);
        ok := Receive(pkt.data);
      }
    }

    /** Read and clear the pending interrupts. */
    method Acknowledge() returns (pending: Status)
      modifies this
      ensures pending == old(status)
      ensures LinesPart() == (old(rxIntEnabled), QUIET, old(scheduled), old(txPacketLen))
      ensures PoolKept() && QueueKept() && BooksKept() && Still()
    {
      pending := status;
      status := QUIET;
    }

    method RaiseRx()
      modifies this
      ensures LinesPart() == (old(rxIntEnabled), old(status).(rxIntr := true), old(scheduled), old(txPacketLen))
      ensures PoolKept() && QueueKept() && BooksKept() && Still()
    {
      status := status.(rxIntr := true);
    }

    /** The transmission of a frame is over: the log has the frame, the counters wait for the interrupt. */
    method RaiseTx(len: nat, ghost frame: Frame)
      modifies this
      ensures LinesPart() == (old(rxIntEnabled), old(status).(txIntr := true), old(scheduled), len)
      ensures BooksPart() == (old(stats), old(log).(sent := old(log).sent + multiset{frame}))
      ensures PoolKept() && QueueKept() && Balanced()
    {
      txPacketLen := len;
      status := status.(txIntr := true);
      log := log.(sent := log.sent + multiset{frame});
    }

    /** Reception is done: no poll is scheduled any more and interrupts are on again. */
    method CompleteRx()
      modifies this
      ensures LinesPart() == (true, old(status), false, old(txPacketLen))
      ensures PoolKept() && QueueKept() && BooksKept() && Still()
    {
      scheduled := false;
      rxIntEnabled := true;
    }

    /** If a transmission is over, count it. */
    method CountSent(done: bool)
      modifies this
      ensures stats == if done then old(stats).(txPackets := old(stats).txPackets + 1,
                                                txBytes := old(stats).txBytes + txPacketLen) else old(stats)
      ensures log == old(log) && PoolKept() && QueueKept() && LinesKept()
      ensures Balanced()
      ensures Sent() == if done then Count(old(stats).txPackets + 1, old(stats).txBytes + txPacketLen, log.sent)
                        else old(Sent())
    {
      if done {
        stats := stats.(txPackets := stats.txPackets + 1, txBytes := stats.txBytes + txPacketLen);
      }
    }

    /** Leave reception to the poll routine. */
    method ScheduleRx()
      modifies this
      ensures LinesPart() == (false, old(status), true, old(txPacketLen))
      ensures PoolKept() && QueueKept() && BooksKept() && Still()
    {
      rxIntEnabled := false;
      scheduled := true;
    }
  }

  // ---------------------------------------------------------------- the pair

  /** The packets of an interface are in these two lists, each once. */
  ghost predicate Split(d: NetDev, pool: seq<Packet>, queue: seq<Packet>, packets: multiset<Packet>) {
    && multiset(pool) + multiset(queue) == packets && |packets| == d.total
    && forall p :: p in packets ==> p.dev == d && packets[p] == 1
  }

  lemma SplitMoves(d: NetDev, pkt: Packet, pool: seq<Packet>, queue: seq<Packet>, packets: multiset<Packet>)
    ensures Split(d, [pkt] + pool, queue, packets) <==> Split(d, pool, [pkt] + queue, packets)
    ensures Split(d, pool, [pkt] + queue, packets) ==> pkt !in pool && pkt !in queue && pkt.dev == d
  {
    assert multiset([pkt] + pool) + multiset(queue) == multiset(pool) + multiset([pkt] + queue);
    assert (multiset(pool) + multiset([pkt] + queue))[pkt] == multiset(pool)[pkt] + multiset(queue)[pkt] + 1;
  }

  lemma SplitsAreApart(d: NetDev, e: NetDev, a: seq<Packet>, b: seq<Packet>, c: seq<Packet>, f: seq<Packet>,
                       packets: multiset<Packet>, others: multiset<Packet>)
    requires d != e && Split(d, a, b, packets) && Split(e, c, f, others)
    ensures forall p :: p in a || p in b ==> p !in c && p !in f
  {
    assert forall p :: p in a || p in b ==> p in packets;
    assert forall p :: p in c || p in f ==> p in others;
  }

  /** The packets of `d` are in its pool or on the queue of `e`. */
  ghost predicate Way(d: NetDev, e: NetDev)
    reads d`ppool, d`pool, d`packets, d`stopped, e`rxQueue, e`queue, e`frames
    reads (set p | p in d.pool), set p | p in e.queue
  {
    d != e && d.PoolOk() && e.QueueOk() && Split(d, d.pool, e.queue, d.packets)
  }

  /** The same, but a handler may have one packet in its hands. */
  ghost predicate InHand(d: NetDev, e: NetDev, pkt: Packet?)
    reads d`ppool, d`pool, d`packets, d`stopped, e`rxQueue, e`queue, e`frames
    reads (set p | p in d.pool), set p | p in e.queue
  {
    d != e && d.PoolOk() && e.QueueOk() && Split(d, d.pool, With(pkt, e.queue), d.packets)
  }

  ghost function With(pkt: Packet?, queue: seq<Packet>): seq<Packet> {
    if pkt == null then queue else [pkt] + queue
  }

  /** All that `d` has sent has arrived at `e`, nothing else has, and the counters count it. */
  ghost predicate Books(d: NetDev, e: NetDev)
    reads d, e
  {
    e.Arrived() == d.Sent() && e.Tallied() && d.Sent().packets == |d.Sent().frames|
  }

  /** No interrupt is pending and no packet is stranded. */
  ghost predicate Attended(e: NetDev, napi: bool)
    reads e`status, e`rxIntEnabled, e`scheduled, e`queue
  {
    && e.status == QUIET
    && (e.rxIntEnabled <==> !e.scheduled)
    && (if napi then e.queue != [] ==> e.scheduled else !e.scheduled && e.queue == [])
  }

  /** The twin of an interface whose interrupt was handled has only got packets back. */
  twostate predicate OnlyPoolChanged(e: NetDev)
    reads e
  {
    e.packets == old(e.packets) && e.QueueKept() && e.LinesKept() && e.BooksKept() && e.Still()
  }

  /** Take the first packet off the queue, if there is one, and hand its frame up or drop it. */
  method TakeOff(d: NetDev, ghost e: NetDev) returns (pkt: Packet?, ok: bool)
    requires Way(e, d)
    modifies d
    ensures d.Still() && d.PoolKept() && d.LinesKept() && pkt == old(d.rxQueue)
    ensures InHand(e, d, pkt) && old(d.queue) == With(pkt, d.queue) && (pkt == null ==> d.queue == [])
    ensures d.stats.rxPackets == old(d.stats.rxPackets) + (if pkt != null && ok then 1 else 0)
  {
    pkt, ok := d.TakeOne();
  }

  /** A packet taken off the queue goes back to the pool it came from. */
  method TakeBack(ghost d: NetDev, ghost e: NetDev, pkt: Packet)
    requires InHand(d, e, pkt)
    modifies pkt`next, d
    ensures Way(d, e) && d.pool == [pkt] + old(d.pool) && OnlyPoolChanged(d)
  {
    SplitMoves(d, pkt, d.pool, e.queue, d.packets);
    pkt.dev.ReleaseBuffer(pkt);
  }

  /** Acknowledge the interrupts, and take a packet off if one was a receive interrupt. */
  method TakePending(d: NetDev, ghost e: NetDev) returns (pkt: Packet?, pending: Status)
    requires Way(e, d)
    modifies d
    ensures d.Balanced() && d.PoolKept() && d.Sent() == old(d.Sent()) && pending == old(d.status)
    ensures InHand(e, d, pkt) && old(d.queue) == With(pkt, d.queue)
    ensures pkt == if old(d.status).rxIntr then old(d.rxQueue) else null
    ensures !old(d.status).rxIntr ==> d.NoneTaken()
    ensures d.LinesPart() == (old(d.rxIntEnabled), QUIET, old(d.scheduled), old(d.txPacketLen))
  {
    pkt := null;
    pending := d.Acknowledge();
    if pending.rxIntr {
      var ok;
      pkt, ok := TakeOff(d, e);
    }
  }

  /** The part under the lock: acknowledge, take at most one packet off, count a finished transmission. */
  method Locked(d: NetDev, ghost e: NetDev) returns (pkt: Packet?)
    requires Way(e, d)
    modifies d
    ensures d.Balanced() && d.PoolKept() && Counted(d)
    ensures InHand(e, d, pkt) && old(d.queue) == With(pkt, d.queue)
    ensures pkt == if old(d.status).rxIntr then old(d.rxQueue) else null
    ensures !old(d.status).rxIntr ==> d.NoneTaken()
    ensures d.LinesPart() == (old(d.rxIntEnabled), QUIET, old(d.scheduled), old(d.txPacketLen))
  {
    var pending;
    pkt, pending := TakePending(d, e);
    d.CountSent(pending.txIntr);
  }

  /** A transmission is counted if its interrupt was pending, and only then. */
  twostate predicate Counted(d: NetDev)
    reads d
  {
    d.Sent() == if old(d.status).txIntr
                then Count(old(d.stats).txPackets + 1, old(d.stats).txBytes + old(d.txPacketLen), old(d.log).sent)
                else old(d.Sent())
  }

  method RegularInterrupt(d: NetDev, ghost e: NetDev)
    requires Way(e, d)
    modifies d, e, d.rxQueue
    ensures Way(e, d) && d.Balanced() && d.PoolKept() && Counted(d) && OnlyPoolChanged(e)
    ensures d.queue == if old(d.status).rxIntr && old(d.queue) != [] then old(d.queue)[1..] else old(d.queue)
    ensures !old(d.status).rxIntr ==> d.NoneTaken()
    ensures d.status == QUIET && d.rxIntEnabled == old(d.rxIntEnabled) && d.scheduled == old(d.scheduled)
  {
    var pkt := Locked(d, e);
    if pkt != null {
      TakeBack(e, d, pkt);
    }
  }

  method NapiInterrupt(d: NetDev, ghost e: NetDev)
    requires Way(e, d)
    modifies d
    ensures Way(e, d) && d.Balanced() && d.PoolKept() && Counted(d) && d.NoneTaken()
    ensures d.status == QUIET
    ensures d.rxIntEnabled == (old(d.rxIntEnabled) && !old(d.status).rxIntr)
    ensures d.scheduled == (old(d.scheduled) || old(d.status).rxIntr)
  {
    var status := d.Acknowledge();
    if status.rxIntr {
      d.ScheduleRx();
    }
    d.CountSent(status.txIntr);
  }

  /** The handler chosen when the module is loaded. */
  method Interrupt(napi: bool, d: NetDev, ghost e: NetDev)
    requires Way(e, d)
    modifies d, e, d.rxQueue
    ensures Way(e, d) && d.Balanced() && d.PoolKept() && Counted(d) && OnlyPoolChanged(e)
    ensures d.status == QUIET && (napi || !old(d.status).rxIntr ==> d.NoneTaken())
    ensures napi ==>
              && d.rxIntEnabled == (old(d.rxIntEnabled) && !old(d.status).rxIntr)
              && d.scheduled == (old(d.scheduled) || old(d.status).rxIntr)
    ensures !napi ==>
              && d.queue == (if old(d.status).rxIntr && old(d.queue) != [] then old(d.queue)[1..] else old(d.queue))
              && d.rxIntEnabled == old(d.rxIntEnabled) && d.scheduled == old(d.scheduled)
  {
    if napi {
      NapiInterrupt(d, e);
    } else {
      RegularInterrupt(d, e);
    }
  }

  lemma WaysAreApart(d: NetDev, e: NetDev)
    requires Way(d, e) && Way(e, d)
    ensures forall p :: p in d.pool || p in e.queue ==> p !in e.pool && p !in d.queue
  {
    SplitsAreApart(d, e, d.pool, e.queue, e.pool, d.queue, d.packets, e.packets);
  }

  lemma FirstIsApart(d: NetDev, e: NetDev)
    requires Way(d, e) && Way(e, d) && d.pool != []
    ensures d.ppool == d.pool[0] && d.ppool !in e.pool && d.ppool !in d.queue
  {
    WaysAreApart(d, e);
  }

  /** Take a packet from the pool and fill it. */
  method Fill(d: NetDev, ghost e: NetDev, frame: Frame) returns (buffer: Packet)
    requires Way(d, e) && d.pool != []
    modifies d, d.ppool
    ensures InHand(d, e, buffer) && buffer == old(d.ppool) && buffer.data == frame
    ensures d.packets == old(d.packets) && d.QueueKept() && d.LinesKept() && d.BooksKept()
  {
    buffer := d.GetTxBuffer();
    SplitMoves(d, buffer, d.pool, e.queue, d.packets);
    buffer.data := frame;
  }

  /** That leaves the packets of the other direction alone. */
  method FillApart(d: NetDev, ghost e: NetDev, frame: Frame) returns (buffer: Packet)
    requires Way(d, e) && Way(e, d) && d.pool != []
    modifies d, d.ppool
    ensures InHand(d, e, buffer) && Way(e, d) && buffer == old(d.ppool) && buffer.data == frame
    ensures buffer !in e.pool && buffer !in d.queue
    ensures d.packets == old(d.packets) && d.QueueKept() && d.LinesKept() && d.BooksKept()
  {
    FirstIsApart(d, e);
    buffer := Fill(d, e, frame);
  }

  /** One frame has arrived, and nothing else has changed in the books. */
  twostate predicate Gained(e: NetDev, new frame: Frame)
    reads e
  {
    e.Arrived() == old(e.Arrived()).Plus(frame) && (old(e.Tallied()) ==> e.Tallied()) && e.Sent() == old(e.Sent())
  }

  /** Put a filled packet on the queue of the twin. */
  method Pass(ghost d: NetDev, e: NetDev, buffer: Packet)
    requires InHand(d, e, buffer) && Way(e, d) && buffer !in e.pool && buffer !in d.queue
    modifies buffer`next, e
    ensures Way(d, e) && Way(e, d) && e.PoolKept() && e.LinesKept() && e.BooksKept()
    ensures e.rxQueue == buffer && |e.queue| == |old(e.queue)| + 1 && Gained(e, buffer.data) && unchanged(d)
  {
    SplitMoves(d, buffer, d.pool, e.queue, d.packets);
    e.EnqueueBuf(buffer);
  }

  /** Put a frame into a packet from the pool and that on the queue of the twin. */
  method Send(d: NetDev, e: NetDev, frame: Frame)
    requires Way(d, e) && Way(e, d) && d.pool != []
    modifies d, e, d.ppool
    ensures Way(d, e) && Way(e, d)
    ensures d.packets == old(d.packets) && d.QueueKept() && d.LinesKept() && d.BooksKept()
    ensures e.PoolKept() && e.LinesKept() && e.BooksKept()
    ensures e.rxQueue == old(d.ppool) && |e.queue| == |old(e.queue)| + 1 && Gained(e, frame)
  {
    var buffer := FillApart(d, e, frame);
    Pass(d, e, buffer);
  }

  /** The packets of the interface that is interrupted stay where they are. */
  method InterruptBoth(napi: bool, d: NetDev, ghost e: NetDev)
    requires Way(d, e) && Way(e, d)
    modifies d, e, d.rxQueue
    ensures Way(d, e) && Way(e, d) && d.Balanced() && d.PoolKept() && Counted(d) && OnlyPoolChanged(e)
    ensures d.status == QUIET && (napi || !old(d.status).rxIntr ==> d.NoneTaken())
    ensures napi ==>
              && d.rxIntEnabled == (old(d.rxIntEnabled) && !old(d.status).rxIntr)
              && d.scheduled == (old(d.scheduled) || old(d.status).rxIntr)
    ensures !napi ==>
              && d.queue == (if old(d.status).rxIntr && old(d.queue) != [] then old(d.queue)[1..] else old(d.queue))
              && d.rxIntEnabled == old(d.rxIntEnabled) && d.scheduled == old(d.scheduled)
  {
    WaysAreApart(e, d);
    Interrupt(napi, d, e);
  }

  /** Raise the receive interrupt, unless reception is left to the poll routine. */
  method NotifyReceiver(napi: bool, d: NetDev, e: NetDev)
    requires Way(d, e) && Way(e, d) && e.status == QUIET && (e.rxIntEnabled <==> !e.scheduled)
    requires !napi ==> e.rxIntEnabled && |e.queue| == 1
    modifies d, e, e.rxQueue
    ensures Way(d, e) && Way(e, d) && Attended(e, napi)
    ensures e.Still() && e.PoolKept() && OnlyPoolChanged(d) && (napi ==> e.NoneTaken())
  {
    if e.rxIntEnabled {
      e.RaiseRx();
      InterruptBoth(napi, e, d);
    }
  }

  /** Raise the interrupt that says the transmission is over. */
  method NotifySender(napi: bool, d: NetDev, e: NetDev, len: nat, ghost frame: Frame)
    requires Way(d, e) && Way(e, d) && Attended(d, napi) && len == |frame|
    modifies d, e, d.rxQueue
    ensures Way(d, e) && Way(e, d) && Attended(d, napi)
    ensures d.Balanced() && d.PoolKept() && OnlyPoolChanged(e) && d.Sent() == old(d.Sent()).Plus(frame)
    ensures d.NoneTaken()
  {
    d.RaiseTx(len, frame);
    InterruptBoth(napi, d, e);
  }

  /** One round of the poll loop: the packet goes back to its pool whether its frame was handed up or dropped. */
  method PollOne(d: NetDev, ghost e: NetDev) returns (ok: bool)
    requires Way(e, d) && d.queue != []
    modifies d, e, d.rxQueue
    ensures Way(e, d) && d.Still()
    ensures d.PoolKept() && d.LinesKept() && OnlyPoolChanged(e)
    ensures d.stats.rxPackets == old(d.stats.rxPackets) + (if ok then 1 else 0)
    ensures d.queue == old(d.queue)[1..]
  {
    var pkt;
    pkt, ok := TakeOff(d, e);
    TakeBack(e, d, pkt);
  }

  /** Hand up at most `quota` packets; dropped ones do not count, and still the loop ends. */
  method PollLoop(d: NetDev, ghost e: NetDev, quota: int) returns (n: nat)
    requires Way(e, d)
    modifies d, e, set p | p in d.queue
    ensures Way(e, d) && d.Still()
    ensures d.PoolKept() && d.LinesKept() && OnlyPoolChanged(e)
    ensures d.stats.rxPackets == old(d.stats.rxPackets) + n
    ensures Served(old(d.queue), d.queue, n)
    ensures n == 0 || n <= quota
    ensures n < quota ==> d.queue == []
  {
    n := 0;
    while n < quota && d.rxQueue != null
      invariant Way(e, d) && d.Still()
      invariant d.PoolKept() && d.LinesKept() && OnlyPoolChanged(e)
      invariant d.stats.rxPackets == old(d.stats.rxPackets) + n
      invariant Served(old(d.queue), d.queue, n)
      invariant n == 0 || n <= quota
      decreases |d.queue|
    {
      ghost var queue := d.queue;
      var ok := PollOne(d, e);
      assert d.queue == old(d.queue)[|old(d.queue)| - |queue| + 1..];
      if ok {
        n := n + 1;
      }
    }
  }

  /** At least `n` packets have been taken off the front of the queue, and nothing else has happened to it. */
  ghost predicate Served(before: seq<Packet>, after: seq<Packet>, n: nat) {
    |after| + n <= |before| && after == before[|before| - |after|..]
  }

  /** What holds of the pair between any two handlers, seen from either side. */
  ghost predicate Sound(napi: bool, d: NetDev, e: NetDev)
    reads d, e
    reads (set p | p in d.pool), (set p | p in d.queue), (set p | p in e.pool), set p | p in e.queue
  {
    && Way(d, e) && Way(e, d)
    && Books(d, e) && Books(e, d)
    && Attended(d, napi) && Attended(e, napi)
  }

  /** Every packet of an interface is in its pool or on its twin's queue, never in both, and none has come or gone. */
  lemma OnePlaceEach(napi: bool, d: NetDev, e: NetDev, p: Packet)
    requires Sound(napi, d, e)
    ensures p in d.packets <==> (p in d.pool || p in e.queue)
    ensures !(p in d.pool && p in e.queue) && !(p in d.packets && p in e.packets)
    ensures |d.pool| + |e.queue| == |d.packets| == d.total
  {
    assert p in d.packets ==> d.packets[p] == 1;
  }

  lemma NewPair(napi: bool, d: NetDev, e: NetDev)
    requires d != e && d.New() && e.New()
    ensures Sound(napi, d, e) <==> d.total != 0 && e.total != 0
  {
    assert multiset(d.pool) + multiset(e.queue) == d.packets;
    assert multiset(e.pool) + multiset(d.queue) == e.packets;
  }

  /**
   Both interfaces set up, the allocator granting so many packets to each.  An interface without a
   packet would have to be stopped, and it starts unstopped.
   */
  method Setup(napi: bool, poolSize: int, grantedLeft: nat, grantedRight: nat) returns (left: NetDev, right: NetDev)
    ensures fresh(left) && fresh(right)
    ensures left.total == PoolSize(poolSize, grantedLeft) && right.total == PoolSize(poolSize, grantedRight)
    ensures |left.pool| == left.total && |right.pool| == right.total && !left.stopped && !right.stopped
    ensures Sound(napi, left, right) <==> 1 <= poolSize && 1 <= grantedLeft && 1 <= grantedRight
  {
    left := new NetDev(poolSize, grantedLeft);
    right := new NetDev(poolSize, grantedRight);
    NewPair(napi, left, right);
  }

  /** The default pool size and no memory for the left interface: it would transmit from an empty pool. */
  method SetupStarved(napi: bool) returns (left: NetDev, right: NetDev)
    ensures !left.stopped && left.pool == [] && !Sound(napi, left, right)
  {
    left, right := Setup(napi, 8, 0, 8);
  }

  /** An interface that owns no packet can only be stopped, whatever has happened to it. */
  lemma WithoutPacketsStopped(napi: bool, d: NetDev, e: NetDev)
    requires Sound(napi, d, e)
    ensures d.total == 0 ==> d.stopped
    ensures d.stopped <==> |e.queue| == d.total
  {
    assert |d.pool| + |e.queue| == |d.packets|;
  }

  /** Neither interface has got or lost a packet, and `e` has sent nothing. */
  twostate predicate Kept(d: NetDev, e: NetDev)
    reads d, e
  {
    d.packets == old(d.packets) && e.packets == old(e.packets) && e.Sent() == old(e.Sent())
  }

  /** One packet more waits, and none has been handed up or dropped. */
  twostate predicate Queued(e: NetDev)
    reads e
  {
    |e.queue| == |old(e.queue)| + 1 && e.stats == old(e.stats) && e.log == old(e.log)
  }

  /** The frame is on its way, but the sender has not counted it yet. */
  method Deliver(napi: bool, d: NetDev, e: NetDev, frame: Frame)
    requires Way(d, e) && Way(e, d) && Attended(d, napi) && Attended(e, napi) && d.pool != []
    modifies d, e, d.ppool
    ensures Way(d, e) && Way(e, d) && Attended(d, napi) && Attended(e, napi)
    ensures Gained(e, frame) && d.Still() && d.NoneTaken() && Kept(d, e) && (napi ==> Queued(e))
  {
    Send(d, e, frame);
    assert d.Still();
    NotifyReceiver(napi, d, e);
  }

  /** A frame goes into a packet and on to the twin, and both interfaces are told; one that is too short goes nowhere. */
  method HwTx(napi: bool, d: NetDev, e: NetDev, frame: Frame)
    requires Sound(napi, d, e) && !d.stopped
    modifies d, e, d.ppool, d.rxQueue
    ensures Sound(napi, d, e) && Kept(d, e)
    ensures d.Sent() == if |frame| < HEADERS then old(d.Sent()) else old(d.Sent()).Plus(frame)
    ensures d.NoneTaken() && (napi && HEADERS <= |frame| ==> Queued(e))
  {
    if |frame| < HEADERS {
      return;
    }
    Deliver(napi, d, e, frame);
    NotifySender(napi, d, e, |frame|, frame);
  }

  /**
   Transmission, which the kernel asks for only while the transmit queue is not stopped: short frames
   are padded, so every frame is long enough to go out.
   */
  method Tx(napi: bool, d: NetDev, e: NetDev, frame: Frame)
    requires Sound(napi, d, e) && !d.stopped
    modifies d, e, d.ppool, d.rxQueue
    ensures Sound(napi, d, e) && Kept(d, e) && d.Sent() == old(d.Sent()).Plus(Padded(frame))
    ensures d.NoneTaken() && (napi ==> Queued(e))
  {
    var data := frame;
    if |frame| < ETH_ZLEN {
      data := frame + seq(ETH_ZLEN - |frame|, _ => 0);
    }
    HwTx(napi, d, e, data);
  }

  function Padded(frame: Frame): (padded: Frame)
    ensures frame <= padded && ETH_ZLEN <= |padded| && (ETH_ZLEN < |padded| ==> padded == frame)
    ensures forall i :: |frame| <= i < |padded| ==> padded[i] == 0
  {
    if |frame| < ETH_ZLEN then frame + seq(ETH_ZLEN - |frame|, _ => 0) else frame
  }

  method PollBoth(d: NetDev, e: NetDev, quota: int) returns (n: nat)
    requires Way(d, e) && Way(e, d) && Books(d, e) && Books(e, d)
    modifies d, e, set p | p in d.queue
    ensures Way(d, e) && Way(e, d) && Books(d, e) && Books(e, d) && Kept(d, e) && d.Sent() == old(d.Sent())
    ensures d.LinesKept() && e.LinesKept() && e.QueueKept()
    ensures d.stats.rxPackets == old(d.stats.rxPackets) + n
    ensures Served(old(d.queue), d.queue, n) && (n == 0 || n <= quota) && (n < quota ==> d.queue == [])
  {
    WaysAreApart(e, d);
    n := PollLoop(d, e, quota);
  }

  /** No poll is scheduled any more and interrupts are on again; nothing else changes. */
  method Finish(d: NetDev, ghost e: NetDev)
    requires Way(d, e) && Way(e, d)
    modifies d
    ensures Way(d, e) && Way(e, d) && d.Still() && d.PoolKept() && d.QueueKept() && d.BooksKept()
    ensures d.rxIntEnabled && !d.scheduled && d.status == old(d.status)
  {
    d.CompleteRx();
  }

  /** The poll routine: when it reports that all is done no packet is left and interrupts are on; else the quota is used up. */
  method Poll(d: NetDev, e: NetDev, quota: int, budget: int)
    returns (more: bool, newQuota: int, newBudget: int, n: nat)
    requires Sound(true, d, e) && d.scheduled
    modifies d, e, set p | p in d.queue
    ensures Sound(true, d, e) && Kept(d, e) && d.Sent() == old(d.Sent())
    ensures d.stats.rxPackets == old(d.stats.rxPackets) + n && newQuota == quota - n && newBudget == budget - n
    ensures Served(old(d.queue), d.queue, n) && (n == 0 || n <= Min(quota, budget))
    ensures more <==> d.queue != []
    ensures if more then Min(quota, budget) <= n else d.rxIntEnabled && !d.scheduled
  {
    n := PollBoth(d, e, Min(quota, budget));
    newBudget := budget - n;
    newQuota := quota - n;
    more := d.rxQueue != null;
    if !more {
      Finish(d, e);
    }
  }
}
