/**
 What the file of zeroed pages that a scullp device holds means to those who use it: every byte is the
 one last written there, or zero if none was.
 */
module PageHistory {
  import opened Ring
  import opened Geometry
  import ScullDevice
  import opened Scullp

  /** The byte at a position, as far as its page exists. */
  ghost function ByteAt(f: PageFile, pageSize: nat, x: nat): byte
    requires f.Valid(pageSize)
  {
    f.PageFor(pageSize, Block(pageSize, x))[Offset(pageSize, x)]
  }

  /** How much of a request one call serves: up to the end of the page. */
  function Share(pageSize: nat, pos: nat, count: nat): nat
    requires 0 < pageSize
  {
    Min(count, Room(pageSize, pos))
  }

  /** Positions in one page are as far apart as their offsets. */
  lemma InPage(pageSize: nat, pos: nat, x: nat)
    requires 0 < pageSize
    ensures pos <= x < pos + Room(pageSize, pos) ==>
              Block(pageSize, x) == Block(pageSize, pos) && Offset(pageSize, x) == Offset(pageSize, pos) + (x - pos)
    ensures Block(pageSize, x) == Block(pageSize, pos) ==> x - pos == Offset(pageSize, x) - Offset(pageSize, pos)
  {
    if pos <= x < pos + Room(pageSize, pos) {
      WithinBlock(pageSize, pos, x - pos);
    }
    SamePlace(pageSize, 1, x, pos);
  }

  /** A write changes the bytes of its range within the page and no others, and grows the file to their end. */
  lemma WriteChangesItsRange(f: PageFile, pageSize: nat, pos: nat, data: seq<byte>, x: nat)
    requires f.Valid(pageSize)
    ensures var g, k := f.Write(pageSize, pos, data), Share(pageSize, pos, |data|);
            && ByteAt(g, pageSize, x) == (if pos <= x < pos + k then data[x - pos] else ByteAt(f, pageSize, x))
            && g.pages.Keys == f.pages.Keys + {Block(pageSize, pos)}
            && g.size == (if f.size < pos + k then pos + k else f.size)
  {
    InPage(pageSize, pos, x);
  }

  /** A read returns the bytes at its positions, up to the end of page and file, unless there is no page. */
  lemma ReadIsBytes(f: PageFile, pageSize: nat, pos: nat, count: nat)
    requires f.Valid(pageSize)
    ensures var r := f.Read(pageSize, pos, count);
            && |r| == (if pos > f.size || Block(pageSize, pos) !in f.pages then 0
                       else Share(pageSize, pos, Min(count, f.size - pos)))
            && forall i :: 0 <= i < |r| ==> r[i] == ByteAt(f, pageSize, pos + i)
  {
    var r := f.Read(pageSize, pos, count);
    forall i | 0 <= i < |r| ensures r[i] == ByteAt(f, pageSize, pos + i) {
      InPage(pageSize, pos, pos + i);
    }
  }

  lemma ByteRead(f: PageFile, pageSize: nat, pos: nat, count: nat, i: nat)
    requires f.Valid(pageSize) && i < |f.Read(pageSize, pos, count)|
    ensures f.Read(pageSize, pos, count)[i] == ByteAt(f, pageSize, pos + i)
  {
    ReadIsBytes(f, pageSize, pos, count);
  }

  /** Reading where a write has just been returns what was accepted. */
  lemma ReadAfterWrite(f: PageFile, pageSize: nat, pos: nat, data: seq<byte>)
    requires f.Valid(pageSize)
    ensures var k := Share(pageSize, pos, |data|);
            f.Write(pageSize, pos, data).Read(pageSize, pos, |data|) == data[..k]
  {
    var g := f.Write(pageSize, pos, data);
    var at, k := Offset(pageSize, pos), Share(pageSize, pos, |data|);
    assert g.pages[Block(pageSize, pos)][at..at + k] == data[..k];
  }

  // ---------------------------------------------------------------- histories

  /** A write that succeeded, or what landed of one whose copy faulted; that does not make the file larger. */
  datatype Event = Stored(pos: nat, data: seq<byte>) | Torn(pos: nat, data: seq<byte>)

  ghost function Apply(f: PageFile, pageSize: nat, e: Event): (g: PageFile)
    requires f.Valid(pageSize)
    ensures g.Valid(pageSize)
  {
    match e
    case Stored(pos, data) => f.Write(pageSize, pos, data)
    case Torn(pos, data) => f.Patch(pageSize, pos, data[..Share(pageSize, pos, |data|)])
  }

  /** The file after these events since the last trim. */
  ghost function Replay(pageSize: nat, h: seq<Event>): (f: PageFile)
    requires 0 < pageSize
    ensures f.Valid(pageSize)
  {
    if h == [] then PageFile(0, map[]) else Apply(Replay(pageSize, h[..|h| - 1]), pageSize, h[|h| - 1])
  }

  /** Was the position within what got to the page? */
  predicate Touches(pageSize: nat, e: Event, x: nat)
    requires 0 < pageSize
  {
    e.pos <= x < e.pos + Share(pageSize, e.pos, |e.data|)
  }

  /** The byte last written at a position, zero if none was. */
  function LastByte(pageSize: nat, h: seq<Event>, x: nat): byte
    requires 0 < pageSize
  {
    if h == [] then 0
    else
      var e := h[|h| - 1];
      if Touches(pageSize, e, x) then e.data[x - e.pos] else LastByte(pageSize, h[..|h| - 1], x)
  }

  /** Every byte is the one last written there. */
  ghost predicate HoldsLast(f: PageFile, pageSize: nat, h: seq<Event>) {
    f.Valid(pageSize) && forall x: nat :: ByteAt(f, pageSize, x) == LastByte(pageSize, h, x)
  }

  lemma ApplyChangesItsRange(f: PageFile, pageSize: nat, e: Event, x: nat)
    requires f.Valid(pageSize)
    ensures ByteAt(Apply(f, pageSize, e), pageSize, x) ==
            if Touches(pageSize, e, x) then e.data[x - e.pos] else ByteAt(f, pageSize, x)
  {
    WriteChangesItsRange(f, pageSize, e.pos, e.data, x);
  }

  lemma {:induction false} EventsHoldLast(pageSize: nat, h: seq<Event>)
    requires 0 < pageSize
    ensures HoldsLast(Replay(pageSize, h), pageSize, h)
  {
    if h != [] {
      var f, e := Replay(pageSize, h[..|h| - 1]), h[|h| - 1];
      EventsHoldLast(pageSize, h[..|h| - 1]);
      forall x: nat ensures ByteAt(Apply(f, pageSize, e), pageSize, x) == LastByte(pageSize, h, x) {
        ApplyChangesItsRange(f, pageSize, e, x);
      }
    }
  }

  /** So each byte read is the last one written at its position. */
  lemma ReadsLastByte(f: PageFile, pageSize: nat, h: seq<Event>, pos: nat, count: nat, i: nat)
    requires HoldsLast(f, pageSize, h) && i < |f.Read(pageSize, pos, count)|
    ensures f.Read(pageSize, pos, count)[i] == LastByte(pageSize, h, pos + i)
  {
    ByteRead(f, pageSize, pos, count, i);
  }

  /** That is zero where nothing was written. */
  lemma {:induction false} UntouchedIsZero(pageSize: nat, h: seq<Event>, x: nat)
    requires 0 < pageSize
    ensures (forall e :: e in h ==> !Touches(pageSize, e, x)) ==> LastByte(pageSize, h, x) == 0
  {
    if h != [] && forall e :: e in h ==> !Touches(pageSize, e, x) {
      assert h[|h| - 1] in h;
      UntouchedIsZero(pageSize, h[..|h| - 1], x);
    }
  }

  // ---------------------------------------------------------------- on the device

  /** What a write call adds to the history. */
  function Outcome(r: ScullDevice.WriteResult, pos: nat, data: seq<byte>, landed: seq<byte>): seq<Event> {
    match r
    case Accepted(_) => [Stored(pos, data)]
    case BadAddress => [Torn(pos, landed)]
    case NoMemory => []
  }

  lemma OneEventMore(pageSize: nat, h: seq<Event>, f: PageFile, r: ScullDevice.WriteResult, pos: nat, data: seq<byte>, landed: seq<byte>)
    requires 0 < pageSize && |landed| <= Room(pageSize, pos)
    requires match r
             case Accepted(_) => f == Replay(pageSize, h).Write(pageSize, pos, data)
             case BadAddress => f == Replay(pageSize, h).Patch(pageSize, pos, landed)
             case NoMemory => f == Replay(pageSize, h)
    ensures f == Replay(pageSize, h + Outcome(r, pos, data, landed))
  {
    var g := h + Outcome(r, pos, data, landed);
    if r.NoMemory? {
      assert g == h;
    } else {
      assert g[..|g| - 1] == h && landed[..|landed|] == landed;
    }
  }

  /** A device and what has been written to it since it was last trimmed. */
  class Recorded {
    const dev: Device
    ghost var history: seq<Event>

    ghost predicate Valid()
      reads this, dev, dev.slab, dev.Repr
    {
      && dev.Valid() && 0 < dev.pageSize && this !in dev.Repr
      && dev.file == Replay(dev.pageSize, history)
    }

    constructor (dev: Device)
      requires dev.Valid() && dev.file == PageFile(0, map[])
      ensures Valid() && this.dev == dev && history == []
    {
      this.dev, history := dev, [];
    }

    /** Exactly one event is added, unless memory is short. */
    method Write(pos: nat, data: seq<byte>, copies: bool) returns (r: ScullDevice.WriteResult, ghost landed: seq<byte>)
      requires Valid() && dev.order == 0
      modifies this, dev, dev.slab, dev.Repr
      ensures Valid() && fresh(dev.Repr - old(dev.Repr)) && |landed| <= Room(dev.pageSize, pos)
      ensures history == old(history) + Outcome(r, pos, data, landed)
      ensures r.NoMemory? <==> dev.slab.refused != old(dev.slab.refused)
      ensures !r.NoMemory? ==> r.Accepted? == copies
    {
      r, landed := dev.Write(pos, data, copies);
      OneEventMore(dev.pageSize, history, dev.file, r, pos, data, landed);
      history := history + Outcome(r, pos, data, landed);
    }

    /** Every byte that comes is the one last written at its position, zero if none was. */
    method Read(pos: nat, count: nat, copies: bool) returns (r: ScullDevice.ReadResult)
      requires Valid() && dev.order == 0
      modifies dev, dev.slab, dev.Repr
      ensures Valid() && fresh(dev.Repr - old(dev.Repr)) && history == old(history)
      ensures r.Bytes? ==> forall i :: 0 <= i < |r.bytes| ==> r.bytes[i] == LastByte(dev.pageSize, history, pos + i)
    {
      r := dev.Read(pos, count, copies);
      EventsHoldLast(dev.pageSize, history);
      if r.Bytes? {
        forall i | 0 <= i < |r.bytes| ensures r.bytes[i] == LastByte(dev.pageSize, history, pos + i) {
          ReadsLastByte(dev.file, dev.pageSize, history, pos, count, i);
        }
      }
    }

    /** The history starts over, unless the device is mapped. */
    method Trim(newQset: nat, newOrder: nat) returns (busy: bool)
      requires Valid() && 0 < newQset
      modifies this, dev, dev.slab, dev.nodes
      ensures Valid() && (busy <==> old(dev.vmas) > 0)
      ensures history == if busy then old(history) else []
    {
      busy := dev.Trim(newQset, newOrder);
      if !busy {
        history := [];
      }
    }
  }
}
