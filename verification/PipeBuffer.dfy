/**
 The ring behind a scull pipe: pointer arithmetic of read, write, poll, open and release,
 each as it runs while the device semaphore is held and nobody else interferes.
 */
module PipeBuffer {
  import opened Ring

  datatype Errno = EAGAIN | EFAULT | ENOMEM | ERESTARTSYS

  datatype Status = Ok | Err(error: Errno)

  datatype Transfer = Moved(bytes: seq<byte>) | Failed(error: Errno)

  /** The free space between different pointers, on raw offsets (either may stand one past the end for an instant). */
  function Gap(n: nat, rp: nat, wp: nat): int
    requires 0 < n && rp <= n && wp <= n
  {
    (rp + n - wp) % n - 1
  }

  /** The free-space formula. */
  function SpaceFree(n: nat, rp: nat, wp: nat): int
    requires 0 < n && rp <= n && wp <= n
  {
    if rp == wp then n - 1 else Gap(n, rp, wp)
  }

  /** `count` cut to a limit; as in C, a negative limit is read as a huge unsigned number. */
  function Capped(count: nat, limit: int): (k: nat)
    ensures k <= count && (0 <= limit ==> k == Min(count, limit))
  {
    if limit < 0 then count else Min(count, limit)
  }

  /** How many of `count` bytes one read call transfers. */
  function ReadCount(n: nat, rp: nat, wp: nat, count: nat): (k: nat)
    requires rp <= n && wp <= n
    ensures rp + k <= n
    ensures rp < n && wp < n && rp != wp ==> k == Min(count, Readable(n, rp, wp))
  {
    if wp > rp then Min(count, wp - rp) else Min(count, n - rp)
  }

  /** How many of `count` bytes one write call accepts. */
  function WriteCount(n: nat, rp: nat, wp: nat, count: nat): (k: nat)
    requires 0 < n && rp <= n && wp <= n
    ensures wp + k <= n && k <= count
    ensures rp < n && wp < n ==> k == Min(count, Writable(n, rp, wp))
  {
    assert rp < n && wp < n ==> SpaceFree(n, rp, wp) == n - 1 - Used(n, rp, wp) by {
      if rp < n && wp < n {
        SpaceFreeIsExact(n, rp, wp);
      }
    }
    var c := Capped(count, SpaceFree(n, rp, wp));
    if wp >= rp then Min(c, n - wp) else Min(c, rp - wp - 1)
  }

  /** Content and free space always add up to one less than the buffer, wrapped or not. */
  lemma SpaceFreeIsExact(n: nat, rp: nat, wp: nat)
    requires rp < n && wp < n
    ensures SpaceFree(n, rp, wp) + Used(n, rp, wp) == n - 1
    ensures SpaceFree(n, rp, wp) == 0 <==> Writable(n, rp, wp) == 0
    ensures Used(n, rp, wp) == 0 <==> rp == wp
  {
    if rp != wp {
      ModOnce(rp + n - wp, n);
    }
  }

  /** The ring as a value, with what one read or write call does to it. */
  datatype Fifo = Fifo(cells: seq<byte>, rp: nat, wp: nat) {
    ghost predicate Valid() {
      rp < |cells| && wp < |cells|
    }

    function Stored(): seq<byte>
      requires Valid()
    {
      Content(cells, rp, wp)
    }

    /** One read call that finds data. */
    function Read(count: nat): (res: (Fifo, seq<byte>))
      requires Valid() && rp != wp
      ensures res.0.Valid() && |res.0.cells| == |cells|
      ensures res.1 + res.0.Stored() == Stored()
      ensures |res.1| == Min(count, Readable(|cells|, rp, wp))
    {
      var k := ReadCount(|cells|, rp, wp, count);
      Consume(cells, rp, wp, k);
      SplitAt(Stored(), k);
      (this.(rp := Wrap(|cells|, rp + k)), cells[rp..rp + k])
    }

    /** One write call that finds room; the second component is the number of bytes accepted. */
    function Write(data: seq<byte>): (res: (Fifo, nat))
      requires Valid() && |Stored()| < |cells| - 1
      ensures res.0.Valid() && |res.0.cells| == |cells|
      ensures res.1 <= |data| && res.0.Stored() == Stored() + data[..res.1]
      ensures res.1 == Min(|data|, Writable(|cells|, rp, wp))
    {
      var k := WriteCount(|cells|, rp, wp, |data|);
      Produce(cells, rp, wp, data[..k]);
      (this.(cells := Splice(cells, wp, data[..k]), wp := Wrap(|cells|, wp + k)), k)
    }
  }

  /** Any data that fits goes in with at most two write calls, and each call makes progress. */
  lemma TwoWritesSuffice(f: Fifo, data: seq<byte>)
    requires f.Valid() && 0 < |data| <= |f.cells| - 1 - |f.Stored()|
    ensures var (g, k) := f.Write(data);
            && 0 < k
            && (k == |data| ==> g.Stored() == f.Stored() + data)
            && (k < |data| ==>
                  && |g.Stored()| < |g.cells| - 1
                  && g.Write(data[k..]).1 == |data| - k
                  && g.Write(data[k..]).0.Stored() == f.Stored() + data)
  {
    var (g, k) := f.Write(data);
    SplitAt(data, k);
    if k < |data| {
      assert g.wp == 0 && g.rp == f.rp && |g.Stored()| == |f.Stored()| + k;
      Regroup(f.Stored(), data[..k], data[k..]);
    }
  }

  /** Any content is drained by at most two read calls, and each call makes progress. */
  lemma TwoReadsSuffice(f: Fifo, count: nat)
    requires f.Valid() && f.rp != f.wp && count >= |f.Stored()|
    ensures var (g, first) := f.Read(count);
            && first != []
            && (g.rp == g.wp ==> first == f.Stored())
            && (g.rp != g.wp ==>
                  var (h, second) := g.Read(count);
                  second != [] && h.rp == h.wp && first + second == f.Stored())
  {
  }

  // ---------------------------------------------------------------- a size that is not the buffer's

  datatype Use = Take(count: nat) | Put(data: seq<byte>)

  /** A call that finds neither data nor room leaves the ring alone. */
  function AfterUse(f: Fifo, u: Use): (g: Fifo)
    requires f.Valid()
    ensures g.Valid() && |g.cells| == |f.cells|
  {
    match u
    case Take(count) => if f.rp == f.wp then f else f.Read(count).0
    case Put(data) => if |f.Stored()| == |f.cells| - 1 then f else f.Write(data).0
  }

  /** Does the call store at an offset that is not among the first `length`? */
  predicate StoresBeyond(f: Fifo, u: Use, length: nat)
    requires f.Valid()
  {
    u.Put? && |f.Stored()| < |f.cells| - 1 && f.Write(u.data).1 > 0 && f.wp + f.Write(u.data).1 > length
  }

  predicate Oversteps(f: Fifo, uses: seq<Use>, length: nat)
    requires f.Valid()
    decreases |uses|
  {
    uses != [] && (StoresBeyond(f, uses[0], length) || Oversteps(AfterUse(f, uses[0]), uses[1..], length))
  }

  lemma {:induction false} InsideIfItFits(f: Fifo, uses: seq<Use>, length: nat)
    requires f.Valid() && |f.cells| <= length
    ensures !Oversteps(f, uses, length)
    decreases |uses|
  {
    if uses != [] {
      InsideIfItFits(AfterUse(f, uses[0]), uses[1..], length);
    }
  }

  /** Fill the ring, drain it, write one byte more: that byte goes to the last offset. */
  function FillDrainWrite(n: nat): seq<Use>
    requires 2 <= n
  {
    [Put(seq(n - 1, _ => 0)), Take(n - 1), Put([0])]
  }

  lemma FillDrainWriteOversteps(cells: seq<byte>, length: nat)
    requires 0 < length < |cells|
    ensures Oversteps(Fifo(cells, 0, 0), FillDrainWrite(|cells|), length)
    ensures length == |cells| - 1 ==> !Oversteps(Fifo(cells, 0, 0), FillDrainWrite(|cells|)[..2], length)
  {
    var n, uses := |cells|, FillDrainWrite(|cells|);
    var f := Fifo(cells, 0, 0);
    var g := AfterUse(f, uses[0]);
    var h := AfterUse(g, uses[1]);
    assert g.wp == n - 1 && h.rp == h.wp == n - 1;
    assert Oversteps(h, uses[2..], length) && !Oversteps(h, [], length);
    assert uses[1..][1..] == uses[2..];
    assert Oversteps(g, uses[1..], length);
    assert uses[..2][1..] == [uses[1]] && [uses[1]][1..] == [];
    assert length == n - 1 ==> !Oversteps(g, [uses[1]], length) && !StoresBeyond(f, uses[0], length);
  }

  predicate LeadsOutside(cells: seq<byte>, uses: seq<Use>, length: nat)
    requires 0 < |cells|
  {
    Oversteps(Fifo(cells, 0, 0), uses, length)
  }

  /**
   A ring of one size in a buffer for another, starting empty: some sequence of reads and
   writes stores outside the buffer if and only if the buffer is the smaller one.
   */
  lemma SizeMustFit(cells: seq<byte>, length: nat)
    requires 0 < length && 0 < |cells|
    ensures (exists uses :: LeadsOutside(cells, uses, length)) <==> length < |cells|
  {
    if length < |cells| {
      FillDrainWriteOversteps(cells, length);
      assert LeadsOutside(cells, FillDrainWrite(|cells|), length);
    } else {
      forall uses ensures !LeadsOutside(cells, uses, length) {
        InsideIfItFits(Fifo(cells, 0, 0), uses, length);
      }
    }
  }

  /** The device structure. */
  class Pipe {
    var buffer: array?<byte>
    var buffersize: nat
    var rp: nat
    var wp: nat
    var nreaders: nat
    var nwriters: nat

    ghost predicate Valid()
      reads this, buffer
    {
      && (buffer != null ==> buffersize <= buffer.Length && rp < buffersize && wp < buffersize)
      && (nreaders + nwriters > 0 ==> buffer != null)
    }

    ghost function AsFifo(): Fifo
      reads this, buffer
      requires buffer != null && buffersize <= buffer.Length
    {
      Fifo(buffer[..buffersize], rp, wp)
    }

    constructor ()
      ensures Valid() && buffer == null && nreaders == nwriters == 0
    {
      buffer := null;
      buffersize, rp, wp, nreaders, nwriters := 0, 0, 0, 0, 0;
    }

    /**
     Opening allocates on first use and always empties the ring, whoever else has it open.  It takes over the
     size parameter even if the buffer was allocated for another one; see `SizeMustFit` for what comes of it.
     */
    method Open(bufferParameter: nat, memory: bool, forRead: bool, forWrite: bool) returns (status: Status)
      requires Valid() && 0 < bufferParameter
      modifies this
      ensures status == if old(buffer) == null && !memory then Err(ENOMEM) else Ok
      ensures status.Err? ==> Valid() && buffer == null && nreaders == old(nreaders) && nwriters == old(nwriters)
      ensures status.Ok? ==>
                && buffer != null && buffersize == bufferParameter && rp == wp == 0
                && (old(buffer) != null ==> buffer == old(buffer) && buffer[..] == old(buffer[..]))
                && (old(buffer) == null ==> fresh(buffer) && buffer.Length == bufferParameter)
                && nreaders == old(nreaders) + (if forRead then 1 else 0)
                && nwriters == old(nwriters) + (if forWrite then 1 else 0)
      ensures status.Ok? ==> (Valid() <==> bufferParameter <= buffer.Length)
      ensures status.Ok? && Valid() ==> AsFifo().Stored() == []
    {
      if buffer == null {
        if !memory {
          return Err(ENOMEM);
        }
        buffer := new byte[bufferParameter];
      }
      buffersize := bufferParameter;
      rp, wp := 0, 0;
      if forRead {
        nreaders := nreaders + 1;
      }
      if forWrite {
        nwriters := nwriters + 1;
      }
      return Ok;
    }

    /** The last handle to go frees the buffer; earlier ones leave data and offsets alone. */
    method Release(forRead: bool, forWrite: bool)
      requires Valid() && (forRead ==> nreaders > 0) && (forWrite ==> nwriters > 0)
      modifies this
      ensures Valid()
      ensures nreaders == old(nreaders) - (if forRead then 1 else 0)
      ensures nwriters == old(nwriters) - (if forWrite then 1 else 0)
      ensures buffer == if nreaders + nwriters == 0 then null else old(buffer)
      ensures buffersize == old(buffersize) && rp == old(rp) && wp == old(wp)
    {
      if forRead {
        nreaders := nreaders - 1;
      }
      if forWrite {
        nwriters := nwriters - 1;
      }
      if nreaders + nwriters == 0 {
        buffer := null;
      }
    }

    /** A non-blocking read; `copies` tells whether the copy to user space succeeds. */
    method Read(count: nat, copies: bool) returns (res: Transfer)
      requires Valid() && buffer != null
      modifies this`rp
      ensures Valid()
      ensures res == Failed(EAGAIN) <==> old(AsFifo().Stored()) == []
      ensures res == Failed(EFAULT) <==> old(AsFifo().Stored()) != [] && !copies
      ensures res.Failed? ==> AsFifo() == old(AsFifo())
      ensures res.Moved? ==>
                && old(rp != wp)
                && AsFifo() == old(AsFifo()).Read(count).0
                && res.bytes == old(AsFifo()).Read(count).1
    {
      ghost var before := AsFifo();
      if rp == wp {
        return Failed(EAGAIN);
      }
      var k: nat := count;
      if wp > rp {
        k := Min(k, wp - rp);
      } else {
        k := Min(k, buffersize - rp);
      }
      if !copies {
        return Failed(EFAULT);
      }
      assert k == ReadCount(buffersize, rp, wp, count);
      res := Moved(buffer[rp..rp + k]);
      rp := rp + k;
      if rp == buffersize {
        rp := 0;
      }
    }

    /**
     A non-blocking write.  A copy that faults may already have scribbled `junk` over free cells,
     but nothing of it becomes readable.
     */
    method Write(data: seq<byte>, copies: bool, junk: seq<byte>) returns (res: Transfer)
      requires Valid() && buffer != null
      modifies this`wp, buffer
      ensures Valid()
      ensures res == Failed(EAGAIN) <==> SpaceFree(buffersize, old(rp), old(wp)) == 0
      ensures res == Failed(EFAULT) <==> SpaceFree(buffersize, old(rp), old(wp)) != 0 && !copies
      ensures res.Failed? ==> wp == old(wp) && AsFifo().Stored() == old(AsFifo().Stored())
      ensures res.Moved? ==>
                && |old(AsFifo().Stored())| < buffersize - 1
                && AsFifo() == old(AsFifo()).Write(data).0
                && res.bytes == data[..old(AsFifo()).Write(data).1]
    {
      ghost var before := AsFifo();
      var space := Space();
      if space == 0 {
        return Failed(EAGAIN);
      }
      var k := Min(|data|, space);
      if wp >= rp {
        k := Min(k, buffersize - wp);
      } else {
        k := Min(k, rp - wp - 1);
      }
      assert k == Min(|data|, Writable(buffersize, rp, wp)) by {
        assert k == WriteCount(buffersize, rp, wp, |data|);
      }
      if !copies {
        var some := junk[..Min(k, |junk|)];
        CopyIn(wp, some);
        Produce(before.cells, rp, wp, some);
        return Failed(EFAULT);
      }
      CopyIn(wp, data[..k]);
      wp := wp + k;
      if wp == buffersize {
        wp := 0;
      }
      assert AsFifo() == before.Write(data).0;
      res := Moved(data[..k]);
    }

    method CopyIn(at: nat, data: seq<byte>)
      requires Valid() && buffer != null && at + |data| <= buffersize
      modifies buffer
      ensures buffer[..buffersize] == Splice(old(buffer[..buffersize]), at, data)
    {
      forall i | 0 <= i < |data| {
        buffer[at + i] := data[i];
      }
    }

    method Space() returns (space: nat)
      requires Valid() && buffer != null
      ensures space == SpaceFree(buffersize, rp, wp) == buffersize - 1 - |AsFifo().Stored()|
    {
      SpaceFreeIsExact(buffersize, rp, wp);
      if rp == wp {
        return buffersize - 1;
      }
      space := (rp + buffersize - wp) % buffersize - 1;
    }

    /** Readiness is exact, and a buffer of two bytes or more is always ready in some direction. */
    method Poll() returns (readable: bool, writable: bool)
      requires Valid() && buffer != null
      ensures readable <==> AsFifo().Stored() != []
      ensures writable <==> |AsFifo().Stored()| < buffersize - 1
      ensures readable || writable <==> buffersize >= 2
    {
      readable := rp != wp;
      var space := Space();
      writable := space != 0;
    }
  }
}
