/**
 What a scull device is meant to be: a flat file with holes.  `bytes` has every byte written since
 the last trim, `blocks` the numbers of the blocks that exist; a byte of an existing block that was
 never written is unspecified, and so is not in `bytes`.
 */
module SparseFile {
  import opened Ring
  import opened Geometry

  /** `m` with `data` written over it from `pos` on. */
  function Overlay(m: map<nat, byte>, pos: nat, data: seq<byte>): map<nat, byte>
    decreases |data|
  {
    if data == [] then m else Overlay(m[pos := data[0]], pos + 1, data[1..])
  }

  /** `m` without the `k` positions from `pos` on. */
  function Erase(m: map<nat, byte>, pos: nat, k: nat): map<nat, byte> {
    if k == 0 then m else Erase(m - {pos + k - 1}, pos, k - 1)
  }

  lemma {:induction false} OverlayAt(m: map<nat, byte>, pos: nat, data: seq<byte>, p: nat)
    ensures p in Overlay(m, pos, data) <==> p in m || pos <= p < pos + |data|
    ensures p in Overlay(m, pos, data) ==>
              Overlay(m, pos, data)[p] == if pos <= p < pos + |data| then data[p - pos] else m[p]
    decreases |data|
  {
    if data != [] {
      OverlayAt(m[pos := data[0]], pos + 1, data[1..], p);
    }
  }

  lemma {:induction false} EraseAt(m: map<nat, byte>, pos: nat, k: nat, p: nat)
    ensures p in Erase(m, pos, k) <==> p in m && !(pos <= p < pos + k)
    ensures p in Erase(m, pos, k) ==> Erase(m, pos, k)[p] == m[p]
  {
    if k != 0 {
      EraseAt(m - {pos + k - 1}, pos, k - 1, p);
    }
  }

  lemma {:induction false} OverlayOverlay(m: map<nat, byte>, pos: nat, a: seq<byte>, b: seq<byte>)
    ensures Overlay(Overlay(m, pos, a), pos + |a|, b) == Overlay(m, pos, a + b)
    decreases |a|
  {
    if a == [] {
      assert a + b == b;
    } else {
      OverlayOverlay(m[pos := a[0]], pos + 1, a[1..], b);
      assert (a + b)[1..] == a[1..] + b;
    }
  }

  datatype File = File(quantum: nat, qset: nat, size: nat, blocks: set<nat>, bytes: map<nat, byte>) {

    ghost predicate Valid() {
      && 0 < quantum && 0 < qset
      && forall p :: p in bytes ==> p < size && Block(quantum, p) in blocks
    }

    /** How much of a request one call serves: up to the end of the block. */
    function Share(pos: nat, count: nat): (k: nat)
      requires 0 < quantum
      ensures k <= count && (0 < count ==> 0 < k)
    {
      Min(count, Room(quantum, pos))
    }

    /** A write call that succeeds. */
    function Write(pos: nat, data: seq<byte>): File
      requires 0 < quantum
    {
      var k := Share(pos, |data|);
      File(quantum, qset, if size < pos + k then pos + k else size, blocks + {Block(quantum, pos)},
           Overlay(bytes, pos, data[..k]))
    }

    /** A write call whose copy faults half-way: what it was to overwrite becomes unspecified. */
    function Garble(pos: nat, count: nat): File
      requires 0 < quantum
    {
      var k := Share(pos, count);
      this.(blocks := blocks + {Block(quantum, pos)}, bytes := Erase(bytes, pos, k))
    }

    function Trim(newQuantum: nat, newQset: nat): File {
      File(newQuantum, newQset, 0, {}, map[])
    }

    /** How many bytes a read call returns: none past the end or in a hole, else up to the end of the block. */
    function ReadCount(pos: nat, count: nat): (k: nat)
      requires 0 < quantum
      ensures pos + k <= size || k == 0
    {
      if pos >= size || Block(quantum, pos) !in blocks then 0 else Share(pos, Min(count, size - pos))
    }

    /**
     Is `k` what a read call for `count` bytes should return?  Nothing exactly at the end of the file or in a
     hole; else it stays inside the file and the block and stops short only at the end of one of them.
     */
    ghost predicate ReadStops(pos: nat, count: nat, k: nat)
      requires 0 < quantum
    {
      && k <= count
      && (0 < count ==> (k == 0 <==> size <= pos || Block(quantum, pos) !in blocks))
      && (0 < k ==>
            && pos + k <= size && Block(quantum, pos + k - 1) == Block(quantum, pos)
            && (k == count || pos + k == size || Block(quantum, pos + k) != Block(quantum, pos)))
    }

    /** Are `bytes` what is at `pos`, wherever something was written? */
    ghost predicate Agrees(pos: nat, bytes: seq<byte>) {
      forall p :: pos <= p < pos + |bytes| && p in this.bytes ==> bytes[p - pos] == this.bytes[p]
    }
  }

  /** The amount a read call computes is the one that stops there, and no other does. */
  lemma ReadStopsExactly(f: File, pos: nat, count: nat, k: nat)
    requires f.Valid()
    ensures f.ReadStops(pos, count, k) <==> k == f.ReadCount(pos, count)
  {
    var room := Room(f.quantum, pos);
    NextBlock(f.quantum, pos);
    if 0 < k {
      if k <= room {
        WithinBlock(f.quantum, pos, k - 1);
      } else {
        CountOffMonotone(f.quantum, pos + room, pos + k - 1);
      }
      if k < room {
        WithinBlock(f.quantum, pos, k);
      }
    }
  }

  /** A write call stops short only at the end of its block. */
  lemma WriteStops(f: File, pos: nat, count: nat)
    requires f.Valid()
    ensures var k := f.Share(pos, count);
            && k <= count && (0 < count ==> 0 < k && Block(f.quantum, pos + k - 1) == Block(f.quantum, pos))
            && (k == count || Block(f.quantum, pos + k) == Block(f.quantum, pos) + 1)
  {
    var k := f.Share(pos, count);
    NextBlock(f.quantum, pos);
    if 0 < k {
      WithinBlock(f.quantum, pos, k - 1);
    }
  }

  lemma WriteKeepsValid(f: File, pos: nat, data: seq<byte>)
    requires f.Valid()
    ensures f.Write(pos, data).Valid()
  {
    var g := f.Write(pos, data);
    forall p | p in g.bytes
      ensures p < g.size && Block(g.quantum, p) in g.blocks
    {
      OverlayAt(f.bytes, pos, data[..f.Share(pos, |data|)], p);
      if pos <= p < pos + f.Share(pos, |data|) {
        WithinBlock(f.quantum, pos, p - pos);
      }
    }
  }

  // ---------------------------------------------------------------- histories

  /** What happens to a device that can change what is stored in it. */
  datatype Event =
    | Wrote(pos: nat, data: seq<byte>)
    | Garbled(pos: nat, count: nat)
    | Trimmed(quantum: nat, qset: nat)

  function Apply(f: File, e: Event): File
    requires 0 < f.quantum
  {
    match e
    case Wrote(pos, data) => f.Write(pos, data)
    case Garbled(pos, count) => f.Garble(pos, count)
    case Trimmed(quantum, qset) => f.Trim(quantum, qset)
  }

  ghost predicate Sane(e: Event) {
    e.Trimmed? ==> 0 < e.quantum && 0 < e.qset
  }

  ghost predicate AllSane(h: seq<Event>) {
    forall i :: 0 <= i < |h| ==> Sane(h[i])
  }

  /** The device after a history that starts with an empty device of the given geometry. */
  function Replay(quantum: nat, qset: nat, h: seq<Event>): (f: File)
    requires 0 < quantum && 0 < qset && AllSane(h)
    ensures 0 < f.quantum && 0 < f.qset
  {
    if h == [] then File(quantum, qset, 0, {}, map[])
    else Apply(Replay(quantum, qset, h[..|h| - 1]), h[|h| - 1])
  }

  /** The geometry in force just before event `i`: that of the last trim. */
  function GeometryAt(quantum: nat, qset: nat, h: seq<Event>, i: nat): (g: (nat, nat))
    requires 0 < quantum && 0 < qset && AllSane(h) && i <= |h|
    ensures 0 < g.0 && 0 < g.1
  {
    if i == 0 then (quantum, qset)
    else if h[i - 1].Trimmed? then (h[i - 1].quantum, h[i - 1].qset)
    else GeometryAt(quantum, qset, h, i - 1)
  }

  function QuantumAt(quantum: nat, qset: nat, h: seq<Event>, i: nat): (q: nat)
    requires 0 < quantum && 0 < qset && AllSane(h) && i <= |h|
    ensures 0 < q
  {
    GeometryAt(quantum, qset, h, i).0
  }

  function End(q: nat, pos: nat, count: nat): nat
    requires 0 < q
  {
    pos + Min(count, Room(q, pos))
  }

  /** Does event `i` decide what is at position `p`? */
  ghost predicate Touches(quantum: nat, qset: nat, h: seq<Event>, i: nat, p: nat)
    requires 0 < quantum && 0 < qset && AllSane(h) && i < |h|
  {
    var q := QuantumAt(quantum, qset, h, i);
    match h[i]
    case Wrote(pos, data) => pos <= p < End(q, pos, |data|)
    case Garbled(pos, count) => pos <= p < End(q, pos, count)
    case Trimmed(_, _) => true
  }

  /** Event `i` is the last one to touch `p`, and it wrote `v` there. */
  ghost predicate LastWrite(quantum: nat, qset: nat, h: seq<Event>, i: nat, p: nat, v: byte)
    requires 0 < quantum && 0 < qset && AllSane(h)
  {
    && i < |h| && h[i].Wrote? && Touches(quantum, qset, h, i, p) && h[i].data[p - h[i].pos] == v
    && forall j :: i < j < |h| ==> !Touches(quantum, qset, h, j, p)
  }

  lemma {:induction false} GeometryOfPrefix(quantum: nat, qset: nat, h: seq<Event>, n: nat, i: nat)
    requires 0 < quantum && 0 < qset && AllSane(h) && i <= n <= |h|
    ensures GeometryAt(quantum, qset, h[..n], i) == GeometryAt(quantum, qset, h, i)
  {
    if i > 0 && !h[i - 1].Trimmed? {
      GeometryOfPrefix(quantum, qset, h, n, i - 1);
    }
  }

  /** The device has the geometry of its last trim. */
  lemma {:induction false} ReplayGeometry(quantum: nat, qset: nat, h: seq<Event>)
    requires 0 < quantum && 0 < qset && AllSane(h)
    ensures (Replay(quantum, qset, h).quantum, Replay(quantum, qset, h).qset) == GeometryAt(quantum, qset, h, |h|)
  {
    if h != [] && !h[|h| - 1].Trimmed? {
      ReplayGeometry(quantum, qset, h[..|h| - 1]);
      GeometryOfPrefix(quantum, qset, h, |h| - 1, |h| - 1);
    }
  }

  lemma TouchesInPrefix(quantum: nat, qset: nat, h: seq<Event>, n: nat, i: nat, p: nat)
    requires 0 < quantum && 0 < qset && AllSane(h) && i < n <= |h|
    ensures Touches(quantum, qset, h[..n], i, p) == Touches(quantum, qset, h, i, p)
  {
    GeometryOfPrefix(quantum, qset, h, n, i);
  }

  /** Dropping an event that does not touch `p` changes nothing about the last write there. */
  lemma LastWriteInPrefix(quantum: nat, qset: nat, h: seq<Event>, p: nat, v: byte)
    requires 0 < quantum && 0 < qset && AllSane(h) && h != [] && !Touches(quantum, qset, h, |h| - 1, p)
    ensures var before := h[..|h| - 1];
            (exists i: nat :: LastWrite(quantum, qset, before, i, p, v))
            <==> exists i: nat :: LastWrite(quantum, qset, h, i, p, v)
  {
    var before := h[..|h| - 1];
    forall i: nat | i < |h| - 1 ensures Touches(quantum, qset, before, i, p) == Touches(quantum, qset, h, i, p) {
      TouchesInPrefix(quantum, qset, h, |h| - 1, i, p);
    }
    if i: nat :| LastWrite(quantum, qset, before, i, p, v) {
      assert LastWrite(quantum, qset, h, i, p, v);
    }
    if i: nat :| LastWrite(quantum, qset, h, i, p, v) {
      assert LastWrite(quantum, qset, before, i, p, v);
    }
  }

  /** One event decides what is at the positions it touches and nothing else. */
  lemma ApplyTouches(quantum: nat, qset: nat, h: seq<Event>, p: nat)
    requires 0 < quantum && 0 < qset && AllSane(h) && h != []
    ensures var n := |h| - 1;
            var f, g := Replay(quantum, qset, h[..n]).bytes, Replay(quantum, qset, h).bytes;
            if !Touches(quantum, qset, h, n, p) then (p in g <==> p in f) && (p in f ==> g[p] == f[p])
            else if h[n].Wrote? then p in g && g[p] == h[n].data[p - h[n].pos]
            else p !in g
  {
    var n := |h| - 1;
    var f := Replay(quantum, qset, h[..n]);
    ReplayGeometry(quantum, qset, h[..n]);
    GeometryOfPrefix(quantum, qset, h, n, n);
    match h[n]
    case Wrote(pos, data) => OverlayAt(f.bytes, pos, data[..f.Share(pos, |data|)], p);
    case Garbled(pos, count) => EraseAt(f.bytes, pos, f.Share(pos, count), p);
    case Trimmed(_, _) =>
  }

  /** The file holds, at each position, exactly what the last event to touch it wrote there, if it wrote. */
  lemma {:induction false} LastWriteWins(quantum: nat, qset: nat, h: seq<Event>, p: nat, v: byte)
    requires 0 < quantum && 0 < qset && AllSane(h)
    ensures (p in Replay(quantum, qset, h).bytes && Replay(quantum, qset, h).bytes[p] == v)
            <==> exists i: nat :: LastWrite(quantum, qset, h, i, p, v)
  {
    if h != [] {
      var n := |h| - 1;
      ApplyTouches(quantum, qset, h, p);
      if !Touches(quantum, qset, h, n, p) {
        LastWriteWins(quantum, qset, h[..n], p, v);
        LastWriteInPrefix(quantum, qset, h, p, v);
      } else {
        assert forall i: nat :: LastWrite(quantum, qset, h, i, p, v) ==> i == n;
        assert LastWrite(quantum, qset, h, n, p, v) <==> h[n].Wrote? && h[n].data[p - h[n].pos] == v;
      }
    }
  }

  /** Event `i` is a write no trim has undone. */
  ghost predicate Live(h: seq<Event>, i: nat) {
    i < |h| && h[i].Wrote? && forall j :: i < j < |h| ==> !h[j].Trimmed?
  }

  /** Where the write of event `i` ended. */
  function EndOf(quantum: nat, qset: nat, h: seq<Event>, i: nat): nat
    requires 0 < quantum && 0 < qset && AllSane(h) && i < |h| && h[i].Wrote?
  {
    End(QuantumAt(quantum, qset, h, i), h[i].pos, |h[i].data|)
  }

  /** One event moves the size to where its write ended if that is further, or back to nothing. */
  lemma ApplySize(quantum: nat, qset: nat, h: seq<Event>)
    requires 0 < quantum && 0 < qset && AllSane(h) && h != []
    ensures var n := |h| - 1;
            var was, size := Replay(quantum, qset, h[..n]).size, Replay(quantum, qset, h).size;
            match h[n]
            case Wrote(_, _) =>
              size == if was < EndOf(quantum, qset, h, n) then EndOf(quantum, qset, h, n) else was
            case Garbled(_, _) => size == was
            case Trimmed(_, _) => size == 0
  {
    var n := |h| - 1;
    ReplayGeometry(quantum, qset, h[..n]);
    GeometryOfPrefix(quantum, qset, h, n, n);
  }

  /** The live writes are those from before and the last event, if it is a write; none survive a trim. */
  lemma LiveInPrefix(quantum: nat, qset: nat, h: seq<Event>, i: nat)
    requires 0 < quantum && 0 < qset && AllSane(h) && i < |h| - 1
    ensures var before := h[..|h| - 1];
            && (Live(h, i) <==> Live(before, i) && !h[|h| - 1].Trimmed?)
            && (h[i].Wrote? ==> EndOf(quantum, qset, before, i) == EndOf(quantum, qset, h, i))
  {
    GeometryOfPrefix(quantum, qset, h, |h| - 1, i);
  }

  lemma {:induction false} SizeBoundsEnds(quantum: nat, qset: nat, h: seq<Event>, i: nat)
    requires 0 < quantum && 0 < qset && AllSane(h) && Live(h, i)
    ensures EndOf(quantum, qset, h, i) <= Replay(quantum, qset, h).size
    decreases |h|
  {
    ApplySize(quantum, qset, h);
    if i < |h| - 1 {
      LiveInPrefix(quantum, qset, h, i);
      SizeBoundsEnds(quantum, qset, h[..|h| - 1], i);
    }
  }

  lemma {:induction false} SizeIsReached(quantum: nat, qset: nat, h: seq<Event>) returns (i: nat)
    requires 0 < quantum && 0 < qset && AllSane(h) && Replay(quantum, qset, h).size != 0
    ensures Live(h, i) && EndOf(quantum, qset, h, i) == Replay(quantum, qset, h).size
    decreases |h|
  {
    var n := |h| - 1;
    ApplySize(quantum, qset, h);
    if Replay(quantum, qset, h).size == Replay(quantum, qset, h[..n]).size {
      i := SizeIsReached(quantum, qset, h[..n]);
      LiveInPrefix(quantum, qset, h, i);
    } else {
      i := n;
    }
  }

  /** Size is the largest end position any write reached since the last trim. */
  lemma SizeIsLargestEnd(quantum: nat, qset: nat, h: seq<Event>)
    requires 0 < quantum && 0 < qset && AllSane(h)
    ensures forall i: nat :: Live(h, i) ==> EndOf(quantum, qset, h, i) <= Replay(quantum, qset, h).size
    ensures Replay(quantum, qset, h).size != 0 ==>
              exists i: nat :: Live(h, i) && EndOf(quantum, qset, h, i) == Replay(quantum, qset, h).size
  {
    forall i: nat | Live(h, i) ensures EndOf(quantum, qset, h, i) <= Replay(quantum, qset, h).size {
      SizeBoundsEnds(quantum, qset, h, i);
    }
    if Replay(quantum, qset, h).size != 0 {
      var i := SizeIsReached(quantum, qset, h);
    }
  }

  /** Event `i` is a write, faulty or not, that needed block `b`, and no trim has followed. */
  ghost predicate Needed(quantum: nat, qset: nat, h: seq<Event>, i: nat, b: nat)
    requires 0 < quantum && 0 < qset && AllSane(h)
  {
    && i < |h| && !h[i].Trimmed? && Block(QuantumAt(quantum, qset, h, i), h[i].pos) == b
    && forall j :: i < j < |h| ==> !h[j].Trimmed?
  }

  lemma NeededInPrefix(quantum: nat, qset: nat, h: seq<Event>, i: nat, b: nat)
    requires 0 < quantum && 0 < qset && AllSane(h) && h != [] && i < |h| - 1
    ensures Needed(quantum, qset, h, i, b) <==>
              Needed(quantum, qset, h[..|h| - 1], i, b) && !h[|h| - 1].Trimmed?
  {
    GeometryOfPrefix(quantum, qset, h, |h| - 1, i);
  }

  /** The blocks that exist, and so are not holes, are those that some write since the last trim needed. */
  lemma {:induction false} BlocksAreNeeded(quantum: nat, qset: nat, h: seq<Event>, b: nat)
    requires 0 < quantum && 0 < qset && AllSane(h)
    ensures b in Replay(quantum, qset, h).blocks <==> exists i: nat :: Needed(quantum, qset, h, i, b)
  {
    if h != [] {
      var n := |h| - 1;
      var before := h[..n];
      BlocksAreNeeded(quantum, qset, before, b);
      ReplayGeometry(quantum, qset, before);
      GeometryOfPrefix(quantum, qset, h, n, n);
      forall i: nat | i < n
        ensures Needed(quantum, qset, h, i, b) <==> Needed(quantum, qset, before, i, b) && !h[n].Trimmed?
      {
        NeededInPrefix(quantum, qset, h, i, b);
      }
      if i: nat :| Needed(quantum, qset, before, i, b) && !h[n].Trimmed? {
        assert Needed(quantum, qset, h, i, b);
      }
      assert Needed(quantum, qset, h, n, b) <==>
          !h[n].Trimmed? && Block(Replay(quantum, qset, before).quantum, h[n].pos) == b;
    }
  }

  // ---------------------------------------------------------------- whole transfers

  /** Write calls repeated until all of `data` is accepted: the resulting file, and how many calls it took. */
  function WriteAll(f: File, pos: nat, data: seq<byte>): (File, nat)
    requires 0 < f.quantum
    decreases |data|
  {
    if data == [] then (f, 0)
    else
      var k := f.Share(pos, |data|);
      var (g, calls) := WriteAll(f.Write(pos, data), pos + k, data[k..]);
      (g, calls + 1)
  }

  /** Every position of the range has been written. */
  ghost predicate Written(f: File, pos: nat, count: nat)
    decreases count
  {
    count == 0 || (pos in f.bytes && Written(f, pos + 1, count - 1))
  }

  /** The bytes of a range that has been written. */
  ghost function BytesAt(f: File, pos: nat, count: nat): (s: seq<byte>)
    requires Written(f, pos, count)
    ensures |s| == count
    decreases count
  {
    if count == 0 then [] else [f.bytes[pos]] + BytesAt(f, pos + 1, count - 1)
  }

  lemma {:induction false} WrittenParts(f: File, pos: nat, count: nat, k: nat)
    requires Written(f, pos, count) && k <= count
    ensures Written(f, pos, k) && Written(f, pos + k, count - k)
    decreases k
  {
    if k > 0 {
      WrittenParts(f, pos + 1, count - 1, k - 1);
    }
  }

  lemma {:induction false} BytesParts(f: File, pos: nat, count: nat, k: nat)
    requires k <= count && Written(f, pos, count) && Written(f, pos, k) && Written(f, pos + k, count - k)
    ensures BytesAt(f, pos, k) + BytesAt(f, pos + k, count - k) == BytesAt(f, pos, count)
    decreases k
  {
    var tail := BytesAt(f, pos + k, count - k);
    if k > 0 {
      BytesParts(f, pos + 1, count - 1, k - 1);
      Regroup([f.bytes[pos]], BytesAt(f, pos + 1, k - 1), tail);
    } else {
      assert BytesAt(f, pos, 0) + tail == tail;
    }
  }

  /** Read calls repeated until `count` bytes have come, or none do: the bytes, and how many calls it took. */
  ghost function ReadAll(f: File, pos: nat, count: nat): (seq<byte>, nat)
    requires f.Valid() && Written(f, pos, count)
    decreases count
  {
    var k := f.ReadCount(pos, count);
    if count == 0 || k == 0 then ([], 0)
    else
      WrittenParts(f, pos, count, k);
      var rest := ReadAll(f, pos + k, count - k);
      (BytesAt(f, pos, k) + rest.0, rest.1 + 1)
  }

  /** One call for every block the range meets. */
  function Calls(quantum: nat, pos: nat, count: nat): int
    requires 0 < quantum && 0 < count
  {
    Block(quantum, pos + count - 1) - Block(quantum, pos) + 1
  }

  lemma CallsByDivision(quantum: nat, pos: nat, count: nat)
    requires 0 < quantum && 0 < count
    ensures Calls(quantum, pos, count) == (pos + count - 1) / quantum - pos / quantum + 1
  {
    CountOffIsDivision(quantum, pos + count - 1);
    CountOffIsDivision(quantum, pos);
  }

  /** The range after the first call meets one block less, or nothing is left. */
  lemma OneCallLess(quantum: nat, pos: nat, count: nat)
    requires 0 < quantum && 0 < count
    ensures var k := Min(count, Room(quantum, pos));
            if k == count then Calls(quantum, pos, count) == 1
            else Calls(quantum, pos, count) == Calls(quantum, pos + k, count - k) + 1
  {
    var k := Min(count, Room(quantum, pos));
    if k == count {
      WithinBlock(quantum, pos, count - 1);
    } else {
      NextBlock(quantum, pos);
    }
  }

  lemma {:induction false} WriteAllValid(f: File, pos: nat, data: seq<byte>)
    requires f.Valid()
    ensures WriteAll(f, pos, data).0.Valid()
    decreases |data|
  {
    if data != [] {
      var k, g := f.Share(pos, |data|), f.Write(pos, data);
      assert WriteAll(f, pos, data).0 == WriteAll(g, pos + k, data[k..]).0;
      WriteKeepsValid(f, pos, data);
      WriteAllValid(g, pos + k, data[k..]);
    }
  }

  /** Writing everything changes exactly the range written. */
  lemma {:induction false} WriteAllWrites(f: File, pos: nat, data: seq<byte>)
    requires 0 < f.quantum
    ensures WriteAll(f, pos, data).0.bytes == Overlay(f.bytes, pos, data)
    decreases |data|
  {
    if data != [] {
      var k := f.Share(pos, |data|);
      WriteAllWrites(f.Write(pos, data), pos + k, data[k..]);
      OverlayOverlay(f.bytes, pos, data[..k], data[k..]);
      SplitAt(data, k);
    }
  }

  /** It takes one call per block met, and the size grows to the end of the range, never shrinks. */
  lemma {:induction false} WriteAllCalls(f: File, pos: nat, data: seq<byte>)
    requires 0 < f.quantum && data != []
    ensures var (g, calls) := WriteAll(f, pos, data);
            && g.quantum == f.quantum && g.qset == f.qset
            && g.size == (if f.size < pos + |data| then pos + |data| else f.size)
            && calls == Calls(f.quantum, pos, |data|)
    decreases |data|
  {
    var k := f.Share(pos, |data|);
    OneCallLess(f.quantum, pos, |data|);
    if k < |data| {
      WriteAllCalls(f.Write(pos, data), pos + k, data[k..]);
    }
  }

  /** A read inside a fully written range is cut short only by the end of the block. */
  lemma ReadServesShare(f: File, pos: nat, count: nat)
    requires f.Valid() && 0 < count && Written(f, pos, count)
    ensures f.ReadCount(pos, count) == f.Share(pos, count)
  {
    WrittenParts(f, pos, count, count - 1);
  }

  /** Reading a fully written range returns it, with one call per block met. */
  lemma {:induction false} ReadAllReads(f: File, pos: nat, count: nat)
    requires f.Valid() && Written(f, pos, count)
    ensures ReadAll(f, pos, count).0 == BytesAt(f, pos, count)
    ensures 0 < count ==> ReadAll(f, pos, count).1 == Calls(f.quantum, pos, count)
    decreases count
  {
    if count > 0 {
      var k := f.Share(pos, count);
      ReadServesShare(f, pos, count);
      WrittenParts(f, pos, count, k);
      BytesParts(f, pos, count, k);
      ReadAllReads(f, pos + k, count - k);
      OneCallLess(f.quantum, pos, count);
    }
  }

  lemma {:induction false} OverlayWritten(f: File, m: map<nat, byte>, pos: nat, data: seq<byte>, i: nat)
    requires f.bytes == Overlay(m, pos, data) && i <= |data|
    ensures Written(f, pos + i, |data| - i) && BytesAt(f, pos + i, |data| - i) == data[i..]
    decreases |data| - i
  {
    if i < |data| {
      OverlayAt(m, pos, data, pos + i);
      OverlayWritten(f, m, pos, data, i + 1);
      assert data[i..] == [data[i]] + data[i + 1..];
    }
  }

  /**
   Writing and reading back returns the same bytes, each way in exactly one call per block met; see
   `CallsByDivision` for the number.
   */
  lemma RoundTrip(f: File, pos: nat, data: seq<byte>)
    requires f.Valid() && data != []
    ensures var (g, writes) := WriteAll(f, pos, data);
            && g.Valid() && Written(g, pos, |data|)
            && ReadAll(g, pos, |data|) == (data, writes)
            && writes == Calls(f.quantum, pos, |data|)
  {
    WriteAllValid(f, pos, data);
    WriteAllCalls(f, pos, data);
    WriteAllWrites(f, pos, data);
    ReadsBack(WriteAll(f, pos, data).0, f.bytes, pos, data);
  }

  lemma ReadsBack(g: File, m: map<nat, byte>, pos: nat, data: seq<byte>)
    requires g.Valid() && data != [] && g.bytes == Overlay(m, pos, data)
    ensures Written(g, pos, |data|) && ReadAll(g, pos, |data|) == (data, Calls(g.quantum, pos, |data|))
  {
    OverlayWritten(g, m, pos, data, 0);
    assert data[0..] == data;
    ReadAllReads(g, pos, |data|);
  }
}
