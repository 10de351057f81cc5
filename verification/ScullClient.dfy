/**
 What a program does with the calls of a scull device: write until everything is accepted, read until
 enough has come.  The transfers of `SparseFile` are those of the device on the heap.
 */
module ScullClient {
  import opened Ring
  import opened Geometry
  import opened SparseFile
  import opened ScullDevice

  // ---------------------------------------------------------------- writing everything

  /** How a client got on: whether all was done, how many bytes that were, and in how many calls. */
  datatype Course = Course(ok: bool, n: nat, calls: nat) {
    function After(k: nat): Course {
      Course(ok, k + n, calls + 1)
    }
  }

  /** Call after call, each for what is left, until nothing is or one fails. */
  ghost predicate Stored(f: File, pos: nat, data: seq<byte>, c: Course, g: File)
    requires 0 < f.quantum
    decreases |data|
  {
    if data == [] || c.calls == 0 then
      c == Course(data == [], 0, 0) && g == f
    else
      var k := f.Share(pos, |data|);
      k <= c.n && Stored(f.Write(pos, data), pos + k, data[k..], Course(c.ok, c.n - k, c.calls - 1), g)
  }

  lemma OneStoreMore(f: File, pos: nat, data: seq<byte>, k: nat, h: File, c: Course, g: File)
    requires 0 < f.quantum && data != [] && k == f.Share(pos, |data|) && h == f.Write(pos, data)
    requires Stored(h, pos + k, data[k..], c, g)
    ensures Stored(f, pos, data, c.After(k), g)
  {
  }

  /** Exactly the accepted bytes are written, and accepting all takes one call per block met. */
  lemma {:induction false} StoredBytes(f: File, pos: nat, data: seq<byte>, c: Course, g: File)
    requires 0 < f.quantum && Stored(f, pos, data, c, g)
    ensures c.n <= |data| && g.bytes == Overlay(f.bytes, pos, data[..c.n])
    ensures c.ok <==> c.n == |data|
    ensures c.ok ==> (g, c.calls) == WriteAll(f, pos, data)
    decreases |data|
  {
    if data != [] && c.calls != 0 {
      var k := f.Share(pos, |data|);
      StoredBytes(f.Write(pos, data), pos + k, data[k..], Course(c.ok, c.n - k, c.calls - 1), g);
      OverlayOverlay(f.bytes, pos, data[..k], data[k..][..c.n - k]);
      assert data[k..][..c.n - k] == data[k..c.n];
      assert data[..k] + data[k..c.n] == data[..c.n];
    }
  }

  /** One write call that does not fault. */
  method Store(d: Device, pos: nat, data: seq<byte>) returns (ok: bool, k: nat)
    requires d.Valid()
    modifies d, d.slab, d.Repr
    ensures d.Valid() && fresh(d.Repr - old(d.Repr)) && old(d.Repr) <= d.Repr
    ensures d.slab.refused == old(d.slab.refused) + (if ok then 0 else 1)
    ensures d.file == if ok then old(d.file).Write(pos, data) else old(d.file)
    ensures 0 < old(d.file).quantum && k == if ok then old(d.file).Share(pos, |data|) else 0
  {
    var r := d.Write(pos, data, true);
    ok, k := r.Accepted?, if r.Accepted? then r.n else 0;
  }

  /** Write until all is accepted or memory runs out. */
  method StoreAll(d: Device, pos: nat, data: seq<byte>) returns (c: Course)
    requires d.Valid()
    modifies d, d.slab, d.Repr
    ensures d.Valid() && fresh(d.Repr - old(d.Repr)) && old(d.Repr) <= d.Repr
    ensures d.slab.refused == old(d.slab.refused) + (if c.ok then 0 else 1)
    ensures 0 < old(d.file).quantum && Stored(old(d.file), pos, data, c, d.file)
    decreases |data|
  {
    if data == [] {
      return Course(true, 0, 0);
    }
    ghost var f := d.file;
    var ok, k := Store(d, pos, data);
    if !ok {
      return Course(false, 0, 0);
    }
    ghost var h := d.file;
    c := StoreAll(d, pos + k, data[k..]);
    OneStoreMore(f, pos, data, k, h, c, d.file);
    c := c.After(k);
  }

  // ---------------------------------------------------------------- reading everything

  /** Call after call, each for what is left, until nothing is or one returns nothing. */
  ghost predicate Fetched(f: File, pos: nat, count: nat, bytes: seq<byte>, calls: nat)
    requires 0 < f.quantum
    decreases count
  {
    var k := f.ReadCount(pos, count);
    if count == 0 || k == 0 then bytes == [] && calls == 0
    else
      && k <= |bytes| && 0 < calls && f.Agrees(pos, bytes[..k])
      && Fetched(f, pos + k, count - k, bytes[k..], calls - 1)
  }

  lemma OneFetchMore(f: File, pos: nat, count: nat, first: seq<byte>, rest: seq<byte>, calls: nat)
    requires 0 < f.quantum && 0 < count && |first| == f.ReadCount(pos, count) > 0 && f.Agrees(pos, first)
    requires Fetched(f, pos + |first|, count - |first|, rest, calls)
    ensures Fetched(f, pos, count, first + rest, calls + 1)
  {
    assert (first + rest)[..|first|] == first && (first + rest)[|first|..] == rest;
  }

  lemma AgreesJoins(f: File, pos: nat, bytes: seq<byte>, k: nat)
    requires k <= |bytes| && f.Agrees(pos, bytes[..k]) && f.Agrees(pos + k, bytes[k..])
    ensures f.Agrees(pos, bytes)
  {
    forall p | pos <= p < pos + |bytes| && p in f.bytes ensures bytes[p - pos] == f.bytes[p] {
      assert p < pos + k ==> bytes[..k][p - pos] == f.bytes[p];
      assert p >= pos + k ==> bytes[k..][p - pos - k] == f.bytes[p];
    }
  }

  /** What comes is what the file holds, until a hole or the end. */
  lemma {:induction false} FetchedAgrees(f: File, pos: nat, count: nat, bytes: seq<byte>, calls: nat)
    requires f.Valid() && Fetched(f, pos, count, bytes, calls)
    ensures |bytes| <= count && f.Agrees(pos, bytes)
    ensures |bytes| < count ==> f.size <= pos + |bytes| || Block(f.quantum, pos + |bytes|) !in f.blocks
    decreases count
  {
    var k := f.ReadCount(pos, count);
    if count != 0 && k != 0 {
      FetchedAgrees(f, pos + k, count - k, bytes[k..], calls - 1);
      AgreesJoins(f, pos, bytes, k);
    } else if count != 0 {
      ReadStopsExactly(f, pos, count, 0);
    }
  }

  lemma {:induction false} FetchedCalls(f: File, pos: nat, count: nat, bytes: seq<byte>, calls: nat)
    requires f.Valid() && Fetched(f, pos, count, bytes, calls) && Written(f, pos, count) && count != 0
    ensures |bytes| == count && calls == Calls(f.quantum, pos, count)
    decreases count
  {
    var k := f.Share(pos, count);
    ReadServesShare(f, pos, count);
    WrittenParts(f, pos, count, k);
    OneCallLess(f.quantum, pos, count);
    if k < count {
      FetchedCalls(f, pos + k, count - k, bytes[k..], calls - 1);
    }
  }

  /** What has been written comes as in `ReadAll`. */
  lemma FetchedAll(f: File, pos: nat, count: nat, bytes: seq<byte>, calls: nat)
    requires f.Valid() && Fetched(f, pos, count, bytes, calls) && Written(f, pos, count)
    ensures (bytes, calls) == ReadAll(f, pos, count)
  {
    if count != 0 {
      FetchedCalls(f, pos, count, bytes, calls);
    }
    FetchedAgrees(f, pos, count, bytes, calls);
    AgreesIsBytes(f, pos, bytes);
    ReadAllReads(f, pos, count);
  }

  lemma {:induction false} AgreesIsBytes(f: File, pos: nat, bytes: seq<byte>)
    requires Written(f, pos, |bytes|) && f.Agrees(pos, bytes)
    ensures bytes == BytesAt(f, pos, |bytes|)
    decreases |bytes|
  {
    if bytes != [] {
      AgreesIsBytes(f, pos + 1, bytes[1..]);
    }
  }

  /** One read call that does not fault, on a device that holds the file `f`. */
  method Fetch(d: Device, pos: nat, count: nat, ghost f: File) returns (bytes: seq<byte>)
    requires d.Valid() && d.file == f
    modifies d, d.slab, d.Repr
    ensures d.Valid() && d.file == f && d.Repr == old(d.Repr) && d.slab.refused == old(d.slab.refused)
    ensures 0 < f.quantum && |bytes| == f.ReadCount(pos, count) && f.Agrees(pos, bytes)
  {
    var r := d.Read(pos, count, true);
    bytes := r.bytes;
  }

  /** Read until `count` bytes have come or a call returns none. */
  method FetchAll(d: Device, pos: nat, count: nat, ghost f: File) returns (bytes: seq<byte>, calls: nat)
    requires d.Valid() && d.file == f
    modifies d, d.slab, d.Repr
    ensures d.Valid() && d.file == f && d.Repr == old(d.Repr) && d.slab.refused == old(d.slab.refused)
    ensures 0 < f.quantum && Fetched(f, pos, count, bytes, calls)
    decreases count
  {
    if count == 0 {
      return [], 0;
    }
    var first := Fetch(d, pos, count, f);
    if first == [] {
      return [], 0;
    }
    bytes, calls := FetchAll(d, pos + |first|, count - |first|, f);
    OneFetchMore(f, pos, count, first, bytes, calls);
    bytes, calls := first + bytes, calls + 1;
  }

  // ---------------------------------------------------------------- both

  lemma WrittenComesBack(g: File, m: map<nat, byte>, pos: nat, chunk: seq<byte>, bytes: seq<byte>, calls: nat)
    requires g.Valid() && g.bytes == Overlay(m, pos, chunk) && Fetched(g, pos, |chunk|, bytes, calls)
    ensures bytes == chunk && (chunk != [] ==> calls == Calls(g.quantum, pos, |chunk|))
  {
    if chunk != [] {
      ReadsBack(g, m, pos, chunk);
      FetchedAll(g, pos, |chunk|, bytes, calls);
    }
  }

  lemma StoredComesBack(f: File, pos: nat, data: seq<byte>, c: Course, g: File, bytes: seq<byte>, calls: nat)
    requires f.Valid() && g.Valid() && Stored(f, pos, data, c, g)
    requires Fetched(g, pos, c.n, bytes, calls)
    ensures c.n <= |data| && bytes == data[..c.n]
    ensures c.ok && data != [] ==> c.calls == calls == Calls(f.quantum, pos, |data|)
  {
    StoredBytes(f, pos, data, c, g);
    WrittenComesBack(g, f.bytes, pos, data[..c.n], bytes, calls);
    if c.ok && data != [] {
      WriteAllCalls(f, pos, data);
    }
  }

  /** What has been accepted comes back, and if that is everything, in as many calls each way as there are blocks. */
  method StoreAndFetch(d: Device, pos: nat, data: seq<byte>) returns (c: Course, bytes: seq<byte>, calls: nat)
    requires d.Valid()
    modifies d, d.slab, d.Repr
    ensures d.Valid() && c.n <= |data| && bytes == data[..c.n]
    ensures c.ok <==> c.n == |data|
    ensures d.slab.refused == old(d.slab.refused) + (if c.ok then 0 else 1)
    ensures c.ok && data != [] ==> c.calls == calls == Calls(old(d.file).quantum, pos, |data|)
  {
    ghost var f := d.file;
    c := StoreAll(d, pos, data);
    ghost var g := d.file;
    StoredBytes(f, pos, data, c, g);
    bytes, calls := FetchAll(d, pos, c.n, g);
    StoredComesBack(f, pos, data, c, g, bytes, calls);
  }
}
