/**
 The scull device as it sits in memory: a list of items, each with an array of pointers to blocks
 ("quanta"), everything allocated on demand by an allocator that may fail at any time.
 Each operation is proved to do to the flat file of module SparseFile what it should.
 */
module ScullDevice {
  import opened Ring
  import opened Geometry
  import opened SparseFile

  type Quantum = array<byte>
  type Table = array<array?<byte>>

  /** A list item. */
  class QSet {
    var data: array?<array?<byte>>
    var next: QSet?

    constructor ()
      ensures data == null && next == null
    {
      data, next := null, null;
    }
  }

  /** The allocator; its history variables are the objects allocated and not yet freed, and how often it refused. */
  class Slab {
    ghost var items: set<QSet>
    ghost var tables: set<Table>
    ghost var quanta: set<Quantum>
    ghost var refused: nat

    constructor ()
      ensures items == {} && tables == {} && quanta == {} && refused == 0
    {
      items, tables, quanta, refused := {}, {}, {}, 0;
    }

    method KmallocItem() returns (item: QSet?)
      modifies this
      ensures item == null ==> items == old(items)
      ensures item != null ==> fresh(item) && item.data == null && item.next == null && items == old(items) + {item}
      ensures tables == old(tables) && quanta == old(quanta)
      ensures refused == old(refused) + (if item == null then 1 else 0)
    {
      if * {
        refused := refused + 1;
        return null;
      }
      item := new QSet();
      items := items + {item};
    }

    method KmallocTable(length: nat) returns (table: array?<array?<byte>>)
      modifies this
      ensures table == null ==> tables == old(tables)
      ensures table != null ==>
                && fresh(table) && table.Length == length && (forall j :: 0 <= j < length ==> table[j] == null)
                && tables == old(tables) + {table}
      ensures items == old(items) && quanta == old(quanta)
      ensures refused == old(refused) + (if table == null then 1 else 0)
    {
      if * {
        refused := refused + 1;
        return null;
      }
      table := new array?<byte>[length](_ => null);
      tables := tables + {table};
    }

    /** The contents of a fresh block are unspecified. */
    method KmallocQuantum(length: nat) returns (quantum: array?<byte>)
      modifies this
      ensures quantum == null ==> quanta == old(quanta)
      ensures quantum != null ==> fresh(quantum) && quantum.Length == length && quanta == old(quanta) + {quantum}
      ensures items == old(items) && tables == old(tables)
      ensures refused == old(refused) + (if quantum == null then 1 else 0)
    {
      if * {
        refused := refused + 1;
        return null;
      }
      quantum := new byte[length];
      quanta := quanta + {quantum};
    }

    method KfreeItem(item: QSet)
      requires item in items
      modifies this
      ensures items == old(items) - {item} && tables == old(tables) && quanta == old(quanta) && refused == old(refused)
    {
      items := items - {item};
    }

    method KfreeTable(table: Table)
      requires table in tables
      modifies this
      ensures tables == old(tables) - {table} && items == old(items) && quanta == old(quanta) && refused == old(refused)
    {
      tables := tables - {table};
    }

    /** Freeing a null pointer does nothing. */
    method KfreeQuantum(quantum: array?<byte>)
      requires quantum != null ==> quantum in quanta
      modifies this
      ensures quanta == (if quantum == null then old(quanta) else old(quanta) - {quantum})
      ensures items == old(items) && tables == old(tables) && refused == old(refused)
    {
      if quantum != null {
        quanta := quanta - {quantum};
      }
    }
  }

  datatype WriteResult = Accepted(n: nat) | NoMemory | BadAddress

  datatype ReadResult = Bytes(bytes: seq<byte>) | BadAddressRead

  class Device {
    var data: QSet?
    var quantum: nat
    var qset: nat
    var size: nat
    const slab: Slab

    // The shape of the structure, and the file it stands for.
    ghost var nodes: seq<QSet>
    ghost var arrs: map<nat, Table>
    ghost var blks: map<(nat, nat), Quantum>
    ghost var file: File
    ghost var Repr: set<object>

    ghost predicate LinkOk(i: nat)
      requires i < |nodes|
      reads this, Repr
    {
      nodes[i] in Repr && nodes[i].next == if i + 1 < |nodes| then nodes[i + 1] else null
    }

    /** The list runs through `nodes` and ends. */
    ghost predicate Linked()
      reads this, Repr
    {
      && data == (if nodes == [] then null else nodes[0])
      && (forall i :: 0 <= i < |nodes| ==> LinkOk(i))
      && (forall i, j :: 0 <= i < j < |nodes| ==> nodes[i] != nodes[j])
    }

    /** Each pointer array belongs to one item. */
    ghost predicate Tabled()
      reads this, Repr
    {
      && (forall i :: i in arrs ==> i < |nodes| && arrs[i] in Repr && arrs[i].Length == qset)
      && (forall i :: 0 <= i < |nodes| ==>
            nodes[i] in Repr && nodes[i].data == if i in arrs then arrs[i] else null)
      && (forall i, j :: i in arrs && j in arrs && i != j ==> arrs[i] != arrs[j])
    }

    /** The block in slot `j` of item `i`, if there is one. */
    ghost function Blk(i: nat, j: nat): array?<byte>
      reads this
    {
      if (i, j) in blks then blks[(i, j)] else null
    }

    ghost predicate SlotOk(i: nat, j: nat)
      reads this, Repr
    {
      i in arrs && arrs[i] in Repr && j < arrs[i].Length && arrs[i][j] == Blk(i, j)
    }

    /** Each block belongs to one slot. */
    ghost predicate Slotted()
      reads this, Repr
    {
      && (forall i: nat, j: nat :: i in arrs && j < qset ==> SlotOk(i, j))
      && (forall k :: k in blks ==> k.0 in arrs && k.1 < qset && blks[k] in Repr && blks[k].Length == quantum)
      && (forall k, l :: k in blks && l in blks && k != l ==> blks[k] != blks[l])
    }

    /** Everything owned is allocated. */
    ghost predicate Alive()
      reads this, slab
    {
      && (forall i :: 0 <= i < |nodes| ==> nodes[i] in slab.items)
      && (forall i :: i in arrs ==> arrs[i] in slab.tables)
      && (forall k :: k in blks ==> blks[k] in slab.quanta)
    }

    /** The byte at position `p` of the file is in its block. */
    ghost predicate Holds(p: nat, v: byte)
      requires 0 < quantum && 0 < qset
      reads this, Repr
    {
      var k := (Item(quantum, qset, p), Slot(quantum, qset, p));
      && k in blks && blks[k] in Repr && Offset(quantum, p) < blks[k].Length
      && blks[k][Offset(quantum, p)] == v
    }

    /** The blocks there are are those of the file. */
    ghost predicate Numbered(blocks: set<nat>)
      reads this
    {
      forall i: nat, j: nat :: j < qset ==> ((i, j) in blks <==> Number(qset, i, j) in blocks)
    }

    /** The list reaches up to `end`. */
    ghost predicate Reaches(end: nat)
      requires 0 < quantum && 0 < qset
      reads this
    {
      0 < end ==> Item(quantum, qset, end - 1) < |nodes|
    }

    ghost predicate HoldsAll(bytes: map<nat, byte>)
      requires 0 < quantum && 0 < qset
      reads this, Repr
    {
      forall p :: p in bytes ==> Holds(p, bytes[p])
    }

    ghost predicate Stored()
      requires 0 < quantum && 0 < qset
      reads this, Repr
    {
      && file.Valid() && file.quantum == quantum && file.qset == qset && file.size == size
      && Numbered(file.blocks) && HoldsAll(file.bytes) && Reaches(size)
    }

    ghost predicate Valid()
      reads this, slab, Repr
    {
      && slab !in Repr && this !in Repr && 0 < quantum && 0 < qset
      && Linked() && Tabled() && Slotted() && Alive() && Stored()
    }

    /** Nothing owned before has moved or gone. */
    twostate predicate Grown()
      reads this
    {
      && old(nodes) <= nodes
      && (forall i :: i in old(arrs) ==> i in arrs && arrs[i] == old(arrs)[i])
      && (forall k :: k in old(blks) ==> k in blks && blks[k] == old(blks)[k])
      && quantum == old(quantum) && qset == old(qset)
    }

    /** Everything allocated since is owned by this device, and nothing was freed. */
    twostate predicate NoLeak()
      reads this, slab
    {
      && slab.items == old(slab.items) + (set i | 0 <= i < |nodes| :: nodes[i])
      && slab.tables == old(slab.tables) + arrs.Values
      && slab.quanta == old(slab.quanta) + blks.Values
    }

    // Which change leaves which part of the invariant alone.

    twostate lemma LinkedGrown(new item: QSet)
      requires old(Linked()) && nodes == old(nodes) + [item] && old(Repr) <= Repr && item in Repr
      requires item !in old(Repr) && item.next == null
      requires data == nodes[0]
      requires old(nodes) != [] ==> nodes[|nodes| - 2].next == item
      requires forall i :: 0 <= i < |old(nodes)| - 1 ==> nodes[i].next == old(nodes[i].next)
      ensures Linked()
    {
      forall i | 0 <= i < |nodes| ensures LinkOk(i) && (i < |old(nodes)| ==> nodes[i] != item) {
        if i < |old(nodes)| {
          assert old(LinkOk(i));
        }
      }
    }

    twostate lemma LinkedKept()
      requires old(Linked()) && nodes == old(nodes) && old(Repr) <= Repr && data == old(data)
      requires forall i :: 0 <= i < |nodes| ==> nodes[i].next == old(nodes[i].next)
      ensures Linked()
    {
      forall i | 0 <= i < |nodes| ensures LinkOk(i) {
        assert old(LinkOk(i));
      }
    }

    twostate lemma TabledKept()
      requires old(Tabled()) && arrs == old(arrs) && qset == old(qset) && old(Repr) <= Repr && old(nodes) <= nodes
      requires forall i :: 0 <= i < |old(nodes)| ==> nodes[i].data == old(nodes[i].data)
      requires forall i :: |old(nodes)| <= i < |nodes| ==> nodes[i] in Repr && nodes[i].data == null
      ensures Tabled()
    {
    }

    twostate lemma SlottedKept()
      requires old(Slotted()) && arrs == old(arrs) && blks == old(blks) && quantum == old(quantum) && qset == old(qset)
      requires old(Repr) <= Repr
      requires forall i :: i in arrs ==> unchanged(arrs[i])
      ensures Slotted()
    {
      forall i: nat, j: nat | i in arrs && j < qset
        ensures SlotOk(i, j)
      {
        assert unchanged(arrs[i]);
        assert old(SlotOk(i, j));
      }
    }

    twostate lemma StoredKept()
      requires 0 < quantum && 0 < qset && old(0 < quantum && 0 < qset && Stored()) && file == old(file)
      requires blks == old(blks) && quantum == old(quantum) && qset == old(qset) && size == old(size)
      requires old(Repr) <= Repr && |old(nodes)| <= |nodes|
      requires forall k :: k in blks ==> unchanged(blks[k])
      ensures Stored()
    {
      forall p | p in file.bytes ensures Holds(p, file.bytes[p]) {
        assert old(Holds(p, file.bytes[p]));
      }
    }

    twostate lemma TabledGrown(new i: nat, new table: Table)
      requires old(Tabled()) && i < |nodes| && i !in old(arrs) && arrs == old(arrs)[i := table] && nodes == old(nodes)
      requires qset == old(qset) && old(Repr) <= Repr && table in Repr
      requires table !in old(Repr) && table.Length == qset
      requires nodes[i].data == table
      requires forall k :: 0 <= k < |nodes| && k != i ==> nodes[k].data == old(nodes[k].data)
      requires forall k, l :: 0 <= k < l < |nodes| ==> nodes[k] != nodes[l]
      ensures Tabled()
    {
    }

    twostate lemma SlottedWithTable(new i: nat, new table: Table)
      requires old(Slotted()) && i !in old(arrs) && arrs == old(arrs)[i := table] && blks == old(blks)
      requires quantum == old(quantum) && qset == old(qset) && old(Repr) <= Repr && table in Repr
      requires table.Length == qset && forall j :: 0 <= j < qset ==> table[j] == null
      requires forall k :: k in old(arrs) ==> unchanged(old(arrs)[k])
      ensures Slotted()
    {
      forall k: nat, j: nat | k in arrs && j < qset ensures SlotOk(k, j) {
        if k != i {
          assert old(SlotOk(k, j));
          assert unchanged(old(arrs)[k]);
        }
      }
    }

    twostate lemma SlottedGrown(new k: (nat, nat), new block: Quantum)
      requires old(Slotted()) && k.0 in arrs && k.1 < qset && k !in old(blks) && arrs == old(arrs)
      requires blks == old(blks)[k := block]
      requires quantum == old(quantum) && qset == old(qset) && old(Repr) <= Repr && block in Repr
      requires block !in old(Repr) && block.Length == quantum
      requires arrs[k.0] in Repr && arrs[k.0].Length == qset && arrs[k.0][k.1] == block
      requires forall i, j :: i in arrs && j in arrs && i != j ==> arrs[i] != arrs[j]
      requires forall j :: 0 <= j < qset && j != k.1 ==> arrs[k.0][j] == old(arrs[k.0][j])
      requires forall i :: i in arrs && i != k.0 ==> unchanged(arrs[i])
      ensures Slotted()
    {
      forall i: nat, j: nat | i in arrs && j < qset ensures SlotOk(i, j) {
        assert old(SlotOk(i, j));
        if i != k.0 {
          assert unchanged(arrs[i]);
        }
      }
    }

    twostate lemma StoredGrown(new k: (nat, nat), new block: Quantum)
      requires 0 < quantum && 0 < qset && old(0 < quantum && 0 < qset && Stored())
      requires quantum == old(quantum) && qset == old(qset) && size == old(size) && nodes == old(nodes)
      requires k.1 < qset && k !in old(blks) && blks == old(blks)[k := block] && old(Repr) <= Repr
      requires file == old(file).(blocks := old(file).blocks + {Number(qset, k.0, k.1)})
      requires forall l :: l in old(blks) ==> unchanged(old(blks)[l])
      ensures Stored()
    {
      forall p | p in file.bytes ensures Holds(p, file.bytes[p]) {
        assert old(Holds(p, file.bytes[p]));
      }
      forall i: nat, j: nat | j < qset
        ensures (i, j) in blks <==> Number(qset, i, j) in file.blocks
      {
        if Number(qset, i, j) == Number(qset, k.0, k.1) {
          NumberInjective(qset, i, j, k.0, k.1);
        }
      }
    }

    /** The slot a position belongs to. */
    ghost function Key(pos: nat): (nat, nat)
      requires 0 < quantum && 0 < qset
      reads this`quantum, this`qset
    {
      (Item(quantum, qset, pos), Slot(quantum, qset, pos))
    }

    /** Positions sharing a block differ by what their offsets differ by. */
    lemma KeyMeansBlock(p: nat, r: nat)
      requires 0 < quantum && 0 < qset
      ensures Key(p) == Key(r) <==> Block(quantum, p) == Block(quantum, r)
      ensures Key(p) == Key(r) ==> p - r == Offset(quantum, p) - Offset(quantum, r)
    {
      SamePlace(quantum, qset, p, r);
    }

    /** Block `k` has been overwritten with `chunk` at offset `at`, no other has changed. */
    twostate predicate Overwritten(k: (nat, nat), at: nat, chunk: seq<byte>)
      reads this, Repr
    {
      && blks == old(blks) && Repr == old(Repr) && quantum == old(quantum) && qset == old(qset)
      && k in blks && blks[k] in Repr && at + |chunk| <= blks[k].Length
      && blks[k][..] == Splice(old(blks[k][..]), at, chunk)
      && forall l :: l in blks && l != k ==> blks[l] in Repr && unchanged(blks[l])
    }

    /** What an overwrite does to each position. */
    twostate lemma HoldsAfter(new pos: nat, new k: (nat, nat), new at: nat, new chunk: seq<byte>, new p: nat, new v: byte)
      requires 0 < quantum && 0 < qset && old(0 < quantum && 0 < qset)
      requires Overwritten(k, at, chunk)
      requires k == Key(pos) && at == Offset(quantum, pos) && |chunk| <= Room(quantum, pos)
      requires if pos <= p < pos + |chunk| then v == chunk[p - pos] else old(Holds(p, v))
      ensures Holds(p, v)
    {
      KeyMeansBlock(p, pos);
      if pos <= p < pos + |chunk| {
        WithinBlock(quantum, pos, p - pos);
        assert blks[k][..][Offset(quantum, p)] == chunk[p - pos];
      } else if Key(p) == k {
        assert blks[k][..][Offset(quantum, p)] == old(blks[k][..])[Offset(quantum, p)];
      } else {
        assert unchanged(blks[Key(p)]);
      }
    }

    /** The end of a chunk is in an item that exists. */
    lemma EndIsInItem(pos: nat, count: nat)
      requires 0 < quantum && 0 < qset && count <= Room(quantum, pos) && 0 < pos + count
      ensures Item(quantum, qset, pos + count - 1) <= Item(quantum, qset, pos)
    {
      if count > 0 {
        WithinBlock(quantum, pos, count - 1);
      } else {
        ItemMonotone(quantum, qset, pos - 1, pos);
      }
    }

    twostate lemma BytesWritten(new pos: nat, new k: (nat, nat), new at: nat, new chunk: seq<byte>)
      requires 0 < quantum && 0 < qset && old(0 < quantum && 0 < qset)
      requires old(HoldsAll(file.bytes))
      requires Overwritten(k, at, chunk)
      requires k == Key(pos) && at == Offset(quantum, pos) && |chunk| <= Room(quantum, pos)
      requires file.bytes == Overlay(old(file).bytes, pos, chunk)
      ensures HoldsAll(file.bytes)
    {
      forall p | p in file.bytes ensures Holds(p, file.bytes[p]) {
        OverlayAt(old(file).bytes, pos, chunk, p);
        HoldsAfter(pos, k, at, chunk, p, file.bytes[p]);
      }
    }

    /** Writing into a block that exists adds none. */
    lemma BlockIsThere(f: File, pos: nat)
      requires f.quantum == quantum && f.qset == qset && 0 < quantum && 0 < qset
      requires Numbered(f.blocks)
      requires Key(pos) in blks
      ensures f.blocks + {Block(quantum, pos)} == f.blocks
    {
      NumberOf(qset, Block(quantum, pos));
      var i, j := Item(quantum, qset, pos), Slot(quantum, qset, pos);
      assert (i, j) in blks;
    }

    twostate lemma StoredGarbled(new pos: nat, new count: nat, new k: (nat, nat), new at: nat, new junk: seq<byte>)
      requires 0 < quantum && 0 < qset && old(0 < quantum && 0 < qset && Stored())
      requires Overwritten(k, at, junk) && k == Key(pos) && at == Offset(quantum, pos)
      requires |junk| <= Min(count, Room(quantum, pos))
      requires nodes == old(nodes) && size == old(size) && file == old(file).Garble(pos, count)
      ensures Stored()
    {
      NumberOf(qset, Block(quantum, pos));
      assert file.blocks == old(file).blocks;
      forall p | p in file.bytes
        ensures Holds(p, file.bytes[p]) && p < file.size && Block(file.quantum, p) in file.blocks
      {
        EraseAt(old(file).bytes, pos, Min(count, Room(quantum, pos)), p);
        HoldsAfter(pos, k, at, junk, p, file.bytes[p]);
      }
    }

    /** Overwriting a block leaves the shape of the structure alone. */
    twostate predicate ShapeKept(k: (nat, nat))
      reads this, slab, Repr
    {
      && data == old(data) && nodes == old(nodes) && arrs == old(arrs) && blks == old(blks) && Repr == old(Repr)
      && quantum == old(quantum) && qset == old(qset)
      && k in blks
      && (forall i :: 0 <= i < |nodes| ==> nodes[i] in Repr && unchanged(nodes[i]))
      && (forall i :: i in arrs ==> arrs[i] in Repr && unchanged(arrs[i]))
      && unchanged(slab)
    }

    twostate lemma ShapeValid(new k: (nat, nat))
      requires old(Valid()) && ShapeKept(k)
      ensures Linked() && Tabled() && Slotted() && Alive()
    {
      LinkedKept();
      TabledKept();
      SlottedKept();
    }

    /** The list reaches the end of the file after a write as well. */
    lemma ReachesEnd(was: nat, pos: nat, count: nat, end: nat)
      requires 0 < quantum && 0 < qset && count <= Room(quantum, pos)
      requires Reaches(was)
      requires Item(quantum, qset, pos) < |nodes|
      requires end == if was < pos + count then pos + count else was
      ensures Reaches(end)
    {
      if was < pos + count {
        EndIsInItem(pos, count);
      }
    }

    /** What writing `chunk` at `pos` makes of a file kept in this structure. */
    lemma FileAfter(f: File, pos: nat, data: seq<byte>, chunk: seq<byte>, n: nat)
      requires 0 < quantum && 0 < qset && f.Valid() && f.quantum == quantum && f.qset == qset
      requires Numbered(f.blocks)
      requires Reaches(f.size)
      requires chunk == data[..f.Share(pos, |data|)]
      requires n == if f.size < pos + |chunk| then pos + |chunk| else f.size
      requires Key(pos) in blks && Item(quantum, qset, pos) < |nodes|
      ensures var g := f.Write(pos, data);
              && g.Valid() && g.quantum == quantum && g.qset == qset && g.size == n
              && g.blocks == f.blocks && g.bytes == Overlay(f.bytes, pos, chunk)
      ensures Reaches(n)
      ensures |chunk| <= Room(quantum, pos)
    {
      WriteKeepsValid(f, pos, data);
      BlockIsThere(f, pos);
      ReachesEnd(f.size, pos, |chunk|, n);
    }

    twostate lemma WrittenIsStored(new pos: nat, new data: seq<byte>, new at: nat, new chunk: seq<byte>)
      requires 0 < quantum && 0 < qset && old(0 < quantum && 0 < qset && Stored())
      requires quantum == old(quantum) && qset == old(qset) && nodes == old(nodes)
      requires Overwritten(Key(pos), at, chunk) && at == Offset(quantum, pos) && Item(quantum, qset, pos) < |nodes|
      requires chunk == data[..old(file).Share(pos, |data|)] && file == old(file).Write(pos, data)
      requires size == if old(size) < pos + |chunk| then pos + |chunk| else old(size)
      ensures Stored()
    {
      FileAfter(old(file), pos, data, chunk, size);
      BytesWritten(pos, Key(pos), at, chunk);
    }

    /** Of all that the device owns only one block has changed, and that as `Overwritten` says. */
    twostate predicate Patched(k: (nat, nat), at: nat, chunk: seq<byte>)
      reads this, slab, Repr
    {
      && data == old(data) && nodes == old(nodes) && arrs == old(arrs) && blks == old(blks) && Repr == old(Repr)
      && quantum == old(quantum) && qset == old(qset) && unchanged(slab)
      && k in blks && blks[k] in Repr && at + |chunk| <= blks[k].Length
      && blks[k][..] == Splice(old(blks[k][..]), at, chunk)
      && forall o :: o in Repr && o != blks[k] ==> unchanged(o)
    }

    twostate lemma PatchedIsOverwritten(new k: (nat, nat), new at: nat, new chunk: seq<byte>)
      requires old(Valid()) && Patched(k, at, chunk)
      ensures ShapeKept(k) && Overwritten(k, at, chunk)
    {
      forall i | 0 <= i < |nodes| ensures nodes[i] in Repr && unchanged(nodes[i]) {
        assert old(LinkOk(i));
      }
    }

    twostate lemma ChunkStored(new pos: nat, new data: seq<byte>, new at: nat, new chunk: seq<byte>)
      requires old(Valid()) && quantum == old(quantum) && qset == old(qset)
      requires Patched(Key(pos), at, chunk) && at == Offset(quantum, pos)
      requires chunk == data[..old(file).Share(pos, |data|)] && file == old(file).Write(pos, data)
      requires size == if old(size) < pos + |chunk| then pos + |chunk| else old(size)
      ensures Valid() && Grown()
    {
      PatchedIsOverwritten(Key(pos), at, chunk);
      ShapeValid(Key(pos));
      WrittenIsStored(pos, data, at, chunk);
    }

    twostate lemma ChunkGarbled(new pos: nat, new count: nat, new at: nat, new junk: seq<byte>)
      requires old(Valid()) && quantum == old(quantum) && qset == old(qset)
      requires Patched(Key(pos), at, junk) && at == Offset(quantum, pos)
      requires |junk| <= old(file).Share(pos, count) && file == old(file).Garble(pos, count) && size == old(size)
      ensures Valid() && Grown()
    {
      PatchedIsOverwritten(Key(pos), at, junk);
      ShapeValid(Key(pos));
      BlockIsThere(old(file), pos);
      StoredGarbled(pos, count, Key(pos), at, junk);
    }

    constructor (slab: Slab, quantum: nat, qset: nat)
      requires 0 < quantum && 0 < qset
      ensures Valid() && Repr == {} && this.slab == slab
      ensures nodes == [] && arrs == map[] && blks == map[]
      ensures file == File(quantum, qset, 0, {}, map[])
    {
      data, size := null, 0;
      this.quantum, this.qset, this.slab := quantum, qset, slab;
      nodes, arrs, blks, Repr := [], map[], map[], {};
      file := File(quantum, qset, 0, {}, map[]);
    }

    /** Link a new item at the end of the list. */
    method LinkItem(last: QSet?, item: QSet)
      requires Valid() && item !in Repr && item in slab.items && item.data == null && item.next == null
      requires last == if nodes == [] then null else nodes[|nodes| - 1]
      modifies this, Repr
      ensures Valid() && Grown() && Repr == old(Repr) + {item}
      ensures file == old(file) && arrs == old(arrs) && blks == old(blks) && size == old(size)
      ensures nodes == old(nodes) + [item]
    {
      if last == null {
        data := item;
      } else {
        assert LinkOk(|nodes| - 1);
        last.next := item;
      }
      nodes := nodes + [item];
      Repr := Repr + {item};
      LinkedGrown(item);
      TabledKept();
      SlottedKept();
      StoredKept();
    }

    method AddItem(last: QSet?) returns (item: QSet?)
      requires Valid()
      requires last == if nodes == [] then null else nodes[|nodes| - 1]
      modifies this, slab, Repr
      ensures Valid() && Grown() && fresh(Repr - old(Repr)) && old(Repr) <= Repr
      ensures file == old(file) && arrs == old(arrs) && blks == old(blks) && size == old(size)
      ensures item == null ==> nodes == old(nodes) && Repr == old(Repr) && slab.items == old(slab.items)
      ensures item != null ==> nodes == old(nodes) + [item] && slab.items == old(slab.items) + {item}
      ensures slab.tables == old(slab.tables) && slab.quanta == old(slab.quanta)
      ensures slab.refused == old(slab.refused) + (if item == null then 1 else 0)
    {
      item := slab.KmallocItem();
      StoredKept();
      if item != null {
        LinkItem(last, item);
      }
    }

    /** The whole structure and the allocator are as they were. */
    twostate predicate Untouched()
      reads this, slab, Repr
    {
      unchanged(this) && unchanged(slab) && forall o :: o in Repr ==> unchanged(o)
    }

    /** Walk to item `n`, adding items as needed. */
    method Follow(n: nat) returns (qs: QSet?)
      requires Valid()
      modifies this, slab, Repr
      ensures Valid() && Grown() && fresh(Repr - old(Repr)) && old(Repr) <= Repr
      ensures file == old(file) && arrs == old(arrs) && blks == old(blks) && size == old(size)
      ensures qs == if n < |nodes| then nodes[n] else null
      ensures |nodes| == |old(nodes)| || |nodes| <= n + 1
      ensures n < |old(nodes)| ==> Untouched()
      ensures slab.items == old(slab.items) + (set i | 0 <= i < |nodes| :: nodes[i])
      ensures slab.tables == old(slab.tables) && slab.quanta == old(slab.quanta)
      ensures slab.refused == old(slab.refused) + (if qs == null then 1 else 0)
    {
      qs := data;
      if qs == null {
        qs := AddItem(null);
        if qs == null {
          return;
        }
      }
      var left: nat := n;
      while left != 0
        invariant Valid() && Grown() && fresh(Repr - old(Repr)) && old(Repr) <= Repr
        invariant file == old(file) && arrs == old(arrs) && blks == old(blks) && size == old(size)
        invariant left <= n && n - left < |nodes| && qs == nodes[n - left]
        invariant |nodes| == |old(nodes)| || |nodes| == n - left + 1
        invariant n < |old(nodes)| ==> Untouched()
        invariant slab.items == old(slab.items) + (set i | 0 <= i < |nodes| :: nodes[i])
        invariant slab.tables == old(slab.tables) && slab.quanta == old(slab.quanta)
        invariant slab.refused == old(slab.refused)
        decreases left
      {
        assert LinkOk(n - left);
        if qs.next == null {
          var item := AddItem(qs);
          if item == null {
            qs := null;
            return;
          }
          assert LinkOk(n - left);
        }
        qs := qs.next;
        left := left - 1;
      }
    }

    /** Give item `i` its pointer array. */
    method LinkTable(i: nat, item: QSet, table: Table)
      requires Valid() && i < |nodes| && i !in arrs && item == nodes[i]
      requires table !in Repr && table in slab.tables && table.Length == qset
      requires forall j :: 0 <= j < qset ==> table[j] == null
      modifies this, Repr
      ensures Valid() && Grown() && Repr == old(Repr) + {table}
      ensures file == old(file) && nodes == old(nodes) && blks == old(blks) && size == old(size)
      ensures arrs == old(arrs)[i := table]
    {
      item.data := table;
      arrs := arrs[i := table];
      Repr := Repr + {table};
      LinkedKept();
      TabledGrown(i, table);
      SlottedWithTable(i, table);
      StoredKept();
    }

    method AddTable(i: nat, item: QSet) returns (ok: bool)
      requires Valid() && i < |nodes| && i !in arrs && item == nodes[i]
      modifies this, slab, Repr
      ensures Valid() && Grown() && fresh(Repr - old(Repr)) && old(Repr) <= Repr
      ensures file == old(file) && nodes == old(nodes) && blks == old(blks) && size == old(size)
      ensures !ok ==> arrs == old(arrs) && slab.tables == old(slab.tables)
      ensures ok ==> i in arrs && arrs == old(arrs)[i := arrs[i]] && slab.tables == old(slab.tables) + {arrs[i]}
      ensures slab.items == old(slab.items) && slab.quanta == old(slab.quanta)
      ensures slab.refused == old(slab.refused) + (if !ok then 1 else 0)
    {
      var table := slab.KmallocTable(qset);
      StoredKept();
      ok := table != null;
      if ok {
        LinkTable(i, item, table);
      }
    }

    /** Give slot `k.1` of item `k.0` its block. */
    method LinkQuantum(ghost k: (nat, nat), j: nat, table: Table, block: Quantum)
      requires Valid() && k.0 in arrs && k.1 == j < qset && k !in blks && table == arrs[k.0]
      requires block !in Repr && block in slab.quanta && block.Length == quantum
      modifies this, Repr
      ensures Valid() && Grown() && Repr == old(Repr) + {block}
      ensures nodes == old(nodes) && arrs == old(arrs) && size == old(size)
      ensures blks == old(blks)[k := block]
      ensures file == old(file).(blocks := old(file).blocks + {Number(qset, k.0, k.1)})
    {
      table[j] := block;
      blks := blks[k := block];
      file := file.(blocks := file.blocks + {Number(qset, k.0, k.1)});
      Repr := Repr + {block};
      LinkedKept();
      TabledKept();
      SlottedGrown(k, block);
      StoredGrown(k, block);
    }

    method AddQuantum(ghost k: (nat, nat), j: nat, table: Table) returns (ok: bool)
      requires Valid() && k.0 in arrs && k.1 == j < qset && k !in blks && table == arrs[k.0]
      modifies this, slab, Repr
      ensures Valid() && Grown() && fresh(Repr - old(Repr)) && old(Repr) <= Repr
      ensures nodes == old(nodes) && arrs == old(arrs) && size == old(size)
      ensures !ok ==> file == old(file) && blks == old(blks) && slab.quanta == old(slab.quanta)
      ensures ok ==>
                && k in blks && blks == old(blks)[k := blks[k]]
                && slab.quanta == old(slab.quanta) + {blks[k]}
                && file == old(file).(blocks := old(file).blocks + {Number(qset, k.0, k.1)})
      ensures slab.items == old(slab.items) && slab.tables == old(slab.tables)
      ensures slab.refused == old(slab.refused) + (if !ok then 1 else 0)
    {
      var block := slab.KmallocQuantum(quantum);
      StoredKept();
      ok := block != null;
      if ok {
        LinkQuantum(k, j, table, block);
      }
    }

    /** Item, slot and offset of a position, by the driver's division. */
    method Find(pos: nat) returns (item: nat, sPos: nat, qPos: nat)
      requires 0 < quantum && 0 < qset
      ensures (item, sPos) == Key(pos) && sPos < qset && qPos == Offset(quantum, pos) && qPos < quantum
    {
      Locate(quantum, qset, pos);
      var itemsize := quantum * qset;
      item := pos / itemsize;
      var rest := pos % itemsize;
      sPos := rest / quantum;
      qPos := rest % quantum;
    }

    /** A copy from user space; if it faults, anything may be left in what it was to overwrite. */
    static method CopyFromUser(block: Quantum, at: nat, chunk: seq<byte>, copies: bool) returns (ghost landed: seq<byte>)
      requires at + |chunk| <= block.Length
      modifies block
      ensures |landed| <= |chunk| && (copies ==> landed == chunk)
      ensures block[..] == Splice(old(block[..]), at, landed)
    {
      var n :| 0 <= n <= |chunk| && (copies ==> n == |chunk|);
      forall i | 0 <= i < n {
        block[at + i] := chunk[i];
      }
      landed := chunk[..n];
    }

    /** Accept what fits into the block of `pos`, which exists. */
    method PatchChunk(pos: nat, block: Quantum, qPos: nat, data: seq<byte>, copies: bool)
      returns (r: WriteResult, ghost landed: seq<byte>)
      requires 0 < quantum && 0 < qset && this !in Repr && slab !in Repr
      requires Key(pos) in blks && block == blks[Key(pos)] && block in Repr && block.Length == quantum
      requires qPos == Offset(quantum, pos) && file.quantum == quantum
      modifies block, this
      ensures quantum == old(quantum) && qset == old(qset)
      ensures Patched(Key(pos), qPos, landed) && r.Accepted? == copies
      ensures match r
              case Accepted(n) =>
                && n == old(file).Share(pos, |data|) && landed == data[..n] && file == old(file).Write(pos, data)
                && size == if old(size) < pos + n then pos + n else old(size)
              case BadAddress =>
                && |landed| <= old(file).Share(pos, |data|) && file == old(file).Garble(pos, |data|)
                && size == old(size)
              case NoMemory => false
    {
      var k := |data|;
      if k > quantum - qPos {
        k := quantum - qPos;
      }
      landed := CopyFromUser(block, qPos, data[..k], copies);
      if !copies {
        file := file.Garble(pos, |data|);
        return BadAddress, landed;
      }
      if size < pos + k {
        size := pos + k;
      }
      file := file.Write(pos, data);
      r := Accepted(k);
    }

    method StoreChunk(pos: nat, block: Quantum, qPos: nat, data: seq<byte>, copies: bool) returns (r: WriteResult)
      requires Valid() && Key(pos) in blks && block == blks[Key(pos)] && qPos == Offset(quantum, pos)
      modifies block, this
      ensures Valid() && Grown() && Repr == old(Repr)
      ensures nodes == old(nodes) && arrs == old(arrs) && blks == old(blks) && unchanged(slab)
      ensures r.Accepted? == copies
      ensures match r
              case Accepted(n) => n == old(file).Share(pos, |data|) && file == old(file).Write(pos, data)
              case BadAddress => file == old(file).Garble(pos, |data|)
              case NoMemory => false
    {
      ghost var landed;
      r, landed := PatchChunk(pos, block, qPos, data, copies);
      if r.Accepted? {
        ChunkStored(pos, data, qPos, landed);
      } else {
        ChunkGarbled(pos, |data|, qPos, landed);
      }
    }

    /** The pointer array of item `i`, allocated if need be. */
    method ObtainTable(i: nat, item: QSet) returns (table: array?<array?<byte>>)
      requires Valid() && i < |nodes| && item == nodes[i]
      modifies this, slab, Repr
      ensures Valid() && Grown() && fresh(Repr - old(Repr)) && old(Repr) <= Repr
      ensures file == old(file) && nodes == old(nodes) && blks == old(blks) && size == old(size)
      ensures table != null ==> i in arrs && arrs[i] == table
      ensures arrs.Keys <= old(arrs).Keys + {i}
      ensures slab.items == old(slab.items) && slab.quanta == old(slab.quanta)
      ensures slab.tables == old(slab.tables) + arrs.Values
      ensures slab.refused == old(slab.refused) + (if table == null then 1 else 0)
    {
      if item.data == null {
        var ok := AddTable(i, item);
        if !ok {
          return null;
        }
      }
      table := item.data;
    }

    /** The block in slot `j`, allocated if need be. */
    method ObtainQuantum(ghost k: (nat, nat), j: nat, table: Table) returns (block: array?<byte>)
      requires Valid() && k.0 in arrs && k.1 == j < qset && table == arrs[k.0]
      modifies this, slab, Repr
      ensures Valid() && Grown() && fresh(Repr - old(Repr)) && old(Repr) <= Repr
      ensures nodes == old(nodes) && arrs == old(arrs) && size == old(size)
      ensures block == null ==> file == old(file)
      ensures block != null ==>
                && k in blks && blks[k] == block
                && file == old(file).(blocks := old(file).blocks + {Number(qset, k.0, k.1)})
      ensures slab.items == old(slab.items) && slab.tables == old(slab.tables)
      ensures slab.quanta == old(slab.quanta) + blks.Values
      ensures slab.refused == old(slab.refused) + (if block == null then 1 else 0)
    {
      assert SlotOk(k.0, j);
      if table[j] == null {
        var ok := AddQuantum(k, j, table);
        if !ok {
          return null;
        }
        assert SlotOk(k.0, j);
      }
      block := table[j];
    }

    /** The pointer array of item `n`, with everything on the way to it; null if an allocation fails. */
    method ObtainRow(n: nat) returns (table: array?<array?<byte>>)
      requires Valid()
      modifies this, slab, Repr
      ensures Valid() && Grown() && fresh(Repr - old(Repr)) && old(Repr) <= Repr
      ensures file == old(file) && blks == old(blks) && size == old(size)
      ensures table != null ==> n in arrs && arrs[n] == table
      ensures |nodes| == |old(nodes)| || |nodes| <= n + 1
      ensures arrs.Keys <= old(arrs).Keys + {n}
      ensures slab.items == old(slab.items) + (set i | 0 <= i < |nodes| :: nodes[i])
      ensures slab.tables == old(slab.tables) + arrs.Values
      ensures slab.quanta == old(slab.quanta)
      ensures slab.refused == old(slab.refused) + (if table == null then 1 else 0)
    {
      var qs := Follow(n);
      if qs == null {
        return null;
      }
      table := ObtainTable(n, qs);
    }

    /** The block for position `pos`, with everything on the way to it; null if an allocation fails. */
    method Obtain(pos: nat, item: nat, sPos: nat) returns (block: array?<byte>)
      requires Valid() && (item, sPos) == Key(pos) && sPos < qset
      modifies this, slab, Repr
      ensures Valid() && Grown() && fresh(Repr - old(Repr)) && old(Repr) <= Repr && NoLeak()
      ensures size == old(size)
      ensures |nodes| == |old(nodes)| || |nodes| <= item + 1
      ensures arrs.Keys <= old(arrs).Keys + {item}
      ensures slab.refused == old(slab.refused) + (if block == null then 1 else 0)
      ensures block == null ==> file == old(file)
      ensures block != null ==>
                && Key(pos) in blks && blks[Key(pos)] == block && block in Repr
                && file == old(file).(blocks := old(file).blocks + {Block(quantum, pos)})
    {
      NumberOf(qset, Block(quantum, pos));
      var table := ObtainRow(item);
      if table == null {
        return null;
      }
      block := ObtainQuantum((item, sPos), sPos, table);
    }

    /** A write fails exactly if an allocation is refused or the copy faults; only then is less done than asked. */
    method Write(pos: nat, data: seq<byte>, copies: bool) returns (r: WriteResult)
      requires Valid()
      modifies this, slab, Repr
      ensures Valid() && Grown() && fresh(Repr - old(Repr)) && old(Repr) <= Repr && NoLeak()
      ensures slab.refused == old(slab.refused) + (if r.NoMemory? then 1 else 0)
      ensures !r.NoMemory? ==> r.Accepted? == copies
      ensures |nodes| == |old(nodes)| || |nodes| <= Item(quantum, qset, pos) + 1
      ensures arrs.Keys <= old(arrs).Keys + {Item(quantum, qset, pos)}
      ensures match r
              case Accepted(n) => n == old(file).Share(pos, |data|) && file == old(file).Write(pos, data)
              case NoMemory => file == old(file)
              case BadAddress => file == old(file).Garble(pos, |data|)
    {
      var item, sPos, qPos := Find(pos);
      var block := Obtain(pos, item, sPos);
      if block == null {
        return NoMemory;
      }
      WriteAgain(old(file), pos, data);
      r := StoreChunk(pos, block, qPos, data, copies);
    }

    /** What position `pos` holds when a read gets there, and that all on the way is already there. */
    lemma ReadFinds(pos: nat)
      requires Valid() && pos < size
      ensures Item(quantum, qset, pos) < |nodes|
      ensures Block(quantum, pos) in file.blocks <==> Key(pos) in blks
    {
      ItemMonotone(quantum, qset, pos, size - 1);
      NumberOf(qset, Block(quantum, pos));
      var i, j := Item(quantum, qset, pos), Slot(quantum, qset, pos);
      assert (i, j) in blks <==> Number(qset, i, j) in file.blocks;
    }

    /** The block of a position inside the file, null in a hole; the walk never has to add an item. */
    method Lookup(pos: nat, item: nat, sPos: nat) returns (block: array?<byte>)
      requires Valid() && pos < size && (item, sPos) == Key(pos) && sPos < qset
      modifies this, slab, Repr
      ensures Valid() && Untouched()
      ensures Block(quantum, pos) !in file.blocks ==> block == null
      ensures Block(quantum, pos) in file.blocks ==>
                Key(pos) in blks && block == blks[Key(pos)] && block.Length == quantum
    {
      ReadFinds(pos);
      var qs := Follow(item);
      if qs.data == null {
        return null;
      }
      assert SlotOk(item, sPos);
      block := qs.data[sPos];
    }

    /** The bytes of a chunk inside one block are those of the file, where it has any. */
    lemma ChunkIsFile(pos: nat, k: nat)
      requires 0 < quantum && 0 < qset && HoldsAll(file.bytes)
      requires k <= Room(quantum, pos) && Key(pos) in blks && blks[Key(pos)].Length == quantum
      ensures forall p :: pos <= p < pos + k && p in file.bytes ==>
                blks[Key(pos)][Offset(quantum, pos) + (p - pos)] == file.bytes[p]
    {
      forall p | pos <= p < pos + k && p in file.bytes
        ensures blks[Key(pos)][Offset(quantum, pos) + (p - pos)] == file.bytes[p]
      {
        WithinBlock(quantum, pos, p - pos);
        KeyMeansBlock(p, pos);
        assert Holds(p, file.bytes[p]);
      }
    }

    /** Copy out of a block up to its end. */
    method CopyOut(pos: nat, block: Quantum, qPos: nat, count: nat) returns (bytes: seq<byte>)
      requires 0 < quantum && 0 < qset && HoldsAll(file.bytes)
      requires Key(pos) in blks && block == blks[Key(pos)] && block.Length == quantum && qPos == Offset(quantum, pos)
      ensures |bytes| == Min(count, Room(quantum, pos))
      ensures file.Agrees(pos, bytes)
    {
      var n := count;
      if n > quantum - qPos {
        n := quantum - qPos;
      }
      ChunkIsFile(pos, n);
      bytes := block[qPos..qPos + n];
    }

    /** Reading from a position inside the file: nothing in a hole, else up to the end of the block. */
    method ReadInside(pos: nat, count: nat, copies: bool) returns (r: ReadResult)
      requires Valid() && pos < size
      modifies this, slab, Repr
      ensures Valid() && Untouched()
      ensures r.Bytes? ==>
                && |r.bytes| == (if Block(quantum, pos) in file.blocks then Min(count, Room(quantum, pos)) else 0)
                && file.Agrees(pos, r.bytes)
      ensures r.BadAddressRead? <==> !copies && Block(quantum, pos) in file.blocks
    {
      var item, sPos, qPos := Find(pos);
      var block := Lookup(pos, item, sPos);
      if block == null {
        return Bytes([]);
      }
      if !copies {
        return BadAddressRead;
      }
      var bytes := CopyOut(pos, block, qPos, count);
      r := Bytes(bytes);
    }

    /** Reading returns bytes of the file and changes nothing at all. */
    method Read(pos: nat, count: nat, copies: bool) returns (r: ReadResult)
      requires Valid()
      modifies this, slab, Repr
      ensures Valid() && Untouched()
      ensures r.Bytes? ==>
                && |r.bytes| == file.ReadCount(pos, count) && file.ReadStops(pos, count, |r.bytes|)
                && file.Agrees(pos, r.bytes)
      ensures r.BadAddressRead? <==> !copies && pos < size && Block(quantum, pos) in file.blocks
    {
      ReadStopsExactly(file, pos, count, file.ReadCount(pos, count));
      if pos >= size {
        return Bytes([]);
      }
      var n := count;
      if pos + n > size {
        n := size - pos;
      }
      r := ReadInside(pos, n, copies);
    }

    // ---------------------------------------------------------------- trimming

    ghost function ItemsBelow(n: nat): set<QSet>
      requires n <= |nodes|
      reads this`nodes
    {
      set i | 0 <= i < n :: nodes[i]
    }

    ghost function TablesBelow(n: nat): set<Table>
      reads this`arrs
    {
      set i | i in arrs && i < n :: arrs[i]
    }

    ghost function QuantaBelow(n: nat): set<Quantum>
      reads this`blks
    {
      set k | k in blks && k.0 < n :: blks[k]
    }

    /** The blocks in the first `m` slots of item `i`. */
    ghost function QuantaOf(i: nat, m: nat): set<Quantum>
      reads this`blks
    {
      set k | k in blks && k.0 == i && k.1 < m :: blks[k]
    }

    /** Free the blocks of item `i`, each exactly once. */
    method FreeSlots(ghost i: nat, table: Table)
      requires table.Length == qset && forall j: nat :: j < qset ==> table[j] == Blk(i, j)
      requires forall k, l :: k in blks && l in blks && k != l ==> blks[k] != blks[l]
      requires QuantaOf(i, qset) <= slab.quanta
      modifies slab
      ensures slab.quanta == old(slab.quanta) - QuantaOf(i, qset)
      ensures slab.items == old(slab.items) && slab.tables == old(slab.tables)
      ensures slab.refused == old(slab.refused)
    {
      var j := 0;
      while j < qset
        invariant 0 <= j <= qset
        invariant slab.quanta == old(slab.quanta) - QuantaOf(i, j)
        invariant slab.items == old(slab.items) && slab.tables == old(slab.tables)
        invariant slab.refused == old(slab.refused)
      {
        assert table[j] == Blk(i, j);
        if (i, j) in blks {
          assert blks[(i, j)] in QuantaOf(i, qset);
          assert QuantaOf(i, j + 1) == QuantaOf(i, j) + {blks[(i, j)]};
        } else {
          assert QuantaOf(i, j + 1) == QuantaOf(i, j);
        }
        slab.KfreeQuantum(table[j]);
        j := j + 1;
      }
    }

    /** Free item `i` with all it points to, each exactly once. */
    method FreeItem(ghost i: nat, item: QSet) returns (next: QSet?)
      requires item.data == if i in arrs then arrs[i] else null
      requires i in arrs ==> arrs[i].Length == qset && forall j: nat :: j < qset ==> arrs[i][j] == Blk(i, j)
      requires forall k, l :: k in blks && l in blks && k != l ==> blks[k] != blks[l]
      requires i !in arrs ==> QuantaOf(i, qset) == {}
      requires item in slab.items && (i in arrs ==> arrs[i] in slab.tables) && QuantaOf(i, qset) <= slab.quanta
      modifies slab, item`data
      ensures next == item.next
      ensures slab.items == old(slab.items) - {item}
      ensures slab.tables == old(slab.tables) - if i in arrs then {arrs[i]} else {}
      ensures slab.quanta == old(slab.quanta) - QuantaOf(i, qset)
    {
      if item.data != null {
        FreeSlots(i, item.data);
        slab.KfreeTable(item.data);
        item.data := null;
      }
      next := item.next;
      slab.KfreeItem(item);
    }

    /** The first `n` items and all they point to have been freed, nothing else has changed. */
    twostate predicate Freed(n: nat)
      requires n <= |nodes|
      reads this, slab, nodes, arrs.Values
    {
      && unchanged(this)
      && slab.items == old(slab.items) - ItemsBelow(n)
      && slab.tables == old(slab.tables) - TablesBelow(n)
      && slab.quanta == old(slab.quanta) - QuantaBelow(n)
      && (forall i :: n <= i < |nodes| ==> unchanged(nodes[i]))
      && (forall i :: i in arrs ==> unchanged(arrs[i]))
    }

    /** Nothing of item `n` has been freed before its turn. */
    twostate lemma ItemIsWhole(new n: nat)
      requires old(Valid()) && n < |nodes| && Freed(n)
      ensures nodes[n].next == (if n + 1 < |nodes| then nodes[n + 1] else null)
      ensures nodes[n].data == if n in arrs then arrs[n] else null
      ensures n in arrs ==> arrs[n].Length == qset && forall j: nat :: j < qset ==> arrs[n][j] == Blk(n, j)
      ensures forall k, l :: k in blks && l in blks && k != l ==> blks[k] != blks[l]
      ensures n !in arrs ==> QuantaOf(n, qset) == {}
      ensures nodes[n] in slab.items && (n in arrs ==> arrs[n] in slab.tables) && QuantaOf(n, qset) <= slab.quanta
    {
      assert old(LinkOk(n));
      if n in arrs {
        forall j: nat | j < qset ensures arrs[n][j] == Blk(n, j) {
          assert old(SlotOk(n, j));
        }
      }
    }

    /** What is freed after one more item. */
    lemma BelowNext(n: nat)
      requires n < |nodes| && forall k :: k in blks ==> k.1 < qset
      ensures ItemsBelow(n + 1) == ItemsBelow(n) + {nodes[n]}
      ensures TablesBelow(n + 1) == TablesBelow(n) + if n in arrs then {arrs[n]} else {}
      ensures QuantaBelow(n + 1) == QuantaBelow(n) + QuantaOf(n, qset)
    {
    }

    /** The whole structure is below its end. */
    lemma BelowEnd()
      requires Tabled() && Slotted()
      ensures ItemsBelow(|nodes|) == (set i | 0 <= i < |nodes| :: nodes[i])
      ensures TablesBelow(|nodes|) == arrs.Values && QuantaBelow(|nodes|) == blks.Values
    {
    }

    method FreeAll()
      requires Valid()
      modifies slab, nodes
      ensures unchanged(this)
      ensures slab.items == old(slab.items) - set i | 0 <= i < |nodes| :: nodes[i]
      ensures slab.tables == old(slab.tables) - arrs.Values
      ensures slab.quanta == old(slab.quanta) - blks.Values
    {
      BelowEnd();
      var dptr := data;
      ghost var n := 0;
      while dptr != null
        invariant n <= |nodes| && dptr == if n < |nodes| then nodes[n] else null
        invariant Freed(n)
        decreases |nodes| - n
      {
        ItemIsWhole(n);
        BelowNext(n);
        dptr := FreeItem(n, dptr);
        n := n + 1;
      }
    }

    /** Free everything, each object exactly once, and take over the geometry given. */
    method Trim(newQuantum: nat, newQset: nat)
      requires Valid() && 0 < newQuantum && 0 < newQset
      modifies this, slab, nodes
      ensures Valid() && Repr == {} && file == old(file).Trim(newQuantum, newQset)
      ensures slab.items == old(slab.items) - set i | 0 <= i < |old(nodes)| :: old(nodes)[i]
      ensures slab.tables == old(slab.tables) - old(arrs).Values
      ensures slab.quanta == old(slab.quanta) - old(blks).Values
    {
      FreeAll();
      size, quantum, qset, data := 0, newQuantum, newQset, null;
      nodes, arrs, blks, Repr := [], map[], map[], {};
      file := file.Trim(newQuantum, newQset);
    }

    /** A device none of whose objects has been touched or freed is as good as before. */
    twostate lemma Undisturbed()
      requires old(Valid()) && unchanged(this) && forall o :: o in Repr ==> unchanged(o)
      requires Alive()
      ensures Valid()
    {
    }
  }

  /** The block a write goes to may be there already. */
  lemma WriteAgain(f: File, pos: nat, data: seq<byte>)
    requires 0 < f.quantum
    ensures var g := f.(blocks := f.blocks + {Block(f.quantum, pos)});
            g.Write(pos, data) == f.Write(pos, data) && g.Garble(pos, |data|) == f.Garble(pos, |data|)
  {
  }
}
