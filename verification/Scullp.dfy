/**
 The scullp device: like scull, but made of zeroed pages that can also be mapped.  A page fault
 finds its page by counting items off the page number, read and write find it by division; both
 are proved against one flat numbering of the pages, and a mapping against trimming.
 */
module Scullp {
  import opened Ring
  import opened Geometry
  import opened ScullDevice

  /** What the device is meant to hold: some pages, each full of known bytes. */
  datatype PageFile = PageFile(size: nat, pages: map<nat, seq<byte>>) {

    ghost predicate Valid(pageSize: nat) {
      0 < pageSize && forall n :: n in pages ==> |pages[n]| == pageSize
    }

    /** Reading stops at the end of the file and of the page, and gets nothing from a hole. */
    ghost function Read(pageSize: nat, pos: nat, count: nat): seq<byte>
      requires Valid(pageSize)
    {
      var n, at := Block(pageSize, pos), Offset(pageSize, pos);
      if pos > size || n !in pages then []
      else pages[n][at..at + Min(Min(count, size - pos), Room(pageSize, pos))]
    }

    /** The page a write goes to, new pages being zeroed. */
    ghost function PageFor(pageSize: nat, n: nat): (page: seq<byte>)
      requires Valid(pageSize)
      ensures |page| == pageSize
    {
      if n in pages then pages[n] else seq(pageSize, _ => 0)
    }

    ghost function WithPage(pageSize: nat, n: nat): (f: PageFile)
      requires Valid(pageSize)
      ensures f.Valid(pageSize)
    {
      this.(pages := pages[n := PageFor(pageSize, n)])
    }

    /** Overwrite part of the page of `pos`. */
    ghost function Patch(pageSize: nat, pos: nat, chunk: seq<byte>): (f: PageFile)
      requires Valid(pageSize) && |chunk| <= Room(pageSize, pos)
      ensures f.Valid(pageSize)
    {
      var n := Block(pageSize, pos);
      this.(pages := pages[n := Splice(PageFor(pageSize, n), Offset(pageSize, pos), chunk)])
    }

    ghost function Write(pageSize: nat, pos: nat, data: seq<byte>): (f: PageFile)
      requires Valid(pageSize)
      ensures f.Valid(pageSize)
    {
      var k := Min(|data|, Room(pageSize, pos));
      Patch(pageSize, pos, data[..k]).(size := if size < pos + k then pos + k else size)
    }
  }

  class Device {
    const head: QSet
    const slab: Slab
    const pageSize: nat
    var vmas: nat
    var order: nat
    var qset: nat
    var size: nat

    ghost var nodes: seq<QSet>
    ghost var pages: map<nat, Quantum>
    ghost var file: PageFile
    ghost var mapped: map<nat, Quantum>
    ghost var Repr: set<object>

    /** The pointer array of item `i`, if it has one. */
    ghost function Tab(i: nat): array?<array?<byte>>
      requires i < |nodes|
      reads `nodes, `Repr, Repr
    {
      if nodes[i] in Repr then nodes[i].data else null
    }

    ghost predicate NodeOk(i: nat)
      requires i < |nodes|
      reads `nodes, `qset, `Repr, Repr
    {
      && nodes[i] in Repr && nodes[i].next == (if i + 1 < |nodes| then nodes[i + 1] else null)
      && (Tab(i) != null ==> Tab(i) in Repr && Tab(i).Length == qset)
    }

    /** The list starts at the head and ends; its items and their pointer arrays are different ones. */
    ghost predicate Linked()
      reads `nodes, `qset, `Repr, Repr
    {
      && nodes != [] && nodes[0] == head
      && (forall i :: 0 <= i < |nodes| ==> NodeOk(i))
      && (forall i, j :: 0 <= i < j < |nodes| ==> nodes[i] != nodes[j])
      && (forall i, j :: 0 <= i < j < |nodes| && Tab(i) != null ==> Tab(i) != Tab(j))
    }

    ghost function Page(n: nat): array?<byte>
      reads `pages
    {
      if n in pages then pages[n] else null
    }

    /** Page `n` is where counting off puts it. */
    ghost predicate PageOk(n: nat)
      requires 0 < qset
      reads `nodes, `qset, `pages, `Repr, Repr
    {
      var i, j := CountOff(qset, n), LeftOver(qset, n);
      if i < |nodes| && Tab(i) != null then
        Tab(i) in Repr && j < Tab(i).Length && Tab(i)[j] == Page(n)
      else n !in pages
    }

    ghost predicate Paged()
      requires 0 < qset
      reads `nodes, `qset, `pages, `Repr, Repr
    {
      && (forall n: nat :: PageOk(n))
      && (forall n :: n in pages ==> pages[n] in Repr && pages[n].Length == pageSize)
      && (forall n, m :: n in pages && m in pages && n != m ==> pages[n] != pages[m])
    }

    ghost predicate Stored()
      reads `file, `size, `pages, `Repr, Repr
    {
      && file.Valid(pageSize) && file.size == size && file.pages.Keys == pages.Keys
      && forall n :: n in pages ==> pages[n] in Repr && pages[n][..] == file.pages[n]
    }

    ghost predicate Alive()
      reads `nodes, `pages, `Repr, slab, Repr
    {
      && (forall i :: 0 < i < |nodes| ==> nodes[i] in slab.items)
      && (forall i :: 0 <= i < |nodes| && Tab(i) != null ==> Tab(i) in slab.tables)
      && (forall n :: n in pages ==> pages[n] in slab.quanta)
    }

    /** What a page fault has handed out is still there, and mapping requires single pages. */
    ghost predicate Steady()
      reads `vmas, `order, `mapped, `pages
    {
      && (vmas > 0 ==> order == 0)
      && (vmas == 0 ==> mapped == map[])
      && forall n :: n in mapped ==> n in pages && pages[n] == mapped[n]
    }

    ghost predicate Valid()
      reads this, slab, Repr
    {
      && slab !in Repr && this !in Repr && 0 < pageSize && 0 < qset
      && Linked() && Paged() && Stored() && Alive() && Steady()
    }

    /** Nothing has moved or gone. */
    twostate predicate Grown()
      reads this
    {
      && old(nodes) <= nodes
      && (forall n :: n in old(pages) ==> n in pages && pages[n] == old(pages)[n])
      && vmas == old(vmas) && order == old(order) && qset == old(qset) && mapped == old(mapped)
    }

    constructor (slab: Slab, pageSize: nat, qset: nat, order: nat)
      requires 0 < pageSize && 0 < qset
      ensures Valid() && fresh(Repr) && this.slab == slab && this.pageSize == pageSize
      ensures this.qset == qset && this.order == order && vmas == 0 && file == PageFile(0, map[])
    {
      var item := new QSet();
      head := item;
      this.slab, this.pageSize, this.qset, this.order, vmas, size := slab, pageSize, qset, order, 0, 0;
      nodes, pages, file, mapped, Repr := [item], map[], PageFile(0, map[]), map[], {item};
      new;
    }

    // Which change leaves which part of the invariant alone.

    /** Item `i` has the pointer array it had, with the same pointers. */
    twostate predicate TabKept(i: nat)
      requires i < |nodes| && i < |old(nodes)|
      reads this, Repr
    {
      Tab(i) == old(Tab(i)) && (old(Tab(i)) != null ==> old(Tab(i)) in Repr && unchanged(old(Tab(i))))
    }

    twostate lemma LinkedGrown(new item: QSet)
      requires old(Linked()) && nodes == old(nodes) + [item] && old(Repr) <= Repr && item in Repr
      requires item !in old(Repr) && item.next == null && item.data == null && qset == old(qset)
      requires nodes[|nodes| - 2].next == item
      requires forall i :: 0 <= i < |old(nodes)| - 1 ==> nodes[i].next == old(nodes[i].next)
      requires forall i :: 0 <= i < |old(nodes)| ==> nodes[i].data == old(nodes[i].data)
      ensures Linked()
      ensures forall i :: 0 <= i < |old(nodes)| ==> Tab(i) == old(Tab(i))
    {
      forall i | 0 <= i < |nodes| ensures NodeOk(i) && (i < |old(nodes)| ==> nodes[i] != item && Tab(i) == old(Tab(i))) {
        if i < |old(nodes)| {
          assert old(NodeOk(i));
        }
      }
    }

    twostate lemma PagedGrown(new item: QSet)
      requires 0 < qset && old(0 < qset && Paged()) && nodes == old(nodes) + [item] && old(Repr) <= Repr
      requires item in Repr && item.data == null && qset == old(qset) && pages == old(pages)
      requires forall i :: 0 <= i < |old(nodes)| ==> TabKept(i)
      ensures Paged()
    {
      forall n: nat ensures PageOk(n) {
        assert old(PageOk(n));
        var i := CountOff(qset, n);
        assert i < |old(nodes)| ==> TabKept(i);
      }
    }

    twostate lemma StoredKept()
      requires old(Stored()) && file == old(file) && pages == old(pages) && size == old(size) && old(Repr) <= Repr
      requires forall n :: n in pages ==> unchanged(pages[n])
      ensures Stored()
    {
    }

    /** Link a new item at the end of the list. */
    method LinkItem(last: QSet, item: QSet)
      requires Valid() && last == nodes[|nodes| - 1] && item !in Repr && item in slab.items
      requires item.data == null && item.next == null
      modifies this, last`next
      ensures Valid() && Grown() && Repr == old(Repr) + {item}
      ensures file == old(file) && pages == old(pages) && nodes == old(nodes) + [item]
    {
      assert NodeOk(|nodes| - 1);
      assert forall i :: 0 <= i < |nodes| ==> NodeOk(i);
      last.next := item;
      nodes := nodes + [item];
      Repr := Repr + {item};
      LinkedGrown(item);
      forall i | 0 <= i < |old(nodes)| ensures TabKept(i) {
        assert old(NodeOk(i));
      }
      PagedGrown(item);
      StoredKept();
    }

    /** Walk to item `n`, adding items as needed; here an item can always be had. */
    method Follow(n: nat) returns (dptr: QSet)
      requires Valid()
      modifies this, slab, Repr
      ensures Valid() && Grown() && fresh(Repr - old(Repr)) && old(Repr) <= Repr
      ensures file == old(file) && pages == old(pages) && n < |nodes| && dptr == nodes[n]
      ensures |nodes| == |old(nodes)| || |nodes| == n + 1
      ensures slab.tables == old(slab.tables) && slab.quanta == old(slab.quanta)
      ensures old(slab.items) <= slab.items && slab.refused == old(slab.refused)
    {
      dptr := head;
      var left: nat := n;
      while left != 0
        invariant Valid() && Grown() && fresh(Repr - old(Repr)) && old(Repr) <= Repr
        invariant file == old(file) && pages == old(pages)
        invariant left <= n && n - left < |nodes| && dptr == nodes[n - left]
        invariant |nodes| == |old(nodes)| || |nodes| == n - left + 1
        invariant slab.tables == old(slab.tables) && slab.quanta == old(slab.quanta)
        invariant old(slab.items) <= slab.items && slab.refused == old(slab.refused)
        decreases left
      {
        assert NodeOk(n - left);
        if dptr.next == null {
          AddItem(dptr);
          assert NodeOk(n - left);
        }
        dptr := dptr.next;
        left := left - 1;
      }
    }

    method AddItem(last: QSet)
      requires Valid() && last == nodes[|nodes| - 1]
      modifies this, slab, Repr
      ensures Valid() && Grown() && fresh(Repr - old(Repr)) && old(Repr) <= Repr
      ensures file == old(file) && pages == old(pages) && |nodes| == |old(nodes)| + 1
      ensures slab.tables == old(slab.tables) && slab.quanta == old(slab.quanta)
      ensures old(slab.items) <= slab.items && slab.refused == old(slab.refused)
    {
      assert NodeOk(|nodes| - 1);
      var item := new QSet();
      slab.items := slab.items + {item};
      LinkItem(last, item);
    }

    twostate lemma TableAdded(new i: nat, new table: Table)
      requires old(Linked()) && nodes == old(nodes) && qset == old(qset) && i < |nodes| && old(Tab(i)) == null
      requires old(Repr) <= Repr && table in Repr && table !in old(Repr) && table.Length == qset
      requires nodes[i].data == table
      requires forall k :: 0 <= k < |nodes| ==> nodes[k].next == old(nodes[k].next)
      requires forall k :: 0 <= k < |nodes| && k != i ==> nodes[k].data == old(nodes[k].data)
      requires forall k :: 0 <= k < |nodes| && old(Tab(k)) != null ==> unchanged(old(Tab(k)))
      ensures Linked() && Tab(i) == table
      ensures forall k :: 0 <= k < |nodes| && k != i ==> TabKept(k)
    {
      forall k | 0 <= k < |nodes| ensures NodeOk(k) && (k != i ==> TabKept(k) && Tab(k) != table) {
        assert old(NodeOk(k));
      }
    }

    twostate lemma PagedWithTable(new i: nat, new table: Table)
      requires 0 < qset && old(0 < qset && Paged()) && i < |nodes| && nodes == old(nodes) && qset == old(qset)
      requires pages == old(pages) && old(Repr) <= Repr && old(Tab(i)) == null && Tab(i) == table && table in Repr
      requires table.Length == qset && forall j :: 0 <= j < qset ==> table[j] == null
      requires forall k :: 0 <= k < |nodes| && k != i ==> TabKept(k)
      ensures Paged()
    {
      forall n: nat ensures PageOk(n) {
        assert old(PageOk(n));
        var k := CountOff(qset, n);
        assert k < |nodes| && k != i ==> TabKept(k);
      }
    }

    /** Give item `i` its pointer array. */
    method LinkTable(ghost i: nat, item: QSet, table: Table)
      requires Valid() && i < |nodes| && item == nodes[i] && item.data == null
      requires table !in Repr && table in slab.tables && table.Length == qset
      requires forall j :: 0 <= j < qset ==> table[j] == null
      modifies this, item`data
      ensures Valid() && Grown() && Repr == old(Repr) + {table}
      ensures file == old(file) && pages == old(pages) && nodes == old(nodes) && item.data == table
    {
      assert forall k :: 0 <= k < |nodes| ==> NodeOk(k);
      item.data := table;
      Repr := Repr + {table};
      TableAdded(i, table);
      PagedWithTable(i, table);
      forall k | 0 <= k < |nodes| && Tab(k) != null ensures Tab(k) in slab.tables {
        assert k != i ==> TabKept(k);
      }
      StoredKept();
    }

    method ObtainTable(ghost i: nat, item: QSet) returns (table: array?<array?<byte>>)
      requires Valid() && i < |nodes| && item == nodes[i]
      modifies this, slab, Repr
      ensures Valid() && Grown() && fresh(Repr - old(Repr)) && old(Repr) <= Repr
      ensures file == old(file) && pages == old(pages) && nodes == old(nodes)
      ensures table != null ==> Tab(i) == table
      ensures slab.items == old(slab.items) && slab.quanta == old(slab.quanta)
      ensures old(slab.tables) <= slab.tables
      ensures slab.refused == old(slab.refused) + (if table == null then 1 else 0)
    {
      assert NodeOk(i);
      table := item.data;
      if table == null {
        table := slab.KmallocTable(qset);
        if table != null {
          LinkTable(i, item, table);
        }
      }
      assert NodeOk(i);
    }

    /** Two pages in the same slot of the same item are the same page. */
    lemma SameSlot(n: nat, m: nat)
      requires 0 < qset && CountOff(qset, n) == CountOff(qset, m) && LeftOver(qset, n) == LeftOver(qset, m)
      ensures n == m
    {
    }

    /** All of the list is as it was, but for one pointer in one pointer array. */
    twostate predicate OneSlotSet(i: nat, j: nat, new page: Quantum)
      requires i < |nodes|
      reads this, Repr
    {
      && nodes == old(nodes) && qset == old(qset) && old(Repr) <= Repr
      && (forall k :: 0 <= k < |nodes| ==> nodes[k] in Repr && unchanged(nodes[k]))
      && (forall k :: 0 <= k < |nodes| && k != i ==> TabKept(k))
      && Tab(i) != null && Tab(i) == old(Tab(i)) && Tab(i) in Repr && j < Tab(i).Length && Tab(i)[j] == page
      && (forall l :: 0 <= l < Tab(i).Length && l != j ==> Tab(i)[l] == old(Tab(i)[l]))
    }

    /** Writing one pointer array touches no other and no item. */
    twostate lemma SlotSet(new i: nat, new j: nat, new page: Quantum)
      requires old(Linked()) && nodes == old(nodes) && qset == old(qset) && old(Repr) <= Repr
      requires i < |nodes| && old(Tab(i)) != null && j < old(Tab(i)).Length && old(Tab(i))[j] == page
      requires forall o :: o in old(Repr) && o != old(Tab(i)) ==> unchanged(o)
      requires forall l :: 0 <= l < old(Tab(i)).Length && l != j ==> old(Tab(i))[l] == old(Tab(i)[l])
      ensures OneSlotSet(i, j, page)
    {
      forall k | 0 <= k < |nodes| ensures nodes[k] in Repr && unchanged(nodes[k]) && (k != i ==> TabKept(k)) {
        assert old(NodeOk(k));
        assert k != i && old(Tab(k)) != null ==> old(Tab(k)) != old(Tab(i));
      }
      assert old(NodeOk(i));
    }

    twostate lemma PagedWithPage(new n: nat, new page: Quantum)
      requires 0 < qset && old(0 < qset && Paged()) && CountOff(qset, n) < |nodes|
      requires OneSlotSet(CountOff(qset, n), LeftOver(qset, n), page)
      requires n !in old(pages) && pages == old(pages)[n := page]
      requires page in Repr && page !in old(Repr) && page.Length == pageSize
      ensures Paged()
    {
      forall m: nat ensures PageOk(m) {
        assert old(PageOk(m));
        var k := CountOff(qset, m);
        if k < |nodes| && k != CountOff(qset, n) {
          assert TabKept(k);
        } else if k < |nodes| && LeftOver(qset, m) == LeftOver(qset, n) {
          SameSlot(m, n);
        }
      }
    }

    twostate lemma LinkedWithSlot(new i: nat, new j: nat, new page: Quantum)
      requires old(Linked()) && i < |nodes| && OneSlotSet(i, j, page)
      ensures Linked() && forall k :: 0 <= k < |nodes| ==> Tab(k) == old(Tab(k))
    {
      forall k | 0 <= k < |nodes| ensures NodeOk(k) && Tab(k) == old(Tab(k)) {
        assert old(NodeOk(k));
        assert k != i ==> TabKept(k);
      }
    }

    twostate lemma StoredWithPage(new n: nat, new page: Quantum)
      requires old(Stored()) && old(Repr) <= Repr && page in Repr && n !in old(pages) && pages == old(pages)[n := page]
      requires 0 < pageSize && page.Length == pageSize && forall i :: 0 <= i < pageSize ==> page[i] == 0
      requires file == old(file).WithPage(pageSize, n) && size == old(size)
      requires forall m :: m in old(pages) ==> unchanged(old(pages)[m])
      ensures Stored()
    {
      assert page[..] == seq(pageSize, _ => 0);
    }

    /** One zeroed page more, in its slot, keeps everything in order. */
    twostate lemma ValidWithPage(new n: nat, new page: Quantum)
      requires old(Valid()) && 0 < qset && CountOff(qset, n) < |nodes| && OneSlotSet(CountOff(qset, n), LeftOver(qset, n), page)
      requires n !in old(pages) && pages == old(pages)[n := page] && file == old(file).WithPage(pageSize, n)
      requires Repr == old(Repr) + {page} && page !in old(Repr) && page in slab.quanta
      requires page.Length == pageSize && forall i :: 0 <= i < pageSize ==> page[i] == 0
      requires forall m :: m in old(pages) ==> unchanged(old(pages)[m])
      requires unchanged(slab) && vmas == old(vmas) && order == old(order) && mapped == old(mapped) && size == old(size)
      ensures Valid() && Grown()
    {
      LinkedWithSlot(CountOff(qset, n), LeftOver(qset, n), page);
      PagedWithPage(n, page);
      StoredWithPage(n, page);
    }

    /** Put a zeroed page into its slot. */
    method LinkPage(ghost n: nat, j: nat, table: Table, page: Quantum)
      requires Valid() && n !in pages && CountOff(qset, n) < |nodes| && table == Tab(CountOff(qset, n))
      requires j == LeftOver(qset, n)
      requires page !in Repr && page in slab.quanta && page.Length == pageSize
      requires forall i :: 0 <= i < pageSize ==> page[i] == 0
      modifies this, table
      ensures Valid() && Grown() && Repr == old(Repr) + {page}
      ensures nodes == old(nodes) && pages == old(pages)[n := page] && file == old(file).WithPage(pageSize, n)
    {
      assert NodeOk(CountOff(qset, n));
      assert forall k :: 0 <= k < |nodes| ==> NodeOk(k);
      table[j] := page;
      pages := pages[n := page];
      file := file.WithPage(pageSize, n);
      Repr := Repr + {page};
      SlotSet(CountOff(qset, n), j, page);
      ValidWithPage(n, page);
    }

    method ObtainPage(ghost n: nat, j: nat, table: Table) returns (page: array?<byte>)
      requires Valid() && CountOff(qset, n) < |nodes| && table == Tab(CountOff(qset, n)) && j == LeftOver(qset, n)
      modifies this, slab, Repr
      ensures Valid() && Grown() && fresh(Repr - old(Repr)) && old(Repr) <= Repr
      ensures if page == null then file == old(file)
              else n in pages && page == pages[n] && file == old(file).WithPage(pageSize, n)
      ensures slab.refused == old(slab.refused) + (if page == null then 1 else 0)
    {
      assert NodeOk(CountOff(qset, n)) && PageOk(n);
      page := table[j];
      if page == null {
        page := slab.KmallocQuantum(pageSize);
        if page != null {
          forall i | 0 <= i < page.Length {
            page[i] := 0;
          }
          LinkPage(n, j, table, page);
        }
      } else {
        assert file.pages[n := file.pages[n]] == file.pages;
      }
    }

    // ---------------------------------------------------------------- read and write

    /** Item, slot and offset of a position, by the driver's division. */
    method Find(pos: nat) returns (item: nat, sPos: nat, qPos: nat)
      requires 0 < pageSize && 0 < qset
      ensures item == CountOff(qset, Block(pageSize, pos)) && sPos == LeftOver(qset, Block(pageSize, pos))
      ensures qPos == Offset(pageSize, pos)
    {
      Locate(pageSize, qset, pos);
      var itemsize := pageSize * qset;
      item := pos / itemsize;
      var rest := pos % itemsize;
      sPos := rest / pageSize;
      qPos := rest % pageSize;
    }

    /** The page that read and write find for a position; the list may have to be extended to get there. */
    method Lookup(pos: nat) returns (page: array?<byte>, qPos: nat)
      requires Valid()
      modifies this, slab, Repr
      ensures Valid() && Grown() && fresh(Repr - old(Repr)) && old(Repr) <= Repr
      ensures file == old(file) && pages == old(pages)
      ensures page == Page(Block(pageSize, pos)) && qPos == Offset(pageSize, pos)
    {
      ghost var n := Block(pageSize, pos);
      var item, sPos;
      item, sPos, qPos := Find(pos);
      var dptr := Follow(item);
      assert NodeOk(item) && PageOk(n);
      if dptr.data == null {
        return null, qPos;
      }
      page := dptr.data[sPos];
    }

    /** Reading returns exactly the bytes of the file, whose contents it does not change. */
    method Read(pos: nat, count: nat, copies: bool) returns (r: ReadResult)
      requires Valid() && order == 0
      modifies this, slab, Repr
      ensures Valid() && Grown() && fresh(Repr - old(Repr)) && old(Repr) <= Repr && file == old(file)
      ensures r == if !copies && pos <= size && Block(pageSize, pos) in file.pages then BadAddressRead
                   else Bytes(file.Read(pageSize, pos, count))
    {
      if pos > size {
        return Bytes([]);
      }
      var n := count;
      if pos + n > size {
        n := size - pos;
      }
      var page, qPos := Lookup(pos);
      if page == null {
        return Bytes([]);
      }
      if n > pageSize - qPos {
        n := pageSize - qPos;
      }
      if !copies {
        return BadAddressRead;
      }
      assert page[..] == file.pages[Block(pageSize, pos)];
      assert page[qPos..qPos + n] == page[..][qPos..qPos + n];
      r := Bytes(page[qPos..qPos + n]);
    }

    /** The page of a position, with everything on the way to it; null if an allocation fails. */
    method Obtain(pos: nat) returns (page: array?<byte>, qPos: nat)
      requires Valid()
      modifies this, slab, Repr
      ensures Valid() && Grown() && fresh(Repr - old(Repr)) && old(Repr) <= Repr
      ensures qPos == Offset(pageSize, pos)
      ensures slab.refused == old(slab.refused) + (if page == null then 1 else 0)
      ensures var n := Block(pageSize, pos);
              if page == null then file == old(file)
              else n in pages && page == pages[n] && file == old(file).WithPage(pageSize, n)
    {
      var item, sPos;
      item, sPos, qPos := Find(pos);
      var dptr := Follow(item);
      var table := ObtainTable(item, dptr);
      if table == null {
        return null, qPos;
      }
      page := ObtainPage(Block(pageSize, pos), sPos, table);
    }

    /** Only page `n` has changed, and that from `at` on. */
    twostate predicate Patched(n: nat, at: nat, chunk: seq<byte>)
      reads this, slab, Repr
    {
      && nodes == old(nodes) && pages == old(pages) && Repr == old(Repr)
      && vmas == old(vmas) && order == old(order) && qset == old(qset) && mapped == old(mapped)
      && unchanged(slab)
      && n in pages && pages[n] in Repr && at + |chunk| <= pages[n].Length
      && pages[n][..] == Splice(old(pages[n][..]), at, chunk)
      && forall o :: o in Repr && o != pages[n] ==> unchanged(o)
    }

    twostate lemma ShapeKept(new n: nat, new at: nat, new chunk: seq<byte>)
      requires old(Valid()) && Patched(n, at, chunk)
      ensures Linked() && Paged() && Alive() && Steady()
    {
      forall i | 0 <= i < |nodes| ensures NodeOk(i) && Tab(i) == old(Tab(i)) && TabKept(i) {
        assert old(NodeOk(i));
      }
      forall m: nat ensures PageOk(m) {
        assert old(PageOk(m));
        var k := CountOff(qset, m);
        assert k < |nodes| ==> TabKept(k);
      }
    }

    twostate lemma StoredPatched(new pos: nat, new chunk: seq<byte>)
      requires old(Stored()) && 0 < pageSize && Patched(Block(pageSize, pos), Offset(pageSize, pos), chunk)
      requires old(forall n, m :: n in pages && m in pages && n != m ==> pages[n] != pages[m])
      requires |chunk| <= Room(pageSize, pos)
      requires file.pages == old(file).Patch(pageSize, pos, chunk).pages && size == file.size
      ensures Stored()
    {
      forall m | m in pages ensures pages[m] in Repr && pages[m][..] == file.pages[m] {
        if m != Block(pageSize, pos) {
          assert unchanged(pages[m]);
        }
      }
    }

    /** Accept what fits into the page of `pos`, which exists; `landed` is what came of the copy. */
    method PatchPage(pos: nat, page: Quantum, qPos: nat, data: seq<byte>, copies: bool)
      returns (r: WriteResult, ghost landed: seq<byte>)
      requires this !in Repr && slab !in Repr && 0 < pageSize && file.Valid(pageSize) && size == file.size
      ensures r.Accepted? == copies
      requires qPos == Offset(pageSize, pos) && page.Length == pageSize && page in Repr
      requires Block(pageSize, pos) in pages && page == pages[Block(pageSize, pos)]
      modifies page, this
      ensures Patched(Block(pageSize, pos), qPos, landed) && |landed| <= Min(|data|, Room(pageSize, pos))
      ensures size == file.size
      ensures match r
              case Accepted(k) => k == |landed| && file == old(file).Write(pageSize, pos, data)
                                  && landed == data[..Min(|data|, Room(pageSize, pos))]
              case BadAddress => file == old(file).Patch(pageSize, pos, landed)
              case NoMemory => false
    {
      var k := |data|;
      if k > pageSize - qPos {
        k := pageSize - qPos;
      }
      landed := ScullDevice.Device.CopyFromUser(page, qPos, data[..k], copies);
      if !copies {
        file := file.Patch(pageSize, pos, landed);
        return BadAddress, landed;
      }
      if size < pos + k {
        size := pos + k;
      }
      file := file.Write(pageSize, pos, data);
      r := Accepted(k);
    }

    method StoreChunk(pos: nat, page: Quantum, qPos: nat, data: seq<byte>, copies: bool)
      returns (r: WriteResult, ghost landed: seq<byte>)
      requires Valid() && qPos == Offset(pageSize, pos)
      requires Block(pageSize, pos) in pages && page == pages[Block(pageSize, pos)]
      modifies page, this
      ensures Valid() && Grown() && Repr == old(Repr) && |landed| <= Room(pageSize, pos)
      ensures r.Accepted? == copies
      ensures match r
              case Accepted(k) => k == Min(|data|, Room(pageSize, pos)) && file == old(file).Write(pageSize, pos, data)
              case BadAddress => file == old(file).Patch(pageSize, pos, landed)
              case NoMemory => false
    {
      r, landed := PatchPage(pos, page, qPos, data, copies);
      ShapeKept(Block(pageSize, pos), qPos, landed);
      StoredPatched(pos, landed);
    }

    method Write(pos: nat, data: seq<byte>, copies: bool) returns (r: WriteResult, ghost landed: seq<byte>)
      requires Valid() && order == 0
      modifies this, slab, Repr
      ensures Valid() && Grown() && fresh(Repr - old(Repr)) && old(Repr) <= Repr && |landed| <= Room(pageSize, pos)
      ensures slab.refused == old(slab.refused) + (if r.NoMemory? then 1 else 0)
      ensures !r.NoMemory? ==> r.Accepted? == copies
      ensures match r
              case Accepted(k) => k == Min(|data|, Room(pageSize, pos)) && file == old(file).Write(pageSize, pos, data)
              case BadAddress => file == old(file).Patch(pageSize, pos, landed)
              case NoMemory => file == old(file)
    {
      landed := [];
      var page, qPos := Obtain(pos);
      if page == null {
        return NoMemory, landed;
      }
      PatchAgain(old(file), pageSize, pos, data);
      r, landed := StoreChunk(pos, page, qPos, data, copies);
    }

    // ---------------------------------------------------------------- mapping

    /** Count items off the page number until it falls into one, or the list ends. */
    method CountDown(n: nat) returns (page: array?<byte>)
      requires Valid()
      ensures page == Page(n)
    {
      var offset: nat := n;
      ghost var i: nat := 0;
      var ptr: QSet? := head;
      while ptr != null && offset >= qset
        invariant i <= |nodes| && ptr == if i < |nodes| then nodes[i] else null
        invariant CountOff(qset, n) == i + CountOff(qset, offset) && LeftOver(qset, n) == LeftOver(qset, offset)
        decreases offset
      {
        assert NodeOk(i);
        ptr := ptr.next;
        offset := offset - qset;
        i := i + 1;
      }
      assert PageOk(n);
      page := null;
      if ptr != null {
        assert NodeOk(i);
        if ptr.data != null {
          page := ptr.data[offset];
        }
      }
    }

    /** A page fault on a mapping. */
    method Nopage(address: nat) returns (page: array?<byte>)
      requires Valid() && vmas > 0
      modifies this`mapped
      ensures Valid()
      ensures page == if address < size then Page(Block(pageSize, address)) else null
      ensures mapped == if page == null then old(mapped) else old(mapped)[Block(pageSize, address) := page]
    {
      if address >= size {
        return null;
      }
      CountOffIsDivision(pageSize, address);
      var offset := address / pageSize;
      page := CountDown(offset);
      if page != null {
        mapped := mapped[offset := page];
      }
    }

    /** What a fault hands out is what reads return, byte for byte, and there is a hole for both or for neither. */
    lemma FaultMatchesRead(pos: nat, count: nat)
      requires Valid() && pos < size && 0 < count
      ensures var page, bytes := Page(Block(pageSize, pos)), file.Read(pageSize, pos, count);
              && (page == null <==> bytes == [])
              && (page != null ==>
                    && Offset(pageSize, pos) + |bytes| <= page.Length
                    && bytes == page[Offset(pageSize, pos)..Offset(pageSize, pos) + |bytes|])
    {
    }

    method Mmap() returns (ok: bool)
      requires Valid()
      modifies this`vmas
      ensures Valid()
      ensures ok <==> order == 0
      ensures vmas == if ok then old(vmas) + 1 else old(vmas)
    {
      if order != 0 {
        return false;
      }
      VmaOpen();
      ok := true;
    }

    /** One more mapping, by mmap or because a process with a mapping forks. */
    method VmaOpen()
      requires Valid() && order == 0
      modifies this`vmas
      ensures Valid() && vmas == old(vmas) + 1
    {
      vmas := vmas + 1;
    }

    method VmaClose()
      requires Valid() && vmas > 0
      modifies this`vmas, this`mapped
      ensures Valid() && vmas == old(vmas) - 1
      ensures vmas > 0 ==> mapped == old(mapped)
    {
      vmas := vmas - 1;
      if vmas == 0 {
        mapped := map[];
      }
    }

    // ---------------------------------------------------------------- trimming

    ghost function ItemsBelow(n: nat): set<QSet>
      requires n <= |nodes|
      reads this
    {
      set i | 0 < i < n :: nodes[i]
    }

    ghost function PagesBelow(i: nat): set<Quantum>
      requires 0 < qset
      reads this
    {
      set n | n in pages && CountOff(qset, n) < i :: pages[n]
    }

    /** The pages in the first `m` slots of item `i`. */
    ghost function PagesOf(i: nat, m: nat): set<Quantum>
      requires 0 < qset
      reads this
    {
      set n | n in pages && CountOff(qset, n) == i && LeftOver(qset, n) < m :: pages[n]
    }

    lemma OnePageMore(i: nat, j: nat)
      requires 0 < qset && j < qset
      ensures var n := Number(qset, i, j);
              PagesOf(i, j + 1) == PagesOf(i, j) + if n in pages then {pages[n]} else {}
    {
      NumberBack(qset, i, j);
      forall n | n in pages && CountOff(qset, n) == i && LeftOver(qset, n) == j ensures n == Number(qset, i, j) {
        NumberOf(qset, n);
      }
    }

    /** Free the pages of item `i`, each exactly once. */
    method FreePages(ghost i: nat, table: Table)
      requires 0 < qset && table.Length == qset && forall j: nat :: j < qset ==> table[j] == Page(Number(qset, i, j))
      requires forall n, m :: n in pages && m in pages && n != m ==> pages[n] != pages[m]
      requires PagesOf(i, qset) <= slab.quanta
      modifies slab
      ensures slab.quanta == old(slab.quanta) - PagesOf(i, qset)
      ensures slab.items == old(slab.items) && slab.tables == old(slab.tables)
    {
      var j := 0;
      while j < qset
        invariant 0 <= j <= qset
        invariant slab.quanta == old(slab.quanta) - PagesOf(i, j)
        invariant slab.items == old(slab.items) && slab.tables == old(slab.tables)
      {
        ghost var n := Number(qset, i, j);
        assert table[j] == Page(n);
        NumberBack(qset, i, j);
        OnePageMore(i, j);
        assert n in pages ==> pages[n] in PagesOf(i, qset);
        if table[j] != null {
          slab.KfreeQuantum(table[j]);
        }
        j := j + 1;
      }
    }

    ghost function TablesBelow(n: nat): set<Table>
      requires n <= |nodes|
      reads this, Repr
    {
      set i | 0 <= i < n && Tab(i) != null :: Tab(i)
    }

    /** Free item `i` with all it points to, each exactly once; the head itself is part of the device and stays. */
    method FreeItem(ghost i: nat, item: QSet) returns (next: QSet?)
      requires 0 < qset && i < |nodes| && item == nodes[i] && (item == head <==> i == 0)
      requires item.data != null ==>
                 && item.data.Length == qset && item.data in slab.tables
                 && forall j: nat :: j < qset ==> item.data[j] == Page(Number(qset, i, j))
      requires item.data == null ==> PagesOf(i, qset) == {}
      requires forall n, m :: n in pages && m in pages && n != m ==> pages[n] != pages[m]
      requires (i > 0 ==> item in slab.items) && PagesOf(i, qset) <= slab.quanta
      modifies slab, item`data
      ensures next == item.next && item.data == null
      ensures slab.items == old(slab.items) - (if i > 0 then {item} else {})
      ensures slab.tables == old(slab.tables) - (if old(item.data) != null then {old(item.data)} else {})
      ensures slab.quanta == old(slab.quanta) - PagesOf(i, qset)
    {
      if item.data != null {
        FreePages(i, item.data);
        slab.KfreeTable(item.data);
        item.data := null;
      }
      next := item.next;
      if item != head {
        slab.KfreeItem(item);
      }
    }

    /** The first `n` items and all they point to have been freed, nothing else has changed. */
    twostate predicate Freed(n: nat)
      requires nodes == old(nodes) && n <= |nodes| && 0 < qset
      reads this, slab, nodes, Repr
    {
      && unchanged(this)
      && slab.items == old(slab.items) - ItemsBelow(n)
      && slab.tables == old(slab.tables) - old(TablesBelow(n))
      && slab.quanta == old(slab.quanta) - PagesBelow(n)
      && (0 < n ==> nodes[0].data == null)
      && (forall i :: n <= i < |nodes| ==> unchanged(nodes[i]))
      && (forall i :: 0 <= i < |nodes| && old(Tab(i)) != null ==> old(Tab(i)) in Repr && unchanged(old(Tab(i))))
    }

    /** Nothing of item `n` has been freed before its turn. */
    twostate lemma ItemIsWhole(new n: nat)
      requires old(Valid()) && nodes == old(nodes) && n < |nodes| && 0 < qset && Freed(n)
      ensures nodes[n].next == (if n + 1 < |nodes| then nodes[n + 1] else null) && (nodes[n] == head <==> n == 0)
      ensures nodes[n].data == old(Tab(n))
      ensures nodes[n].data != null ==>
                && nodes[n].data.Length == qset && nodes[n].data in slab.tables
                && forall j: nat :: j < qset ==> nodes[n].data[j] == Page(Number(qset, n, j))
      ensures nodes[n].data == null ==> PagesOf(n, qset) == {}
      ensures forall k, m :: k in pages && m in pages && k != m ==> pages[k] != pages[m]
      ensures (n > 0 ==> nodes[n] in slab.items) && PagesOf(n, qset) <= slab.quanta
    {
      assert old(NodeOk(n));
      forall j: nat | j < qset && nodes[n].data != null ensures nodes[n].data[j] == Page(Number(qset, n, j)) {
        NumberBack(qset, n, j);
        assert old(PageOk(Number(qset, n, j)));
      }
      forall k | k in pages && CountOff(qset, k) == n ensures nodes[n].data != null {
        assert old(PageOk(k));
      }
    }

    /** What is to be freed with one more item. */
    twostate lemma BelowNext(new n: nat)
      requires nodes == old(nodes) && n < |nodes| && 0 < qset
      ensures ItemsBelow(n + 1) == ItemsBelow(n) + if n > 0 then {nodes[n]} else {}
      ensures old(TablesBelow(n + 1)) == old(TablesBelow(n)) + if old(Tab(n)) != null then {old(Tab(n))} else {}
      ensures PagesBelow(n + 1) == PagesBelow(n) + PagesOf(n, qset)
    {
    }

    /** The whole structure is below its end. */
    lemma BelowEnd()
      requires Valid()
      ensures PagesBelow(|nodes|) == pages.Values
      ensures ItemsBelow(0) == {} && TablesBelow(0) == {} && PagesBelow(0) == {}
      ensures forall i :: 0 <= i < |nodes| ==> nodes[i] in Repr && (Tab(i) != null ==> Tab(i) in Repr)
    {
      forall i | 0 <= i < |nodes| ensures nodes[i] in Repr && (Tab(i) != null ==> Tab(i) in Repr) {
        assert NodeOk(i);
      }
      forall q | q in pages.Values ensures q in PagesBelow(|nodes|) {
        var n :| n in pages && pages[n] == q;
        assert PageOk(n);
      }
    }

    method FreeAll()
      requires Valid()
      modifies slab, nodes
      ensures unchanged(this) && head.data == null
      ensures slab.items == old(slab.items) - ItemsBelow(|nodes|)
      ensures slab.tables == old(slab.tables) - old(TablesBelow(|nodes|))
      ensures slab.quanta == old(slab.quanta) - pages.Values
    {
      BelowEnd();
      var dptr: QSet? := head;
      ghost var n := 0;
      while dptr != null
        invariant nodes == old(nodes) && n <= |nodes| && 0 < qset && dptr == if n < |nodes| then nodes[n] else null
        invariant Freed(n)
        decreases |nodes| - n
      {
        ItemIsWhole(n);
        BelowNext(n);
        dptr := FreeItem(n, dptr);
        n := n + 1;
      }
    }

    /** Free everything and take over the settings for new data, unless the device is mapped. */
    method Trim(newQset: nat, newOrder: nat) returns (busy: bool)
      requires Valid() && 0 < newQset
      modifies this, slab, nodes
      ensures Valid() && Repr <= old(Repr) && (busy <==> old(vmas) > 0)
      ensures busy ==> unchanged(this) && unchanged(slab) && forall i :: 0 <= i < |nodes| ==> unchanged(nodes[i])
      ensures !busy ==>
                && file == PageFile(0, map[]) && nodes == [head] && qset == newQset && order == newOrder && vmas == 0
                && slab.items == old(slab.items) - old(ItemsBelow(|nodes|))
                && slab.tables == old(slab.tables) - old(TablesBelow(|nodes|))
                && slab.quanta == old(slab.quanta) - old(pages).Values
    {
      if vmas > 0 {
        return true;
      }
      assert NodeOk(0);
      FreeAll();
      size, qset, order := 0, newQset, newOrder;
      head.next := null;
      nodes, pages, file, Repr := [head], map[], PageFile(0, map[]), {head};
      busy := false;
    }
  }

  /** Providing the page first makes no difference to what a write does. */
  lemma PatchAgain(f: PageFile, pageSize: nat, pos: nat, data: seq<byte>)
    requires f.Valid(pageSize)
    ensures var g := f.WithPage(pageSize, Block(pageSize, pos));
            && g.Write(pageSize, pos, data) == f.Write(pageSize, pos, data)
            && forall chunk :: |chunk| <= Room(pageSize, pos) ==>
                 g.Patch(pageSize, pos, chunk) == f.Patch(pageSize, pos, chunk)
  {
  }
}
