/**
 Where a byte position lives in a list of pointer arrays: list item, slot in the item's array,
 offset in the block the slot points to.  scull and scullp compute it by nested division; here it
 is defined by counting off, which is shown to be the same and to number the blocks of a flat file.
 */
module Geometry {

  /** How many times `d` goes into `x`. */
  function CountOff(d: nat, x: nat): nat
    requires 0 < d
  {
    if x < d then 0 else CountOff(d, x - d) + 1
  }

  /** What is left then. */
  function LeftOver(d: nat, x: nat): (r: nat)
    requires 0 < d
    ensures r < d
  {
    if x < d then x else LeftOver(d, x - d)
  }

  /** The number of cell `j` of row `i`, in rows of `d` cells numbered through. */
  function Number(d: nat, i: nat, j: nat): nat {
    if i == 0 then j else Number(d, i - 1, j) + d
  }

  function Block(quantum: nat, pos: nat): nat
    requires 0 < quantum
  {
    CountOff(quantum, pos)
  }

  function Item(quantum: nat, qset: nat, pos: nat): nat
    requires 0 < quantum && 0 < qset
  {
    CountOff(qset, Block(quantum, pos))
  }

  function Slot(quantum: nat, qset: nat, pos: nat): (slot: nat)
    requires 0 < quantum && 0 < qset
    ensures slot < qset
  {
    LeftOver(qset, Block(quantum, pos))
  }

  function Offset(quantum: nat, pos: nat): (offset: nat)
    requires 0 < quantum
    ensures offset < quantum
  {
    LeftOver(quantum, pos)
  }

  /** How far it is from `pos` to the end of its block. */
  function Room(quantum: nat, pos: nat): (room: nat)
    requires 0 < quantum
    ensures 0 < room <= quantum
  {
    quantum - Offset(quantum, pos)
  }

  // ---------------------------------------------------------------- numbering

  lemma {:induction false} NumberOf(d: nat, x: nat)
    requires 0 < d
    ensures Number(d, CountOff(d, x), LeftOver(d, x)) == x
  {
    if x >= d {
      NumberOf(d, x - d);
    }
  }

  lemma {:induction false} NumberBack(d: nat, i: nat, j: nat)
    requires j < d
    ensures CountOff(d, Number(d, i, j)) == i && LeftOver(d, Number(d, i, j)) == j
  {
    if i > 0 {
      NumberBack(d, i - 1, j);
    }
  }

  /** Item and slot are a numbering of the blocks: no two share a number. */
  lemma NumberInjective(d: nat, i: nat, j: nat, k: nat, l: nat)
    requires j < d && l < d && Number(d, i, j) == Number(d, k, l)
    ensures i == k && j == l
  {
  }

  lemma {:induction false} NumberShift(d: nat, i: nat, j: nat, l: nat)
    ensures Number(d, i, j) - Number(d, i, l) == j - l
  {
    if i > 0 {
      NumberShift(d, i - 1, j, l);
    }
  }

  /** Two positions are in the same slot of the same item exactly when they are in the same block. */
  lemma SamePlace(quantum: nat, qset: nat, p: nat, r: nat)
    requires 0 < quantum && 0 < qset
    ensures Item(quantum, qset, p) == Item(quantum, qset, r) && Slot(quantum, qset, p) == Slot(quantum, qset, r)
            <==> Block(quantum, p) == Block(quantum, r)
    ensures Block(quantum, p) == Block(quantum, r) ==> p - r == Offset(quantum, p) - Offset(quantum, r)
  {
    NumberOf(qset, Block(quantum, p));
    NumberOf(qset, Block(quantum, r));
    NumberOf(quantum, p);
    NumberOf(quantum, r);
    NumberShift(quantum, Block(quantum, p), Offset(quantum, p), Offset(quantum, r));
  }

  /** The positions up to the end of the block stay in the block. */
  lemma {:induction false} WithinBlock(quantum: nat, p: nat, t: nat)
    requires 0 < quantum && t < Room(quantum, p)
    ensures Block(quantum, p + t) == Block(quantum, p) && Offset(quantum, p + t) == Offset(quantum, p) + t
    decreases p
  {
    if p >= quantum {
      WithinBlock(quantum, p - quantum, t);
    }
  }

  /** The position after the block starts the next one. */
  lemma {:induction false} NextBlock(quantum: nat, p: nat)
    requires 0 < quantum
    ensures Block(quantum, p + Room(quantum, p)) == Block(quantum, p) + 1
    ensures Offset(quantum, p + Room(quantum, p)) == 0
    decreases p
  {
    if p >= quantum {
      NextBlock(quantum, p - quantum);
    } else {
      assert p + Room(quantum, p) == quantum && CountOff(quantum, 0) == 0 && LeftOver(quantum, 0) == 0;
    }
  }

  lemma {:induction false} CountOffMonotone(d: nat, p: nat, r: nat)
    requires 0 < d && p <= r
    ensures CountOff(d, p) <= CountOff(d, r)
    decreases p
  {
    if p >= d {
      CountOffMonotone(d, p - d, r - d);
    }
  }

  lemma ItemMonotone(quantum: nat, qset: nat, p: nat, r: nat)
    requires 0 < quantum && 0 < qset && p <= r
    ensures Item(quantum, qset, p) <= Item(quantum, qset, r)
  {
    CountOffMonotone(quantum, p, r);
    CountOffMonotone(qset, Block(quantum, p), Block(quantum, r));
  }

  // ---------------------------------------------------------------- division

  lemma MulMonotone(a: int, b: int, d: nat)
    ensures a <= b ==> a * d <= b * d
    ensures (a + 1) * d == a * d + d
  {
  }

  lemma DivModUnique(x: nat, d: nat, a: nat, b: nat)
    requires b < d && x == a * d + b
    ensures x / d == a && x % d == b
  {
    var c := x / d;
    assert x == c * d + x % d;
    MulMonotone(a + 1, c, d);
    MulMonotone(c + 1, a, d);
    MulMonotone(a, c, d);
    MulMonotone(c, a, d);
  }

  lemma {:induction false} NumberIsProduct(d: nat, i: nat, j: nat)
    ensures Number(d, i, j) == i * d + j
  {
    if i > 0 {
      NumberIsProduct(d, i - 1, j);
      MulMonotone(i - 1, i, d);
    }
  }

  /** Counting off is division. */
  lemma CountOffIsDivision(d: nat, x: nat)
    requires 0 < d
    ensures CountOff(d, x) == x / d && LeftOver(d, x) == x % d
  {
    NumberOf(d, x);
    NumberIsProduct(d, CountOff(d, x), LeftOver(d, x));
    DivModUnique(x, d, CountOff(d, x), LeftOver(d, x));
  }

  lemma Regrouped(item: nat, qset: nat, slot: nat, quantum: nat)
    ensures (item * qset + slot) * quantum == item * (quantum * qset) + slot * quantum
  {
    assert (item * qset + slot) * quantum == (item * qset) * quantum + slot * quantum;
    assert (item * qset) * quantum == item * (quantum * qset);
  }

  lemma FitsItem(qset: nat, slot: nat, quantum: nat, offset: nat)
    requires slot < qset && offset < quantum
    ensures slot * quantum + offset < quantum * qset
  {
    MulMonotone(slot, slot, quantum);
    MulMonotone(slot + 1, qset, quantum);
    assert qset * quantum == quantum * qset;
  }

  lemma PositionAsProduct(quantum: nat, qset: nat, pos: nat)
    requires 0 < quantum && 0 < qset
    ensures pos == Item(quantum, qset, pos) * (quantum * qset) + (Slot(quantum, qset, pos) * quantum + Offset(quantum, pos))
  {
    NumberOf(quantum, pos);
    NumberIsProduct(quantum, Block(quantum, pos), Offset(quantum, pos));
    NumberOf(qset, Block(quantum, pos));
    NumberIsProduct(qset, Item(quantum, qset, pos), Slot(quantum, qset, pos));
    Regrouped(Item(quantum, qset, pos), qset, Slot(quantum, qset, pos), quantum);
  }

  /** Dividing the whole range into items first and an item into blocks next finds the same place. */
  lemma Locate(quantum: nat, qset: nat, pos: nat)
    requires 0 < quantum && 0 < qset
    ensures 0 < quantum * qset
    ensures pos / (quantum * qset) == Item(quantum, qset, pos)
    ensures (pos % (quantum * qset)) / quantum == Slot(quantum, qset, pos)
    ensures (pos % (quantum * qset)) % quantum == Offset(quantum, pos)
  {
    var item, slot, offset := Item(quantum, qset, pos), Slot(quantum, qset, pos), Offset(quantum, pos);
    PositionAsProduct(quantum, qset, pos);
    FitsItem(qset, slot, quantum, offset);
    var rest := slot * quantum + offset;
    DivModUnique(pos, quantum * qset, item, rest);
    DivModUnique(rest, quantum, slot, offset);
  }
}
