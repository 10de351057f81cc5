/**
 The doubly linked list of list.c: it holds pointers, compared as pointers, and is meant to hold
 each at most once.  The operations on linked nodes are proved to do what plain functions on the
 sequence of held pointers do, and what a user of the list relies on is proved of those.
 */
module PointerList {
  /** A pointer to the user's data. */
  type Data = nat

  const NULL: Data := 0

  datatype ListError = Ok | InsufficientMemory | AlreadyInList | NotInList

  // ---------------------------------------------------------------- on sequences

  /** Where `x` is, or the length. */
  function Find(s: seq<Data>, x: Data): (i: nat)
    ensures i <= |s| && (i < |s| <==> x in s) && (i < |s| ==> s[i] == x)
    ensures forall k :: 0 <= k < i ==> s[k] != x
  {
    if s == [] || s[0] == x then 0 else Find(s[1..], x) + 1
  }

  /** Can the list find `x`?  It never finds the null pointer, even if it holds it. */
  predicate Has(s: seq<Data>, x: Data) {
    x != NULL && x in s
  }

  /** No pointer but the null pointer is held twice. */
  ghost predicate Distinct(s: seq<Data>) {
    forall i, j :: 0 <= i < j < |s| && s[i] == s[j] ==> s[i] == NULL
  }

  /** Inserting after `ref`; an empty list takes anything.  `memory` says whether there is memory for one more node. */
  function Inserted(s: seq<Data>, data: Data, ref: Data, memory: bool): (ListError, seq<Data>) {
    if Has(s, data) then (AlreadyInList, s)
    else if !memory then (InsufficientMemory, s)
    else if s == [] then (Ok, [data])
    else if !Has(s, ref) then (NotInList, s)
    else
      var i := Find(s, ref);
      (Ok, s[..i + 1] + [data] + s[i + 1..])
  }

  function Removed(s: seq<Data>, data: Data): (ListError, seq<Data>) {
    if !Has(s, data) then (NotInList, s)
    else
      var i := Find(s, data);
      (Ok, s[..i] + s[i + 1..])
  }

  function Next(s: seq<Data>, ref: Data): Data {
    if !Has(s, ref) || Find(s, ref) == |s| - 1 then NULL else s[Find(s, ref) + 1]
  }

  function Prev(s: seq<Data>, ref: Data): Data {
    if !Has(s, ref) || Find(s, ref) == 0 then NULL else s[Find(s, ref) - 1]
  }

  function First(s: seq<Data>): Data {
    if s == [] then NULL else s[0]
  }

  function Last(s: seq<Data>): Data {
    if s == [] then NULL else s[|s| - 1]
  }

  lemma FindAt(s: seq<Data>, i: nat)
    requires Distinct(s) && i < |s| && s[i] != NULL
    ensures Find(s, s[i]) == i
  {
  }

  lemma DistinctWith(s: seq<Data>, i: nat, x: Data)
    requires Distinct(s) && i < |s| && !Has(s, x)
    ensures Distinct(s[..i + 1] + [x] + s[i + 1..])
  {
  }

  lemma DistinctWithout(s: seq<Data>, i: nat)
    requires Distinct(s) && i < |s|
    ensures Distinct(s[..i] + s[i + 1..])
  {
  }

  /** Neither insertion nor removal makes anything but the null pointer occur twice. */
  lemma StaysDistinct(s: seq<Data>, data: Data, ref: Data, memory: bool)
    requires Distinct(s)
    ensures Distinct(Inserted(s, data, ref, memory).1) && Distinct(Removed(s, data).1)
  {
  }

  /** `t` is `s` with `x` put in before position `i`. */
  ghost predicate WithAt(s: seq<Data>, x: Data, i: nat, t: seq<Data>) {
    i <= |s| && t == s[..i] + [x] + s[i..]
  }

  /** What an insertion answers, and what it leaves of the list. */
  lemma InsertAnswers(s: seq<Data>, data: Data, ref: Data, memory: bool)
    ensures var (r, t) := Inserted(s, data, ref, memory);
            var held, lost := data != NULL && data in s, s != [] && (ref == NULL || ref !in s);
            && (r == AlreadyInList <==> held)
            && (r == InsufficientMemory <==> !held && !memory)
            && (r == NotInList <==> !held && memory && lost)
            && (r != Ok ==> t == s)
            && (r == Ok ==> exists i: nat ::
                  WithAt(s, data, i, t) && (s == [] || (0 < i && s[i - 1] == ref && ref !in s[..i - 1])))
  {
    var (r, t) := Inserted(s, data, ref, memory);
    if r == Ok {
      assert WithAt(s, data, if s == [] then 0 else Find(s, ref) + 1, t);
    }
  }

  /** What a removal answers, and what it leaves of the list. */
  lemma RemoveAnswers(s: seq<Data>, data: Data)
    ensures var (r, t) := Removed(s, data);
            && r == (if data != NULL && data in s then Ok else NotInList)
            && (r != Ok ==> t == s)
            && (r == Ok ==> exists i: nat :: WithAt(t, data, i, s) && data !in s[..i])
  {
    var (r, t) := Removed(s, data);
    if r == Ok {
      var i := Find(s, data);
      assert t[..i] == s[..i] && t[i..] == s[i + 1..];
      assert WithAt(t, data, i, s);
    }
  }

  /** The neighbours of an element are those next to it; what the list does not find has none. */
  lemma NeighboursAt(s: seq<Data>, x: Data, i: nat)
    requires Distinct(s)
    ensures x == NULL || x !in s ==> Next(s, x) == Prev(s, x) == NULL
    ensures i < |s| && s[i] == x != NULL ==>
              && Next(s, x) == (if i + 1 < |s| then s[i + 1] else NULL)
              && Prev(s, x) == (if 0 < i then s[i - 1] else NULL)
  {
  }

  /** What was inserted comes right after its reference and before what came there; removing it undoes the insertion. */
  lemma InsertedIsNext(s: seq<Data>, data: Data, ref: Data)
    requires Distinct(s) && data != NULL && s != [] && Inserted(s, data, ref, true).0.Ok?
    ensures var t := Inserted(s, data, ref, true).1;
            && Next(t, ref) == data && Next(t, data) == Next(s, ref) && Prev(t, data) == ref
            && Removed(t, data) == (Ok, s)
  {
    var i := Find(s, ref);
    var t := Inserted(s, data, ref, true).1;
    StaysDistinct(s, data, ref, true);
    FindAt(t, i);
    FindAt(t, i + 1);
    assert t[..i + 1] + t[i + 2..] == s;
  }

  /** The neighbour of the neighbour is the element itself. */
  lemma NextPrev(s: seq<Data>, x: Data)
    requires Distinct(s) && NULL !in s && x in s
    ensures Next(s, x) != NULL ==> Prev(s, Next(s, x)) == x
    ensures Prev(s, x) != NULL ==> Next(s, Prev(s, x)) == x
    ensures Next(s, x) == NULL <==> x == Last(s)
    ensures Prev(s, x) == NULL <==> x == First(s)
  {
  }

  /** Following the next element until there is none. */
  function Walk(s: seq<Data>, x: Data, left: nat): seq<Data>
    decreases left
  {
    if x == NULL || left == 0 then [] else [x] + Walk(s, Next(s, x), left - 1)
  }

  lemma {:induction false} WalkFrom(s: seq<Data>, i: nat, left: nat)
    requires Distinct(s) && NULL !in s && i < |s| && |s| - i <= left
    ensures Walk(s, s[i], left) == s[i..]
    decreases |s| - i
  {
    FindAt(s, i);
    if i + 1 < |s| {
      WalkFrom(s, i + 1, left - 1);
    }
  }

  /** Walking from the first element visits every element once, in order, and then stops, however long one goes on. */
  lemma WalkVisitsAll(s: seq<Data>, left: nat)
    requires Distinct(s) && NULL !in s && |s| <= left
    ensures Walk(s, First(s), left) == s
  {
    if s != [] {
      WalkFrom(s, 0, left);
    }
  }

  // ---------------------------------------------------------------- runs

  datatype Op = Insert(data: Data, ref: Data) | Append(data: Data) | Remove(data: Data)

  /** What an operation makes of the list. */
  function Apply(s: seq<Data>, op: Op, memory: bool): seq<Data> {
    match op
    case Insert(data, ref) => Inserted(s, data, ref, memory).1
    case Append(data) => Inserted(s, data, Last(s), memory).1
    case Remove(data) => Removed(s, data).1
  }

  function Run(ops: seq<(Op, bool)>): seq<Data> {
    if ops == [] then [] else Apply(Run(ops[..|ops| - 1]), ops[|ops| - 1].0, ops[|ops| - 1].1)
  }

  lemma ApplyStaysDistinct(s: seq<Data>, op: Op, memory: bool)
    requires Distinct(s)
    ensures Distinct(Apply(s, op, memory))
    ensures op.data != NULL && NULL !in s ==> NULL !in Apply(s, op, memory)
  {
    StaysDistinct(s, op.data, if op.Insert? then op.ref else Last(s), memory);
  }

  /** No sequence of operations makes a pointer occur twice, and the null pointer only gets in by being inserted. */
  lemma {:induction false} RunsStayDistinct(ops: seq<(Op, bool)>)
    ensures Distinct(Run(ops))
    ensures (forall i :: 0 <= i < |ops| ==> ops[i].0.data != NULL) ==> NULL !in Run(ops)
  {
    if ops != [] {
      var n := |ops| - 1;
      RunsStayDistinct(ops[..n]);
      ApplyStaysDistinct(Run(ops[..n]), ops[n].0, ops[n].1);
    }
  }

  /** The loop that deletes a list: `k` times remove what is first. */
  function Deleted(s: seq<Data>, k: nat): seq<Data> {
    if k == 0 || s == [] then s else Deleted(Removed(s, s[0]).1, k - 1)
  }

  lemma {:induction false} DeletedStep(s: seq<Data>, k: nat)
    ensures NULL in s ==> NULL in Deleted(s, k)
    ensures NULL !in s && |s| <= k ==> Deleted(s, k) == []
    decreases k
  {
    if k != 0 && s != [] {
      DeletedStep(Removed(s, s[0]).1, k - 1);
    }
  }

  /** Deleting a list comes to an end exactly if the list does not hold the null pointer. */
  lemma DeleteEndsExactly(s: seq<Data>)
    ensures (exists k: nat :: Deleted(s, k) == []) <==> NULL !in s
  {
    DeletedStep(s, |s|);
    if k: nat :| Deleted(s, k) == [] {
      DeletedStep(s, k);
    }
  }

  /** Appending the null pointer to a new list is accepted, and deleting that list never ends. */
  lemma AppendedNullStays()
    ensures Inserted([], NULL, Last([]), true).0 == Ok && Run([(Append(NULL), true)]) == [NULL]
    ensures forall k: nat :: Deleted(Run([(Append(NULL), true)]), k) == [NULL]
  {
    var ops := [(Append(NULL), true)];
    assert Run(ops[..0]) == [];
    forall k: nat ensures Deleted([NULL], k) == [NULL] {
      OnlyNullStays(k);
    }
  }

  lemma {:induction false} OnlyNullStays(k: nat)
    ensures Deleted([NULL], k) == [NULL]
  {
    if k != 0 {
      OnlyNullStays(k - 1);
    }
  }

  // ---------------------------------------------------------------- on linked nodes

  class Node {
    var data: Data
    var next: Node?
    var prev: Node?

    constructor (data: Data)
      ensures this.data == data && next == null && prev == null
    {
      this.data, next, prev := data, null, null;
    }
  }

  class List {
    var size: nat
    var head: Node?
    var tail: Node?
    ghost var nodes: seq<Node>
    ghost var Contents: seq<Data>
    ghost var Repr: set<object>

    ghost predicate NodeOk(i: nat)
      requires i < |nodes| == |Contents|
      reads this, Repr
    {
      && nodes[i] in Repr && nodes[i].data == Contents[i]
      && nodes[i].next == (if i + 1 < |nodes| then nodes[i + 1] else null)
      && nodes[i].prev == (if i > 0 then nodes[i - 1] else null)
    }

    ghost predicate Valid()
      reads this, Repr
    {
      && this !in Repr && |nodes| == |Contents| == size
      && head == (if nodes == [] then null else nodes[0])
      && tail == (if nodes == [] then null else nodes[|nodes| - 1])
      && (forall i :: 0 <= i < |nodes| ==> NodeOk(i))
      && (forall i, j :: 0 <= i < j < |nodes| ==> nodes[i] != nodes[j])
      && Distinct(Contents)
    }

    constructor ()
      ensures Valid() && Contents == [] && Repr == {}
    {
      size, head, tail := 0, null, null;
      nodes, Contents, Repr := [], [], {};
    }

    method Head() returns (data: Data)
      requires Valid()
      ensures data == First(Contents)
    {
      if head == null {
        return NULL;
      }
      assert NodeOk(0);
      data := head.data;
    }

    method Tail() returns (data: Data)
      requires Valid()
      ensures data == Last(Contents)
    {
      if tail == null {
        return NULL;
      }
      assert NodeOk(|nodes| - 1);
      data := tail.data;
    }

    /** The node that holds `data`, if the list can find it. */
    method FindPos(data: Data) returns (pos: Node?)
      requires Valid()
      ensures pos == if Has(Contents, data) then nodes[Find(Contents, data)] else null
    {
      if data == NULL {
        return null;
      }
      pos := head;
      ghost var i: nat := 0;
      while pos != null && pos.data != data
        invariant i <= |nodes| && pos == if i < |nodes| then nodes[i] else null
        invariant data !in Contents[..i]
        decreases |nodes| - i
      {
        assert NodeOk(i);
        pos := pos.next;
        i := i + 1;
      }
      assert pos != null ==> NodeOk(i);
    }

    method HasMember(data: Data) returns (has: bool)
      requires Valid()
      ensures has <==> Has(Contents, data)
    {
      var pos := FindPos(data);
      has := pos != null;
    }

    method NextData(ref: Data) returns (data: Data)
      requires Valid()
      ensures data == Next(Contents, ref)
    {
      var pos := FindPos(ref);
      ghost var i := Find(Contents, ref);
      if pos == null || pos == tail {
        return NULL;
      }
      assert NodeOk(i) && NodeOk(i + 1);
      data := pos.next.data;
    }

    method PrevData(ref: Data) returns (data: Data)
      requires Valid()
      ensures data == Prev(Contents, ref)
    {
      var pos := FindPos(ref);
      ghost var i := Find(Contents, ref);
      if pos == null || pos == head {
        return NULL;
      }
      assert NodeOk(i) && NodeOk(i - 1);
      data := pos.prev.data;
    }

    lemma Owned()
      requires Valid()
      ensures forall k :: 0 <= k < |nodes| ==> nodes[k] in Repr
    {
      forall k | 0 <= k < |nodes| ensures nodes[k] in Repr {
        assert NodeOk(k);
      }
    }

    twostate lemma Relinked(new i: nat, new node: Node)
      requires old(Valid()) && i < |old(nodes)| && node !in old(Repr) && Repr == old(Repr) + {node}
      requires nodes == old(nodes)[..i + 1] + [node] + old(nodes)[i + 1..]
      requires Contents == old(Contents)[..i + 1] + [node.data] + old(Contents)[i + 1..]
      requires forall k :: 0 <= k < |old(nodes)| ==>
                 && old(nodes)[k] in Repr && old(nodes)[k].data == old(nodes[k].data)
                 && (k != i ==> old(nodes)[k].next == old(nodes[k].next))
                 && (k != i + 1 ==> old(nodes)[k].prev == old(nodes[k].prev))
      requires old(nodes)[i].next == node && node.prev == old(nodes)[i]
      requires i + 1 < |old(nodes)| ==> old(nodes)[i + 1].prev == node
      requires node.next == if i + 1 < |old(nodes)| then old(nodes)[i + 1] else null
      ensures forall k :: 0 <= k < |nodes| ==> NodeOk(k)
      ensures forall k, l :: 0 <= k < l < |nodes| ==> nodes[k] != nodes[l]
    {
      forall k | 0 <= k < |old(nodes)| ensures old(nodes)[k] != node {
        assert old(NodeOk(k));
      }
      forall k | 0 <= k < |nodes| ensures NodeOk(k) {
        if k <= i {
          assert old(NodeOk(k));
        } else if k > i + 1 {
          assert old(NodeOk(k - 1));
        }
      }
    }

    /** Link a node in after `pos`. */
    method LinkAfter(ghost i: nat, pos: Node, node: Node)
      requires Valid() && i < |nodes| && pos == nodes[i] && node !in Repr
      requires node.next == null && node.prev == null && !Has(Contents, node.data)
      modifies this, Repr, node
      ensures Valid() && Repr == old(Repr) + {node}
      ensures Contents == old(Contents)[..i + 1] + [node.data] + old(Contents)[i + 1..] && node.data == old(node.data)
    {
      assert NodeOk(i) && (i + 1 < |nodes| ==> NodeOk(i + 1));
      Owned();
      if pos == tail {
        pos.next := node;
        node.prev := pos;
        tail := node;
      } else {
        node.next := pos.next;
        node.prev := pos;
        pos.next.prev := node;
        pos.next := node;
      }
      size := size + 1;
      nodes := nodes[..i + 1] + [node] + nodes[i + 1..];
      Contents := Contents[..i + 1] + [node.data] + Contents[i + 1..];
      Repr := Repr + {node};
      Relinked(i, node);
      DistinctWith(old(Contents), i, node.data);
    }

    method Insert(data: Data, ref: Data, memory: bool) returns (r: ListError)
      requires Valid()
      modifies this, Repr
      ensures Valid() && fresh(Repr - old(Repr))
      ensures (r, Contents) == Inserted(old(Contents), data, ref, memory)
    {
      var has := HasMember(data);
      if has {
        return AlreadyInList;
      }
      if !memory {
        return InsufficientMemory;
      }
      var node := new Node(data);
      if size == 0 {
        head, tail, size := node, node, 1;
        nodes, Contents, Repr := [node], [data], {node};
        return Ok;
      }
      var pos := FindPos(ref);
      if pos == null {
        return NotInList;
      }
      LinkAfter(Find(Contents, ref), pos, node);
      r := Ok;
    }

    method Append(data: Data, memory: bool) returns (r: ListError)
      requires Valid()
      modifies this, Repr
      ensures Valid() && fresh(Repr - old(Repr))
      ensures (r, Contents) == Inserted(old(Contents), data, Last(old(Contents)), memory)
    {
      if tail == null {
        r := Insert(data, NULL, memory);
      } else {
        var last := Tail();
        r := Insert(data, last, memory);
      }
    }

    twostate lemma Unlinked(new i: nat)
      requires old(Valid()) && i < |old(nodes)| && Repr == old(Repr) - {old(nodes)[i]}
      requires nodes == old(nodes)[..i] + old(nodes)[i + 1..]
      requires Contents == old(Contents)[..i] + old(Contents)[i + 1..]
      requires forall k :: 0 <= k < |old(nodes)| && k != i ==>
                 && old(nodes)[k].data == old(nodes[k].data)
                 && (k != i - 1 ==> old(nodes)[k].next == old(nodes[k].next))
                 && (k != i + 1 ==> old(nodes)[k].prev == old(nodes[k].prev))
      requires 0 < i ==> old(nodes)[i - 1].next == if i + 1 < |old(nodes)| then old(nodes)[i + 1] else null
      requires i + 1 < |old(nodes)| ==> old(nodes)[i + 1].prev == if 0 < i then old(nodes)[i - 1] else null
      ensures forall k :: 0 <= k < |nodes| ==> NodeOk(k)
      ensures forall k, l :: 0 <= k < l < |nodes| ==> nodes[k] != nodes[l]
    {
      forall k | 0 <= k < |nodes| ensures NodeOk(k) {
        if k < i {
          assert old(NodeOk(k));
        } else {
          assert old(NodeOk(k + 1));
        }
      }
    }

    /** Take a node out of the list. */
    method Unlink(ghost i: nat, pos: Node)
      requires Valid() && i < |nodes| && pos == nodes[i]
      modifies this, Repr
      ensures Valid() && Repr == old(Repr) - {pos}
      ensures Contents == old(Contents)[..i] + old(Contents)[i + 1..]
    {
      assert NodeOk(i) && (i + 1 < |nodes| ==> NodeOk(i + 1)) && (i > 0 ==> NodeOk(i - 1));
      Owned();
      if pos == head && pos == tail {
        head, tail, size := null, null, 0;
      } else {
        if pos == head {
          head := pos.next;
          pos.next.prev := null;
        } else if pos == tail {
          tail := pos.prev;
          pos.prev.next := null;
        } else {
          pos.next.prev := pos.prev;
          pos.prev.next := pos.next;
        }
        size := size - 1;
      }
      nodes := nodes[..i] + nodes[i + 1..];
      Contents := Contents[..i] + Contents[i + 1..];
      Repr := Repr - {pos};
      Unlinked(i);
      DistinctWithout(old(Contents), i);
    }

    method Remove(data: Data) returns (r: ListError)
      requires Valid()
      modifies this, Repr
      ensures Valid() && Repr <= old(Repr)
      ensures (r, Contents) == Removed(old(Contents), data)
    {
      var pos := FindPos(data);
      if pos == null {
        return NotInList;
      }
      Unlink(Find(Contents, data), pos);
      r := Ok;
    }

    /** The deleting loop cut off after `limit` rounds, on any list. */
    method DeleteRounds(limit: nat)
      requires Valid()
      modifies this, Repr
      ensures Valid() && Contents == Deleted(old(Contents), limit)
    {
      var pos, i := head, 0;
      while pos != null && i < limit
        invariant Valid() && pos == head && Repr <= old(Repr) && i <= limit
        invariant Deleted(Contents, limit - i) == Deleted(old(Contents), limit)
      {
        assert NodeOk(0);
        var _ := Remove(pos.data);
        pos := head;
        i := i + 1;
      }
    }

    /** Removing the first element over and over ends with an empty list; see `DeleteEndsExactly` for the null pointer. */
    method Delete()
      requires Valid() && NULL !in Contents
      modifies this, Repr
      ensures Valid() && Contents == []
    {
      var pos := head;
      while pos != null
        invariant Valid() && NULL !in Contents && pos == head && Repr <= old(Repr)
        decreases |Contents|
      {
        assert NodeOk(0);
        var _ := Remove(pos.data);
        pos := head;
      }
    }
  }
}
