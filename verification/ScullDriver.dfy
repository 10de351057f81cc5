/**
 The scull driver: several devices over one allocator, the geometry that ioctl sets for the next
 trim, and positions in open files.  Each device is proved to hold what its history says.
 */
module ScullDriver {
  import opened Ring
  import opened Geometry
  import opened SparseFile
  import opened ScullDevice

  const SCULL_QUANTUM: nat := 4000
  const SCULL_QSET: nat := 1000

  datatype Which = QuantumSize | QsetSize

  datatype Command = Reset | Tell(which: Which, arg: nat) | Query(which: Which) | Shift(which: Which, arg: nat)

  datatype Reply = Value(v: nat) | NotPermitted

  datatype Sought = At(pos: nat) | Invalid

  /** What a write call adds to the history of its device. */
  function Outcome(r: WriteResult, pos: nat, data: seq<byte>): (events: seq<Event>)
    ensures |events| <= 1 && (events != [] ==> Sane(events[0]))
  {
    match r
    case Accepted(_) => [Wrote(pos, data)]
    case NoMemory => []
    case BadAddress => [Garbled(pos, |data|)]
  }

  function Applied(f: File, events: seq<Event>): File
    requires 0 < f.quantum && |events| <= 1
  {
    if events == [] then f else Apply(f, events[0])
  }

  lemma OutcomeIs(f: File, g: File, r: WriteResult, pos: nat, data: seq<byte>)
    requires 0 < f.quantum
    requires match r
             case Accepted(_) => g == f.Write(pos, data)
             case NoMemory => g == f
             case BadAddress => g == f.Garble(pos, |data|)
    ensures g == Applied(f, Outcome(r, pos, data))
  {
  }

  class Driver {
    const slab: Slab
    const devices: seq<Device>
    const firstQuantum: nat
    const firstQset: nat
    var quantum: nat
    var qset: nat
    ghost var history: seq<seq<Event>>

    ghost function Owned(): set<object>
      reads devices
    {
      set i, o | 0 <= i < |devices| && o in devices[i].Repr :: o
    }

    /** No two devices share anything. */
    ghost predicate Apart()
      reads devices
    {
      && (forall i, j :: 0 <= i < |devices| && 0 <= j < |devices| && i != j ==>
            devices[i] != devices[j] && devices[i].Repr !! devices[j].Repr)
      && (forall i, j :: 0 <= i < |devices| && 0 <= j < |devices| ==> devices[i] !in devices[j].Repr)
      && (forall i :: 0 <= i < |devices| ==> this !in devices[i].Repr && devices[i].slab == slab)
    }

    /** Device `i` is sound and holds what its history says. */
    ghost predicate Told(i: nat)
      requires i < |devices| && 0 < firstQuantum && 0 < firstQset && |history| == |devices|
      reads `history, devices[i], devices[i].slab, devices[i].Repr
    {
      && devices[i].Valid() && AllSane(history[i])
      && devices[i].file == Replay(firstQuantum, firstQset, history[i])
    }

    ghost predicate OwnsItem(i: nat, item: QSet)
      requires i < |devices|
      reads devices[i]
    {
      item in devices[i].nodes
    }

    ghost predicate OwnsTable(i: nat, table: Table)
      requires i < |devices|
      reads devices[i]
    {
      table in devices[i].arrs.Values
    }

    ghost predicate OwnsQuantum(i: nat, block: Quantum)
      requires i < |devices|
      reads devices[i]
    {
      block in devices[i].blks.Values
    }

    /** Whatever is allocated belongs to some device: nothing has been lost. */
    ghost predicate Accounted()
      reads slab, devices
    {
      && (forall x :: x in slab.items ==> exists i :: 0 <= i < |devices| && OwnsItem(i, x))
      && (forall x :: x in slab.tables ==> exists i :: 0 <= i < |devices| && OwnsTable(i, x))
      && (forall x :: x in slab.quanta ==> exists i :: 0 <= i < |devices| && OwnsQuantum(i, x))
    }

    ghost predicate Valid()
      reads this, slab, devices, Owned()
    {
      && 0 < firstQuantum && 0 < firstQset && 0 < quantum && 0 < qset && |history| == |devices|
      && Apart() && Accounted()
      && forall i :: 0 <= i < |devices| ==> Told(i)
    }

    /** The file device `i` holds. */
    ghost function FileOf(i: nat): (f: File)
      requires Valid() && i < |devices|
      reads this, slab, devices, Owned()
      ensures 0 < f.quantum && f == devices[i].file
    {
      assert Told(i);
      Replay(firstQuantum, firstQset, history[i])
    }

    /** Nothing of device `j` has been touched. */
    twostate predicate Spared(j: nat)
      requires j < |devices|
      reads devices[j], devices[j].Repr
    {
      unchanged(devices[j]) && forall o :: o in devices[j].Repr ==> unchanged(o)
    }

    twostate lemma AliveByGrowth(new j: nat)
      requires old(Valid()) && j < |devices| && Spared(j)
      requires old(slab.items) <= slab.items && old(slab.tables) <= slab.tables && old(slab.quanta) <= slab.quanta
      ensures devices[j].Alive()
    {
      assert old(Told(j));
    }

    twostate lemma AccountedByGrowth(new i: nat)
      requires old(Accounted()) && i < |devices|
      requires forall j :: 0 <= j < |devices| && j != i ==> Spared(j)
      requires devices[i].slab == slab && devices[i].Grown() && devices[i].NoLeak()
      ensures Accounted()
    {
      var d := devices[i];
      forall x | x in slab.items ensures exists j :: 0 <= j < |devices| && OwnsItem(j, x) {
        if x in old(slab.items) {
          var j :| 0 <= j < |devices| && old(OwnsItem(j, x));
          assert OwnsItem(j, x) by { if j != i { assert Spared(j); } }
        } else {
          assert OwnsItem(i, x);
        }
      }
      forall x | x in slab.tables ensures exists j :: 0 <= j < |devices| && OwnsTable(j, x) {
        if x in old(slab.tables) {
          var j :| 0 <= j < |devices| && old(OwnsTable(j, x));
          if j != i {
            assert Spared(j) && OwnsTable(j, x);
          } else {
            var k :| k in old(d.arrs) && old(d.arrs)[k] == x;
            assert d.arrs[k] == x && OwnsTable(i, x);
          }
        } else {
          assert OwnsTable(i, x);
        }
      }
      forall x | x in slab.quanta ensures exists j :: 0 <= j < |devices| && OwnsQuantum(j, x) {
        if x in old(slab.quanta) {
          var j :| 0 <= j < |devices| && old(OwnsQuantum(j, x));
          if j != i {
            assert Spared(j) && OwnsQuantum(j, x);
          } else {
            var k :| k in old(d.blks) && old(d.blks)[k] == x;
            assert d.blks[k] == x && OwnsQuantum(i, x);
          }
        } else {
          assert OwnsQuantum(i, x);
        }
      }
    }

    /** Nothing that device `j` owned is still allocated. */
    twostate predicate Emptied(j: nat)
      requires j < |devices|
      reads slab
    {
      && (forall x :: x in old(devices[j].nodes) ==> x !in slab.items)
      && (forall x :: x in old(devices[j].arrs).Values ==> x !in slab.tables)
      && (forall x :: x in old(devices[j].blks).Values ==> x !in slab.quanta)
    }

    twostate lemma AccountedStill()
      requires old(Accounted()) && forall j :: 0 <= j < |devices| ==> Spared(j) || Emptied(j)
      requires slab.items <= old(slab.items) && slab.tables <= old(slab.tables) && slab.quanta <= old(slab.quanta)
      ensures Accounted()
    {
      forall x | x in slab.items ensures exists j :: 0 <= j < |devices| && OwnsItem(j, x) {
        var j :| 0 <= j < |devices| && old(OwnsItem(j, x));
        assert Spared(j) && OwnsItem(j, x);
      }
      forall x | x in slab.tables ensures exists j :: 0 <= j < |devices| && OwnsTable(j, x) {
        var j :| 0 <= j < |devices| && old(OwnsTable(j, x));
        assert Spared(j) && OwnsTable(j, x);
      }
      forall x | x in slab.quanta ensures exists j :: 0 <= j < |devices| && OwnsQuantum(j, x) {
        var j :| 0 <= j < |devices| && old(OwnsQuantum(j, x));
        assert Spared(j) && OwnsQuantum(j, x);
      }
    }

    /** What happens to one device leaves the others alone. */
    twostate lemma OnlyOne(new i: nat)
      requires old(Valid()) && i < |devices| && |history| == |devices| && 0 < quantum && 0 < qset
      requires forall j :: 0 <= j < |devices| && j != i ==> history[j] == old(history[j]) && Spared(j) && devices[j].Alive()
      requires Told(i) && fresh(devices[i].Repr - old(devices[i].Repr)) && Accounted()
      ensures Valid()
    {
      forall j | 0 <= j < |devices| && j != i ensures Told(j) {
        assert old(Told(j));
        assert Spared(j);
        devices[j].Undisturbed();
      }
    }

    lemma ReplayMore(h: seq<Event>, events: seq<Event>)
      requires 0 < firstQuantum && 0 < firstQset && AllSane(h)
      requires |events| <= 1 && (events != [] ==> Sane(events[0]))
      ensures AllSane(h + events)
      ensures Replay(firstQuantum, firstQset, h + events) == Applied(Replay(firstQuantum, firstQset, h), events)
    {
      if events == [] {
        assert h + events == h;
      } else {
        assert (h + events)[..|h|] == h;
      }
    }

    static method MakeDevices(s: Slab, nr: nat, quantum: nat, qset: nat) returns (ds: seq<Device>)
      requires 0 < quantum && 0 < qset
      ensures |ds| == nr && fresh(ds)
      ensures forall i :: 0 <= i < nr ==> ds[i].slab == s && ds[i].Repr == {} && ds[i].Valid()
      ensures forall i :: 0 <= i < nr ==> ds[i].file == File(quantum, qset, 0, {}, map[])
      ensures forall i, j :: 0 <= i < nr && 0 <= j < nr && i != j ==> ds[i] != ds[j]
    {
      ds := [];
      while |ds| < nr
        invariant |ds| <= nr && fresh(ds)
        invariant forall i :: 0 <= i < |ds| ==> ds[i].slab == s && ds[i].Repr == {} && ds[i].Valid()
        invariant forall i :: 0 <= i < |ds| ==> ds[i].file == File(quantum, qset, 0, {}, map[])
        invariant forall i, j :: 0 <= i < |ds| && 0 <= j < |ds| && i != j ==> ds[i] != ds[j]
      {
        var d := new Device(s, quantum, qset);
        ds := ds + [d];
      }
    }

    constructor (nr: nat, quantum: nat, qset: nat)
      requires 0 < quantum && 0 < qset
      ensures Valid() && fresh(this.devices) && fresh(slab) && |devices| == nr
      ensures this.quantum == firstQuantum == quantum && this.qset == firstQset == qset
      ensures history == seq(nr, _ => [])
    {
      var s := new Slab();
      var ds := MakeDevices(s, nr, quantum, qset);
      slab, devices := s, ds;
      firstQuantum, firstQset, this.quantum, this.qset := quantum, qset, quantum, qset;
      history := seq(nr, _ => []);
    }

    method WriteThrough(i: nat, pos: nat, data: seq<byte>, copies: bool) returns (r: WriteResult)
      requires Valid() && i < |devices|
      modifies slab, devices[i], devices[i].Repr
      ensures devices[i].Valid() && fresh(devices[i].Repr - old(devices[i].Repr))
      ensures forall j :: 0 <= j < |devices| && j != i ==> Spared(j) && devices[j].Alive()
      ensures Accounted()
      ensures slab.refused == old(slab.refused) + (if r.NoMemory? then 1 else 0)
      ensures !r.NoMemory? ==> r.Accepted? == copies
      ensures match r
              case Accepted(n) =>
                n == old(FileOf(i)).Share(pos, |data|) && devices[i].file == old(FileOf(i)).Write(pos, data)
              case NoMemory => devices[i].file == old(FileOf(i))
              case BadAddress => devices[i].file == old(FileOf(i)).Garble(pos, |data|)
    {
      assert Told(i);
      r := devices[i].Write(pos, data, copies);
      forall j | 0 <= j < |devices| && j != i ensures Spared(j) && devices[j].Alive() {
        assert old(Told(j));
        AliveByGrowth(j);
      }
      AccountedByGrowth(i);
    }

    /** Write down what has happened to device `i`. */
    ghost method Note(i: nat, events: seq<Event>)
      requires i < |devices| && |history| == |devices| && 0 < firstQuantum && 0 < firstQset
      requires |events| <= 1 && (events != [] ==> Sane(events[0]))
      requires AllSane(history[i]) && devices[i].Valid() && this !in devices[i].Repr
      requires devices[i].file == Applied(Replay(firstQuantum, firstQset, history[i]), events)
      modifies this`history
      ensures history == old(history)[i := old(history)[i] + events] && Told(i)
    {
      ReplayMore(history[i], events);
      history := history[i := history[i] + events];
    }

    method Write(i: nat, pos: nat, data: seq<byte>, copies: bool) returns (r: WriteResult, newPos: nat)
      requires Valid() && i < |devices|
      modifies this`history, slab, devices[i], devices[i].Repr
      ensures Valid()
      ensures slab.refused == old(slab.refused) + (if r.NoMemory? then 1 else 0)
      ensures !r.NoMemory? ==> r.Accepted? == copies
      ensures r.Accepted? ==> r.n == old(FileOf(i)).Share(pos, |data|)
      ensures newPos == pos + (if r.Accepted? then r.n else 0)
      ensures history == old(history)[i := old(history)[i] + Outcome(r, pos, data)]
    {
      assert Told(i);
      r := WriteThrough(i, pos, data, copies);
      newPos := if r.Accepted? then pos + r.n else pos;
      OutcomeIs(old(FileOf(i)), devices[i].file, r, pos, data);
      Note(i, Outcome(r, pos, data));
      OnlyOne(i);
    }

    /** Position `p` of device `i` was last written by event `k` of its history, which wrote `v`. */
    ghost predicate Says(i: nat, k: nat, p: nat, v: byte)
      requires Valid() && i < |devices|
      reads this, slab, devices, Owned()
    {
      assert Told(i);
      LastWrite(firstQuantum, firstQset, history[i], k, p, v)
    }

    lemma SaidIsHeld(i: nat, k: nat, p: nat, v: byte)
      requires Valid() && i < |devices| && Says(i, k, p, v)
      ensures p in FileOf(i).bytes && FileOf(i).bytes[p] == v
    {
      assert Told(i);
      LastWriteWins(firstQuantum, firstQset, history[i], p, v);
    }

    /** Reading returns at each position what was last written there and changes nothing at all. */
    method Read(i: nat, pos: nat, count: nat, copies: bool) returns (r: ReadResult, newPos: nat)
      requires Valid() && i < |devices|
      modifies slab, devices[i], devices[i].Repr
      ensures Valid() && unchanged(slab) && forall j :: 0 <= j < |devices| ==> Spared(j)
      ensures match r
              case Bytes(bytes) =>
                && newPos == pos + |bytes| && FileOf(i).ReadStops(pos, count, |bytes|)
                && (forall k: nat, p: nat, v: byte :: pos <= p < newPos && Says(i, k, p, v) ==> bytes[p - pos] == v)
              case BadAddressRead => newPos == pos
      ensures r.BadAddressRead? <==>
                !copies && pos < FileOf(i).size && Block(FileOf(i).quantum, pos) in FileOf(i).blocks
    {
      assert Told(i);
      r := devices[i].Read(pos, count, copies);
      forall j | 0 <= j < |devices| ensures Spared(j) && devices[j].Alive() {
        assert old(Told(j));
      }
      AccountedStill();
      OnlyOne(i);
      newPos := if r.Bytes? then pos + |r.bytes| else pos;
      forall k: nat, p: nat, v: byte | r.Bytes? && pos <= p < newPos && Says(i, k, p, v) ensures r.bytes[p - pos] == v {
        SaidIsHeld(i, k, p, v);
      }
    }

    twostate lemma AliveByTrim(new i: nat, new j: nat)
      requires old(Valid()) && i < |devices| && j < |devices| && i != j && Spared(j)
      requires slab.items == old(slab.items) - set k | 0 <= k < |old(devices[i].nodes)| :: old(devices[i].nodes)[k]
      requires slab.tables == old(slab.tables) - old(devices[i].arrs).Values
      requires slab.quanta == old(slab.quanta) - old(devices[i].blks).Values
      ensures devices[j].Alive()
    {
      var d, e := devices[i], devices[j];
      assert old(Told(i)) && old(Told(j));
      assert forall k :: 0 <= k < |e.nodes| ==> old(e.LinkOk(k));
      assert forall k :: 0 <= k < |old(d.nodes)| ==> old(d.LinkOk(k));
    }

    method TrimThrough(i: nat)
      requires Valid() && i < |devices|
      modifies slab, devices[i], devices[i].nodes
      ensures devices[i].Valid() && devices[i].Repr == {} && Accounted()
      ensures forall j :: 0 <= j < |devices| && j != i ==> Spared(j) && devices[j].Alive()
      ensures devices[i].file == old(FileOf(i)).Trim(quantum, qset)
      ensures slab.items == old(slab.items) - set k | 0 <= k < |old(devices[i].nodes)| :: old(devices[i].nodes)[k]
      ensures slab.tables == old(slab.tables) - old(devices[i].arrs).Values
      ensures slab.quanta == old(slab.quanta) - old(devices[i].blks).Values
    {
      assert Told(i);
      assert forall k :: 0 <= k < |devices[i].nodes| ==> devices[i].LinkOk(k);
      devices[i].Trim(quantum, qset);
      forall j | 0 <= j < |devices| && j != i ensures Spared(j) && devices[j].Alive() {
        assert old(Told(j));
        AliveByTrim(i, j);
      }
      assert Emptied(i);
      AccountedStill();
    }

    /** Opening for writing only trims the device; that is when the geometry set by ioctl takes effect. */
    method Open(i: nat, writeOnly: bool)
      requires Valid() && i < |devices|
      modifies this`history, slab, devices[i], devices[i].nodes
      ensures Valid()
      ensures if writeOnly then history == old(history)[i := old(history)[i] + [Trimmed(quantum, qset)]]
              else history == old(history) && unchanged(slab)
      ensures forall j :: 0 <= j < |devices| && (j != i || !writeOnly) ==> Spared(j)
      ensures writeOnly ==>
                && devices[i].Repr == {}
                && slab.items == old(slab.items) - (set k | 0 <= k < |old(devices[i].nodes)| :: old(devices[i].nodes)[k])
                && slab.tables == old(slab.tables) - old(devices[i].arrs).Values
                && slab.quanta == old(slab.quanta) - old(devices[i].blks).Values
    {
      if writeOnly {
        assert Told(i);
        TrimThrough(i);
        Note(i, [Trimmed(quantum, qset)]);
        OnlyOne(i);
      }
    }

    /** The geometry that the next trim will give to a device. */
    method SetGeometry(newQuantum: nat, newQset: nat)
      requires Valid() && 0 < newQuantum && 0 < newQset
      modifies this`quantum, this`qset
      ensures Valid() && quantum == newQuantum && qset == newQset
    {
      quantum, qset := newQuantum, newQset;
    }

    /** Only the geometry for later trims changes, no device does. */
    method Ioctl(cmd: Command, admin: bool) returns (r: Reply)
      requires Valid() && (cmd.Tell? || cmd.Shift? ==> 0 < cmd.arg)
      modifies this`quantum, this`qset
      ensures Valid()
      ensures r.NotPermitted? <==> (cmd.Tell? || cmd.Shift?) && !admin
      ensures r.NotPermitted? || cmd.Query? ==> quantum == old(quantum) && qset == old(qset)
      ensures cmd.Reset? ==> quantum == SCULL_QUANTUM && qset == SCULL_QSET
      ensures r.Value? && (cmd.Tell? || cmd.Shift?) ==>
                && quantum == (if cmd.which.QuantumSize? then cmd.arg else old(quantum))
                && qset == (if cmd.which.QsetSize? then cmd.arg else old(qset))
      ensures r.Value? && (cmd.Query? || cmd.Shift?) ==>
                r.v == if cmd.which.QuantumSize? then old(quantum) else old(qset)
      ensures r.Value? && (cmd.Reset? || cmd.Tell?) ==> r.v == 0
    {
      r := Value(0);
      match cmd {
        case Reset =>
          SetGeometry(SCULL_QUANTUM, SCULL_QSET);
        case Tell(which, arg) =>
          if !admin {
            return NotPermitted;
          }
          SetGeometry(if which.QuantumSize? then arg else quantum, if which.QsetSize? then arg else qset);
        case Query(which) =>
          r := Value(if which.QuantumSize? then quantum else qset);
        case Shift(which, arg) =>
          if !admin {
            return NotPermitted;
          }
          r := Value(if which.QuantumSize? then quantum else qset);
          SetGeometry(if which.QuantumSize? then arg else quantum, if which.QsetSize? then arg else qset);
      }
    }

    /** Seeking is relative to the start, the position or the size, and never gets before the start. */
    method Llseek(i: nat, pos: nat, off: int, whence: int) returns (r: Sought)
      requires Valid() && i < |devices|
      ensures r.At? <==> 0 <= whence <= 2 && 0 <= off + [0, pos, FileOf(i).size][whence]
      ensures r.At? ==> r.pos == off + [0, pos, FileOf(i).size][whence]
    {
      assert Told(i);
      var newPos := off;
      match whence {
        case 0 =>
        case 1 => newPos := pos + off;
        case 2 => newPos := devices[i].size + off;
        case _ => return Invalid;
      }
      if newPos < 0 {
        return Invalid;
      }
      r := At(newPos);
    }
  }
}
