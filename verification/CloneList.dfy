/**
 The private devices: each terminal gets a device of its own, made the first time it is opened from
 there and kept for good.
 */
module CloneList {
  import opened ScullDevice

  type Key = nat

  datatype Opening = Opened(device: Device) | NoTerminal | OutOfMemory

  /** A list item: a device and the terminal it belongs to. */
  class Clone {
    const key: Key
    const device: Device

    constructor (key: Key, device: Device)
      ensures this.key == key && this.device == device
    {
      this.key, this.device := key, device;
    }
  }

  class Clones {
    var list: seq<Clone>
    const slab: Slab

    /** No terminal has two devices, no device serves two terminals. */
    ghost predicate Valid()
      reads this
    {
      forall i, j :: 0 <= i < j < |list| ==> list[i].key != list[j].key && list[i].device != list[j].device
    }

    ghost predicate Serves(device: Device, key: Key)
      reads this
    {
      exists i :: 0 <= i < |list| && list[i].key == key && list[i].device == device
    }

    ghost predicate Known(key: Key)
      reads this
    {
      exists i :: 0 <= i < |list| && list[i].key == key
    }

    constructor (slab: Slab)
      ensures Valid() && list == [] && this.slab == slab
    {
      list := [];
      this.slab := slab;
    }

    /** Look for the device of a terminal, or make one; `null` when there is no memory for it. */
    method LookFor(key: Key, quantum: nat, qset: nat, memory: bool) returns (device: Device?)
      requires Valid() && 0 < quantum && 0 < qset
      modifies this
      ensures Valid()
      ensures device == null <==> !old(Known(key)) && !memory
      ensures device != null ==> Serves(device, key)
      ensures old(Known(key)) ==> list == old(list)
      ensures !old(Known(key)) && device == null ==> list == old(list)
      ensures !old(Known(key)) && device != null ==>
                && fresh(device) && device.Valid() && device.nodes == []
                && device.quantum == quantum && device.qset == qset
                && |list| == |old(list)| + 1 && list[1..] == old(list)
    {
      var i := 0;
      while i < |list|
        invariant 0 <= i <= |list| && list == old(list)
        invariant forall k :: 0 <= k < i ==> list[k].key != key
      {
        if list[i].key == key {
          return list[i].device;
        }
        i := i + 1;
      }
      if !memory {
        return null;
      }
      device := new Device(slab, quantum, qset);
      var item := new Clone(key, device);
      list := [item] + list;
      assert list[0].key == key && list[0].device == device;
    }

    /** Opening needs a terminal to find the device by. */
    method Open(terminal: bool, key: Key, quantum: nat, qset: nat, memory: bool) returns (r: Opening)
      requires Valid() && 0 < quantum && 0 < qset
      modifies this
      ensures Valid() && (r.NoTerminal? <==> !terminal)
      ensures r.Opened? ==> Serves(r.device, key)
      ensures r.OutOfMemory? <==> terminal && !memory && !old(Known(key))
      ensures !r.Opened? || old(Known(key)) ==> list == old(list)
      ensures r.Opened? && !old(Known(key)) ==>
                && fresh(r.device) && r.device.Valid() && r.device.nodes == []
                && r.device.quantum == quantum && r.device.qset == qset
                && |list| == |old(list)| + 1 && list[1..] == old(list)
      ensures forall d: Device, k: Key :: old(allocated(d)) && old(Serves(d, k)) ==> Serves(d, k)
    {
      if !terminal {
        return NoTerminal;
      }
      var device := LookFor(key, quantum, qset, memory);
      forall d: Device, k: Key | old(allocated(d)) && old(Serves(d, k)) ensures Serves(d, k) {
        var i :| 0 <= i < |old(list)| && old(list)[i].key == k && old(list)[i].device == d;
        assert list == old(list) || list[i + 1] == old(list)[i];
        assert Serves(d, k) by {
          if list == old(list) {
            assert list[i].key == k;
          } else {
            assert list[i + 1].key == k;
          }
        }
      }
      if device == null {
        return OutOfMemory;
      }
      r := Opened(device);
    }

    /** A terminal always gets the same device, and no two terminals share one. */
    lemma OneDeviceEach(d: Device, e: Device, k: Key, l: Key)
      requires Valid() && Serves(d, k) && Serves(e, l)
      ensures k == l <==> d == e
    {
    }
  }
}
