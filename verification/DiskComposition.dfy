/** The saved bytes that the sleep state machine reasons with are what the snapshot on disk holds. */
module DiskComposition {
  import opened DiskSnapshot
  import opened DiskSleep

  /** The bytes a snapshot's manifest stands for, by address; the first entry of an address counts. */
  function SavedIn(entries: seq<Entry>): Saved {
    if |entries| == 0 then map[]
    else SavedIn(entries[1..])[entries[0].address := entries[0].sha.content]
  }

  lemma {:induction false} SavedInFinds(entries: seq<Entry>, address: nat)
    ensures address in SavedIn(entries) <==> Find(entries, address) < |entries|
    ensures address in SavedIn(entries) ==> SavedIn(entries)[address] == entries[Find(entries, address)].sha.content
    decreases |entries|
  {
    if |entries| > 0 { SavedInFinds(entries[1..], address); }
  }

  /** A restore from disk either fails or yields the saved bytes of its address, and it fails for an
      address without any: it is what MapAndRestore takes it for. */
  method RestoreSaved(snapshot: Snapshot, address: nat, file: RawFile, buffer: array<byte>, memory: array<byte>,
                      fails: nat -> bool)
    returns (res: Result<()>)
    requires memory != buffer && buffer.Length > 0
    requires forall i | 0 <= i < |snapshot.entries| :: Restorable(snapshot.entries[i], memory.Length)
    modifies file, buffer, memory
    ensures res.Ok? ==> address in SavedIn(snapshot.entries)
    ensures res.Ok? ==>
              var saved := SavedIn(snapshot.entries)[address];
              address + |saved| <= memory.Length && memory[address..address + |saved|] == saved
  {
    SavedInFinds(snapshot.entries, address);
    res := RestoreRegion(snapshot, address, file, buffer, memory, fails);
  }

  /** The regions a preparation hands to the snapshot. */
  function RegionList(allocations: seq<Allocation>): seq<Region> {
    if |allocations| == 0 then []
    else
      var a := allocations[|allocations| - 1];
      RegionList(allocations[..|allocations| - 1])
        + if a.tag != KV_CACHE && !a.asleep then [Region(a.ptr, |a.bytes|, a.tag)] else []
  }

  /** The device memory holds the bytes of every mapped allocation outside the KV cache. */
  ghost predicate InMemory(allocations: seq<Allocation>, memory: seq<byte>) {
    forall i | 0 <= i < |allocations| && allocations[i].tag != KV_CACHE && !allocations[i].asleep ::
      var a := allocations[i];
      |a.bytes| > 0 && a.ptr + |a.bytes| <= |memory| && memory[a.ptr..a.ptr + |a.bytes|] == a.bytes
  }

  /** Some allocation is at the address. */
  ghost predicate AtSome(allocations: seq<Allocation>, address: nat) {
    exists j :: 0 <= j < |allocations| && allocations[j].ptr == address
  }

  lemma {:induction false} RegionsAreMapped(allocations: seq<Allocation>, memory: seq<byte>)
    requires InMemory(allocations, memory)
    ensures Valid(RegionList(allocations), |memory|)
    ensures forall i | 0 <= i < |RegionList(allocations)| :: AtSome(allocations, RegionList(allocations)[i].address)
    decreases |allocations|
  {
    if |allocations| > 0 {
      var n := |allocations| - 1;
      var front, regions := RegionList(allocations[..n]), RegionList(allocations);
      RegionsAreMapped(allocations[..n], memory);
      forall i | 0 <= i < |regions| ensures AtSome(allocations, regions[i].address) {
        if i < |front| {
          MoreAllocations(allocations, n, front[i].address);
        } else {
          assert allocations[n].ptr == regions[i].address;
        }
      }
    }
  }

  lemma MoreAllocations(allocations: seq<Allocation>, n: nat, address: nat)
    requires n <= |allocations| && AtSome(allocations[..n], address)
    ensures AtSome(allocations, address)
  {
    var j :| 0 <= j < n && allocations[..n][j].ptr == address;
    assert allocations[j].ptr == address;
  }

  lemma {:induction false} SavedInAppend(entries: seq<Entry>, e: Entry)
    ensures SavedIn(entries + [e])
         == if e.address in SavedIn(entries) then SavedIn(entries) else SavedIn(entries)[e.address := e.sha.content]
    decreases |entries|
  {
    if |entries| > 0 {
      assert (entries + [e])[1..] == entries[1..] + [e];
      SavedInAppend(entries[1..], e);
    } else {
      assert (entries + [e])[1..] == [];
    }
  }

  /** An address that no region has is not saved. */
  lemma OtherAddressNotSaved(entries: seq<Entry>, regions: seq<Region>, memory: seq<byte>, address: nat)
    requires Valid(regions, |memory|) && Describes(entries, regions, memory)
    requires forall i | 0 <= i < |regions| :: regions[i].address != address
    ensures address !in SavedIn(entries)
  {
    SavedInFinds(entries, address);
    assert forall i | 0 <= i < |entries| :: entries[i].address == regions[i].address;
  }

  lemma FrontDescribes(entries: seq<Entry>, front: seq<Region>, last: seq<Region>, memory: seq<byte>)
    requires Valid(front + last, |memory|) && Describes(entries, front + last, memory)
    ensures Valid(front, |memory|) && Describes(entries[..|front|], front, memory)
  {
    var regions := front + last;
    forall i | 0 <= i < |front| ensures front[i] == regions[i] && front[..i] == regions[..i] { }
  }

  /** A snapshot that describes the prepared regions of device memory stands for exactly the bytes that
      the state machine records when it prepares. */
  lemma {:induction false} SavedIsRegions(entries: seq<Entry>, allocations: seq<Allocation>, memory: seq<byte>)
    requires InMemory(allocations, memory)
    requires forall i, j | 0 <= i < j < |allocations| :: allocations[i].ptr != allocations[j].ptr
    requires Valid(RegionList(allocations), |memory|) && Describes(entries, RegionList(allocations), memory)
    ensures SavedIn(entries) == Regions(allocations)
    decreases |allocations|
  {
    if |allocations| > 0 {
      var n := |allocations| - 1;
      var a, front := allocations[n], RegionList(allocations[..n]);
      var last := if a.tag != KV_CACHE && !a.asleep then [Region(a.ptr, |a.bytes|, a.tag)] else [];
      assert RegionList(allocations) == front + last;
      FrontDescribes(entries, front, last, memory);
      SavedIsRegions(entries[..|front|], allocations[..n], memory);
      if last == [] {
        assert entries[..|front|] == entries;
      } else {
        var r := last[0];
        forall i | 0 <= i < |front| ensures front[i].address != r.address { LastIsNew(allocations, memory, n); }
        assert r.address == a.ptr && Bytes(r, memory) == a.bytes;
        LastRegionSaved(entries, front, r, memory);
      }
    }
  }

  lemma LastIsNew(allocations: seq<Allocation>, memory: seq<byte>, n: nat)
    requires n == |allocations| - 1 && InMemory(allocations, memory)
    requires forall i, j | 0 <= i < j < |allocations| :: allocations[i].ptr != allocations[j].ptr
    ensures forall i | 0 <= i < |RegionList(allocations[..n])| ::
              RegionList(allocations[..n])[i].address != allocations[n].ptr
  {
    var front := RegionList(allocations[..n]);
    RegionsAreMapped(allocations[..n], memory);
    forall i | 0 <= i < |front| ensures front[i].address != allocations[n].ptr {
      assert AtSome(allocations[..n], front[i].address);
      var j :| 0 <= j < n && allocations[..n][j].ptr == front[i].address;
      assert allocations[j].ptr != allocations[n].ptr;
    }
  }

  lemma LastRegionSaved(entries: seq<Entry>, front: seq<Region>, r: Region, memory: seq<byte>)
    requires 0 < r.size && r.address + r.size <= |memory|
    requires Valid(front + [r], |memory|) && Describes(entries, front + [r], memory)
    requires forall i | 0 <= i < |front| :: front[i].address != r.address
    ensures SavedIn(entries) == SavedIn(entries[..|front|])[r.address := Bytes(r, memory)]
  {
    var k := |front|;
    FrontDescribes(entries, front, [r], memory);
    OtherAddressNotSaved(entries[..k], front, memory, r.address);
    assert (front + [r])[k] == r;
    assert entries == entries[..k] + [entries[k]];
    SavedInAppend(entries[..k], entries[k]);
  }
}
