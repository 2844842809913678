/** A durable byte snapshot written and read through one bounded transfer buffer. */
module DiskSnapshot {

  newtype byte = b: int | 0 <= b < 256

  const FLUSH_LIMIT: nat := 64 * 1024 * 1024

  datatype Error =
    | EmptyBuffer | NoSpace | BadSize | ReadFailed | ShortWrite
    | UnknownAddress | LengthMismatch | Truncated | WriteFailed | ChecksumMismatch

  datatype Result<+T> = Ok(value: T) | Err(error: Error)

  datatype Region = Region(address: nat, size: int, tag: string)

  /** The digest is taken to be injective: it stands for the bytes that were hashed. */
  datatype Digest = Sha256(content: seq<byte>)

  datatype Entry = Entry(address: nat, size: int, tag: string, offset: int, sha: Digest)

  datatype Snapshot = Snapshot(entries: seq<Entry>, total: int)

  /** An unbuffered file. The operating system may transfer fewer bytes than asked for; `limits`
      says how many it is ready to transfer in each call, and zero ends the transfer. */
  class RawFile {
    var data: seq<byte>
    var pos: nat
    var onDisk: bool
    var calls: nat
    const limits: nat -> nat
    ghost var unsynced: nat
    ghost var peak: nat

    constructor (limits: nat -> nat)
      ensures data == [] && pos == 0 && !onDisk && unsynced == 0 && peak == 0
      ensures this.limits == limits
    {
      this.limits := limits;
      data, pos, onDisk, calls, unsynced, peak := [], 0, false, 0, 0, 0;
    }

    method Open()
      modifies this
      ensures data == old(data) && pos == 0 && onDisk && unsynced == old(unsynced) && peak == old(peak)
    {
      pos, onDisk := 0, true;
    }

    method Truncate(n: nat)
      modifies this
      ensures |data| == n && pos == old(pos) && onDisk == old(onDisk)
      ensures unsynced == old(unsynced) && peak == old(peak)
    {
      data := if n <= |data| then data[..n] else data + seq(n - |data|, _ => 0);
    }

    method Write(chunk: seq<byte>) returns (count: nat)
      requires pos <= |data|
      modifies this
      ensures count <= |chunk| && pos == old(pos) + count <= |data|
      ensures |data| == if old(pos) + count > |old(data)| then old(pos) + count else |old(data)|
      ensures data[..pos] == old(data[..pos]) + chunk[..count]
      ensures unsynced == old(unsynced) + count && onDisk == old(onDisk)
      ensures peak == if unsynced > old(peak) then unsynced else old(peak)
      ensures (forall i: nat :: limits(i) > 0) && |chunk| > 0 ==> count > 0
    {
      count := if limits(calls) < |chunk| then limits(calls) else |chunk|;
      data := data[..pos] + chunk[..count] + (if pos + count < |data| then data[pos + count..] else []);
      pos, calls := pos + count, calls + 1;
      unsynced := unsynced + count;
      peak := if unsynced > peak then unsynced else peak;
    }

    method ReadInto(buffer: array<byte>, lo: nat, hi: nat) returns (got: nat)
      requires lo <= hi <= buffer.Length
      modifies this, buffer
      ensures data == old(data) && onDisk == old(onDisk) && unsynced == old(unsynced) && peak == old(peak)
      ensures pos == old(pos) + got && lo + got <= hi && (got > 0 ==> pos <= |data|)
      ensures buffer[..lo] == old(buffer[..lo])
      ensures got > 0 ==> buffer[lo..lo + got] == data[old(pos)..pos]
      ensures (forall i: nat :: limits(i) > 0) && lo < hi && old(pos) < |data| ==> got > 0
    {
      var room := if pos >= |data| then 0 else |data| - pos;
      got := if limits(calls) < hi - lo then limits(calls) else hi - lo;
      got := if room < got then room else got;
      for i := 0 to got
        invariant got <= room && pos == old(pos) && data == old(data) && onDisk == old(onDisk)
        invariant unsynced == old(unsynced) && peak == old(peak)
        invariant forall k | 0 <= k < lo :: buffer[k] == old(buffer[k])
        invariant forall k | lo <= k < lo + i :: buffer[k] == data[pos + k - lo]
      {
        buffer[lo + i] := data[pos + i];
      }
      pos, calls := pos + got, calls + 1;
    }

    method Fsync()
      modifies this
      ensures data == old(data) && pos == old(pos) && onDisk == old(onDisk)
      ensures unsynced == 0 && peak == old(peak)
    {
      unsynced := 0;
    }

    method Remove()
      modifies this
      ensures !onDisk && peak == old(peak)
    {
      onDisk := false;
    }
  }

  // ------------------------------------------------------------------------------------------
  // What a snapshot holds
  // ------------------------------------------------------------------------------------------

  function TotalSize(regions: seq<Region>): int {
    if |regions| == 0 then 0
    else TotalSize(regions[..|regions| - 1]) + regions[|regions| - 1].size
  }

  predicate Valid(regions: seq<Region>, length: nat) {
    forall i | 0 <= i < |regions| :: 0 < regions[i].size && regions[i].address + regions[i].size <= length
  }

  function Bytes(r: Region, memory: seq<byte>): seq<byte>
    requires 0 < r.size && r.address + r.size <= |memory|
  {
    memory[r.address..r.address + r.size]
  }

  function Payload(regions: seq<Region>, memory: seq<byte>): (p: seq<byte>)
    requires Valid(regions, |memory|)
    ensures |p| == TotalSize(regions)
  {
    if |regions| == 0 then []
    else Payload(regions[..|regions| - 1], memory) + Bytes(regions[|regions| - 1], memory)
  }

  /** Entry i describes region i and points at the place of its bytes in the payload. */
  predicate Describes(entries: seq<Entry>, regions: seq<Region>, memory: seq<byte>)
    requires Valid(regions, |memory|)
  {
    && |entries| == |regions|
    && forall i | 0 <= i < |entries| ::
         entries[i] == Entry(regions[i].address, regions[i].size, regions[i].tag,
                             TotalSize(regions[..i]), Sha256(Bytes(regions[i], memory)))
  }

  /** Region i's bytes lie in the payload after those of the regions before it. */
  lemma {:induction false} PayloadPart(regions: seq<Region>, memory: seq<byte>, i: nat)
    requires Valid(regions, |memory|) && i < |regions|
    ensures var start := TotalSize(regions[..i]);
            && 0 <= start && start + regions[i].size <= TotalSize(regions)
            && Payload(regions, memory)[start..start + regions[i].size] == Bytes(regions[i], memory)
    decreases |regions|
  {
    var before := regions[..|regions| - 1];
    var part := Bytes(regions[i], memory);
    TotalIsNatural(before, memory);
    if i + 1 < |regions| {
      PayloadPart(before, memory, i);
      assert before[..i] == regions[..i] && before[i] == regions[i];
      var start := TotalSize(regions[..i]);
      assert (Payload(before, memory) + Bytes(regions[|regions| - 1], memory))[start..start + |part|]
          == Payload(before, memory)[start..start + |part|];
    } else {
      assert regions[..i] == before;
      assert (Payload(before, memory) + part)[|Payload(before, memory)|..] == part;
    }
  }

  /** The entries tile 0..total without gap or overlap, and each one's part of the payload is its
      region's bytes. */
  lemma EntriesTile(entries: seq<Entry>, regions: seq<Region>, memory: seq<byte>, i: nat)
    requires Valid(regions, |memory|) && Describes(entries, regions, memory) && i < |entries|
    ensures entries[0].offset == 0
    ensures entries[i].offset + entries[i].size
            == if i + 1 < |entries| then entries[i + 1].offset else TotalSize(regions)
    ensures 0 <= entries[i].offset && entries[i].offset + entries[i].size <= TotalSize(regions)
    ensures Payload(regions, memory)[entries[i].offset..entries[i].offset + entries[i].size]
            == Bytes(regions[i], memory) == entries[i].sha.content
  {
    PayloadPart(regions, memory, i);
    PayloadGrows(regions, memory, i);
    assert regions[..0] == [] && regions[..|regions|] == regions;
  }

  lemma {:induction false} PayloadGrows(regions: seq<Region>, memory: seq<byte>, i: nat)
    requires Valid(regions, |memory|) && i < |regions|
    ensures Payload(regions[..i + 1], memory) == Payload(regions[..i], memory) + Bytes(regions[i], memory)
    ensures TotalSize(regions[..i + 1]) == TotalSize(regions[..i]) + regions[i].size
  {
    assert regions[..i + 1][..i] == regions[..i];
  }

  // ------------------------------------------------------------------------------------------
  // Saving
  // ------------------------------------------------------------------------------------------

  ghost predicate AlwaysMoves(limits: nat -> nat) {
    forall i: nat :: limits(i) > 0
  }

  /** Copies device memory into the front of the transfer buffer; the copy may fail. */
  method ReadDevice(memory: array<byte>, address: nat, buffer: array<byte>, n: nat, fails: nat -> bool)
    returns (ok: bool)
    requires memory != buffer && n <= buffer.Length && address + n <= memory.Length
    modifies buffer
    ensures ok == !fails(address)
    ensures ok ==> buffer[..n] == memory[address..address + n]
  {
    if fails(address) {
      return false;
    }
    for i := 0 to n
      invariant forall k | 0 <= k < i :: buffer[k] == memory[address + k]
    {
      buffer[i] := memory[address + i];
    }
    ok := true;
  }

  /** Writes the whole chunk however few bytes each call takes. */
  method WriteAll(file: RawFile, chunk: seq<byte>) returns (ok: bool)
    requires file.pos <= |file.data|
    modifies file
    ensures file.onDisk == old(file.onDisk)
    ensures file.unsynced <= old(file.unsynced) + |chunk|
    ensures file.peak <= if file.unsynced > old(file.peak) then file.unsynced else old(file.peak)
    ensures ok ==> file.pos == old(file.pos) + |chunk| && file.unsynced == old(file.unsynced) + |chunk|
    ensures ok ==> file.pos <= |file.data|
    ensures ok ==> |file.data| == if file.pos > |old(file.data)| then file.pos else |old(file.data)|
    ensures ok ==> file.data[..file.pos] == old(file.data[..file.pos]) + chunk
    ensures AlwaysMoves(file.limits) ==> ok
  {
    ghost var start := file.pos;
    ghost var written0 := file.data[..file.pos];
    var written := 0;
    while written < |chunk|
      invariant 0 <= written <= |chunk| && file.pos == start + written <= |file.data|
      invariant file.onDisk == old(file.onDisk) && file.unsynced == old(file.unsynced) + written
      invariant file.peak <= if file.unsynced > old(file.peak) then file.unsynced else old(file.peak)
      invariant |file.data| == if file.pos > |old(file.data)| then file.pos else |old(file.data)|
      invariant file.data[..file.pos] == written0 + chunk[..written]
    {
      var count := file.Write(chunk[written..]);
      if count == 0 {
        return false;
      }
      assert chunk[..written] + chunk[written..][..count] == chunk[..written + count];
      written := written + count;
    }
    assert chunk[..|chunk|] == chunk;
    ok := true;
  }

  /** Copies n bytes of device memory to the file and returns them. */
  method SaveChunk(memory: array<byte>, address: nat, n: nat, buffer: array<byte>, file: RawFile,
                   fails: nat -> bool)
    returns (res: Result<seq<byte>>)
    requires memory != buffer && n <= buffer.Length && address + n <= memory.Length
    requires file.pos <= |file.data|
    modifies buffer, file
    ensures file.onDisk == old(file.onDisk) && file.unsynced <= old(file.unsynced) + n
    ensures file.peak <= if file.unsynced > old(file.peak) then file.unsynced else old(file.peak)
    ensures res.Ok? ==> res.value == memory[address..address + n] && file.unsynced == old(file.unsynced) + n
    ensures res.Err? ==> res.error in {ReadFailed, ShortWrite} && (res.error.ReadFailed? <==> fails(address))
    ensures res.Ok? ==> file.pos == old(file.pos) + n <= |file.data|
    ensures res.Ok? ==> |file.data| == if file.pos > |old(file.data)| then file.pos else |old(file.data)|
    ensures res.Ok? ==> file.data[..file.pos] == old(file.data[..file.pos]) + res.value
    ensures AlwaysMoves(file.limits) && (forall a: nat :: !fails(a)) ==> res.Ok?
  {
    var ok := ReadDevice(memory, address, buffer, n, fails);
    if !ok {
      return Err(ReadFailed);
    }
    var chunk := buffer[..n];
    ok := WriteAll(file, chunk);
    res := if ok then Ok(chunk) else Err(ShortWrite);
  }

  /** Copies one region to the file, flushing whenever 64 MiB are unsynced. */
  method SaveRegion(memory: array<byte>, region: Region, buffer: array<byte>, file: RawFile,
                    flushedBefore: nat, fails: nat -> bool)
    returns (res: Result<Digest>, flushed: nat)
    requires memory != buffer && buffer.Length > 0 && file.pos <= |file.data|
    requires 0 < region.size && region.address + region.size <= memory.Length
    requires flushedBefore <= file.pos && file.unsynced == file.pos - flushedBefore
    requires file.unsynced < FLUSH_LIMIT && file.peak < FLUSH_LIMIT + buffer.Length
    modifies buffer, file
    ensures file.onDisk == old(file.onDisk) && file.peak < FLUSH_LIMIT + buffer.Length
    ensures res.Ok? ==> flushed <= file.pos <= |file.data| && file.unsynced == file.pos - flushed < FLUSH_LIMIT
    ensures res.Ok? ==> file.pos == old(file.pos) + region.size
    ensures res.Ok? ==> |file.data| == if file.pos > |old(file.data)| then file.pos else |old(file.data)|
    ensures res.Ok? ==> file.data[..file.pos] == old(file.data[..file.pos]) + Bytes(region, memory[..])
    ensures res.Ok? ==> res.value == Sha256(Bytes(region, memory[..]))
    ensures res.Err? ==> res.error in {ReadFailed, ShortWrite}
    ensures AlwaysMoves(file.limits) && (forall a: nat :: !fails(a)) ==> res.Ok?
  {
    ghost var written := file.data[..file.pos];
    flushed := flushedBefore;
    var digest: seq<byte> := [];
    var relative := 0;
    while relative < region.size
      invariant 0 <= relative <= region.size && |digest| == relative
      invariant forall k | 0 <= k < relative :: digest[k] == memory[region.address + k]
      invariant flushed <= file.pos && file.unsynced == file.pos - flushed < FLUSH_LIMIT
      invariant file.onDisk == old(file.onDisk) && file.peak < FLUSH_LIMIT + buffer.Length
      invariant file.pos == old(file.pos) + relative <= |file.data|
      invariant |file.data| == if file.pos > |old(file.data)| then file.pos else |old(file.data)|
      invariant file.data[..file.pos] == written + digest
    {
      var n := if buffer.Length < region.size - relative then buffer.Length else region.size - relative;
      var chunk := SaveChunk(memory, region.address + relative, n, buffer, file, fails);
      if chunk.Err? {
        return Err(chunk.error), flushed;
      }
      assert (written + digest) + chunk.value == written + (digest + chunk.value);
      digest := digest + chunk.value;
      relative := relative + n;
      if file.pos - flushed >= FLUSH_LIMIT {
        file.Fsync();
        flushed := file.pos;
      }
    }
    assert digest == Bytes(region, memory[..]);
    res := Ok(Sha256(digest));
  }

  lemma DescribesOneMore(entries: seq<Entry>, regions: seq<Region>, memory: seq<byte>, i: nat, e: Entry)
    requires i < |regions| && Valid(regions[..i + 1], |memory|)
    requires Valid(regions[..i], |memory|) && Describes(entries, regions[..i], memory)
    requires e == Entry(regions[i].address, regions[i].size, regions[i].tag,
                        TotalSize(regions[..i]), Sha256(Bytes(regions[i], memory)))
    ensures Describes(entries + [e], regions[..i + 1], memory)
  {
    var upTo := regions[..i + 1];
    assert forall j | 0 <= j < i :: upTo[..j] == regions[..i][..j];
    assert upTo[..i] == regions[..i];
  }

  /** The first i regions are in the file, described by the entries; the bytes since the last
      flush are fewer than 64 MiB. */
  predicate Progress(file: RawFile, regions: seq<Region>, i: nat, memory: seq<byte>,
                     entries: seq<Entry>, flushed: nat)
    reads file
  {
    && i <= |regions| && flushed <= file.pos <= |file.data|
    && Valid(regions[..i], |memory|) && Describes(entries, regions[..i], memory)
    && file.pos == TotalSize(regions[..i])
    && |file.data| == (if file.pos > TotalSize(regions) then file.pos else TotalSize(regions))
    && file.data[..file.pos] == Payload(regions[..i], memory)
  }

  lemma OneMore(regions: seq<Region>, memory: seq<byte>, i: nat)
    requires i < |regions| && Valid(regions[..i], |memory|)
    requires 0 < regions[i].size && regions[i].address + regions[i].size <= |memory|
    ensures Valid(regions[..i + 1], |memory|)
    ensures TotalSize(regions[..i + 1]) == TotalSize(regions[..i]) + regions[i].size
    ensures Payload(regions[..i + 1], memory) == Payload(regions[..i], memory) + Bytes(regions[i], memory)
  {
    var upTo := regions[..i + 1];
    assert upTo[..|upTo| - 1] == regions[..i];
    forall j | 0 <= j < |upTo|
      ensures 0 < upTo[j].size && upTo[j].address + upTo[j].size <= |memory|
    {
      if j < i { assert upTo[j] == regions[..i][j]; }
    }
  }

  lemma ProgressOneMore(file: RawFile, regions: seq<Region>, i: nat, memory: seq<byte>, entries: seq<Entry>,
                        flushed: nat, written: seq<byte>)
    requires i < |regions| && Valid(regions[..i], |memory|) && Describes(entries, regions[..i], memory)
    requires 0 < regions[i].size && regions[i].address + regions[i].size <= |memory|
    requires written == Payload(regions[..i], memory)
    requires flushed <= file.pos <= |file.data| && file.pos == TotalSize(regions[..i]) + regions[i].size
    requires |file.data| == if file.pos > TotalSize(regions) then file.pos else TotalSize(regions)
    requires file.data[..file.pos] == written + Bytes(regions[i], memory)
    ensures Progress(file, regions, i + 1, memory,
                     entries + [Entry(regions[i].address, regions[i].size, regions[i].tag,
                                      TotalSize(regions[..i]), Sha256(Bytes(regions[i], memory)))], flushed)
  {
    var e := Entry(regions[i].address, regions[i].size, regions[i].tag,
                   TotalSize(regions[..i]), Sha256(Bytes(regions[i], memory)));
    OneMore(regions, memory, i);
    DescribesOneMore(entries, regions, memory, i, e);
  }

  /** The loop over the regions, into a file that has been truncated to their total size. */
  method SaveRegions(memory: array<byte>, regions: seq<Region>, buffer: array<byte>, file: RawFile,
                     fails: nat -> bool)
    returns (res: Result<seq<Entry>>)
    requires memory != buffer && buffer.Length > 0 && file.pos == file.unsynced == file.peak == 0
    requires 0 <= TotalSize(regions) == |file.data|
    requires forall i | 0 <= i < |regions| :: regions[i].address + regions[i].size <= memory.Length
    modifies buffer, file
    ensures file.onDisk == old(file.onDisk) && file.peak < FLUSH_LIMIT + buffer.Length
    ensures res.Ok? ==> Valid(regions, memory.Length) && Describes(res.value, regions, memory[..])
    ensures res.Ok? ==> file.data == Payload(regions, memory[..])
    ensures AlwaysMoves(file.limits) && (forall a: nat :: !fails(a)) && Valid(regions, memory.Length) ==> res.Ok?
    ensures res.Err? ==> res.error in {BadSize, ReadFailed, ShortWrite}
    ensures AlwaysMoves(file.limits) && (forall a: nat :: !fails(a)) && res.Err? ==> res == Err(BadSize)
    ensures res == Err(BadSize) ==> !Valid(regions, memory.Length)
  {
    var entries: seq<Entry> := [];
    var flushed: nat := 0;
    for i := 0 to |regions|
      invariant Progress(file, regions, i, memory[..], entries, flushed)
      invariant file.unsynced == file.pos - flushed < FLUSH_LIMIT
      invariant file.onDisk == old(file.onDisk) && file.peak < FLUSH_LIMIT + buffer.Length
    {
      var region := regions[i];
      if region.size <= 0 {
        return Err(BadSize);
      }
      var start := file.pos;
      ghost var written := file.data[..file.pos];
      var saved: Result<Digest>;
      saved, flushed := SaveRegion(memory, region, buffer, file, flushed, fails);
      if saved.Err? {
        return Err(saved.error);
      }
      ProgressOneMore(file, regions, i, memory[..], entries, flushed, written);
      entries := entries + [Entry(region.address, region.size, region.tag, start, saved.value)];
    }
    assert regions[..|regions|] == regions;
    res := Ok(entries);
  }

  /** Persists every region. Device memory is only read, and a failed save leaves no directory. */
  method Save(memory: array<byte>, regions: seq<Region>, buffer: array<byte>, file: RawFile,
              free: int, fails: nat -> bool)
    returns (res: Result<Snapshot>)
    requires memory != buffer && file.unsynced == file.peak == 0 && !file.onDisk
    requires forall i | 0 <= i < |regions| :: regions[i].address + regions[i].size <= memory.Length
    modifies buffer, file
    ensures res.Ok? <==> file.onDisk
    ensures buffer.Length > 0 ==> file.peak < FLUSH_LIMIT + buffer.Length
    ensures res.Ok? ==> Valid(regions, memory.Length) && file.unsynced == 0
    ensures res.Ok? ==> Describes(res.value.entries, regions, memory[..]) && res.value.total == TotalSize(regions)
    ensures res.Ok? ==> file.data == Payload(regions, memory[..])
    ensures res.Ok? ==> buffer.Length > 0 && free >= TotalSize(regions) + FLUSH_LIMIT
    ensures AlwaysMoves(file.limits) && (forall a: nat :: !fails(a)) ==>
              (buffer.Length > 0 && free >= TotalSize(regions) + FLUSH_LIMIT && Valid(regions, memory.Length)
               ==> res.Ok?)
    // Why it fails.
    ensures buffer.Length == 0 <==> res == Err(EmptyBuffer)
    ensures buffer.Length > 0 && free < TotalSize(regions) + FLUSH_LIMIT <==> res == Err(NoSpace)
    ensures res.Err? ==> res.error in {EmptyBuffer, NoSpace, BadSize, ReadFailed, ShortWrite}
    ensures res == Err(BadSize) ==> exists i | 0 <= i < |regions| :: regions[i].size <= 0
    ensures AlwaysMoves(file.limits) && (forall a: nat :: !fails(a)) && res.Err? ==>
              res.error in {EmptyBuffer, NoSpace, BadSize}
  {
    if buffer.Length == 0 {
      return Err(EmptyBuffer);
    }
    var total := TotalSize(regions);
    if free < total + FLUSH_LIMIT {
      return Err(NoSpace);
    }
    file.Open();
    if total < 0 {
      if Valid(regions, memory.Length) { TotalIsNatural(regions, memory[..]); }
      file.Remove();
      return Err(BadSize);
    }
    file.Truncate(total);
    var saved := SaveRegions(memory, regions, buffer, file, fails);
    if saved.Err? {
      file.Remove();
      return Err(saved.error);
    }
    file.Fsync();
    res := Ok(Snapshot(saved.value, total));
  }

  lemma TotalIsNatural(regions: seq<Region>, memory: seq<byte>)
    requires Valid(regions, |memory|)
    ensures TotalSize(regions) >= 0
  {
  }

  // ------------------------------------------------------------------------------------------
  // Restoring
  // ------------------------------------------------------------------------------------------

  method WriteDevice(memory: array<byte>, address: nat, buffer: array<byte>, n: nat, fails: nat -> bool)
    returns (ok: bool)
    requires memory != buffer && n <= buffer.Length && address + n <= memory.Length
    modifies memory
    ensures ok == !fails(address)
    ensures forall k | 0 <= k < memory.Length && !(address <= k < address + n) :: memory[k] == old(memory[k])
    ensures ok ==> memory[address..address + n] == buffer[..n]
  {
    if fails(address) {
      return false;
    }
    for i := 0 to n
      invariant forall k | 0 <= k < memory.Length && !(address <= k < address + i) :: memory[k] == old(memory[k])
      invariant forall k | 0 <= k < i :: memory[address + k] == buffer[k]
    {
      memory[address + i] := buffer[i];
    }
    ok := true;
  }

  method FillBuffer(file: RawFile, buffer: array<byte>, n: nat) returns (ok: bool)
    requires 0 < n <= buffer.Length
    modifies file, buffer
    ensures file.data == old(file.data) && file.onDisk == old(file.onDisk)
    ensures ok ==> file.pos == old(file.pos) + n <= |file.data|
    ensures ok ==> buffer[..n] == file.data[old(file.pos)..file.pos]
    ensures AlwaysMoves(file.limits) && old(file.pos) + n <= |file.data| ==> ok
  {
    ghost var start := file.pos;
    var count := 0;
    while count < n
      invariant 0 <= count <= n && file.pos == start + count && file.data == old(file.data)
      invariant file.onDisk == old(file.onDisk)
      invariant count > 0 ==> file.pos <= |file.data|
      invariant count > 0 ==> buffer[..count] == file.data[start..file.pos]
    {
      ghost var before, at := buffer[..count], file.pos;
      var got := file.ReadInto(buffer, count, n);
      if got == 0 {
        return false;
      }
      assert buffer[..count] == before;
      assert buffer[..count + got] == buffer[..count] + buffer[count..count + got];
      assert file.data[start..at] + file.data[at..file.pos] == file.data[start..file.pos];
      count := count + got;
    }
    ok := true;
  }

  predicate Restorable(e: Entry, length: nat) {
    0 <= e.offset && 0 < e.size && e.address + e.size <= length && |e.sha.content| == e.size
  }

  function Find(entries: seq<Entry>, address: nat): (i: nat)
    ensures i <= |entries|
    ensures i < |entries| ==> entries[i].address == address
    ensures forall j | 0 <= j < i :: entries[j].address != address
  {
    if |entries| == 0 then 0
    else if entries[0].address == address then 0
    else 1 + Find(entries[1..], address)
  }

  /** One turn of the copying loop: n bytes go from the file through the buffer into memory. */
  method RestoreChunk(file: RawFile, buffer: array<byte>, n: nat, memory: array<byte>, address: nat,
                      fails: nat -> bool)
    returns (res: Result<seq<byte>>)
    requires memory != buffer && 0 < n <= buffer.Length && address + n <= memory.Length
    modifies file, buffer, memory
    ensures file.data == old(file.data) && file.onDisk == old(file.onDisk)
    ensures forall k | 0 <= k < memory.Length && !(address <= k < address + n) :: memory[k] == old(memory[k])
    ensures res.Ok? ==> file.pos == old(file.pos) + n <= |file.data|
    ensures res.Ok? ==> memory[address..address + n] == res.value == file.data[old(file.pos)..file.pos]
    ensures res.Err? ==> res.error in {Truncated, WriteFailed}
    ensures res == Err(WriteFailed) ==> fails(address)
    ensures AlwaysMoves(file.limits) && res == Err(Truncated) ==> old(file.pos) + n > |file.data|
    ensures AlwaysMoves(file.limits) && (forall a: nat :: !fails(a)) && old(file.pos) + n <= |file.data| ==> res.Ok?
  {
    var ok := FillBuffer(file, buffer, n);
    if !ok {
      return Err(Truncated);
    }
    ok := WriteDevice(memory, address, buffer, n, fails);
    if !ok {
      return Err(WriteFailed);
    }
    res := Ok(buffer[..n]);
  }

  /** The copying loop: memory takes what is read from the file, and the result is its digest. */
  method RestoreBytes(entry: Entry, file: RawFile, buffer: array<byte>, memory: array<byte>, fails: nat -> bool)
    returns (res: Result<Digest>)
    requires memory != buffer && buffer.Length > 0 && Restorable(entry, memory.Length)
    requires file.pos == entry.offset
    modifies file, buffer, memory
    ensures file.data == old(file.data) && file.onDisk == old(file.onDisk)
    ensures forall k | 0 <= k < memory.Length && !(entry.address <= k < entry.address + entry.size) ::
              memory[k] == old(memory[k])
    ensures res.Ok? ==> entry.offset + entry.size <= |file.data|
    ensures res.Ok? ==> memory[entry.address..entry.address + entry.size] == res.value.content
    ensures res.Ok? ==> res.value == Sha256(file.data[entry.offset..entry.offset + entry.size])
    ensures res.Err? ==> res.error in {Truncated, WriteFailed}
    ensures (forall a: nat :: !fails(a)) ==> res != Err(WriteFailed)
    ensures AlwaysMoves(file.limits) && res == Err(Truncated) ==> entry.offset + entry.size > |file.data|
    ensures AlwaysMoves(file.limits) && (forall a: nat :: !fails(a)) && entry.offset + entry.size <= |file.data|
            ==> res.Ok?
  {
    ghost var data := file.data;
    var digest: seq<byte> := [];
    var relative := 0;
    while relative < entry.size
      invariant 0 <= relative <= entry.size && file.data == data && file.onDisk == old(file.onDisk)
      invariant file.pos == entry.offset + relative
      invariant relative > 0 ==> file.pos <= |data|
      invariant |digest| == relative
      invariant forall k | 0 <= k < relative :: digest[k] == data[entry.offset + k]
      invariant forall k | 0 <= k < relative :: digest[k] == memory[entry.address + k]
      invariant forall k | 0 <= k < memory.Length && !(entry.address <= k < entry.address + entry.size) ::
                  memory[k] == old(memory[k])
    {
      var n := if buffer.Length < entry.size - relative then buffer.Length else entry.size - relative;
      var chunk := RestoreChunk(file, buffer, n, memory, entry.address + relative, fails);
      if chunk.Err? {
        return Err(chunk.error);
      }
      digest := digest + chunk.value;
      relative := relative + n;
    }
    assert digest == memory[entry.address..entry.address + entry.size];
    assert digest == data[entry.offset..entry.offset + entry.size];
    res := Ok(Sha256(digest));
  }

  /** Puts one region back. Whatever has become of the file, a restore that succeeds has put back
      exactly the bytes that were saved, and no restore touches memory outside the region. */
  method RestoreRegion(snapshot: Snapshot, address: nat, file: RawFile, buffer: array<byte>,
                       memory: array<byte>, fails: nat -> bool)
    returns (res: Result<()>)
    requires memory != buffer && buffer.Length > 0
    requires forall i | 0 <= i < |snapshot.entries| :: Restorable(snapshot.entries[i], memory.Length)
    modifies file, buffer, memory
    ensures file.data == old(file.data) && file.onDisk == old(file.onDisk)
    ensures Find(snapshot.entries, address) == |snapshot.entries| || |file.data| != snapshot.total
            ==> res.Err? && memory[..] == old(memory[..])
    ensures Find(snapshot.entries, address) < |snapshot.entries| ==>
              var e := snapshot.entries[Find(snapshot.entries, address)];
              && Restorable(e, memory.Length)
              && (forall k | 0 <= k < memory.Length && !(address <= k < address + e.size) ::
                    memory[k] == old(memory[k]))
              && (res.Ok? ==> memory[address..address + e.size] == e.sha.content)
              && (AlwaysMoves(file.limits) && (forall a: nat :: !fails(a))
                  && |file.data| == snapshot.total && e.offset + e.size <= |file.data| ==>
                  (res.Ok? <==> file.data[e.offset..e.offset + e.size] == e.sha.content))
    // Why it fails.
    ensures Find(snapshot.entries, address) == |snapshot.entries| <==> res == Err(UnknownAddress)
    ensures Find(snapshot.entries, address) < |snapshot.entries| && |file.data| != snapshot.total
            <==> res == Err(LengthMismatch)
    ensures res.Err? ==> res.error in {UnknownAddress, LengthMismatch, Truncated, WriteFailed, ChecksumMismatch}
    ensures (forall a: nat :: !fails(a)) ==> res != Err(WriteFailed)
    ensures Find(snapshot.entries, address) < |snapshot.entries| ==>
              var e := snapshot.entries[Find(snapshot.entries, address)];
              && (AlwaysMoves(file.limits) && res == Err(Truncated) ==> e.offset + e.size > |file.data|)
              && (res == Err(ChecksumMismatch) ==>
                    e.offset + e.size <= |file.data| && file.data[e.offset..e.offset + e.size] != e.sha.content)
  {
    var at := Find(snapshot.entries, address);
    if at == |snapshot.entries| {
      return Err(UnknownAddress);
    }
    var entry := snapshot.entries[at];
    if |file.data| != snapshot.total {
      return Err(LengthMismatch);
    }
    file.pos := entry.offset;
    var copied := RestoreBytes(entry, file, buffer, memory, fails);
    if copied.Err? {
      return Err(copied.error);
    }
    if copied.value != entry.sha {
      return Err(ChecksumMismatch);
    }
    res := Ok(());
  }

  predicate Distinct(regions: seq<Region>) {
    forall i, j | 0 <= i < j < |regions| :: regions[i].address != regions[j].address
  }

  /** Entry e describes region r and points at the region's original bytes in data. */
  predicate Points(e: Entry, r: Region, data: seq<byte>, original: seq<byte>)
    requires 0 < r.size && r.address + r.size <= |original|
  {
    && e.address == r.address && e.size == r.size
    && 0 <= e.offset && e.offset + e.size <= |data|
    && data[e.offset..e.offset + e.size] == e.sha.content == Bytes(r, original)
  }

  /** The contents of a file that nobody has touched since the snapshot was saved. */
  predicate Intact(data: seq<byte>, snapshot: Snapshot, regions: seq<Region>, original: seq<byte>)
    requires Valid(regions, |original|)
  {
    && |data| == snapshot.total && |snapshot.entries| == |regions|
    && forall i | 0 <= i < |regions| :: Points(snapshot.entries[i], regions[i], data, original)
  }

  lemma SavedIsIntact(data: seq<byte>, snapshot: Snapshot, regions: seq<Region>, original: seq<byte>)
    requires Valid(regions, |original|) && Describes(snapshot.entries, regions, original)
    requires snapshot.total == TotalSize(regions) && data == Payload(regions, original)
    ensures Intact(data, snapshot, regions, original)
  {
    forall i | 0 <= i < |regions| ensures Points(snapshot.entries[i], regions[i], data, original) {
      EntriesTile(snapshot.entries, regions, original, i);
    }
  }

  lemma {:induction false} FirstMatch(entries: seq<Entry>, i: nat)
    requires i < |entries| && forall j | 0 <= j < i :: entries[j].address != entries[i].address
    ensures Find(entries, entries[i].address) == i
  {
  }

  /** Restores region i of an intact snapshot. */
  method RestoreOne(snapshot: Snapshot, regions: seq<Region>, ghost original: seq<byte>, i: nat, file: RawFile,
                    buffer: array<byte>, target: array<byte>, fails: nat -> bool)
    returns (res: Result<()>)
    requires target != buffer && buffer.Length > 0 && target.Length == |original|
    requires Valid(regions, |original|) && Distinct(regions) && i < |regions|
    requires Intact(file.data, snapshot, regions, original)
    modifies buffer, file, target
    ensures file.data == old(file.data)
    ensures res.Ok? ==> Bytes(regions[i], target[..]) == Bytes(regions[i], original)
    ensures forall k | 0 <= k < target.Length
                       && !(regions[i].address <= k < regions[i].address + regions[i].size) ::
              target[k] == old(target[k])
    ensures AlwaysMoves(file.limits) && (forall a: nat :: !fails(a)) ==> res.Ok?
  {
    var e := snapshot.entries[i];
    assert Points(e, regions[i], file.data, original);
    FirstMatch(snapshot.entries, i);
    res := RestoreRegion(snapshot, e.address, file, buffer, target, fails);
  }

  /** Restores every region of an intact snapshot into a device of arbitrary contents. */
  method RestoreAll(snapshot: Snapshot, regions: seq<Region>, ghost original: seq<byte>, file: RawFile,
                    buffer: array<byte>, target: array<byte>, fails: nat -> bool)
    returns (res: Result<()>)
    requires target != buffer && buffer.Length > 0 && target.Length == |original|
    requires Valid(regions, |original|) && Distinct(regions)
    requires Intact(file.data, snapshot, regions, original)
    modifies buffer, file, target
    ensures res.Ok? ==> forall i | 0 <= i < |regions| :: Bytes(regions[i], target[..]) == Bytes(regions[i], original)
    ensures AlwaysMoves(file.limits) && (forall a: nat :: !fails(a)) ==> res.Ok?
  {
    for i := 0 to |regions|
      invariant file.data == old(file.data)
      invariant forall j | 0 <= j < i :: Bytes(regions[j], target[..]) == Bytes(regions[j], original)
    {
      ghost var before := target[..];
      res := RestoreOne(snapshot, regions, original, i, file, buffer, target, fails);
      if res.Err? {
        return;
      }
      EarlierRegionsSurvive(regions, original, before, target[..], i);
    }
    res := Ok(());
  }

  /** Save and restore everything, through any two nonempty buffers, with any pattern of short
      writes and reads: a device whose memory has meanwhile become arbitrary gets every region's
      bytes back. Without faults the round trip succeeds. */
  method RoundTrip(source: array<byte>, regions: seq<Region>, first: array<byte>, second: array<byte>,
                   file: RawFile, free: int, target: array<byte>, fails: nat -> bool)
    returns (res: Result<()>)
    requires source != first && source != second && target != second && source != target
    requires source.Length == target.Length && first.Length > 0 && second.Length > 0
    requires file.unsynced == file.peak == 0 && !file.onDisk
    requires Valid(regions, source.Length) && Distinct(regions)
    modifies first, second, file, target
    ensures res.Ok? ==> forall i | 0 <= i < |regions| :: Bytes(regions[i], target[..]) == Bytes(regions[i], source[..])
    ensures AlwaysMoves(file.limits) && (forall a: nat :: !fails(a)) && free >= TotalSize(regions) + FLUSH_LIMIT
            ==> res.Ok?
  {
    var saved := Save(source, regions, first, file, free, fails);
    if saved.Err? {
      return Err(saved.error);
    }
    ghost var original := source[..];
    SavedIsIntact(file.data, saved.value, regions, original);
    res := RestoreAll(saved.value, regions, original, file, second, target, fails);
    assert source[..] == original;
  }

  /** Restoring region i cannot spoil a region restored before, even one that overlaps it. */
  lemma EarlierRegionsSurvive(regions: seq<Region>, original: seq<byte>, before: seq<byte>, after: seq<byte>, i: nat)
    requires |original| == |before| == |after| && Valid(regions, |original|) && i < |regions|
    requires forall j | 0 <= j < i :: Bytes(regions[j], before) == Bytes(regions[j], original)
    requires Bytes(regions[i], after) == Bytes(regions[i], original)
    requires forall k | 0 <= k < |after| && !(regions[i].address <= k < regions[i].address + regions[i].size) ::
               after[k] == before[k]
    ensures forall j | 0 <= j <= i :: Bytes(regions[j], after) == Bytes(regions[j], original)
  {
    forall j | 0 <= j < i ensures Bytes(regions[j], after) == Bytes(regions[j], original) {
      var a, n := regions[j].address, regions[j].size;
      forall k | a <= k < a + n ensures after[k] == original[k] {
        if regions[i].address <= k < regions[i].address + regions[i].size {
          assert Bytes(regions[i], after)[k - regions[i].address] == after[k];
          assert Bytes(regions[i], original)[k - regions[i].address] == original[k];
        } else {
          assert Bytes(regions[j], before)[k - a] == before[k];
          assert Bytes(regions[j], original)[k - a] == original[k];
        }
      }
    }
  }
}
