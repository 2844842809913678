/** One worker's disk-backed sleep: device allocations are saved to disk, unmapped, and mapped and
    restored again, with a fault possible at every step. */
module DiskSleep {
  import opened DiskSnapshot
  import opened Options
  import opened SleepJournal

  datatype State = RUNNING | SUSPENDED | RESUMING

  /** An allocation of the memory pool. The bytes of one that is asleep mean nothing. */
  datatype Allocation = Allocation(ptr: nat, tag: string, asleep: bool, bytes: seq<byte>)

  const KV_CACHE := "kv_cache"

  /** Saved bytes by address. That a restore either fails or yields exactly the saved bytes is what
      RestoreRegion promises of the snapshot on disk. */
  type Saved = map<nat, seq<byte>>

  /** Allocation a holds its original bytes, or a snapshot does. */
  predicate Preserved(a: Allocation, snapshot: Option<Saved>, original: Saved) {
    a.tag != KV_CACHE ==>
      && a.ptr in original
      && if a.asleep then snapshot.Some? && a.ptr in snapshot.value && snapshot.value[a.ptr] == original[a.ptr]
         else a.bytes == original[a.ptr]
  }

  /** Where an allocation lives and what it is for; the set of allocations is fixed. */
  datatype Place = Place(ptr: nat, tag: string)

  predicate DistinctPlaces(layout: seq<Place>) {
    forall i, j | 0 <= i < j < |layout| :: layout[i].ptr != layout[j].ptr
  }

  predicate Selected(a: Allocation, tags: Option<seq<string>>) {
    tags.None? || a.tag in tags.value
  }

  /** The regions a snapshot takes: what is mapped, except the KV cache. */
  function Regions(allocations: seq<Allocation>): Saved {
    if |allocations| == 0 then map[]
    else
      var a := allocations[|allocations| - 1];
      var rest := Regions(allocations[..|allocations| - 1]);
      if a.tag != KV_CACHE && !a.asleep then rest[a.ptr := a.bytes] else rest
  }

  lemma {:induction false} RegionsCover(allocations: seq<Allocation>, original: Saved)
    requires forall i | 0 <= i < |allocations| ::
               !allocations[i].asleep && Preserved(allocations[i], None, original)
    ensures forall i | 0 <= i < |allocations| && allocations[i].tag != KV_CACHE ::
              allocations[i].ptr in Regions(allocations)
    ensures forall p | p in Regions(allocations) :: p in original && Regions(allocations)[p] == original[p]
  {
    if |allocations| > 0 {
      RegionsCover(allocations[..|allocations| - 1], original);
    }
  }

  function AwakeCount(allocations: seq<Allocation>): nat {
    if |allocations| == 0 then 0
    else AwakeCount(allocations[..|allocations| - 1]) + if allocations[|allocations| - 1].asleep then 0 else 1
  }

  lemma {:induction false} OneFallsAsleep(allocations: seq<Allocation>, i: nat, b: Allocation)
    requires i < |allocations| && !allocations[i].asleep && b.asleep
    ensures AwakeCount(allocations[i := b]) + 1 == AwakeCount(allocations)
    decreases |allocations|
  {
    var n, t := |allocations| - 1, allocations[i := b];
    if i < n {
      OneFallsAsleep(allocations[..n], i, b);
      assert t[..n] == allocations[..n][i := b];
    } else {
      assert t[..n] == allocations[..n];
    }
  }

  class DiskSleepBackend {
    const rank: nat
    const journal: Journal
    var state: State
    var snapshot: Option<Saved>
    var allocations: seq<Allocation>
    /** Number of mapped allocations released so far. */
    var unmaps: nat
    /** The outcome of each fallible call in turn. */
    const faults: nat -> bool
    var tick: nat
    ghost const layout: seq<Place>

    /** Every mapped allocation outside the KV cache holds its original bytes, every unmapped one is
        covered by the snapshot, and a snapshot covers all of them. */
    ghost predicate Covered(original: Saved)
      reads this
    {
      && |allocations| == |layout| && DistinctPlaces(layout)
      && (forall i | 0 <= i < |allocations| ::
            && allocations[i].ptr == layout[i].ptr && allocations[i].tag == layout[i].tag
            && Preserved(allocations[i], snapshot, original))
      && (snapshot.Some? ==> forall p | p in snapshot.value :: p in original && snapshot.value[p] == original[p])
      && (snapshot.Some? ==> forall i | 0 <= i < |layout| && layout[i].tag != KV_CACHE ::
                               layout[i].ptr in snapshot.value)
    }

    /** The weights are safe; what runs is mapped, and only what is running has no snapshot. */
    ghost predicate Safe(original: Saved)
      reads this
    {
      && Covered(original)
      && (snapshot.None? ==> state.RUNNING?)
      && (state.RUNNING? ==> forall i | 0 <= i < |allocations| :: !allocations[i].asleep)
    }

    /** The journal knows whether this rank holds a snapshot. */
    ghost predicate Journaled()
      reads this, journal
    {
      snapshot.Some? <==> Held(journal.events, rank)
    }

    predicate AllAsleep()
      reads this
    {
      forall i | 0 <= i < |allocations| :: allocations[i].asleep
    }

    predicate Resident()
      reads this
    {
      state.RUNNING? && snapshot.None? && forall i | 0 <= i < |allocations| :: !allocations[i].asleep
    }

    constructor (rank: nat, journal: Journal, allocations: seq<Allocation>, faults: nat -> bool)
      ensures this.rank == rank && this.journal == journal
      ensures this.allocations == allocations && state.RUNNING? && snapshot.None? && unmaps == 0
      ensures |layout| == |allocations|
      ensures forall i | 0 <= i < |allocations| :: layout[i] == Place(allocations[i].ptr, allocations[i].tag)
    {
      this.rank, this.journal, this.allocations, this.faults := rank, journal, allocations, faults;
      state, snapshot, unmaps, tick := RUNNING, None, 0, 0;
      layout := seq(|allocations|, i requires 0 <= i < |allocations| => Place(allocations[i].ptr, allocations[i].tag));
    }

    /** No call of this worker fails. */
    ghost predicate Faultless() { forall t: nat :: !faults(t) }

    /** Some call made since the given tick has failed. */
    ghost predicate FailedSince(start: nat)
      reads this`tick
    {
      exists t: nat | start <= t < tick :: faults(t)
    }

    /** The last call made so far has failed. */
    ghost predicate LastFailed()
      reads this`tick
    {
      tick > 0 && faults(tick - 1)
    }

    method Faulty() returns (f: bool)
      modifies this`tick
      ensures tick == old(tick) + 1 && f == faults(old(tick))
    {
      f := faults(tick);
      tick := tick + 1;
    }

    method Prepare(ghost original: Saved) returns (ok: bool)
      requires Safe(original)
      modifies this`snapshot, this`tick, journal
      ensures Safe(original)
      ensures ok <==> snapshot.Some?
      ensures tick == old(tick) + (if old(snapshot).Some? then 0 else 1) && (ok <==> !FailedSince(old(tick)))
      ensures Faultless() ==> ok
      ensures old(snapshot).Some? ==> snapshot == old(snapshot)
      ensures journal.events == old(journal.events) + if old(snapshot).Some? then [] else [Prepared(rank, ok)]
    {
      if snapshot.Some? {
        return true;
      }
      var f := Faulty();
      journal.events := journal.events + [Prepared(rank, !f)];
      if f {
        return false;
      }
      RegionsCover(allocations, original);
      snapshot := Some(Regions(allocations));
      ok := true;
    }

    method CancelPreparation(ghost original: Saved) returns (ok: bool)
      requires Safe(original)
      modifies this`snapshot, this`tick, journal
      ensures Safe(original)
      ensures snapshot == if state.RUNNING? then None else old(snapshot)
      ensures !state.RUNNING? ==> !ok
      ensures tick >= old(tick) && (state.RUNNING? ==> (ok <==> !FailedSince(old(tick))))
      ensures Faultless() && state.RUNNING? ==> ok
      ensures journal.events
           == old(journal.events) + if old(snapshot).Some? && snapshot.None? then [Dropped(rank)] else []
    {
      if !state.RUNNING? {
        return false;
      }
      var had := snapshot.Some?;
      snapshot := None;
      ok := true;
      if had {
        journal.events := journal.events + [Dropped(rank)];
        var f := Faulty();
        ok := !f;
      }
    }

    /** Releases a mapped allocation. */
    method Release(i: nat, ghost original: Saved)
      requires Covered(original) && snapshot.Some? && i < |allocations| && !allocations[i].asleep
      modifies this`allocations, this`unmaps, journal
      ensures Covered(original)
      ensures allocations == old(allocations)[i := allocations[i]] && allocations[i].asleep
      ensures unmaps == old(unmaps) + 1 && AwakeCount(allocations) + 1 == AwakeCount(old(allocations))
      ensures journal.events == old(journal.events) + Unmaps(rank, 1)
    {
      var released := allocations[i].(asleep := true, bytes := []);
      OneFallsAsleep(allocations, i, released);
      unmaps := unmaps + 1;
      journal.events := journal.events + [Unmapped(rank)];
      allocations := allocations[i := released];
      assert [Unmapped(rank)] == Unmaps(rank, 1);
    }

    /** Releases one allocation if it is mapped; a fault leaves it as it was. */
    method UnmapOne(i: nat, ghost original: Saved) returns (ok: bool)
      requires Covered(original) && snapshot.Some? && i < |allocations|
      modifies this`allocations, this`tick, this`unmaps, journal
      ensures Covered(original)
      ensures allocations == old(allocations)[i := allocations[i]] && (ok ==> allocations[i].asleep)
      ensures !ok ==> allocations == old(allocations)
      ensures Faultless() ==> ok
      ensures tick - old(tick) == unmaps - old(unmaps) + if ok then 0 else 1
      ensures (ok <==> !FailedSince(old(tick))) && (!ok ==> LastFailed())
      ensures unmaps - old(unmaps) == AwakeCount(old(allocations)) - AwakeCount(allocations) >= 0
      ensures journal.events == old(journal.events) + Unmaps(rank, unmaps - old(unmaps))
    {
      assert journal.events + Unmaps(rank, 0) == journal.events;
      if allocations[i].asleep {
        return true;
      }
      var f := Faulty();
      ok := !f;
      if ok {
        Release(i, original);
      }
    }

    /** The loop that unmaps everything that is mapped. */
    method UnmapAll(ghost original: Saved) returns (ok: bool)
      requires Covered(original) && snapshot.Some?
      modifies this`allocations, this`tick, this`unmaps, journal
      ensures Covered(original)
      ensures ok ==> AllAsleep()
      ensures Faultless() ==> ok
      // Every release is one call, and the first that fails ends it.
      ensures tick - old(tick) == unmaps - old(unmaps) + if ok then 0 else 1
      ensures (ok <==> !FailedSince(old(tick))) && (!ok ==> LastFailed())
      ensures unmaps - old(unmaps) == AwakeCount(old(allocations)) - AwakeCount(allocations) >= 0
      ensures journal.events == old(journal.events) + Unmaps(rank, unmaps - old(unmaps))
    {
      ghost var before, all, start := journal.events, allocations, unmaps;
      ok := true;
      var i := 0;
      assert before + Unmaps(rank, 0) == before;
      while i < |allocations| && ok
        invariant Covered(original) && i <= |allocations|
        invariant ok ==> forall k | 0 <= k < i :: allocations[k].asleep
        invariant Faultless() ==> ok
        invariant tick - old(tick) == unmaps - start + if ok then 0 else 1
        invariant (ok <==> !FailedSince(old(tick))) && (!ok ==> LastFailed())
        invariant unmaps - start == AwakeCount(all) - AwakeCount(allocations) >= 0
        invariant journal.events == before + Unmaps(rank, unmaps - start)
      {
        ghost var k, n := unmaps - start, unmaps;
        ok := UnmapOne(i, original);
        MoreUnmaps(before, rank, k, unmaps - n);
        i := i + 1;
      }
    }

    method Suspend(level: int, ghost original: Saved) returns (ok: bool)
      requires Safe(original)
      modifies this, journal
      ensures Safe(original)
      ensures if ok then level == 1 && state.SUSPENDED? else (level != 1 ==> unchanged(this))
      ensures old(state).SUSPENDED? ==> unchanged(this)
      ensures tick >= old(tick) && (ok <==> level == 1 && !FailedSince(old(tick)))
      ensures !ok && level == 1 ==> LastFailed() && (state.SUSPENDED? <==> snapshot.Some?)
      ensures Faultless() && level == 1 ==> ok
      ensures ok && !old(state).SUSPENDED? ==> AllAsleep() && snapshot.Some?
      ensures old(snapshot).Some? ==> snapshot == old(snapshot)
      ensures snapshot.None? ==> !ok && state == old(state) && allocations == old(allocations) && unmaps == old(unmaps)
      ensures unmaps - old(unmaps) == AwakeCount(old(allocations)) - AwakeCount(allocations) >= 0
      ensures old(snapshot).Some? ==> journal.events == old(journal.events) + Unmaps(rank, unmaps - old(unmaps))
      ensures old(snapshot).None? ==>
                journal.events == old(journal.events)
                  + (if level == 1 then [Prepared(rank, snapshot.Some?)] else []) + Unmaps(rank, unmaps - old(unmaps))
    {
      if level != 1 {
        return false;
      }
      if state.SUSPENDED? {
        return true;
      }
      ok := Prepare(original);
      if !ok {
        return false;
      }
      ok := UnmapAll(original);
      state := SUSPENDED;
    }

    /** Maps allocation i and restores its bytes; on a fault the new mapping is undone. */
    method MapAndRestore(i: nat, ghost original: Saved) returns (ok: bool)
      requires Covered(original) && snapshot.Some? && i < |allocations| && allocations[i].asleep
      modifies this`allocations, this`tick
      ensures Covered(original) && ok == !allocations[i].asleep
      ensures tick > old(tick) && (ok <==> !FailedSince(old(tick))) && (!ok ==> LastFailed())
      ensures Faultless() ==> ok
      ensures allocations == old(allocations)[i := allocations[i]]
    {
      var a := allocations[i];
      assert Preserved(a, snapshot, original);
      ok := false;
      var f := Faulty();
      if f {
        return;
      }
      var garbage: seq<byte> := *;
      a := a.(bytes := garbage);
      if a.ptr in snapshot.value {
        f := Faulty();
        if f {
          return;
        }
        a := a.(bytes := snapshot.value[a.ptr]);
      }
      allocations := allocations[i := a.(asleep := false)];
      ok := true;
    }

    /** The loop that wakes the selected allocations and touches no others. */
    method RestoreSelected(tags: Option<seq<string>>, ghost original: Saved) returns (ok: bool)
      requires Covered(original) && snapshot.Some?
      modifies this`allocations, this`tick
      ensures Covered(original)
      ensures forall i | 0 <= i < |allocations| && allocations[i] != old(allocations)[i] ::
                old(allocations)[i].asleep && (tags.Some? ==> allocations[i].tag in tags.value)
      ensures ok ==> forall i | 0 <= i < |allocations| && (tags.Some? ==> allocations[i].tag in tags.value) ::
                       !allocations[i].asleep
      ensures tick >= old(tick) && (ok <==> !FailedSince(old(tick))) && (!ok ==> LastFailed())
      ensures Faultless() ==> ok
    {
      for i := 0 to |allocations|
        invariant Covered(original) && tick >= old(tick) && !FailedSince(old(tick))
        invariant forall k | i <= k < |allocations| :: allocations[k] == old(allocations)[k]
        invariant forall k | 0 <= k < i && Selected(allocations[k], tags) :: !allocations[k].asleep
        invariant forall k | 0 <= k < i ::
                    allocations[k] != old(allocations)[k] ==>
                      old(allocations)[k].asleep && Selected(allocations[k], tags)
      {
        if allocations[i].asleep && Selected(allocations[i], tags) {
          ok := MapAndRestore(i, original);
          if !ok {
            return;
          }
        }
      }
      ok := true;
    }

    /** The restores, and the final device synchronisation, which may still fail. */
    method RestoreAndSynchronise(tags: Option<seq<string>>, ghost original: Saved) returns (ok: bool)
      requires Covered(original) && snapshot.Some?
      modifies this`allocations, this`tick
      ensures Covered(original)
      ensures forall i | 0 <= i < |allocations| && allocations[i] != old(allocations)[i] ::
                old(allocations)[i].asleep && (tags.Some? ==> allocations[i].tag in tags.value)
      ensures ok ==> forall i | 0 <= i < |allocations| && (tags.Some? ==> allocations[i].tag in tags.value) ::
                       !allocations[i].asleep
      ensures tick > old(tick) && (ok <==> !FailedSince(old(tick))) && (!ok ==> LastFailed())
      ensures Faultless() ==> ok
    {
      ok := RestoreSelected(tags, original);
      if ok {
        var f := Faulty();
        ok := !f;
      }
    }

    /** Wakes the selected allocations. A full resume that succeeds ends running, with everything
        mapped and no snapshot; a failed one keeps the snapshot. */
    method Resume(tags: Option<seq<string>>, ghost original: Saved) returns (ok: bool)
      requires Safe(original)
      modifies this`state, this`snapshot, this`allocations, this`tick, journal
      ensures Safe(original)
      ensures journal.events
           == old(journal.events) + if old(snapshot).Some? && snapshot.None? then [Dropped(rank)] else []
      ensures old(snapshot).None? ==> ok && state == old(state) && snapshot == None && allocations == old(allocations)
      // Only sleeping allocations change whose tag is listed, and success maps all of these.
      ensures forall i | 0 <= i < |allocations| && allocations[i] != old(allocations)[i] ::
                old(allocations)[i].asleep && (tags.Some? ==> allocations[i].tag in tags.value)
      ensures ok ==> forall i | 0 <= i < |allocations| && (tags.Some? ==> allocations[i].tag in tags.value) ::
                       !allocations[i].asleep
      ensures tick >= old(tick) && (tick == old(tick) <==> old(snapshot).None?)
      ensures (ok <==> !FailedSince(old(tick))) && (!ok ==> LastFailed())
      // Only a transfer buffer that cannot be allocated, the first call, leaves the state at RESUMING.
      ensures !ok ==> state == if tick == old(tick) + 1 then RESUMING else SUSPENDED
      ensures ok && tags.None? ==> Resident()
      ensures Faultless() ==> ok
      ensures !ok ==> snapshot == old(snapshot) && snapshot.Some? && !state.RUNNING?
      ensures ok && snapshot.Some? ==> snapshot == old(snapshot) && state.SUSPENDED?
    {
      if snapshot.None? {
        return true;
      }
      state := RESUMING;
      var f := Faulty();
      if f {
        // The transfer buffer could not be allocated.
        return false;
      }
      ok := RestoreAndSynchronise(tags, original);
      if !ok {
        state := SUSPENDED;
        return;
      }
      if exists i | 0 <= i < |allocations| :: allocations[i].asleep {
        state := SUSPENDED;
        return;
      }
      // A directory that cannot be removed is only logged.
      snapshot := None;
      state := RUNNING;
      journal.events := journal.events + [Dropped(rank)];
    }
  }

  /** A worker that has just been made, over mapped allocations at different places, keeps its weights safe. */
  lemma NewIsSafe(backend: DiskSleepBackend, original: Saved)
    requires backend.state.RUNNING? && backend.snapshot.None? && |backend.layout| == |backend.allocations|
    requires DistinctPlaces(backend.layout)
    requires forall i | 0 <= i < |backend.allocations| ::
               var a := backend.allocations[i];
               !a.asleep && backend.layout[i] == Place(a.ptr, a.tag)
               && (a.tag != KV_CACHE ==> a.ptr in original && original[a.ptr] == a.bytes)
    ensures backend.Safe(original) && backend.Resident()
  {
  }

  // ------------------------------------------------------------------------------------------
  // Any sequence of operations
  // ------------------------------------------------------------------------------------------

  datatype Operation =
    | DoPrepare | DoCancel | DoSuspend(level: int) | DoResume(tags: Option<seq<string>>)
    | WriteKv(i: nat, bytes: seq<byte>)

  /** This rank has released an allocation only while it held a snapshot. */
  ghost predicate ReleasedOnlyHeld(events: seq<Event>, rank: nat) {
    forall p | 0 <= p < |events| && events[p] == Unmapped(rank) :: Held(events[..p], rank)
  }

  lemma NoteKeepsReleases(events: seq<Event>, e: Event, rank: nat)
    requires ReleasedOnlyHeld(events, rank) && (e == Unmapped(rank) ==> Held(events, rank))
    ensures ReleasedOnlyHeld(events + [e], rank)
    ensures Held(events + [e], rank) == (e == Prepared(rank, true) || (e != Dropped(rank) && Held(events, rank)))
  {
    var more := events + [e];
    assert more[..|more| - 1] == events;
    forall p | 0 <= p < |more| && more[p] == Unmapped(rank) ensures Held(more[..p], rank) {
      assert p < |events| ==> more[..p] == events[..p];
    }
  }

  lemma {:induction false} ReleasesKeepReleases(events: seq<Event>, rank: nat, k: nat)
    requires ReleasedOnlyHeld(events, rank) && (k > 0 ==> Held(events, rank))
    ensures ReleasedOnlyHeld(events + Unmaps(rank, k), rank)
    ensures Held(events + Unmaps(rank, k), rank) == Held(events, rank)
    decreases k
  {
    if k == 0 {
      assert events + Unmaps(rank, 0) == events;
    } else {
      ReleasesKeepReleases(events, rank, k - 1);
      NoteKeepsReleases(events + Unmaps(rank, k - 1), Unmapped(rank), rank);
      assert events + Unmaps(rank, k) == (events + Unmaps(rank, k - 1)) + [Unmapped(rank)];
    }
  }

  /** Whatever operations are called, in whatever order and with whatever faults, the weights are
      safe afterwards, no allocation has been released without a snapshot held, and a full resume that
      succeeds as the last operation leaves the weights resident. */
  method RunOperations(backend: DiskSleepBackend, ops: seq<Operation>, ghost original: Saved)
    returns (ok: bool)
    requires backend.Safe(original) && backend.Journaled()
    requires ReleasedOnlyHeld(backend.journal.events, backend.rank)
    modifies backend, backend.journal
    ensures backend.Safe(original) && backend.Journaled()
    ensures ReleasedOnlyHeld(backend.journal.events, backend.rank)
    ensures |ops| > 0 && ops[|ops| - 1] == DoResume(None) && ok ==> backend.Resident()
  {
    ok := true;
    for n := 0 to |ops|
      invariant backend.Safe(original) && backend.Journaled()
      invariant ReleasedOnlyHeld(backend.journal.events, backend.rank)
      invariant n > 0 && ops[n - 1] == DoResume(None) && ok ==> backend.Resident()
    {
      ok := RunOperation(backend, ops[n], original, ok);
    }
  }

  method SuspendNoted(backend: DiskSleepBackend, level: int, ghost original: Saved) returns (ok: bool)
    requires backend.Safe(original) && backend.Journaled()
    requires ReleasedOnlyHeld(backend.journal.events, backend.rank)
    modifies backend, backend.journal
    ensures backend.Safe(original) && backend.Journaled()
    ensures ReleasedOnlyHeld(backend.journal.events, backend.rank)
  {
    ghost var events, r, unmaps := backend.journal.events, backend.rank, backend.unmaps;
    ghost var had := backend.snapshot.Some?;
    ok := backend.Suspend(level, original);
    ghost var e, k := Prepared(r, backend.snapshot.Some?), backend.unmaps - unmaps;
    NoteKeepsReleases(events, e, r);
    ghost var noted := if had || level != 1 then events else events + [e];
    assert events + [] == events;
    ReleasesKeepReleases(noted, r, k);
    assert backend.journal.events == noted + Unmaps(r, k);
  }

  method RunOperation(backend: DiskSleepBackend, op: Operation, ghost original: Saved, before: bool) returns (ok: bool)
    requires backend.Safe(original) && backend.Journaled()
    requires ReleasedOnlyHeld(backend.journal.events, backend.rank)
    modifies backend, backend.journal
    ensures backend.Safe(original) && backend.Journaled()
    ensures ReleasedOnlyHeld(backend.journal.events, backend.rank)
    ensures op == DoResume(None) && ok ==> backend.Resident()
  {
    ghost var events, r := backend.journal.events, backend.rank;
    assert events + [] == events;
    match op {
      case DoPrepare =>
        NoteKeepsReleases(events, Prepared(r, true), r);
        NoteKeepsReleases(events, Prepared(r, false), r);
        ok := backend.Prepare(original);
      case DoCancel =>
        NoteKeepsReleases(events, Dropped(r), r);
        ok := backend.CancelPreparation(original);
      case DoSuspend(level) =>
        ok := SuspendNoted(backend, level, original);
      case DoResume(tags) =>
        NoteKeepsReleases(events, Dropped(r), r);
        ok := backend.Resume(tags, original);
      case WriteKv(i, bytes) =>
        ok := before;
        if i < |backend.allocations| && backend.allocations[i].tag == KV_CACHE && !backend.allocations[i].asleep {
          backend.allocations := backend.allocations[i := backend.allocations[i].(bytes := bytes)];
        }
    }
  }
}
