/** The two-phase disk sleep over all tensor-parallel ranks: prepare every rank or cancel every
    rank, then unmap, then roll every rank back if any of them fails. */
module TwoPhaseSleep {
  import opened DiskSleep
  import opened Options
  import opened SleepJournal

  datatype SleepState = ACTIVE | SLEEPING | WAKING

  const DISK_SLEEP_LEVEL := 1

  /** An executor and scheduler driving the ranks' backends; originals holds each rank's weights. */
  class Engine {
    const ranks: seq<DiskSleepBackend>
    const journal: Journal
    ghost const originals: seq<Saved>
    var sleepState: SleepState
    var schedulerPaused: bool
    var executorSleeping: bool
    const faults: nat -> bool
    var tick: nat

    /** The ranks are safe, the journal is true to the ranks and to the scheduler, and in the whole
        journal nothing was released unless scheduling was paused and every rank held a snapshot. */
    ghost predicate Valid()
      reads this, ranks, journal
    {
      && RanksValid()
      && (schedulerPaused <==> SchedulerStopped(journal.events))
      && TwoPhase(journal.events, |ranks|)
    }

    ghost predicate RanksValid()
      reads ranks, journal
    {
      && |originals| == |ranks|
      && (forall i, j | 0 <= i < j < |ranks| :: ranks[i] != ranks[j])
      && (forall i | 0 <= i < |ranks| :: RankValid(i))
    }

    ghost predicate RankValid(i: nat)
      requires i < |ranks| == |originals|
      reads ranks, journal
    {
      && ranks[i].rank == i && ranks[i].journal == journal
      && ranks[i].Safe(originals[i]) && (ranks[i].snapshot.Some? <==> Held(journal.events, i))
    }

    /** Awake, with every rank's weights in place and no snapshot left over. */
    ghost predicate Awake()
      reads this, ranks
    {
      && sleepState.ACTIVE? && !schedulerPaused && !executorSleeping
      && forall i | 0 <= i < |ranks| :: ranks[i].Resident()
    }

    ghost predicate Asleep()
      reads this, ranks
    {
      && sleepState.SLEEPING? && schedulerPaused && executorSleeping
      && forall i | 0 <= i < |ranks| :: ranks[i].state.SUSPENDED? && ranks[i].AllAsleep() && ranks[i].snapshot.Some?
    }

    constructor (ranks: seq<DiskSleepBackend>, journal: Journal, ghost originals: seq<Saved>, faults: nat -> bool)
      ensures this.ranks == ranks && this.journal == journal && this.originals == originals
      ensures sleepState.ACTIVE? && !schedulerPaused && !executorSleeping
      // Over different ranks whose weights are in place, with nothing noted yet, it is valid and awake.
      ensures journal.events == [] && |originals| == |ranks|
              && (forall i, j | 0 <= i < j < |ranks| :: ranks[i] != ranks[j])
              && (forall i | 0 <= i < |ranks| ::
                    && ranks[i].rank == i && ranks[i].journal == journal
                    && ranks[i].Safe(originals[i]) && ranks[i].Resident())
              ==> Valid() && Awake()
    {
      this.ranks, this.journal, this.originals, this.faults := ranks, journal, originals, faults;
      sleepState, schedulerPaused, executorSleeping, tick := ACTIVE, false, false, 0;
    }

    /** Neither the engine nor any rank fails a call. */
    ghost predicate Faultless() {
      (forall t: nat :: !faults(t)) && RanksFaultless()
    }

    ghost predicate RanksFaultless() {
      forall i | 0 <= i < |ranks| :: ranks[i].Faultless()
    }

    method Faulty() returns (f: bool)
      modifies this`tick
      ensures tick == old(tick) + 1 && f == faults(old(tick))
    {
      f := faults(tick);
      tick := tick + 1;
    }

    method PauseScheduler()
      requires Valid()
      modifies this`schedulerPaused, journal
      ensures Valid() && schedulerPaused && journal.events == old(journal.events) + [SchedulerPaused]
    {
      Appended(journal.events, SchedulerPaused, |ranks|);
      schedulerPaused := true;
      journal.events := journal.events + [SchedulerPaused];
      forall k | 0 <= k < |ranks| ensures RankValid(k) { assert old(RankValid(k)); }
    }

    method ResumeScheduler()
      requires Valid()
      modifies this`schedulerPaused, journal
      ensures Valid() && !schedulerPaused && journal.events == old(journal.events) + [SchedulerResumed]
    {
      Appended(journal.events, SchedulerResumed, |ranks|);
      schedulerPaused := false;
      journal.events := journal.events + [SchedulerResumed];
      forall k | 0 <= k < |ranks| ensures RankValid(k) { assert old(RankValid(k)); }
    }

    method PrepareRank(i: nat) returns (ok: bool)
      requires Valid() && i < |ranks|
      modifies ranks[i], journal
      ensures Valid() && old(journal.events) <= journal.events
      ensures ranks[i].state == old(ranks[i].state) && ranks[i].unmaps == old(ranks[i].unmaps)
      ensures ok <==> ranks[i].snapshot.Some?
      ensures ranks[i].tick == old(ranks[i].tick) + if old(ranks[i].snapshot).Some? then 0 else 1
      ensures ok <==> !ranks[i].FailedSince(old(ranks[i].tick))
      ensures Faultless() ==> ok
      ensures old(ranks[i].snapshot).Some? ==> ranks[i].snapshot == old(ranks[i].snapshot)
    {
      Appended(journal.events, Prepared(i, true), |ranks|);
      Appended(journal.events, Prepared(i, false), |ranks|);
      assert RankValid(i) && journal.events + [] == journal.events;
      ghost var events := journal.events;
      ok := ranks[i].Prepare(originals[i]);
      forall k | 0 <= k < |ranks| ensures RankValid(k) { assert old(RankValid(k)); }
    }

    /** Every rank answers; a failure is returned as data. */
    method PrepareRanks() returns (ok: bool)
      requires Valid() && forall i | 0 <= i < |ranks| :: ranks[i].Resident()
      modifies ranks, journal
      ensures Valid() && old(journal.events) <= journal.events
      ensures forall i | 0 <= i < |ranks| :: ranks[i].state.RUNNING? && ranks[i].unmaps == old(ranks[i].unmaps)
      ensures ok <==> |ranks| > 0 && forall i | 0 <= i < |ranks| :: ranks[i].snapshot.Some?
      // Each rank makes one call, and it has a snapshot if and only if that call succeeds.
      ensures forall i | 0 <= i < |ranks| ::
                ranks[i].tick == old(ranks[i].tick) + 1 && (ranks[i].snapshot.Some? <==> !ranks[i].LastFailed())
      ensures Faultless() && |ranks| > 0 ==> ok
    {
      ok := |ranks| > 0;
      for i := 0 to |ranks|
        invariant Valid() && old(journal.events) <= journal.events
        invariant forall k | 0 <= k < |ranks| :: ranks[k].state.RUNNING? && ranks[k].unmaps == old(ranks[k].unmaps)
        invariant ok <==> |ranks| > 0 && forall k | 0 <= k < i :: ranks[k].snapshot.Some?
        invariant forall k | 0 <= k < i ::
                    ranks[k].tick == old(ranks[k].tick) + 1 && (ranks[k].snapshot.Some? <==> !ranks[k].LastFailed())
        invariant forall k | i <= k < |ranks| :: ranks[k].tick == old(ranks[k].tick) && ranks[k].snapshot.None?
        invariant Faultless() && |ranks| > 0 ==> ok
      {
        var prepared := PrepareRank(i);
        ok := ok && prepared;
      }
    }

    method CancelRank(i: nat)
      requires Valid() && i < |ranks| && ranks[i].state.RUNNING?
      modifies ranks[i], journal
      ensures Valid() && old(journal.events) <= journal.events && ranks[i].snapshot.None?
      ensures ranks[i].state == old(ranks[i].state) && ranks[i].unmaps == old(ranks[i].unmaps)
      ensures ranks[i].tick >= old(ranks[i].tick)
    {
      Appended(journal.events, Dropped(i), |ranks|);
      assert RankValid(i) && journal.events + [] == journal.events;
      var cancelled := ranks[i].CancelPreparation(originals[i]);
      forall k | 0 <= k < |ranks| ensures RankValid(k) { assert old(RankValid(k)); }
    }

    method CancelRanks()
      requires Valid() && forall i | 0 <= i < |ranks| :: ranks[i].state.RUNNING?
      modifies ranks, journal
      ensures Valid() && old(journal.events) <= journal.events
      ensures forall i | 0 <= i < |ranks| :: ranks[i].Resident() && ranks[i].unmaps == old(ranks[i].unmaps)
      ensures forall i | 0 <= i < |ranks| :: ranks[i].tick >= old(ranks[i].tick)
    {
      for i := 0 to |ranks|
        invariant Valid() && old(journal.events) <= journal.events
        invariant forall k | 0 <= k < |ranks| :: ranks[k].state.RUNNING? && ranks[k].unmaps == old(ranks[k].unmaps)
        invariant forall k | 0 <= k < i :: ranks[k].snapshot.None?
        invariant forall k | 0 <= k < |ranks| :: ranks[k].tick >= old(ranks[k].tick)
      {
        CancelRank(i);
      }
      forall k | 0 <= k < |ranks| ensures ranks[k].Resident() { assert RankValid(k); }
    }

    method SuspendRank(i: nat) returns (ok: bool)
      requires Valid() && i < |ranks| && schedulerPaused && ranks[i].state.RUNNING?
      requires forall k | 0 <= k < |ranks| :: ranks[k].snapshot.Some?
      modifies ranks[i], journal
      ensures Valid() && old(journal.events) <= journal.events && ranks[i].snapshot.Some?
      ensures ok ==> ranks[i].state.SUSPENDED? && ranks[i].AllAsleep()
      ensures ranks[i].tick >= old(ranks[i].tick) && (ok <==> !ranks[i].FailedSince(old(ranks[i].tick)))
      ensures Faultless() ==> ok
    {
      ghost var events, unmaps := journal.events, ranks[i].unmaps;
      forall k | 0 <= k < |ranks| ensures Held(events, k) { assert RankValid(k); }
      assert RankValid(i);
      ok := ranks[i].Suspend(DISK_SLEEP_LEVEL, originals[i]);
      UnmapsAppended(events, i, ranks[i].unmaps - unmaps, |ranks|);
      forall k | 0 <= k < |ranks| ensures RankValid(k) { assert old(RankValid(k)); }
    }

    /** The collective that suspends every worker; it fails when any of them does. */
    method SuspendRanks() returns (ok: bool)
      requires Valid() && schedulerPaused
      requires forall i | 0 <= i < |ranks| :: ranks[i].state.RUNNING? && ranks[i].snapshot.Some?
      modifies ranks, journal
      ensures Valid() && old(journal.events) <= journal.events && forall i | 0 <= i < |ranks| :: ranks[i].snapshot.Some?
      ensures ok ==> forall i | 0 <= i < |ranks| :: ranks[i].state.SUSPENDED? && ranks[i].AllAsleep()
      // Every rank is tried, whatever becomes of the others.
      ensures forall i | 0 <= i < |ranks| :: ranks[i].tick >= old(ranks[i].tick)
      ensures forall i | 0 <= i < |ranks| && !ranks[i].FailedSince(old(ranks[i].tick)) ::
                ranks[i].state.SUSPENDED? && ranks[i].AllAsleep()
      ensures ok <==> forall i | 0 <= i < |ranks| :: !ranks[i].FailedSince(old(ranks[i].tick))
      ensures Faultless() ==> ok
    {
      ok := true;
      for i := 0 to |ranks|
        invariant Valid() && old(journal.events) <= journal.events
        invariant forall k | 0 <= k < |ranks| :: ranks[k].snapshot.Some?
        invariant forall k | i <= k < |ranks| :: ranks[k].state.RUNNING?
        invariant forall k | i <= k < |ranks| :: ranks[k].tick == old(ranks[k].tick)
        invariant forall k | 0 <= k < i :: ranks[k].tick >= old(ranks[k].tick)
        invariant forall k | 0 <= k < i && !ranks[k].FailedSince(old(ranks[k].tick)) ::
                    ranks[k].state.SUSPENDED? && ranks[k].AllAsleep()
        invariant ok <==> forall k | 0 <= k < i :: !ranks[k].FailedSince(old(ranks[k].tick))
        invariant Faultless() ==> ok
      {
        var suspended := SuspendRank(i);
        ok := ok && suspended;
      }
    }

    method ResumeRank(i: nat) returns (ok: bool)
      requires Valid() && i < |ranks|
      modifies ranks[i], journal
      ensures Valid() && old(journal.events) <= journal.events
      ensures ok ==> ranks[i].Resident()
      ensures ranks[i].tick >= old(ranks[i].tick) && (ok <==> !ranks[i].FailedSince(old(ranks[i].tick)))
      ensures !ok ==> ranks[i].LastFailed()
      ensures old(ranks[i].snapshot).Some? ==> ranks[i].tick > old(ranks[i].tick)
      ensures ranks[i].Faultless() ==> ok
      ensures ranks[i].unmaps == old(ranks[i].unmaps)
    {
      Appended(journal.events, Dropped(i), |ranks|);
      assert RankValid(i) && journal.events + [] == journal.events;
      ok := ranks[i].Resume(None, originals[i]);
      forall k | 0 <= k < |ranks| ensures RankValid(k) { assert old(RankValid(k)); }
    }

    /** The collective that resumes every worker completely; it fails when any of them does. */
    method ResumeRanks() returns (ok: bool)
      requires Valid()
      modifies ranks, journal
      ensures Valid() && old(journal.events) <= journal.events
      ensures ok ==> forall i | 0 <= i < |ranks| :: ranks[i].Resident()
      // Every rank is tried, whatever becomes of the others.
      ensures forall i | 0 <= i < |ranks| :: ranks[i].tick >= old(ranks[i].tick)
      ensures forall i | 0 <= i < |ranks| && !ranks[i].FailedSince(old(ranks[i].tick)) :: ranks[i].Resident()
      ensures ok <==> forall i | 0 <= i < |ranks| :: !ranks[i].FailedSince(old(ranks[i].tick))
      ensures (forall i | 0 <= i < |ranks| :: old(ranks[i].snapshot).Some?) ==>
                (ok <==> forall i | 0 <= i < |ranks| :: !ranks[i].LastFailed())
      ensures RanksFaultless() ==> ok
    {
      ok := true;
      for i := 0 to |ranks|
        invariant Valid() && old(journal.events) <= journal.events
        invariant forall k | i <= k < |ranks| ::
                    ranks[k].tick == old(ranks[k].tick) && ranks[k].snapshot == old(ranks[k].snapshot)
        invariant forall k | 0 <= k < i :: ranks[k].tick >= old(ranks[k].tick)
        invariant forall k | 0 <= k < i && !ranks[k].FailedSince(old(ranks[k].tick)) :: ranks[k].Resident()
        invariant ok <==> forall k | 0 <= k < i :: !ranks[k].FailedSince(old(ranks[k].tick))
        invariant forall k | 0 <= k < i && old(ranks[k].snapshot).Some? ::
                    ranks[k].LastFailed() <==> ranks[k].FailedSince(old(ranks[k].tick))
      {
        var resumed := ResumeRank(i);
        ok := ok && resumed;
      }
    }

    /** EngineCore.sleep: the scheduler is paused first, and only then are workers suspended. */
    method EngineSleep() returns (ok: bool)
      requires Valid() && forall i | 0 <= i < |ranks| :: ranks[i].state.RUNNING? && ranks[i].snapshot.Some?
      requires !executorSleeping
      modifies this`schedulerPaused, this`executorSleeping, this`tick, ranks, journal
      ensures Valid() && schedulerPaused && executorSleeping == ok
      ensures old(journal.events) + [SchedulerPaused] <= journal.events
      ensures ok ==> forall i | 0 <= i < |ranks| ::
                       ranks[i].state.SUSPENDED? && ranks[i].AllAsleep() && ranks[i].snapshot.Some?
      ensures forall i | 0 <= i < |ranks| :: ranks[i].tick >= old(ranks[i].tick) && ranks[i].snapshot.Some?
      ensures ok <==> !faults(old(tick)) && forall i | 0 <= i < |ranks| :: !ranks[i].FailedSince(old(ranks[i].tick))
      ensures Faultless() ==> ok
    {
      PauseScheduler();
      var f := Faulty();
      if f {
        return false;
      }
      ok := SuspendRanks();
      executorSleeping := ok;
    }

    /** Every release between lo and the end of the journal comes after a successful preparation of
        every rank, and both after lo. */
    ghost predicate ReleasedAfterAllPrepared(lo: nat)
      reads journal
    {
      forall p, j | lo <= p < |journal.events| && journal.events[p].Unmapped? && 0 <= j < |ranks| ::
        PreparedWithin(journal.events, j, lo, p)
    }

    lemma AwakeReleases(lo: nat, before: seq<Event>)
      requires Valid() && before <= journal.events && lo == |before|
      requires forall j | 0 <= j < |ranks| :: !Held(before, j)
      ensures ReleasedAfterAllPrepared(lo)
    {
      forall p, j | lo <= p < |journal.events| && journal.events[p].Unmapped? && 0 <= j < |ranks|
        ensures PreparedWithin(journal.events, j, lo, p)
      {
        assert journal.events[..lo] == before;
        ReleasesFollowPreparations(journal.events, |ranks|, lo, p, j);
      }
    }

    /** No allocation of any rank is unmapped unless, in this same call, every rank's preparation has
        succeeded before, and not at all if one fails. Afterwards all ranks are suspended, or all are
        resident with their original bytes and the engine is awake, or the rollback failed too, the
        scheduler stays paused and the error is raised. Without faults they are suspended. */
    method Sleep() returns (raised: bool, prepared: bool)
      requires Valid() && Awake()
      modifies this`sleepState, this`schedulerPaused, this`executorSleeping, this`tick, ranks, journal
      ensures Valid() && old(journal.events) <= journal.events
      ensures ReleasedAfterAllPrepared(|old(journal.events)|)
      ensures !prepared ==> Awake() && forall i | 0 <= i < |ranks| :: ranks[i].unmaps == old(ranks[i].unmaps)
      ensures raised ==> prepared && sleepState.SLEEPING? && schedulerPaused
      ensures !raised ==> Asleep() || Awake()
      // Every rank's first call is its preparation; the engine makes one call before the workers suspend.
      ensures prepared <==> |ranks| > 0 && forall i | 0 <= i < |ranks| :: !ranks[i].faults(old(ranks[i].tick))
      ensures Asleep() <==>
                && prepared && !faults(old(tick))
                && forall i | 0 <= i < |ranks| :: !ranks[i].FailedSince(old(ranks[i].tick))
      // It raises exactly if the rollback fails, whose calls are the ranks' last ones.
      ensures raised <==> prepared && exists i | 0 <= i < |ranks| :: ranks[i].LastFailed()
      ensures RanksFaultless() ==> !raised
      ensures Faultless() && |ranks| > 0 ==> Asleep() && !raised && prepared
    {
      ghost var before := journal.events;
      forall j | 0 <= j < |ranks| ensures !Held(before, j) { assert RankValid(j) && ranks[j].Resident(); }
      raised, prepared := SleepSteps();
      AwakeReleases(|before|, before);
    }

    /** The steps of _sleep. */
    method SleepSteps() returns (raised: bool, prepared: bool)
      requires Valid() && Awake()
      modifies this`sleepState, this`schedulerPaused, this`executorSleeping, this`tick, ranks, journal
      ensures Valid() && old(journal.events) <= journal.events
      ensures !prepared ==> Awake() && forall i | 0 <= i < |ranks| :: ranks[i].unmaps == old(ranks[i].unmaps)
      ensures raised ==> prepared && sleepState.SLEEPING? && schedulerPaused
      ensures !raised ==> Asleep() || Awake()
      // Every rank's first call is its preparation; the engine makes one call before the workers suspend.
      ensures prepared <==> |ranks| > 0 && forall i | 0 <= i < |ranks| :: !ranks[i].faults(old(ranks[i].tick))
      ensures Asleep() <==>
                && prepared && !faults(old(tick))
                && forall i | 0 <= i < |ranks| :: !ranks[i].FailedSince(old(ranks[i].tick))
      // It raises exactly if the rollback fails, whose calls are the ranks' last ones.
      ensures raised <==> prepared && exists i | 0 <= i < |ranks| :: ranks[i].LastFailed()
      ensures RanksFaultless() ==> !raised
      ensures Faultless() && |ranks| > 0 ==> Asleep() && !raised && prepared
    {
      raised := false;
      prepared := PrepareRanks();
      if !prepared {
        CancelRanks();
        sleepState := ACTIVE;
        return;
      }
      forall i | 0 <= i < |ranks| ensures !ranks[i].FailedSince(old(ranks[i].tick)) && !ranks[i].LastFailed() { }
      raised := SuspendOrRollBack();
    }

    /** With every rank prepared: all are suspended if nothing fails, and rolled back otherwise. */
    method SuspendOrRollBack() returns (raised: bool)
      requires Valid() && !executorSleeping
      requires forall i | 0 <= i < |ranks| ::
                 ranks[i].state.RUNNING? && ranks[i].snapshot.Some? && !ranks[i].LastFailed()
      modifies this`sleepState, this`schedulerPaused, this`executorSleeping, this`tick, ranks, journal
      ensures Valid() && old(journal.events) <= journal.events
      ensures raised ==> sleepState.SLEEPING? && schedulerPaused
      ensures !raised ==> Asleep() || Awake()
      ensures forall i | 0 <= i < |ranks| :: ranks[i].tick >= old(ranks[i].tick)
      ensures Asleep() <==>
                !faults(old(tick)) && forall i | 0 <= i < |ranks| :: !ranks[i].FailedSince(old(ranks[i].tick))
      ensures raised <==> exists i | 0 <= i < |ranks| :: ranks[i].LastFailed()
      ensures RanksFaultless() ==> !raised
    {
      sleepState := SLEEPING;
      var ok := EngineSleep();
      if ok {
        forall i | 0 <= i < |ranks| ensures !ranks[i].LastFailed() {
          assert !ranks[i].FailedSince(old(ranks[i].tick)) && !old(ranks[i].LastFailed());
        }
        return false;
      }
      ghost var ticks := seq(|ranks|, i requires 0 <= i < |ranks| reads ranks => ranks[i].tick);
      ghost var engine := !faults(old(tick));
      assert engine ==> exists i | 0 <= i < |ranks| :: ranks[i].FailedSince(old(ranks[i].tick));
      ghost var failed: nat := 0;
      if engine {
        failed :| failed < |ranks| && ranks[failed].FailedSince(old(ranks[failed].tick));
      }
      raised := Rollback();
      assert engine ==> ranks[failed].FailedSince(old(ranks[failed].tick));
    }

    /** The executor may have suspended only some ranks and has not marked itself asleep, so every rank
        is resumed directly before the scheduler is unpaused. */
    method Rollback() returns (raised: bool)
      requires Valid() && schedulerPaused
      modifies this`sleepState, this`schedulerPaused, this`executorSleeping, ranks, journal
      ensures Valid() && old(journal.events) <= journal.events
      ensures if raised then sleepState.SLEEPING? && schedulerPaused && executorSleeping == old(executorSleeping)
              else Awake()
      ensures forall i | 0 <= i < |ranks| :: ranks[i].tick >= old(ranks[i].tick)
      ensures raised <==> exists i | 0 <= i < |ranks| :: ranks[i].FailedSince(old(ranks[i].tick))
      ensures (forall i | 0 <= i < |ranks| :: old(ranks[i].snapshot).Some?) ==>
                (raised <==> exists i | 0 <= i < |ranks| :: ranks[i].LastFailed())
      ensures RanksFaultless() ==> !raised
    {
      var ok := ResumeRanks();
      if !ok {
        sleepState := SLEEPING;
        return true;
      }
      executorSleeping := false;
      ResumeScheduler();
      sleepState := ACTIVE;
      raised := false;
    }

    /** A request on a sleeping engine wakes it; a failed wake leaves it asleep and paused. Without faults
        it does not fail. */
    method Wake() returns (raised: bool)
      requires Valid() && sleepState.SLEEPING? && schedulerPaused && executorSleeping
      modifies this`sleepState, this`schedulerPaused, this`executorSleeping, ranks, journal
      ensures Valid() && old(journal.events) <= journal.events
      ensures if raised then sleepState.SLEEPING? && schedulerPaused && executorSleeping else Awake()
      ensures raised <==> exists i | 0 <= i < |ranks| :: ranks[i].FailedSince(old(ranks[i].tick))
      ensures RanksFaultless() ==> !raised
    {
      sleepState := WAKING;
      var ok := ResumeRanks();
      if !ok {
        sleepState := SLEEPING;
        return true;
      }
      executorSleeping := false;
      ResumeScheduler();
      sleepState := ACTIVE;
      raised := false;
    }

    /** Any number of sleep cycles, with a wake retried as often as needed, never loses a weight and
        never releases an allocation while some rank is unprepared: Valid says so of the whole journal.
        It ends early only when a rollback fails. */
    method Cycle(attempts: seq<nat>) returns (raised: bool)
      requires Valid() && Awake()
      modifies this`sleepState, this`schedulerPaused, this`executorSleeping, this`tick, ranks, journal
      ensures Valid() && old(journal.events) <= journal.events
      ensures ReleasedAfterAllPrepared(|old(journal.events)|)
      ensures raised ==> sleepState.SLEEPING? && schedulerPaused
      ensures !raised ==> Awake() || (sleepState.SLEEPING? && schedulerPaused && executorSleeping)
      ensures RanksFaultless() ==> !raised
      // Without faults each cycle puts the engine to sleep, and one attempt wakes it.
      ensures RanksFaultless() && |attempts| > 0 && attempts[|attempts| - 1] > 0 ==> Awake()
      ensures Faultless() && |ranks| > 0 && |attempts| > 0 && attempts[|attempts| - 1] == 0 ==> sleepState.SLEEPING?
    {
      ghost var before := journal.events;
      forall j | 0 <= j < |ranks| ensures !Held(before, j) { assert RankValid(j) && ranks[j].Resident(); }
      raised := CycleSteps(attempts);
      AwakeReleases(|before|, before);
    }

    method CycleSteps(attempts: seq<nat>) returns (raised: bool)
      requires Valid() && Awake()
      modifies this`sleepState, this`schedulerPaused, this`executorSleeping, this`tick, ranks, journal
      ensures Valid() && old(journal.events) <= journal.events
      ensures raised ==> sleepState.SLEEPING? && schedulerPaused
      ensures !raised ==> Awake() || (sleepState.SLEEPING? && schedulerPaused && executorSleeping)
      ensures RanksFaultless() ==> !raised
      // Without faults each cycle puts the engine to sleep, and one attempt wakes it.
      ensures RanksFaultless() && |attempts| > 0 && attempts[|attempts| - 1] > 0 ==> Awake()
      ensures Faultless() && |ranks| > 0 && |attempts| > 0 && attempts[|attempts| - 1] == 0 ==> sleepState.SLEEPING?
    {
      raised := false;
      for n := 0 to |attempts|
        invariant Valid() && !raised && old(journal.events) <= journal.events
        invariant Awake() || (sleepState.SLEEPING? && schedulerPaused && executorSleeping)
        invariant RanksFaultless() && n > 0 && attempts[n - 1] > 0 ==> Awake()
        invariant Faultless() && |ranks| > 0 && n > 0 && attempts[n - 1] == 0 ==> sleepState.SLEEPING?
      {
        if sleepState.ACTIVE? {
          var prepared: bool;
          raised, prepared := Sleep();
          if raised {
            return;
          }
        }
        var tries := 0;
        while tries < attempts[n] && sleepState.SLEEPING?
          invariant Valid() && !raised && old(journal.events) <= journal.events && tries <= attempts[n]
          invariant Awake() || (sleepState.SLEEPING? && schedulerPaused && executorSleeping)
          invariant RanksFaultless() && tries > 0 ==> Awake()
          invariant Faultless() && |ranks| > 0 && tries == 0 ==> sleepState.SLEEPING?
        {
          var failed := Wake();
          tries := tries + 1;
        }
      }
    }
  }
}
