/** The per-rank flags of the data-parallel engine core and the methods that update them.
    A blocking collective splits a method in two: the part before it and the part after it. */
module DpEngine {
  import opened Arithmetic

  const SYNC_INTERVAL: nat := 32

  /** The fields of one rank that the wave and pause protocol reads and writes. */
  datatype Flags = Flags(running: bool, pending: bool, ignoreWave: bool, paused: bool,
                         counter: nat, wave: int)

  /** What the state all-reduce hands to every rank. */
  datatype SyncResult = SyncResult(unfinished: bool, consensus: bool)

  datatype ResumeEntry = Raised | Ignored | Barrier(flags: Flags)

  const INITIAL_FLAGS := Flags(false, false, false, false, 0, 0)

  function OnPause(f: Flags): Flags {
    f.(paused := true, pending := true, running := true)
  }

  function OnStartWave(f: Flags, newWave: int, excluded: bool): Flags {
    if f.ignoreWave || excluded || newWave < f.wave then f
    else f.(wave := newWave, running := true)
  }

  function OnAddRequest(f: Flags, hasCoordinator: bool, requestWave: int): Flags {
    if !hasCoordinator || requestWave == f.wave then f
    else if requestWave > f.wave then f.(wave := requestWave)
    else if !f.running && !f.paused then f.(running := true)
    else f
  }

  function OnResume(f: Flags): ResumeEntry {
    if f.pending || (f.running && f.ignoreWave) then Raised
    else if f.running then Ignored
    else Barrier(f.(paused := false, ignoreWave := false))
  }

  function AfterResumeBarrier(f: Flags, anyUnfinished: bool): Flags {
    if anyUnfinished then f.(running := true) else f
  }

  /** Counts one forward pass. Only every 32nd one goes on to the all-reduce. */
  function AfterStep(f: Flags): Flags {
    var c := f.counter + 1;
    f.(counter := c, running := if c % SYNC_INTERVAL != 0 then true else f.running)
  }

  function AfterSync(f: Flags, res: SyncResult): Flags {
    var g := if res.consensus then f.(ignoreWave := true, pending := false) else f;
    if res.unfinished then g.(running := true)
    else g.(running := false, wave := g.wave + 1, counter := 0)
  }

  predicate ThrottlePrefills(f: Flags, interval: nat) {
    interval > 1 && f.counter % interval != 0
  }

  // ------------------------------------------------------------------------------------------
  // Histories of one rank
  // ------------------------------------------------------------------------------------------

  /** What can happen to a rank apart from a resume. */
  datatype Event =
    | Paused
    | WaveStarted(newWave: int, excluded: bool)
    | Added(hasCoordinator: bool, requestWave: int)
    | Passed
    | Synced(res: SyncResult)

  function After(f: Flags, e: Event): Flags {
    match e
    case Paused => OnPause(f)
    case WaveStarted(w, x) => OnStartWave(f, w, x)
    case Added(c, w) => OnAddRequest(f, c, w)
    case Passed => AfterStep(f)
    case Synced(res) => AfterSync(f, res)
  }

  function AfterAll(f: Flags, events: seq<Event>): Flags {
    if |events| == 0 then f
    else After(AfterAll(f, events[..|events| - 1]), events[|events| - 1])
  }

  /** Whether the ranks have agreed to stop since the last pause. */
  predicate Agreed(events: seq<Event>) {
    if |events| == 0 then false
    else
      var e := events[|events| - 1];
      if e.Paused? then false
      else (e.Synced? && e.res.consensus) || Agreed(events[..|events| - 1])
  }

  /** After a pause, and whatever happens then, a resume is never ignored. It is refused exactly while
      the ranks have not agreed to stop, or have agreed but still run; otherwise it reaches the barrier. */
  lemma {:induction false} PausedRankAnswersResume(f: Flags, events: seq<Event>)
    ensures var g := AfterAll(OnPause(f), events);
            && g.paused && (g.pending <==> !Agreed(events)) && (g.pending || g.ignoreWave)
            && (OnResume(g).Raised? <==> !Agreed(events) || g.running)
            && (OnResume(g).Barrier? <==> Agreed(events) && !g.running)
    decreases |events|
  {
    if |events| > 0 { PausedRankAnswersResume(f, events[..|events| - 1]); }
  }

  /** A rank that is not pausing and has agreed to no pause never refuses a resume: it ignores it while it runs
      and takes it otherwise. */
  lemma {:induction false} UnpausedNeverRefuses(f: Flags, events: seq<Event>)
    requires !f.pending && !f.ignoreWave
    requires forall i | 0 <= i < |events| :: !events[i].Paused? && (events[i].Synced? ==> !events[i].res.consensus)
    ensures var g := AfterAll(f, events);
            && !g.pending && !g.ignoreWave && !OnResume(g).Raised? && (OnResume(g).Ignored? <==> g.running)
    decreases |events|
  {
    if |events| > 0 { UnpausedNeverRefuses(f, events[..|events| - 1]); }
  }

  /** A rank that has stopped for a pause is started neither by START_DP_WAVE nor by a request, of
      whatever wave, and stays ready to be resumed. */
  lemma {:induction false} StoppedRankStaysStopped(f: Flags, messages: seq<Event>)
    requires f.ignoreWave && f.paused && !f.pending && !f.running
    requires forall i | 0 <= i < |messages| :: messages[i].WaveStarted? || messages[i].Added?
    ensures var g := AfterAll(f, messages);
            !g.running && g.ignoreWave && g.paused && OnResume(g) == Barrier(g.(paused := false, ignoreWave := false))
    decreases |messages|
  {
    if |messages| > 0 { StoppedRankStaysStopped(f, messages[..|messages| - 1]); }
  }

  /** No history takes a rank back to an earlier wave. */
  lemma {:induction false} WaveNeverDecreases(f: Flags, events: seq<Event>)
    ensures AfterAll(f, events).wave >= f.wave
    decreases |events|
  {
    if |events| > 0 { WaveNeverDecreases(f, events[..|events| - 1]); }
  }

  /** A wave number that a message tells rank f: of requests with a coordinator, and of wave messages that
      are not discarded and not meant for the others. */
  predicate Tells(f: Flags, e: Event, wave: int) {
    match e
    case Added(c, w) => c && w == wave
    case WaveStarted(w, excluded) => !excluded && !f.ignoreWave && w == wave
    case _ => false
  }

  /** Whatever messages a rank takes, in whatever order, its wave is the largest of its own and those it was
      told. */
  lemma {:induction false} WaveIsLargestTold(f: Flags, messages: seq<Event>)
    requires forall i | 0 <= i < |messages| :: messages[i].WaveStarted? || messages[i].Added?
    ensures var g := AfterAll(f, messages);
            && g.ignoreWave == f.ignoreWave && g.wave >= f.wave
            && (g.wave == f.wave || exists i | 0 <= i < |messages| :: Tells(f, messages[i], g.wave))
    ensures forall i, w: int | 0 <= i < |messages| && Tells(f, messages[i], w) :: w <= AfterAll(f, messages).wave
    decreases |messages|
  {
    if |messages| > 0 {
      var front := messages[..|messages| - 1];
      WaveIsLargestTold(f, front);
      var g, h := AfterAll(f, front), AfterAll(f, messages);
      if h.wave != g.wave {
        assert Tells(f, messages[|messages| - 1], h.wave);
      } else if g.wave != f.wave {
        var i :| 0 <= i < |front| && Tells(f, front[i], g.wave);
        assert Tells(f, messages[i], g.wave);
      }
      forall i, w: int | 0 <= i < |messages| && Tells(f, messages[i], w) ensures w <= h.wave {
        if i < |front| { assert Tells(f, front[i], w); }
      }
    }
  }

  /** What starts a stopped rank: a wave message for a wave that is not over, or a request that was sent in a
      wave that is, unless the rank is paused. */
  lemma WhatStartsARank(f: Flags, e: Event)
    requires !f.running && (e.WaveStarted? || e.Added?)
    ensures After(f, e).running <==>
              exists w: int :: Tells(f, e, w) && if e.Added? then w < f.wave && !f.paused else w >= f.wave
  {
    if e.WaveStarted? { assert e.newWave >= f.wave ==> After(f, e).running == Tells(f, e, e.newWave); }
    if e.Added? { assert e.hasCoordinator ==> Tells(f, e, e.requestWave); }
  }

  /** A request that was sent before the wave ended, and arrives after, starts the next one. */
  lemma LateRequestRestarts(f: Flags, consensus: bool, requestWave: int)
    requires requestWave <= f.wave && !f.paused
    ensures var stopped := AfterSync(f, SyncResult(false, consensus));
            && !stopped.running && stopped.wave == f.wave + 1 && stopped.counter == 0
            && After(stopped, Added(true, requestWave)) == stopped.(running := true)
  {
  }

  /** Of `interval` consecutive steps exactly one admits new prefills, the one at a multiple of the
      interval; the first step of a wave, with the counter reset, is one. */
  lemma ThrottleAdmitsOnce(f: Flags, interval: nat, d: nat)
    requires interval > 1 && d < interval
    ensures ThrottlePrefills(f.(counter := f.counter + d), interval) <==>
      d != (interval - f.counter % interval) % interval
    ensures f.counter == 0 ==> !ThrottlePrefills(f, interval)
  {
    RemainderOfNext(f.counter, d, interval);
    if f.counter == 0 { DivModUnique(0, interval, 0, 0); }
  }

  lemma RemainderOfNext(c: nat, d: nat, n: nat)
    requires n > 1 && d < n
    ensures (c + d) % n == 0 <==> d == (n - c % n) % n
  {
    var q, r := c / n, c % n;
    assert c == q * n + r;
    if r + d < n {
      DivModUnique(c + d, n, q, r + d);
    } else {
      assert (q + 1) * n == q * n + n;
      DivModUnique(c + d, n, q + 1, r + d - n);
    }
    if r > 0 { DivModUnique(n - r, n, 0, n - r); } else { DivModUnique(n, n, 1, 0); }
  }

  class DPEngineCore {
    var enginesRunning: bool
    var pendingPause: bool
    var ignoreStartDpWave: bool
    var schedulerPaused: bool
    var stepCounter: nat
    var currentWave: int
    const engineIndex: int
    const hasCoordinator: bool
    const prefillScheduleInterval: nat

    ghost function View(): Flags
      reads this
    {
      Flags(enginesRunning, pendingPause, ignoreStartDpWave, schedulerPaused, stepCounter, currentWave)
    }

    constructor (engineIndex: int, hasCoordinator: bool, interval: nat)
      ensures View() == INITIAL_FLAGS
      ensures this.engineIndex == engineIndex && this.hasCoordinator == hasCoordinator
      ensures prefillScheduleInterval == interval
    {
      this.engineIndex, this.hasCoordinator, prefillScheduleInterval := engineIndex, hasCoordinator, interval;
      enginesRunning, pendingPause, ignoreStartDpWave, schedulerPaused := false, false, false, false;
      stepCounter, currentWave := 0, 0;
    }

    /** Sets the scheduler's pause state and starts the two-phase pause. */
    method PauseScheduler() returns (complete: bool)
      modifies this
      ensures View() == OnPause(old(View())) && !complete
    {
      schedulerPaused := true;
      pendingPause := true;
      enginesRunning := true;
      complete := false;
    }

    method StartDpWave(newWave: int, excludeIndex: int)
      modifies this
      ensures View() == OnStartWave(old(View()), newWave, excludeIndex == engineIndex)
    {
      if ignoreStartDpWave {
        return;
      }
      if excludeIndex != engineIndex && newWave >= currentWave {
        currentWave := newWave;
        if !enginesRunning {
          enginesRunning := true;
        }
      }
    }

    method AddRequest(requestWave: int)
      modifies this
      ensures View() == OnAddRequest(old(View()), hasCoordinator, requestWave)
    {
      if hasCoordinator && requestWave != currentWave {
        if requestWave > currentWave {
          currentWave := requestWave;
        } else if !enginesRunning && !schedulerPaused {
          enginesRunning := true;
        }
      }
    }

    /** The part of resume_scheduler before its barrier. */
    method ResumeScheduler() returns (entry: ResumeEntry)
      modifies this
      ensures entry == OnResume(old(View()))
      ensures View() == if entry.Barrier? then entry.flags else old(View())
    {
      if pendingPause || (enginesRunning && ignoreStartDpWave) {
        return Raised;
      }
      if enginesRunning {
        return Ignored;
      }
      schedulerPaused := false;
      ignoreStartDpWave := false;
      entry := Barrier(Flags(enginesRunning, pendingPause, ignoreStartDpWave, schedulerPaused,
                             stepCounter, currentWave));
    }

    /** The part of resume_scheduler after its barrier. */
    method ResumeReleased(hasGlobalUnfinished: bool)
      modifies this
      ensures View() == AfterResumeBarrier(old(View()), hasGlobalUnfinished)
    {
      if hasGlobalUnfinished {
        enginesRunning := true;
      }
    }

    /** The part of a loop iteration up to the all-reduce; needSync says whether it is reached. */
    method FinishStep() returns (needSync: bool)
      modifies this
      ensures View() == AfterStep(old(View()))
      ensures needSync <==> stepCounter % SYNC_INTERVAL == 0
    {
      stepCounter := stepCounter + 1;
      needSync := stepCounter % SYNC_INTERVAL == 0;
      if !needSync {
        enginesRunning := true;
      }
    }

    /** The part of a loop iteration after the all-reduce. */
    method SyncReleased(res: SyncResult)
      modifies this
      ensures View() == AfterSync(old(View()), res)
    {
      if res.consensus {
        ignoreStartDpWave := true;
        pendingPause := false;
      }
      enginesRunning := res.unfinished;
      if !enginesRunning {
        currentWave := currentWave + 1;
        stepCounter := 0;
      }
    }

    method ShouldThrottlePrefills() returns (throttle: bool)
      ensures throttle == ThrottlePrefills(View(), prefillScheduleInterval)
    {
      throttle := prefillScheduleInterval > 1 && stepCounter % prefillScheduleInterval != 0;
    }
  }
}
