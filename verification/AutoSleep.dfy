/** The idle auto-sleep controller: its hooks as functions on the state they share with the engine
    core, and the class whose methods compute them. */
module AutoSleep {
  import opened Options

  datatype Mode = ACTIVE | SLEEPING | WAKING | EXITED

  /** A timer that has not been cancelled is waiting, or has run out and is about to poke. */
  datatype TimerPhase = Waiting | Firing

  /** PauseDone completes a sleep that was asked for while there was work, once the engine is idle. */
  datatype Callback = OnIdle | PauseDone(id: nat)

  datatype Message = Wakeup | AddRequest | ManualSleep(id: nat) | ManualWake | Other

  datatype Config = Config(timeout: nat, exits: bool, reloads: bool, keepsCache: bool)

  /** How an attempt to sleep ends: asleep, rolled back, or with an error that kills the loop. */
  datatype SleepOutcome = Slept | RolledBack | Failed

  datatype Clock = Clock(now: nat, lastActivity: nat, lastArrival: nat)

  /** The controller's timer field, and the timers that are started and not yet gone. */
  datatype Timers = Timers(current: Option<nat>, live: map<nat, TimerPhase>, next: nat)

  /** What the controller sees of the engine core. */
  datatype Core = Core(hasRequests: bool, otherWork: bool, asleep: bool, shutdown: bool, dead: bool)

  /** What was true when the controller started to sleep or to exit. */
  datatype Start = Start(clock: Clock, core: Core)

  datatype World = World(clock: Clock, mode: Mode, timers: Timers, keeper: bool, callbacks: seq<Callback>,
                         queue: seq<Message>, core: Core, starts: seq<Start>)

  function Initial(now: nat): World {
    World(Clock(now, now, now), ACTIVE, Timers(None, map[], 0), false, [OnIdle], [],
          Core(false, false, false, false, false), [])
  }

  /** Cancelling reaches only a timer that has not run out yet. */
  function Cancel(ts: Timers): Timers {
    if ts.current.None? then ts
    else
      var t := ts.current.value;
      Timers(None, if t in ts.live && ts.live[t].Waiting? then ts.live - {t} else ts.live, ts.next)
  }

  function Arm(ts: Timers): Timers {
    Timers(Some(ts.next), ts.live[ts.next := Waiting], ts.next + 1)
  }

  function SetActive(w: World): World {
    w.(keeper := false, mode := ACTIVE)
  }

  function IdleHook(w: World): World {
    var w := w.(callbacks := w.callbacks + [OnIdle]);
    var w := if w.mode.SLEEPING? && !w.core.asleep then SetActive(w) else w;
    if !w.mode.ACTIVE? || w.timers.current.Some? || w.core.asleep || w.core.shutdown then w
    else w.(clock := w.clock.(lastActivity := w.clock.now), timers := Arm(w.timers))
  }

  function WakeUp(w: World, c: Config, succeeds: bool): World {
    var w := w.(keeper := if c.reloads then false else w.keeper);
    if succeeds then w.(mode := ACTIVE, core := w.core.(asleep := false))
    else w.(mode := SLEEPING, core := w.core.(dead := true))
  }

  function ArrivalHook(w: World, c: Config, succeeds: bool): World {
    var now := w.clock.now;
    var w := w.(clock := Clock(now, now, now), timers := Cancel(w.timers));
    if w.core.asleep then WakeUp(w, c, succeeds) else SetActive(w)
  }

  function GoToSleep(w: World, c: Config, outcome: SleepOutcome): World {
    match outcome
    case Slept =>
      w.(mode := SLEEPING, core := w.core.(asleep := true), keeper := w.keeper || (c.reloads && c.keepsCache))
    case RolledBack => w.(mode := ACTIVE)
    case Failed => w.(mode := SLEEPING, core := w.core.(asleep := true, dead := true))
  }

  function PokeHook(w: World, c: Config, outcome: SleepOutcome): World {
    if !w.mode.ACTIVE? || w.core.asleep || w.core.shutdown || w.core.hasRequests then w
    else if w.clock.now < w.clock.lastActivity + c.timeout then w.(timers := Arm(Cancel(w.timers)))
    else
      var w := w.(starts := w.starts + [Start(w.clock, w.core)]);
      if c.exits then w.(mode := EXITED, core := w.core.(shutdown := true))
      else GoToSleep(w, c, outcome)
  }

  /** The timer thread: forget the timer and nudge the main loop. */
  function Poked(w: World, t: nat): World {
    w.(timers := w.timers.(current := None, live := w.timers.live - {t}), queue := w.queue + [Wakeup])
  }

  function CallOne(w: World, call: Callback): World {
    match call
    case OnIdle => IdleHook(w)
    case PauseDone(_) => w.(core := w.core.(asleep := true))
  }

  /** Calls the callbacks of a snapshot in turn. */
  function CallAll(w: World, calls: seq<Callback>): World
    decreases |calls|
  {
    if |calls| == 0 then w
    else CallAll(CallOne(w, calls[0]), calls[1..])
  }

  function NotifyIdle(w: World): World {
    CallAll(w.(callbacks := []), w.callbacks)
  }

  // ------------------------------------------------------------------------------------------
  // What the hooks do for each other
  // ------------------------------------------------------------------------------------------

  /** The engine could be put to sleep by a poke. */
  predicate Sleepable(w: World) {
    w.mode.ACTIVE? && !w.core.asleep && !w.core.shutdown
  }

  function Later(w: World, d: nat): World {
    w.(clock := w.clock.(now := w.clock.now + d))
  }

  /** A poke starts a sleep or an exit exactly when the engine could sleep, has no requests and has
      been inactive for the timeout; otherwise it changes nothing but the timers. */
  lemma PokeStartsIff(w: World, c: Config, outcome: SleepOutcome)
    ensures var v := PokeHook(w, c, outcome);
            if Sleepable(w) && !w.core.hasRequests && w.clock.now >= w.clock.lastActivity + c.timeout
            then v.starts == w.starts + [Start(w.clock, w.core)] && (v.mode.ACTIVE? ==> !c.exits && outcome.RolledBack?)
            else v == w.(timers := v.timers)
  {
  }

  /** What is started: the process exits if and only if that is the configured target. Otherwise the engine
      sleeps, with a keeper where one is configured, or a rolled-back sleep leaves it awake as it was, or
      one that cannot be rolled back leaves the loop dead and the controller sleeping. */
  lemma WhatIsStarted(w: World, c: Config, outcome: SleepOutcome)
    requires PokeHook(w, c, outcome).starts != w.starts
    ensures var v := PokeHook(w, c, outcome);
            && (v.mode.EXITED? <==> c.exits) && (v.core.shutdown <==> c.exits)
            && (v.core.asleep <==> !c.exits && !outcome.RolledBack?)
            && (v.mode.SLEEPING? <==> !c.exits && !outcome.RolledBack?)
            && (v.core.dead <==> w.core.dead || (!c.exits && outcome.Failed?))
            && (v.keeper <==> w.keeper || (!c.exits && outcome.Slept? && c.reloads && c.keepsCache))
            && v.timers == w.timers && v.callbacks == w.callbacks && v.queue == w.queue && v.clock == w.clock
  {
  }

  /** A poke that comes too early arms a fresh timer instead, so that the idle engine is poked again. */
  lemma EarlyPokeRearms(w: World, c: Config, outcome: SleepOutcome)
    requires Sleepable(w) && !w.core.hasRequests && w.clock.now < w.clock.lastActivity + c.timeout
    requires forall t | t in w.timers.live :: t < w.timers.next
    ensures var v := PokeHook(w, c, outcome).timers;
            && v.current.Some? && v.current.value in v.live && v.live[v.current.value].Waiting?
            && v.current.value !in w.timers.live
  {
  }

  /** Until the timeout has passed after an arrival no poke, however late it was queued, starts anything,
      and no keeper runs. */
  lemma ArrivalHoldsOffSleep(w: World, c: Config, ok: bool, d: nat, core: Core, outcome: SleepOutcome)
    requires d < c.timeout && (ok || !w.core.asleep) && (w.keeper ==> c.reloads)
    ensures var v := Later(ArrivalHook(w, c, ok), d).(core := core);
            PokeHook(v, c, outcome).starts == w.starts && !PokeHook(v, c, outcome).keeper
            && ArrivalHook(w, c, ok).mode.ACTIVE? && !ArrivalHook(w, c, ok).core.asleep
  {
  }

  /** After the idle hook a sleepable engine has a timer, and the hook arms no second one, and none during a
      shutdown: calling it again only registers it again. */
  lemma IdleHookArmsOnce(w: World)
    requires w.timers.current.Some? ==> w.timers.current.value in w.timers.live
    ensures var v := IdleHook(w);
            && (Sleepable(v) ==> v.timers.current.Some? && v.timers.current.value in v.timers.live)
            && (w.timers.current.Some? || w.core.shutdown ==> v.timers == w.timers)
            && IdleHook(v) == v.(callbacks := v.callbacks + [OnIdle])
  {
  }

  /** While the engine sleeps the idle hook only registers itself again; an engine that was woken behind the
      controller's back is taken for awake, and its keeper stops. */
  lemma IdleHookFollowsEngine(w: World)
    ensures w.core.asleep ==> IdleHook(w) == w.(callbacks := w.callbacks + [OnIdle])
    ensures var v := IdleHook(w);
            !w.core.asleep && w.mode.SLEEPING? ==> v.mode.ACTIVE? && !v.keeper && v.core == w.core
    ensures !w.mode.SLEEPING? ==> IdleHook(w).mode == w.mode && IdleHook(w).keeper == w.keeper
  {
  }

  /** The idle window starts with the idleness that arms the timer: until the timeout has passed since then
      no poke starts anything, however long ago the last request arrived. */
  lemma IdleHoldsOffSleep(w: World, c: Config, d: nat, core: Core, outcome: SleepOutcome)
    requires d < c.timeout && IdleHook(w).timers != w.timers
    ensures PokeHook(Later(IdleHook(w), d).(core := core), c, outcome).starts == w.starts
  {
  }

  /** An idle notification completes every sleep that was waiting for idleness and leaves nothing but the
      idle callback, registered as often as before. */
  lemma {:induction false} NotifyCompletesPauses(w: World, calls: seq<Callback>)
    ensures CallAll(w, calls).core
         == w.core.(asleep := w.core.asleep || exists i | 0 <= i < |calls| :: calls[i].PauseDone?)
    ensures w.callbacks <= CallAll(w, calls).callbacks
    ensures forall i | |w.callbacks| <= i < |CallAll(w, calls).callbacks| :: CallAll(w, calls).callbacks[i].OnIdle?
    decreases |calls|
  {
    if |calls| > 0 {
      NotifyCompletesPauses(CallOne(w, calls[0]), calls[1..]);
      assert forall i | 0 <= i < |calls| - 1 :: calls[1..][i] == calls[i + 1];
      assert forall i | 1 <= i < |calls| :: calls[i] == calls[1..][i - 1];
    }
  }

  /** Cancelling forgets the current timer and stops exactly it, and only if it has not run out: a
      timer that is about to poke still pokes. */
  lemma CancelStopsOnlyWaiting(ts: Timers, t: nat)
    ensures Cancel(ts).current.None?
    ensures t in Cancel(ts).live <==> t in ts.live && !(ts.current == Some(t) && ts.live[t].Waiting?)
    ensures t in Cancel(ts).live ==> Cancel(ts).live[t] == ts.live[t]
  {
  }

  /** A poke that was queued twice starts at most one sleep, unless the first was rolled back. */
  lemma SecondPokeStartsNothing(w: World, c: Config, outcome: SleepOutcome, d: nat, again: SleepOutcome)
    requires !outcome.RolledBack? && PokeHook(w, c, outcome).starts != w.starts
    ensures var v := Later(PokeHook(w, c, outcome), d); PokeHook(v, c, again) == v
  {
    PokeStartsIff(w, c, outcome);
  }

  /** Falling asleep and being woken by a request gives the world back, with the clock of the arrival
      and no timer. */
  lemma SleepThenWake(w: World, c: Config)
    requires w.mode.ACTIVE? && !w.core.asleep && !w.keeper
    ensures ArrivalHook(GoToSleep(w, c, Slept), c, true)
         == w.(clock := Clock(w.clock.now, w.clock.now, w.clock.now), timers := Cancel(w.timers))
  {
  }

  class AutoSleepController {
    const config: Config
    var now: nat
    var lastActivity: nat
    var lastArrival: nat
    var mode: Mode
    var timers: Timers
    var keeper: bool
    var callbacks: seq<Callback>
    var queue: seq<Message>
    var core: Core
    var starts: seq<Start>

    ghost function View(): World
      reads this
    {
      World(Clock(now, lastActivity, lastArrival), mode, timers, keeper, callbacks, queue, core, starts)
    }

    constructor (config: Config, now: nat)
      ensures this.config == config && View() == Initial(now)
    {
      this.config, this.now := config, now;
      lastActivity, lastArrival, mode, timers := now, now, ACTIVE, Timers(None, map[], 0);
      keeper, callbacks, queue, starts := false, [OnIdle], [], [];
      core := Core(false, false, false, false, false);
    }

    method CancelTimer()
      modifies this`timers
      ensures timers == Cancel(old(timers))
    {
      if timers.current.Some? {
        var t := timers.current.value;
        if t in timers.live && timers.live[t].Waiting? {
          timers := timers.(live := timers.live - {t});
        }
        timers := timers.(current := None);
      }
    }

    method StartTimer()
      modifies this`timers
      ensures timers == Arm(old(timers))
    {
      timers := Timers(Some(timers.next), timers.live[timers.next := Waiting], timers.next + 1);
    }

    /** The idle callback re-registers itself and arms the timer. */
    method OnIdleCallback()
      modifies this`callbacks, this`keeper, this`mode, this`lastActivity, this`timers
      ensures View() == IdleHook(old(View()))
    {
      callbacks := callbacks + [OnIdle];
      if mode.SLEEPING? && !core.asleep {
        keeper := false;
        mode := ACTIVE;
      }
      if !mode.ACTIVE? || timers.current.Some? || core.asleep || core.shutdown {
        return;
      }
      lastActivity := now;
      StartTimer();
    }

    method OnRequestArrival(wakeSucceeds: bool)
      modifies this`lastActivity, this`lastArrival, this`timers, this`keeper, this`mode, this`core
      ensures View() == ArrivalHook(old(View()), config, wakeSucceeds)
    {
      lastActivity := now;
      lastArrival := now;
      CancelTimer();
      if core.asleep {
        Wake(wakeSucceeds);
      } else {
        keeper := false;
        mode := ACTIVE;
      }
    }

    method Wake(succeeds: bool)
      modifies this`keeper, this`mode, this`core
      ensures View() == WakeUp(old(View()), config, succeeds)
    {
      mode := WAKING;
      if config.reloads {
        keeper := false;
      }
      if !succeeds {
        mode := SLEEPING;
        core := core.(dead := true);
        return;
      }
      core := core.(asleep := false);
      mode := ACTIVE;
    }

    /** Every decision is taken again when the poke is handled. */
    method OnWakeupPoke(outcome: SleepOutcome)
      modifies this`timers, this`starts, this`keeper, this`mode, this`core
      ensures View() == PokeHook(old(View()), config, outcome)
    {
      if !mode.ACTIVE? {
        return;
      }
      if core.asleep || core.shutdown {
        return;
      }
      if core.hasRequests {
        return;
      }
      var remaining := config.timeout as int - (now as int - lastActivity as int);
      if remaining > 0 {
        CancelTimer();
        StartTimer();
        return;
      }
      starts := starts + [Start(Clock(now, lastActivity, lastArrival), core)];
      if config.exits {
        mode := EXITED;
        core := core.(shutdown := true);
      } else {
        Sleep(outcome);
      }
    }

    method Sleep(outcome: SleepOutcome)
      modifies this`keeper, this`mode, this`core
      ensures View() == GoToSleep(old(View()), config, outcome)
    {
      mode := SLEEPING;
      match outcome {
        case Slept =>
          core := core.(asleep := true);
          if !keeper && config.reloads && config.keepsCache {
            keeper := true;
          }
        case RolledBack =>
          mode := ACTIVE;
        case Failed =>
          core := core.(asleep := true, dead := true);
      }
    }

    method Poke(t: nat)
      modifies this`timers, this`queue
      ensures View() == Poked(old(View()), t)
    {
      timers := timers.(current := None, live := timers.live - {t});
      queue := queue + [Wakeup];
    }

    /** The engine core's notification: a snapshot of the callbacks is called, and a callback that
        registers itself again waits for the next notification. */
    method NotifyIdleStateCallbacks()
      modifies this`callbacks, this`keeper, this`mode, this`lastActivity, this`timers, this`core
      ensures View() == NotifyIdle(old(View()))
    {
      var snapshot := callbacks;
      callbacks := [];
      ghost var start := View();
      for i := 0 to |snapshot|
        invariant CallAll(start, snapshot) == CallAll(View(), snapshot[i..])
      {
        assert snapshot[i..][1..] == snapshot[i + 1..];
        if snapshot[i].OnIdle? {
          OnIdleCallback();
        } else {
          core := core.(asleep := true);
        }
      }
      assert snapshot[|snapshot|..] == [];
    }
  }
}
