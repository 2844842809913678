/** The main loop of the engine core with the auto-sleep hooks, against a timer thread, arriving
    messages and shutdown signals, under every interleaving. */
module AutoSleepLoop {
  import opened Options
  import opened AutoSleep

  /** Deciding: at the head of the input loop. Blocked: waiting for a message after the idle
      notification. Stepping: past the input loop. */
  datatype Place = Deciding | Blocked | Stepping

  datatype Loop = Loop(w: World, at: Place)

  datatype Action =
    | Tick(d: nat)
    | Expire(t: nat)
    | FirePoke(t: nat)
    | Enqueue(m: Message)
    | Signal
    | Decide
    | Handle(ok: bool, outcome: SleepOutcome)
    | Step(hasRequests: bool, otherWork: bool)

  predicate HasWork(w: World) {
    w.core.hasRequests || w.core.otherWork
  }

  predicate Enabled(l: Loop, a: Action) {
    && !l.w.core.dead
    && match a
       case Expire(t) => t in l.w.timers.live && l.w.timers.live[t].Waiting?
       case FirePoke(t) => t in l.w.timers.live && l.w.timers.live[t].Firing?
       case Enqueue(m) => true
       case Decide => l.at.Deciding?
       case Handle(_, _) => !l.at.Deciding? && |l.w.queue| > 0
       case Step(_, _) => l.at.Stepping?
       case _ => true
  }

  function HandleMessage(w: World, c: Config, m: Message, ok: bool, outcome: SleepOutcome): World {
    match m
    case Wakeup => PokeHook(w, c, outcome)
    case AddRequest =>
      if w.core.shutdown then w
      else
        var v := ArrivalHook(w, c, ok);
        if v.core.dead then v else v.(core := v.core.(hasRequests := true))
    // The scheduler is paused at once; with work pending the rest of the sleep waits for idleness.
    case ManualSleep(id) =>
      if w.core.shutdown then w
      else w.(core := w.core.(asleep := true),
              callbacks := w.callbacks + if HasWork(w) then [PauseDone(id)] else [])
    case ManualWake => if w.core.shutdown || !ok then w else w.(core := w.core.(asleep := false))
    case Other => w
  }

  function Apply(l: Loop, c: Config, a: Action): Loop
    requires Enabled(l, a)
  {
    var w := l.w;
    match a
    case Tick(d) => l.(w := w.(clock := w.clock.(now := w.clock.now + d)))
    case Expire(t) => l.(w := w.(timers := w.timers.(live := w.timers.live[t := Firing])))
    case FirePoke(t) => l.(w := Poked(w, t))
    case Enqueue(m) => l.(w := w.(queue := w.queue + [m]))
    case Signal => l.(w := w.(core := w.core.(shutdown := true), queue := w.queue + [Wakeup]))
    case Decide =>
      if HasWork(w) || w.core.shutdown then Loop(w, Stepping)
      else Loop(NotifyIdle(w), Blocked)
    case Handle(ok, outcome) =>
      Loop(HandleMessage(w.(queue := w.queue[1..]), c, w.queue[0], ok, outcome),
           if l.at.Blocked? then Deciding else Stepping)
    case Step(r, o) => Loop(w.(core := w.core.(hasRequests := r, otherWork := o)), Deciding)
  }

  predicate Run(c: Config, now: nat, states: seq<Loop>, acts: seq<Action>) {
    && |states| == |acts| + 1
    && states[0] == Loop(Initial(now), Deciding)
    && (forall i | 0 <= i < |acts| :: Enabled(states[i], acts[i]) && states[i + 1] == Apply(states[i], c, acts[i]))
  }

  // ------------------------------------------------------------------------------------------
  // The invariant
  // ------------------------------------------------------------------------------------------

  function Registered(callbacks: seq<Callback>): nat {
    if |callbacks| == 0 then 0
    else (if callbacks[|callbacks| - 1].OnIdle? then 1 else 0) + Registered(callbacks[..|callbacks| - 1])
  }

  predicate TimersKnown(ts: Timers) {
    && (ts.current.Some? ==> ts.current.value in ts.live)
    && (forall t | t in ts.live :: t < ts.next)
  }

  predicate Justified(s: Start, c: Config) {
    !s.core.hasRequests && !s.core.shutdown && !s.core.asleep && s.clock.now >= s.clock.lastArrival + c.timeout
  }

  predicate WorldOk(w: World, c: Config) {
    && TimersKnown(w.timers)
    && w.clock.lastArrival <= w.clock.lastActivity <= w.clock.now
    && (w.keeper ==> w.mode.SLEEPING? && c.reloads)
    && (w.mode.EXITED? ==> w.core.shutdown && c.exits && |w.starts| > 0)
    && !w.mode.WAKING?
  }

  predicate PokeComing(w: World) {
    w.timers.live != map[] || Wakeup in w.queue
  }

  predicate LoopOk(l: Loop, c: Config) {
    && WorldOk(l.w, c)
    && Registered(l.w.callbacks) == 1
    && (l.at.Blocked? ==> !HasWork(l.w))
    && (l.at.Stepping? ==> HasWork(l.w) || l.w.core.shutdown)
    && (l.at.Blocked? && l.w.core.shutdown ==> Wakeup in l.w.queue)
    && (l.at.Blocked? && Sleepable(l.w) ==> PokeComing(l.w))
    && (l.at.Blocked? && !l.w.core.asleep ==> !l.w.mode.SLEEPING?)
  }

  lemma {:induction false} RegisteredAppend(callbacks: seq<Callback>, x: Callback)
    ensures Registered(callbacks + [x]) == Registered(callbacks) + if x.OnIdle? then 1 else 0
  {
  }

  lemma {:induction false} RegisteredHead(callbacks: seq<Callback>)
    requires |callbacks| > 0
    ensures Registered(callbacks) == (if callbacks[0].OnIdle? then 1 else 0) + Registered(callbacks[1..])
  {
    if |callbacks| > 1 {
      RegisteredHead(callbacks[..|callbacks| - 1]);
      assert callbacks[1..][..|callbacks| - 2] == callbacks[..|callbacks| - 1][1..];
    }
  }

  lemma IdleHookOk(w: World, c: Config)
    requires WorldOk(w, c)
    ensures var v := IdleHook(w);
            && WorldOk(v, c)
            && Registered(v.callbacks) == Registered(w.callbacks) + 1
            && (Sleepable(v) ==> v.timers.live != map[])
            && (!v.core.asleep ==> !v.mode.SLEEPING?)
            && v.core == w.core
  {
    RegisteredAppend(w.callbacks, OnIdle);
    var v := IdleHook(w);
    if v.timers.current.Some? { assert v.timers.current.value in v.timers.live; }
  }

  /** Calling a snapshot registers the idle callback as often as the snapshot held it. */
  lemma {:induction false} CallAllOk(w: World, c: Config, calls: seq<Callback>, called: bool)
    requires WorldOk(w, c)
    requires called ==> (Sleepable(w) ==> w.timers.live != map[]) && (!w.core.asleep ==> !w.mode.SLEEPING?)
    ensures var v := CallAll(w, calls);
            && WorldOk(v, c)
            && Registered(v.callbacks) == Registered(w.callbacks) + Registered(calls)
            && (called || Registered(calls) > 0 ==>
                  (Sleepable(v) ==> v.timers.live != map[]) && (!v.core.asleep ==> !v.mode.SLEEPING?))
            && v.core.(asleep := w.core.asleep) == w.core
    decreases |calls|
  {
    if |calls| > 0 {
      RegisteredHead(calls);
      IdleHookOk(w, c);
      CallAllOk(CallOne(w, calls[0]), c, calls[1..], called || calls[0].OnIdle?);
    }
  }

  lemma DecideOk(l: Loop, c: Config)
    requires LoopOk(l, c) && Enabled(l, Decide)
    ensures LoopOk(Apply(l, c, Decide), c)
  {
    CallAllOk(l.w.(callbacks := []), c, l.w.callbacks, false);
  }

  lemma PokeHookOk(w: World, c: Config, outcome: SleepOutcome)
    requires WorldOk(w, c)
    ensures WorldOk(PokeHook(w, c, outcome), c) && PokeHook(w, c, outcome).callbacks == w.callbacks
  {
  }

  lemma ArrivalHookOk(w: World, c: Config, ok: bool)
    requires WorldOk(w, c)
    ensures WorldOk(ArrivalHook(w, c, ok), c) && ArrivalHook(w, c, ok).callbacks == w.callbacks
  {
  }

  lemma MessageOk(w: World, c: Config, m: Message, ok: bool, outcome: SleepOutcome)
    requires WorldOk(w, c)
    ensures var v := HandleMessage(w, c, m, ok, outcome);
            WorldOk(v, c) && Registered(v.callbacks) == Registered(w.callbacks)
  {
    if m.Wakeup? { PokeHookOk(w, c, outcome); }
    if m.AddRequest? { ArrivalHookOk(w, c, ok); }
    if m.ManualSleep? {
      RegisteredAppend(w.callbacks, PauseDone(m.id));
      assert w.callbacks + [] == w.callbacks;
    }
  }

  lemma OutsideActionOk(l: Loop, c: Config, a: Action)
    requires LoopOk(l, c) && Enabled(l, a) && (a.Tick? || a.Expire? || a.Enqueue? || a.Signal?)
    ensures LoopOk(Apply(l, c, a), c)
  {
  }

  lemma FirePokeOk(l: Loop, c: Config, t: nat)
    requires LoopOk(l, c) && Enabled(l, FirePoke(t))
    ensures LoopOk(Apply(l, c, FirePoke(t)), c)
  {
  }

  lemma ActionKeepsLoopOk(l: Loop, c: Config, a: Action)
    requires LoopOk(l, c) && Enabled(l, a)
    ensures LoopOk(Apply(l, c, a), c)
  {
    match a
    case Decide => DecideOk(l, c);
    case Handle(ok, outcome) => MessageOk(l.w.(queue := l.w.queue[1..]), c, l.w.queue[0], ok, outcome);
    case FirePoke(t) => FirePokeOk(l, c, t);
    case Step(_, _) =>
    case _ => OutsideActionOk(l, c, a);
  }

  lemma {:induction false} RunKeepsLoopOk(c: Config, now: nat, states: seq<Loop>, acts: seq<Action>, i: nat)
    requires Run(c, now, states, acts) && i < |states|
    ensures LoopOk(states[i], c)
    decreases i
  {
    if i > 0 {
      RunKeepsLoopOk(c, now, states, acts, i - 1);
      assert Enabled(states[i - 1], acts[i - 1]);
      ActionKeepsLoopOk(states[i - 1], c, acts[i - 1]);
    }
  }

  /** Only a poke that finds its conditions met adds a start. */
  lemma StartsGrow(l: Loop, c: Config, a: Action)
    requires WorldOk(l.w, c) && Enabled(l, a)
    ensures var s, s' := l.w.starts, Apply(l, c, a).w.starts;
            s' == s || (|s'| == |s| + 1 && s'[..|s|] == s && Justified(s'[|s|], c))
  {
    if a.Decide? { CallAllKeepsStarts(l.w.(callbacks := []), l.w.callbacks); }
  }

  lemma {:induction false} CallAllKeepsStarts(w: World, calls: seq<Callback>)
    ensures CallAll(w, calls).starts == w.starts
    decreases |calls|
  {
    if |calls| > 0 {
      CallAllKeepsStarts(CallOne(w, calls[0]), calls[1..]);
    }
  }

  // ------------------------------------------------------------------------------------------
  // What the controller promises
  // ------------------------------------------------------------------------------------------

  /** Every sleep and every exit started without scheduler requests, without a shutdown request and
      at least the timeout after the last arrival. */
  lemma {:induction false} SleepsAreJustified(c: Config, now: nat, states: seq<Loop>, acts: seq<Action>, i: nat, k: nat)
    requires Run(c, now, states, acts) && i < |states| && k < |states[i].w.starts|
    ensures Justified(states[i].w.starts[k], c)
    decreases i
  {
    RunKeepsLoopOk(c, now, states, acts, i - 1);
    var l, a := states[i - 1], acts[i - 1];
    assert Enabled(l, a);
    StartsGrow(l, c, a);
    if k < |l.w.starts| {
      SleepsAreJustified(c, now, states, acts, i - 1, k);
    }
  }

  /** The process exits only where exiting is the configured target, and only by a justified start. */
  lemma ExitsOnlyAsConfigured(c: Config, now: nat, states: seq<Loop>, acts: seq<Action>, i: nat)
    requires Run(c, now, states, acts) && i < |states| && states[i].w.mode.EXITED?
    ensures c.exits && states[i].w.core.shutdown && |states[i].w.starts| > 0
    ensures forall k | 0 <= k < |states[i].w.starts| :: Justified(states[i].w.starts[k], c)
  {
    RunKeepsLoopOk(c, now, states, acts, i);
    forall k | 0 <= k < |states[i].w.starts| ensures Justified(states[i].w.starts[k], c) {
      SleepsAreJustified(c, now, states, acts, i, k);
    }
  }

  /** Whenever the loop blocks while the engine could sleep, a poke is on its way; and the idle
      callback is registered exactly once at all times. */
  lemma NeverStuckAwake(c: Config, now: nat, states: seq<Loop>, acts: seq<Action>, i: nat)
    requires Run(c, now, states, acts) && i < |states|
    ensures Registered(states[i].w.callbacks) == 1
    ensures states[i].at.Blocked? && Sleepable(states[i].w) ==> PokeComing(states[i].w)
    ensures states[i].w.keeper ==> states[i].w.mode.SLEEPING?
  {
    RunKeepsLoopOk(c, now, states, acts, i);
  }

  /** From every reachable state in which the loop is blocked with an empty queue while the engine
      could sleep, letting enough time pass and then the pending timer run makes it start to sleep. */
  lemma IdleEngineCanSleep(c: Config, now: nat, states: seq<Loop>, acts: seq<Action>, outcome: SleepOutcome)
    returns (states': seq<Loop>, acts': seq<Action>)
    requires Run(c, now, states, acts)
    requires var l := states[|acts|]; l.at.Blocked? && Sleepable(l.w) && l.w.queue == [] && !l.w.core.dead
    ensures Run(c, now, states', acts') && acts <= acts'
    ensures forall i | |acts| <= i < |acts'| :: !acts'[i].Enqueue? && !acts'[i].Signal?
    ensures |states'[|acts'|].w.starts| == |states[|acts|].w.starts| + 1
    ensures AtRest(states'[|acts'|].w, c, outcome)
  {
    RunKeepsLoopOk(c, now, states, acts, |acts|);
    var l := states[|acts|];
    var t :| t in l.w.timers.live;
    states', acts' := Extend(c, now, states, acts, Tick(c.timeout));
    if l.w.timers.live[t].Waiting? {
      states', acts' := Extend(c, now, states', acts', Expire(t));
    }
    states', acts' := RunPoke(c, now, states', acts', t, outcome);
  }

  /** What the configured target asks for has been done. */
  predicate AtRest(w: World, c: Config, outcome: SleepOutcome) {
    if c.exits then w.mode.EXITED? && w.core.shutdown
    else !w.core.shutdown && (outcome.Slept? ==> w.mode.SLEEPING? && w.core.asleep)
         && (outcome.RolledBack? ==> w.mode.ACTIVE? && !w.core.asleep)
  }

  /** A timer that has run out late enough pokes the blocked loop into sleep. */
  lemma RunPoke(c: Config, now: nat, states: seq<Loop>, acts: seq<Action>, t: nat, outcome: SleepOutcome)
    returns (states': seq<Loop>, acts': seq<Action>)
    requires Run(c, now, states, acts)
    requires var l := states[|acts|];
             && l.at.Blocked? && Sleepable(l.w) && l.w.queue == [] && !l.w.core.dead && !HasWork(l.w)
             && t in l.w.timers.live && l.w.timers.live[t].Firing?
             && l.w.clock.now >= l.w.clock.lastActivity + c.timeout
    ensures Run(c, now, states', acts') && acts' == acts + [FirePoke(t), Handle(true, outcome)]
    ensures |states'[|acts'|].w.starts| == |states[|acts|].w.starts| + 1
    ensures AtRest(states'[|acts'|].w, c, outcome)
  {
    states', acts' := Extend(c, now, states, acts, FirePoke(t));
    states', acts' := Extend(c, now, states', acts', Handle(true, outcome));
  }

  lemma Extend(c: Config, now: nat, states: seq<Loop>, acts: seq<Action>, a: Action)
    returns (states': seq<Loop>, acts': seq<Action>)
    requires Run(c, now, states, acts) && Enabled(states[|acts|], a)
    ensures acts' == acts + [a] && states' == states + [Apply(states[|acts|], c, a)]
    ensures Run(c, now, states', acts')
  {
    states', acts' := states + [Apply(states[|acts|], c, a)], acts + [a];
  }
}
