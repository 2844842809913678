/** What becomes of messages, timers, shutdown signals and requests in runs of the auto-sleep loop. */
module AutoSleepMessages {
  import opened Options
  import opened AutoSleep
  import opened AutoSleepLoop

  // ------------------------------------------------------------------------------------------
  // Messages
  // ------------------------------------------------------------------------------------------

  /** What an action puts into the input queue: a poke and a signal leave a wakeup. */
  function Posted(a: Action): seq<Message> {
    match a
    case FirePoke(_) => [Wakeup]
    case Signal => [Wakeup]
    case Enqueue(m) => [m]
    case _ => []
  }

  function AllPosted(acts: seq<Action>): seq<Message> {
    if |acts| == 0 then [] else AllPosted(acts[..|acts| - 1]) + Posted(acts[|acts| - 1])
  }

  function Queues(states: seq<Loop>): (r: seq<seq<Message>>)
    ensures |r| == |states| && forall k | 0 <= k < |states| :: r[k] == states[k].w.queue
  {
    seq(|states|, k requires 0 <= k < |states| => states[k].w.queue)
  }

  /** The messages that the first m actions take from the fronts of these queues, in order. */
  function Handled(queues: seq<seq<Message>>, acts: seq<Action>, m: nat): seq<Message>
    requires m <= |acts| < |queues|
  {
    if m == 0 then []
    else Handled(queues, acts, m - 1)
         + if acts[m - 1].Handle? && |queues[m - 1]| > 0 then [queues[m - 1][0]] else []
  }

  /** An action takes the front message, or posts at the back. */
  predicate QueueMoves(q: seq<Message>, a: Action, q': seq<Message>) {
    if a.Handle? then |q| > 0 && q' == q[1..] else q' == q + Posted(a)
  }

  lemma {:induction false} CallAllKeepsQueue(w: World, calls: seq<Callback>)
    ensures CallAll(w, calls).queue == w.queue
    decreases |calls|
  {
    if |calls| > 0 { CallAllKeepsQueue(CallOne(w, calls[0]), calls[1..]); }
  }

  lemma {:induction false} QueueStep(l: Loop, c: Config, a: Action)
    requires Enabled(l, a)
    ensures QueueMoves(l.w.queue, a, Apply(l, c, a).w.queue)
  {
    if a.Decide? { CallAllKeepsQueue(l.w.(callbacks := []), l.w.callbacks); }
  }

  lemma {:induction false} FirstInFirstOut(queues: seq<seq<Message>>, acts: seq<Action>, m: nat)
    requires |queues| == |acts| + 1 && queues[0] == [] && m <= |acts|
    requires forall k | 0 <= k < |acts| :: QueueMoves(queues[k], acts[k], queues[k + 1])
    ensures Handled(queues, acts, m) + queues[m] == AllPosted(acts[..m])
    decreases m
  {
    if m > 0 {
      FirstInFirstOut(queues, acts, m - 1);
      PostedStep(acts, m);
      assert QueueMoves(queues[m - 1], acts[m - 1], queues[m - 1 + 1]);
      Moved(Handled(queues, acts, m - 1), queues[m - 1], acts[m - 1], queues[m]);
    }
  }

  lemma PostedStep(acts: seq<Action>, m: nat)
    requires 0 < m <= |acts|
    ensures AllPosted(acts[..m]) == AllPosted(acts[..m - 1]) + Posted(acts[m - 1])
  {
    assert acts[..m][..m - 1] == acts[..m - 1];
  }

  lemma Moved(handled: seq<Message>, q: seq<Message>, a: Action, q': seq<Message>)
    requires QueueMoves(q, a, q')
    ensures handled + (if a.Handle? && |q| > 0 then [q[0]] else []) + q' == (handled + q) + Posted(a)
  {
  }

  /** No message is lost, doubled or overtaken: what has been handled and what waits are what was posted,
      in order. */
  lemma {:induction false} MessagesInOrder(c: Config, now: nat, states: seq<Loop>, acts: seq<Action>, m: nat)
    requires Run(c, now, states, acts) && m <= |acts|
    ensures Handled(Queues(states), acts, m) + states[m].w.queue == AllPosted(acts[..m])
  {
    var queues := Queues(states);
    forall k | 0 <= k < |acts| ensures QueueMoves(queues[k], acts[k], queues[k + 1]) {
      assert Enabled(states[k], acts[k]);
      QueueStep(states[k], c, acts[k]);
    }
    FirstInFirstOut(queues, acts, m);
  }

  // ------------------------------------------------------------------------------------------
  // Time
  // ------------------------------------------------------------------------------------------

  function Elapsed(acts: seq<Action>): nat {
    if |acts| == 0 then 0
    else Elapsed(acts[..|acts| - 1]) + if acts[|acts| - 1].Tick? then acts[|acts| - 1].d else 0
  }

  lemma {:induction false} CallAllKeepsTime(w: World, calls: seq<Callback>)
    ensures CallAll(w, calls).clock.now == w.clock.now
    decreases |calls|
  {
    if |calls| > 0 { CallAllKeepsTime(CallOne(w, calls[0]), calls[1..]); }
  }

  lemma TimeStep(l: Loop, c: Config, a: Action)
    requires Enabled(l, a)
    ensures Apply(l, c, a).w.clock.now == l.w.clock.now + if a.Tick? then a.d else 0
  {
    if a.Decide? { CallAllKeepsTime(l.w.(callbacks := []), l.w.callbacks); }
  }

  /** The clock shows the time that has passed, whatever else happens. */
  lemma {:induction false} ClockRuns(c: Config, now: nat, states: seq<Loop>, acts: seq<Action>, m: nat)
    requires Run(c, now, states, acts) && m <= |acts|
    ensures states[m].w.clock.now == now + Elapsed(acts[..m])
    decreases m
  {
    if m > 0 {
      ClockRuns(c, now, states, acts, m - 1);
      assert acts[..m][..m - 1] == acts[..m - 1];
      assert Enabled(states[m - 1], acts[m - 1]);
      TimeStep(states[m - 1], c, acts[m - 1]);
    }
  }

  // ------------------------------------------------------------------------------------------
  // Timers
  // ------------------------------------------------------------------------------------------

  /** No timer comes back, and new ones have new numbers. */
  predicate TimersMoveOn(ts: Timers, ts': Timers) {
    ts.next <= ts'.next && forall t | t in ts'.live :: t in ts.live || t >= ts.next
  }

  lemma {:induction false} CallAllMovesOn(w: World, calls: seq<Callback>)
    ensures TimersMoveOn(w.timers, CallAll(w, calls).timers)
    decreases |calls|
  {
    if |calls| > 0 { CallAllMovesOn(CallOne(w, calls[0]), calls[1..]); }
  }

  lemma TimersStep(l: Loop, c: Config, a: Action)
    requires Enabled(l, a)
    ensures TimersMoveOn(l.w.timers, Apply(l, c, a).w.timers)
    ensures a.FirePoke? ==> a.t in l.w.timers.live && a.t !in Apply(l, c, a).w.timers.live
  {
    if a.Decide? { CallAllMovesOn(l.w.(callbacks := []), l.w.callbacks); }
  }

  lemma {:induction false} GoneForGood(all: seq<Timers>, i: nat, j: nat, t: nat)
    requires i <= j < |all| && forall k | 0 <= k < |all| - 1 :: TimersMoveOn(all[k], all[k + 1])
    requires t !in all[i].live && t < all[i].next
    ensures t !in all[j].live && t < all[j].next
    decreases j
  {
    if i < j {
      GoneForGood(all, i, j - 1, t);
      assert TimersMoveOn(all[j - 1], all[j - 1 + 1]);
    }
  }

  /** No timer pokes twice. */
  lemma {:induction false} TimerPokesOnce(c: Config, now: nat, states: seq<Loop>, acts: seq<Action>, i: nat, j: nat,
                                          t: nat)
    requires Run(c, now, states, acts) && i < j < |acts| && acts[i] == FirePoke(t)
    ensures acts[j] != FirePoke(t)
  {
    var all := seq(|states|, k requires 0 <= k < |states| => states[k].w.timers);
    forall k | 0 <= k < |all| - 1 ensures TimersMoveOn(all[k], all[k + 1]) {
      TimersStepOfRun(c, now, states, acts, k);
    }
    TimersStepOfRun(c, now, states, acts, i);
    TimersStepOfRun(c, now, states, acts, j);
    RunKeepsLoopOk(c, now, states, acts, i);
    GoneForGood(all, i + 1, j, t);
  }

  lemma TimersStepOfRun(c: Config, now: nat, states: seq<Loop>, acts: seq<Action>, k: nat)
    requires Run(c, now, states, acts) && k < |acts|
    ensures TimersMoveOn(states[k].w.timers, states[k + 1].w.timers)
    ensures acts[k].FirePoke? ==> acts[k].t in states[k].w.timers.live && acts[k].t !in states[k + 1].w.timers.live
  {
    assert Enabled(states[k], acts[k]);
    TimersStep(states[k], c, acts[k]);
  }

  // ------------------------------------------------------------------------------------------
  // Shutdown and the end of the loop
  // ------------------------------------------------------------------------------------------

  lemma {:induction false} ShutdownStep(l: Loop, c: Config, a: Action)
    requires Enabled(l, a) && l.w.core.shutdown
    ensures Apply(l, c, a).w.core.shutdown && Apply(l, c, a).w.starts == l.w.starts
  {
    if a.Decide? {
      NotifyCompletesPauses(l.w.(callbacks := []), l.w.callbacks);
      CallAllKeepsStarts(l.w.(callbacks := []), l.w.callbacks);
    }
  }

  /** After a shutdown signal, however it interleaves with pokes that are already queued, no sleep and no
      exit is started any more. */
  lemma {:induction false} NothingStartsAfterSignal(c: Config, now: nat, states: seq<Loop>, acts: seq<Action>,
                                                    j: nat, i: nat)
    requires Run(c, now, states, acts) && j < i < |states| && acts[j].Signal?
    ensures states[i].w.core.shutdown && states[i].w.starts == states[j].w.starts
    decreases i
  {
    assert Enabled(states[i - 1], acts[i - 1]);
    if j < i - 1 {
      NothingStartsAfterSignal(c, now, states, acts, j, i - 1);
      ShutdownStep(states[i - 1], c, acts[i - 1]);
    }
  }

  /** The loop never waits for a message while it should shut down, unless one is already there; it steps only
      with work or to shut down; and a loop that has died does nothing more. */
  lemma ShutdownIsNoticed(c: Config, now: nat, states: seq<Loop>, acts: seq<Action>, i: nat)
    requires Run(c, now, states, acts) && i < |states|
    ensures states[i].at.Blocked? && states[i].w.core.shutdown ==> |states[i].w.queue| > 0
    ensures states[i].at.Blocked? ==> !HasWork(states[i].w)
    ensures states[i].at.Stepping? ==> HasWork(states[i].w) || states[i].w.core.shutdown
    ensures states[i].w.core.dead ==> i == |acts|
  {
    RunKeepsLoopOk(c, now, states, acts, i);
    if i < |acts| { assert Enabled(states[i], acts[i]); }
  }

  /** Once the loop has left its input loop it makes a step before it can wait for messages again, however
      many it handles meanwhile. */
  lemma {:induction false} StepsBeforeWaiting(c: Config, now: nat, states: seq<Loop>, acts: seq<Action>, i: nat, j: nat)
    returns (k: nat)
    requires Run(c, now, states, acts) && i < j < |states| && states[i].at.Stepping? && !states[j].at.Stepping?
    ensures i <= k < j && acts[k].Step?
    decreases j
  {
    assert Enabled(states[j - 1], acts[j - 1]);
    if states[j - 1].at.Stepping? {
      k := j - 1;
    } else {
      k := StepsBeforeWaiting(c, now, states, acts, i, j - 1);
    }
  }

  // ------------------------------------------------------------------------------------------
  // Requests and manual commands
  // ------------------------------------------------------------------------------------------

  /** What handling a request does: it is queued on an awake engine, waking it first if need be; if the wake
      fails the loop dies asleep; during a shutdown it changes nothing. */
  lemma ArrivalIsServedIff(w: World, c: Config, ok: bool, outcome: SleepOutcome)
    requires !w.core.dead
    ensures var v := HandleMessage(w, c, AddRequest, ok, outcome);
            && v.queue == w.queue && v.callbacks == w.callbacks && v.starts == w.starts
            && (if w.core.shutdown then v == w
                else if ok || !w.core.asleep
                then v.core == w.core.(asleep := false, hasRequests := true) && v.mode.ACTIVE?
                     && v.timers.current.None? && v.clock == Clock(w.clock.now, w.clock.now, w.clock.now)
                else v.core == w.core.(dead := true) && v.mode.SLEEPING?)
  {
  }

  /** After a manual sleep the controller starts nothing and arms nothing, whatever pokes are queued; the
      sleep waits for idleness exactly if there is work. */
  lemma ManualSleepHolds(w: World, c: Config, id: nat, ok: bool, outcome: SleepOutcome)
    requires !w.core.shutdown
    ensures var v := HandleMessage(w, c, ManualSleep(id), ok, outcome);
            && v.core.asleep && PokeHook(v, c, outcome) == v && IdleHook(v).timers == v.timers
            && v.callbacks == w.callbacks + (if w.core.hasRequests || w.core.otherWork then [PauseDone(id)] else [])
            && v == w.(core := v.core, callbacks := v.callbacks) && v.core == w.core.(asleep := true)
  {
  }

  /** A manual wake that succeeds is noticed at the next idleness: the controller is active again, without a
      keeper and with a timer. One that fails, or comes during a shutdown, changes nothing. */
  lemma ManualWakeIsNoticed(w: World, c: Config, ok: bool, outcome: SleepOutcome)
    requires w.core.asleep && w.mode.SLEEPING?
    ensures var v := HandleMessage(w, c, ManualWake, ok, outcome);
            if ok && !w.core.shutdown
            then v == w.(core := w.core.(asleep := false))
                 && IdleHook(v).mode.ACTIVE? && !IdleHook(v).keeper && IdleHook(v).timers.current.Some?
            else v == w
  {
  }

  /** A manual sleep or wake during a shutdown is ignored. */
  lemma ShutdownIgnoresCommands(w: World, c: Config, m: Message, ok: bool, outcome: SleepOutcome)
    requires w.core.shutdown
    ensures HandleMessage(w, c, m, ok, outcome) == w
  {
  }

  /** From every reachable state in which the loop is blocked with an empty queue, asleep or not, a request
      that arrives makes it step with that request on an awake engine. */
  lemma RequestWakesEngine(c: Config, now: nat, states: seq<Loop>, acts: seq<Action>, outcome: SleepOutcome)
    returns (states': seq<Loop>, acts': seq<Action>)
    requires Run(c, now, states, acts)
    requires var l := states[|acts|]; l.at.Blocked? && l.w.queue == [] && !l.w.core.dead && !l.w.core.shutdown
    ensures Run(c, now, states', acts') && acts' == acts + [Enqueue(AddRequest), Handle(true, outcome), Decide]
    ensures var l := states'[|acts'|];
            && l.at.Stepping? && l.w.core.hasRequests && !l.w.core.asleep && l.w.mode.ACTIVE? && l.w.queue == []
            && l.w.starts == states[|acts|].w.starts
  {
    states', acts' := Extend(c, now, states, acts, Enqueue(AddRequest));
    states', acts' := Extend(c, now, states', acts', Handle(true, outcome));
    states', acts' := Extend(c, now, states', acts', Decide);
  }

  /** An engine that never gets a request goes to sleep, or exits, once the timeout has passed. */
  lemma UnusedEngineSleeps(c: Config, now: nat, outcome: SleepOutcome)
    returns (states: seq<Loop>, acts: seq<Action>)
    ensures Run(c, now, states, acts)
    ensures acts == [Decide, Tick(c.timeout), Expire(0), FirePoke(0), Handle(true, outcome)]
    ensures Sleepable(states[0].w) && !HasWork(states[0].w)
    ensures |states[|acts|].w.starts| == 1 && AtRest(states[|acts|].w, c, outcome)
  {
    states, acts := [Loop(Initial(now), Deciding)], [];
    states, acts := Decided(c, now, states, acts);
    states, acts := Extend(c, now, states, acts, Tick(c.timeout));
    states, acts := Extend(c, now, states, acts, Expire(0));
    states, acts := RunPoke(c, now, states, acts, 0, outcome);
  }

  /** An idle notification with only the idle callback registered. */
  lemma {:induction false} Decided(c: Config, now: nat, states: seq<Loop>, acts: seq<Action>)
    returns (states': seq<Loop>, acts': seq<Action>)
    requires Run(c, now, states, acts)
    requires var l := states[|acts|];
             && l.at.Deciding? && !HasWork(l.w) && !l.w.core.dead && !l.w.core.shutdown && l.w.callbacks == [OnIdle]
    ensures Run(c, now, states', acts') && acts' == acts + [Decide]
    ensures var w := states[|acts|].w; states'[|acts'|] == Loop(IdleHook(w.(callbacks := [])), Blocked)
  {
    states', acts' := Extend(c, now, states, acts, Decide);
    var w := states[|acts|].w.(callbacks := []);
    assert [OnIdle][1..] == [];
    assert CallAll(w, [OnIdle]) == CallAll(CallOne(w, OnIdle), []);
  }

  /** After a step that leaves no work, from every reachable state in which only the idle callback is
      registered and nothing is queued, the engine goes to sleep or exits without any further message. */
  lemma FinishedEngineSleeps(c: Config, now: nat, states: seq<Loop>, acts: seq<Action>, outcome: SleepOutcome)
    returns (states': seq<Loop>, acts': seq<Action>)
    requires Run(c, now, states, acts)
    requires var l := states[|acts|];
             && l.at.Stepping? && Sleepable(l.w) && l.w.queue == [] && !l.w.core.dead && l.w.callbacks == [OnIdle]
    ensures Run(c, now, states', acts') && acts + [Step(false, false)] <= acts'
    ensures forall i | |acts| <= i < |acts'| :: !acts'[i].Enqueue? && !acts'[i].Signal?
    ensures |states'[|acts'|].w.starts| == |states[|acts|].w.starts| + 1
    ensures AtRest(states'[|acts'|].w, c, outcome)
  {
    states', acts' := Extend(c, now, states, acts, Step(false, false));
    states', acts' := Decided(c, now, states', acts');
    var acts1 := acts';
    assert acts1 == acts + [Step(false, false), Decide];
    states', acts' := IdleEngineCanSleep(c, now, states', acts1, outcome);
  }
}
