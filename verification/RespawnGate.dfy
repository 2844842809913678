/** The gate in front of an engine that has exited for deep sleep: requests share one respawn task,
    which retries a bounded number of times and survives the requests that wait for it. */
module RespawnGate {
  import opened Options

  /** A respawn cycle: about to make, or making, attempt n; its attempt has brought the engine up
      but the task has not finished yet; or it is done. */
  datatype Task = Pending(n: nat) | Attempting(n: nat) | Returned(n: nat) | Done(ok: bool, attempts: nat)

  datatype Client = Outside | Waiting(task: nat) | Passed | Rejected | Cancelled

  /** `up` is whether an engine serves requests; the other flags are the front end's own. */
  datatype Gate = Gate(sleeping: bool, pending: bool, slot: Option<nat>, tasks: seq<Task>,
                       clients: seq<Client>, up: bool)

  function Initial(clients: nat): Gate {
    Gate(false, false, None, [], seq(clients, _ => Outside), true)
  }

  predicate Unfinished(g: Gate, t: nat) {
    t < |g.tasks| && !g.tasks[t].Done?
  }

  predicate Closed(g: Gate) {
    g.sleeping || g.pending
  }

  // Each function below is one await-free section.

  /** A request reaches the gate: it passes, joins the task under way or starts a new one. The lock
      is held only inside this section. */
  function Enter(g: Gate, r: nat): Gate
    requires r < |g.clients|
  {
    if !Closed(g) then g.(clients := g.clients[r := Passed])
    else if g.slot.Some? && Unfinished(g, g.slot.value) then g.(clients := g.clients[r := Waiting(g.slot.value)])
    else
      var t := |g.tasks|;
      g.(tasks := g.tasks + [Pending(1)], slot := Some(t), clients := g.clients[r := Waiting(t)])
  }

  /** The clean-up of a waiter that stops waiting for task t. */
  function Release(g: Gate, t: nat): Gate
    requires t < |g.tasks|
  {
    if g.tasks[t].Done? && g.slot == Some(t) then g.(slot := None) else g
  }

  function Leave(g: Gate, r: nat): Gate
    requires r < |g.clients| && g.clients[r].Waiting? && g.clients[r].task < |g.tasks|
    requires g.tasks[g.clients[r].task].Done?
  {
    var t := g.clients[r].task;
    Release(g, t).(clients := g.clients[r := if g.tasks[t].ok then Passed else Rejected])
  }

  function Cancel(g: Gate, r: nat): Gate
    requires r < |g.clients| && g.clients[r].Waiting? && g.clients[r].task < |g.tasks|
  {
    Release(g, g.clients[r].task).(clients := g.clients[r := Cancelled])
  }

  datatype TaskStep = Begin | AttemptFails | AttemptSucceeds | GiveUp | Finish

  predicate TaskCan(task: Task, step: TaskStep, maxAttempts: nat) {
    match step
    case Begin => task.Pending? && task.n <= maxAttempts
    case AttemptFails => task.Attempting?
    case AttemptSucceeds => task.Attempting?
    // The budget has run out, or every attempt has been used.
    case GiveUp => task.Pending?
    case Finish => task.Returned?
  }

  function StepTask(g: Gate, t: nat, step: TaskStep): Gate
    requires t < |g.tasks| && !g.tasks[t].Done?
  {
    var n := g.tasks[t].n;
    match step
    case Begin => g.(tasks := g.tasks[t := Attempting(n)])
    case AttemptFails => g.(tasks := g.tasks[t := Pending(n + 1)])
    case AttemptSucceeds => g.(tasks := g.tasks[t := Returned(n)], sleeping := false, up := true)
    case GiveUp =>
      g.(tasks := g.tasks[t := Done(false, if n > 0 then n - 1 else 0)], pending := true)
    case Finish => g.(tasks := g.tasks[t := Done(true, n)], pending := false)
  }

  /** The engine exits for deep sleep and the front end has seen its last message. */
  function EngineExits(g: Gate): Gate {
    g.(sleeping := true, up := false)
  }

  datatype Action = DoEnter(r: nat) | DoLeave(r: nat) | DoCancel(r: nat) | DoTask(t: nat, step: TaskStep) | DoExit

  predicate Enabled(g: Gate, a: Action, maxAttempts: nat) {
    match a
    case DoEnter(r) => r < |g.clients| && g.clients[r].Outside?
    case DoLeave(r) =>
      && r < |g.clients| && g.clients[r].Waiting? && g.clients[r].task < |g.tasks|
      && g.tasks[g.clients[r].task].Done?
    case DoCancel(r) => r < |g.clients| && g.clients[r].Waiting? && g.clients[r].task < |g.tasks|
    case DoTask(t, step) => Unfinished(g, t) && TaskCan(g.tasks[t], step, maxAttempts)
    case DoExit => g.up
  }

  function Apply(g: Gate, a: Action, maxAttempts: nat): Gate
    requires Enabled(g, a, maxAttempts)
  {
    match a
    case DoEnter(r) => Enter(g, r)
    case DoLeave(r) => Leave(g, r)
    case DoCancel(r) => Cancel(g, r)
    case DoTask(t, step) => StepTask(g, t, step)
    case DoExit => EngineExits(g)
  }

  predicate Run(clients: nat, maxAttempts: nat, states: seq<Gate>, acts: seq<Action>) {
    && |states| == |acts| + 1
    && states[0] == Initial(clients)
    && forall i | 0 <= i < |acts| ::
         Enabled(states[i], acts[i], maxAttempts) && states[i + 1] == Apply(states[i], acts[i], maxAttempts)
  }

  /** Only the task in the slot can be unfinished, and attempts are bounded. */
  predicate TaskOk(g: Gate, t: nat, maxAttempts: nat) {
    t < |g.tasks| ==>
      match g.tasks[t]
      case Pending(n) => g.slot == Some(t) && 1 <= n <= maxAttempts + 1
      case Attempting(n) => g.slot == Some(t) && 1 <= n <= maxAttempts
      case Returned(n) => g.slot == Some(t) && 1 <= n <= maxAttempts
      case Done(_, attempts) => attempts <= maxAttempts
  }

  /** The front end knows an engine to be asleep exactly when it is down, and waiters wait for tasks that
      exist. */
  predicate GateOk(g: Gate, maxAttempts: nat) {
    && (g.slot.Some? ==> g.slot.value < |g.tasks|)
    && (forall t | 0 <= t < |g.tasks| :: TaskOk(g, t, maxAttempts))
    && (forall r | 0 <= r < |g.clients| && g.clients[r].Waiting? :: g.clients[r].task < |g.tasks|)
    && (!g.up <==> g.sleeping)
  }

  lemma ActionKeepsGateOk(g: Gate, a: Action, maxAttempts: nat)
    requires GateOk(g, maxAttempts) && Enabled(g, a, maxAttempts)
    ensures GateOk(Apply(g, a, maxAttempts), maxAttempts)
  {
    match a
    case DoEnter(r) => EnterKeepsGateOk(g, r, maxAttempts);
    case DoLeave(r) => ReleaseKeepsTasksOk(g, g.clients[r].task, maxAttempts);
    case DoCancel(r) => ReleaseKeepsTasksOk(g, g.clients[r].task, maxAttempts);
    case DoTask(t, step) => TaskKeepsGateOk(g, t, step, maxAttempts);
    case DoExit =>
      forall t | 0 <= t < |g.tasks| ensures TaskOk(EngineExits(g), t, maxAttempts) {
        assert TaskOk(g, t, maxAttempts);
      }
  }

  lemma ReleaseKeepsTasksOk(g: Gate, t: nat, maxAttempts: nat)
    requires GateOk(g, maxAttempts) && t < |g.tasks|
    ensures GateOk(Release(g, t), maxAttempts)
    ensures forall clients, u: nat :: u < |g.tasks| ==> TaskOk(Release(g, t).(clients := clients), u, maxAttempts)
  {
    forall clients, u: nat | u < |g.tasks|
      ensures TaskOk(Release(g, t), u, maxAttempts)
      ensures TaskOk(Release(g, t).(clients := clients), u, maxAttempts)
    {
      assert TaskOk(g, u, maxAttempts);
    }
    var h := Release(g, t);
    assert h == h.(clients := h.clients);
  }

  lemma TaskKeepsGateOk(g: Gate, t: nat, step: TaskStep, maxAttempts: nat)
    requires GateOk(g, maxAttempts) && Unfinished(g, t) && TaskCan(g.tasks[t], step, maxAttempts)
    ensures GateOk(StepTask(g, t, step), maxAttempts)
  {
    var h := StepTask(g, t, step);
    assert TaskOk(g, t, maxAttempts);
    forall u | 0 <= u < |h.tasks| ensures TaskOk(h, u, maxAttempts) {
      assert TaskOk(g, u, maxAttempts);
    }
  }

  lemma EnterKeepsGateOk(g: Gate, r: nat, maxAttempts: nat)
    requires GateOk(g, maxAttempts) && r < |g.clients|
    ensures GateOk(Enter(g, r), maxAttempts)
  {
    var h := Enter(g, r);
    forall t | 0 <= t < |h.tasks| ensures TaskOk(h, t, maxAttempts) {
      assert t < |g.tasks| ==> TaskOk(g, t, maxAttempts);
    }
  }

  lemma {:induction false} RunKeepsGateOk(clients: nat, maxAttempts: nat, states: seq<Gate>, acts: seq<Action>, i: nat)
    requires Run(clients, maxAttempts, states, acts) && i < |states|
    ensures GateOk(states[i], maxAttempts)
    decreases i
  {
    if i > 0 {
      RunKeepsGateOk(clients, maxAttempts, states, acts, i - 1);
      assert Enabled(states[i - 1], acts[i - 1], maxAttempts);
      ActionKeepsGateOk(states[i - 1], acts[i - 1], maxAttempts);
    }
  }

  // ------------------------------------------------------------------------------------------
  // What the gate promises
  // ------------------------------------------------------------------------------------------

  /** At every moment at most one respawn task is unfinished, and no cycle makes more than the
      allowed number of attempts. */
  lemma OneRespawnAtATime(clients: nat, maxAttempts: nat, states: seq<Gate>, acts: seq<Action>, i: nat, t: nat, u: nat)
    requires Run(clients, maxAttempts, states, acts) && i < |states|
    requires t < |states[i].tasks| && u < |states[i].tasks|
    ensures !states[i].tasks[t].Done? && !states[i].tasks[u].Done? ==> t == u
    ensures states[i].tasks[t].Done? ==> states[i].tasks[t].attempts <= maxAttempts
  {
    RunKeepsGateOk(clients, maxAttempts, states, acts, i);
    assert TaskOk(states[i], t, maxAttempts) && TaskOk(states[i], u, maxAttempts);
  }

  /** How many attempts of task t these actions begin. */
  function Begun(acts: seq<Action>, t: nat): nat {
    if |acts| == 0 then 0
    else Begun(acts[..|acts| - 1], t) + if acts[|acts| - 1] == DoTask(t, Begin) then 1 else 0
  }

  /** A task knows how many attempts it has begun. */
  predicate Counted(task: Task, begun: nat) {
    match task
    case Pending(n) => n == begun + 1
    case Attempting(n) => n == begun
    case Returned(n) => n == begun
    case Done(_, attempts) => attempts == begun
  }

  lemma CountStep(g: Gate, a: Action, maxAttempts: nat, t: nat, begun: nat)
    requires GateOk(g, maxAttempts) && Enabled(g, a, maxAttempts)
    requires CountedIn(g, t, begun)
    ensures CountedIn(Apply(g, a, maxAttempts), t, begun + if a == DoTask(t, Begin) then 1 else 0)
  {
    assert t < |g.tasks| ==> TaskOk(g, t, maxAttempts);
  }

  predicate CountedIn(g: Gate, t: nat, begun: nat) {
    if t < |g.tasks| then Counted(g.tasks[t], begun) else begun == 0
  }

  lemma {:induction false} BegunStep(acts: seq<Action>, t: nat, i: nat)
    requires 0 < i <= |acts|
    ensures Begun(acts[..i], t) == Begun(acts[..i - 1], t) + if acts[i - 1] == DoTask(t, Begin) then 1 else 0
  {
    assert acts[..i][..i - 1] == acts[..i - 1];
  }

  lemma {:induction false} CountedThroughout(clients: nat, maxAttempts: nat, states: seq<Gate>, acts: seq<Action>,
                                             i: nat, t: nat)
    requires Run(clients, maxAttempts, states, acts) && i < |states|
    ensures CountedIn(states[i], t, Begun(acts[..i], t))
    decreases i
  {
    if i > 0 {
      RunKeepsGateOk(clients, maxAttempts, states, acts, i - 1);
      assert Enabled(states[i - 1], acts[i - 1], maxAttempts);
      CountedThroughout(clients, maxAttempts, states, acts, i - 1, t);
      BegunStep(acts, t, i);
      CountStep(states[i - 1], acts[i - 1], maxAttempts, t, Begun(acts[..i - 1], t));
    }
  }

  /** Every task records the attempts that were really begun for it, and no cycle begins more than allowed. */
  lemma AttemptsAreCounted(clients: nat, maxAttempts: nat, states: seq<Gate>, acts: seq<Action>, i: nat, t: nat)
    requires Run(clients, maxAttempts, states, acts) && i < |states| && t < |states[i].tasks|
    ensures Counted(states[i].tasks[t], Begun(acts[..i], t)) && Begun(acts[..i], t) <= maxAttempts
  {
    CountedThroughout(clients, maxAttempts, states, acts, i, t);
    RunKeepsGateOk(clients, maxAttempts, states, acts, i);
    assert TaskOk(states[i], t, maxAttempts);
  }

  predicate Answered(c: Client) {
    c.Passed? || c.Rejected? || c.Cancelled?
  }

  lemma AnswerStays(g: Gate, a: Action, maxAttempts: nat, r: nat)
    requires Enabled(g, a, maxAttempts) && r < |g.clients|
    ensures var h := Apply(g, a, maxAttempts);
            && r < |h.clients|
            && (Answered(g.clients[r]) ==> h.clients[r] == g.clients[r])
            && (a == DoCancel(r) ==> h.clients[r].Cancelled?)
  {
  }

  lemma {:induction false} ClientsStay(clients: nat, maxAttempts: nat, states: seq<Gate>, acts: seq<Action>, i: nat)
    requires Run(clients, maxAttempts, states, acts) && i < |states|
    ensures |states[i].clients| == clients
    decreases i
  {
    if i > 0 {
      ClientsStay(clients, maxAttempts, states, acts, i - 1);
      assert Enabled(states[i - 1], acts[i - 1], maxAttempts);
    }
  }

  lemma {:induction false} AnsweredForGood(answers: seq<Client>, i: nat, j: nat)
    requires i <= j < |answers| && Answered(answers[i])
    requires forall k | 0 <= k < |answers| - 1 && Answered(answers[k]) :: answers[k + 1] == answers[k]
    ensures answers[j] == answers[i]
    decreases j
  {
    if i < j {
      AnsweredForGood(answers, i, j - 1);
      assert Answered(answers[j - 1]);
    }
  }

  /** A request gets one answer: what has passed, been rejected or been cancelled stays so, and a cancelled
      request is cancelled whatever becomes of its task. */
  lemma {:induction false} AnswerIsFinal(clients: nat, maxAttempts: nat, states: seq<Gate>, acts: seq<Action>,
                                         i: nat, j: nat, r: nat)
    requires Run(clients, maxAttempts, states, acts) && i < j < |states| && r < clients
    ensures r < |states[i].clients| && r < |states[j].clients|
    ensures Answered(states[i].clients[r]) ==> states[j].clients[r] == states[i].clients[r]
    ensures acts[i] == DoCancel(r) ==> states[j].clients[r].Cancelled?
  {
    forall k | 0 <= k < |states| ensures r < |states[k].clients| {
      ClientsStay(clients, maxAttempts, states, acts, k);
    }
    var answers := seq(|states|, k requires 0 <= k < |states| => states[k].clients[r]);
    forall k | 0 <= k < |acts|
      ensures Answered(answers[k]) ==> answers[k + 1] == answers[k]
      ensures acts[k] == DoCancel(r) ==> answers[k + 1].Cancelled?
    {
      assert Enabled(states[k], acts[k], maxAttempts);
      AnswerStays(states[k], acts[k], maxAttempts, r);
    }
    if Answered(answers[i]) { AnsweredForGood(answers, i, j); }
    if acts[i] == DoCancel(r) { AnsweredForGood(answers, i + 1, j); }
  }

  /** A request that enters passes only when an engine is up; otherwise it waits for a task that
      is not finished. Cancelling or releasing a waiter changes no task. */
  lemma EnteringIsSound(clients: nat, maxAttempts: nat, states: seq<Gate>, acts: seq<Action>, i: nat)
    requires Run(clients, maxAttempts, states, acts) && i < |acts|
    ensures acts[i].DoEnter? && acts[i].r < |states[i + 1].clients| ==>
              var c := states[i + 1].clients[acts[i].r];
              if Closed(states[i]) then c.Waiting? && Unfinished(states[i + 1], c.task)
              else c.Passed? && states[i].up
    ensures acts[i].DoCancel? || acts[i].DoLeave? ==> states[i + 1].tasks == states[i].tasks
  {
    RunKeepsGateOk(clients, maxAttempts, states, acts, i);
    RunKeepsGateOk(clients, maxAttempts, states, acts, i + 1);
    assert Enabled(states[i], acts[i], maxAttempts);
  }

  /** A request becomes a waiter only by entering, and then its task is unfinished. */
  lemma WaitingStep(g: Gate, a: Action, maxAttempts: nat, r: nat)
    requires GateOk(g, maxAttempts) && Enabled(g, a, maxAttempts)
    requires var h := Apply(g, a, maxAttempts); r < |h.clients| && h.clients[r].Waiting?
    ensures var h := Apply(g, a, maxAttempts);
            if a == DoEnter(r) then Closed(g) && Unfinished(h, h.clients[r].task)
            else r < |g.clients| && g.clients[r] == h.clients[r]
  {
  }

  /** A task is finished only by its own last step. */
  lemma FinishingStep(g: Gate, a: Action, maxAttempts: nat, t: nat)
    requires Enabled(g, a, maxAttempts) && Unfinished(g, t)
    requires var h := Apply(g, a, maxAttempts); t < |h.tasks| && h.tasks[t].Done?
    ensures a == DoTask(t, if Apply(g, a, maxAttempts).tasks[t].ok then Finish else GiveUp)
  {
  }

  /** A waiting request has been waiting for the same task since it entered. */
  lemma {:induction false} WaitingStarted(clients: nat, maxAttempts: nat, states: seq<Gate>, acts: seq<Action>,
                                          i: nat, r: nat)
    returns (e: nat)
    requires Run(clients, maxAttempts, states, acts) && i < |states|
    requires r < |states[i].clients| && states[i].clients[r].Waiting?
    ensures e < i && acts[e] == DoEnter(r)
    ensures r < |states[e + 1].clients| && states[e + 1].clients[r] == states[i].clients[r]
    ensures Closed(states[e]) && Unfinished(states[e + 1], states[i].clients[r].task)
    decreases i
  {
    assert i > 0;
    RunKeepsGateOk(clients, maxAttempts, states, acts, i - 1);
    WaitingStep(states[i - 1], acts[i - 1], maxAttempts, r);
    if acts[i - 1] == DoEnter(r) {
      e := i - 1;
    } else {
      e := WaitingStarted(clients, maxAttempts, states, acts, i - 1, r);
    }
  }

  /** A task that is unfinished at e and done at i finished in between, and how. */
  lemma {:induction false} FinishedBetween(clients: nat, maxAttempts: nat, states: seq<Gate>, acts: seq<Action>,
                                           e: nat, i: nat, t: nat) returns (f: nat)
    requires Run(clients, maxAttempts, states, acts) && e <= i < |states|
    requires Unfinished(states[e], t) && t < |states[i].tasks| && states[i].tasks[t].Done?
    ensures e <= f < i && acts[f] == DoTask(t, if states[i].tasks[t].ok then Finish else GiveUp)
    decreases i
  {
    var p := states[i - 1];
    TasksOnlyGrow(clients, maxAttempts, states, acts, e, i - 1);
    if p.tasks[t].Done? {
      DoneStaysDone(p, acts[i - 1], maxAttempts, t);
      f := FinishedBetween(clients, maxAttempts, states, acts, e, i - 1, t);
    } else {
      FinishingStep(p, acts[i - 1], maxAttempts, t);
      f := i - 1;
    }
  }

  lemma DoneStaysDone(g: Gate, a: Action, maxAttempts: nat, t: nat)
    requires Enabled(g, a, maxAttempts) && t < |g.tasks| && g.tasks[t].Done?
    ensures var h := Apply(g, a, maxAttempts); t < |h.tasks| && h.tasks[t] == g.tasks[t]
  {
  }

  lemma {:induction false} TasksOnlyGrow(clients: nat, maxAttempts: nat, states: seq<Gate>, acts: seq<Action>,
                                         e: nat, i: nat)
    requires Run(clients, maxAttempts, states, acts) && e <= i < |states|
    ensures |states[e].tasks| <= |states[i].tasks|
    decreases i
  {
    if e < i {
      TasksOnlyGrow(clients, maxAttempts, states, acts, e, i - 1);
      assert Enabled(states[i - 1], acts[i - 1], maxAttempts);
    }
  }

  /** A request that waited leaves normally only if the respawn it waited for finished successfully after
      the request had come, and with an error only if that respawn gave up. The attempt that succeeded
      may have been made before. */
  lemma WaitersPassAfterSuccess(clients: nat, maxAttempts: nat, states: seq<Gate>, acts: seq<Action>, i: nat, r: nat)
    returns (e: nat, f: nat)
    requires Run(clients, maxAttempts, states, acts) && i < |acts| && acts[i] == DoLeave(r)
    ensures e < f < i && acts[e] == DoEnter(r)
    ensures r < |states[i + 1].clients| && r < |states[i].clients| && states[i].clients[r].Waiting?
    ensures states[i + 1].clients[r].Passed? || states[i + 1].clients[r].Rejected?
    ensures acts[f] == DoTask(states[i].clients[r].task, if states[i + 1].clients[r].Passed? then Finish else GiveUp)
  {
    assert Enabled(states[i], acts[i], maxAttempts);
    e := WaitingStarted(clients, maxAttempts, states, acts, i, r);
    f := FinishedBetween(clients, maxAttempts, states, acts, e + 1, i, states[i].clients[r].task);
  }

  predicate Succeeds(a: Action) {
    a.DoTask? && a.step.AttemptSucceeds?
  }

  ghost predicate Mended(acts: seq<Action>, k: nat, hi: nat)
    requires hi <= |acts|
  {
    exists j :: k < j < hi && Succeeds(acts[j])
  }

  /** Every exit in this stretch of a run is followed by a successful attempt. */
  ghost predicate ExitsAreMended(acts: seq<Action>, lo: nat, hi: nat)
    requires hi <= |acts|
  {
    forall k | lo <= k < hi && acts[k].DoExit? :: Mended(acts, k, hi)
  }

  /** From a moment at which an engine is up, an engine is up exactly if every exit since then has been
      followed by a successful attempt. */
  lemma {:induction false} UpIffMended(clients: nat, maxAttempts: nat, states: seq<Gate>, acts: seq<Action>,
                                       lo: nat, hi: nat)
    requires Run(clients, maxAttempts, states, acts) && lo <= hi < |states| && states[lo].up
    ensures states[hi].up <==> ExitsAreMended(acts, lo, hi)
    decreases hi
  {
    if lo < hi {
      UpIffMended(clients, maxAttempts, states, acts, lo, hi - 1);
      var a := acts[hi - 1];
      assert Enabled(states[hi - 1], a, maxAttempts);
      if a.DoExit? {
        assert !Mended(acts, hi - 1, hi);
      } else if Succeeds(a) {
        forall k | lo <= k < hi && acts[k].DoExit? ensures Mended(acts, k, hi) {
          assert k < hi - 1 < hi && Succeeds(acts[hi - 1]);
        }
      } else {
        SameMending(acts, lo, hi);
      }
    }
  }

  lemma SameMending(acts: seq<Action>, lo: nat, hi: nat)
    requires lo < hi <= |acts| && !acts[hi - 1].DoExit? && !Succeeds(acts[hi - 1])
    ensures ExitsAreMended(acts, lo, hi) <==> ExitsAreMended(acts, lo, hi - 1)
  {
    forall k | lo <= k < hi ensures Mended(acts, k, hi) <==> Mended(acts, k, hi - 1) {
      MendedAsBefore(acts, k, hi);
    }
  }

  lemma MendedAsBefore(acts: seq<Action>, k: nat, hi: nat)
    requires k < hi <= |acts| && !Succeeds(acts[hi - 1])
    ensures Mended(acts, k, hi) <==> Mended(acts, k, hi - 1)
  {
    if Mended(acts, k, hi) {
      var j :| k < j < hi && Succeeds(acts[j]);
      assert j < hi - 1;
    }
  }

  /** No step of task t between a and i. */
  predicate Rests(acts: seq<Action>, t: nat, a: nat, i: nat)
    requires i <= |acts|
  {
    forall k | a < k < i :: !(acts[k].DoTask? && acts[k].t == t)
  }

  /** An attempt that fails or succeeds is the one its task has begun last. */
  lemma {:induction false} AttemptBegan(clients: nat, maxAttempts: nat, states: seq<Gate>, acts: seq<Action>,
                                        i: nat, t: nat) returns (a: nat)
    requires Run(clients, maxAttempts, states, acts) && i < |states|
    requires t < |states[i].tasks| && states[i].tasks[t].Attempting?
    ensures a < i && acts[a] == DoTask(t, Begin) && Rests(acts, t, a, i)
    decreases i
  {
    var g := states[i - 1];
    assert Enabled(g, acts[i - 1], maxAttempts);
    if acts[i - 1] == DoTask(t, Begin) {
      a := i - 1;
    } else {
      a := AttemptBegan(clients, maxAttempts, states, acts, i - 1, t);
    }
  }

  /** Every end of an attempt follows its beginning, with nothing of the task in between. */
  lemma AttemptsEndOnce(clients: nat, maxAttempts: nat, states: seq<Gate>, acts: seq<Action>, i: nat, t: nat)
    returns (a: nat)
    requires Run(clients, maxAttempts, states, acts) && i < |acts|
    requires acts[i] == DoTask(t, AttemptFails) || acts[i] == DoTask(t, AttemptSucceeds)
    ensures a < i && acts[a] == DoTask(t, Begin) && Rests(acts, t, a, i)
  {
    assert Enabled(states[i], acts[i], maxAttempts);
    a := AttemptBegan(clients, maxAttempts, states, acts, i, t);
  }

  lemma ReturnedStep(g: Gate, a: Action, maxAttempts: nat, t: nat)
    requires Enabled(g, a, maxAttempts)
    requires var h := Apply(g, a, maxAttempts); t < |h.tasks| && h.tasks[t].Returned?
    ensures a == DoTask(t, AttemptSucceeds)
            || (t < |g.tasks| && g.tasks[t].Returned? && !(a.DoTask? && a.t == t))
  {
  }

  /** A task that has brought the engine up and not finished yet did so by an attempt of its own, its last
      step. */
  lemma {:induction false} ReturnedBySuccess(clients: nat, maxAttempts: nat, states: seq<Gate>, acts: seq<Action>,
                                             i: nat, t: nat) returns (a: nat)
    requires Run(clients, maxAttempts, states, acts) && i < |states|
    requires t < |states[i].tasks| && states[i].tasks[t].Returned?
    ensures a < i && acts[a] == DoTask(t, AttemptSucceeds) && Rests(acts, t, a, i)
    decreases i
  {
    assert Enabled(states[i - 1], acts[i - 1], maxAttempts);
    ReturnedStep(states[i - 1], acts[i - 1], maxAttempts, t);
    if acts[i - 1] == DoTask(t, AttemptSucceeds) {
      a := i - 1;
    } else {
      a := ReturnedBySuccess(clients, maxAttempts, states, acts, i - 1, t);
    }
  }

  /** A request that passes after waiting finds an engine up exactly if every exit since its task's
      successful attempt has been followed by another successful attempt; in particular if there was no
      exit since. */
  lemma PasserFindsEngineIff(clients: nat, maxAttempts: nat, states: seq<Gate>, acts: seq<Action>, i: nat, r: nat)
    returns (a: nat, f: nat)
    requires Run(clients, maxAttempts, states, acts) && i < |acts| && acts[i] == DoLeave(r)
    requires r < |states[i + 1].clients| && states[i + 1].clients[r].Passed?
    ensures r < |states[i].clients| && states[i].clients[r].Waiting? && a < f < i
    ensures acts[a] == DoTask(states[i].clients[r].task, AttemptSucceeds)
    ensures acts[f] == DoTask(states[i].clients[r].task, Finish)
    ensures states[i + 1].up <==> ExitsAreMended(acts, a + 1, i)
  {
    assert Enabled(states[i], acts[i], maxAttempts);
    var e;
    e, f := WaitersPassAfterSuccess(clients, maxAttempts, states, acts, i, r);
    assert Enabled(states[f], acts[f], maxAttempts);
    a := ReturnedBySuccess(clients, maxAttempts, states, acts, f, states[i].clients[r].task);
    assert Enabled(states[a], acts[a], maxAttempts);
    UpIffMended(clients, maxAttempts, states, acts, a + 1, i);
  }

  /** The engine may exit again between the successful attempt and the end of the task: a request that
      comes in this gap joins the task, passes and finds no engine. */
  lemma LatePasserFindsNoEngine(maxAttempts: nat) returns (states: seq<Gate>, acts: seq<Action>)
    requires maxAttempts >= 1
    ensures Run(2, maxAttempts, states, acts) && |acts| == 8 && acts[7] == DoLeave(1)
    ensures var g := states[8]; |g.clients| == 2 && g.clients[1].Passed? && !g.up && g.sleeping
    ensures acts[3] == DoTask(0, AttemptSucceeds) && acts[5] == DoEnter(1)
  {
    states, acts := [Initial(2)], [];
    states, acts := Extend(2, maxAttempts, states, acts, DoExit);
    states, acts := Extend(2, maxAttempts, states, acts, DoEnter(0));
    states, acts := Extend(2, maxAttempts, states, acts, DoTask(0, Begin));
    states, acts := Extend(2, maxAttempts, states, acts, DoTask(0, AttemptSucceeds));
    states, acts := Extend(2, maxAttempts, states, acts, DoExit);
    states, acts := Extend(2, maxAttempts, states, acts, DoEnter(1));
    states, acts := Extend(2, maxAttempts, states, acts, DoTask(0, Finish));
    states, acts := Extend(2, maxAttempts, states, acts, DoLeave(1));
  }

  lemma Extend(clients: nat, maxAttempts: nat, states: seq<Gate>, acts: seq<Action>, a: Action)
    returns (states': seq<Gate>, acts': seq<Action>)
    requires Run(clients, maxAttempts, states, acts) && Enabled(states[|acts|], a, maxAttempts)
    ensures Run(clients, maxAttempts, states', acts') && acts' == acts + [a]
    ensures states'[|acts'|] == Apply(states[|acts|], a, maxAttempts)
  {
    states', acts' := states + [Apply(states[|acts|], a, maxAttempts)], acts + [a];
  }

  /** After a cycle has given up, every request has to wait at the gate until a respawn succeeds. */
  lemma {:induction false} FailureKeepsGateClosed(clients: nat, maxAttempts: nat, states: seq<Gate>, acts: seq<Action>,
                                                  f: nat, i: nat)
    requires Run(clients, maxAttempts, states, acts) && f < i < |states|
    requires acts[f].DoTask? && acts[f].step.GiveUp?
    requires forall k | f < k < i :: !(acts[k].DoTask? && acts[k].step.Finish?)
    ensures states[i].pending && Closed(states[i])
    decreases i
  {
    assert Enabled(states[i - 1], acts[i - 1], maxAttempts);
    if f < i - 1 {
      FailureKeepsGateClosed(clients, maxAttempts, states, acts, f, i - 1);
    }
  }

  /** A failure is still owed a respawn: a cycle has given up and none has finished since. */
  ghost predicate Owed(acts: seq<Action>, f: nat, i: nat)
    requires i <= |acts|
  {
    && f < i && acts[f].DoTask? && acts[f].step.GiveUp?
    && forall k | f < k < i :: !(acts[k].DoTask? && acts[k].step.Finish?)
  }

  /** At every moment the gate is open if and only if an engine is up and no failure is still owed a
      respawn. */
  lemma {:induction false} OpenIff(clients: nat, maxAttempts: nat, states: seq<Gate>, acts: seq<Action>, i: nat)
    requires Run(clients, maxAttempts, states, acts) && i < |states|
    ensures !Closed(states[i]) <==> states[i].up && forall f | 0 <= f < i :: !Owed(acts, f, i)
  {
    RunKeepsGateOk(clients, maxAttempts, states, acts, i);
    PendingIffOwed(clients, maxAttempts, states, acts, i);
  }

  lemma {:induction false} PendingIffOwed(clients: nat, maxAttempts: nat, states: seq<Gate>, acts: seq<Action>, i: nat)
    requires Run(clients, maxAttempts, states, acts) && i < |states|
    ensures states[i].pending <==> exists f | 0 <= f < i :: Owed(acts, f, i)
    decreases i
  {
    if i > 0 {
      PendingIffOwed(clients, maxAttempts, states, acts, i - 1);
      var a := acts[i - 1];
      assert Enabled(states[i - 1], a, maxAttempts);
      if a.DoTask? && a.step.GiveUp? {
        assert Owed(acts, i - 1, i);
      } else {
        if states[i].pending {
          var f :| 0 <= f < i - 1 && Owed(acts, f, i - 1);
          assert Owed(acts, f, i);
        }
        if f :| 0 <= f < i && Owed(acts, f, i) {
          assert Owed(acts, f, i - 1);
        }
      }
    }
  }

  /** When a task finishes, the gate is open if and only if every exit since its successful attempt has been
      followed by another; in particular, without an exit since, the next request passes. */
  lemma FinishOpensGateIff(clients: nat, maxAttempts: nat, states: seq<Gate>, acts: seq<Action>, i: nat, t: nat)
    returns (a: nat)
    requires Run(clients, maxAttempts, states, acts) && i < |acts| && acts[i] == DoTask(t, Finish)
    ensures a < i && acts[a] == DoTask(t, AttemptSucceeds)
    ensures !Closed(states[i + 1]) <==> ExitsAreMended(acts, a + 1, i)
  {
    assert Enabled(states[i], acts[i], maxAttempts);
    a := ReturnedBySuccess(clients, maxAttempts, states, acts, i, t);
    assert Enabled(states[a], acts[a], maxAttempts);
    UpIffMended(clients, maxAttempts, states, acts, a + 1, i);
    RunKeepsGateOk(clients, maxAttempts, states, acts, i);
  }

  // ------------------------------------------------------------------------------------------
  // The front end's own code
  // ------------------------------------------------------------------------------------------

  class AsyncLLM {
    var engineSleeping: bool
    var respawnPending: bool
    var respawnTask: Option<nat>
    var tasks: seq<Task>
    const maxAttempts: nat

    ghost function View(clients: seq<Client>, up: bool): Gate
      reads this
    {
      Gate(engineSleeping, respawnPending, respawnTask, tasks, clients, up)
    }

    /** The gate up to the point where it awaits; None means that the request goes on at once. */
    method AwaitRespawn(ghost clients: seq<Client>, ghost r: nat, ghost up: bool) returns (awaited: Option<nat>)
      requires r < |clients|
      modifies this
      ensures View(clients[r := if awaited.Some? then Waiting(awaited.value) else Passed], up)
              == Enter(old(View(clients, up)), r)
    {
      if !engineSleeping && !respawnPending {
        return None;
      }
      awaited := respawnTask;
      if awaited.None? || awaited.value >= |tasks| || tasks[awaited.value].Done? {
        awaited := Some(|tasks|);
        tasks := tasks + [Pending(1)];
        respawnTask := awaited;
      }
    }

    /** What a waiter does when it stops waiting, whatever the reason. */
    method StopWaiting(t: nat, ghost clients: seq<Client>, ghost up: bool)
      requires t < |tasks|
      modifies this
      ensures View(clients, up) == Release(old(View(clients, up)), t)
    {
      if tasks[t].Done? && respawnTask == Some(t) {
        respawnTask := None;
      }
    }

    /** The retry loop. `succeeds` tells how each attempt ends and `late` whether the budget is
        used up before it. */
    method RespawnWithRetries(succeeds: nat -> bool, late: nat -> bool) returns (ok: bool, attempts: nat)
      modifies this`engineSleeping, this`respawnPending
      ensures attempts <= maxAttempts && respawnPending == !ok
      ensures forall a | 1 <= a < attempts :: !succeeds(a) && !late(a)
      ensures attempts > 0 ==> !late(attempts) && (ok <==> succeeds(attempts))
      ensures ok ==> attempts > 0 && !engineSleeping
      ensures !ok ==> engineSleeping == old(engineSleeping) && (attempts == maxAttempts || late(attempts + 1))
    {
      attempts := 0;
      while attempts < maxAttempts
        invariant attempts <= maxAttempts && engineSleeping == old(engineSleeping)
        invariant forall a | 1 <= a <= attempts :: !succeeds(a) && !late(a)
      {
        if late(attempts + 1) {
          break;
        }
        attempts := attempts + 1;
        if succeeds(attempts) {
          engineSleeping := false;
          respawnPending := false;
          return true, attempts;
        }
      }
      respawnPending := true;
      ok := false;
    }
  }
}
