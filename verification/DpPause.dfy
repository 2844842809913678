/** Safety of the two-phase pause over every run of a client that resumes only what it has paused and
    waits for every rank's answer. */
module DpPause {
  import opened DpEngine
  import opened DpProtocol
  import opened DpAnyClient

  // What one settled rank looks like in each phase of a command; m is the number of commands
  // issued, and wasPaused says whether the command before the last one was a pause.

  /** Normal operation: no command is under way, or a resume has been completed. */
  predicate Awake(e: Rank, m: nat) {
    && e.handled == m == e.answered
    && !e.f.pending && !e.f.ignoreWave && !e.f.paused && !e.at.InResume?
  }

  /** A pause has been issued and not all ranks have agreed on it yet. */
  predicate Pausing(e: Rank, m: nat, wasPaused: bool) {
    && m - 1 <= e.handled <= m && e.handled >= e.answered
    && e.f.ignoreWave == wasPaused && e.f.pending == (e.handled == m)
    && e.f.paused == (e.handled == m || wasPaused) && !e.at.InResume?
    && (wasPaused && e.handled < m ==> !e.f.running && !e.work && e.at.Polling?)
    && (wasPaused && e.handled == m ==> e.f.running)
    && (e.handled == m && !e.f.running ==> e.at.Polling? && !e.work)
  }

  /** All ranks have agreed and keep stepping together. */
  predicate Draining(e: Rank, m: nat) {
    e.handled == m && !e.f.pending && e.f.ignoreWave && e.f.paused && e.f.running && !e.at.InResume?
  }

  /** All ranks have agreed and stopped together. */
  predicate Stopped(e: Rank, m: nat) {
    && e.handled == m && !e.f.pending && e.f.ignoreWave && e.f.paused
    && !e.f.running && !e.work && e.at.Polling?
  }

  /** A resume has been issued and its barrier has not opened yet. */
  predicate Resuming(e: Rank, m: nat) {
    && m - 1 <= e.handled <= m && e.answered == m - 1
    && !e.f.pending && !e.f.running
    && (if e.handled == m then e.at.InResume? && !e.f.ignoreWave && !e.f.paused
        else e.at.Polling? && e.f.ignoreWave && e.f.paused && !e.work)
  }

  /** A rank that keeps the last command of the client unanswered. */
  predicate Holdout(e: Rank, m: nat) {
    m > 0 && e.answered == m - 1 && (e.handled == m ==> e.f.running)
  }

  datatype Phase = AwakePhase | PausingPhase | DrainingPhase | StoppedPhase | ResumingPhase

  predicate RankIn(e: Rank, m: nat, wasPaused: bool, phase: Phase) {
    && e.answered <= m <= e.answered + 1 && e.answered <= e.handled
    && match phase
       case AwakePhase => Awake(e, m)
       case PausingPhase => Pausing(e, m, wasPaused)
       case DrainingPhase => Draining(e, m)
       case StoppedPhase => Stopped(e, m)
       case ResumingPhase => Resuming(e, m)
  }

  predicate WasPaused(commands: seq<Command>) {
    |commands| > 0 && LastIsPause(commands[..|commands| - 1])
  }

  predicate PhaseFits(commands: seq<Command>, phase: Phase) {
    match phase
    case AwakePhase => !LastIsPause(commands)
    case ResumingPhase => |commands| > 0 && !LastIsPause(commands)
    case _ => LastIsPause(commands)
  }

  predicate InPhase(s: System, phase: Phase) {
    && PhaseFits(s.commands, phase)
    && (forall i | 0 <= i < |s.ranks| ::
          && InPlace(s, s.ranks[i])
          && RankIn(Settled(s, s.ranks[i]), |s.commands|, WasPaused(s.commands), phase))
    && (phase.PausingPhase? || phase.DrainingPhase? ==>
          exists i | 0 <= i < |s.ranks| :: Holdout(Settled(s, s.ranks[i]), |s.commands|))
  }

  ghost predicate Safe(s: System) {
    |s.ranks| > 0 && exists phase :: InPhase(s, phase)
  }

  // ------------------------------------------------------------------------------------------
  // Each kind of action keeps the ranks in a phase
  // ------------------------------------------------------------------------------------------

  /** An action of one rank that leaves its settled form fit for the same phase, and does not
      remove the last holdout, keeps the phase. */
  lemma RankActionKeepsPhase(s: System, r: nat, k': Rank, phase: Phase)
    requires InPhase(s, phase) && r < |s.ranks| && InPlace(s, k')
    requires RankIn(Settled(s, k'), |s.commands|, WasPaused(s.commands), phase)
    requires Holdout(Settled(s, s.ranks[r]), |s.commands|) && (phase.PausingPhase? || phase.DrainingPhase?)
             ==> Holdout(Settled(s, k'), |s.commands|)
    ensures InPhase(s.(ranks := s.ranks[r := k']), phase)
  {
    var t := s.(ranks := s.ranks[r := k']);
    forall i | 0 <= i < |t.ranks|
      ensures InPlace(t, t.ranks[i]) && RankIn(Settled(t, t.ranks[i]), |t.commands|, WasPaused(t.commands), phase)
    {
      assert InPlace(s, s.ranks[i]);
      if i == r { assert Settled(t, k') == Settled(s, k'); }
      else { assert Settled(t, t.ranks[i]) == Settled(s, s.ranks[i]); }
    }
    if phase.PausingPhase? || phase.DrainingPhase? {
      var h :| 0 <= h < |s.ranks| && Holdout(Settled(s, s.ranks[h]), |s.commands|);
      assert Settled(t, t.ranks[h]) == Settled(s, t.ranks[h]);
      assert Holdout(Settled(t, t.ranks[h]), |t.commands|);
    }
  }

  /** The actions of a polling rank that take no command and answer none. */
  lemma LocalActionFits(s: System, a: Action, phase: Phase)
    requires InPhase(s, phase) && Enabled(s, a, STRICT)
    requires a.StartWave? || a.Add? || a.Abort? || a.Step?
    ensures var k, k' := s.ranks[a.r], RankAfter(s, s.ranks[a.r], a);
            && InPlace(s, k')
            && RankIn(Settled(s, k'), |s.commands|, WasPaused(s.commands), phase)
            && (Holdout(Settled(s, k), |s.commands|) ==> Holdout(Settled(s, k'), |s.commands|))
  {
  }

  lemma LeavingFits(s: System, a: Action, phase: Phase)
    requires InPhase(s, phase) && Enabled(s, a, STRICT)
    requires a.LeaveSync? || a.LeaveResume?
    ensures var k, k' := s.ranks[a.r], RankAfter(s, s.ranks[a.r], a);
            InPlace(s, k') && Settled(s, k') == Settled(s, k)
  {
  }

  lemma HandlingPauseFits(s: System, a: Action, phase: Phase)
    requires InPhase(s, phase) && Enabled(s, a, STRICT) && a.HandlePause?
    ensures phase.PausingPhase?
    ensures var k' := RankAfter(s, s.ranks[a.r], a);
            && InPlace(s, k')
            && RankIn(Settled(s, k'), |s.commands|, WasPaused(s.commands), phase)
            && Holdout(Settled(s, k'), |s.commands|)
  {
  }

  lemma AnsweringPauseFits(s: System, a: Action, phase: Phase)
    requires InPhase(s, phase) && Enabled(s, a, STRICT) && a.AnswerPause?
    ensures var k, k' := s.ranks[a.r], RankAfter(s, s.ranks[a.r], a);
            && InPlace(s, k')
            && RankIn(Settled(s, k'), |s.commands|, WasPaused(s.commands), phase)
            && !Holdout(Settled(s, k), |s.commands|)
  {
  }

  lemma HandlingResumeFits(s: System, a: Action, phase: Phase)
    requires InPhase(s, phase) && Enabled(s, a, STRICT) && a.HandleResume?
    ensures phase.ResumingPhase? && OnResume(s.ranks[a.r].f).Barrier?
    ensures var k' := RankAfter(s, s.ranks[a.r], a);
            InPlace(s, k') && RankIn(Settled(s, k'), |s.commands|, WasPaused(s.commands), phase)
  {
  }

  /** The all-reduce ends a pause once every rank is pending. */
  lemma CompletingSyncFits(s: System, a: Action, phase: Phase) returns (after: Phase)
    requires |s.ranks| > 0 && InPhase(s, phase) && Enabled(s, a, STRICT) && a.CompleteSync?
    ensures InPhase(Apply(s, a), after)
  {
    var t := Apply(s, a);
    var m := |s.commands|;
    var res := t.syncs[|s.syncs|];
    forall i | 0 <= i < |s.ranks|
      ensures InPlace(s, s.ranks[i]) && InPlace(t, s.ranks[i])
      ensures Settled(s, s.ranks[i]) == s.ranks[i]
      ensures Settled(t, s.ranks[i]) == LeftSync(s.ranks[i], res)
      ensures RankIn(s.ranks[i], m, WasPaused(s.commands), phase)
    {
      assert InPlace(s, s.ranks[i]);
    }
    assert RankIn(s.ranks[0], m, WasPaused(s.commands), phase);
    after := if phase.PausingPhase? && res.consensus
             then (if res.unfinished then DrainingPhase else StoppedPhase)
             else if phase.DrainingPhase? && !res.unfinished then StoppedPhase
             else phase;
    forall i | 0 <= i < |t.ranks|
      ensures InPlace(t, t.ranks[i]) && RankIn(Settled(t, t.ranks[i]), m, WasPaused(t.commands), after)
    {
      assert RankIn(s.ranks[i], m, WasPaused(s.commands), phase);
    }
    if after.PausingPhase? {
      var q :| 0 <= q < |s.ranks| && !s.ranks[q].f.pending;
      assert RankIn(s.ranks[q], m, WasPaused(s.commands), phase);
      assert Holdout(Settled(t, t.ranks[q]), m);
    } else if after.DrainingPhase? {
      var h :| 0 <= h < |s.ranks| && Holdout(Settled(s, s.ranks[h]), m);
      assert Holdout(Settled(t, t.ranks[h]), m);
    }
  }

  lemma CompletingResumeFits(s: System, a: Action, phase: Phase)
    requires |s.ranks| > 0 && InPhase(s, phase) && Enabled(s, a, STRICT) && a.CompleteResume?
    ensures phase.ResumingPhase? && InPhase(Apply(s, a), AwakePhase)
  {
    var t := Apply(s, a);
    forall i | 0 <= i < |s.ranks|
      ensures Settled(s, s.ranks[i]) == s.ranks[i] && InPlace(s, s.ranks[i])
      ensures RankIn(s.ranks[i], |s.commands|, WasPaused(s.commands), phase)
    {
      assert InPlace(s, s.ranks[i]);
    }
    assert RankIn(s.ranks[0], |s.commands|, WasPaused(s.commands), phase);
    forall i | 0 <= i < |t.ranks|
      ensures InPlace(t, t.ranks[i]) && RankIn(Settled(t, t.ranks[i]), |t.commands|, WasPaused(t.commands), AwakePhase)
    {
      assert RankIn(s.ranks[i], |s.commands|, WasPaused(s.commands), phase);
    }
  }

  lemma IssuingFits(s: System, a: Action, phase: Phase) returns (after: Phase)
    requires |s.ranks| > 0 && InPhase(s, phase) && Enabled(s, a, STRICT) && a.Issue?
    ensures InPhase(Apply(s, a), after)
  {
    var t := Apply(s, a);
    assert t.commands[..|t.commands| - 1] == s.commands;
    forall i | 0 <= i < |s.ranks|
      ensures InPlace(s, s.ranks[i]) && Settled(t, s.ranks[i]) == Settled(s, s.ranks[i])
      ensures RankIn(Settled(s, s.ranks[i]), |s.commands|, WasPaused(s.commands), phase)
      ensures Settled(s, s.ranks[i]).answered == |s.commands|
    {
      assert InPlace(s, s.ranks[i]);
      assert s.ranks[i].answered == |s.commands|;
    }
    assert RankIn(Settled(s, s.ranks[0]), |s.commands|, WasPaused(s.commands), phase);
    assert phase.AwakePhase? || phase.StoppedPhase?;
    after := if a.command.Pause? then PausingPhase else ResumingPhase;
    forall i | 0 <= i < |t.ranks|
      ensures InPlace(t, t.ranks[i]) && RankIn(Settled(t, t.ranks[i]), |t.commands|, WasPaused(t.commands), after)
    {
      assert RankIn(Settled(s, s.ranks[i]), |s.commands|, WasPaused(s.commands), phase);
    }
    assert Holdout(Settled(t, t.ranks[0]), |t.commands|);
  }

  lemma ActionKeepsSafe(s: System, a: Action)
    requires Safe(s) && Enabled(s, a, STRICT)
    ensures Safe(Apply(s, a))
  {
    var phase :| InPhase(s, phase);
    if a.Issue? {
      var after := IssuingFits(s, a, phase);
    } else if a.CompleteSync? {
      var after := CompletingSyncFits(s, a, phase);
    } else if a.CompleteResume? {
      CompletingResumeFits(s, a, phase);
    } else {
      var k' := RankAfter(s, s.ranks[a.r], a);
      RankActionFits(s, a, phase);
      RankActionKeepsPhase(s, a.r, k', phase);
      assert Apply(s, a) == s.(ranks := s.ranks[a.r := k']);
    }
  }

  lemma RankActionFits(s: System, a: Action, phase: Phase)
    requires InPhase(s, phase) && Enabled(s, a, STRICT)
    requires !a.Issue? && !a.CompleteSync? && !a.CompleteResume?
    ensures var k, k' := s.ranks[a.r], RankAfter(s, s.ranks[a.r], a);
            && InPlace(s, k')
            && RankIn(Settled(s, k'), |s.commands|, WasPaused(s.commands), phase)
            && (Holdout(Settled(s, k), |s.commands|) && (phase.PausingPhase? || phase.DrainingPhase?)
                ==> Holdout(Settled(s, k'), |s.commands|))
  {
    match a
    case HandlePause(_, _) => HandlingPauseFits(s, a, phase);
    case AnswerPause(_) => AnsweringPauseFits(s, a, phase);
    case HandleResume(_, _) => HandlingResumeFits(s, a, phase);
    case LeaveSync(_) => LeavingFits(s, a, phase);
    case LeaveResume(_) => LeavingFits(s, a, phase);
    case StartWave(_, _, _) => LocalActionFits(s, a, phase);
    case Add(_, _, _, _) => LocalActionFits(s, a, phase);
    case Abort(_) => LocalActionFits(s, a, phase);
    case Step(_, _) => LocalActionFits(s, a, phase);
  }

  lemma {:induction false} RunKeepsSafe(n: nat, states: seq<System>, acts: seq<Action>, i: nat)
    requires n > 0 && Run(n, states, acts, STRICT) && i < |states|
    ensures Safe(states[i])
    decreases i
  {
    if i == 0 {
      assert InPhase(Init(n), AwakePhase);
    } else {
      RunKeepsSafe(n, states, acts, i - 1);
      assert Enabled(states[i - 1], acts[i - 1], STRICT);
      ActionKeepsSafe(states[i - 1], acts[i - 1]);
    }
  }

  // ------------------------------------------------------------------------------------------
  // What the pause promises
  // ------------------------------------------------------------------------------------------

  /** No two ranks ever wait in collectives of different kinds. */
  lemma CollectivesNeverMix(n: nat, states: seq<System>, acts: seq<Action>, m: nat, i: nat, j: nat)
    requires n > 0 && Run(n, states, acts, STRICT) && m < |states|
    ensures !Mixed(states[m], i, j)
  {
    RunKeepsSafe(n, states, acts, m);
    var s := states[m];
    var phase :| InPhase(s, phase);
    if i < |s.ranks| && j < |s.ranks| {
      assert RankIn(Settled(s, s.ranks[i]), |s.commands|, WasPaused(s.commands), phase);
      assert RankIn(Settled(s, s.ranks[j]), |s.commands|, WasPaused(s.commands), phase);
    }
  }

  /** A resume that follows an answered pause is never refused and never ignored. */
  lemma ResumeIsHonoured(n: nat, states: seq<System>, acts: seq<Action>, m: nat)
    requires n > 0 && Run(n, states, acts, STRICT) && m < |acts| && acts[m].HandleResume?
    ensures acts[m].r < |states[m].ranks| && OnResume(states[m].ranks[acts[m].r].f).Barrier?
  {
    RunKeepsSafe(n, states, acts, m);
    var phase :| InPhase(states[m], phase);
    assert Enabled(states[m], acts[m], STRICT);
    HandlingResumeFits(states[m], acts[m], phase);
  }

  /** When every rank has answered a pause, every rank has agreed to it: once it has left its last
      collective it is stopped, has nothing left to run and discards START_DP_WAVE. */
  lemma AnsweredPauseMeansStopped(n: nat, states: seq<System>, acts: seq<Action>, m: nat, i: nat)
    requires n > 0 && Run(n, states, acts, STRICT) && m < |states|
    requires LastIsPause(states[m].commands)
    requires forall j | 0 <= j < |states[m].ranks| :: states[m].ranks[j].answered == |states[m].commands|
    requires i < |states[m].ranks|
    ensures Stopped(Settled(states[m], states[m].ranks[i]), |states[m].commands|)
  {
    RunKeepsSafe(n, states, acts, m);
    var s := states[m];
    var phase :| InPhase(s, phase);
    assert RankIn(Settled(s, s.ranks[i]), |s.commands|, WasPaused(s.commands), phase);
  }

  predicate AllPendingInSync(s: System) {
    AllIn(s, InSync) && AllPending(s)
  }

  /** Every consensus in the results was reached with all ranks pending inside the all-reduce. */
  lemma ConsensusMeansAllPending(n: nat, states: seq<System>, acts: seq<Action>, policy: Policy, m: nat, k: nat)
    returns (l: nat)
    requires Run(n, states, acts, policy) && m < |states|
    requires k < |states[m].syncs| && states[m].syncs[k].consensus
    ensures l < m && acts[l].CompleteSync? && |states[l].syncs| == k
    ensures AllPendingInSync(states[l])
  {
    l := AllReduceCollects(n, states, acts, policy, m, k);
  }

  /** A rank stops being pending, or starts discarding START_DP_WAVE, only by leaving an
      all-reduce that completed with every rank pending. */
  lemma OnlyConsensusEndsAPause(n: nat, states: seq<System>, acts: seq<Action>, policy: Policy, m: nat, r: nat)
    requires Run(n, states, acts, policy) && m < |acts|
    requires r < |states[m].ranks| && r < |states[m + 1].ranks|
    requires var f, g := states[m].ranks[r].f, states[m + 1].ranks[r].f;
             (f.pending && !g.pending) || (!f.ignoreWave && g.ignoreWave)
    ensures acts[m] == LeaveSync(r)
    ensures exists l | 0 <= l < m :: acts[l].CompleteSync? && AllPendingInSync(states[l])
                                     && |states[l].syncs| == states[m].ranks[r].syncsLeft
  {
    var a, s := acts[m], states[m];
    assert Enabled(s, a, policy);
    assert a == LeaveSync(r);
    var l := ConsensusMeansAllPending(n, states, acts, policy, m, s.ranks[r].syncsLeft);
  }
}
