/** A pause that has been issued can always be finished, and when that takes a wave message. */
module DpProgress {
  import opened DpEngine
  import opened DpProtocol
  import opened DpAnyClient
  import opened DpPause
  import opened DpMixing

  /** A rank that has taken the pause but has stopped with the wave before all ranks agreed. */
  predicate Stranded(s: System, r: nat) {
    r < |s.ranks| &&
    var e := Settled(s, s.ranks[r]);
    e.handled == |s.commands| && e.f.pending && !e.f.running
  }

  /** What the ranks do by themselves: nothing is issued, added or aborted, the all-reduce reports
      unfinished work exactly if there is some, and a wave message reaches only a stranded rank. */
  predicate OwnAction(s: System, a: Action) {
    match a
    case Issue(_) => false
    case Add(_, _, _, _) => false
    case Abort(_) => false
    case CompleteSync(unfinished) => unfinished <==> SomeRankHasWork(s)
    case StartWave(r, _, _) => Stranded(s, r)
    case _ => true
  }

  /** A longer run in which the ranks have only acted by themselves. */
  ghost predicate Continues(states: seq<System>, acts: seq<Action>, states': seq<System>, acts': seq<Action>) {
    && |states| == |acts| + 1 && |states'| == |acts'| + 1
    && states <= states' && acts <= acts'
    && forall i | |acts| <= i < |acts'| :: OwnAction(states'[i], acts'[i])
  }

  lemma ContinueAgain(states: seq<System>, acts: seq<Action>, states': seq<System>, acts': seq<Action>,
                      states'': seq<System>, acts'': seq<Action>)
    requires Continues(states, acts, states', acts') && Continues(states', acts', states'', acts'')
    ensures Continues(states, acts, states'', acts'')
  {
    forall i | |acts| <= i < |acts''| ensures OwnAction(states''[i], acts''[i]) {
      if i < |acts'| { assert states''[i] == states'[i] && acts''[i] == acts'[i]; }
    }
  }

  lemma Go(n: nat, states: seq<System>, acts: seq<Action>, a: Action)
    returns (states': seq<System>, acts': seq<Action>)
    requires Run(n, states, acts, STRICT) && Enabled(states[|acts|], a, STRICT) && OwnAction(states[|acts|], a)
    ensures Run(n, states', acts', STRICT) && Continues(states, acts, states', acts')
    ensures states'[|acts'|] == Apply(states[|acts|], a)
  {
    states', acts' := Extend(n, states, acts, STRICT, a);
  }

  // ------------------------------------------------------------------------------------------
  // Leaving collectives that have completed
  // ------------------------------------------------------------------------------------------

  predicate AllSettled(s: System) {
    forall q | 0 <= q < |s.ranks| :: Settled(s, s.ranks[q]) == s.ranks[q]
  }

  /** Only ranks have changed. */
  predicate SameButRanks(s: System, t: System) {
    t == s.(ranks := t.ranks) && |t.ranks| == |s.ranks|
  }

  lemma {:induction false} SettleAll(n: nat, states: seq<System>, acts: seq<Action>, r: nat)
    returns (states': seq<System>, acts': seq<Action>)
    requires Run(n, states, acts, STRICT) && r <= |states[|acts|].ranks|
    requires forall q | 0 <= q < r :: Settled(states[|acts|], states[|acts|].ranks[q]) == states[|acts|].ranks[q]
    ensures Run(n, states', acts', STRICT) && Continues(states, acts, states', acts')
    ensures SameButRanks(states[|acts|], states'[|acts'|]) && AllSettled(states'[|acts'|])
    ensures forall q | 0 <= q < |states[|acts|].ranks| ::
              states'[|acts'|].ranks[q] == Settled(states[|acts|], states[|acts|].ranks[q])
    decreases |states[|acts|].ranks| - r
  {
    var s := states[|acts|];
    states', acts' := states, acts;
    if r < |s.ranks| {
      var k := s.ranks[r];
      if Settled(s, k) != k {
        states', acts' := Go(n, states, acts, if k.at.InSync? then LeaveSync(r) else LeaveResume(r));
        assert states'[|acts'|] == s.(ranks := s.ranks[r := Settled(s, k)]);
      }
      var states1, acts1 := states', acts';
      states', acts' := SettleAll(n, states1, acts1, r + 1);
      ContinueAgain(states, acts, states1, acts1, states', acts');
    }
  }

  // ------------------------------------------------------------------------------------------
  // Getting ready for the all-reduce
  // ------------------------------------------------------------------------------------------

  /** A settled rank while a pause is outstanding: `pausing` before the ranks have agreed, not after. */
  predicate PauseFits(k: Rank, m: nat, pausing: bool) {
    && !k.at.InResume? && m > 0 && m - 1 <= k.handled <= m && k.answered <= m <= k.answered + 1
    && (if pausing then k.f.pending == (k.handled == m) else k.handled == m && !k.f.pending && k.f.running)
    && (k.handled == m && !k.f.running ==> k.at.Polling? && !k.f.ignoreWave)
  }

  predicate AllFit(s: System, pausing: bool) {
    && LastIsPause(s.commands) && AllSettled(s)
    && forall q | 0 <= q < |s.ranks| :: PauseFits(s.ranks[q], |s.commands|, pausing)
  }

  /** A rank with nothing left to do but to answer. */
  predicate Idle(k: Rank, m: nat) {
    k.at.Polling? && !k.f.running && !k.work && k.handled == m && k.answered <= m <= k.answered + 1
  }

  predicate AllIdle(s: System) {
    AllSettled(s) && forall q | 0 <= q < |s.ranks| :: Idle(s.ranks[q], |s.commands|)
  }

  /** Where a run stands whose last command is a pause, once its ranks have settled. */
  lemma WherePaused(n: nat, states: seq<System>, acts: seq<Action>) returns (idle: bool, pausing: bool)
    requires n > 0 && Run(n, states, acts, STRICT)
    requires LastIsPause(states[|acts|].commands) && AllSettled(states[|acts|])
    ensures if idle then AllIdle(states[|acts|]) else AllFit(states[|acts|], pausing)
  {
    RunKeepsSafe(n, states, acts, |acts|);
    var s := states[|acts|];
    var phase :| InPhase(s, phase);
    idle, pausing := phase.StoppedPhase?, phase.PausingPhase?;
    forall q | 0 <= q < |s.ranks|
      ensures if idle then Idle(s.ranks[q], |s.commands|) else PauseFits(s.ranks[q], |s.commands|, pausing)
    {
      assert RankIn(Settled(s, s.ranks[q]), |s.commands|, WasPaused(s.commands), phase);
    }
  }

  /** A rank that can go on to the all-reduce, or waits in it. */
  predicate Ready(k: Rank, m: nat, pausing: bool) {
    && PauseFits(k, m, pausing) && (k.at.Polling? ==> k.handled == m && k.f.running)
  }

  /** A polling rank takes the pause if it has not, and is woken if it is stranded. */
  lemma MakeReady(n: nat, states: seq<System>, acts: seq<Action>, r: nat, pausing: bool)
    returns (states': seq<System>, acts': seq<Action>)
    requires Run(n, states, acts, STRICT) && AllFit(states[|acts|], pausing) && r < |states[|acts|].ranks|
    ensures Run(n, states', acts', STRICT) && Continues(states, acts, states', acts')
    ensures var s, t := states[|acts|], states'[|acts'|];
            && r < |t.ranks| && t == s.(ranks := s.ranks[r := t.ranks[r]]) && t.ranks[r].at == s.ranks[r].at
            && Ready(t.ranks[r], |s.commands|, pausing) && AllFit(t, pausing)
  {
    var s := states[|acts|];
    var k, m := s.ranks[r], |s.commands|;
    states', acts' := states, acts;
    if k.at.Polling? && k.handled < m {
      states', acts' := Go(n, states, acts, HandlePause(r, false));
    } else if k.at.Polling? && !k.f.running {
      states', acts' := Go(n, states, acts, StartWave(r, k.f.wave, false));
    }
    var t := states'[|acts'|];
    forall q | 0 <= q < |t.ranks| ensures Settled(t, t.ranks[q]) == t.ranks[q] && PauseFits(t.ranks[q], m, pausing) {
      assert Settled(s, s.ranks[q]) == s.ranks[q] && PauseFits(s.ranks[q], m, pausing);
    }
  }

  lemma {:induction false} MakeAllReady(n: nat, states: seq<System>, acts: seq<Action>, r: nat, pausing: bool)
    returns (states': seq<System>, acts': seq<Action>)
    requires Run(n, states, acts, STRICT) && AllFit(states[|acts|], pausing) && r <= |states[|acts|].ranks|
    requires forall q | 0 <= q < r :: Ready(states[|acts|].ranks[q], |states[|acts|].commands|, pausing)
    ensures Run(n, states', acts', STRICT) && Continues(states, acts, states', acts')
    ensures var s, t := states[|acts|], states'[|acts'|];
            && SameButRanks(s, t) && AllFit(t, pausing)
            && forall q | 0 <= q < |t.ranks| ::
                 Ready(t.ranks[q], |t.commands|, pausing) && t.ranks[q].at == s.ranks[q].at
    decreases |states[|acts|].ranks| - r
  {
    states', acts' := states, acts;
    if r < |states[|acts|].ranks| {
      var states1, acts1 := MakeReady(n, states, acts, r, pausing);
      states', acts' := MakeAllReady(n, states1, acts1, r + 1, pausing);
      ContinueAgain(states, acts, states1, acts1, states', acts');
    }
  }

  // ------------------------------------------------------------------------------------------
  // One round through the all-reduce
  // ------------------------------------------------------------------------------------------

  /** A rank that waits for the others in the all-reduce. */
  predicate Waits(s: System, k: Rank, pausing: bool) {
    && k.at.InSync? && k.syncsLeft == |s.syncs|
    && |s.commands| > 0 && |s.commands| - 1 <= k.handled <= |s.commands| && k.answered <= |s.commands| <= k.answered + 1
    && (if pausing then k.f.pending == (k.handled == |s.commands|) else k.handled == |s.commands| && !k.f.pending)
  }

  /** A ready rank that was polling steps into the all-reduce without work. */
  lemma StepIn(n: nat, states: seq<System>, acts: seq<Action>, r: nat, pausing: bool)
    returns (states': seq<System>, acts': seq<Action>)
    requires Run(n, states, acts, STRICT) && r < |states[|acts|].ranks|
    requires var s := states[|acts|];
             && Settled(s, s.ranks[r]) == s.ranks[r] && InPlace(s, s.ranks[r])
             && Ready(s.ranks[r], |s.commands|, pausing)
    ensures Run(n, states', acts', STRICT) && Continues(states, acts, states', acts')
    ensures var s, t := states[|acts|], states'[|acts'|];
            && r < |t.ranks| && t == s.(ranks := s.ranks[r := t.ranks[r]]) && Waits(t, t.ranks[r], pausing)
            && (s.ranks[r].at.Polling? ==> t.ranks[r].handled == |s.commands| && !t.ranks[r].work)
  {
    var s := states[|acts|];
    states', acts' := states, acts;
    if s.ranks[r].at.Polling? {
      states', acts' := StepIntoSync(n, states, acts, STRICT, r, s.ranks[r].f.counter % SYNC_INTERVAL);
    }
  }

  lemma {:induction false} StepAllIn(n: nat, states: seq<System>, acts: seq<Action>, r: nat, pausing: bool,
                                     ats: seq<Position>)
    returns (states': seq<System>, acts': seq<Action>)
    requires Run(n, states, acts, STRICT) && r <= |states[|acts|].ranks| == |ats|
    requires var s := states[|acts|];
             forall q | 0 <= q < |ats| ::
               if q < r then SteppedIn(s, s.ranks[q], pausing, ats[q]) else MayStepIn(s, s.ranks[q], pausing, ats[q])
    ensures Run(n, states', acts', STRICT) && Continues(states, acts, states', acts')
    ensures var t := states'[|acts'|];
            && SameButRanks(states[|acts|], t)
            && forall q | 0 <= q < |ats| :: SteppedIn(t, t.ranks[q], pausing, ats[q])
    decreases |ats| - r
  {
    states', acts' := states, acts;
    if r < |ats| {
      assert MayStepIn(states[|acts|], states[|acts|].ranks[r], pausing, ats[r]);
      var states1, acts1 := StepIn(n, states, acts, r, pausing);
      NextStepsIn(states[|acts|], states1[|acts1|], r, pausing, ats);
      states', acts' := StepAllIn(n, states1, acts1, r + 1, pausing, ats);
      ContinueAgain(states, acts, states1, acts1, states', acts');
    }
  }

  /** Before: settled and ready, at position `at`. */
  predicate MayStepIn(s: System, k: Rank, pausing: bool, at: Position) {
    Settled(s, k) == k && InPlace(s, k) && Ready(k, |s.commands|, pausing) && k.at == at
  }

  /** After: in the all-reduce, without work if it came from polling. */
  predicate SteppedIn(s: System, k: Rank, pausing: bool, at: Position) {
    Waits(s, k, pausing) && (at.Polling? ==> k.handled == |s.commands| && !k.work)
  }

  lemma NextStepsIn(s: System, t: System, r: nat, pausing: bool, ats: seq<Position>)
    requires r < |s.ranks| == |t.ranks| == |ats| && t == s.(ranks := s.ranks[r := t.ranks[r]])
    requires SteppedIn(t, t.ranks[r], pausing, ats[r])
    requires forall q | 0 <= q < |ats| ::
               if q < r then SteppedIn(s, s.ranks[q], pausing, ats[q]) else MayStepIn(s, s.ranks[q], pausing, ats[q])
    ensures forall q | 0 <= q < |ats| ::
              if q < r + 1 then SteppedIn(t, t.ranks[q], pausing, ats[q]) else MayStepIn(t, t.ranks[q], pausing, ats[q])
  {
    forall q | 0 <= q < |ats|
      ensures if q < r + 1 then SteppedIn(t, t.ranks[q], pausing, ats[q]) else MayStepIn(t, t.ranks[q], pausing, ats[q])
    {
      if q > r { assert MayStepIn(s, s.ranks[q], pausing, ats[q]); }
      if q < r { assert SteppedIn(s, s.ranks[q], pausing, ats[q]); }
    }
  }

  predicate AllPolling(s: System) {
    forall q | 0 <= q < |s.ranks| :: s.ranks[q].at.Polling?
  }

  /** All ranks go through one all-reduce. If all were polling before it, they all stop after it. */
  lemma Round(n: nat, states: seq<System>, acts: seq<Action>, pausing: bool)
    returns (states': seq<System>, acts': seq<Action>)
    requires n > 0 && Run(n, states, acts, STRICT) && AllFit(states[|acts|], pausing) && |states[|acts|].ranks| == n
    ensures Run(n, states', acts', STRICT) && Continues(states, acts, states', acts')
    ensures var s, t := states[|acts|], states'[|acts'|];
            && t.commands == s.commands && |t.ranks| == n && AllSettled(t) && AllPolling(t)
            && (AllPolling(s) ==> AllIdle(t))
  {
    var s := states[|acts|];
    var states1, acts1 := MakeAllReady(n, states, acts, 0, pausing);
    var s1 := states1[|acts1|];
    var ats := seq(n, q requires 0 <= q < n => s1.ranks[q].at);
    RunKeepsSafe(n, states1, acts1, |acts1|);
    var phase :| InPhase(s1, phase);
    forall q | 0 <= q < n ensures MayStepIn(s1, s1.ranks[q], pausing, ats[q]) {
      assert InPlace(s1, s1.ranks[q]) && Settled(s1, s1.ranks[q]) == s1.ranks[q];
    }
    var states2, acts2 := StepAllIn(n, states1, acts1, 0, pausing, ats);
    ContinueAgain(states, acts, states1, acts1, states2, acts2);
    states', acts' := Meet(n, states2, acts2, pausing, ats);
    ContinueAgain(states, acts, states2, acts2, states', acts');
    assert AllPolling(s) ==> forall q | 0 <= q < n :: ats[q].Polling?;
  }

  /** The all-reduce completes and all ranks leave it. */
  lemma Meet(n: nat, states: seq<System>, acts: seq<Action>, pausing: bool, ats: seq<Position>)
    returns (states': seq<System>, acts': seq<Action>)
    requires n > 0 && Run(n, states, acts, STRICT) && |states[|acts|].ranks| == n == |ats|
    requires forall q | 0 <= q < n :: SteppedIn(states[|acts|], states[|acts|].ranks[q], pausing, ats[q])
    ensures Run(n, states', acts', STRICT) && Continues(states, acts, states', acts')
    ensures var s, t := states[|acts|], states'[|acts'|];
            && t.commands == s.commands && |t.ranks| == n && AllSettled(t) && AllPolling(t)
            && ((forall q | 0 <= q < n :: ats[q].Polling?) ==> AllIdle(t))
  {
    var s := states[|acts|];
    forall q | 0 <= q < n ensures s.ranks[q].at.InSync? && s.ranks[q].syncsLeft == |s.syncs| {
      assert SteppedIn(s, s.ranks[q], pausing, ats[q]);
    }
    var u := SomeRankHasWork(s);
    var states1, acts1 := Go(n, states, acts, CompleteSync(u));
    var s1 := states1[|acts1|];
    states', acts' := SettleAll(n, states1, acts1, 0);
    ContinueAgain(states, acts, states1, acts1, states', acts');
    var t := states'[|acts'|];
    forall q | 0 <= q < n
      ensures t.ranks[q] == LeftSync(s.ranks[q], s1.syncs[|s.syncs|])
      ensures (forall i | 0 <= i < n :: ats[i].Polling?) ==> Idle(t.ranks[q], |t.commands|)
    {
      assert SteppedIn(s, s.ranks[q], pausing, ats[q]);
      assert t.ranks[q] == Settled(s1, s1.ranks[q]);
      if forall i | 0 <= i < n :: ats[i].Polling? {
        assert forall i | 0 <= i < n :: SteppedIn(s, s.ranks[i], pausing, ats[i]) && !s.ranks[i].work;
      }
    }
  }

  // ------------------------------------------------------------------------------------------
  // The pause can finish
  // ------------------------------------------------------------------------------------------

  predicate AllAnswered(s: System) {
    forall q | 0 <= q < |s.ranks| :: s.ranks[q].answered == |s.commands|
  }

  lemma {:induction false} AnswerAll(n: nat, states: seq<System>, acts: seq<Action>, r: nat)
    returns (states': seq<System>, acts': seq<Action>)
    requires Run(n, states, acts, STRICT) && r <= |states[|acts|].ranks| && AllIdle(states[|acts|])
    requires forall q | 0 <= q < r :: states[|acts|].ranks[q].answered == |states[|acts|].commands|
    ensures Run(n, states', acts', STRICT) && Continues(states, acts, states', acts')
    ensures states'[|acts'|].commands == states[|acts|].commands && AllAnswered(states'[|acts'|])
    decreases |states[|acts|].ranks| - r
  {
    var s := states[|acts|];
    states', acts' := states, acts;
    if r < |s.ranks| {
      assert Idle(s.ranks[r], |s.commands|);
      if s.ranks[r].answered < |s.commands| {
        states', acts' := Go(n, states, acts, AnswerPause(r));
        var t := states'[|acts'|];
        forall q | 0 <= q < |t.ranks| ensures Settled(t, t.ranks[q]) == t.ranks[q] && Idle(t.ranks[q], |t.commands|) {
          assert Idle(s.ranks[q], |s.commands|);
        }
      }
      var states1, acts1 := states', acts';
      states', acts' := AnswerAll(n, states1, acts1, r + 1);
      ContinueAgain(states, acts, states1, acts1, states', acts');
    }
  }

  /** From every state of a run whose last command is a pause, the ranks can go on by themselves, woken by
      wave messages only where they are stranded, until every rank has answered the pause. */
  lemma PauseCanFinish(n: nat, states: seq<System>, acts: seq<Action>)
    returns (states': seq<System>, acts': seq<Action>)
    requires n > 0 && Run(n, states, acts, STRICT) && LastIsPause(states[|acts|].commands)
    ensures Run(n, states', acts', STRICT) && Continues(states, acts, states', acts')
    ensures states'[|acts'|].commands == states[|acts|].commands && AllAnswered(states'[|acts'|])
  {
    RunKeepsLockstep(n, states, acts, STRICT, |acts|);
    var states1, acts1 := SettleAll(n, states, acts, 0);
    var states2, acts2 := Stop(n, states1, acts1);
    ContinueAgain(states, acts, states1, acts1, states2, acts2);
    states', acts' := AnswerAll(n, states2, acts2, 0);
    ContinueAgain(states, acts, states2, acts2, states', acts');
  }

  /** At most two rounds stop all ranks. */
  lemma Stop(n: nat, states: seq<System>, acts: seq<Action>)
    returns (states': seq<System>, acts': seq<Action>)
    requires n > 0 && Run(n, states, acts, STRICT) && |states[|acts|].ranks| == n
    requires LastIsPause(states[|acts|].commands) && AllSettled(states[|acts|])
    ensures Run(n, states', acts', STRICT) && Continues(states, acts, states', acts')
    ensures states'[|acts'|].commands == states[|acts|].commands && AllIdle(states'[|acts'|])
  {
    states', acts' := states, acts;
    var idle, pausing := WherePaused(n, states, acts);
    if !idle {
      states', acts' := Round(n, states, acts, pausing);
      idle, pausing := WherePaused(n, states', acts');
      if !idle {
        var states1, acts1 := states', acts';
        states', acts' := Round(n, states1, acts1, pausing);
        ContinueAgain(states, acts, states1, acts1, states', acts');
      }
    }
  }

  // ------------------------------------------------------------------------------------------
  // The resume can finish
  // ------------------------------------------------------------------------------------------

  predicate LastIsResume(s: System) {
    |s.commands| > 0 && s.commands[|s.commands| - 1].Resume?
  }

  /** A settled rank while a resume is outstanding: it has yet to take it, or waits in the barrier. */
  predicate Resumes(s: System, k: Rank) {
    Settled(s, k) == k && InPlace(s, k) && Resuming(k, |s.commands|)
  }

  predicate AllResume(s: System) {
    LastIsResume(s) && forall q | 0 <= q < |s.ranks| :: Resumes(s, s.ranks[q])
  }

  predicate AllAwake(s: System) {
    forall q | 0 <= q < |s.ranks| :: Settled(s, s.ranks[q]) == s.ranks[q] && Awake(s.ranks[q], |s.commands|)
  }

  lemma WhereResumed(n: nat, states: seq<System>, acts: seq<Action>) returns (awake: bool)
    requires n > 0 && Run(n, states, acts, STRICT)
    requires LastIsResume(states[|acts|]) && AllSettled(states[|acts|])
    ensures if awake then AllAwake(states[|acts|]) else AllResume(states[|acts|])
  {
    RunKeepsSafe(n, states, acts, |acts|);
    var s := states[|acts|];
    var phase :| InPhase(s, phase);
    awake := phase.AwakePhase?;
    forall q | 0 <= q < |s.ranks|
      ensures if awake then Awake(s.ranks[q], |s.commands|) else Resumes(s, s.ranks[q])
    {
      assert InPlace(s, s.ranks[q]) && RankIn(Settled(s, s.ranks[q]), |s.commands|, WasPaused(s.commands), phase);
    }
  }

  /** Every rank takes the resume and enters the barrier. */
  lemma {:induction false} EnterBarrier(n: nat, states: seq<System>, acts: seq<Action>, r: nat)
    returns (states': seq<System>, acts': seq<Action>)
    requires Run(n, states, acts, STRICT) && AllResume(states[|acts|]) && r <= |states[|acts|].ranks|
    requires forall q | 0 <= q < r :: states[|acts|].ranks[q].at.InResume?
    ensures Run(n, states', acts', STRICT) && Continues(states, acts, states', acts')
    ensures SameButRanks(states[|acts|], states'[|acts'|])
    ensures AllResume(states'[|acts'|]) && AllIn(states'[|acts'|], InResume)
    decreases |states[|acts|].ranks| - r
  {
    var s := states[|acts|];
    states', acts' := states, acts;
    if r < |s.ranks| {
      assert Resumes(s, s.ranks[r]);
      if !s.ranks[r].at.InResume? {
        states', acts' := Go(n, states, acts, HandleResume(r, false));
        TakesResume(s, r);
      }
      var states1, acts1 := states', acts';
      states', acts' := EnterBarrier(n, states1, acts1, r + 1);
      ContinueAgain(states, acts, states1, acts1, states', acts');
    }
  }

  lemma TakesResume(s: System, r: nat)
    requires AllResume(s) && r < |s.ranks| && s.ranks[r].at.Polling?
    ensures Enabled(s, HandleResume(r, false), STRICT)
    ensures var t := Apply(s, HandleResume(r, false));
            && SameButRanks(s, t) && AllResume(t) && t.ranks[r].at.InResume?
            && forall q | 0 <= q < |s.ranks| && q != r :: t.ranks[q] == s.ranks[q]
  {
    assert Resumes(s, s.ranks[r]);
    var t := Apply(s, HandleResume(r, false));
    forall q | 0 <= q < |t.ranks| ensures Resumes(t, t.ranks[q]) {
      assert Resumes(s, s.ranks[q]);
    }
  }

  /** From every state of a run whose last command is a resume, the ranks can go on by themselves until every
      rank has answered it, listens to START_DP_WAVE and is not paused. */
  lemma ResumeCanFinish(n: nat, states: seq<System>, acts: seq<Action>)
    returns (states': seq<System>, acts': seq<Action>)
    requires n > 0 && Run(n, states, acts, STRICT) && LastIsResume(states[|acts|])
    ensures Run(n, states', acts', STRICT) && Continues(states, acts, states', acts')
    ensures states'[|acts'|].commands == states[|acts|].commands && AllAnswered(states'[|acts'|])
    ensures AllAwake(states'[|acts'|])
  {
    RunKeepsLockstep(n, states, acts, STRICT, |acts|);
    states', acts' := SettleAll(n, states, acts, 0);
    var awake := WhereResumed(n, states', acts');
    if !awake {
      var states1, acts1 := states', acts';
      states', acts' := OpenBarrier(n, states1, acts1);
      ContinueAgain(states, acts, states1, acts1, states', acts');
    }
  }

  lemma OpenBarrier(n: nat, states: seq<System>, acts: seq<Action>)
    returns (states': seq<System>, acts': seq<Action>)
    requires n > 0 && Run(n, states, acts, STRICT) && AllResume(states[|acts|])
    ensures Run(n, states', acts', STRICT) && Continues(states, acts, states', acts')
    ensures states'[|acts'|].commands == states[|acts|].commands && AllAwake(states'[|acts'|])
  {
    var states1, acts1 := EnterBarrier(n, states, acts, 0);
    var s := states1[|acts1|];
    forall q | 0 <= q < |s.ranks| ensures s.ranks[q].at.InResume? && s.ranks[q].resumesLeft == |s.resumes| {
      assert Resumes(s, s.ranks[q]);
    }
    var states2, acts2 := Go(n, states1, acts1, CompleteResume);
    ContinueAgain(states, acts, states1, acts1, states2, acts2);
    var t := states2[|acts2|];
    states', acts' := SettleAll(n, states2, acts2, 0);
    ContinueAgain(states, acts, states2, acts2, states', acts');
    var u := states'[|acts'|];
    forall q | 0 <= q < |u.ranks| ensures Awake(u.ranks[q], |u.commands|) {
      assert Resumes(s, s.ranks[q]) && u.ranks[q] == Settled(t, t.ranks[q]);
    }
  }

  // ------------------------------------------------------------------------------------------
  // A stranded rank needs a wave message
  // ------------------------------------------------------------------------------------------

  /** Rank r is stranded, and rank h has yet to answer. */
  predicate Hangs(s: System, r: nat, h: nat) {
    && r < |s.ranks| && h < |s.ranks| && LastIsPause(s.commands)
    && InPlace(s, s.ranks[r]) && InPlace(s, s.ranks[h])
    && HasStopped(Settled(s, s.ranks[r]), |s.commands|) && StillToAnswer(Settled(s, s.ranks[h]), |s.commands|)
  }

  predicate HasStopped(e: Rank, m: nat) {
    e.handled == m && e.f.pending && e.f.paused && !e.f.running && !e.work && e.at.Polling?
  }

  predicate StillToAnswer(e: Rank, m: nat) {
    Holdout(e, m) && m - 1 <= e.handled <= m
  }

  lemma StrandedHangs(n: nat, states: seq<System>, acts: seq<Action>, i: nat, r: nat) returns (h: nat)
    requires n > 0 && Run(n, states, acts, STRICT) && i < |states|
    requires LastIsPause(states[i].commands) && Stranded(states[i], r)
    ensures Hangs(states[i], r, h)
  {
    RunKeepsSafe(n, states, acts, i);
    var s := states[i];
    var phase :| InPhase(s, phase);
    assert InPlace(s, s.ranks[r]) && RankIn(Settled(s, s.ranks[r]), |s.commands|, WasPaused(s.commands), phase);
    h :| 0 <= h < |s.ranks| && Holdout(Settled(s, s.ranks[h]), |s.commands|);
    assert InPlace(s, s.ranks[h]) && RankIn(Settled(s, s.ranks[h]), |s.commands|, WasPaused(s.commands), phase);
  }

  /** While nothing reaches the stranded rank, no collective completes and no command is issued. */
  lemma NothingCompletes(s: System, a: Action, r: nat, h: nat)
    requires Hangs(s, r, h) && Enabled(s, a, STRICT)
    ensures !a.Issue? && !a.CompleteSync? && !a.CompleteResume?
  {
  }

  lemma RankKeepsHanging(s: System, a: Action, r: nat, h: nat)
    requires Hangs(s, r, h) && Enabled(s, a, STRICT) && !a.Issue? && !a.CompleteSync? && !a.CompleteResume?
    requires !(a.StartWave? && a.r == r)
    ensures var k' := RankAfter(s, s.ranks[a.r], a);
            && (a.r == r ==> InPlace(s, k') && HasStopped(Settled(s, k'), |s.commands|))
            && (a.r == h ==> InPlace(s, k') && StillToAnswer(Settled(s, k'), |s.commands|))
  {
  }

  lemma StaysHanging(s: System, a: Action, r: nat, h: nat)
    requires Hangs(s, r, h) && Enabled(s, a, STRICT) && !(a.StartWave? && a.r == r)
    ensures Hangs(Apply(s, a), r, h) && Apply(s, a).commands == s.commands
  {
    NothingCompletes(s, a, r, h);
    RankKeepsHanging(s, a, r, h);
    var t := Apply(s, a);
    assert t == s.(ranks := s.ranks[a.r := RankAfter(s, s.ranks[a.r], a)]);
  }

  lemma {:induction false} HangsOn(n: nat, states: seq<System>, acts: seq<Action>, i: nat, r: nat, h: nat, j: nat)
    requires n > 0 && Run(n, states, acts, STRICT) && i <= j < |states| && Hangs(states[i], r, h)
    requires forall k | i <= k < j :: !(acts[k].StartWave? && acts[k].r == r)
    ensures Hangs(states[j], r, h) && states[j].commands == states[i].commands && !AllAnswered(states[j])
    decreases j
  {
    if i < j {
      HangsOn(n, states, acts, i, r, h, j - 1);
      assert Enabled(states[j - 1], acts[j - 1], STRICT);
      StaysHanging(states[j - 1], acts[j - 1], r, h);
    }
  }

  /** As long as no wave message reaches a stranded rank, whatever else happens, some rank has not
      answered the pause. */
  lemma StrandedNeedsWave(n: nat, states: seq<System>, acts: seq<Action>, i: nat, r: nat, j: nat)
    requires n > 0 && Run(n, states, acts, STRICT) && i <= j < |states|
    requires LastIsPause(states[i].commands) && Stranded(states[i], r)
    requires forall k | i <= k < j :: !(acts[k].StartWave? && acts[k].r == r)
    ensures states[j].commands == states[i].commands && !AllAnswered(states[j])
  {
    var h := StrandedHangs(n, states, acts, i, r);
    HangsOn(n, states, acts, i, r, h, j);
  }

  /** Two or more ranks run without work; rank 0 takes the pause before the next all-reduce, the others
      do not. */
  predicate OneAhead(s: System, n: nat, r: nat) {
    && s.commands == [Pause] && s.syncs == [] && s.resumes == [] && |s.ranks| == n
    && forall q | 0 <= q < n ::
         if q < r then WaitsFirst(s.ranks[q], q == 0) else s.ranks[q] == INITIAL_RANK
  }

  predicate WaitsFirst(k: Rank, paused: bool) {
    && k.at.InSync? && !k.work && k.syncsLeft == 0 && k.resumesLeft == 0
    && k.f.pending == paused && k.handled == (if paused then 1 else 0)
  }

  lemma {:induction false} OthersFollow(n: nat, states: seq<System>, acts: seq<Action>, r: nat)
    returns (states': seq<System>, acts': seq<Action>)
    requires Run(n, states, acts, STRICT) && 1 <= r <= n && OneAhead(states[|acts|], n, r)
    ensures Run(n, states', acts', STRICT) && OneAhead(states'[|acts'|], n, n)
    decreases n - r
  {
    states', acts' := states, acts;
    if r < n {
      states', acts' := Extend(n, states', acts', STRICT, StartWave(r, 0, false));
      states', acts' := StepIntoSync(n, states', acts', STRICT, r, 0);
      states', acts' := OthersFollow(n, states', acts', r + 1);
    }
  }

  /** A run that strands rank 0: it has taken the pause, another rank has not when the all-reduce ends the
      wave, and all ranks stop. */
  lemma PauseCanStrand(n: nat) returns (states: seq<System>, acts: seq<Action>)
    requires n >= 2
    ensures Run(n, states, acts, STRICT)
    ensures states[|acts|].commands == [Pause] && Stranded(states[|acts|], 0)
  {
    states, acts := [Init(n)], [];
    states, acts := Extend(n, states, acts, STRICT, Issue(Pause));
    states, acts := Extend(n, states, acts, STRICT, HandlePause(0, false));
    states, acts := StepIntoSync(n, states, acts, STRICT, 0, 0);
    states, acts := OthersFollow(n, states, acts, 1);
    var s := states[|acts|];
    assert WaitsFirst(s.ranks[1], false) && WaitsFirst(s.ranks[0], true);
    states, acts := Extend(n, states, acts, STRICT, CompleteSync(false));
    assert states[|acts|].syncs == [SyncResult(false, false)];
    states, acts := Extend(n, states, acts, STRICT, LeaveSync(0));
  }
}
