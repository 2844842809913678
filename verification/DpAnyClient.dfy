/** What holds in every run of the ranks, whatever the client does. */
module DpAnyClient {
  import opened DpEngine
  import opened DpProtocol

  /** Rank k once it has left a collective whose result is already known. A rank inside a
      collective does nothing else, so its settled form is what it is committed to. */
  function Settled(s: System, k: Rank): Rank {
    if k.at.InSync? && k.syncsLeft < |s.syncs| then LeftSync(k, s.syncs[k.syncsLeft])
    else if k.at.InResume? && k.resumesLeft < |s.resumes| then LeftResume(k, s.resumes[k.resumesLeft])
    else k
  }

  predicate InPlace(s: System, k: Rank) {
    && k.syncsLeft <= |s.syncs| <= k.syncsLeft + 1
    && (k.syncsLeft < |s.syncs| ==> k.at.InSync?)
    && k.resumesLeft <= |s.resumes| <= k.resumesLeft + 1
    && (k.resumesLeft < |s.resumes| ==> k.at.InResume?)
  }

  predicate WaitingIn(s: System, k: Rank, p: Position) {
    k.at == p && Settled(s, k) == k
  }

  /** Rank i waits in the state all-reduce while rank j waits in the resume barrier. */
  predicate Mixed(s: System, i: nat, j: nat) {
    && i < |s.ranks| && j < |s.ranks|
    && WaitingIn(s, s.ranks[i], InSync) && WaitingIn(s, s.ranks[j], InResume)
  }

  /** A rank in the barrier of resume_scheduler has stopped and listens to START_DP_WAVE. */
  predicate BarrierFits(e: Rank) {
    e.at.InResume? ==> !e.f.running && !e.f.ignoreWave
  }

  /** Outside the barrier all ranks agree on whether START_DP_WAVE is discarded. */
  predicate AgreeOnDiscard(x: Rank, y: Rank) {
    !x.at.InResume? && !y.at.InResume? ==> x.f.ignoreWave == y.f.ignoreWave
  }

  predicate Agreement(s: System) {
    && (forall i | 0 <= i < |s.ranks| :: InPlace(s, s.ranks[i]) && BarrierFits(Settled(s, s.ranks[i])))
    && (forall i, j | 0 <= i < |s.ranks| && 0 <= j < |s.ranks| ::
          AgreeOnDiscard(Settled(s, s.ranks[i]), Settled(s, s.ranks[j])))
  }

  /** A rank's own action enters the barrier with the flag cleared or leaves the flag alone. */
  lemma RankActionKeepsFlag(s: System, a: Action)
    requires Agreement(s) && Enabled(s, a, FREE)
    requires !a.Issue? && !a.CompleteSync? && !a.CompleteResume?
    ensures var k' := RankAfter(s, s.ranks[a.r], a);
            var e, e' := Settled(s, s.ranks[a.r]), Settled(s, k');
            && InPlace(s, k') && BarrierFits(e')
            && (!e'.at.InResume? ==> !e.at.InResume? && e'.f.ignoreWave == e.f.ignoreWave)
  {
    assert InPlace(s, s.ranks[a.r]) && BarrierFits(Settled(s, s.ranks[a.r]));
  }

  lemma RankActionKeepsAgreement(s: System, r: nat, k': Rank)
    requires Agreement(s) && r < |s.ranks| && InPlace(s, k') && BarrierFits(Settled(s, k'))
    requires var e, e' := Settled(s, s.ranks[r]), Settled(s, k');
             !e'.at.InResume? ==> !e.at.InResume? && e'.f.ignoreWave == e.f.ignoreWave
    ensures Agreement(s.(ranks := s.ranks[r := k']))
  {
    var t := s.(ranks := s.ranks[r := k']);
    forall i | 0 <= i < |t.ranks|
      ensures InPlace(t, t.ranks[i]) && Settled(t, t.ranks[i]) == Settled(s, t.ranks[i])
      ensures BarrierFits(Settled(t, t.ranks[i]))
    {
      assert i != r ==> InPlace(s, s.ranks[i]) && BarrierFits(Settled(s, s.ranks[i]));
    }
    forall i, j | 0 <= i < |t.ranks| && 0 <= j < |t.ranks|
      ensures AgreeOnDiscard(Settled(t, t.ranks[i]), Settled(t, t.ranks[j]))
    {
      assert AgreeOnDiscard(Settled(s, s.ranks[i]), Settled(s, s.ranks[j]));
    }
  }

  /** A collective that completes has every rank inside, so all of them change the flag alike. */
  lemma CompletionKeepsAgreement(s: System, a: Action)
    requires Agreement(s) && Enabled(s, a, FREE) && (a.Issue? || a.CompleteSync? || a.CompleteResume?)
    ensures Agreement(Apply(s, a))
  {
    var t := Apply(s, a);
    forall i | 0 <= i < |t.ranks| ensures InPlace(t, t.ranks[i]) && BarrierFits(Settled(t, t.ranks[i])) {
      assert InPlace(s, s.ranks[i]) && BarrierFits(Settled(s, s.ranks[i]));
    }
    forall i, j | 0 <= i < |t.ranks| && 0 <= j < |t.ranks|
      ensures AgreeOnDiscard(Settled(t, t.ranks[i]), Settled(t, t.ranks[j]))
    {
      assert InPlace(s, s.ranks[i]) && BarrierFits(Settled(s, s.ranks[i]));
      assert InPlace(s, s.ranks[j]) && BarrierFits(Settled(s, s.ranks[j]));
      assert AgreeOnDiscard(Settled(s, s.ranks[i]), Settled(s, s.ranks[j]));
    }
  }

  lemma {:induction false} RunKeepsAgreement(n: nat, states: seq<System>, acts: seq<Action>, policy: Policy, m: nat)
    requires Run(n, states, acts, policy) && m < |states|
    ensures Agreement(states[m])
    decreases m
  {
    if m > 0 {
      RunKeepsAgreement(n, states, acts, policy, m - 1);
      var s, a := states[m - 1], acts[m - 1];
      assert Enabled(s, a, policy);
      if a.Issue? || a.CompleteSync? || a.CompleteResume? {
        CompletionKeepsAgreement(s, a);
      } else {
        RankActionKeepsFlag(s, a);
        RankActionKeepsAgreement(s, a.r, RankAfter(s, s.ranks[a.r], a));
      }
    }
  }

  /** Whether a rank goes on to a forward pass, or is in the middle of one. */
  predicate Stepping(e: Rank) {
    match e.at
    case Polling => e.f.running || e.work
    case InSync => true
    case InResume => false
  }

  /** In no reachable state of any run does a rank step with wave messages enabled while another rank,
      stopped or not, still discards START_DP_WAVE. */
  lemma NoStaleDiscard(n: nat, states: seq<System>, acts: seq<Action>, policy: Policy, m: nat, i: nat, j: nat)
    requires Run(n, states, acts, policy) && m < |states|
    requires i < |states[m].ranks| && j < |states[m].ranks|
    ensures var x, y := Settled(states[m], states[m].ranks[i]), Settled(states[m], states[m].ranks[j]);
            Stepping(x) && !x.f.ignoreWave ==> !y.f.ignoreWave
    // A polling rank is as settled as it gets.
    ensures states[m].ranks[i].at.Polling? ==> Settled(states[m], states[m].ranks[i]) == states[m].ranks[i]
    // It steps if and only if the run can go on with a forward pass of it.
    ensures states[m].ranks[i].at.Polling? ==>
              (Stepping(states[m].ranks[i]) <==> Enabled(states[m], Step(i, false), policy))
  {
    RunKeepsAgreement(n, states, acts, policy, m);
    var s := states[m];
    assert InPlace(s, s.ranks[i]) && BarrierFits(Settled(s, s.ranks[j]));
    assert AgreeOnDiscard(Settled(s, s.ranks[i]), Settled(s, s.ranks[j]));
  }

  // ------------------------------------------------------------------------------------------
  // What a completed collective makes of its ranks
  // ------------------------------------------------------------------------------------------

  predicate SomeRankHasWork(s: System) {
    exists k :: 0 <= k < |s.ranks| && s.ranks[k].work
  }

  predicate AllIn(s: System, p: Position) {
    forall k | 0 <= k < |s.ranks| :: s.ranks[k].at == p
  }

  /** Every result of the resume barrier says whether some rank had work when all of them were inside. */
  lemma {:induction false} BarrierCollectsWork(n: nat, states: seq<System>, acts: seq<Action>, policy: Policy,
                                               m: nat, k: nat) returns (j: nat)
    requires Run(n, states, acts, policy) && m < |states| && k < |states[m].resumes|
    ensures j < m && acts[j].CompleteResume? && |states[j].resumes| == k && AllIn(states[j], InResume)
    ensures states[m].resumes[k] <==> SomeRankHasWork(states[j])
    decreases m
  {
    assert Enabled(states[m - 1], acts[m - 1], policy);
    if k < |states[m - 1].resumes| {
      j := BarrierCollectsWork(n, states, acts, policy, m - 1, k);
    } else {
      j := m - 1;
    }
  }

  /** A rank inside the barrier has stopped, whether the result is there or not. */
  lemma {:induction false} StoppedInBarrier(n: nat, states: seq<System>, acts: seq<Action>, policy: Policy,
                                            i: nat, r: nat)
    requires Run(n, states, acts, policy) && i < |states| && r < |states[i].ranks| && states[i].ranks[r].at.InResume?
    ensures !states[i].ranks[r].f.running && !states[i].ranks[r].f.ignoreWave
    decreases i
  {
    var s, a := states[i - 1], acts[i - 1];
    assert Enabled(s, a, policy);
    if s.ranks[r].at.InResume? {
      StoppedInBarrier(n, states, acts, policy, i - 1, r);
    }
  }

  /** A rank that leaves the resume barrier is running if and only if some rank had work when the barrier
      completed; it listens to START_DP_WAVE again. */
  lemma ResumeStartsIff(n: nat, states: seq<System>, acts: seq<Action>, policy: Policy, i: nat, r: nat)
    returns (j: nat)
    requires Run(n, states, acts, policy) && i < |acts| && acts[i] == LeaveResume(r)
    ensures r < |states[i].ranks| && r < |states[i + 1].ranks|
    ensures j < i && acts[j].CompleteResume? && AllIn(states[j], InResume)
    ensures |states[j].resumes| == states[i].ranks[r].resumesLeft
    ensures var f := states[i + 1].ranks[r].f;
            (f.running <==> SomeRankHasWork(states[j])) && !f.ignoreWave
    ensures states[i + 1].ranks[r].at.Polling?
  {
    var s := states[i];
    assert Enabled(s, acts[i], policy);
    j := BarrierCollectsWork(n, states, acts, policy, i, s.ranks[r].resumesLeft);
    StoppedInBarrier(n, states, acts, policy, i, r);
  }

  predicate AllPending(s: System) {
    forall k | 0 <= k < |s.ranks| :: s.ranks[k].f.pending
  }

  /** Every result of the state all-reduce was reached with all ranks inside; it reports what it was given and
      whether all of them were pending. */
  lemma {:induction false} AllReduceCollects(n: nat, states: seq<System>, acts: seq<Action>, policy: Policy,
                                             m: nat, k: nat) returns (j: nat)
    requires Run(n, states, acts, policy) && m < |states| && k < |states[m].syncs|
    ensures j < m && acts[j].CompleteSync? && |states[j].syncs| == k && AllIn(states[j], InSync)
    ensures states[m].syncs[k] == SyncResult(acts[j].unfinished, AllPending(states[j]))
    ensures SomeRankHasWork(states[j]) ==> acts[j].unfinished
    decreases m
  {
    assert Enabled(states[m - 1], acts[m - 1], policy);
    if k < |states[m - 1].syncs| {
      j := AllReduceCollects(n, states, acts, policy, m - 1, k);
    } else {
      j := m - 1;
    }
  }

  /** A rank that leaves the state all-reduce runs on if and only if unfinished work was reported, and ends its
      wave otherwise; its pause is agreed on if and only if every rank was pending. */
  lemma LeavingDecides(n: nat, states: seq<System>, acts: seq<Action>, policy: Policy, i: nat, r: nat)
    returns (j: nat)
    requires Run(n, states, acts, policy) && i < |acts| && acts[i] == LeaveSync(r)
    ensures r < |states[i].ranks| && r < |states[i + 1].ranks|
    ensures j < i && acts[j].CompleteSync? && AllIn(states[j], InSync)
    ensures |states[j].syncs| == states[i].ranks[r].syncsLeft
    ensures SomeRankHasWork(states[j]) ==> acts[j].unfinished
    ensures var f, g := states[i].ranks[r].f, states[i + 1].ranks[r].f;
            && (g.running <==> acts[j].unfinished) && g.paused == f.paused
            && g.wave == f.wave + (if acts[j].unfinished then 0 else 1)
            && g.counter == (if acts[j].unfinished then f.counter else 0)
            && (g.pending <==> f.pending && !AllPending(states[j]))
            && (g.ignoreWave <==> f.ignoreWave || AllPending(states[j]))
  {
    assert Enabled(states[i], acts[i], policy);
    j := AllReduceCollects(n, states, acts, policy, i, states[i].ranks[r].syncsLeft);
  }

  // ------------------------------------------------------------------------------------------
  // Commands and answers
  // ------------------------------------------------------------------------------------------

  /** A rank that runs, or whose pause is pending, answers a resume at once and stays as it is; any other enters
      the barrier with what is flushed to it, no longer paused and listening. */
  lemma TakingResume(n: nat, states: seq<System>, acts: seq<Action>, policy: Policy, i: nat, r: nat, work: bool)
    requires Run(n, states, acts, policy) && i < |acts| && acts[i] == HandleResume(r, work)
    ensures r < |states[i].ranks| && r < |states[i + 1].ranks|
    ensures var k, k' := states[i].ranks[r], states[i + 1].ranks[r];
            && k'.handled == k.handled + 1
            && (if k.f.pending || k.f.running then k' == k.(handled := k.handled + 1, answered := k.answered + 1)
                else k'.at.InResume? && k'.work == work && k'.answered == k.answered
                     && !k'.f.paused && !k'.f.ignoreWave && !k'.f.running)
  {
    assert Enabled(states[i], acts[i], policy);
  }

  /** A pause that rank r takes is open until it is answered. */
  function Opens(a: Action, r: nat): int {
    match a
    case HandlePause(q, _) => if q == r then 1 else 0
    case AnswerPause(q) => if q == r then -1 else 0
    case _ => 0
  }

  function OpenPauses(acts: seq<Action>, r: nat): int {
    if |acts| == 0 then 0 else OpenPauses(acts[..|acts| - 1], r) + Opens(acts[|acts| - 1], r)
  }

  /** Commands taken and not answered, but for a resume in whose barrier the rank is. */
  function Unanswered(k: Rank): int {
    k.handled - k.answered - if k.at.InResume? then 1 else 0
  }

  lemma UnansweredStep(s: System, a: Action, r: nat)
    requires Enabled(s, a, FREE) && r < |s.ranks|
    ensures r < |Apply(s, a).ranks| && Unanswered(Apply(s, a).ranks[r]) == Unanswered(s.ranks[r]) + Opens(a, r)
  {
  }

  /** Whatever the client does, of the commands a rank has taken exactly those are unanswered that are pauses it
      has yet to answer or a resume in whose barrier it is. */
  lemma {:induction false} AnswersAreCounted(n: nat, states: seq<System>, acts: seq<Action>, policy: Policy,
                                             i: nat, r: nat)
    requires Run(n, states, acts, policy) && i < |states| && r < n
    ensures r < |states[i].ranks| && Unanswered(states[i].ranks[r]) == OpenPauses(acts[..i], r)
    decreases i
  {
    if i > 0 {
      assert Enabled(states[i - 1], acts[i - 1], policy);
      AnswersAreCounted(n, states, acts, policy, i - 1, r);
      UnansweredStep(states[i - 1], acts[i - 1], r);
      assert acts[..i][..i - 1] == acts[..i - 1];
    }
  }

  // ------------------------------------------------------------------------------------------
  // A rank's part of a run is a history of the rank
  // ------------------------------------------------------------------------------------------

  /** What an action is for rank r alone, if it is more than a resume to it. */
  function EventOf(s: System, a: Action, r: nat): seq<Event> {
    match a
    case HandlePause(q, _) => if q == r then [Paused] else []
    case StartWave(q, w, excluded) => if q == r then [WaveStarted(w, excluded)] else []
    case Add(q, c, w, _) => if q == r then [Added(c, w)] else []
    case Step(q, _) => if q == r then [Passed] else []
    case LeaveSync(q) =>
      if q == r < |s.ranks| && s.ranks[r].syncsLeft < |s.syncs| then [Synced(s.syncs[s.ranks[r].syncsLeft])] else []
    case _ => []
  }

  function EventsOf(states: seq<System>, acts: seq<Action>, lo: nat, hi: nat, r: nat): seq<Event>
    requires lo <= hi <= |acts| < |states|
  {
    if lo == hi then [] else EventsOf(states, acts, lo, hi - 1, r) + EventOf(states[hi - 1], acts[hi - 1], r)
  }

  predicate ResumesRank(a: Action, r: nat) {
    match a
    case HandleResume(q, _) => q == r
    case LeaveResume(q) => q == r
    case _ => false
  }

  /** What one action does to the flags and the work of rank r. */
  lemma ActionIsEvent(s: System, a: Action, r: nat)
    requires Enabled(s, a, FREE) && r < |s.ranks| && !ResumesRank(a, r)
    ensures r < |Apply(s, a).ranks|
    ensures var k, k' := s.ranks[r], Apply(s, a).ranks[r];
            && k'.f == AfterAll(k.f, EventOf(s, a, r))
            && (k'.work <==> if a.Abort? && a.r == r then false
                             else if (a.Add? || a.HandlePause? || a.Step?) && a.r == r then a.work else k.work)
  {
    var events := EventOf(s, a, r);
    assert |events| == 1 ==> events[..0] == [];
  }

  lemma AfterOneMore(f: Flags, events: seq<Event>, last: seq<Event>)
    requires |last| <= 1
    ensures AfterAll(f, events + last) == AfterAll(AfterAll(f, events), last)
  {
    if |last| == 1 {
      assert (events + last)[..|events|] == events && last[..0] == [];
    } else {
      assert events + last == events;
    }
  }

  /** Between two resumes a rank's flags in a run are what its own history makes of them, so that what holds of
      every history of a rank holds in every run. */
  lemma {:induction false} RunIsHistory(n: nat, states: seq<System>, acts: seq<Action>, policy: Policy,
                                        lo: nat, hi: nat, r: nat)
    requires Run(n, states, acts, policy) && lo <= hi < |states| && r < |states[lo].ranks|
    requires forall i | lo <= i < hi :: !ResumesRank(acts[i], r)
    ensures r < |states[hi].ranks|
    ensures states[hi].ranks[r].f == AfterAll(states[lo].ranks[r].f, EventsOf(states, acts, lo, hi, r))
    decreases hi
  {
    if lo < hi {
      RunIsHistory(n, states, acts, policy, lo, hi - 1, r);
      assert Enabled(states[hi - 1], acts[hi - 1], policy);
      ActionIsEvent(states[hi - 1], acts[hi - 1], r);
      AfterOneMore(states[lo].ranks[r].f, EventsOf(states, acts, lo, hi - 1, r),
                   EventOf(states[hi - 1], acts[hi - 1], r));
    }
  }
}
