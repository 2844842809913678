/** When ranks can end up waiting for each other in two different collectives. */
module DpMixing {
  import opened DpEngine
  import opened DpProtocol
  import opened DpAnyClient
  import DpPause

  lemma Extend(n: nat, states: seq<System>, acts: seq<Action>, policy: Policy, a: Action)
    returns (states': seq<System>, acts': seq<Action>)
    requires Run(n, states, acts, policy) && Enabled(states[|acts|], a, policy)
    ensures Run(n, states', acts', policy)
    ensures acts' == acts + [a] && states' == states + [Apply(states[|acts|], a)]
  {
    states', acts' := states + [Apply(states[|acts|], a)], acts + [a];
  }

  /** What stays of a rank while it steps on its own. */
  predicate SteppedFrom(k: Rank, k': Rank) {
    && k'.f.pending == k.f.pending && k'.f.ignoreWave == k.f.ignoreWave && k'.f.paused == k.f.paused
    && !k'.work && k'.syncsLeft == k.syncsLeft && k'.resumesLeft == k.resumesLeft
    && k'.handled == k.handled && k'.answered == k.answered
  }

  /** A running rank that has counted c < 32 steps can step until it waits in the all-reduce, while
      nothing else in the system moves. */
  lemma {:induction false} StepIntoSync(n: nat, states: seq<System>, acts: seq<Action>, policy: Policy, r: nat, c: nat)
    returns (states': seq<System>, acts': seq<Action>)
    requires Run(n, states, acts, policy) && c < SYNC_INTERVAL
    requires var s := states[|acts|];
             && r < |s.ranks| && s.ranks[r].at.Polling? && s.ranks[r].f.running
             && s.ranks[r].f.counter % SYNC_INTERVAL == c
    ensures Run(n, states', acts', policy) && states <= states' && acts <= acts'
    ensures forall i | |acts| <= i < |acts'| :: acts'[i] == Step(r, false)
    ensures var s, s' := states[|acts|], states'[|acts'|];
            && r < |s'.ranks| && s' == s.(ranks := s.ranks[r := s'.ranks[r]])
            && s'.ranks[r].at.InSync? && SteppedFrom(s.ranks[r], s'.ranks[r])
    decreases SYNC_INTERVAL - c
  {
    var s := states[|acts|];
    states', acts' := Extend(n, states, acts, policy, Step(r, false));
    var t := states'[|acts'|];
    assert t == s.(ranks := s.ranks[r := Stepped(s.ranks[r], false)]);
    if c + 1 < SYNC_INTERVAL {
      states', acts' := StepIntoSync(n, states', acts', policy, r, c + 1);
    }
  }

  // ------------------------------------------------------------------------------------------
  // A resume without a pause
  // ------------------------------------------------------------------------------------------

  /** A client that may resume engines it has never paused can leave rank 0 in the barrier of
      resume_scheduler and rank 1 in the state all-reduce, even if it waits for all answers. */
  lemma UnpausedResumeMixes(n: nat, policy: Policy) returns (states: seq<System>, acts: seq<Action>)
    requires n >= 2 && !policy.resumesPaused
    ensures Run(n, states, acts, policy) && Mixed(states[|acts|], 1, 0)
  {
    states, acts := [Init(n)], [];
    states, acts := Extend(n, states, acts, policy, Issue(Resume));
    states, acts := Extend(n, states, acts, policy, StartWave(1, 0, false));
    states, acts := Extend(n, states, acts, policy, HandleResume(0, false));
    states, acts := Extend(n, states, acts, policy, HandleResume(1, false));
    states, acts := StepIntoSync(n, states, acts, policy, 1, 0);
  }

  // ------------------------------------------------------------------------------------------
  // A resume while the pause is in flight
  // ------------------------------------------------------------------------------------------

  /** A rank that waits in the first all-reduce with its pause pending, having taken `handled` commands. */
  predicate Parked(k: Rank, handled: nat) {
    && k.at.InSync? && k.f.pending && !k.work && k.handled == handled
    && k.syncsLeft == 0 && k.resumesLeft == 0
  }

  /** The client has issued a pause and a resume; rank 0 has taken both, ranks 1 to r - 1 the pause. */
  predicate Gathered(s: System, n: nat, r: nat) {
    && s.commands == [Pause, Resume] && s.syncs == [] && s.resumes == []
    && |s.ranks| == n
    && forall q | 0 <= q < n ::
         if q < r then Parked(s.ranks[q], if q == 0 then 2 else 1) else s.ranks[q] == INITIAL_RANK
  }

  /** Rank 0 takes the resume while its pause is pending and is refused; it goes on to the all-reduce. */
  lemma RefusedRankParks(n: nat, policy: Policy) returns (states: seq<System>, acts: seq<Action>)
    requires n >= 2 && !policy.waits
    ensures Run(n, states, acts, policy) && Gathered(states[|acts|], n, 1)
  {
    states, acts := [Init(n)], [];
    states, acts := Extend(n, states, acts, policy, Issue(Pause));
    states, acts := Extend(n, states, acts, policy, Issue(Resume));
    states, acts := Extend(n, states, acts, policy, HandlePause(0, false));
    assert OnResume(states[|acts|].ranks[0].f).Raised?;
    states, acts := Extend(n, states, acts, policy, HandleResume(0, false));
    states, acts := StepIntoSync(n, states, acts, policy, 0, 0);
  }

  /** One rank after the other takes the pause and goes to the all-reduce. */
  lemma {:induction false} AllPark(n: nat, states: seq<System>, acts: seq<Action>, policy: Policy, r: nat)
    returns (states': seq<System>, acts': seq<Action>)
    requires Run(n, states, acts, policy) && 1 <= r <= n && Gathered(states[|acts|], n, r)
    ensures Run(n, states', acts', policy) && Gathered(states'[|acts'|], n, n)
    decreases n - r
  {
    states', acts' := states, acts;
    if r < n {
      states', acts' := Extend(n, states', acts', policy, HandlePause(r, false));
      states', acts' := StepIntoSync(n, states', acts', policy, r, 0);
      states', acts' := AllPark(n, states', acts', policy, r + 1);
    }
  }

  /** A client that resumes only what it has paused but does not wait for the answers can mix the
      collectives too: it issues a pause, a resume and a pause. Rank 0 refuses the resume because its
      pause is in flight; all ranks agree to the pause; rank 1 takes the resume only then and enters
      the barrier alone; rank 0 takes the second pause and steps into the next all-reduce. */
  lemma ImpatientResumeMixes(n: nat, policy: Policy) returns (states: seq<System>, acts: seq<Action>)
    requires n >= 2 && !policy.waits
    ensures Run(n, states, acts, policy) && Mixed(states[|acts|], 0, 1)
    ensures states[|acts|].commands == [Pause, Resume, Pause]
  {
    states, acts := RefusedRankParks(n, policy);
    states, acts := AllPark(n, states, acts, policy, 1);
    states, acts := Agree(n, states, acts, policy);
    states, acts := Extend(n, states, acts, policy, HandleResume(1, false));
    states, acts := Extend(n, states, acts, policy, Issue(Pause));
    states, acts := Extend(n, states, acts, policy, HandlePause(0, false));
    states, acts := StepIntoSync(n, states, acts, policy, 0, 0);
  }

  /** A rank that has left the all-reduce stopped. */
  predicate LeftStopped(k: Rank, handled: nat) {
    && k.at.Polling? && !k.f.pending && !k.f.running && k.f.counter == 0 && !k.work
    && k.handled == handled && k.syncsLeft == 1 && k.resumesLeft == 0
  }

  /** The all-reduce completes with all ranks pending and without work; ranks 0 and 1 leave it. */
  lemma Agree(n: nat, states: seq<System>, acts: seq<Action>, policy: Policy)
    returns (states': seq<System>, acts': seq<Action>)
    requires n >= 2 && Run(n, states, acts, policy) && Gathered(states[|acts|], n, n)
    ensures Run(n, states', acts', policy)
    ensures var s := states'[|acts'|];
            && |s.ranks| == n && s.commands == [Pause, Resume] && |s.syncs| == 1 && s.resumes == []
            && LeftStopped(s.ranks[0], 2) && LeftStopped(s.ranks[1], 1)
  {
    states', acts' := Extend(n, states, acts, policy, CompleteSync(false));
    assert states'[|acts'|].syncs == [SyncResult(false, true)];
    states', acts' := Extend(n, states', acts', policy, LeaveSync(0));
    states', acts' := Extend(n, states', acts', policy, LeaveSync(1));
  }

  // ------------------------------------------------------------------------------------------
  // The exact condition
  // ------------------------------------------------------------------------------------------

  ghost predicate NeverMixes(n: nat, policy: Policy) {
    forall states, acts, m: nat, i: nat, j: nat | Run(n, states, acts, policy) && m < |states| ::
      !Mixed(states[m], i, j)
  }

  /** Over all runs of several ranks the collectives never mix if and only if the client resumes only
      what it has paused and waits for all answers before it issues the next command. */
  lemma NeverMixesIff(n: nat, policy: Policy)
    requires n >= 2
    ensures NeverMixes(n, policy) <==> policy.resumesPaused && policy.waits
  {
    if policy == STRICT {
      forall states, acts, m: nat, i: nat, j: nat | Run(n, states, acts, policy) && m < |states|
        ensures !Mixed(states[m], i, j)
      {
        DpPause.CollectivesNeverMix(n, states, acts, m, i, j);
      }
    } else if !policy.resumesPaused {
      var states, acts := UnpausedResumeMixes(n, policy);
      assert Mixed(states[|acts|], 1, 0);
    } else {
      var states, acts := ImpatientResumeMixes(n, policy);
      assert Mixed(states[|acts|], 0, 1);
    }
  }
}
