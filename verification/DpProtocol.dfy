/** N data-parallel ranks stepping on their own, meeting in two kinds of collective and obeying a
    client that pauses and resumes them. Every action is one section of one rank's main loop
    between two points where it can block, or the completion of a collective. */
module DpProtocol {
  import opened DpEngine

  datatype Command = Pause | Resume

  /** Polling: reading the input queue or about to step. InSync: inside the state all-reduce.
      InResume: inside the barrier of resume_scheduler. */
  datatype Position = Polling | InSync | InResume

  /** `work` is has_unfinished_requests(). The counters say how many forward passes the rank has
      made, how many collectives of each kind it has left, and how many commands of the client
      it has taken from its queue and answered. */
  datatype Rank = Rank(f: Flags, work: bool, at: Position, steps: nat,
                       syncsLeft: nat, resumesLeft: nat, handled: nat, answered: nat)

  /** `syncs` and `resumes` are the results of the collectives completed so far. */
  datatype System = System(ranks: seq<Rank>, commands: seq<Command>,
                           syncs: seq<SyncResult>, resumes: seq<bool>)

  datatype Action =
    | Issue(command: Command)
    | StartWave(r: nat, newWave: int, excluded: bool)
    | Add(r: nat, hasCoordinator: bool, requestWave: int, work: bool)
    | Abort(r: nat)
    | HandlePause(r: nat, work: bool)
    | AnswerPause(r: nat)
    | HandleResume(r: nat, work: bool)
    | Step(r: nat, work: bool)
    | CompleteSync(unfinished: bool)
    | LeaveSync(r: nat)
    | CompleteResume
    | LeaveResume(r: nat)

  const INITIAL_RANK := Rank(INITIAL_FLAGS, false, Polling, 0, 0, 0, 0, 0)

  function Init(n: nat): System {
    System(seq(n, _ => INITIAL_RANK), [], [], [])
  }

  predicate LastIsPause(commands: seq<Command>) {
    |commands| > 0 && commands[|commands| - 1].Pause?
  }

  /** How careful the client is: whether it resumes only what it has paused, and whether it waits for
      every rank's answer before it issues the next command. */
  datatype Policy = Policy(resumesPaused: bool, waits: bool)

  const STRICT := Policy(true, true)
  const FREE := Policy(false, false)

  /** The client issues a command to every rank. */
  predicate MayIssue(s: System, c: Command, policy: Policy) {
    && (policy.waits ==> forall i | 0 <= i < |s.ranks| :: s.ranks[i].answered == |s.commands|)
    && (policy.resumesPaused && c.Resume? ==> LastIsPause(s.commands))
  }

  predicate AtPoll(s: System, r: nat) {
    r < |s.ranks| && s.ranks[r].at.Polling?
  }

  predicate NextCommandIs(s: System, r: nat, c: Command) {
    AtPoll(s, r) && s.ranks[r].handled < |s.commands| && s.commands[s.ranks[r].handled] == c
  }

  predicate Enabled(s: System, a: Action, policy: Policy) {
    match a
    case Issue(c) => MayIssue(s, c, policy)
    case StartWave(r, _, _) => AtPoll(s, r)
    // Requests added while paused are queued and do not count as unfinished.
    case Add(r, _, _, work) =>
      AtPoll(s, r) && (s.ranks[r].work ==> work) && (s.ranks[r].f.paused ==> work == s.ranks[r].work)
    case Abort(r) => AtPoll(s, r)
    case HandlePause(r, work) => NextCommandIs(s, r, Pause) && (work ==> s.ranks[r].work)
    // The pause future resolves in the idle callback, which runs only without work. A polling rank
    // has answered every resume it has taken, so what is unanswered are pauses.
    case AnswerPause(r) =>
      && AtPoll(s, r) && s.ranks[r].answered < s.ranks[r].handled
      && !s.ranks[r].f.running && !s.ranks[r].work
    case HandleResume(r, work) => NextCommandIs(s, r, Resume) && (s.ranks[r].work ==> work)
    case Step(r, work) =>
      AtPoll(s, r) && (s.ranks[r].f.running || s.ranks[r].work) && (work ==> s.ranks[r].work)
    // Every rank has to be inside; a rank with unfinished requests keeps the answer true.
    case CompleteSync(unfinished) =>
      && (forall i | 0 <= i < |s.ranks| :: s.ranks[i].at.InSync? && s.ranks[i].syncsLeft == |s.syncs|)
      && (forall i | 0 <= i < |s.ranks| :: s.ranks[i].work ==> unfinished)
    case LeaveSync(r) =>
      r < |s.ranks| && s.ranks[r].at.InSync? && s.ranks[r].syncsLeft < |s.syncs|
    case CompleteResume =>
      forall i | 0 <= i < |s.ranks| :: s.ranks[i].at.InResume? && s.ranks[i].resumesLeft == |s.resumes|
    case LeaveResume(r) =>
      r < |s.ranks| && s.ranks[r].at.InResume? && s.ranks[r].resumesLeft < |s.resumes|
  }

  function LeftSync(k: Rank, res: SyncResult): Rank {
    k.(f := AfterSync(k.f, res), at := Polling, syncsLeft := k.syncsLeft + 1)
  }

  function LeftResume(k: Rank, anyUnfinished: bool): Rank {
    k.(f := AfterResumeBarrier(k.f, anyUnfinished), at := Polling,
       resumesLeft := k.resumesLeft + 1, answered := k.answered + 1)
  }

  function Stepped(k: Rank, work: bool): Rank {
    var f := AfterStep(k.f);
    k.(f := f, work := work, steps := k.steps + 1,
       at := if f.counter % SYNC_INTERVAL == 0 then InSync else Polling)
  }

  function Resumed(k: Rank, work: bool): Rank {
    match OnResume(k.f)
    case Barrier(f) => k.(f := f, work := work, at := InResume, handled := k.handled + 1)
    case _ => k.(handled := k.handled + 1, answered := k.answered + 1)
  }

  /** What action a makes of rank k of system s. */
  function RankAfter(s: System, k: Rank, a: Action): Rank {
    match a
    case StartWave(_, w, x) => k.(f := OnStartWave(k.f, w, x))
    case Add(_, c, w, work) => k.(f := OnAddRequest(k.f, c, w), work := work)
    case Abort(_) => k.(work := false)
    case HandlePause(_, work) => k.(f := OnPause(k.f), work := work, handled := k.handled + 1)
    case AnswerPause(_) => k.(answered := k.answered + 1)
    case HandleResume(_, work) => Resumed(k, work)
    case Step(_, work) => Stepped(k, work)
    case LeaveSync(_) => if k.syncsLeft < |s.syncs| then LeftSync(k, s.syncs[k.syncsLeft]) else k
    case LeaveResume(_) => if k.resumesLeft < |s.resumes| then LeftResume(k, s.resumes[k.resumesLeft]) else k
    case _ => k
  }

  function Apply(s: System, a: Action): System
    requires Enabled(s, a, FREE)
  {
    match a
    case Issue(c) => s.(commands := s.commands + [c])
    case CompleteSync(u) =>
      var all := forall i | 0 <= i < |s.ranks| :: s.ranks[i].f.pending;
      s.(syncs := s.syncs + [SyncResult(u, all)])
    case CompleteResume =>
      var any := exists i | 0 <= i < |s.ranks| :: s.ranks[i].work;
      s.(resumes := s.resumes + [any])
    case _ => s.(ranks := s.ranks[a.r := RankAfter(s, s.ranks[a.r], a)])
  }

  /** states is the history of a run of n ranks under the given actions. */
  predicate Run(n: nat, states: seq<System>, acts: seq<Action>, policy: Policy) {
    && |states| == |acts| + 1
    && states[0] == Init(n)
    && (forall i | 0 <= i < |acts| ::
          Enabled(states[i], acts[i], policy) && states[i + 1] == Apply(states[i], acts[i]))
  }

  /** A rank that has made a forward pass goes on to the next, or enters the all-reduce. */
  lemma SteppingGoesOn(n: nat, states: seq<System>, acts: seq<Action>, policy: Policy, i: nat, r: nat, work: bool)
    requires Run(n, states, acts, policy) && i < |acts| && acts[i] == Step(r, work)
    ensures r < |states[i].ranks| && r < |states[i + 1].ranks|
    ensures var k, k' := states[i].ranks[r], states[i + 1].ranks[r];
            && k'.steps == k.steps + 1 && k'.f.counter == k.f.counter + 1 && k'.work == work
            && (if k'.f.counter % 32 == 0 then k'.at.InSync? && k'.f.running == k.f.running
                else k'.at.Polling? && k'.f.running)
  {
    assert Enabled(states[i], acts[i], policy);
  }

  // ------------------------------------------------------------------------------------------
  // Lockstep of the step counters
  // ------------------------------------------------------------------------------------------

  /** The step counter every rank has right after the given sequence of all-reduce results. */
  function Base(syncs: seq<SyncResult>): (c: nat)
    ensures c % SYNC_INTERVAL == 0
  {
    if |syncs| == 0 then 0
    else if !syncs[|syncs| - 1].unfinished then 0
    else Base(syncs[..|syncs| - 1]) + SYNC_INTERVAL
  }

  predicate RankLockstep(s: System, k: Rank) {
    && k.syncsLeft <= |s.syncs| <= k.syncsLeft + 1
    && (k.syncsLeft < |s.syncs| ==> k.at.InSync?)
    && SYNC_INTERVAL * k.syncsLeft <= k.steps <= SYNC_INTERVAL * (k.syncsLeft + 1)
    && (k.at.InSync? <==> k.steps == SYNC_INTERVAL * (k.syncsLeft + 1))
    && k.f.counter == Base(s.syncs[..k.syncsLeft]) + (k.steps - SYNC_INTERVAL * k.syncsLeft)
  }

  predicate Lockstep(s: System) {
    forall i | 0 <= i < |s.ranks| :: RankLockstep(s, s.ranks[i])
  }

  lemma StepKeepsRankLockstep(s: System, k: Rank, work: bool)
    requires RankLockstep(s, k) && k.at.Polling?
    ensures RankLockstep(s, Stepped(k, work))
  {
  }

  lemma LeaveKeepsRankLockstep(s: System, k: Rank)
    requires RankLockstep(s, k) && k.at.InSync? && k.syncsLeft < |s.syncs|
    ensures RankLockstep(s, LeftSync(k, s.syncs[k.syncsLeft]))
  {
    var t := s.syncs[..k.syncsLeft + 1];
    assert t[..|t| - 1] == s.syncs[..k.syncsLeft];
    assert t[|t| - 1] == s.syncs[k.syncsLeft];
  }

  lemma RankActionKeepsLockstep(s: System, a: Action)
    requires !a.Issue? && !a.CompleteSync? && !a.CompleteResume?
    requires Enabled(s, a, FREE) && RankLockstep(s, s.ranks[a.r])
    ensures RankLockstep(s, RankAfter(s, s.ranks[a.r], a))
  {
    var k := s.ranks[a.r];
    match a
    case Step(_, work) => StepKeepsRankLockstep(s, k, work);
    case LeaveSync(_) => LeaveKeepsRankLockstep(s, k);
    case LeaveResume(_) =>
    case HandleResume(_, _) =>
    case HandlePause(_, _) =>
    case StartWave(_, _, _) =>
    case Add(_, _, _, _) =>
    case Abort(_) =>
    case AnswerPause(_) =>
  }

  lemma CompletionKeepsLockstep(s: System, a: Action)
    requires Lockstep(s) && Enabled(s, a, FREE) && a.CompleteSync?
    ensures Lockstep(Apply(s, a))
  {
    var t := Apply(s, a);
    forall i | 0 <= i < |t.ranks| ensures RankLockstep(t, t.ranks[i]) {
      assert RankLockstep(s, s.ranks[i]);
      assert t.syncs[..|s.syncs|] == s.syncs == s.syncs[..|s.syncs|];
    }
  }

  lemma ActionKeepsLockstep(s: System, a: Action)
    requires Lockstep(s) && Enabled(s, a, FREE)
    ensures Lockstep(Apply(s, a)) && |Apply(s, a).ranks| == |s.ranks|
  {
    if a.CompleteSync? {
      CompletionKeepsLockstep(s, a);
    } else {
      if !a.Issue? && !a.CompleteResume? {
        RankActionKeepsLockstep(s, a);
      }
      OthersKeepLockstep(s, a);
    }
  }

  lemma OthersKeepLockstep(s: System, a: Action)
    requires Lockstep(s) && Enabled(s, a, FREE) && !a.CompleteSync?
    requires !a.Issue? && !a.CompleteResume? ==> RankLockstep(s, RankAfter(s, s.ranks[a.r], a))
    ensures Lockstep(Apply(s, a)) && |Apply(s, a).ranks| == |s.ranks|
  {
    var t := Apply(s, a);
    assert t.syncs == s.syncs;
    forall i | 0 <= i < |t.ranks| ensures RankLockstep(t, t.ranks[i]) {
      assert RankLockstep(s, s.ranks[i]);
      assert RankLockstep(s, t.ranks[i]);
    }
  }

  lemma {:induction false} RunKeepsLockstep(n: nat, states: seq<System>, acts: seq<Action>, policy: Policy, i: nat)
    requires Run(n, states, acts, policy) && i < |states|
    ensures Lockstep(states[i]) && |states[i].ranks| == n
    decreases i
  {
    if i > 0 {
      RunKeepsLockstep(n, states, acts, policy, i - 1);
      assert Enabled(states[i - 1], acts[i - 1], policy);
      ActionKeepsLockstep(states[i - 1], acts[i - 1]);
    }
  }

  /** At every moment of a run the ranks' total steps are at most 32 apart, and two ranks inside
      the same all-reduce hold the same step counter, a multiple of 32. */
  lemma SyncsMeetInStep(n: nat, states: seq<System>, acts: seq<Action>, policy: Policy, m: nat, i: nat, j: nat)
    requires Run(n, states, acts, policy) && m < |states|
    requires i < |states[m].ranks| && j < |states[m].ranks|
    ensures var x, y := states[m].ranks[i], states[m].ranks[j];
            && x.steps - y.steps <= SYNC_INTERVAL
            && (x.at.InSync? && y.at.InSync? && x.syncsLeft == y.syncsLeft
                ==> x.f.counter == y.f.counter && x.f.counter % SYNC_INTERVAL == 0)
  {
    RunKeepsLockstep(n, states, acts, policy, m);
    assert RankLockstep(states[m], states[m].ranks[i]) && RankLockstep(states[m], states[m].ranks[j]);
  }

  lemma {:induction false} SyncsOnlyGrow(n: nat, states: seq<System>, acts: seq<Action>, policy: Policy, m: nat, l: nat)
    requires Run(n, states, acts, policy) && m <= l < |states|
    ensures states[m].syncs <= states[l].syncs
    decreases l
  {
    if m < l {
      SyncsOnlyGrow(n, states, acts, policy, m, l - 1);
      assert Enabled(states[l - 1], acts[l - 1], policy);
    }
  }

  /** Two ranks about to make a forward pass with the same index, at two moments of one run, take
      the same prefill-throttling decision. */
  lemma ThrottleDecisionsAgree(n: nat, states: seq<System>, acts: seq<Action>, policy: Policy,
                               m: nat, l: nat, i: nat, j: nat, interval: nat)
    requires Run(n, states, acts, policy) && m <= l < |states|
    requires i < |states[m].ranks| && j < |states[l].ranks|
    requires states[m].ranks[i].at.Polling? && states[l].ranks[j].at.Polling?
    requires states[m].ranks[i].steps == states[l].ranks[j].steps
    ensures states[m].ranks[i].f.counter == states[l].ranks[j].f.counter
    ensures ThrottlePrefills(states[m].ranks[i].f, interval) <==> ThrottlePrefills(states[l].ranks[j].f, interval)
  {
    var p, s := states[m], states[l];
    RunKeepsLockstep(n, states, acts, policy, m);
    RunKeepsLockstep(n, states, acts, policy, l);
    assert RankLockstep(p, p.ranks[i]) && RankLockstep(s, s.ranks[j]);
    SyncsOnlyGrow(n, states, acts, policy, m, l);
    assert p.ranks[i].syncsLeft == s.ranks[j].syncsLeft;
    assert p.syncs[..p.ranks[i].syncsLeft] == s.syncs[..s.ranks[j].syncsLeft];
  }
}
