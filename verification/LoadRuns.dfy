/** Runs of the load balancer: requests, outputs and snapshots in any order. */
module LoadRuns {
  import opened Arithmetic
  import opened Options
  import opened LoadBalancer

  datatype Traffic =
    | Submitted(id: string, rank: Option<nat>, lateInteraction: Option<nat>)
    | Outputs(finished: seq<string>)
    | NewSnapshot(loads: seq<Load>)

  /** The client's fields. */
  datatype Balance = Balance(reqs: map<string, nat>, inflight: seq<int>, loads: seq<Load>, start: nat)

  ghost predicate Consistent(s: Balance) {
    |s.inflight| > 0 && |s.loads| == |s.inflight| && Mapped(s.reqs, s.inflight)
  }

  predicate Scans(t: Traffic) {
    t.Submitted? && t.rank.None? && t.lateInteraction.None?
  }

  /** A request for an engine that does not exist is an error. */
  predicate Accepted(t: Traffic, n: nat)
    requires t.Submitted?
  {
    if t.rank.Some? then t.rank.value < n
    else t.lateInteraction.Some? ==> t.lateInteraction.value < n
  }

  /** Engine c is the one an accepted request goes to. */
  predicate GoesTo(s: Balance, t: Traffic, c: nat, clients: nat)
    requires t.Submitted? && |s.loads| == |s.inflight|
  {
    if t.rank.Some? then c == t.rank.value
    else if t.lateInteraction.Some? then c == t.lateInteraction.value
    else
      var scores := Scores(s.loads, s.inflight, clients);
      if SomeBelowMax(scores) then FirstBest(scores, s.start, c) else c == 0
  }

  function Routed(s: Balance, t: Traffic, c: nat, clients: nat): Balance
    requires t.Submitted? && c < |s.inflight| == |s.loads|
  {
    var counted := s.(reqs := s.reqs[t.id := c], inflight := s.inflight[c := s.inflight[c] + 1]);
    if Scans(t)
    then counted.(loads := s.loads[c := s.loads[c].(waiting := s.loads[c].waiting + clients)],
                  start := (s.start + 1) % |s.inflight|)
    else counted
  }

  /** What one piece of traffic makes of the client's fields. */
  ghost predicate Step(s: Balance, t: Traffic, s': Balance, clients: nat)
    requires Consistent(s)
  {
    match t
    case Submitted(_, _, _) =>
      if Accepted(t, |s.inflight|)
      then exists c: nat | c < |s.inflight| :: GoesTo(s, t, c, clients) && s' == Routed(s, t, c, clients)
      else s' == s
    case Outputs(finished) =>
      && s'.reqs == s.reqs - Ids(finished) && s'.loads == s.loads && s'.start == s.start
      && AsExactAs(s.reqs, s.inflight, s'.reqs, s'.inflight)
    case NewSnapshot(loads) => s' == s.(loads := loads)
  }

  /** states is the history of a client under the given traffic. */
  ghost predicate History(states: seq<Balance>, traffic: seq<Traffic>, clients: nat) {
    && |states| == |traffic| + 1
    && (forall i | 0 <= i < |states| :: Consistent(states[i]) && |states[i].inflight| == |states[0].inflight|)
    && (forall i | 0 <= i < |traffic| :: Step(states[i], traffic[i], states[i + 1], clients))
  }

  ghost function Fields(client: DPLBClient): Balance
    reads client
  {
    Balance(client.reqsInFlight, client.engineInflight, client.lbEngines, client.engStartIndex)
  }

  /** The client goes through a history of its traffic: every request is routed, every output taken
      back and every snapshot applied. */
  method RunTraffic(client: DPLBClient, traffic: seq<Traffic>) returns (ghost states: seq<Balance>)
    requires client.Valid() && Mapped(client.reqsInFlight, client.engineInflight)
    requires forall i | 0 <= i < |traffic| && traffic[i].NewSnapshot? :: |traffic[i].loads| == client.numEngines
    modifies client
    ensures client.Valid() && History(states, traffic, client.clientCount)
    ensures states[0] == old(Fields(client)) && states[|traffic|] == Fields(client)
    ensures client.reqsInFlight.Keys == LiveAll(old(client.reqsInFlight).Keys, traffic, client.numEngines)
    ensures old(Conserved(client.reqsInFlight, client.engineInflight)) ==>
              (Conserved(client.reqsInFlight, client.engineInflight)
               <==> AllFresh(old(client.reqsInFlight).Keys, traffic, client.numEngines))
  {
    states := [Fields(client)];
    for i := 0 to |traffic|
      invariant client.Valid() && History(states, traffic[..i], client.clientCount)
      invariant states[0] == old(Fields(client)) && states[i] == Fields(client)
    {
      RunOne(client, traffic[i]);
      HistoryGrows(states, traffic[..i], traffic[i], Fields(client), client.clientCount);
      states := states + [Fields(client)];
      assert traffic[..i + 1] == traffic[..i] + [traffic[i]];
    }
    assert traffic[..|traffic|] == traffic;
    LiveIdsFollow(states, traffic, client.clientCount, |traffic|);
    if Conserved(states[0].reqs, states[0].inflight) {
      ExactIffFresh(states, traffic, client.clientCount, |traffic|);
    }
  }

  lemma HistoryGrows(states: seq<Balance>, traffic: seq<Traffic>, t: Traffic, s: Balance, clients: nat)
    requires History(states, traffic, clients) && Consistent(s) && |s.inflight| == |states[0].inflight|
    requires Step(states[|traffic|], t, s, clients)
    ensures History(states + [s], traffic + [t], clients)
  {
    var more, all := states + [s], traffic + [t];
    forall i | 0 <= i < |all| ensures Step(more[i], all[i], more[i + 1], clients) {
      assert i < |traffic| ==> Step(states[i], traffic[i], states[i + 1], clients);
    }
  }

  method RunOne(client: DPLBClient, t: Traffic)
    requires client.Valid() && Mapped(client.reqsInFlight, client.engineInflight)
    requires t.NewSnapshot? ==> |t.loads| == client.numEngines
    modifies client
    ensures client.Valid() && Mapped(client.reqsInFlight, client.engineInflight)
    ensures Step(old(Fields(client)), t, Fields(client), client.clientCount)
  {
    match t {
      case Submitted(_, _, _) =>
        SubmitOne(client, t);
      case Outputs(finished) =>
        client.ProcessEngineOutputs(finished);
      case NewSnapshot(loads) =>
        client.Rebind(loads);
    }
  }

  method SubmitOne(client: DPLBClient, t: Traffic)
    requires client.Valid() && Mapped(client.reqsInFlight, client.engineInflight) && t.Submitted?
    modifies client
    ensures client.Valid() && Mapped(client.reqsInFlight, client.engineInflight)
    ensures Step(old(Fields(client)), t, Fields(client), client.clientCount)
  {
    ghost var before := Fields(client);
    var chosen := client.GetCoreEngine(t.id, t.rank, t.lateInteraction);
    if chosen.Some? {
      RoutedIsStep(before, t, chosen.value, client.clientCount);
      assert Fields(client) == Routed(before, t, chosen.value, client.clientCount);
    }
  }

  lemma RoutedIsStep(s: Balance, t: Traffic, c: nat, clients: nat)
    requires Consistent(s) && t.Submitted? && Accepted(t, |s.inflight|) && c < |s.inflight| && GoesTo(s, t, c, clients)
    ensures Step(s, t, Routed(s, t, c, clients), clients) && Mapped(Routed(s, t, c, clients).reqs, s.inflight)
  {
  }

  // ------------------------------------------------------------------------------------------
  // Live ids and exact counters
  // ------------------------------------------------------------------------------------------

  /** The ids that are live after one piece of traffic with n engines. */
  function LiveAfter(live: set<string>, t: Traffic, n: nat): set<string> {
    match t
    case Submitted(id, _, _) => if Accepted(t, n) then live + {id} else live
    case Outputs(finished) => live - Ids(finished)
    case NewSnapshot(_) => live
  }

  function LiveAll(live: set<string>, traffic: seq<Traffic>, n: nat): set<string> {
    if |traffic| == 0 then live
    else LiveAfter(LiveAll(live, traffic[..|traffic| - 1], n), traffic[|traffic| - 1], n)
  }

  /** An accepted request does not carry the id of a live one. */
  predicate Fresh(live: set<string>, t: Traffic, n: nat) {
    t.Submitted? && Accepted(t, n) ==> t.id !in live
  }

  predicate AllFresh(live: set<string>, traffic: seq<Traffic>, n: nat) {
    |traffic| > 0 ==>
      && AllFresh(live, traffic[..|traffic| - 1], n)
      && Fresh(LiveAll(live, traffic[..|traffic| - 1], n), traffic[|traffic| - 1], n)
  }

  lemma {:induction false} LiveIdsFollow(states: seq<Balance>, traffic: seq<Traffic>, clients: nat, m: nat)
    requires History(states, traffic, clients) && m <= |traffic|
    ensures states[m].reqs.Keys == LiveAll(states[0].reqs.Keys, traffic[..m], |states[0].inflight|)
    decreases m
  {
    if m > 0 {
      LiveIdsFollow(states, traffic, clients, m - 1);
      assert traffic[..m][..m - 1] == traffic[..m - 1];
      LiveIdsStep(states[m - 1], traffic[m - 1], states[m], clients);
    }
  }

  lemma LiveIdsStep(s: Balance, t: Traffic, s': Balance, clients: nat)
    requires Consistent(s) && Step(s, t, s', clients)
    ensures s'.reqs.Keys == LiveAfter(s.reqs.Keys, t, |s.inflight|)
  {
  }

  /** Exact, or the counters together exceed the live requests. */
  ghost predicate Accounted(s: Balance, exact: bool) {
    if exact then Conserved(s.reqs, s.inflight) else Excess(s.reqs, s.inflight) > 0
  }

  lemma RequestAccounted(s: Balance, t: Traffic, c: nat, clients: nat, exact: bool)
    requires Consistent(s) && t.Submitted? && c < |s.inflight| && Accounted(s, exact)
    ensures Accounted(Routed(s, t, c, clients), exact && t.id !in s.reqs)
  {
    AddChangesExcess(s.reqs, s.inflight, t.id, c);
    if exact {
      ConservedHasNoExcess(s.reqs, s.inflight);
      if t.id !in s.reqs { AddNewConserves(s.reqs, s.inflight, t.id, c); }
    }
  }

  lemma AccountedStep(s: Balance, t: Traffic, s': Balance, clients: nat, exact: bool)
    requires Consistent(s) && Step(s, t, s', clients) && Accounted(s, exact)
    ensures Accounted(s', exact && Fresh(s.reqs.Keys, t, |s.inflight|))
  {
    match t
    case Submitted(id, _, _) =>
      if Accepted(t, |s.inflight|) {
        var c: nat :| c < |s.inflight| && GoesTo(s, t, c, clients) && s' == Routed(s, t, c, clients);
        RequestAccounted(s, t, c, clients, exact);
      }
    case Outputs(finished) =>
      if exact { ExactStaysExact(s.reqs, s.inflight, s'.reqs, s'.inflight); }
    case NewSnapshot(_) =>
  }

  lemma {:induction false} AccountedThroughout(states: seq<Balance>, traffic: seq<Traffic>, clients: nat, m: nat)
    requires History(states, traffic, clients) && m <= |traffic|
    requires Conserved(states[0].reqs, states[0].inflight)
    ensures Accounted(states[m], AllFresh(states[0].reqs.Keys, traffic[..m], |states[0].inflight|))
    decreases m
  {
    if m > 0 {
      AccountedThroughout(states, traffic, clients, m - 1);
      LiveIdsFollow(states, traffic, clients, m - 1);
      var exact := AllFresh(states[0].reqs.Keys, traffic[..m - 1], |states[0].inflight|);
      assert traffic[..m][..m - 1] == traffic[..m - 1];
      AccountedStep(states[m - 1], traffic[m - 1], states[m], clients, exact);
    }
  }

  /** At every moment of a history that starts with exact counters, each engine's counter is the number
      of live requests mapped to it if and only if no accepted request so far carried the id of a live
      one; once wrong, the counters never become exact again. */
  lemma ExactIffFresh(states: seq<Balance>, traffic: seq<Traffic>, clients: nat, m: nat)
    requires History(states, traffic, clients) && m <= |traffic|
    requires Conserved(states[0].reqs, states[0].inflight)
    ensures Conserved(states[m].reqs, states[m].inflight)
       <==> AllFresh(states[0].reqs.Keys, traffic[..m], |states[0].inflight|)
  {
    AccountedThroughout(states, traffic, clients, m);
    if Conserved(states[m].reqs, states[m].inflight) {
      ConservedHasNoExcess(states[m].reqs, states[m].inflight);
    }
  }

  // ------------------------------------------------------------------------------------------
  // Bursts
  // ------------------------------------------------------------------------------------------

  /** A burst: load-balanced requests and snapshots that claim no more than the client's own counts, and
      no outputs. */
  ghost predicate IsBurst(states: seq<Balance>, traffic: seq<Traffic>, clients: nat) {
    && History(states, traffic, clients)
    && forall i | 0 <= i < |traffic| ::
         if traffic[i].NewSnapshot? then Covered(traffic[i].loads, states[i].inflight, clients) else Scans(traffic[i])
  }

  function Requests(traffic: seq<Traffic>): nat {
    if |traffic| == 0 then 0
    else Requests(traffic[..|traffic| - 1]) + if traffic[|traffic| - 1].Submitted? then 1 else 0
  }

  /** Scaled counts of this size stay below the scan's initial minimum. */
  predicate Small(clients: nat, count: int) {
    clients * count < MAX_SIZE
  }

  lemma SmallerStillSmall(clients: nat, a: int, b: int)
    requires Small(clients, b) && a <= b
    ensures Small(clients, a)
  {
    MulMonotone(clients, a, b);
  }

  lemma BurstRequest(s: Balance, t: Traffic, c: nat, clients: nat, low: int) returns (newLow: int)
    requires Consistent(s) && Scans(t) && c < |s.inflight| && GoesTo(s, t, c, clients)
    requires clients > 0 && Small(clients, low + 1)
    requires Level(s.inflight, low) && Covered(s.loads, s.inflight, clients)
    ensures var s' := Routed(s, t, c, clients);
            && Level(s'.inflight, newLow) && Covered(s'.loads, s'.inflight, clients) && low <= newLow <= low + 1
            && TotalInflight(s'.inflight) == TotalInflight(s.inflight) + 1
  {
    newLow := RoutingKeepsLevel(s.loads, s.inflight, clients, s.start, c, low);
  }

  lemma BurstStep(s: Balance, t: Traffic, s': Balance, clients: nat, low: int) returns (newLow: int)
    requires Consistent(s) && Step(s, t, s', clients) && clients > 0 && Small(clients, low + 1)
    requires Level(s.inflight, low) && Covered(s.loads, s.inflight, clients)
    requires if t.NewSnapshot? then Covered(t.loads, s.inflight, clients) else Scans(t)
    ensures Level(s'.inflight, newLow) && Covered(s'.loads, s'.inflight, clients) && low <= newLow <= low + 1
    ensures TotalInflight(s'.inflight) == TotalInflight(s.inflight) + if t.Submitted? then 1 else 0
  {
    newLow := low;
    if t.Submitted? {
      var c: nat :| c < |s.inflight| && GoesTo(s, t, c, clients) && s' == Routed(s, t, c, clients);
      newLow := BurstRequest(s, t, c, clients, low);
    }
  }

  lemma {:induction false} BurstKeepsLevel(states: seq<Balance>, traffic: seq<Traffic>, clients: nat, base: nat, m: nat)
    returns (low: int)
    requires IsBurst(states, traffic, clients) && m <= |traffic| && clients > 0
    requires Level(states[0].inflight, base) && Covered(states[0].loads, states[0].inflight, clients)
    requires Small(clients, base + |traffic| + 1)
    ensures base <= low <= base + m && Level(states[m].inflight, low)
    ensures Covered(states[m].loads, states[m].inflight, clients)
    ensures TotalInflight(states[m].inflight) == TotalInflight(states[0].inflight) + Requests(traffic[..m])
    decreases m
  {
    if m == 0 {
      low := base;
    } else {
      low := BurstKeepsLevel(states, traffic, clients, base, m - 1);
      SmallerStillSmall(clients, low + 1, base + |traffic| + 1);
      assert traffic[..m][..m - 1] == traffic[..m - 1];
      low := BurstStep(states[m - 1], traffic[m - 1], states[m], clients, low);
    }
  }

  /** At every moment of a burst that starts from equal in-flight counts, however snapshots interleave,
      the counts of any two engines differ by at most one, and together they have grown by the number of
      requests. */
  lemma BurstStaysLevel(states: seq<Balance>, traffic: seq<Traffic>, clients: nat, base: nat, m: nat, e: nat, o: nat)
    requires IsBurst(states, traffic, clients) && m <= |traffic| && clients > 0
    requires forall i | 0 <= i < |states[0].inflight| :: states[0].inflight[i] == base
    requires Covered(states[0].loads, states[0].inflight, clients)
    requires Small(clients, base + |traffic| + 1)
    requires e < |states[m].inflight| && o < |states[m].inflight|
    ensures states[m].inflight[e] - states[m].inflight[o] <= 1
    ensures TotalInflight(states[m].inflight) == TotalInflight(states[0].inflight) + Requests(traffic[..m])
  {
    var low := BurstKeepsLevel(states, traffic, clients, base, m);
  }
}
