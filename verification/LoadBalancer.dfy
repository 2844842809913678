/** The data-parallel client's choice of an engine for each request. */
module LoadBalancer {
  import opened Arithmetic
  import opened Options

  const MAX_SIZE: int := 0x7FFF_FFFF_FFFF_FFFF

  /** One engine's load in the coordinator's last snapshot. */
  datatype Load = Load(waiting: nat, running: nat, kvUsage: real)

  function Max(a: real, b: real): real {
    if a > b then a else b
  }

  /** The larger of the client's own scaled in-flight count and the snapshot, plus a penalty for
      requests that wait at an engine short of KV cache. */
  function Score(load: Load, inflight: int, clients: nat): real {
    var base := Max((clients * inflight) as real, (load.waiting + load.running) as real);
    if load.waiting == 0 then base
    else base + load.waiting as real * 6.0 * Max(0.0, load.kvUsage - 0.5)
  }

  /** A score is the larger of the two counts as long as nothing waits or the KV cache is at most half full,
      and at a full cache every waiting request counts for three more. */
  lemma ScoreAtEnds(load: Load, inflight: int, clients: nat)
    ensures var score, own, other := Score(load, inflight, clients), clients * inflight, load.waiting + load.running;
            && (load.waiting == 0 || load.kvUsage <= 0.5 ==>
                  score == (if own < other then other else own) as real)
            && (load.kvUsage == 1.0 ==>
                  score == (if own < other then other else own) as real + 3.0 * load.waiting as real)
  {
  }

  /** Between half full and full the penalty grows in proportion to the usage above one half. */
  lemma PenaltyIsLinear(load: Load, inflight: int, clients: nat)
    requires load.kvUsage >= 0.5
    ensures var idle := Score(load.(kvUsage := 0.5), inflight, clients);
            var full := Score(load.(kvUsage := 1.0), inflight, clients);
            Score(load, inflight, clients) == idle + (2.0 * load.kvUsage - 1.0) * (full - idle)
  {
    var waiting, u := load.waiting as real, load.kvUsage;
    assert waiting * 6.0 * (u - 0.5) == (2.0 * u - 1.0) * (waiting * 3.0);
  }

  /** Whether own or reported requests are added, more cache is used or more requests wait, a score never
      falls; above half usage every further waiting request raises it. */
  lemma ScoreGrows(load: Load, load': Load, inflight: int, inflight': int, clients: nat)
    requires load.waiting <= load'.waiting && load.waiting + load.running <= load'.waiting + load'.running
    requires load.kvUsage <= load'.kvUsage && inflight <= inflight'
    ensures Score(load, inflight, clients) <= Score(load', inflight', clients)
    ensures load.waiting < load'.waiting && load'.kvUsage > 0.5 ==>
              Score(load, inflight, clients) < Score(load', inflight', clients)
  {
    ScoreSplits(load, inflight, clients);
    ScoreSplits(load', inflight', clients);
    CountGrows(load, load', inflight, inflight', clients);
    PenaltyGrows(load.waiting as real, load'.waiting as real, Max(0.0, load.kvUsage - 0.5),
                 Max(0.0, load'.kvUsage - 0.5));
  }

  function Count(load: Load, inflight: int, clients: nat): real {
    Max((clients * inflight) as real, (load.waiting + load.running) as real)
  }

  function Penalty(waiting: real, excess: real): real { waiting * 6.0 * excess }

  lemma ScoreSplits(load: Load, inflight: int, clients: nat)
    ensures Score(load, inflight, clients)
         == Count(load, inflight, clients) + Penalty(load.waiting as real, Max(0.0, load.kvUsage - 0.5))
  {
  }

  lemma CountGrows(load: Load, load': Load, inflight: int, inflight': int, clients: nat)
    requires load.waiting + load.running <= load'.waiting + load'.running && inflight <= inflight'
    ensures Count(load, inflight, clients) <= Count(load', inflight', clients)
  {
    MulMonotone(clients, inflight, inflight');
  }

  lemma PenaltyGrows(w: real, w': real, x: real, x': real)
    requires 0.0 <= w <= w' && 0.0 <= x <= x'
    ensures Penalty(w, x) <= Penalty(w', x')
    ensures w < w' && x' > 0.0 ==> Penalty(w, x) < Penalty(w', x')
  {
    PenaltySteps(w, x, x' - x);
    PenaltySteps(x', w, w' - w);
    PenaltyTurns(w, x');
    PenaltyTurns(w', x');
  }

  lemma PenaltyTurns(w: real, x: real)
    ensures Penalty(w, x) == Penalty(x, w)
  {
  }

  lemma PenaltySteps(w: real, x: real, d: real)
    requires w >= 0.0 && d >= 0.0
    ensures Penalty(w, x) <= Penalty(w, x + d)
    ensures w > 0.0 && d > 0.0 ==> Penalty(w, x) < Penalty(w, x + d)
  {
    assert Penalty(w, x + d) == Penalty(w, x) + Penalty(w, d);
  }

  function Rotated(start: nat, i: nat, n: nat): (e: nat)
    requires n > 0
    ensures e < n
  {
    (start + i) % n
  }

  function Scores(loads: seq<Load>, inflight: seq<int>, clients: nat): (s: seq<real>)
    requires |loads| == |inflight|
    ensures |s| == |loads|
    ensures forall e | 0 <= e < |loads| :: s[e] == Score(loads[e], inflight[e], clients)
  {
    seq(|loads|, e requires 0 <= e < |loads| => Score(loads[e], inflight[e], clients))
  }

  /** The engine at place i of the rotated order has the least score, and is the first such one. */
  predicate FirstBestAt(scores: seq<real>, start: nat, e: nat, i: nat)
    requires i < |scores|
  {
    && e == Rotated(start, i, |scores|)
    && (forall k | 0 <= k < i :: scores[e] < scores[Rotated(start, k, |scores|)])
    && (forall k | i <= k < |scores| :: scores[e] <= scores[Rotated(start, k, |scores|)])
  }

  predicate FirstBest(scores: seq<real>, start: nat, e: nat) {
    exists i | 0 <= i < |scores| :: FirstBestAt(scores, start, e, i)
  }

  predicate SomeBelowMax(scores: seq<real>) {
    exists e | 0 <= e < |scores| :: scores[e] < MAX_SIZE as real
  }

  lemma RotationReaches(start: nat, e: nat, n: nat) returns (i: nat)
    requires e < n
    ensures i < n && Rotated(start, i, n) == e
  {
    var s := start % n;
    i := if s <= e then e - s else e + n - s;
    var q := start / n;
    if s <= e {
      DivModUnique(start + i, n, q, e);
    } else {
      assert (q + 1) * n == q * n + n;
      DivModUnique(start + i, n, q + 1, e);
    }
  }

  /** No engine scores lower than the chosen one. */
  lemma FirstBestIsLeast(scores: seq<real>, start: nat, e: nat, o: nat)
    requires e < |scores| && o < |scores| && FirstBest(scores, start, e)
    ensures scores[e] <= scores[o]
  {
    var k := RotationReaches(start, o, |scores|);
    var i :| 0 <= i < |scores| && FirstBestAt(scores, start, e, i);
    assert scores[e] <= scores[Rotated(start, k, |scores|)];
  }

  /** Among engines with the least score the scan takes the first from its start on, wrapping around once:
      no engine between the start and the chosen one has the same score. */
  lemma TiesGoRound(scores: seq<real>, start: nat, e: nat, o: nat)
    requires start < |scores| && e < |scores| && FirstBest(scores, start, e)
    requires o < |scores| && if start <= e then start <= o < e else o >= start || o < e
    ensures scores[e] < scores[o]
  {
    var n := |scores|;
    var i :| 0 <= i < n && FirstBestAt(scores, start, e, i);
    var k := if start <= o then o - start else o + n - start;
    RotatedIs(start, i, n);
    RotatedIs(start, k, n);
    assert k < i && Rotated(start, k, n) == o;
  }

  lemma RotatedIs(start: nat, i: nat, n: nat)
    requires start < n && i < n
    ensures Rotated(start, i, n) == if start + i < n then start + i else start + i - n
  {
    if start + i < n {
      DivModUnique(start + i, n, 0, start + i);
    } else {
      DivModUnique(start + i, n, 1, start + i - n);
    }
  }

  /** The live requests that are mapped to engine e. */
  function LiveOn(reqs: map<string, nat>, e: nat): set<string> {
    set id | id in reqs && reqs[id] == e
  }

  /** Every counter is the number of live requests mapped to its engine. */
  ghost predicate Conserved(reqs: map<string, nat>, inflight: seq<int>) {
    && (forall id | id in reqs :: reqs[id] < |inflight|)
    && forall e | 0 <= e < |inflight| :: inflight[e] == |LiveOn(reqs, e)|
  }

  lemma AddNewConserves(reqs: map<string, nat>, inflight: seq<int>, id: string, e: nat)
    requires Conserved(reqs, inflight) && e < |inflight| && id !in reqs
    ensures Conserved(reqs[id := e], inflight[e := inflight[e] + 1])
  {
    var r', f' := reqs[id := e], inflight[e := inflight[e] + 1];
    assert LiveOn(r', e) == LiveOn(reqs, e) + {id} && id !in LiveOn(reqs, e);
    forall o | 0 <= o < |f'| && o != e ensures LiveOn(r', o) == LiveOn(reqs, o) {
    }
  }

  lemma AddLiveBreaks(reqs: map<string, nat>, inflight: seq<int>, id: string, e: nat)
    requires Conserved(reqs, inflight) && e < |inflight| && id in reqs
    ensures !Conserved(reqs[id := e], inflight[e := inflight[e] + 1])
  {
    var r', f', o := reqs[id := e], inflight[e := inflight[e] + 1], reqs[id];
    if o == e {
      assert LiveOn(r', e) == LiveOn(reqs, e);
    } else {
      assert LiveOn(reqs, o) == LiveOn(r', o) + {id} && id !in LiveOn(r', o);
    }
    assert f'[o] != |LiveOn(r', o)|;
  }

  /** Counting one more request on an engine keeps the counters exact if and only if its id is not
      live already. */
  lemma AddConservesIffNew(reqs: map<string, nat>, inflight: seq<int>, id: string, e: nat)
    requires Conserved(reqs, inflight) && e < |inflight|
    ensures Conserved(reqs[id := e], inflight[e := inflight[e] + 1]) <==> id !in reqs
  {
    if id in reqs { AddLiveBreaks(reqs, inflight, id, e); } else { AddNewConserves(reqs, inflight, id, e); }
  }

  lemma FinishConserves(reqs: map<string, nat>, inflight: seq<int>, id: string)
    requires Conserved(reqs, inflight) && id in reqs
    ensures Conserved(reqs - {id}, inflight[reqs[id] := inflight[reqs[id]] - 1])
  {
    var e, r' := reqs[id], reqs - {id};
    assert LiveOn(reqs, e) == LiveOn(r', e) + {id} && id !in LiveOn(r', e);
    forall o | 0 <= o < |inflight| && o != e ensures LiveOn(r', o) == LiveOn(reqs, o) {
    }
  }

  function Ids(ids: seq<string>): set<string> {
    set id | id in ids
  }

  lemma OneMoreFinished(reqs: map<string, nat>, finished: seq<string>, i: nat)
    requires i < |finished|
    ensures var left := reqs - Ids(finished[..i]);
            reqs - Ids(finished[..i + 1]) == if finished[i] in left then left - {finished[i]} else left
  {
    assert Ids(finished[..i + 1]) == Ids(finished[..i]) + {finished[i]};
  }

  /** The counters are integers of either sign. */
  function TotalInflight(s: seq<int>): int {
    if |s| == 0 then 0 else TotalInflight(s[..|s| - 1]) + s[|s| - 1]
  }

  lemma {:induction false} TotalUpdate(s: seq<int>, e: nat, d: int)
    requires e < |s|
    ensures TotalInflight(s[e := s[e] + d]) == TotalInflight(s) + d
  {
    var n := |s| - 1;
    if e < n {
      TotalUpdate(s[..n], e, d);
      assert s[e := s[e] + d][..n] == s[..n][e := s[e] + d];
    } else {
      assert s[e := s[e] + d][..n] == s[..n];
    }
  }

  lemma {:induction false} TotalOfZeros(s: seq<int>)
    requires forall e | 0 <= e < |s| :: s[e] == 0
    ensures TotalInflight(s) == 0
  {
    if |s| > 0 { TotalOfZeros(s[..|s| - 1]); }
  }

  /** By how much the counters together exceed the number of live requests. */
  function Excess(reqs: map<string, nat>, inflight: seq<int>): int {
    TotalInflight(inflight) - |reqs|
  }

  /** Every live request is mapped to an engine. */
  ghost predicate Mapped(reqs: map<string, nat>, inflight: seq<int>) {
    forall id | id in reqs :: reqs[id] < |inflight|
  }

  /** The counts and the live requests of every engine have changed alike: the later counters are
      exactly as exact as the earlier ones, engine by engine and together. */
  ghost predicate AsExactAs(reqs: map<string, nat>, inflight: seq<int>, reqs': map<string, nat>, inflight': seq<int>) {
    && Mapped(reqs', inflight')
    && |inflight'| == |inflight|
    && (forall e | 0 <= e < |inflight| :: SameDebt(reqs, inflight, reqs', inflight', e))
    && Excess(reqs', inflight') == Excess(reqs, inflight)
  }

  predicate SameDebt(reqs: map<string, nat>, inflight: seq<int>, reqs': map<string, nat>, inflight': seq<int>, e: nat)
    requires e < |inflight| == |inflight'|
  {
    inflight'[e] - |LiveOn(reqs', e)| == inflight[e] - |LiveOn(reqs, e)|
  }

  lemma ExactStaysExact(reqs: map<string, nat>, inflight: seq<int>, reqs': map<string, nat>, inflight': seq<int>)
    requires AsExactAs(reqs, inflight, reqs', inflight') && Conserved(reqs, inflight)
    ensures Conserved(reqs', inflight')
  {
    forall e | 0 <= e < |inflight'| ensures inflight'[e] == |LiveOn(reqs', e)| {
      assert SameDebt(reqs, inflight, reqs', inflight', e);
    }
  }

  lemma FinishIsExact(reqs: map<string, nat>, inflight: seq<int>, id: string)
    requires Mapped(reqs, inflight) && id in reqs
    ensures AsExactAs(reqs, inflight, reqs - {id}, inflight[reqs[id] := inflight[reqs[id]] - 1])
  {
    var e, r', f' := reqs[id], reqs - {id}, inflight[reqs[id] := inflight[reqs[id]] - 1];
    FinishKeepsExcess(reqs, inflight, id);
    assert LiveOn(reqs, e) == LiveOn(r', e) + {id} && id !in LiveOn(r', e);
    forall o | 0 <= o < |inflight| ensures SameDebt(reqs, inflight, r', f', o) {
      if o != e { assert LiveOn(r', o) == LiveOn(reqs, o); }
    }
  }

  lemma ExactAgain(reqs: map<string, nat>, inflight: seq<int>, reqs': map<string, nat>, inflight': seq<int>,
                   reqs'': map<string, nat>, inflight'': seq<int>)
    requires AsExactAs(reqs, inflight, reqs', inflight') && AsExactAs(reqs', inflight', reqs'', inflight'')
    ensures AsExactAs(reqs, inflight, reqs'', inflight'')
  {
    forall e | 0 <= e < |inflight| ensures SameDebt(reqs, inflight, reqs'', inflight'', e) {
      assert SameDebt(reqs, inflight, reqs', inflight', e) && SameDebt(reqs', inflight', reqs'', inflight'', e);
    }
  }

  lemma AddChangesExcess(reqs: map<string, nat>, inflight: seq<int>, id: string, e: nat)
    requires e < |inflight|
    ensures Excess(reqs[id := e], inflight[e := inflight[e] + 1])
         == Excess(reqs, inflight) + if id in reqs then 1 else 0
  {
    TotalUpdate(inflight, e, 1);
    assert reqs[id := e].Keys == reqs.Keys + {id};
    assert |reqs[id := e]| == |reqs[id := e].Keys| && |reqs| == |reqs.Keys|;
  }

  lemma FinishKeepsExcess(reqs: map<string, nat>, inflight: seq<int>, id: string)
    requires Mapped(reqs, inflight) && id in reqs
    ensures Excess(reqs - {id}, inflight[reqs[id] := inflight[reqs[id]] - 1]) == Excess(reqs, inflight)
  {
    TotalUpdate(inflight, reqs[id], -1);
    assert (reqs - {id}).Keys == reqs.Keys - {id};
    assert |reqs - {id}| == |(reqs - {id}).Keys| && |reqs| == |reqs.Keys|;
  }

  /** Exact counters leave no excess. */
  lemma {:induction false} ConservedHasNoExcess(reqs: map<string, nat>, inflight: seq<int>)
    requires Conserved(reqs, inflight)
    ensures Excess(reqs, inflight) == 0
    decreases |reqs|
  {
    if reqs == map[] {
      forall e | 0 <= e < |inflight| ensures inflight[e] == 0 { assert LiveOn(reqs, e) == {}; }
      TotalOfZeros(inflight);
    } else {
      var id :| id in reqs;
      assert |reqs - {id}| == |(reqs - {id}).Keys| && (reqs - {id}).Keys == reqs.Keys - {id};
      FinishConserves(reqs, inflight, id);
      FinishKeepsExcess(reqs, inflight, id);
      ConservedHasNoExcess(reqs - {id}, inflight[reqs[id] := inflight[reqs[id]] - 1]);
    }
  }

  class DPLBClient {
    const clientCount: nat
    const numEngines: nat
    var reqsInFlight: map<string, nat>
    var engineInflight: seq<int>
    var lbEngines: seq<Load>
    var engStartIndex: nat

    ghost predicate Valid()
      reads this
    {
      numEngines > 0 && clientCount > 0 && |engineInflight| == |lbEngines| == numEngines
    }

    constructor (numEngines: nat, clientCount: nat, clientIndex: nat)
      requires numEngines > 1 && clientIndex < clientCount
      ensures Valid() && this.numEngines == numEngines && this.clientCount == clientCount
      ensures engineInflight == seq(numEngines, _ => 0) && reqsInFlight == map[]
      ensures lbEngines == seq(numEngines, _ => Load(0, 0, 0.0))
      ensures engStartIndex == numEngines * clientIndex / clientCount
    {
      this.numEngines, this.clientCount := numEngines, clientCount;
      reqsInFlight, engineInflight := map[], seq(numEngines, _ => 0);
      lbEngines := seq(numEngines, _ => Load(0, 0, 0.0));
      engStartIndex := numEngines * clientIndex / clientCount;
    }

    /** The scan over the engines with a running minimum. */
    method Scan() returns (e: nat)
      requires Valid()
      ensures e < numEngines
      ensures var scores := Scores(lbEngines, engineInflight, clientCount);
              if SomeBelowMax(scores) then FirstBest(scores, engStartIndex, e) else e == 0
    {
      ghost var scores := Scores(lbEngines, engineInflight, clientCount);
      var minScore := MAX_SIZE as real;
      e := 0;
      ghost var at := -1;
      for i := 0 to numEngines
        invariant e < numEngines && -1 <= at < i && minScore <= MAX_SIZE as real
        invariant if at == -1 then minScore == MAX_SIZE as real && e == 0
                  else e == Rotated(engStartIndex, at, numEngines) && minScore == scores[e] < MAX_SIZE as real
        invariant forall k | 0 <= k < at :: minScore < scores[Rotated(engStartIndex, k, numEngines)]
        invariant forall k | 0 <= k < i :: minScore <= scores[Rotated(engStartIndex, k, numEngines)]
      {
        var idx := Rotated(engStartIndex, i, numEngines);
        var score := Score(lbEngines[idx], engineInflight[idx], clientCount);
        assert score == scores[idx];
        if score < minScore {
          minScore, e, at := score, idx, i;
        }
      }
      if at >= 0 {
        assert FirstBestAt(scores, engStartIndex, e, at);
      } else {
        forall o | 0 <= o < numEngines ensures scores[o] >= MAX_SIZE as real {
          var k := RotationReaches(engStartIndex, o, numEngines);
        }
      }
    }

    /** Routes a request. An explicit rank or a late-interaction engine bypasses the scan; an index
        that does not exist is an error and changes nothing. */
    method GetCoreEngine(id: string, rank: Option<nat>, lateInteraction: Option<nat>) returns (chosen: Option<nat>)
      requires Valid()
      modifies this
      ensures Valid()
      ensures chosen.None? ==> unchanged(this)
      ensures chosen.Some? ==> chosen.value < numEngines
      ensures engStartIndex == if rank.None? && lateInteraction.None? then (old(engStartIndex) + 1) % numEngines
                               else old(engStartIndex)
      ensures rank.Some? ==> chosen == (if rank.value < numEngines then rank else None) && lbEngines == old(lbEngines)
      ensures rank.None? && lateInteraction.Some? ==>
                chosen == (if lateInteraction.value < numEngines then lateInteraction else None)
                && lbEngines == old(lbEngines)
      ensures rank.None? && lateInteraction.None? ==>
                && chosen.Some?
                && lbEngines == old(lbEngines)[chosen.value :=
                     old(lbEngines)[chosen.value].(waiting := old(lbEngines)[chosen.value].waiting + clientCount)]
                && (var scores := old(Scores(lbEngines, engineInflight, clientCount));
                    if SomeBelowMax(scores) then FirstBest(scores, old(engStartIndex), chosen.value)
                    else chosen == Some(0))
      ensures chosen.Some? ==>
                && reqsInFlight == old(reqsInFlight)[id := chosen.value]
                && engineInflight == old(engineInflight)[chosen.value := old(engineInflight)[chosen.value] + 1]
      ensures old(Conserved(reqsInFlight, engineInflight)) && chosen.Some? ==>
                (Conserved(reqsInFlight, engineInflight) <==> id !in old(reqsInFlight))
    {
      var e: nat;
      if rank.Some? {
        e := rank.value;
      } else if lateInteraction.Some? {
        e := lateInteraction.value;
      } else {
        e := Scan();
        lbEngines := lbEngines[e := lbEngines[e].(waiting := lbEngines[e].waiting + clientCount)];
        engStartIndex := (engStartIndex + 1) % numEngines;
      }
      if e >= numEngines {
        return None;
      }
      Record(id, e);
      chosen := Some(e);
    }

    /** Remembers the engine chosen for a request and counts the request. */
    method Record(id: string, e: nat)
      requires Valid() && e < numEngines
      modifies this`reqsInFlight, this`engineInflight
      ensures Valid()
      ensures reqsInFlight == old(reqsInFlight)[id := e]
      ensures engineInflight == old(engineInflight)[e := old(engineInflight)[e] + 1]
      ensures old(Conserved(reqsInFlight, engineInflight)) ==>
                (Conserved(reqsInFlight, engineInflight) <==> id !in old(reqsInFlight))
    {
      if Conserved(reqsInFlight, engineInflight) {
        AddConservesIffNew(reqsInFlight, engineInflight, id, e);
      }
      reqsInFlight := reqsInFlight[id := e];
      engineInflight := engineInflight[e := engineInflight[e] + 1];
    }

    /** Finished requests give their place back; unknown ids are ignored. */
    method ProcessEngineOutputs(finished: seq<string>)
      requires Valid() && Mapped(reqsInFlight, engineInflight)
      modifies this`reqsInFlight, this`engineInflight
      ensures Valid() && reqsInFlight == old(reqsInFlight) - Ids(finished)
      ensures AsExactAs(old(reqsInFlight), old(engineInflight), reqsInFlight, engineInflight)
    {
      for i := 0 to |finished|
        invariant Valid() && reqsInFlight == old(reqsInFlight) - Ids(finished[..i])
        invariant AsExactAs(old(reqsInFlight), old(engineInflight), reqsInFlight, engineInflight)
      {
        var id := finished[i];
        OneMoreFinished(old(reqsInFlight), finished, i);
        if id in reqsInFlight {
          ghost var reqs, inflight := reqsInFlight, engineInflight;
          FinishOne(id);
          ExactAgain(old(reqsInFlight), old(engineInflight), reqs, inflight, reqsInFlight, engineInflight);
        }
      }
      assert finished[..|finished|] == finished;
    }

    method FinishOne(id: string)
      requires Valid() && Mapped(reqsInFlight, engineInflight) && id in reqsInFlight
      modifies this`reqsInFlight, this`engineInflight
      ensures Valid() && reqsInFlight == old(reqsInFlight) - {id}
      ensures AsExactAs(old(reqsInFlight), old(engineInflight), reqsInFlight, engineInflight)
    {
      var e := reqsInFlight[id];
      FinishIsExact(reqsInFlight, engineInflight, id);
      reqsInFlight := reqsInFlight - {id};
      engineInflight := engineInflight[e := engineInflight[e] - 1];
    }

    /** The coordinator's snapshot replaces the local one. */
    method Rebind(loads: seq<Load>)
      requires Valid() && |loads| == numEngines
      modifies this`lbEngines
      ensures Valid() && lbEngines == loads
    {
      lbEngines := loads;
    }
  }

  predicate Level(inflight: seq<int>, low: int) {
    forall e | 0 <= e < |inflight| :: low <= inflight[e] <= low + 1
  }

  /** The snapshot claims no more for this engine than the client's own scaled count. */
  predicate Within(load: Load, inflight: int, clients: nat) {
    load.waiting + load.running <= clients * inflight && load.kvUsage <= 0.5
  }

  predicate Covered(loads: seq<Load>, inflight: seq<int>, clients: nat) {
    && |loads| == |inflight|
    && forall e | 0 <= e < |loads| :: Within(loads[e], inflight[e], clients)
  }

  /** What routing one request to the engine the scan chooses does to level counts. */
  lemma RoutingKeepsLevel(loads: seq<Load>, inflight: seq<int>, clients: nat, start: nat, c: nat, low: int)
    returns (newLow: int)
    requires Covered(loads, inflight, clients) && Level(inflight, low) && c < |loads|
    requires clients > 0 && clients * (low + 1) < MAX_SIZE
    requires var scores := Scores(loads, inflight, clients);
             if SomeBelowMax(scores) then FirstBest(scores, start, c) else c == 0
    ensures var inflight' := inflight[c := inflight[c] + 1];
            && Level(inflight', newLow) && low <= newLow <= low + 1
            && Covered(loads[c := loads[c].(waiting := loads[c].waiting + clients)], inflight', clients)
            && TotalInflight(inflight') == TotalInflight(inflight) + 1
  {
    var scores := Scores(loads, inflight, clients);
    LevelScores(loads, inflight, clients, low);
    forall o | 0 <= o < |inflight| ensures inflight[c] <= inflight[o] {
      FirstBestIsLeast(scores, start, c, o);
      CountOrder(clients, inflight[c], inflight[o]);
    }
    TotalUpdate(inflight, c, 1);
    newLow := if inflight[c] == low + 1 then low + 1 else low;
    LeastTakesOneMore(inflight, c, low);
    WithinOneMore(loads[c], inflight[c], clients);
  }

  lemma WithinOneMore(load: Load, inflight: int, clients: nat)
    requires Within(load, inflight, clients)
    ensures Within(load.(waiting := load.waiting + clients), inflight + 1, clients)
  {
  }

  lemma LeastTakesOneMore(before: seq<int>, c: nat, low: int)
    requires c < |before| && Level(before, low) && forall e | 0 <= e < |before| :: before[c] <= before[e]
    ensures Level(before[c := before[c] + 1], if before[c] == low + 1 then low + 1 else low)
  {
  }

  /** Within the client's counts a score is the scaled in-flight count alone. */
  lemma LevelScores(loads: seq<Load>, inflight: seq<int>, clients: nat, low: int)
    requires |loads| == |inflight| > 0 && clients * (low + 1) < MAX_SIZE
    requires Level(inflight, low) && Covered(loads, inflight, clients)
    ensures forall e | 0 <= e < |loads| :: Scores(loads, inflight, clients)[e] == (clients * inflight[e]) as real
    ensures SomeBelowMax(Scores(loads, inflight, clients))
  {
    var scores := Scores(loads, inflight, clients);
    forall e | 0 <= e < |loads|
      ensures scores[e] == (clients * inflight[e]) as real && scores[e] < MAX_SIZE as real
    {
      ScoreWithinCount(loads[e], inflight[e], clients);
      MulMonotone(clients, inflight[e], low + 1);
    }
    assert scores[0] < MAX_SIZE as real;
  }

  lemma ScoreWithinCount(load: Load, inflight: int, clients: nat)
    requires Within(load, inflight, clients)
    ensures Score(load, inflight, clients) == (clients * inflight) as real
  {
  }

  lemma CountOrder(clients: nat, a: int, b: int)
    requires clients > 0 && clients * a <= clients * b
    ensures a <= b
  {
    if a > b {
      MulAtLeast(a - b, clients);
      assert false;
    }
  }
}
