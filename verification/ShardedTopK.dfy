/** Candidate selection over a vocabulary split across tensor-parallel ranks: a top-k on every rank,
    an all-gather, and a top-k of what was gathered. */
module ShardedTopK {
  import opened Arithmetic

  datatype Logit = NegInf | Fin(v: real)

  predicate Le(a: Logit, b: Logit) {
    a.NegInf? || (b.Fin? && a.v <= b.v)
  }

  predicate Distinct(s: seq<nat>) {
    forall i, j | 0 <= i < j < |s| :: s[i] != s[j]
  }

  /** What topk may return, however it breaks ties: k different indices in descending order of their
      values, and no index left out has a greater value than one taken. */
  predicate IsTopK(values: seq<Logit>, taken: seq<nat>, k: nat) {
    && |taken| == k && Distinct(taken)
    && (forall j | 0 <= j < k :: taken[j] < |values|)
    && (forall i, j | 0 <= i < j < k :: Le(values[taken[j]], values[taken[i]]))
    && (forall x, j | 0 <= x < |values| && x !in taken && 0 <= j < k :: Le(values[x], values[taken[j]]))
  }

  lemma {:induction false} DistinctFit(s: seq<nat>, t: set<nat>)
    requires Distinct(s) && forall i | 0 <= i < |s| :: s[i] in t
    ensures |s| <= |t|
    decreases |s|
  {
    if |s| > 0 {
      DistinctFit(s[..|s| - 1], t - {s[|s| - 1]});
    }
  }

  function Elements(s: seq<nat>): set<nat> { set x | x in s }

  lemma {:induction false} ElementsAtMost(s: seq<nat>)
    ensures |Elements(s)| <= |s|
    decreases |s|
  {
    if |s| > 0 {
      ElementsAtMost(s[..|s| - 1]);
      assert Elements(s) == Elements(s[..|s| - 1]) + {s[|s| - 1]};
    } else {
      assert Elements(s) == {};
    }
  }

  /** k different members of a sequence of length k are all of them. */
  lemma Pigeonhole(s: seq<nat>, t: seq<nat>, x: nat)
    requires Distinct(s) && |s| >= |t| && (forall i | 0 <= i < |s| :: s[i] in t)
    requires x in t
    ensures x in s
  {
    if x !in s {
      var more := s + [x];
      DistinctFit(more, Elements(t));
      ElementsAtMost(t);
    }
  }

  // ------------------------------------------------------------------------------------------
  // Top-k values do not depend on how ties are broken
  // ------------------------------------------------------------------------------------------

  lemma TopKNotAbove(values: seq<Logit>, a: seq<nat>, b: seq<nat>, k: nat, j: nat)
    requires IsTopK(values, a, k) && IsTopK(values, b, k) && j < k
    ensures Le(values[a[j]], values[b[j]])
  {
    if !Le(values[a[j]], values[b[j]]) {
      var better := a[..j + 1];
      forall i | 0 <= i < |better| ensures better[i] in b[..j] {
        assert !Le(values[a[i]], values[b[j]]);
        assert a[i] in b;
        var q :| 0 <= q < k && b[q] == a[i];
        assert q < j;
        assert b[..j][q] == a[i];
      }
      DistinctFit(better, Elements(b[..j]));
      ElementsAtMost(b[..j]);
    }
  }

  /** Any two top-k selections have the same values, place by place. */
  lemma TopKValuesUnique(values: seq<Logit>, a: seq<nat>, b: seq<nat>, k: nat, j: nat)
    requires IsTopK(values, a, k) && IsTopK(values, b, k) && j < k
    ensures values[a[j]] == values[b[j]]
  {
    TopKNotAbove(values, a, b, k, j);
    TopKNotAbove(values, b, a, k, j);
  }

  // ------------------------------------------------------------------------------------------
  // The split vocabulary
  // ------------------------------------------------------------------------------------------

  /** One rank's part: where its vocabulary starts, its logits, and how many at the end are padding. */
  datatype Shard = Shard(start: nat, logits: seq<Logit>, pad: nat)

  function Valid(s: Shard): int { |s.logits| - s.pad }

  /** The logits after the padded tail has been overwritten. */
  function Masked(s: Shard): (m: seq<Logit>)
    ensures |m| == |s.logits|
    ensures forall i | 0 <= i < |m| :: m[i] == if i < Valid(s) then s.logits[i] else NegInf
  {
    seq(|s.logits|, i requires 0 <= i < |s.logits| => if i < Valid(s) then s.logits[i] else NegInf)
  }

  /** The in-place overwriting of the padded tail. */
  method MaskPadding(logits: array<Logit>, pad: nat)
    requires pad <= logits.Length
    modifies logits
    ensures logits[..] == Masked(Shard(0, old(logits[..]), pad))
  {
    for i := logits.Length - pad to logits.Length
      invariant forall k | 0 <= k < logits.Length ::
                  logits[k] == if logits.Length - pad <= k < i then NegInf else old(logits[k])
    {
      logits[i] := NegInf;
    }
  }

  /** Shard s holds the logits of its part, and the next shard starts where it ends. */
  predicate SplitAt(vocab: seq<real>, shards: seq<Shard>, s: nat)
    requires s < |shards|
  {
    var end := shards[s].start + Valid(shards[s]);
    && 0 <= Valid(shards[s]) && end <= |vocab|
    && end == (if s + 1 < |shards| then shards[s + 1].start else |vocab|)
    && forall l | 0 <= l < Valid(shards[s]) :: shards[s].logits[l] == Fin(vocab[shards[s].start + l])
  }

  /** The shards cut the vocabulary into consecutive parts, whatever their padding holds. */
  predicate Split(vocab: seq<real>, shards: seq<Shard>) {
    && |shards| > 0 && shards[0].start == 0
    && forall s | 0 <= s < |shards| :: SplitAt(vocab, shards, s)
  }

  lemma {:induction false} StartsOrdered(vocab: seq<real>, shards: seq<Shard>, s: nat, t: nat)
    requires Split(vocab, shards) && s < t < |shards|
    ensures shards[s].start + Valid(shards[s]) <= shards[t].start
    decreases t
  {
    assert SplitAt(vocab, shards, t - 1);
    if s + 1 < t {
      StartsOrdered(vocab, shards, s, t - 1);
    }
  }

  /** Every token of the vocabulary is a valid entry of some shard. */
  lemma {:induction false} Locate(vocab: seq<real>, shards: seq<Shard>, g: nat, t: nat) returns (s: nat)
    requires Split(vocab, shards) && t < |shards| && g < shards[t].start + Valid(shards[t])
    ensures s < |shards| && shards[s].start <= g < shards[s].start + Valid(shards[s])
    decreases t
  {
    if shards[t].start <= g {
      s := t;
    } else {
      assert SplitAt(vocab, shards, t - 1);
      s := Locate(vocab, shards, g, t - 1);
    }
  }

  lemma ShardOf(vocab: seq<real>, shards: seq<Shard>, g: nat) returns (s: nat)
    requires Split(vocab, shards) && g < |vocab|
    ensures s < |shards| && shards[s].start <= g < shards[s].start + Valid(shards[s])
  {
    var last := |shards| - 1;
    assert SplitAt(vocab, shards, last);
    s := Locate(vocab, shards, g, last);
  }

  // ------------------------------------------------------------------------------------------
  // Gathering
  // ------------------------------------------------------------------------------------------

  /** Every rank contributes k entries, so entry p comes from rank p / k. */
  predicate LocalTopKs(shards: seq<Shard>, local: seq<seq<nat>>, k: nat) {
    k > 0 && |local| == |shards| && forall s | 0 <= s < |shards| :: IsTopK(Masked(shards[s]), local[s], k)
  }

  lemma PlaceSplits(p: nat, k: nat, n: nat)
    requires k > 0 && p < n * k
    ensures p / k < n && p % k < k && p == p / k * k + p % k
  {
  }

  lemma PlaceOf(s: nat, j: nat, k: nat, n: nat)
    requires j < k && s < n
    ensures s * k + j < n * k && (s * k + j) / k == s && (s * k + j) % k == j
  {
    DivModUnique(s * k + j, k, s, j);
    MulMonotone(k, s + 1, n);
    assert k * (s + 1) == s * k + k;
  }

  function GatheredValue(shards: seq<Shard>, local: seq<seq<nat>>, k: nat, p: nat): Logit
    requires LocalTopKs(shards, local, k) && p < |shards| * k
  {
    PlaceSplits(p, k, |shards|);
    assert IsTopK(Masked(shards[p / k]), local[p / k], k);
    Masked(shards[p / k])[local[p / k][p % k]]
  }

  function GatheredId(shards: seq<Shard>, local: seq<seq<nat>>, k: nat, p: nat): nat
    requires LocalTopKs(shards, local, k) && p < |shards| * k
  {
    PlaceSplits(p, k, |shards|);
    assert IsTopK(Masked(shards[p / k]), local[p / k], k);
    local[p / k][p % k] + shards[p / k].start
  }

  function GatheredValues(shards: seq<Shard>, local: seq<seq<nat>>, k: nat): (v: seq<Logit>)
    requires LocalTopKs(shards, local, k)
    ensures |v| == |shards| * k
    ensures forall p | 0 <= p < |v| :: v[p] == GatheredValue(shards, local, k, p)
  {
    seq(|shards| * k, p requires 0 <= p < |shards| * k => GatheredValue(shards, local, k, p))
  }

  /** The second selection: a top-k of the gathered values, skipped when there are no more than k. */
  predicate FinalSelection(shards: seq<Shard>, local: seq<seq<nat>>, final: seq<nat>, k: nat)
    requires LocalTopKs(shards, local, k)
  {
    if |GatheredValues(shards, local, k)| > k then IsTopK(GatheredValues(shards, local, k), final, k)
    else final == seq(k, i => i)
  }

  function CandidateIds(shards: seq<Shard>, local: seq<seq<nat>>, final: seq<nat>, k: nat): (ids: seq<nat>)
    requires LocalTopKs(shards, local, k) && forall j | 0 <= j < |final| :: final[j] < |shards| * k
    ensures |ids| == |final|
    ensures forall j | 0 <= j < |ids| :: ids[j] == GatheredId(shards, local, k, final[j])
  {
    seq(|final|, j requires 0 <= j < |final| => GatheredId(shards, local, k, final[j]))
  }

  lemma FinalIsTopK(shards: seq<Shard>, local: seq<seq<nat>>, final: seq<nat>, k: nat)
    requires |shards| > 0 && LocalTopKs(shards, local, k) && FinalSelection(shards, local, final, k)
    ensures IsTopK(GatheredValues(shards, local, k), final, k)
  {
    var v := GatheredValues(shards, local, k);
    if |v| <= k {
      MulAtLeast(|shards|, k);
      assert |v| == k;
      if |shards| > 1 {
        MulMonotone(k, 2, |shards|);
        assert false;
      }
      assert IsTopK(Masked(shards[0]), local[0], k);
      forall p | 0 <= p < k ensures v[p] == Masked(shards[0])[local[0][p]] && p in final {
        PlaceOf(0, p, k, 1);
        assert final[p] == p;
      }
    }
  }

  /** The k places that rank s fills. */
  function Places(s: nat, k: nat): (ps: seq<nat>)
    ensures |ps| == k && Distinct(ps) && forall j | 0 <= j < k :: ps[j] == s * k + j
  {
    seq(k, j requires 0 <= j < k => s * k + j)
  }

  /** Where token g of shard s shows up: in the gathered values, or behind all of the shard's k. */
  lemma TokenOrBetter(vocab: seq<real>, shards: seq<Shard>, local: seq<seq<nat>>, k: nat, g: nat, s: nat)
    returns (found: bool, p: nat)
    requires Split(vocab, shards) && LocalTopKs(shards, local, k) && g < |vocab|
    requires s < |shards| && shards[s].start <= g < shards[s].start + Valid(shards[s])
    ensures found ==> p < |shards| * k && p / k == s && GatheredValue(shards, local, k, p) == Fin(vocab[g])
                      && GatheredId(shards, local, k, p) == g
    ensures !found ==> forall j | 0 <= j < k ::
                         && Places(s, k)[j] < |shards| * k
                         && Le(Fin(vocab[g]), GatheredValue(shards, local, k, Places(s, k)[j]))
  {
    var l := g - shards[s].start;
    assert SplitAt(vocab, shards, s);
    assert IsTopK(Masked(shards[s]), local[s], k);
    assert Masked(shards[s])[l] == Fin(vocab[g]);
    found := l in local[s];
    if found {
      var j :| 0 <= j < k && local[s][j] == l;
      p := s * k + j;
      PlaceOf(s, j, k, |shards|);
    } else {
      p := 0;
      forall j | 0 <= j < k
        ensures Places(s, k)[j] < |shards| * k && Le(Fin(vocab[g]), GatheredValue(shards, local, k, Places(s, k)[j]))
      {
        PlaceOf(s, j, k, |shards|);
        assert Le(Masked(shards[s])[l], Masked(shards[s])[local[s][j]]);
      }
    }
  }

  /** If padding were selected, every token of the vocabulary would have to be selected as well. */
  lemma TokenSelectedWithPad(vocab: seq<real>, shards: seq<Shard>, local: seq<seq<nat>>, final: seq<nat>, k: nat,
                             j0: nat, g: nat) returns (p: nat)
    requires Split(vocab, shards) && LocalTopKs(shards, local, k) && g < |vocab|
    requires IsTopK(GatheredValues(shards, local, k), final, k)
    requires j0 < k && GatheredValue(shards, local, k, final[j0]).NegInf?
    ensures p in final && p < |shards| * k && p != final[j0] && GatheredId(shards, local, k, p) == g
  {
    var v := GatheredValues(shards, local, k);
    var s := ShardOf(vocab, shards, g);
    var found: bool;
    found, p := TokenOrBetter(vocab, shards, local, k, g, s);
    if found {
      assert !Le(v[p], v[final[j0]]);
    } else {
      var places := Places(s, k);
      forall i | 0 <= i < k ensures places[i] in final && places[i] != final[j0] {
        assert !Le(v[places[i]], v[final[j0]]);
      }
      Pigeonhole(places, final, final[j0]);
      assert false;
    }
  }

  lemma {:induction false} PadFreePlaces(vocab: seq<real>, shards: seq<Shard>, local: seq<seq<nat>>, final: seq<nat>,
                                         k: nat, j0: nat, n: nat) returns (ps: seq<nat>)
    requires Split(vocab, shards) && LocalTopKs(shards, local, k) && n <= |vocab|
    requires IsTopK(GatheredValues(shards, local, k), final, k)
    requires j0 < k && GatheredValue(shards, local, k, final[j0]).NegInf?
    ensures |ps| == n && forall g | 0 <= g < n ::
              ps[g] in final && ps[g] < |shards| * k && ps[g] != final[j0] && GatheredId(shards, local, k, ps[g]) == g
  {
    if n == 0 {
      ps := [];
    } else {
      ps := PadFreePlaces(vocab, shards, local, final, k, j0, n - 1);
      var p := TokenSelectedWithPad(vocab, shards, local, final, k, j0, n - 1);
      ps := ps + [p];
    }
  }

  /** With at least k tokens in the vocabulary no padding is ever selected. */
  lemma NoPaddingSelected(vocab: seq<real>, shards: seq<Shard>, local: seq<seq<nat>>, final: seq<nat>, k: nat, j: nat)
    requires Split(vocab, shards) && LocalTopKs(shards, local, k) && k <= |vocab|
    requires IsTopK(GatheredValues(shards, local, k), final, k) && j < k
    ensures final[j] < |shards| * k && GatheredValue(shards, local, k, final[j]).Fin?
  {
    assert final[j] < |GatheredValues(shards, local, k)|;
    if GatheredValue(shards, local, k, final[j]).NegInf? {
      var ps := PadFreePlaces(vocab, shards, local, final, k, j, |vocab|);
      forall a, b | 0 <= a < b < |ps| ensures ps[a] != ps[b] {
        assert GatheredId(shards, local, k, ps[a]) == a && GatheredId(shards, local, k, ps[b]) == b;
      }
      Pigeonhole(ps, final, final[j]);
    }
  }

  /** A gathered entry that is not padding is a token of the vocabulary with its own logit. */
  lemma EntryIsToken(vocab: seq<real>, shards: seq<Shard>, local: seq<seq<nat>>, k: nat, p: nat)
    requires Split(vocab, shards) && LocalTopKs(shards, local, k) && p < |shards| * k
    requires GatheredValue(shards, local, k, p).Fin?
    ensures var g, s := GatheredId(shards, local, k, p), p / k;
            && s < |shards| && shards[s].start <= g < shards[s].start + Valid(shards[s])
            && g < |vocab| && GatheredValue(shards, local, k, p) == Fin(vocab[g])
  {
    PlaceSplits(p, k, |shards|);
    assert SplitAt(vocab, shards, p / k);
    assert IsTopK(Masked(shards[p / k]), local[p / k], k);
  }

  lemma SameShardDiffers(shards: seq<Shard>, local: seq<seq<nat>>, k: nat, p: nat, q: nat)
    requires LocalTopKs(shards, local, k)
    requires p < |shards| * k && q < |shards| * k && p != q && p / k == q / k
    ensures GatheredId(shards, local, k, p) != GatheredId(shards, local, k, q)
  {
  }

  lemma EarlierShardDiffers(vocab: seq<real>, shards: seq<Shard>, local: seq<seq<nat>>, k: nat, p: nat, q: nat,
                            s: nat, t: nat)
    requires Split(vocab, shards) && LocalTopKs(shards, local, k)
    requires p < |shards| * k && q < |shards| * k && p / k == s && q / k == t && s < t
    requires GatheredValue(shards, local, k, p).Fin? && GatheredValue(shards, local, k, q).Fin?
    ensures GatheredId(shards, local, k, p) < GatheredId(shards, local, k, q)
  {
    EntryIsToken(vocab, shards, local, k, p);
    EntryIsToken(vocab, shards, local, k, q);
    StartsOrdered(vocab, shards, s, t);
  }

  lemma EntriesDiffer(vocab: seq<real>, shards: seq<Shard>, local: seq<seq<nat>>, k: nat, p: nat, q: nat)
    requires Split(vocab, shards) && LocalTopKs(shards, local, k)
    requires p < |shards| * k && q < |shards| * k && p != q
    requires GatheredValue(shards, local, k, p).Fin? && GatheredValue(shards, local, k, q).Fin?
    ensures GatheredId(shards, local, k, p) != GatheredId(shards, local, k, q)
  {
    SomePlace(p, k, |shards|);
    EntriesDifferBetween(vocab, shards, local, k, p, q, p / k, q / k);
  }

  lemma SomePlace(p: nat, k: nat, n: nat)
    requires p < n * k
    ensures k > 0
  {
  }

  lemma EntriesDifferBetween(vocab: seq<real>, shards: seq<Shard>, local: seq<seq<nat>>, k: nat, p: nat, q: nat,
                             s: nat, t: nat)
    requires Split(vocab, shards) && LocalTopKs(shards, local, k)
    requires k > 0 && p < |shards| * k && q < |shards| * k && p != q && s == p / k && t == q / k
    requires GatheredValue(shards, local, k, p).Fin? && GatheredValue(shards, local, k, q).Fin?
    ensures GatheredId(shards, local, k, p) != GatheredId(shards, local, k, q)
  {
    if s == t {
      SameShardDiffers(shards, local, k, p, q);
    } else if s < t {
      EarlierShardDiffers(vocab, shards, local, k, p, q, s, t);
    } else {
      EarlierShardDiffers(vocab, shards, local, k, q, p, t, s);
    }
  }

  function AsLogits(vocab: seq<real>): (v: seq<Logit>)
    ensures |v| == |vocab| && forall g | 0 <= g < |v| :: v[g] == Fin(vocab[g])
  {
    seq(|vocab|, g requires 0 <= g < |vocab| => Fin(vocab[g]))
  }

  /** A token left out has no greater logit than any entry that is selected. */
  lemma LeftOutIsNoBetter(vocab: seq<real>, shards: seq<Shard>, local: seq<seq<nat>>, final: seq<nat>, k: nat,
                          g: nat, j: nat)
    requires Split(vocab, shards) && LocalTopKs(shards, local, k) && g < |vocab| && j < k
    requires IsTopK(GatheredValues(shards, local, k), final, k)
    requires forall i | 0 <= i < k :: final[i] < |shards| * k && GatheredId(shards, local, k, final[i]) != g
    ensures Le(Fin(vocab[g]), GatheredValue(shards, local, k, final[j]))
  {
    var v := GatheredValues(shards, local, k);
    var s := ShardOf(vocab, shards, g);
    var found, p := TokenOrBetter(vocab, shards, local, k, g, s);
    if found {
      assert p !in final;
      assert Le(v[p], v[final[j]]);
    } else {
      var places := Places(s, k);
      if i :| 0 <= i < k && places[i] !in final {
        assert Le(v[places[i]], v[final[j]]);
        assert Le(Fin(vocab[g]), GatheredValue(shards, local, k, places[i]));
      } else {
        Pigeonhole(places, final, final[j]);
        var i :| 0 <= i < k && places[i] == final[j];
        assert Le(Fin(vocab[g]), GatheredValue(shards, local, k, places[i]));
      }
    }
  }

  /** The main result: the gathered selection is a top-k selection of the whole vocabulary, its ids
      are different tokens with their own logits, and its values are those of any top-k of the
      unsplit, unpadded logits. */
  lemma ShardedIsGlobal(vocab: seq<real>, shards: seq<Shard>, local: seq<seq<nat>>, final: seq<nat>, k: nat)
    requires Split(vocab, shards) && LocalTopKs(shards, local, k) && k <= |vocab|
    requires FinalSelection(shards, local, final, k)
    ensures forall j | 0 <= j < |final| :: final[j] < |shards| * k
    ensures IsTopK(AsLogits(vocab), CandidateIds(shards, local, final, k), k)
    ensures forall j | 0 <= j < k ::
              GatheredValue(shards, local, k, final[j]) == Fin(vocab[CandidateIds(shards, local, final, k)[j]])
  {
    FinalIsTopK(shards, local, final, k);
    var v := GatheredValues(shards, local, k);
    assert forall j | 0 <= j < k :: final[j] < |v|;
    var ids := CandidateIds(shards, local, final, k);
    forall j | 0 <= j < k
      ensures ids[j] < |vocab| && GatheredValue(shards, local, k, final[j]) == Fin(vocab[ids[j]])
    {
      NoPaddingSelected(vocab, shards, local, final, k, j);
      EntryIsToken(vocab, shards, local, k, final[j]);
    }
    forall i, j | 0 <= i < j < k ensures ids[i] != ids[j] && Le(Fin(vocab[ids[j]]), Fin(vocab[ids[i]])) {
      EntriesDiffer(vocab, shards, local, k, final[i], final[j]);
      assert Le(v[final[j]], v[final[i]]);
    }
    forall g, j | 0 <= g < |vocab| && g !in ids && 0 <= j < k ensures Le(Fin(vocab[g]), Fin(vocab[ids[j]])) {
      forall i | 0 <= i < k ensures GatheredId(shards, local, k, final[i]) != g {
        assert ids[i] == GatheredId(shards, local, k, final[i]);
      }
      LeftOutIsNoBetter(vocab, shards, local, final, k, g, j);
    }
  }

  /** The values handed on are, place by place, those of the top-k of the unsplit vocabulary. */
  lemma ShardedValuesAreGlobal(vocab: seq<real>, shards: seq<Shard>, local: seq<seq<nat>>, final: seq<nat>, k: nat,
                               direct: seq<nat>, j: nat)
    requires Split(vocab, shards) && LocalTopKs(shards, local, k) && k <= |vocab|
    requires FinalSelection(shards, local, final, k) && IsTopK(AsLogits(vocab), direct, k) && j < k
    ensures |final| == k && final[j] < |shards| * k && direct[j] < |vocab|
    ensures GatheredValue(shards, local, k, final[j]) == Fin(vocab[direct[j]])
  {
    ShardedIsGlobal(vocab, shards, local, final, k);
    FinalIsTopK(shards, local, final, k);
    TopKValuesUnique(AsLogits(vocab), CandidateIds(shards, local, final, k), direct, k, j);
  }
}
