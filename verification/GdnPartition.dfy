/** How a batch of speculative and other requests is taken apart by token: the stable sort that puts
    the other tokens first, and the cumulative offsets that cut each half into requests. */
module GdnPartition {
  import opened Sums

  /** The n consecutive numbers from a on. */
  function Range(a: nat, n: nat): (r: seq<nat>)
    ensures |r| == n && forall i | 0 <= i < n :: r[i] == a + i
  {
    seq(n, i requires 0 <= i < n => a + i)
  }

  /** The places, counted from offset, at which keys holds b. */
  function Places(keys: seq<bool>, b: bool, offset: nat): seq<nat> {
    if |keys| == 0 then []
    else (if keys[0] == b then [offset] else []) + Places(keys[1..], b, offset + 1)
  }

  /** The stable argsort of a sequence of flags, false before true. */
  function StableArgsort(keys: seq<bool>): seq<nat> {
    Places(keys, false, 0) + Places(keys, true, 0)
  }

  /** The elements whose flag is b. */
  function Select<T>(flags: seq<bool>, xs: seq<T>, b: bool): (r: seq<T>)
    requires |flags| == |xs|
    ensures |r| <= |xs|
  {
    if |flags| == 0 then []
    else (if flags[0] == b then [xs[0]] else []) + Select(flags[1..], xs[1..], b)
  }

  // ------------------------------------------------------------------------------------------
  // The sort is a stable sort
  // ------------------------------------------------------------------------------------------

  lemma {:induction false} PlacesExact(keys: seq<bool>, b: bool, offset: nat)
    ensures forall x | x in Places(keys, b, offset) :: offset <= x < offset + |keys| && keys[x - offset] == b
    ensures forall x | 0 <= x < |keys| && keys[x] == b :: offset + x in Places(keys, b, offset)
    decreases |keys|
  {
    if |keys| > 0 {
      PlacesExact(keys[1..], b, offset + 1);
      var rest := Places(keys[1..], b, offset + 1);
      forall x | 0 <= x < |keys| && keys[x] == b ensures offset + x in Places(keys, b, offset) {
        if x > 0 {
          assert keys[1..][x - 1] == b;
          assert offset + 1 + (x - 1) in rest;
        }
      }
    }
  }

  lemma {:induction false} PlacesIncrease(keys: seq<bool>, b: bool, offset: nat, i: nat, j: nat)
    requires i < j < |Places(keys, b, offset)|
    ensures Places(keys, b, offset)[i] < Places(keys, b, offset)[j]
    decreases |keys|
  {
    var rest := Places(keys[1..], b, offset + 1);
    PlacesExact(keys[1..], b, offset + 1);
    if keys[0] != b {
      PlacesIncrease(keys[1..], b, offset + 1, i, j);
    } else if i > 0 {
      PlacesIncrease(keys[1..], b, offset + 1, i - 1, j - 1);
    } else {
      assert rest[j - 1] in rest;
    }
  }

  /** Two positions in the order of the sort: equal flags keep their order, false precedes true. */
  predicate InOrder(keys: seq<bool>, x: nat, y: nat) {
    && x < |keys| && y < |keys| && x != y
    && (keys[x] == keys[y] ==> x < y)
    && (keys[x] ==> keys[y])
  }

  /** Every position occurs exactly once, positions of false precede those of true, and equal flags
      keep their order. */
  lemma ArgsortIsStablePermutation(keys: seq<bool>)
    ensures forall x | 0 <= x < |keys| :: x in StableArgsort(keys)
    ensures forall i, j | 0 <= i < j < |StableArgsort(keys)| ::
      InOrder(keys, StableArgsort(keys)[i], StableArgsort(keys)[j])
    ensures forall x | x in StableArgsort(keys) :: x < |keys|
  {
    PlacesExact(keys, false, 0);
    PlacesExact(keys, true, 0);
    var a, b := Places(keys, false, 0), Places(keys, true, 0);
    forall x | 0 <= x < |keys| ensures x in a + b {
      assert 0 + x in (if keys[x] then b else a);
    }
    forall i, j | 0 <= i < j < |a + b| ensures InOrder(keys, (a + b)[i], (a + b)[j]) {
      PairInOrder(keys, i, j);
    }
  }

  lemma PairInOrder(keys: seq<bool>, i: nat, j: nat)
    requires i < j < |StableArgsort(keys)|
    ensures InOrder(keys, StableArgsort(keys)[i], StableArgsort(keys)[j])
  {
    PlacesExact(keys, false, 0);
    PlacesExact(keys, true, 0);
    var a, b := Places(keys, false, 0), Places(keys, true, 0);
    if j < |a| {
      PlacesIncrease(keys, false, 0, i, j);
      assert a[i] in a && a[j] in a;
    } else if i >= |a| {
      PlacesIncrease(keys, true, 0, i - |a|, j - |a|);
      assert b[i - |a|] in b && b[j - |a|] in b;
    } else {
      assert a[i] in a && b[j - |a|] in b;
    }
  }

  // ------------------------------------------------------------------------------------------
  // Tokens of a class, request by request
  // ------------------------------------------------------------------------------------------

  /** The tokens of the requests flagged b, request after request; the batch starts at offset. */
  function ClassTokens(flags: seq<bool>, lens: seq<nat>, b: bool, offset: nat): seq<nat>
    requires |flags| == |lens|
  {
    if |flags| == 0 then []
    else (if flags[0] == b then Range(offset, lens[0]) else [])
         + ClassTokens(flags[1..], lens[1..], b, offset + lens[0])
  }

  lemma {:induction false} PlacesConcat(x: seq<bool>, y: seq<bool>, b: bool, offset: nat)
    ensures Places(x + y, b, offset) == Places(x, b, offset) + Places(y, b, offset + |x|)
    decreases |x|
  {
    if |x| == 0 {
      assert x + y == y;
    } else {
      assert (x + y)[1..] == x[1..] + y;
      PlacesConcat(x[1..], y, b, offset + 1);
    }
  }

  lemma {:induction false} PlacesOfRepeat(v: bool, n: nat, b: bool, offset: nat)
    ensures Places(Repeat(v, n), b, offset) == if v == b then Range(offset, n) else []
    decreases n
  {
    if n > 0 {
      var keys := Repeat(v, n);
      assert keys[0] == v && keys[1..] == Repeat(v, n - 1);
      PlacesOfRepeat(v, n - 1, b, offset + 1);
      if v == b {
        assert Range(offset, n) == [offset] + Range(offset + 1, n - 1);
      }
    }
  }

  /** The sorted token positions of a class are its requests' tokens, request after request. */
  lemma {:induction false} PlacesAreClassTokens(flags: seq<bool>, lens: seq<nat>, b: bool, offset: nat)
    requires |flags| == |lens|
    ensures Places(RepeatInterleave(flags, lens), b, offset) == ClassTokens(flags, lens, b, offset)
    decreases |flags|
  {
    if |flags| > 0 {
      PlacesConcat(Repeat(flags[0], lens[0]), RepeatInterleave(flags[1..], lens[1..]), b, offset);
      PlacesOfRepeat(flags[0], lens[0], b, offset);
      PlacesAreClassTokens(flags[1..], lens[1..], b, offset + lens[0]);
    }
  }

  lemma SumSelectStep(flags: seq<bool>, lens: seq<nat>, b: bool)
    requires |flags| == |lens| > 0
    ensures Sum(Select(flags, lens, b))
         == (if flags[0] == b then lens[0] else 0) + Sum(Select(flags[1..], lens[1..], b))
  {
    var rest := Select(flags[1..], lens[1..], b);
    if flags[0] == b {
      SumCons(lens[0], rest);
    } else {
      assert Select(flags, lens, b) == [] + rest == rest;
    }
  }

  lemma {:induction false} ClassTokensCount(flags: seq<bool>, lens: seq<nat>, b: bool, offset: nat)
    requires |flags| == |lens|
    ensures |ClassTokens(flags, lens, b, offset)| == Sum(Select(flags, lens, b))
    decreases |flags|
  {
    if |flags| > 0 {
      ClassTokensCount(flags[1..], lens[1..], b, offset + lens[0]);
      SumSelectStep(flags, lens, b);
      assert ClassTokens(flags, lens, b, offset)
          == (if flags[0] == b then Range(offset, lens[0]) else [])
             + ClassTokens(flags[1..], lens[1..], b, offset + lens[0]);
    }
  }

  lemma {:induction false} SelectConcat<T>(flags: seq<bool>, lens: seq<T>, flags': seq<bool>, lens': seq<T>, b: bool)
    requires |flags| == |lens| && |flags'| == |lens'|
    ensures Select(flags + flags', lens + lens', b) == Select(flags, lens, b) + Select(flags', lens', b)
    decreases |flags|
  {
    if |flags| == 0 {
      assert flags + flags' == flags' && lens + lens' == lens';
    } else {
      assert (flags + flags')[1..] == flags[1..] + flags' && (lens + lens')[1..] == lens[1..] + lens';
      var head := if flags[0] == b then [lens[0]] else [];
      calc {
        Select(flags + flags', lens + lens', b);
        head + Select(flags[1..] + flags', lens[1..] + lens', b);
        { SelectConcat(flags[1..], lens[1..], flags', lens', b); }
        head + (Select(flags[1..], lens[1..], b) + Select(flags', lens', b));
        Select(flags, lens, b) + Select(flags', lens', b);
      }
    }
  }

  lemma TailOfConcat<T>(s: seq<T>, t: seq<T>)
    requires |s| > 0
    ensures (s + t)[1..] == s[1..] + t && (s + t)[0] == s[0]
  {
  }

  /** A class's tokens from the first request on, given those of the rest. */
  lemma ClassTokensStep(flags: seq<bool>, lens: seq<nat>, b: bool, offset: nat, rest: seq<nat>)
    requires |flags| == |lens| > 0 && rest == ClassTokens(flags[1..], lens[1..], b, offset + lens[0])
    ensures ClassTokens(flags, lens, b, offset) == (if flags[0] == b then Range(offset, lens[0]) else []) + rest
  {
  }

  lemma {:induction false} ClassTokensConcat(flags: seq<bool>, lens: seq<nat>, flags': seq<bool>, lens': seq<nat>,
                                             b: bool, offset: nat)
    requires |flags| == |lens| && |flags'| == |lens'|
    ensures ClassTokens(flags + flags', lens + lens', b, offset)
         == ClassTokens(flags, lens, b, offset) + ClassTokens(flags', lens', b, offset + Sum(lens))
    decreases |flags|
  {
    if |flags| == 0 {
      assert flags + flags' == flags' && lens + lens' == lens';
    } else {
      var first := ClassTokens(flags[1..], lens[1..], b, offset + lens[0]);
      var second := ClassTokens(flags', lens', b, offset + Sum(lens));
      ClassTokensConcat(flags[1..], lens[1..], flags', lens', b, offset + lens[0]);
      TailOfConcat(flags, flags');
      TailOfConcat(lens, lens');
      ClassTokensStep(flags, lens, b, offset, first);
      ClassTokensStep(flags + flags', lens + lens', b, offset, first + second);
      AppendHead(if flags[0] == b then Range(offset, lens[0]) else [], first, second);
    }
  }

  /** How many requests before r are in the same class as r. */
  function Rank(flags: seq<bool>, r: nat): nat
    requires r < |flags|
  {
    |Select(flags[..r], flags[..r], flags[r])|
  }

  lemma {:induction false} SelectCount<T, U>(flags: seq<bool>, xs: seq<T>, ys: seq<U>, b: bool)
    requires |flags| == |xs| == |ys|
    ensures |Select(flags, xs, b)| == |Select(flags, ys, b)|
    decreases |flags|
  {
    if |flags| > 0 {
      SelectCount(flags[1..], xs[1..], ys[1..], b);
    }
  }

  /** The first of the requests is the first of its class. */
  lemma HeadSelected<T>(flags: seq<bool>, xs: seq<T>)
    requires |flags| == |xs| > 0
    ensures |Select(flags, xs, flags[0])| > 0 && Select(flags, xs, flags[0])[0] == xs[0]
  {
  }

  /** The front of a class ends where its request at hand stands. */
  lemma FrontOfClass(before: seq<nat>, rest: seq<nat>)
    requires |rest| > 0
    ensures var sel, j := before + rest, |before|;
            && j + 1 < |Offsets(sel)|
            && Offsets(sel)[j] == Sum(before) && Offsets(sel)[j + 1] == Sum(before) + rest[0]
  {
    var sel, j := before + rest, |before|;
    assert sel[..j] == before && sel[j] == rest[0];
    OffsetStep(sel, j);
  }

  /** A class's tokens, split at one of its requests. */
  lemma SplitTokens(front: seq<bool>, frontLens: seq<nat>, tail: seq<bool>, tailLens: seq<nat>)
    requires |front| == |frontLens| && |tail| == |tailLens| > 0
    ensures ClassTokens(front + tail, frontLens + tailLens, tail[0], 0)
         == ClassTokens(front, frontLens, tail[0], 0) + Range(Sum(frontLens), tailLens[0])
            + ClassTokens(tail[1..], tailLens[1..], tail[0], Sum(frontLens) + tailLens[0])
  {
    ClassTokensConcat(front, frontLens, tail, tailLens, tail[0], 0);
    HeadOfClass(tail, tailLens, Sum(frontLens));
    AppendHead(ClassTokens(front, frontLens, tail[0], 0), Range(Sum(frontLens), tailLens[0]),
               ClassTokens(tail[1..], tailLens[1..], tail[0], Sum(frontLens) + tailLens[0]));
  }

  lemma HeadOfClass(flags: seq<bool>, lens: seq<nat>, offset: nat)
    requires |flags| == |lens| > 0
    ensures ClassTokens(flags, lens, flags[0], offset)
         == Range(offset, lens[0]) + ClassTokens(flags[1..], lens[1..], flags[0], offset + lens[0])
  {
  }

  lemma AppendHead<T>(a: seq<T>, m: seq<T>, c: seq<T>)
    ensures a + (m + c) == a + m + c
  {
  }

  lemma {:induction false} SumSplits(flags: seq<bool>, lens: seq<nat>)
    requires |flags| == |lens|
    ensures Sum(Select(flags, lens, true)) + Sum(Select(flags, lens, false)) == Sum(lens)
    decreases |flags|
  {
    if |flags| > 0 {
      SumSplits(flags[1..], lens[1..]);
      SumSelectStep(flags, lens, true);
      SumSelectStep(flags, lens, false);
    }
  }

  // ------------------------------------------------------------------------------------------
  // The main results
  // ------------------------------------------------------------------------------------------

  /** The two index sequences of a mixed batch: the first is cut off the sorted positions after the
      number of tokens that are not speculative. */
  function TokenIndices(flags: seq<bool>, lens: seq<nat>): (r: (seq<nat>, seq<nat>))
    requires |flags| == |lens|
  {
    var index := StableArgsort(RepeatInterleave(flags, lens));
    var n := Sum(Select(flags, lens, false));
    if n <= |index| then (index[..n], index[n..]) else (index, [])
  }

  lemma TokenIndicesAreClasses(flags: seq<bool>, lens: seq<nat>)
    requires |flags| == |lens|
    ensures TokenIndices(flags, lens) == (ClassTokens(flags, lens, false, 0), ClassTokens(flags, lens, true, 0))
  {
    PlacesAreClassTokens(flags, lens, false, 0);
    PlacesAreClassTokens(flags, lens, true, 0);
    ClassTokensCount(flags, lens, false, 0);
    var a, b := ClassTokens(flags, lens, false, 0), ClassTokens(flags, lens, true, 0);
    assert (a + b)[..|a|] == a && (a + b)[|a|..] == b;
  }

  /** In a mixed batch the two index sequences together list every token once, in increasing order
      within each class. */
  lemma MixedBatchIsPartitioned(flags: seq<bool>, lens: seq<nat>)
    requires |flags| == |lens|
    ensures var (others, spec) := TokenIndices(flags, lens);
            && |others| + |spec| == Sum(lens)
            && (forall x | 0 <= x < Sum(lens) :: x in others + spec)
            && (forall i, j | 0 <= i < j < |others + spec| ::
                  InOrder(RepeatInterleave(flags, lens), (others + spec)[i], (others + spec)[j]))
            && (forall x | x in others :: x < Sum(lens) && !RepeatInterleave(flags, lens)[x])
            && (forall x | x in spec :: x < Sum(lens) && RepeatInterleave(flags, lens)[x])
  {
    var keys := RepeatInterleave(flags, lens);
    TokenIndicesAreClasses(flags, lens);
    PlacesAreClassTokens(flags, lens, false, 0);
    PlacesAreClassTokens(flags, lens, true, 0);
    ArgsortIsStablePermutation(keys);
    PlacesExact(keys, false, 0);
    PlacesExact(keys, true, 0);
    ClassTokensCount(flags, lens, false, 0);
    ClassTokensCount(flags, lens, true, 0);
    SumSplits(flags, lens);
  }

  /** Request r's class's offsets, at r's rank in the class, cut these tokens out of the class's index
      sequence. */
  predicate CutIs(flags: seq<bool>, lens: seq<nat>, r: nat, run: seq<nat>)
    requires r < |flags| == |lens|
  {
    var cuts, j := Offsets(Select(flags, lens, flags[r])), Rank(flags, r);
    var tokens := if flags[r] then TokenIndices(flags, lens).1 else TokenIndices(flags, lens).0;
    && j + 1 < |cuts|
    && cuts[j] <= cuts[j + 1] <= |tokens|
    && tokens[cuts[j]..cuts[j + 1]] == run
  }

  /** Every request, cut out of its class's index sequence by that class's cumulative offsets at its
      rank in the class, is its original run of tokens. */
  lemma {:induction false} CutGivesRequest(flags: seq<bool>, lens: seq<nat>, r: nat)
    requires r < |flags| == |lens|
    ensures CutIs(flags, lens, r, Range(Sum(lens[..r]), lens[r]))
  {
    RequestOffsets(flags, lens, r);
    RequestTokens(flags, lens, r);
    TokenIndicesAreClasses(flags, lens);
  }

  /** Where a class's offsets cut off its request. */
  lemma {:induction false} RequestOffsets(flags: seq<bool>, lens: seq<nat>, r: nat)
    requires r < |flags| == |lens|
    ensures var cuts, j := Offsets(Select(flags, lens, flags[r])), Rank(flags, r);
            && j + 1 < |cuts| && cuts[j + 1] == cuts[j] + lens[r]
            && cuts[j] == Sum(Select(flags[..r], lens[..r], flags[r]))
  {
    var front, frontLens, tail, tailLens := flags[..r], lens[..r], flags[r..], lens[r..];
    assert flags == front + tail && lens == frontLens + tailLens;
    SelectCount(front, front, frontLens, flags[r]);
    SelectConcat(front, frontLens, tail, tailLens, flags[r]);
    HeadSelected(tail, tailLens);
    FrontOfClass(Select(front, frontLens, flags[r]), Select(tail, tailLens, flags[r]));
  }

  /** What lies there. */
  lemma {:induction false} RequestTokens(flags: seq<bool>, lens: seq<nat>, r: nat)
    requires r < |flags| == |lens|
    ensures var tokens, start := ClassTokens(flags, lens, flags[r], 0), Sum(Select(flags[..r], lens[..r], flags[r]));
            start + lens[r] <= |tokens| && tokens[start..start + lens[r]] == Range(Sum(lens[..r]), lens[r])
  {
    var front, frontLens, tail, tailLens := flags[..r], lens[..r], flags[r..], lens[r..];
    assert flags == front + tail && lens == frontLens + tailLens;
    SplitTokens(front, frontLens, tail, tailLens);
    ClassTokensCount(front, frontLens, flags[r], 0);
    CutMiddle(ClassTokens(front, frontLens, flags[r], 0), Range(Sum(frontLens), lens[r]),
              ClassTokens(tail[1..], tailLens[1..], flags[r], Sum(frontLens) + lens[r]));
  }

  lemma CutMiddle(a: seq<nat>, m: seq<nat>, c: seq<nat>)
    ensures (a + m + c)[|a|..|a| + |m|] == m
  {
  }

  // ------------------------------------------------------------------------------------------
  // Counting and the shortcut without other requests
  // ------------------------------------------------------------------------------------------

  datatype Counts = Counts(prefills: nat, prefillTokens: nat, decodes: nat, decodeTokens: nat,
                           spec: nat, specTokens: int)

  function CountEqual(lens: seq<nat>, n: nat): (c: nat)
    ensures c <= |lens|
  {
    if |lens| == 0 then 0 else (if lens[0] == n then 1 else 0) + CountEqual(lens[1..], n)
  }

  lemma {:induction false} OnesAndZeros(lens: seq<nat>)
    ensures CountEqual(lens, 1) + CountEqual(lens, 0) <= |lens|
    ensures CountEqual(lens, 1) <= Sum(lens)
    ensures CountEqual(lens, 0) == |lens| <==> Sum(lens) == 0
    decreases |lens|
  {
    if |lens| > 0 { OnesAndZeros(lens[1..]); }
  }

  /** The classification of a batch with speculative requests: zero-length requests are padding, and
      one-token requests become prefills. */
  function Classify(flags: seq<bool>, lens: seq<nat>): Counts
    requires |flags| == |lens|
  {
    var others := Select(flags, lens, false);
    OnesAndZeros(others);
    var spec := |Select(flags, flags, true)|;
    var decodes := CountEqual(others, 1);
    var prefills := |others| - decodes - CountEqual(others, 0);
    var prefillTokens := Sum(others) - decodes;
    var specTokens := Sum(lens) - prefillTokens - decodes;
    if decodes > 0 && spec > 0 then Counts(prefills + decodes, prefillTokens + decodes, 0, 0, spec, specTokens)
    else Counts(prefills, prefillTokens, decodes, decodes, spec, specTokens)
  }

  /** The three token counts are those of the two classes and add up to the whole batch; decodes and
      speculative decodes exclude each other. */
  lemma CountsAddUp(flags: seq<bool>, lens: seq<nat>)
    requires |flags| == |lens|
    ensures var c := Classify(flags, lens);
            && c.prefillTokens + c.decodeTokens + c.specTokens == Sum(lens)
            && c.prefillTokens + c.decodeTokens == |TokenIndices(flags, lens).0|
            && c.specTokens == |TokenIndices(flags, lens).1| == Sum(Select(flags, lens, true))
            && !(c.decodes > 0 && c.spec > 0)
            && (c.prefills == 0 && c.decodes == 0 <==> Sum(Select(flags, lens, false)) == 0)
  {
    var others := Select(flags, lens, false);
    OnesAndZeros(others);
    SumSplits(flags, lens);
    TokenIndicesAreClasses(flags, lens);
    ClassTokensCount(flags, lens, false, 0);
    ClassTokensCount(flags, lens, true, 0);
  }

  /** The requests of one class with a given number of tokens. */
  function OfLength(flags: seq<bool>, lens: seq<nat>, b: bool, v: nat, k: nat): set<nat>
    requires k <= |flags| == |lens|
  {
    set r: nat | r < k && flags[r] == b && lens[r] == v
  }

  lemma {:induction false} CountEqualConcat(s: seq<nat>, t: seq<nat>, v: nat)
    ensures CountEqual(s + t, v) == CountEqual(s, v) + CountEqual(t, v)
    decreases |s|
  {
    if |s| == 0 {
      assert s + t == t;
    } else {
      assert (s + t)[1..] == s[1..] + t;
      CountEqualConcat(s[1..], t, v);
    }
  }

  lemma {:induction false} SelectStep<T>(flags: seq<bool>, xs: seq<T>, b: bool, k: nat)
    requires k < |flags| == |xs|
    ensures Select(flags[..k + 1], xs[..k + 1], b)
         == Select(flags[..k], xs[..k], b) + if flags[k] == b then [xs[k]] else []
  {
    assert flags[..k + 1] == flags[..k] + [flags[k]] && xs[..k + 1] == xs[..k] + [xs[k]];
    SelectConcat(flags[..k], xs[..k], [flags[k]], [xs[k]], b);
  }

  lemma {:induction false} CountsOfLength(flags: seq<bool>, lens: seq<nat>, b: bool, v: nat, k: nat)
    requires k <= |flags| == |lens|
    ensures CountEqual(Select(flags[..k], lens[..k], b), v) == |OfLength(flags, lens, b, v, k)|
    decreases k
  {
    if k == 0 {
      assert OfLength(flags, lens, b, v, 0) == {};
    } else {
      CountsOfLength(flags, lens, b, v, k - 1);
      SelectStep(flags, lens, b, k - 1);
      var rest := if flags[k - 1] == b then [lens[k - 1]] else [];
      CountEqualConcat(Select(flags[..k - 1], lens[..k - 1], b), rest, v);
      OneMoreOfLength(flags, lens, b, v, k);
    }
  }

  lemma {:induction false} OneMoreOfLength(flags: seq<bool>, lens: seq<nat>, b: bool, v: nat, k: nat)
    requires 0 < k <= |flags| == |lens|
    ensures |OfLength(flags, lens, b, v, k)|
         == |OfLength(flags, lens, b, v, k - 1)| + if flags[k - 1] == b && lens[k - 1] == v then 1 else 0
  {
    var more := if flags[k - 1] == b && lens[k - 1] == v then {k - 1} else {};
    assert OfLength(flags, lens, b, v, k) == OfLength(flags, lens, b, v, k - 1) + more;
  }

  /** Requests of the other class without tokens count nowhere; those with one token are decodes, unless there
      are speculative requests; all others are prefills. */
  lemma {:induction false} ClassifiesByLength(flags: seq<bool>, lens: seq<nat>)
    requires |flags| == |lens|
    ensures var c, n := Classify(flags, lens), |flags|;
            && c.spec == |Select(flags, flags, true)|
            && c.prefills + c.decodes + |OfLength(flags, lens, false, 0, n)| == |Select(flags, lens, false)|
            && c.decodes == (if c.spec > 0 then 0 else |OfLength(flags, lens, false, 1, n)|)
            && c.decodeTokens == c.decodes
  {
    CountsOfLength(flags, lens, false, 0, |flags|);
    CountsOfLength(flags, lens, false, 1, |flags|);
    assert flags[..|flags|] == flags && lens[..|lens|] == lens;
  }

  lemma {:induction false} ConsecutiveWhenAlone(flags: seq<bool>, lens: seq<nat>, offset: nat)
    requires |flags| == |lens| && Sum(Select(flags, lens, false)) == 0
    ensures ClassTokens(flags, lens, true, offset) == Range(offset, Sum(lens))
    decreases |flags|
  {
    if |flags| > 0 {
      SumSelectStep(flags, lens, false);
      ConsecutiveWhenAlone(flags[1..], lens[1..], offset + lens[0]);
      var rest := ClassTokens(flags[1..], lens[1..], true, offset + lens[0]);
      assert ClassTokens(flags, lens, true, offset) == (if flags[0] then Range(offset, lens[0]) else []) + rest;
      assert Range(offset, Sum(lens)) == Range(offset, lens[0]) + Range(offset + lens[0], Sum(lens[1..]));
    }
  }

  /** Without other tokens, counting up replaces the sort: the shortcut yields the same index
      sequence exactly when its size limit does not cut the batch short. */
  lemma ShortcutMatchesSortIff(flags: seq<bool>, lens: seq<nat>, width: nat)
    requires |flags| == |lens| && Sum(Select(flags, lens, false)) == 0
    ensures var limit := |Select(flags, flags, true)| * width;
            Range(0, if limit < Sum(lens) then limit else Sum(lens)) == TokenIndices(flags, lens).1
            <==> Sum(lens) <= limit
  {
    TokenIndicesAreClasses(flags, lens);
    ConsecutiveWhenAlone(flags, lens, 0);
  }

  /** With the padding at the back, the first entries of the batch's own offsets are the offsets of
      the speculative requests. */
  lemma {:induction false} FrontOffsetsSuffice(flags: seq<bool>, lens: seq<nat>, j: nat)
    requires |flags| == |lens|
    requires forall i, k | 0 <= i < k < |flags| && flags[k] :: flags[i]
    requires j <= |Select(flags, lens, true)|
    ensures j <= |lens| && Select(flags, lens, true)[..j] == lens[..j]
    ensures Offsets(lens)[j] == Offsets(Select(flags, lens, true))[j]
    decreases |flags|
  {
    if |flags| > 0 && j > 0 {
      if !flags[0] {
        NoneSelected(flags, lens);
        assert false;
      } else {
        FrontOffsetsSuffice(flags[1..], lens[1..], j - 1);
        assert Select(flags, lens, true)[..j] == [lens[0]] + Select(flags[1..], lens[1..], true)[..j - 1];
        assert lens[..j] == [lens[0]] + lens[1..][..j - 1];
      }
    }
  }

  lemma {:induction false} NoneSelected(flags: seq<bool>, lens: seq<nat>)
    requires |flags| == |lens| && forall i | 0 <= i < |flags| :: !flags[i]
    ensures Select(flags, lens, true) == []
    decreases |flags|
  {
    if |flags| > 0 { NoneSelected(flags[1..], lens[1..]); }
  }
}
