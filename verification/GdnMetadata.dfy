/** The metadata builder for gated delta-net attention: the general construction, which stages a
    speculative batch in persistent buffers for graph replay, and the fast path for one uniform
    speculative request. */
module GdnMetadata {
  import opened Options
  import opened Sums
  import opened GdnPartition
  import Arithmetic

  datatype Mode = All | Nothing | Align

  datatype Params = Params(
    numSpec: nat,          // draft tokens per request
    maxBatch: nat,         // largest batch the buffers are made for
    fullGraph: bool,
    mode: Mode,
    blockSize: nat,
    numSpecBlocks: nat,
    contextParallel: nat,
    nullBlock: int)

  /** What is known of a batch; the query starts exist on the device and, as a copy, on the host. */
  datatype Batch = Batch(
    table: seq<seq<int>>,
    seqLens: seq<int>,
    starts: seq<nat>,
    hostStarts: seq<nat>,
    actualTokens: nat,
    maxQueryLen: nat,
    maxSeqLen: int,
    placed: bool)          // every tensor is on the device and has the layout the kernel reads

  datatype Metadata = Metadata(
    counts: Counts,
    actualTokens: nat,
    specOffsets: seq<int>,
    specState: seq<seq<int>>,
    specMasks: seq<bool>,
    specTokens: seq<int>,
    otherTokens: seq<int>,
    accepted: seq<int>,
    otherOffsets: Option<seq<int>>,
    otherState: Option<seq<int>>)

  /** NoSpeculation: the batch is split into decodes and prefills elsewhere. */
  datatype Outcome = Built(metadata: Metadata) | NoSpeculation | AcceptedMissing

  // ------------------------------------------------------------------------------------------
  // Integer division and the align-mode gather
  // ------------------------------------------------------------------------------------------

  /** Division in tensor code on the host rounds down. */
  function FloorDiv(x: int, n: nat): int
    requires n > 0
  {
    x / n
  }

  /** Division in the kernel rounds toward zero. */
  function TruncDiv(x: int, n: nat): int
    requires n > 0
  {
    if x >= 0 then x / n else -((-x) / n)
  }

  function Max(a: int, b: int): int { if a < b then b else a }

  function Min(a: int, b: int): int { if a < b then a else b }

  /** The two divisions by their remainders: one rounds down, the other toward zero. */
  lemma Roundings(x: int, n: nat)
    requires n > 0
    ensures FloorDiv(x, n) * n <= x < FloorDiv(x, n) * n + n
    ensures if x >= 0 then TruncDiv(x, n) * n <= x < TruncDiv(x, n) * n + n
            else TruncDiv(x, n) * n - n < x <= TruncDiv(x, n) * n
  {
    assert (-((-x) / n)) * n == -(((-x) / n) * n);
  }

  lemma StartsAgree(length: int, n: nat)
    requires n > 0
    ensures Max(TruncDiv(length - 1, n), 0) == Max(FloorDiv(length - 1, n), 0)
  {
  }

  /** The column of a block-table row at which a request's state begins. */
  function Start(p: Params, length: int): int
    requires p.blockSize > 0
  {
    if p.mode == Align then Max(FloorDiv(length - 1, p.blockSize), 0) else 0
  }

  /** Column c is where the state of a request of this length lies: in align mode the block that holds the
      request's last position, otherwise, and for a request without any position, the first. */
  predicate HoldsLast(p: Params, length: int, c: nat) {
    if p.mode == Align && length >= 1 then c * p.blockSize <= length - 1 < (c + 1) * p.blockSize else c == 0
  }

  lemma StartHoldsLast(p: Params, length: int)
    requires p.blockSize > 0
    ensures Start(p, length) >= 0 && HoldsLast(p, length, Start(p, length))
  {
    var n, q := p.blockSize, (length - 1) / p.blockSize;
    assert (q + 1) * n == q * n + n;
    if length >= 1 {
      assert q >= 0;
    } else if q > 0 {
      Arithmetic.MulAtLeast(q, n);
    }
  }

  /** The table row's blocks from the one that holds the last position on, one for the request and one for
      each draft token. */
  ghost predicate RowFromLast(p: Params, row: seq<int>, length: int, r: seq<int>) {
    exists c: nat | c + p.numSpec + 1 <= |row| :: HoldsLast(p, length, c) && r == row[c..c + p.numSpec + 1]
  }

  ghost predicate LastBlock(p: Params, row: seq<int>, length: int, block: int) {
    exists c: nat | c < |row| :: HoldsLast(p, length, c) && block == row[c]
  }

  lemma StateRowIsFromLast(p: Params, row: seq<int>, length: int)
    requires p.blockSize > 0 && Fits(p, row, length)
    ensures RowFromLast(p, row, length, StateRow(p, row, length))
    ensures LastBlock(p, row, length, row[Start(p, length)])
  {
    StartHoldsLast(p, length);
    assert HoldsLast(p, length, Start(p, length)) && Start(p, length) + p.numSpec + 1 <= |row|;
  }

  ghost predicate Fits(p: Params, row: seq<int>, length: int)
    requires p.blockSize > 0
  {
    Start(p, length) + p.numSpec + 1 <= |row|
  }

  function StateRow(p: Params, row: seq<int>, length: int): (r: seq<int>)
    requires p.blockSize > 0 && Fits(p, row, length)
    ensures |r| == p.numSpec + 1
  {
    row[Start(p, length)..Start(p, length) + p.numSpec + 1]
  }

  /** A request no longer than the longest of the batch is looked up inside its table row. */
  lemma LookupInBounds(p: Params, row: seq<int>, length: int, maxLength: int)
    requires p.blockSize > 0 && length <= maxLength
    requires |row| >= p.numSpec + 1
    requires p.mode == Align ==> Max(FloorDiv(maxLength - 1, p.blockSize), 0) + p.numSpec + 1 <= |row|
    ensures Fits(p, row, length)
  {
    var n, a, b := p.blockSize, (length - 1) / p.blockSize, (maxLength - 1) / p.blockSize;
    assert n * (b + 1) == n * b + n;
    if b < a {
      Arithmetic.MulMonotone(n, b + 1, a);
    }
  }

  // ------------------------------------------------------------------------------------------
  // What a batch's metadata is
  // ------------------------------------------------------------------------------------------

  function DraftTotal(drafts: seq<int>): nat {
    if |drafts| == 0 then 0 else (if drafts[0] >= 0 then drafts[0] else 0) + DraftTotal(drafts[1..])
  }

  function Flags(drafts: seq<int>): (r: seq<bool>)
    ensures |r| == |drafts| && forall i | 0 <= i < |drafts| :: r[i] <==> drafts[i] >= 0
  {
    seq(|drafts|, i requires 0 <= i < |drafts| => drafts[i] >= 0)
  }

  function Lens(starts: seq<nat>): (r: seq<nat>)
    requires |starts| > 0 && forall i | 0 <= i < |starts| - 1 :: starts[i] <= starts[i + 1]
    ensures |r| == |starts| - 1 && forall i | 0 <= i < |r| :: r[i] == starts[i + 1] - starts[i]
  {
    seq(|starts| - 1, i requires 0 <= i < |starts| - 1 => starts[i + 1] - starts[i])
  }

  /** Every lookup of state rows is inside the block table. */
  ghost predicate AllFit(p: Params, b: Batch) {
    p.blockSize > 0 && |b.table| == |b.seqLens| && forall i | 0 <= i < |b.table| :: Fits(p, b.table[i], b.seqLens[i])
  }

  /** The shapes of the tensors belong together, and state rows are there where they are needed. */
  ghost predicate WellFormed(p: Params, b: Batch, drafts: Option<seq<int>>, accepted: Option<seq<int>>) {
    && p.blockSize > 0
    && |b.starts| > 0 && b.starts[0] == 0 && b.starts == b.hostStarts
    && (forall i | 0 <= i < |b.starts| - 1 :: b.starts[i] <= b.starts[i + 1])
    && |b.table| == |b.seqLens| == |b.starts| - 1
    && (drafts.Some? ==> |drafts.value| == |b.table|)
    && (accepted.Some? ==> |accepted.value| == |b.table|)
    && (Speculates(p, drafts) ==> AllFit(p, b))
  }

  function StateRows(p: Params, table: seq<seq<int>>, seqLens: seq<int>): (r: seq<seq<int>>)
    requires p.blockSize > 0 && |table| == |seqLens|
    requires forall i | 0 <= i < |table| :: Fits(p, table[i], seqLens[i])
    ensures |r| == |table| && forall i | 0 <= i < |table| :: r[i] == StateRow(p, table[i], seqLens[i])
  {
    seq(|table|, i requires 0 <= i < |table| => StateRow(p, table[i], seqLens[i]))
  }

  /** s, continued with v up to length n. */
  function PadTo<T>(s: seq<T>, n: nat, v: T): (r: seq<T>)
    requires |s| <= n
    ensures |r| == n && r[..|s|] == s && forall i | |s| <= i < n :: r[i] == v
  {
    s + seq(n - |s|, _ => v)
  }

  /** The speculative requests' rows, offsets and accepted counts of a batch. */
  datatype Parts = Parts(counts: Counts, flags: seq<bool>, state: seq<seq<int>>, accepted: seq<int>)

  function PartsOf(p: Params, b: Batch, drafts: seq<int>, accepted: seq<int>): (r: Parts)
    requires WellFormed(p, b, Some(drafts), Some(accepted)) && AllFit(p, b)
    ensures r.counts.spec == |r.state| == |r.accepted| <= |b.table|
    ensures forall i | 0 <= i < |r.state| :: |r.state[i]| == p.numSpec + 1
  {
    var flags := Flags(drafts);
    var rows := StateRows(p, b.table, b.seqLens);
    SelectCount(flags, flags, rows, true);
    SelectCount(flags, flags, accepted, true);
    SelectedFrom(flags, rows, true);
    assert forall i | 0 <= i < |Select(flags, rows, true)| :: Select(flags, rows, true)[i] in rows;
    Parts(Classify(flags, Lens(b.starts)), flags, Select(flags, rows, true), Select(flags, accepted, true))
  }

  lemma {:induction false} SelectedFrom<T>(flags: seq<bool>, xs: seq<T>, b: bool)
    requires |flags| == |xs|
    ensures forall x | x in Select(flags, xs, b) :: x in xs
    decreases |flags|
  {
    if |flags| > 0 {
      SelectedFrom(flags[1..], xs[1..], b);
      forall x | x in Select(flags, xs, b) ensures x in xs {
        assert x == xs[0] || x in Select(flags[1..], xs[1..], b);
      }
    }
  }

  predicate Staged(p: Params, c: Counts) {
    p.fullGraph && c.spec <= p.maxBatch && c.specTokens <= p.maxBatch
  }

  /** The metadata of a batch of speculative requests only, as graph replay needs it: one entry for
      each request the buffers can show, those without drafts being padding. */
  function StagedMetadata(p: Params, b: Batch, q: Parts): Metadata
    requires q.counts.spec == |q.state| == |q.accepted| <= |b.table| <= |q.flags|
    requires |b.starts| == |b.table| + 1 && Staged(p, q.counts)
  {
    var n, c := Min(|b.table|, p.maxBatch), q.counts.spec;
    Metadata(q.counts, b.actualTokens,
             PadTo(b.starts[..c + 1], n + 1, b.starts[c]),
             PadTo(q.state, n, seq(p.numSpec + 1, _ => p.nullBlock)),
             PadTo(q.flags[..c], n, false),
             Range(0, Min(c * (p.numSpec + 1), b.starts[|b.table|])),
             [],
             PadTo(q.accepted, n, 1),
             None, None)
  }

  /** The metadata of a batch of speculative requests only, without a graph. */
  function EagerMetadata(p: Params, b: Batch, q: Parts): Metadata
    requires q.counts.spec <= |b.table| && |b.starts| == |b.table| + 1
  {
    Metadata(q.counts, b.actualTokens, b.starts[..q.counts.spec + 1], q.state, q.flags,
             Range(0, Min(q.counts.spec * (p.numSpec + 1), b.starts[|b.table|])), [], q.accepted, None, None)
  }

  function FirstBlocks(p: Params, b: Batch): (r: seq<int>)
    requires AllFit(p, b)
    ensures |r| == |b.table| && forall i | 0 <= i < |r| :: r[i] == b.table[i][Start(p, b.seqLens[i])]
  {
    seq(|b.table|, i requires 0 <= i < |b.table| => StateRow(p, b.table[i], b.seqLens[i])[0])
  }

  /** The metadata of a mixed batch: the two classes, each with its requests' tokens one request after
      the other. */
  function MixedMetadata(p: Params, b: Batch, drafts: seq<int>, q: Parts): Metadata
    requires WellFormed(p, b, Some(drafts), None) && AllFit(p, b) && q.flags == Flags(drafts)
  {
    var lens := Lens(b.starts);
    Metadata(q.counts, b.actualTokens, Offsets(Select(q.flags, lens, true)), q.state, q.flags,
             ClassTokens(q.flags, lens, true, 0), ClassTokens(q.flags, lens, false, 0), q.accepted,
             Some(Offsets(Select(q.flags, lens, false))), Some(Select(q.flags, FirstBlocks(p, b), false)))
  }

  predicate Speculates(p: Params, drafts: Option<seq<int>>) {
    p.numSpec > 0 && drafts.Some? && DraftTotal(drafts.value) > 0
  }

  /** The metadata is built for speculation exactly if some request has drafted a token. */
  lemma SpeculatesIff(p: Params, drafts: Option<seq<int>>)
    ensures Speculates(p, drafts) <==>
              p.numSpec > 0 && drafts.Some? && exists i :: 0 <= i < |drafts.value| && drafts.value[i] > 0
  {
    if drafts.Some? { DraftsAddUp(drafts.value); }
  }

  lemma {:induction false} DraftsAddUp(drafts: seq<int>)
    ensures DraftTotal(drafts) > 0 <==> exists i :: 0 <= i < |drafts| && drafts[i] > 0
    decreases |drafts|
  {
    if |drafts| > 0 {
      DraftsAddUp(drafts[1..]);
      assert forall i | 1 <= i < |drafts| :: drafts[i] == drafts[1..][i - 1];
      assert forall i | 0 <= i < |drafts| - 1 :: drafts[1..][i] == drafts[i + 1];
    }
  }

  /** What the general construction returns. */
  function General(p: Params, b: Batch, drafts: Option<seq<int>>, accepted: Option<seq<int>>): Outcome
    requires WellFormed(p, b, drafts, accepted)
  {
    if !Speculates(p, drafts) then NoSpeculation
    else if accepted.None? then AcceptedMissing
    else
      var q := PartsOf(p, b, drafts.value, accepted.value);
      if q.counts.prefills > 0 || q.counts.decodes > 0 then Built(MixedMetadata(p, b, drafts.value, q))
      else if Staged(p, q.counts) then Built(StagedMetadata(p, b, q))
      else Built(EagerMetadata(p, b, q))
  }

  /** Which batches get metadata, and what it says whatever the batch: the counts of the classification, the
      number of tokens, and other requests exactly if there are any with tokens. */
  lemma OutcomeIff(p: Params, b: Batch, drafts: Option<seq<int>>, accepted: Option<seq<int>>)
    requires WellFormed(p, b, drafts, accepted)
    ensures var r := General(p, b, drafts, accepted);
            var drafted := p.numSpec > 0 && drafts.Some? && exists i :: 0 <= i < |drafts.value| && drafts.value[i] > 0;
            && (r.NoSpeculation? <==> !drafted)
            && (r.AcceptedMissing? <==> drafted && accepted.None?)
            && (r.Built? ==>
                  var m, flags := r.metadata, Flags(drafts.value);
                  && m.counts == Classify(flags, Lens(b.starts)) && m.actualTokens == b.actualTokens
                  && (m.otherOffsets.Some? <==> Sum(Select(flags, Lens(b.starts), false)) > 0)
                  && (m.otherState.Some? <==> m.otherOffsets.Some?) && (m.otherOffsets.None? ==> m.otherTokens == []))
  {
    SpeculatesIff(p, drafts);
    if Speculates(p, drafts) { CountsAddUp(Flags(drafts.value), Lens(b.starts)); }
  }

  // ------------------------------------------------------------------------------------------
  // The builder
  // ------------------------------------------------------------------------------------------

  /** The first n rows of a matrix. */
  function Rows(a: array2<int>, n: nat): (r: seq<seq<int>>)
    requires n <= a.Length0
    reads a
    ensures |r| == n
    ensures forall i | 0 <= i < n :: |r[i]| == a.Length1 && forall j | 0 <= j < a.Length1 :: r[i][j] == a[i, j]
  {
    seq(n, i requires 0 <= i < n reads a => seq(a.Length1, j requires 0 <= j < a.Length1 reads a => a[i, j]))
  }

  method CopyThenFill<T>(a: array<T>, s: seq<T>, n: nat, v: T)
    requires |s| <= n <= a.Length
    modifies a
    ensures a[..n] == PadTo(s, n, v)
    ensures a[n..] == old(a[n..])
  {
    forall i | 0 <= i < |s| { a[i] := s[i]; }
    forall i | |s| <= i < n { a[i] := v; }
  }

  method CopyRowsThenFill(a: array2<int>, rows: seq<seq<int>>, n: nat, v: int)
    requires |rows| <= n <= a.Length0
    requires forall i | 0 <= i < |rows| :: |rows[i]| == a.Length1
    modifies a
    ensures Rows(a, n) == PadTo(rows, n, seq(a.Length1, _ => v))
    ensures forall i, j | n <= i < a.Length0 && 0 <= j < a.Length1 :: a[i, j] == old(a[i, j])
  {
    forall i, j | 0 <= i < |rows| && 0 <= j < a.Length1 { a[i, j] := rows[i][j]; }
    forall i, j | |rows| <= i < n && 0 <= j < a.Length1 { a[i, j] := v; }
    var filled := PadTo(rows, n, seq(a.Length1, _ => v));
    forall i | 0 <= i < n ensures Rows(a, n)[i] == filled[i] {
      assert i < |rows| ==> filled[i] == filled[..|rows|][i];
    }
  }

  class Builder {
    const p: Params
    const state: array2<int>
    const masks: array<bool>
    const tokens: array<int>
    const others: array<int>
    const offsets: array<int>
    const accepted: array<int>

    /** The buffers have the sizes the constructor gave them and do not overlap. */
    ghost predicate Valid() {
      && state.Length0 == p.maxBatch && state.Length1 == p.numSpec + 1
      && masks.Length == p.maxBatch && accepted.Length == p.maxBatch
      && offsets.Length == p.maxBatch + 1
      && tokens.Length == others.Length == p.maxBatch * (p.numSpec + 1)
      && tokens != others && tokens != offsets && tokens != accepted
      && others != offsets && others != accepted && offsets != accepted
    }

    /** The buffers' entries that a metadata record shows are the record's. */
    ghost predicate Shows(m: Metadata)
      requires Valid()
      reads state, masks, tokens, others, offsets, accepted
    {
      && |m.specState| <= p.maxBatch && Rows(state, |m.specState|) == m.specState
      && |m.specMasks| <= p.maxBatch && masks[..|m.specMasks|] == m.specMasks
      && |m.specTokens| <= tokens.Length && tokens[..|m.specTokens|] == m.specTokens
      && |m.otherTokens| <= others.Length && others[..|m.otherTokens|] == m.otherTokens
      && |m.specOffsets| <= p.maxBatch + 1 && offsets[..|m.specOffsets|] == m.specOffsets
      && |m.accepted| <= p.maxBatch && accepted[..|m.accepted|] == m.accepted
    }

    constructor (p: Params)
      ensures this.p == p && Valid()
      ensures fresh(state) && fresh(masks) && fresh(tokens) && fresh(others) && fresh(offsets) && fresh(accepted)
    {
      this.p := p;
      state := new int[p.maxBatch, p.numSpec + 1];
      masks := new bool[p.maxBatch];
      tokens := new int[p.maxBatch * (p.numSpec + 1)];
      others := new int[p.maxBatch * (p.numSpec + 1)];
      offsets := new int[p.maxBatch + 1];
      accepted := new int[p.maxBatch];
    }

    /** Puts a batch of speculative requests into the buffers; what is left over from earlier batches
        never shows. */
    method StageAll(b: Batch, q: Parts) returns (m: Metadata)
      requires Valid() && Staged(p, q.counts)
      requires q.counts.spec == |q.state| == |q.accepted| <= |b.table| <= |q.flags| && |b.starts| == |b.table| + 1
      requires forall i | 0 <= i < |q.state| :: |q.state[i]| == p.numSpec + 1
      modifies state, masks, tokens, others, offsets, accepted
      ensures m == StagedMetadata(p, b, q)
      ensures Shows(m)
    {
      var n, c := Min(|b.table|, p.maxBatch), q.counts.spec;
      CopyRowsThenFill(state, q.state, n, p.nullBlock);
      CopyThenFill(masks, q.flags[..c], n, false);
      StageTokens(b, q);
      CopyThenFill(accepted, q.accepted, n, 1);
      var size := Min(c * (p.numSpec + 1), b.starts[|b.table|]);
      m := Metadata(q.counts, b.actualTokens, offsets[..n + 1], Rows(state, n), masks[..n], tokens[..size], others[..0],
                    accepted[..n], None, None);
    }

    method StageTokens(b: Batch, q: Parts)
      requires Valid() && Staged(p, q.counts)
      requires q.counts.spec <= |b.table| && |b.starts| == |b.table| + 1
      modifies tokens, others, offsets
      ensures var size := Min(q.counts.spec * (p.numSpec + 1), b.starts[|b.table|]);
              size <= tokens.Length && tokens[..size] == Range(0, size)
      ensures var n, c := Min(|b.table|, p.maxBatch), q.counts.spec;
              offsets[..n + 1] == PadTo(b.starts[..c + 1], n + 1, b.starts[c])
    {
      var n, c := Min(|b.table|, p.maxBatch), q.counts.spec;
      var size := Min(c * (p.numSpec + 1), b.starts[|b.table|]);
      Arithmetic.MulMonotone(p.numSpec + 1, c, p.maxBatch);
      CopyThenFill(tokens, Range(0, size), size, 0);
      CopyThenFill(others, [], 0, 0);
      CopyThenFill(offsets, b.starts[..c + 1], n + 1, b.starts[c]);
    }

    /** A mixed batch, taken apart by a stable sort of the tokens' flags and a cut at the number of tokens
        counted for the other requests. */
    method BuildMixed(b: Batch, drafts: seq<int>, q: Parts) returns (m: Metadata)
      requires WellFormed(p, b, Some(drafts), None) && AllFit(p, b)
      requires q.flags == Flags(drafts) && q.counts == Classify(q.flags, Lens(b.starts))
      ensures m == MixedMetadata(p, b, drafts, q)
    {
      var lens := Lens(b.starts);
      var index := StableArgsort(RepeatInterleave(q.flags, lens));
      var n := q.counts.prefillTokens + q.counts.decodeTokens;
      SortCutsAtCount(q.flags, lens);
      m := Metadata(q.counts, b.actualTokens, Offsets(Select(q.flags, lens, true)), q.state, q.flags,
                    index[n..], index[..n], q.accepted,
                    Some(Offsets(Select(q.flags, lens, false))), Some(Select(q.flags, FirstBlocks(p, b), false)));
    }

    method Build(b: Batch, drafts: Option<seq<int>>, accepted: Option<seq<int>>) returns (r: Outcome)
      requires Valid() && WellFormed(p, b, drafts, accepted)
      modifies state, masks, tokens, others, offsets, this.accepted
      ensures r == General(p, b, drafts, accepted)
      ensures r.Built? && Staged(p, r.metadata.counts) && r.metadata.otherOffsets.None? ==> Shows(r.metadata)
    {
      if !Speculates(p, drafts) {
        return NoSpeculation;
      }
      if accepted.None? {
        return AcceptedMissing;
      }
      var q := PartsOf(p, b, drafts.value, accepted.value);
      if q.counts.prefills > 0 || q.counts.decodes > 0 {
        var m := BuildMixed(b, drafts.value, q);
        return Built(m);
      }
      if Staged(p, q.counts) {
        var m := StageAll(b, q);
        return Built(m);
      }
      return Built(EagerMetadata(p, b, q));
    }

    /** One uniform speculative request whose tensors the kernel can read directly. */
    predicate Eligible(b: Batch, drafts: Option<seq<int>>, accepted: Option<seq<int>>, commonPrefix: nat) {
      var q := p.numSpec + 1;
      && p.blockSize > 0
      && commonPrefix == 0 && p.fullGraph && 1 <= p.numSpec <= 7
      && |b.table| == 1 && b.actualTokens == q && b.maxQueryLen == q && p.maxBatch >= q
      && b.placed
      && accepted.Some? && |accepted.value| == 1
      && drafts.Some? && |drafts.value| == 1
      && |b.hostStarts| == 2 && |b.seqLens| == 1 && |b.starts| == 2
      && |b.table[0]| >= q
      && (p.mode == Align ==> p.numSpecBlocks >= p.numSpec)
      && (p.mode == Align ==> Max(FloorDiv(b.maxSeqLen - 1, p.blockSize), 0) + q <= |b.table[0]|)
      && drafts.value[0] == p.numSpec
      && b.hostStarts[0] == 0 && b.hostStarts[1] == q
    }

    /** The kernel: 32 lanes, each storing what its masks let through. */
    method Stage(row: seq<int>, length: int, starts: seq<nat>, accepted: int)
      requires Valid() && p.numSpec <= 7 && p.numSpec < p.maxBatch && |starts| == 2 && p.blockSize > 0
      requires Fits(p, row, length)
      modifies state, masks, tokens, offsets, this.accepted
      ensures Rows(state, 1) == [StateRow(p, row, length)] && RowFromLast(p, row, length, Rows(state, 1)[0])
      ensures masks[..1] == [true] && this.accepted[..1] == [accepted] && offsets[..2] == starts
      ensures p.numSpec + 1 <= tokens.Length && tokens[..p.numSpec + 1] == Range(0, p.numSpec + 1)
    {
      var q := p.numSpec + 1;
      Arithmetic.MulAtLeast(p.maxBatch, q);
      StartsAgree(length, p.blockSize);
      var start := if p.mode == Align then Max(TruncDiv(length - 1, p.blockSize), 0) else 0;
      forall i | 0 <= i < 32 && i < q { state[0, i] := row[start + i]; }
      forall i | 0 <= i < 32 && i < q { tokens[i] := i; }
      forall i | 0 <= i < 32 && i < 2 { offsets[i] := starts[i]; }
      this.accepted[0] := accepted;
      masks[0] := true;
      assert Rows(state, 1)[0] == StateRow(p, row, length);
      StateRowIsFromLast(p, row, length);
    }

    /** The fast path returns what the general construction returns, with the same entries showing in
        the buffers. */
    method BuildFast(b: Batch, drafts: Option<seq<int>>, accepted: Option<seq<int>>, commonPrefix: nat)
      returns (r: Outcome)
      requires Valid() && Eligible(b, drafts, accepted, commonPrefix)
      requires b.starts == b.hostStarts && b.seqLens[0] <= b.maxSeqLen
      modifies state, masks, tokens, offsets, this.accepted
      ensures WellFormed(p, b, drafts, accepted)
      ensures r == General(p, b, drafts, accepted)
      ensures r.Built? && Shows(r.metadata)
    {
      var q := p.numSpec + 1;
      LookupInBounds(p, b.table[0], b.seqLens[0], b.maxSeqLen);
      Stage(b.table[0], b.seqLens[0], b.starts, accepted.value[0]);
      var m := Metadata(Counts(0, 0, 0, 0, 1, q), q, offsets[..2], Rows(state, 1), masks[..1], tokens[..q], others[..0],
                        this.accepted[..1], None, None);
      OneRequest(p, b, drafts.value, accepted.value);
      r := Built(m);
    }

    /** The construction with the fast path installed in front of it. */
    method BuildInstalled(b: Batch, drafts: Option<seq<int>>, accepted: Option<seq<int>>, commonPrefix: nat)
      returns (r: Outcome)
      requires Valid() && WellFormed(p, b, drafts, accepted)
      requires forall i | 0 <= i < |b.seqLens| :: b.seqLens[i] <= b.maxSeqLen
      modifies state, masks, tokens, others, offsets, this.accepted
      ensures r == General(p, b, drafts, accepted)
      ensures r.Built? && Staged(p, r.metadata.counts) && r.metadata.otherOffsets.None? ==> Shows(r.metadata)
    {
      if 5 <= p.numSpec <= 7 && p.contextParallel == 1 && Eligible(b, drafts, accepted, commonPrefix) {
        r := BuildFast(b, drafts, accepted, commonPrefix);
      } else {
        r := Build(b, drafts, accepted);
      }
    }
  }

  // ------------------------------------------------------------------------------------------
  // One request
  // ------------------------------------------------------------------------------------------

  /** The counted number of other tokens is where the sorted positions of the two classes meet. */
  lemma {:induction false} SortCutsAtCount(flags: seq<bool>, lens: seq<nat>)
    requires |flags| == |lens|
    ensures var index, c := StableArgsort(RepeatInterleave(flags, lens)), Classify(flags, lens);
            var n := c.prefillTokens + c.decodeTokens;
            && n <= |index| && index[..n] == ClassTokens(flags, lens, false, 0)
            && index[n..] == ClassTokens(flags, lens, true, 0)
  {
    PlacesAreClassTokens(flags, lens, false, 0);
    PlacesAreClassTokens(flags, lens, true, 0);
    ClassTokensCount(flags, lens, false, 0);
    CountsAddUp(flags, lens);
    TokenIndicesAreClasses(flags, lens);
    SplitConcat(ClassTokens(flags, lens, false, 0), ClassTokens(flags, lens, true, 0));
  }

  lemma SplitConcat(a: seq<nat>, b: seq<nat>)
    ensures (a + b)[..|a|] == a && (a + b)[|a|..] == b
  {
  }

  lemma {:induction false} OneRequest(p: Params, b: Batch, drafts: seq<int>, accepted: seq<int>)
    requires WellFormed(p, b, Some(drafts), Some(accepted))
    requires |b.table| == 1 && drafts == [p.numSpec] && p.numSpec >= 1
    requires p.fullGraph && p.maxBatch >= p.numSpec + 1 && b.starts == [0, p.numSpec + 1]
    ensures var q := p.numSpec + 1;
            General(p, b, Some(drafts), Some(accepted))
            == Built(Metadata(Counts(0, 0, 0, 0, 1, q), b.actualTokens, b.starts,
                              [StateRow(p, b.table[0], b.seqLens[0])], [true], Range(0, q), [], accepted, None, None))
  {
  }

  // ------------------------------------------------------------------------------------------
  // What the staged metadata means
  // ------------------------------------------------------------------------------------------

  /** The j-th entry of staged metadata has this mask, this many tokens, this state row and this count. */
  predicate ShowsEntry(m: Metadata, j: nat, mask: bool, length: int, row: seq<int>, count: int) {
    && j < |m.specState| == |m.specMasks| == |m.accepted| == |m.specOffsets| - 1
    && m.specMasks[j] == mask && m.specOffsets[j + 1] - m.specOffsets[j] == length
    && m.specState[j] == row && m.accepted[j] == count
  }

  /** With padding at the back, replay sees the speculative requests with their own tokens, rows and
      counts, and every further entry as an empty request on the null block. */
  lemma PaddingIsInert(p: Params, b: Batch, drafts: seq<int>, accepted: seq<int>, j: nat)
    requires WellFormed(p, b, Some(drafts), Some(accepted)) && Speculates(p, Some(drafts))
    requires var q := PartsOf(p, b, drafts, accepted);
             && q.counts.prefills == 0 && q.counts.decodes == 0
             && p.fullGraph && q.counts.spec <= p.maxBatch && q.counts.specTokens <= p.maxBatch
    requires forall i, k | 0 <= i < k < |drafts| && drafts[k] >= 0 :: drafts[i] >= 0
    requires j < |b.table| && j < p.maxBatch
    ensures var m := General(p, b, Some(drafts), Some(accepted)).metadata;
            && |m.specState| == Min(|b.table|, p.maxBatch)
            && (if drafts[j] >= 0
                then ShowsEntry(m, j, true, b.starts[j + 1] - b.starts[j],
                                StateRow(p, b.table[j], b.seqLens[j]), accepted[j])
                     && RowFromLast(p, b.table[j], b.seqLens[j], m.specState[j])
                else ShowsEntry(m, j, false, 0, seq(p.numSpec + 1, _ => p.nullBlock), 1))
  {
    StateRowIsFromLast(p, b.table[j], b.seqLens[j]);
    var q, flags := PartsOf(p, b, drafts, accepted), Flags(drafts);
    SelectFront(flags, flags);
    SelectFront(flags, StateRows(p, b.table, b.seqLens));
    SelectFront(flags, accepted);
    StagedEntry(p, b, q, j);
  }

  lemma StagedEntry(p: Params, b: Batch, q: Parts, j: nat)
    requires q.counts.spec == |q.state| == |q.accepted| <= |b.table| <= |q.flags|
    requires |b.starts| == |b.table| + 1 && Staged(p, q.counts)
    requires j < |b.table| && j < p.maxBatch && b.starts[j] <= b.starts[j + 1]
    ensures var m, c := StagedMetadata(p, b, q), q.counts.spec;
            if j < c then ShowsEntry(m, j, q.flags[j], b.starts[j + 1] - b.starts[j], q.state[j], q.accepted[j])
            else ShowsEntry(m, j, false, 0, seq(p.numSpec + 1, _ => p.nullBlock), 1)
  {
  }

  /** Without a graph and with padding at the back, the speculative requests come first with their own
      tokens, rows and counts, and nothing else is listed. */
  lemma EagerRequestsAreWhole(p: Params, b: Batch, drafts: seq<int>, accepted: seq<int>, j: nat)
    requires WellFormed(p, b, Some(drafts), Some(accepted)) && Speculates(p, Some(drafts))
    requires var q := PartsOf(p, b, drafts, accepted);
             && q.counts.prefills == 0 && q.counts.decodes == 0
             && !(p.fullGraph && q.counts.spec <= p.maxBatch && q.counts.specTokens <= p.maxBatch)
    requires forall i, k | 0 <= i < k < |drafts| && drafts[k] >= 0 :: drafts[i] >= 0
    requires j < |b.table|
    ensures var m := General(p, b, Some(drafts), Some(accepted)).metadata;
            && |m.specState| == |m.accepted| == |m.specOffsets| - 1 == m.counts.spec
            && |m.specMasks| == |b.table| && (m.specMasks[j] <==> drafts[j] >= 0)
            && (drafts[j] >= 0 <==> j < m.counts.spec)
            && (drafts[j] >= 0 ==>
                  && m.specOffsets[j] == b.starts[j] && m.specOffsets[j + 1] == b.starts[j + 1]
                  && m.specState[j] == StateRow(p, b.table[j], b.seqLens[j]) && m.accepted[j] == accepted[j]
                  && RowFromLast(p, b.table[j], b.seqLens[j], m.specState[j]))
  {
    StateRowIsFromLast(p, b.table[j], b.seqLens[j]);
    var flags := Flags(drafts);
    SelectFront(flags, flags);
    SelectFront(flags, StateRows(p, b.table, b.seqLens));
    SelectFront(flags, accepted);
  }

  // ------------------------------------------------------------------------------------------
  // Padding that is not at the back
  // ------------------------------------------------------------------------------------------

  /** The offsets at request r's rank cut out r's own run of tokens. */
  predicate OwnRun(offsets: seq<int>, starts: seq<nat>, flags: seq<bool>, r: nat)
    requires r < |flags| == |starts| - 1
  {
    var j := Rank(flags, r);
    j + 1 < |offsets| && offsets[j] == starts[r] && offsets[j + 1] == starts[r + 1]
  }

  /** Every speculative request finds its own run. */
  ghost predicate AllOwn(offsets: seq<int>, starts: seq<nat>, flags: seq<bool>)
    requires |starts| == |flags| + 1
  {
    forall r | 0 <= r < |flags| && flags[r] :: OwnRun(offsets, starts, flags, r)
  }

  /** A request without drafts stands in front of a speculative one that has tokens. */
  ghost predicate PaddedInFront(flags: seq<bool>, starts: seq<nat>)
    requires |starts| == |flags| + 1
  {
    exists i, k :: 0 <= i < k < |flags| && !flags[i] && flags[k] && starts[k] < starts[k + 1]
  }

  ghost predicate Ordered(starts: seq<nat>) {
    forall i | 0 <= i < |starts| - 1 :: starts[i] <= starts[i + 1]
  }

  lemma {:induction false} StartsMonotone(starts: seq<nat>, i: nat, j: nat)
    requires Ordered(starts) && i <= j < |starts|
    ensures starts[i] <= starts[j]
    decreases j - i
  {
    if i < j { StartsMonotone(starts, i + 1, j); }
  }

  lemma {:induction false} CountsTrue(flags: seq<bool>)
    ensures |Select(flags, flags, true)| <= |flags|
    ensures |Select(flags, flags, true)| == |flags| <==> forall i | 0 <= i < |flags| :: flags[i]
    ensures |Select(flags, flags, true)| == 0 <==> forall i | 0 <= i < |flags| :: !flags[i]
    decreases |flags|
  {
    if |flags| > 0 {
      CountsTrue(flags[1..]);
      assert forall i | 1 <= i < |flags| :: flags[i] == flags[1..][i - 1];
      assert forall i | 0 <= i < |flags| - 1 :: flags[1..][i] == flags[i + 1];
    }
  }

  /** A speculative request's rank lies between the first request without drafts and its own index. */
  lemma {:induction false} RankBounds(flags: seq<bool>, r: nat, m: nat)
    requires m <= r < |flags| && flags[r] && forall i | 0 <= i < m :: flags[i]
    ensures m <= Rank(flags, r) <= r
    ensures m < r && !flags[m] ==> Rank(flags, r) < r
  {
    CountFromFront(flags[..r], m);
  }

  lemma {:induction false} CountFromFront(front: seq<bool>, m: nat)
    requires m <= |front| && forall i | 0 <= i < m :: front[i]
    ensures m <= |Select(front, front, true)| <= |front|
    ensures m < |front| && !front[m] ==> |Select(front, front, true)| < |front|
  {
    CountsTrue(front);
    CountAtLeast(front, m);
  }

  lemma {:induction false} CountAtLeast(front: seq<bool>, m: nat)
    requires m <= |front| && forall i | 0 <= i < m :: front[i]
    ensures |Select(front, front, true)| >= m
    decreases |front|
  {
    if m > 0 { CountAtLeast(front[1..], m - 1); }
  }

  /** The first request without drafts, or the number of requests. */
  function FirstWithout(flags: seq<bool>): (m: nat)
    ensures m <= |flags| && (forall i | 0 <= i < m :: flags[i]) && (m < |flags| ==> !flags[m])
  {
    if |flags| == 0 || !flags[0] then 0
    else
      var m := FirstWithout(flags[1..]);
      assert forall i | 1 <= i < m + 1 :: flags[i] == flags[1..][i - 1];
      m + 1
  }

  /** Without other tokens, the front of the batch's offsets gives every speculative request its own run
      if and only if no request without drafts stands in front of a speculative one that has tokens. */
  lemma {:induction false} OwnRunsIff(flags: seq<bool>, starts: seq<nat>)
    requires |starts| == |flags| + 1 && Ordered(starts)
    requires forall i | 0 <= i < |flags| && !flags[i] :: starts[i] == starts[i + 1]
    ensures AllOwn(FrontStarts(flags, starts), starts, flags) <==> !PaddedInFront(flags, starts)
  {
    if PaddedInFront(flags, starts) {
      SomeRunIsNotOwn(flags, starts);
    } else {
      forall r | 0 <= r < |flags| && flags[r] ensures OwnRun(FrontStarts(flags, starts), starts, flags, r) {
        RunIsOwn(flags, starts, r);
      }
    }
  }

  lemma {:induction false} SomeRunIsNotOwn(flags: seq<bool>, starts: seq<nat>)
    requires |starts| == |flags| + 1 && Ordered(starts) && PaddedInFront(flags, starts)
    ensures !AllOwn(FrontStarts(flags, starts), starts, flags)
  {
    var i, k :| 0 <= i < k < |flags| && !flags[i] && flags[k] && starts[k] < starts[k + 1];
    RunIsNotOwn(flags, starts, i, k);
  }

  /** As many of the batch's offsets as there are speculative requests, and one more. */
  function FrontStarts(flags: seq<bool>, starts: seq<nat>): seq<nat>
    requires |starts| == |flags| + 1
  {
    starts[..|Select(flags, flags, true)| + 1]
  }

  lemma {:induction false} RunIsOwn(flags: seq<bool>, starts: seq<nat>, r: nat)
    requires |starts| == |flags| + 1 && Ordered(starts) && r < |flags| && flags[r] && !PaddedInFront(flags, starts)
    requires forall i | 0 <= i < |flags| && !flags[i] :: starts[i] == starts[i + 1]
    ensures OwnRun(FrontStarts(flags, starts), starts, flags, r)
  {
    SelectAt(flags, flags, r);
    var m := FirstWithout(flags);
    RankBounds(flags, r, if m < r then m else r);
    if m < r {
      var j := Rank(flags, r);
      EmptyFrom(flags, starts, m, r);
      StartsMonotone(starts, m, j);
      StartsMonotone(starts, j, j + 1);
      StartsMonotone(starts, j + 1, r + 1);
      StartsMonotone(starts, m, r);
      StartsMonotone(starts, r, r + 1);
    }
  }

  /** From the first request without drafts on, no request up to r has tokens. */
  lemma {:induction false} EmptyFrom(flags: seq<bool>, starts: seq<nat>, m: nat, r: nat)
    requires |starts| == |flags| + 1 && Ordered(starts) && !PaddedInFront(flags, starts)
    requires m <= r < |flags| && !flags[m]
    requires forall i | 0 <= i < |flags| && !flags[i] :: starts[i] == starts[i + 1]
    ensures starts[m] == starts[r + 1]
    decreases r
  {
    if m < r {
      EmptyFrom(flags, starts, m, r - 1);
      assert starts[r] == starts[r + 1];
    }
  }

  lemma {:induction false} RunIsNotOwn(flags: seq<bool>, starts: seq<nat>, i: nat, k: nat)
    requires |starts| == |flags| + 1 && Ordered(starts)
    requires i < k < |flags| && !flags[i] && flags[k] && starts[k] < starts[k + 1]
    ensures !OwnRun(FrontStarts(flags, starts), starts, flags, k)
  {
    var m, j := FirstWithout(flags), Rank(flags, k);
    RankBounds(flags, k, m);
    StartsMonotone(starts, j + 1, k);
  }

  lemma {:induction false} NoOtherTokens(flags: seq<bool>, lens: seq<nat>)
    requires |flags| == |lens| && Sum(Select(flags, lens, false)) == 0
    ensures forall i | 0 <= i < |flags| && !flags[i] :: lens[i] == 0
    decreases |flags|
  {
    if |flags| > 0 {
      SumSelectStep(flags, lens, false);
      NoOtherTokens(flags[1..], lens[1..]);
      assert forall i | 1 <= i < |flags| :: flags[i] == flags[1..][i - 1] && lens[i] == lens[1..][i - 1];
    }
  }

  /** In a batch of speculative requests only, staged or not, every speculative request finds its own run
      of tokens at its rank if and only if no request without drafts stands in front of a speculative one
      that has tokens. */
  lemma {:induction false} SpecRunsOwnIff(p: Params, b: Batch, drafts: seq<int>, accepted: seq<int>)
    requires WellFormed(p, b, Some(drafts), Some(accepted)) && Speculates(p, Some(drafts))
    requires var q := PartsOf(p, b, drafts, accepted); q.counts.prefills == 0 && q.counts.decodes == 0
    ensures var m, flags := General(p, b, Some(drafts), Some(accepted)).metadata, Flags(drafts);
            AllOwn(m.specOffsets, b.starts, flags) <==> !PaddedInFront(flags, b.starts)
  {
    var m, flags := General(p, b, Some(drafts), Some(accepted)).metadata, Flags(drafts);
    OthersAreEmpty(flags, b.starts);
    OwnRunsIff(flags, b.starts);
    OffsetsAreFront(p, b, drafts, accepted);
    FrontDecides(m.specOffsets, b.starts, flags);
  }

  lemma {:induction false} OthersAreEmpty(flags: seq<bool>, starts: seq<nat>)
    requires |starts| == |flags| + 1 && Ordered(starts)
    requires var c := Classify(flags, Lens(starts)); c.prefills == 0 && c.decodes == 0
    ensures forall i | 0 <= i < |flags| && !flags[i] :: starts[i] == starts[i + 1]
  {
    var lens := Lens(starts);
    CountsAddUp(flags, lens);
    NoOtherTokens(flags, lens);
    forall i | 0 <= i < |flags| && !flags[i] ensures starts[i] == starts[i + 1] { assert lens[i] == 0; }
  }

  lemma {:induction false} OffsetsAreFront(p: Params, b: Batch, drafts: seq<int>, accepted: seq<int>)
    requires WellFormed(p, b, Some(drafts), Some(accepted)) && Speculates(p, Some(drafts))
    requires var q := PartsOf(p, b, drafts, accepted); q.counts.prefills == 0 && q.counts.decodes == 0
    ensures var m, front := General(p, b, Some(drafts), Some(accepted)).metadata, FrontStarts(Flags(drafts), b.starts);
            |front| <= |m.specOffsets| && m.specOffsets[..|front|] == front
  {
  }

  lemma {:induction false} FrontDecides(offsets: seq<int>, starts: seq<nat>, flags: seq<bool>)
    requires |starts| == |flags| + 1
    requires var front := FrontStarts(flags, starts); |front| <= |offsets| && offsets[..|front|] == front
    ensures AllOwn(offsets, starts, flags) <==> AllOwn(FrontStarts(flags, starts), starts, flags)
  {
    forall r | 0 <= r < |flags| && flags[r]
      ensures OwnRun(offsets, starts, flags, r) <==> OwnRun(FrontStarts(flags, starts), starts, flags, r)
    {
      SameRun(offsets, starts, flags, r);
    }
  }

  lemma {:induction false} SameRun(offsets: seq<int>, starts: seq<nat>, flags: seq<bool>, r: nat)
    requires |starts| == |flags| + 1 && r < |flags| && flags[r]
    requires var front := FrontStarts(flags, starts); |front| <= |offsets| && offsets[..|front|] == front
    ensures OwnRun(offsets, starts, flags, r) <==> OwnRun(FrontStarts(flags, starts), starts, flags, r)
  {
    SelectAt(flags, flags, r);
    var front, j := FrontStarts(flags, starts), Rank(flags, r);
    assert offsets[..|front|][j] == offsets[j] && offsets[..|front|][j + 1] == offsets[j + 1];
  }

  /** All requests without drafts are at the back. */
  ghost predicate AtBack(flags: seq<bool>) {
    forall i, k | 0 <= i < k < |flags| && flags[k] :: flags[i]
  }

  lemma {:induction false} FrontTrueIff(flags: seq<bool>)
    ensures var c := |Select(flags, flags, true)|; (forall j | 0 <= j < c :: flags[j]) <==> AtBack(flags)
  {
    var c := |Select(flags, flags, true)|;
    if AtBack(flags) {
      SelectFront(flags, flags);
    }
    if forall j | 0 <= j < c :: flags[j] {
      assert flags == flags[..c] + flags[c..];
      SelectConcat(flags[..c], flags[..c], flags[c..], flags[c..], true);
      CountsTrue(flags[..c]);
      CountsTrue(flags[c..]);
      assert forall k | c <= k < |flags| :: flags[k] == flags[c..][k - c];
    }
  }

  /** The staged masks mark the speculative entries, which come first, if and only if the requests
      without drafts are all at the back. */
  lemma {:induction false} StagedMasksIff(p: Params, b: Batch, drafts: seq<int>, accepted: seq<int>)
    requires WellFormed(p, b, Some(drafts), Some(accepted)) && Speculates(p, Some(drafts))
    requires var q := PartsOf(p, b, drafts, accepted);
             q.counts.prefills == 0 && q.counts.decodes == 0 && Staged(p, q.counts)
    ensures var m := General(p, b, Some(drafts), Some(accepted)).metadata;
            && m.counts.spec <= |m.specMasks|
            && ((forall j | 0 <= j < m.counts.spec :: m.specMasks[j]) <==> AtBack(Flags(drafts)))
  {
    MasksAreFront(p, b, drafts, accepted);
    FrontTrueIff(Flags(drafts));
  }

  lemma {:induction false} MasksAreFront(p: Params, b: Batch, drafts: seq<int>, accepted: seq<int>)
    requires WellFormed(p, b, Some(drafts), Some(accepted)) && Speculates(p, Some(drafts))
    requires var q := PartsOf(p, b, drafts, accepted);
             q.counts.prefills == 0 && q.counts.decodes == 0 && Staged(p, q.counts)
    ensures var m, flags := General(p, b, Some(drafts), Some(accepted)).metadata, Flags(drafts);
            && m.counts.spec == |Select(flags, flags, true)| <= |flags| && m.counts.spec <= |m.specMasks|
            && forall j | 0 <= j < m.counts.spec :: m.specMasks[j] == flags[j]
  {
    var m, flags := General(p, b, Some(drafts), Some(accepted)).metadata, Flags(drafts);
    var c := m.counts.spec;
    assert m.specMasks[..c] == flags[..c];
    forall j | 0 <= j < c ensures m.specMasks[j] == flags[j] { assert m.specMasks[..c][j] == flags[..c][j]; }
  }

  /** Where the r-th request's entry stands among those of its class. */
  lemma SelectAt<T>(flags: seq<bool>, xs: seq<T>, r: nat)
    requires r < |flags| == |xs|
    ensures Rank(flags, r) < |Select(flags, xs, flags[r])| && Select(flags, xs, flags[r])[Rank(flags, r)] == xs[r]
  {
    SelectCount(flags[..r], flags[..r], xs[..r], flags[r]);
    assert flags == flags[..r] + flags[r..] && xs == xs[..r] + xs[r..];
    SelectConcat(flags[..r], xs[..r], flags[r..], xs[r..], flags[r]);
  }

  /** The metadata's j-th speculative request has these tokens, this state row and this count. */
  predicate FindsSpec(m: Metadata, j: nat, tokens: seq<nat>, row: seq<int>, count: int) {
    && j + 1 < |m.specOffsets| && j < |m.specState| && j < |m.accepted|
    && 0 <= m.specOffsets[j] <= m.specOffsets[j + 1] <= |m.specTokens|
    && m.specTokens[m.specOffsets[j]..m.specOffsets[j + 1]] == tokens
    && m.specState[j] == row && m.accepted[j] == count
  }

  /** The metadata's j-th other request has these tokens and this state block. */
  predicate FindsOther(m: Metadata, j: nat, tokens: seq<nat>, block: int) {
    && m.otherOffsets.Some? && m.otherState.Some?
    && j + 1 < |m.otherOffsets.value| && j < |m.otherState.value|
    && 0 <= m.otherOffsets.value[j] <= m.otherOffsets.value[j + 1] <= |m.otherTokens|
    && m.otherTokens[m.otherOffsets.value[j]..m.otherOffsets.value[j + 1]] == tokens
    && m.otherState.value[j] == block
  }

  /** In a mixed batch every request, looked up at its rank in its class, has its own state row or
      block, and its class's offsets cut out its own tokens. */
  lemma {:induction false} MixedRequestsAreWhole(p: Params, b: Batch, drafts: seq<int>, accepted: seq<int>, r: nat)
    requires WellFormed(p, b, Some(drafts), Some(accepted)) && Speculates(p, Some(drafts))
    requires var q := PartsOf(p, b, drafts, accepted); q.counts.prefills > 0 || q.counts.decodes > 0
    requires r < |b.table|
    ensures var m, j := General(p, b, Some(drafts), Some(accepted)).metadata, Rank(Flags(drafts), r);
            var tokens := Range(b.starts[r], b.starts[r + 1] - b.starts[r]);
            if drafts[r] >= 0
            then FindsSpec(m, j, tokens, StateRow(p, b.table[r], b.seqLens[r]), accepted[r])
                 && RowFromLast(p, b.table[r], b.seqLens[r], m.specState[j])
            else FindsOther(m, j, tokens, b.table[r][Start(p, b.seqLens[r])])
                 && LastBlock(p, b.table[r], b.seqLens[r], m.otherState.value[j])
  {
    RequestIsFound(p, b, drafts, accepted, r);
    StateRowIsFromLast(p, b.table[r], b.seqLens[r]);
  }

  lemma {:induction false} RequestIsFound(p: Params, b: Batch, drafts: seq<int>, accepted: seq<int>, r: nat)
    requires WellFormed(p, b, Some(drafts), Some(accepted)) && Speculates(p, Some(drafts))
    requires var q := PartsOf(p, b, drafts, accepted); q.counts.prefills > 0 || q.counts.decodes > 0
    requires r < |b.table|
    ensures var m, j := General(p, b, Some(drafts), Some(accepted)).metadata, Rank(Flags(drafts), r);
            var tokens := Range(b.starts[r], b.starts[r + 1] - b.starts[r]);
            if drafts[r] >= 0 then FindsSpec(m, j, tokens, StateRow(p, b.table[r], b.seqLens[r]), accepted[r])
            else FindsOther(m, j, tokens, b.table[r][Start(p, b.seqLens[r])])
  {
    if drafts[r] >= 0 {
      MixedSpecIsWhole(p, b, drafts, accepted, r);
    } else {
      MixedOtherIsWhole(p, b, drafts, PartsOf(p, b, drafts, accepted), r);
    }
  }

  lemma {:induction false} MixedOtherIsWhole(p: Params, b: Batch, drafts: seq<int>, q: Parts, r: nat)
    requires WellFormed(p, b, Some(drafts), None) && AllFit(p, b) && q.flags == Flags(drafts)
    requires r < |b.table| && drafts[r] < 0
    ensures FindsOther(MixedMetadata(p, b, drafts, q), Rank(Flags(drafts), r),
                       Range(b.starts[r], b.starts[r + 1] - b.starts[r]), b.table[r][Start(p, b.seqLens[r])])
  {
    RequestCut(b.starts, Flags(drafts), r);
    TokenIndicesAreClasses(Flags(drafts), Lens(b.starts));
    SelectAt(Flags(drafts), FirstBlocks(p, b), r);
  }

  lemma MixedSpecIsWhole(p: Params, b: Batch, drafts: seq<int>, accepted: seq<int>, r: nat)
    requires WellFormed(p, b, Some(drafts), Some(accepted)) && AllFit(p, b)
    requires r < |b.table| && drafts[r] >= 0
    ensures FindsSpec(MixedMetadata(p, b, drafts, PartsOf(p, b, drafts, accepted)), Rank(Flags(drafts), r),
                      Range(b.starts[r], b.starts[r + 1] - b.starts[r]),
                      StateRow(p, b.table[r], b.seqLens[r]), accepted[r])
  {
    RequestCut(b.starts, Flags(drafts), r);
    TokenIndicesAreClasses(Flags(drafts), Lens(b.starts));
    SelectAt(Flags(drafts), StateRows(p, b.table, b.seqLens), r);
    SelectAt(Flags(drafts), accepted, r);
  }

  lemma RequestCut(starts: seq<nat>, flags: seq<bool>, r: nat)
    requires r < |flags| == |starts| - 1 && starts[0] == 0
    requires forall i | 0 <= i < |starts| - 1 :: starts[i] <= starts[i + 1]
    ensures CutIs(flags, Lens(starts), r, Range(starts[r], starts[r + 1] - starts[r]))
  {
    TokensBefore(starts, r);
    CutGivesRequest(flags, Lens(starts), r);
  }

  lemma TokensBefore(starts: seq<nat>, r: nat)
    requires r + 1 < |starts| && starts[0] == 0 && forall i | 0 <= i < |starts| - 1 :: starts[i] <= starts[i + 1]
    ensures Sum(Lens(starts)[..r]) == starts[r]
  {
    assert Lens(starts)[..r] == Lens(starts[..r + 1]);
    SumOfLens(starts[..r + 1]);
  }

  /** When the flagged requests come first, selecting them takes a front part. */
  lemma {:induction false} SelectFront<T>(flags: seq<bool>, xs: seq<T>)
    requires |flags| == |xs|
    requires forall i, k | 0 <= i < k < |flags| && flags[k] :: flags[i]
    ensures |Select(flags, flags, true)| == |Select(flags, xs, true)|
    ensures Select(flags, xs, true) == xs[..|Select(flags, xs, true)|]
    ensures forall i | 0 <= i < |flags| :: flags[i] <==> i < |Select(flags, xs, true)|
    decreases |flags|
  {
    if |flags| > 0 {
      SelectFront(flags[1..], xs[1..]);
      if flags[0] {
        assert Select(flags, xs, true) == [xs[0]] + Select(flags[1..], xs[1..], true);
      } else {
        assert forall k | 1 <= k < |flags| :: !flags[k];
        assert forall k | 0 <= k < |flags[1..]| :: !flags[1..][k];
      }
    }
  }

  /** In such a batch no token is lost: the token indices are all tokens, in order, unless a request
      has more tokens than drafts allow. */
  lemma {:induction false} StagedTokensAreAll(p: Params, b: Batch, drafts: seq<int>, accepted: seq<int>)
    requires WellFormed(p, b, Some(drafts), Some(accepted)) && Speculates(p, Some(drafts))
    requires var q := PartsOf(p, b, drafts, accepted); q.counts.prefills == 0 && q.counts.decodes == 0
    ensures var m := General(p, b, Some(drafts), Some(accepted)).metadata;
            m.specTokens == TokenIndices(Flags(drafts), Lens(b.starts)).1
            <==> m.counts.specTokens <= m.counts.spec * (p.numSpec + 1)
  {
    ListedTokens(p, b, drafts, accepted);
    ListedAreAllIff(Flags(drafts), b.starts, p.numSpec + 1);
  }

  /** What such a batch lists. */
  lemma {:induction false} ListedTokens(p: Params, b: Batch, drafts: seq<int>, accepted: seq<int>)
    requires WellFormed(p, b, Some(drafts), Some(accepted)) && Speculates(p, Some(drafts))
    requires var q := PartsOf(p, b, drafts, accepted); q.counts.prefills == 0 && q.counts.decodes == 0
    ensures var m := General(p, b, Some(drafts), Some(accepted)).metadata;
            && m.counts == Classify(Flags(drafts), Lens(b.starts))
            && m.specTokens == Range(0, Min(m.counts.spec * (p.numSpec + 1), b.starts[|b.table|]))
  {
  }

  lemma {:induction false} ListedAreAllIff(flags: seq<bool>, starts: seq<nat>, width: nat)
    requires |starts| == |flags| + 1 && Ordered(starts) && starts[0] == 0
    requires var c := Classify(flags, Lens(starts)); c.prefills == 0 && c.decodes == 0
    ensures var c := Classify(flags, Lens(starts));
            Range(0, Min(c.spec * width, starts[|flags|])) == TokenIndices(flags, Lens(starts)).1
            <==> c.specTokens <= c.spec * width
  {
    var lens := Lens(starts);
    CountsAddUp(flags, lens);
    SumOfLens(starts);
    SumSplits(flags, lens);
    ShortcutMatchesSortIff(flags, lens, width);
  }

  lemma {:induction false} SumOfLens(starts: seq<nat>)
    requires |starts| > 0 && forall i | 0 <= i < |starts| - 1 :: starts[i] <= starts[i + 1]
    ensures starts[0] + Sum(Lens(starts)) == starts[|starts| - 1]
    decreases |starts|
  {
    if |starts| > 1 {
      SumOfLens(starts[1..]);
      LensTail(starts);
    }
  }

  lemma LensTail(starts: seq<nat>)
    requires |starts| > 1 && forall i | 0 <= i < |starts| - 1 :: starts[i] <= starts[i + 1]
    ensures Lens(starts)[0] == starts[1] - starts[0] && Lens(starts)[1..] == Lens(starts[1..])
  {
    var a, b := Lens(starts)[1..], Lens(starts[1..]);
    forall i | 0 <= i < |b| ensures a[i] == b[i] {
      assert starts[1..][i] == starts[i + 1] && starts[1..][i + 1] == starts[i + 2];
    }
  }
}
