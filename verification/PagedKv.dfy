/** The paged key-value layout handed to the attention kernels: cumulative page offsets, one flat page
    list, and the fill of each request's last page, all in buffers that outlive the batch. */
module PagedKv {
  import opened Sums
  import Arithmetic

  /** Pages needed for a sequence, rounded up. */
  function Pages(length: nat, pageSize: nat): nat
    requires pageSize > 0
  {
    (length + (pageSize - 1)) / pageSize
  }

  /** Entries in the last page; an empty sequence has none. */
  function LastFill(length: nat, pageSize: nat): nat
    requires pageSize > 0
  {
    if length % pageSize == 0 && length != 0 then pageSize else length % pageSize
  }

  function PageCounts(seqLens: seq<nat>, pageSize: nat): (r: seq<nat>)
    requires pageSize > 0
    ensures |r| == |seqLens| && forall i | 0 <= i < |r| :: r[i] == Pages(seqLens[i], pageSize)
  {
    seq(|seqLens|, i requires 0 <= i < |seqLens| => Pages(seqLens[i], pageSize))
  }

  /** What the kernels are given. */
  datatype Layout = Layout(offsets: seq<nat>, pages: seq<int>, lastFill: seq<nat>)

  /** The slice of the page list from start to end is the front of a table row. */
  ghost predicate HasRow(pages: seq<int>, start: nat, end: nat, row: seq<int>) {
    && start <= end <= |pages| && end - start <= |row|
    && forall k | 0 <= k < end - start :: pages[start + k] == row[k]
  }

  ghost predicate Encodes(l: Layout, table: seq<seq<int>>, seqLens: seq<nat>, pageSize: nat)
    requires pageSize > 0
  {
    && |table| == |seqLens| == |l.lastFill|
    && l.offsets == Offsets(PageCounts(seqLens, pageSize))
    && |l.pages| == Sum(PageCounts(seqLens, pageSize))
    && (forall i | 0 <= i < |table| :: HasRow(l.pages, l.offsets[i], l.offsets[i + 1], table[i]))
    && (forall i | 0 <= i < |table| :: l.lastFill[i] == LastFill(seqLens[i], pageSize))
  }

  // ------------------------------------------------------------------------------------------
  // Reading the layout
  // ------------------------------------------------------------------------------------------

  /** Whether slot r of a request's q-th page is in use, given its page count and last fill. */
  predicate SlotUsed(q: nat, r: nat, count: int, fill: nat) {
    q < count - 1 || (q == count - 1 && r < fill)
  }

  /** The page behind slot r of request i's q-th page, if the layout has one. */
  function PageOfSlot(l: Layout, i: nat, q: nat, r: nat): seq<int> {
    if i + 1 < |l.offsets| && i < |l.lastFill| && l.offsets[i] < l.offsets[i + 1] <= |l.pages|
       && SlotUsed(q, r, l.offsets[i + 1] - l.offsets[i], l.lastFill[i])
    then [l.pages[l.offsets[i] + q]]
    else []
  }

  /** The page in which a kernel finds token position p of request i. */
  function Lookup(l: Layout, pageSize: nat, i: nat, p: nat): seq<int>
    requires pageSize > 0
  {
    PageOfSlot(l, i, p / pageSize, p % pageSize)
  }

  /** The sequence length a kernel derives from the layout. */
  function DerivedLength(l: Layout, pageSize: nat, i: nat): int
    requires i + 1 < |l.offsets| && i < |l.lastFill|
  {
    if l.offsets[i + 1] == l.offsets[i] then 0
    else (l.offsets[i + 1] - l.offsets[i] - 1) * pageSize + l.lastFill[i]
  }

  /** The pages before the last are full, and the last holds the rest. */
  lemma LengthSplits(length: nat, pageSize: nat)
    requires pageSize > 0
    ensures length == 0 ==> Pages(length, pageSize) == 0 && LastFill(length, pageSize) == 0
    ensures length > 0 ==> Pages(length, pageSize) >= 1 && 1 <= LastFill(length, pageSize) <= pageSize
                           && length == (Pages(length, pageSize) - 1) * pageSize + LastFill(length, pageSize)
  {
    var q, r := length / pageSize, length % pageSize;
    assert length == q * pageSize + r;
    if length == 0 {
      Arithmetic.DivModUnique(pageSize - 1, pageSize, 0, pageSize - 1);
    } else if r == 0 {
      Arithmetic.DivModUnique(length + pageSize - 1, pageSize, q, pageSize - 1);
      assert q != 0;
      assert q * pageSize == (q - 1) * pageSize + pageSize;
    } else {
      assert (q + 1) * pageSize == q * pageSize + pageSize;
      Arithmetic.DivModUnique(length + pageSize - 1, pageSize, q + 1, r - 1);
    }
  }

  /** A position, given as slot r of page q, belongs to the sequence exactly when it is on a full page
      or within the last page's fill. */
  lemma PositionsCovered(length: nat, pageSize: nat, q: nat, r: nat)
    requires r < pageSize
    ensures q * pageSize + r < length <==> SlotUsed(q, r, Pages(length, pageSize), LastFill(length, pageSize))
  {
    LengthSplits(length, pageSize);
    if length > 0 {
      LexicographicOrder(pageSize, q, r, Pages(length, pageSize) - 1, LastFill(length, pageSize));
    }
  }

  lemma LexicographicOrder(n: nat, q: nat, r: nat, q': nat, r': nat)
    requires r < n && 1 <= r' <= n
    ensures q * n + r < q' * n + r' <==> q < q' || (q == q' && r < r')
  {
    assert (q + 1) * n == q * n + n && (q' + 1) * n == q' * n + n;
    if q < q' {
      Arithmetic.MulMonotone(n, q + 1, q');
    } else if q > q' {
      Arithmetic.MulMonotone(n, q' + 1, q);
    }
  }

  /** Looking a position up finds the page its block-table row names, and finds nothing beyond the
      sequence's end. */
  lemma LookupFindsPage(l: Layout, table: seq<seq<int>>, seqLens: seq<nat>, pageSize: nat, i: nat, p: nat)
    requires pageSize > 0 && Encodes(l, table, seqLens, pageSize) && i < |table|
    ensures p < seqLens[i] ==> p / pageSize < |table[i]| && Lookup(l, pageSize, i, p) == [table[i][p / pageSize]]
    ensures p >= seqLens[i] ==> Lookup(l, pageSize, i, p) == []
  {
    Arithmetic.DivModSplit(p, pageSize);
    SlotFindsPage(l, table, seqLens, pageSize, i, p / pageSize, p % pageSize);
  }

  lemma SlotFindsPage(l: Layout, table: seq<seq<int>>, seqLens: seq<nat>, pageSize: nat, i: nat, q: nat, r: nat)
    requires r < pageSize && Encodes(l, table, seqLens, pageSize) && i < |table|
    ensures q * pageSize + r < seqLens[i] ==> q < |table[i]| && PageOfSlot(l, i, q, r) == [table[i][q]]
    ensures q * pageSize + r >= seqLens[i] ==> PageOfSlot(l, i, q, r) == []
  {
    PositionsCovered(seqLens[i], pageSize, q, r);
    RequestEncoded(l, table, seqLens, pageSize, i);
    SlotInRow(l, i, q, r, Pages(seqLens[i], pageSize), table[i]);
  }

  /** What the layout says of one request. */
  lemma RequestEncoded(l: Layout, table: seq<seq<int>>, seqLens: seq<nat>, pageSize: nat, i: nat)
    requires pageSize > 0 && Encodes(l, table, seqLens, pageSize) && i < |table|
    ensures i + 1 < |l.offsets| && l.offsets[i + 1] == l.offsets[i] + Pages(seqLens[i], pageSize)
    ensures HasRow(l.pages, l.offsets[i], l.offsets[i + 1], table[i])
    ensures l.lastFill[i] == LastFill(seqLens[i], pageSize)
  {
    OffsetStep(PageCounts(seqLens, pageSize), i);
  }

  lemma SlotInRow(l: Layout, i: nat, q: nat, r: nat, count: nat, row: seq<int>)
    requires i + 1 < |l.offsets| && i < |l.lastFill| && l.offsets[i + 1] == l.offsets[i] + count
    requires HasRow(l.pages, l.offsets[i], l.offsets[i + 1], row)
    ensures SlotUsed(q, r, count, l.lastFill[i]) ==> q < |row| && PageOfSlot(l, i, q, r) == [row[q]]
    ensures !SlotUsed(q, r, count, l.lastFill[i]) ==> PageOfSlot(l, i, q, r) == []
  {
  }

  /** Offsets and last fill give every length back. */
  lemma LengthsRecovered(l: Layout, table: seq<seq<int>>, seqLens: seq<nat>, pageSize: nat, i: nat)
    requires pageSize > 0 && Encodes(l, table, seqLens, pageSize) && i < |table|
    ensures DerivedLength(l, pageSize, i) == seqLens[i]
    ensures l.lastFill[i] == 0 <==> seqLens[i] == 0
  {
    RequestEncoded(l, table, seqLens, pageSize, i);
    LengthSplits(seqLens[i], pageSize);
  }

  // ------------------------------------------------------------------------------------------
  // Building it
  // ------------------------------------------------------------------------------------------

  const KERNEL_BLOCK: nat := 1024

  /** One program of the page-copy kernel: the request's table row into its slice, a block at a time. */
  method CopyRow(pages: array<int>, row: seq<int>, start: nat, end: nat)
    requires start <= end <= pages.Length && end - start <= |row|
    modifies pages
    ensures forall k | 0 <= k < pages.Length :: pages[k] == if start <= k < end then row[k - start] else old(pages[k])
  {
    var n, i := end - start, 0;
    while i < n
      invariant i <= n + KERNEL_BLOCK
      invariant forall k | 0 <= k < pages.Length ::
                  pages[k] == if start <= k < start + i && k < end then row[k - start] else old(pages[k])
    {
      forall k | 0 <= k < KERNEL_BLOCK && i + k < n { pages[start + i + k] := row[i + k]; }
      i := i + KERNEL_BLOCK;
    }
  }

  /** Writing one request's slice keeps the slices of the others. */
  lemma SliceKept(lens: seq<nat>, pages: seq<int>, pages': seq<int>, r: nat, i: nat, row: seq<int>)
    requires r < |lens| && i < |lens| && i != r && |pages'| == |pages|
    requires forall k | 0 <= k < |pages| && !(Offsets(lens)[r] <= k < Offsets(lens)[r + 1]) :: pages'[k] == pages[k]
    requires HasRow(pages, Offsets(lens)[i], Offsets(lens)[i + 1], row)
    ensures HasRow(pages', Offsets(lens)[i], Offsets(lens)[i + 1], row)
  {
    if i < r {
      OffsetsOrdered(lens, i + 1, r);
    } else {
      OffsetsOrdered(lens, r + 1, i);
    }
  }

  class KvBuffers {
    const offsets: array<nat>
    const deviceOffsets: array<nat>
    const pages: array<int>
    const lastFill: array<nat>
    const deviceLastFill: array<nat>

    /** The buffers do not overlap, and the first offset, which no batch writes, is zero. */
    ghost predicate Valid()
      reads offsets
    {
      && offsets.Length == deviceOffsets.Length == lastFill.Length + 1 == deviceLastFill.Length + 1
      && offsets != deviceOffsets && offsets != lastFill && offsets != deviceLastFill
      && deviceOffsets != lastFill && deviceOffsets != deviceLastFill && lastFill != deviceLastFill
      && pages as object != offsets && pages as object != deviceOffsets
      && pages as object != lastFill && pages as object != deviceLastFill
      && offsets[0] == 0
    }

    constructor (maxRequests: nat, maxPages: nat)
      ensures Valid() && lastFill.Length == maxRequests && pages.Length == maxPages
      ensures fresh(offsets) && fresh(deviceOffsets) && fresh(pages) && fresh(lastFill) && fresh(deviceLastFill)
    {
      offsets := new nat[maxRequests + 1](_ => 0);
      deviceOffsets := new nat[maxRequests + 1](_ => 0);
      pages := new int[maxPages](_ => 0);
      lastFill := new nat[maxRequests](_ => 0);
      deviceLastFill := new nat[maxRequests](_ => 0);
    }

    /** The kernel's programs, one a request, in whatever order they come. */
    method CopyPages(counts: seq<nat>, table: seq<seq<int>>, order: seq<nat>)
      requires |table| == |counts| && Sum(counts) <= pages.Length
      requires forall i | 0 <= i < |counts| :: counts[i] <= |table[i]|
      requires forall i | 0 <= i < |counts| :: i in order
      requires forall r | r in order :: r < |counts|
      modifies pages
      ensures forall i | 0 <= i < |counts| :: HasRow(pages[..], Offsets(counts)[i], Offsets(counts)[i + 1], table[i])
    {
      var o := Offsets(counts);
      for t := 0 to |order|
        invariant forall i | 0 <= i < |counts| && i in order[..t] :: HasRow(pages[..], o[i], o[i + 1], table[i])
      {
        var r := order[t];
        assert r in order;
        ghost var before := pages[..];
        OffsetStep(counts, r);
        OffsetsOrdered(counts, r + 1, |counts|);
        LastOffset(counts);
        CopyRow(pages, table[r], o[r], o[r + 1]);
        forall i | 0 <= i < |counts| && i in order[..t + 1] ensures HasRow(pages[..], o[i], o[i + 1], table[i]) {
          if i != r {
            assert i in order[..t];
            SliceKept(counts, before, pages[..], r, i, table[i]);
          }
        }
      }
      assert order[..|order|] == order;
    }

    method StoreOffsets(counts: seq<nat>)
      requires Valid() && |counts| <= lastFill.Length
      modifies offsets, deviceOffsets
      ensures Valid()
      ensures offsets[..|counts| + 1] == deviceOffsets[..|counts| + 1] == Offsets(counts)
    {
      forall i | 1 <= i <= |counts| { offsets[i] := Offsets(counts)[i]; }
      forall i | 0 <= i <= |counts| { deviceOffsets[i] := offsets[i]; }
    }

    method StoreFill(seqLens: seq<nat>, pageSize: nat)
      requires Valid() && |seqLens| <= lastFill.Length && pageSize > 0
      modifies lastFill, deviceLastFill
      ensures Valid()
      ensures forall i | 0 <= i < |seqLens| :: lastFill[i] == deviceLastFill[i] == LastFill(seqLens[i], pageSize)
    {
      forall i | 0 <= i < |seqLens| { lastFill[i] := LastFill(seqLens[i], pageSize); }
      forall i | 0 <= i < |seqLens| { deviceLastFill[i] := lastFill[i]; }
    }

    /** Lays a batch out; afterwards both copies of the buffers encode it, whatever they held before. */
    method Compute(seqLens: seq<nat>, table: seq<seq<int>>, pageSize: nat, order: seq<nat>) returns (l: Layout)
      requires Valid() && pageSize > 0
      requires |table| == |seqLens| <= lastFill.Length
      requires Sum(PageCounts(seqLens, pageSize)) <= pages.Length
      requires forall i | 0 <= i < |table| :: Pages(seqLens[i], pageSize) <= |table[i]|
      requires forall i | 0 <= i < |table| :: i in order
      requires forall r | r in order :: r < |table|
      modifies offsets, deviceOffsets, pages, lastFill, deviceLastFill
      ensures Valid()
      ensures Encodes(l, table, seqLens, pageSize)
      ensures l == Layout(deviceOffsets[..|table| + 1], pages[..|l.pages|], deviceLastFill[..|table|])
      ensures offsets[..|table| + 1] == l.offsets && lastFill[..|table|] == l.lastFill
    {
      var counts := PageCounts(seqLens, pageSize);
      StoreOffsets(counts);
      CopyPages(counts, table, order);
      StoreFill(seqLens, pageSize);
      LastOffset(counts);
      var total := offsets[|table|];
      l := Layout(deviceOffsets[..|table| + 1], pages[..total], deviceLastFill[..|table|]);
      forall i | 0 <= i < |table| ensures HasRow(l.pages, l.offsets[i], l.offsets[i + 1], table[i]) {
        OffsetsOrdered(counts, i + 1, |counts|);
        assert HasRow(pages[..], l.offsets[i], l.offsets[i + 1], table[i]);
      }
    }
  }
}
