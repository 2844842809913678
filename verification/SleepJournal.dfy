/** What happens across the ranks while the engine is put to sleep and woken, in order. */
module SleepJournal {

  /** Prepared: a rank has tried to save its snapshot. Dropped: it has given it up. Unmapped: it has
      released one mapped allocation. */
  datatype Event =
    | Prepared(rank: nat, ok: bool)
    | Dropped(rank: nat)
    | Unmapped(rank: nat)
    | SchedulerPaused
    | SchedulerResumed

  /** The journal that the ranks of one engine and the engine itself write to. */
  class Journal {
    ghost var events: seq<Event>

    constructor ()
      ensures events == []
    {
      events := [];
    }
  }

  /** Whether a rank holds a snapshot after these events. */
  predicate Held(events: seq<Event>, rank: nat) {
    if |events| == 0 then false
    else
      match events[|events| - 1]
      case Prepared(r, ok) => (r == rank && ok) || Held(events[..|events| - 1], rank)
      case Dropped(r) => r != rank && Held(events[..|events| - 1], rank)
      case _ => Held(events[..|events| - 1], rank)
  }

  predicate SchedulerStopped(events: seq<Event>) {
    if |events| == 0 then false
    else
      match events[|events| - 1]
      case SchedulerPaused => true
      case SchedulerResumed => false
      case _ => SchedulerStopped(events[..|events| - 1])
  }

  /** Scheduling is paused and every one of n ranks holds a snapshot. */
  ghost predicate Ready(events: seq<Event>, n: nat) {
    SchedulerStopped(events) && forall j | 0 <= j < n :: Held(events, j)
  }

  /** No rank has released an allocation unless, at that moment, scheduling was paused and every rank
      held a snapshot. */
  ghost predicate TwoPhase(events: seq<Event>, n: nat) {
    forall p | 0 <= p < |events| && events[p].Unmapped? :: Ready(events[..p], n)
  }

  /** Rank j has saved a snapshot between places lo and hi. */
  predicate PreparedWithin(events: seq<Event>, j: nat, lo: nat, hi: nat)
    requires hi <= |events|
  {
    exists q | lo <= q < hi :: events[q] == Prepared(j, true)
  }

  function Unmaps(rank: nat, k: nat): (r: seq<Event>)
    ensures |r| == k && forall i | 0 <= i < k :: r[i] == Unmapped(rank)
  {
    seq(k, _ => Unmapped(rank))
  }

  lemma MoreUnmaps(events: seq<Event>, rank: nat, k: nat, m: nat)
    ensures (events + Unmaps(rank, k)) + Unmaps(rank, m) == events + Unmaps(rank, k + m)
  {
  }

  lemma Appended(events: seq<Event>, e: Event, n: nat)
    requires TwoPhase(events, n) && (e.Unmapped? ==> Ready(events, n))
    ensures TwoPhase(events + [e], n)
    ensures SchedulerStopped(events + [e]) == (e.SchedulerPaused? || (!e.SchedulerResumed? && SchedulerStopped(events)))
    ensures forall j: nat :: Held(events + [e], j) == ((e == Prepared(j, true)) || (e != Dropped(j) && Held(events, j)))
  {
    var more := events + [e];
    assert more[..|more| - 1] == events;
    forall p | 0 <= p < |more| && more[p].Unmapped? ensures Ready(more[..p], n) {
      assert p < |events| ==> more[..p] == events[..p];
    }
  }

  /** Releasing allocations when every rank is ready keeps every rank ready. */
  lemma {:induction false} UnmapsAppended(events: seq<Event>, rank: nat, k: nat, n: nat)
    requires TwoPhase(events, n) && Ready(events, n)
    ensures TwoPhase(events + Unmaps(rank, k), n)
    ensures SchedulerStopped(events + Unmaps(rank, k))
    ensures forall j: nat :: Held(events + Unmaps(rank, k), j) == Held(events, j)
    decreases k
  {
    if k == 0 {
      assert events + Unmaps(rank, 0) == events;
    } else {
      UnmapsAppended(events, rank, k - 1, n);
      Appended(events + Unmaps(rank, k - 1), Unmapped(rank), n);
      assert events + Unmaps(rank, k) == (events + Unmaps(rank, k - 1)) + [Unmapped(rank)];
    }
  }

  /** A rank that holds a snapshot at hi and held none at lo has saved it in between. */
  lemma {:induction false} SavedInBetween(events: seq<Event>, j: nat, lo: nat, hi: nat)
    requires lo <= hi <= |events| && !Held(events[..lo], j) && Held(events[..hi], j)
    ensures PreparedWithin(events, j, lo, hi)
    decreases hi
  {
    if lo < hi {
      assert events[..hi][..hi - 1] == events[..hi - 1];
      if events[hi - 1] != Prepared(j, true) {
        SavedInBetween(events, j, lo, hi - 1);
      }
    }
  }

  /** The two-phase rule in terms of a stretch of the journal that begins with no snapshot held: every
      release in it comes after a successful preparation of every rank in it. */
  lemma ReleasesFollowPreparations(events: seq<Event>, n: nat, lo: nat, p: nat, j: nat)
    requires TwoPhase(events, n) && lo <= p < |events| && events[p].Unmapped? && j < n
    requires !Held(events[..lo], j)
    ensures PreparedWithin(events, j, lo, p)
  {
    assert Ready(events[..p], n);
    SavedInBetween(events, j, lo, p);
  }
}
