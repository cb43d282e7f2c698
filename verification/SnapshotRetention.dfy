/** Snapshot retention (internal/controller/snapshot_manager.go): an in-place insertion sort by
    creation time, then deletion of the oldest snapshots, which may stop at a failed delete. */
module SnapshotRetention {
  import opened Clock
  import opened Options

  datatype Snapshot = Snapshot(name: string, created: Time)

  // ---------------------------------------------------------------------------------------------
  // The sort
  // ---------------------------------------------------------------------------------------------

  /** `x` moves left past every strictly younger snapshot at the end of `s`. */
  function Insert(s: seq<Snapshot>, x: Snapshot): (r: seq<Snapshot>)
    ensures |r| == |s| + 1
  {
    if s == [] || s[|s| - 1].created <= x.created then s + [x]
    else Insert(s[..|s| - 1], x) + [s[|s| - 1]]
  }

  function SortByAge(s: seq<Snapshot>): (r: seq<Snapshot>)
    ensures |r| == |s|
  {
    if s == [] then [] else Insert(SortByAge(s[..|s| - 1]), s[|s| - 1])
  }

  lemma SortSnoc(s: seq<Snapshot>, i: nat)
    requires i < |s|
    ensures SortByAge(s[..i + 1]) == Insert(SortByAge(s[..i]), s[i])
  {
    assert s[..i + 1][..i] == s[..i];
  }

  lemma SortOne(s: seq<Snapshot>)
    requires |s| > 0
    ensures SortByAge(s[..1]) == s[..1]
  {
    SortSnoc(s, 0);
    assert s[..0] == [] && s[..1] == [s[0]];
  }

  method SortSnapshotsByAge(items: array<Snapshot>)
    modifies items
    ensures items[..] == SortByAge(old(items[..]))
  {
    hide SortByAge, Insert;
    ghost var s := items[..];
    if items.Length == 0 {
      SortNothing();
      return;
    }
    var i := 1;
    SortOne(s);
    while i < items.Length
      invariant 1 <= i <= items.Length
      invariant items[..i] == SortByAge(s[..i])
      invariant items[i..] == s[i..]
    {
      assert items[i] == items[i..][0] == s[i];
      SortSnoc(s, i);
      SinkInto(items, i);
      assert items[i + 1..] == s[i..][1..];
      i := i + 1;
    }
    assert s[..i] == s;
  }

  lemma SortNothing()
    ensures SortByAge([]) == []
  {
  }

  /** `p` with `x` put before its j-th element. */
  function Placed(p: seq<Snapshot>, x: Snapshot, j: nat): seq<Snapshot>
    requires j <= |p|
  {
    p[..j] + [x] + p[j..]
  }

  /** What the swap finds at j - 1 and j, and what it makes of them. */
  lemma PlacedAround(p: seq<Snapshot>, x: Snapshot, j: nat)
    requires 0 < j <= |p|
    ensures var q := Placed(p, x, j);
      |q| == |p| + 1 && q[j] == x && q[j - 1] == p[j - 1] && q[j := q[j - 1]][j - 1 := q[j]] == Placed(p, x, j - 1)
  {
  }

  lemma PlacedLast(p: seq<Snapshot>, x: Snapshot)
    ensures Placed(p, x, |p|) == p + [x]
  {
  }

  lemma InsertStops(p: seq<Snapshot>, x: Snapshot, j: nat)
    requires j <= |p| && (j > 0 ==> p[j - 1].created <= x.created)
    requires forall k | j <= k < |p| :: x.created < p[k].created
    ensures Insert(p, x) == Placed(p, x, j)
    decreases |p|
  {
    if j < |p| {
      var n := |p| - 1;
      InsertStops(p[..n], x, j);
      assert Placed(p, x, j) == Placed(p[..n], x, j) + [p[n]];
    }
  }

  /** The inner loop: sinks items[i] into the sorted part before it, one swap at a time. */
  method SinkInto(items: array<Snapshot>, i: nat)
    requires 0 < i < items.Length
    modifies items
    ensures items[..i + 1] == Insert(old(items[..i]), old(items[i]))
    ensures items[i + 1..] == old(items[i + 1..])
  {
    hide Insert, Placed;
    ghost var p, x := items[..i], items[i];
    PlacedLast(p, x);
    assert items[..i + 1] == p + [x];
    var j := i;
    while j > 0
      invariant 0 <= j <= i
      invariant items[..i + 1] == Placed(p, x, j)
      invariant items[i + 1..] == old(items[i + 1..])
      invariant forall k | j <= k < |p| :: x.created < p[k].created
    {
      ghost var q := items[..i + 1];
      PlacedAround(p, x, j);
      assert items[j] == q[j] && items[j - 1] == q[j - 1];
      if items[j].created < items[j - 1].created {
        items[j], items[j - 1] := items[j - 1], items[j];
        assert items[..i + 1] == q[j := q[j - 1]][j - 1 := q[j]];
      } else {
        break;
      }
      j := j - 1;
    }
    InsertStops(p, x, j);
  }

  predicate Sorted(s: seq<Snapshot>) {
    forall i, j | 0 <= i <= j < |s| :: s[i].created <= s[j].created
  }

  /** The snapshots created at time t, in the order in which they are listed. */
  function At(s: seq<Snapshot>, t: Time): seq<Snapshot> {
    if s == [] then [] else At(s[..|s| - 1], t) + if s[|s| - 1].created == t then [s[|s| - 1]] else []
  }

  lemma AtSnoc(s: seq<Snapshot>, x: Snapshot, t: Time)
    ensures At(s + [x], t) == At(s, t) + if x.created == t then [x] else []
  {
    assert (s + [x])[..|s|] == s;
  }

  lemma {:induction false} InsertPermutes(s: seq<Snapshot>, x: Snapshot)
    ensures multiset(Insert(s, x)) == multiset(s) + multiset{x}
  {
    if s != [] && s[|s| - 1].created > x.created {
      var n := |s| - 1;
      InsertPermutes(s[..n], x);
      assert s == s[..n] + [s[n]];
    }
  }

  predicate UpTo(s: seq<Snapshot>, t: Time) {
    forall i | 0 <= i < |s| :: s[i].created <= t
  }

  lemma {:induction false} InsertUpTo(s: seq<Snapshot>, x: Snapshot, t: Time)
    requires UpTo(s, t) && x.created <= t
    ensures UpTo(Insert(s, x), t)
  {
    if s != [] && s[|s| - 1].created > x.created {
      InsertUpTo(s[..|s| - 1], x, t);
    }
  }

  lemma {:induction false} InsertSorts(s: seq<Snapshot>, x: Snapshot)
    requires Sorted(s)
    ensures Sorted(Insert(s, x))
  {
    if s != [] && s[|s| - 1].created > x.created {
      var n := |s| - 1;
      InsertSorts(s[..n], x);
      InsertUpTo(s[..n], x, s[n].created);
    }
  }

  lemma {:induction false} InsertIsStable(s: seq<Snapshot>, x: Snapshot, t: Time)
    ensures At(Insert(s, x), t) == At(s, t) + if x.created == t then [x] else []
  {
    hide At;
    if s == [] || s[|s| - 1].created <= x.created {
      AtSnoc(s, x, t);
    } else {
      var n := |s| - 1;
      InsertIsStable(s[..n], x, t);
      AtSnoc(Insert(s[..n], x), s[n], t);
      assert s == s[..n] + [s[n]];
      AtSnoc(s[..n], s[n], t);
    }
  }

  /** The result is a sorted permutation, and snapshots of the same age keep their order. */
  lemma {:induction false} SortIsStableSort(s: seq<Snapshot>)
    ensures Sorted(SortByAge(s)) && multiset(SortByAge(s)) == multiset(s)
    ensures forall t :: At(SortByAge(s), t) == At(s, t)
  {
    hide At, Insert, Sorted;
    if s == [] {
      EmptyIsSorted();
    } else {
      var n := |s| - 1;
      assert s == s[..n] + [s[n]];
      SortIsStableSort(s[..n]);
      InsertSorts(SortByAge(s[..n]), s[n]);
      InsertPermutes(SortByAge(s[..n]), s[n]);
      forall t ensures At(SortByAge(s), t) == At(s, t) {
        InsertIsStable(SortByAge(s[..n]), s[n], t);
        AtSnoc(s[..n], s[n], t);
      }
    }
  }

  lemma EmptyIsSorted()
    ensures Sorted([])
  {
  }

  // ---------------------------------------------------------------------------------------------
  // Pruning
  // ---------------------------------------------------------------------------------------------

  function Elements(s: seq<Snapshot>): set<Snapshot> {
    set x | x in s
  }

  /** How many deletes succeed: all that are due, or those before the failing one. */
  function Deletions(listed: nat, retention: nat, failsAt: Option<nat>): nat {
    if listed <= retention then 0
    else if failsAt.Some? && failsAt.value < listed - retention then failsAt.value
    else listed - retention
  }

  lemma SortKeepsElements(s: seq<Snapshot>)
    ensures Elements(SortByAge(s)) == Elements(s)
  {
    SortIsStableSort(s);
    assert forall x :: x in SortByAge(s) <==> x in multiset(SortByAge(s));
    assert forall x :: x in s <==> x in multiset(s);
  }

  /** What a prune removes from the store: a prefix of the listing sorted by age. */
  function Pruned(listing: seq<Snapshot>, retention: nat, failsAt: Option<nat>): set<Snapshot> {
    Elements(SortByAge(listing)[..Deletions(|listing|, retention, failsAt)])
  }

  class SnapshotStore {
    var snapshots: set<Snapshot>

    /** `retention` is the policy's count, if there is a policy. `listing` is what the List call returns,
        in whatever order, if it succeeds; the delete numbered `failsAt` fails. */
    method PruneOldSnapshots(retention: Option<nat>, listing: Option<seq<Snapshot>>, failsAt: Option<nat>) returns (error: bool)
      modifies this
      ensures retention.None? || listing.None? ==> snapshots == old(snapshots) && error == retention.Some?
      ensures retention.Some? && listing.Some? ==>
        && snapshots == old(snapshots) - Pruned(listing.value, retention.value, failsAt)
        && error == (failsAt.Some? && retention.value + failsAt.value < |listing.value|)
    {
      hide SortByAge;
      if retention.None? {
        return false;
      }
      if listing.None? {
        return true;
      }
      var found, keep := listing.value, retention.value;
      if |found| <= keep {
        return false;
      }
      var items := new Snapshot[|found|](i requires 0 <= i < |found| => found[i]);
      assert items[..] == found;
      SortSnapshotsByAge(items);
      var d;
      error, d := DeleteInOrder(items[..|found| - keep], failsAt);
      assert SortByAge(found)[..|found| - keep][..d] == SortByAge(found)[..d];
    }

    method DeleteInOrder(toDelete: seq<Snapshot>, failsAt: Option<nat>) returns (error: bool, d: nat)
      modifies this
      ensures error == (failsAt.Some? && failsAt.value < |toDelete|)
      ensures d == if error then failsAt.value else |toDelete|
      ensures snapshots == old(snapshots) - Elements(toDelete[..d])
    {
      d := 0;
      for i := 0 to |toDelete|
        invariant d == i && (failsAt.Some? ==> i <= failsAt.value)
        invariant snapshots == old(snapshots) - Elements(toDelete[..i])
      {
        if failsAt == Some(i) {
          return true, i;
        }
        assert Elements(toDelete[..i + 1]) == Elements(toDelete[..i]) + {toDelete[i]};
        snapshots := snapshots - {toDelete[i]};
        d := d + 1;
      }
      return false, |toDelete|;
    }
  }

  // ---------------------------------------------------------------------------------------------
  // Any history of creations and prunes
  // ---------------------------------------------------------------------------------------------

  /** What is stored, and everything that was ever created. */
  datatype History = History(stored: set<Snapshot>, created: set<Snapshot>)

  /** A prune whose List call failed changes nothing. */
  datatype Event = Create(s: Snapshot) | Prune(listing: seq<Snapshot>, failsAt: Option<nat>) | ListFails

  /** The listing names every stored snapshot once, and a new snapshot is no older than any before it. */
  ghost predicate Legal(h: History, e: Event) {
    match e
    case Create(s) => s !in h.created && forall x | x in h.created :: x.created <= s.created
    case Prune(listing, _) => Elements(listing) == h.stored && |listing| == |h.stored|
    case ListFails => true
  }

  function Step(retention: nat, h: History, e: Event): History {
    match e
    case Create(s) => History(h.stored + {s}, h.created + {s})
    case Prune(listing, failsAt) => h.(stored := h.stored - Pruned(listing, retention, failsAt))
    case ListFails => h
  }

  function HistoryAt(retention: nat, es: seq<Event>, n: nat): History
    requires n <= |es|
  {
    if n == 0 then History({}, {}) else Step(retention, HistoryAt(retention, es, n - 1), es[n - 1])
  }

  ghost predicate Run(retention: nat, es: seq<Event>) {
    forall i | 0 <= i < |es| :: Legal(HistoryAt(retention, es, i), es[i])
  }

  /** No survivor is older than a deleted snapshot, and nothing was deleted below the retention count. */
  ghost predicate NewestKept(retention: nat, h: History) {
    && h.stored <= h.created
    && (forall x, y | x in h.created - h.stored && y in h.stored :: x.created <= y.created)
    && (h.created == h.stored || |h.stored| >= retention)
  }

  lemma {:induction false} ElementsSize(s: seq<Snapshot>)
    ensures |Elements(s)| <= |s|
  {
    if s != [] {
      var n := |s| - 1;
      ElementsSize(s[..n]);
      assert Elements(s) == Elements(s[..n]) + {s[n]};
    }
  }

  /** One prune, failed or not: what goes is no younger than what stays, and exactly as many stay as
      the deletes leave. */
  lemma PruneTakesTheOldest(listing: seq<Snapshot>, retention: nat, failsAt: Option<nat>)
    requires |Elements(listing)| == |listing|
    ensures var gone := Pruned(listing, retention, failsAt);
      && gone <= Elements(listing)
      && |Elements(listing) - gone|
         == (if |listing| <= retention then |listing|
             else if failsAt.Some? && retention + failsAt.value < |listing| then |listing| - failsAt.value else retention)
      && forall x, y | x in gone && y in Elements(listing) - gone :: x.created <= y.created
  {
    hide SortByAge, Elements;
    SortKeepsElements(listing);
    SortIsStableSort(listing);
    SplitSorted(SortByAge(listing), Deletions(|listing|, retention, failsAt));
  }

  lemma SplitSorted(s: seq<Snapshot>, d: nat)
    requires Sorted(s) && d <= |s| && |Elements(s)| == |s|
    ensures var gone := Elements(s[..d]);
      && gone <= Elements(s) && |Elements(s) - gone| == |s| - d
      && forall x, y | x in gone && y in Elements(s) - gone :: x.created <= y.created
  {
    var gone, rest := Elements(s[..d]), Elements(s[d..]);
    assert s == s[..d] + s[d..];
    assert Elements(s) == gone + rest;
    ElementsSize(s[..d]);
    ElementsSize(s[d..]);
    SplitSizes(gone, rest);
  }

  lemma SplitSizes<T>(a: set<T>, b: set<T>)
    ensures |a + b| - |a| == |(a + b) - a| <= |b|
  {
    assert a + b == a + ((a + b) - a);
    assert b == ((a + b) - a) + (a * b);
  }

  lemma CreateKeepsNewest(retention: nat, h: History, s: Snapshot)
    requires NewestKept(retention, h) && Legal(h, Create(s))
    ensures NewestKept(retention, Step(retention, h, Create(s)))
  {
    var h' := Step(retention, h, Create(s));
    assert h'.created - h'.stored == h.created - h.stored;
    assert |h'.stored| == |h.stored| + 1;
  }

  lemma PruneKeepsNewest(retention: nat, h: History, listing: seq<Snapshot>, failsAt: Option<nat>)
    requires NewestKept(retention, h) && Legal(h, Prune(listing, failsAt))
    ensures NewestKept(retention, Step(retention, h, Prune(listing, failsAt)))
  {
    hide Pruned, Elements;
    PruneTakesTheOldest(listing, retention, failsAt);
    var gone := Pruned(listing, retention, failsAt);
    var stored' := h.stored - gone;
    assert stored' == Elements(listing) - gone;
    forall x, y | x in h.created - stored' && y in stored' ensures x.created <= y.created {
      assert x in h.created - h.stored || x in gone;
    }
    if |listing| <= retention {
      assert |gone| == 0 by { assert h.stored == gone + stored'; }
      assert stored' == h.stored;
    }
  }

  lemma StepKeepsNewest(retention: nat, h: History, e: Event)
    requires NewestKept(retention, h) && Legal(h, e)
    ensures NewestKept(retention, Step(retention, h, e))
  {
    hide NewestKept, Legal, Pruned;
    match e
    case Create(s) => CreateKeepsNewest(retention, h, s);
    case Prune(listing, failsAt) => PruneKeepsNewest(retention, h, listing, failsAt);
    case ListFails =>
  }

  lemma {:induction false} NewestAlwaysKept(retention: nat, es: seq<Event>, n: nat)
    requires n <= |es| && Run(retention, es)
    ensures NewestKept(retention, HistoryAt(retention, es, n))
  {
    hide Step, Legal;
    if n > 0 {
      NewestAlwaysKept(retention, es, n - 1);
      StepKeepsNewest(retention, HistoryAt(retention, es, n - 1), es[n - 1]);
    }
  }

  /** A prune in which no delete that is due fails. */
  predicate CleanPrune(retention: nat, e: Event) {
    e.Prune? && (e.failsAt.None? || retention + e.failsAt.value >= |e.listing|)
  }

  /** After a prune without a failed delete the store holds the newest `retention` snapshots ever
      created, or all of them if there were fewer, whatever failed before. */
  lemma SurvivorsAreTheNewest(retention: nat, es: seq<Event>, n: nat)
    requires n < |es| && Run(retention, es) && CleanPrune(retention, es[n])
    ensures var h := HistoryAt(retention, es, n + 1);
      && |h.stored| == (if |h.created| < retention then |h.created| else retention)
      && h.stored <= h.created
      && forall x, y | x in h.created - h.stored && y in h.stored :: x.created <= y.created
  {
    NewestAlwaysKept(retention, es, n);
    NewestAlwaysKept(retention, es, n + 1);
    var h, h' := HistoryAt(retention, es, n), HistoryAt(retention, es, n + 1);
    assert Legal(h, es[n]);
    hide Pruned;
    PruneTakesTheOldest(es[n].listing, retention, es[n].failsAt);
    assert h'.created == h'.stored + (h'.created - h'.stored);
  }
}
