/** The home page: the approved and pending counters and the tabbed list of
    the newest items. */
module Home {
  import opened Seqs
  import opened Records

  const HOME_LIMIT := 6
  const ALL_TAB := "all"

  predicate OnTab(it: Item, tab: string) {
    tab == ALL_TAB || it.status == tab
  }

  function TabFn(tab: string): Item -> bool {
    (it: Item) => OnTab(it, tab)
  }

  function ApprovedCount(items: seq<Item>): nat { |Filter(items, IsApproved)| }

  function PendingCount(items: seq<Item>): nat { |Filter(items, IsPending)| }

  /** The two counters never add up to more than the number of items. */
  lemma CountsBounded(items: seq<Item>)
    ensures ApprovedCount(items) + PendingCount(items) <= |items|
  {
    FilterPartition3(items, IsApproved, IsPending, IsRejected);
  }

  /** The tab's items, newest first, cut to the first six. */
  function HomeVisible(items: seq<Item>, tab: string): (r: seq<Item>)
    ensures |r| <= HOME_LIMIT
    ensures var n := |Filter(items, TabFn(tab))|;
            |r| == if n <= HOME_LIMIT then n else HOME_LIMIT
    ensures forall it :: it in r ==> it in items && OnTab(it, tab)
    ensures NewestFirst(r)
  {
    var kept := Filter(items, TabFn(tab));
    var sorted := SortNewestFirst(kept);
    SameMembers(kept, sorted);
    var r := Take(sorted, HOME_LIMIT);
    forall it | it in r ensures it in items && OnTab(it, tab) {
      var i :| 0 <= i < |r| && r[i] == it;
      assert sorted[i] == it && it in kept;
      assert TabFn(tab)(it);
    }
    r
  }

  /** The list shows the newest items of the tab: an item on the tab that
      the list leaves out (or shows fewer times than it occurs) is no newer
      than any item the list shows. */
  lemma {:induction false} HomeShowsNewest(items: seq<Item>, tab: string, it: Item)
    requires it in items && OnTab(it, tab)
    requires multiset(HomeVisible(items, tab))[it] < multiset(items)[it]
    ensures forall x :: x in HomeVisible(items, tab) ==> x.createdAt >= it.createdAt
  {
    var kept := Filter(items, TabFn(tab));
    var sorted := SortNewestFirst(kept);
    var r := HomeVisible(items, tab);
    FilterCounts(items, TabFn(tab), it);
    assert r == sorted[..|r|];
    PrefixMissesLater(sorted, |r|, it);
    NewerThanLater(sorted, |r|, it);
  }

  /** In a newest-first list, everything before position k is at least as
      new as an item found at or after k. */
  lemma NewerThanLater(sorted: seq<Item>, k: nat, it: Item)
    requires NewestFirst(sorted) && k <= |sorted|
    requires exists j :: k <= j < |sorted| && sorted[j] == it
    ensures forall x :: x in sorted[..k] ==> x.createdAt >= it.createdAt
  {
    var j :| k <= j < |sorted| && sorted[j] == it;
    forall x | x in sorted[..k] ensures x.createdAt >= it.createdAt {
      var i :| 0 <= i < k && sorted[i] == x;
    }
  }

  /** The "all" tab keeps every status: with at most six items it shows all
      of them. */
  lemma {:induction false} AllTabShowsEverything(items: seq<Item>)
    requires |items| <= HOME_LIMIT
    ensures multiset(HomeVisible(items, ALL_TAB)) == multiset(items)
  {
    FilterAll(items, TabFn(ALL_TAB));
    var sorted := SortNewestFirst(items);
    assert HomeVisible(items, ALL_TAB) == Take(sorted, HOME_LIMIT) == sorted;
  }
}
