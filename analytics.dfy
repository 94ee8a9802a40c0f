/** The analytics page: status counters, the week-over-week trend, the
    category and location breakdowns built by counting into a dictionary,
    the claim success rate and the counts of the last seven days. The
    current time is a parameter. */
module Analytics {
  import opened Seqs
  import opened Text
  import opened Records
  import opened Arith

  const WEEK_MS := 7 * 24 * 60 * 60 * 1000
  const CATEGORY_LIMIT := 8
  const LOCATION_LIMIT := 6

  predicate HasStatus(it: Item, status: string) { it.status == status }

  function HasStatusFn(status: string): Item -> bool {
    (it: Item) => HasStatus(it, status)
  }

  function StatusCount(items: seq<Item>, status: string): nat {
    |Filter(items, HasStatusFn(status))|
  }

  /** The three status counters never exceed the number of items, and add
      up to it when every item has one of the three statuses. */
  lemma {:induction false} StatusCountsBounded(items: seq<Item>)
    ensures StatusCount(items, APPROVED) + StatusCount(items, PENDING) + StatusCount(items, REJECTED) <= |items|
    ensures (forall i :: 0 <= i < |items| ==> items[i].status in {APPROVED, PENDING, REJECTED}) ==>
            StatusCount(items, APPROVED) + StatusCount(items, PENDING) + StatusCount(items, REJECTED) == |items|
  {
    FilterPartition3(items, HasStatusFn(APPROVED), HasStatusFn(PENDING), HasStatusFn(REJECTED));
  }

  predicate ClaimHasStatus(c: Claim, status: string) { c.status == status }

  function ResolvedCount(claims: seq<Claim>): (n: nat)
    ensures n <= |claims|
  {
    |Filter(claims, (c: Claim) => ClaimHasStatus(c, RESOLVED))|
  }

  // ----- The dictionary count behind the category and location charts -----

  /** One bar of a chart: a name and its count. */
  datatype Bar = Bar(name: string, value: nat)

  /** The accumulator of `reduce`: the dictionary's counts and the order in
      which its keys were first inserted, which Object.entries follows. */
  datatype Tally = Tally(order: seq<string>, counts: map<string, nat>)

  predicate TallyOk(t: Tally) {
    && NoDuplicates(t.order)
    && (forall k :: k in t.counts ==> k in t.order)
    && (forall k :: k in t.order ==> k in t.counts)
  }

  /** `acc[key] = (acc[key] || 0) + 1` */
  function Bump(t: Tally, key: string): Tally {
    if key in t.counts then Tally(t.order, t.counts[key := t.counts[key] + 1])
    else Tally(t.order + [key], t.counts[key := 1])
  }

  /** The dictionary after counting every key, left to right. */
  function TallyOf(keys: seq<string>): (t: Tally)
    ensures TallyOk(t)
    ensures forall k :: k in t.counts <==> k in keys
  {
    if keys == [] then Tally([], map[])
    else
      var init := keys[..|keys| - 1];
      var t := TallyOf(init);
      var k := keys[|keys| - 1];
      assert forall x :: x in keys <==> x in init || x == k by {
        assert keys == init + [k];
      }
      BumpOk(t, k);
      Bump(t, k)
  }

  /** Bumping keeps the key order free of duplicates and in step with the
      dictionary. */
  lemma BumpOk(t: Tally, k: string)
    requires TallyOk(t)
    ensures TallyOk(Bump(t, k))
    ensures forall x :: x in Bump(t, k).counts <==> x in t.counts || x == k
  {
    if k !in t.counts {
      assert forall i :: 0 <= i < |t.order| ==> t.order[i] != k;
    }
  }

  /** TallyOf on a non-empty list: the count of all but the last key,
      bumped by the last key. */
  lemma TallyOfLast(keys: seq<string>)
    requires keys != []
    ensures TallyOf(keys) == Bump(TallyOf(keys[..|keys| - 1]), keys[|keys| - 1])
  {
  }

  /** How many times `k` occurs in `keys`. */
  function Occurrences(keys: seq<string>, k: string): nat {
    if keys == [] then 0
    else Occurrences(keys[..|keys| - 1], k) + (if keys[|keys| - 1] == k then 1 else 0)
  }

  /** Each key's count is its number of occurrences. */
  lemma {:induction false} TallyCounts(keys: seq<string>, k: string)
    requires k in keys
    ensures k in TallyOf(keys).counts && TallyOf(keys).counts[k] == Occurrences(keys, k)
  {
    var init := keys[..|keys| - 1];
    assert keys == init + [keys[|keys| - 1]];
    if k in init {
      TallyCounts(init, k);
    } else {
      assert Occurrences(init, k) == 0 by { NoOccurrences(init, k); }
    }
  }

  lemma {:induction false} NoOccurrences(keys: seq<string>, k: string)
    requires k !in keys
    ensures Occurrences(keys, k) == 0
  {
    if keys != [] {
      NoOccurrences(keys[..|keys| - 1], k);
    }
  }

  /** The bars of a dictionary, in key order. */
  function Bars(t: Tally): (r: seq<Bar>)
    requires TallyOk(t)
    ensures |r| == |t.order|
    ensures forall i :: 0 <= i < |r| ==> r[i] == Bar(t.order[i], t.counts[t.order[i]])
  {
    BarsOf(t.order, t.counts)
  }

  function BarsOf(order: seq<string>, counts: map<string, nat>): (r: seq<Bar>)
    requires forall k :: k in order ==> k in counts
    ensures |r| == |order|
    ensures forall i :: 0 <= i < |r| ==> r[i] == Bar(order[i], counts[order[i]])
  {
    if order == [] then [] else [Bar(order[0], counts[order[0]])] + BarsOf(order[1..], counts)
  }

  function BarValue(b: Bar): int { b.value }

  /** Raising one bar by one raises the total by one. */
  lemma {:induction false} TotalRaise(bars: seq<Bar>, raised: seq<Bar>, p: nat)
    requires p < |bars| && raised == bars[p := bars[p].(value := bars[p].value + 1)]
    ensures Sum(raised, BarValue) == Sum(bars, BarValue) + 1
  {
    if p > 0 {
      TotalRaise(bars[1..], raised[1..], p - 1);
    }
  }

  /** Bumping a key already counted raises its bar and no other. */
  lemma BarsBumpOld(t: Tally, k: string, p: nat)
    requires TallyOk(t) && p < |t.order| && t.order[p] == k
    ensures TallyOk(Bump(t, k))
    ensures var before := Bars(t);
            Bars(Bump(t, k)) == before[p := before[p].(value := before[p].value + 1)]
  {
    BumpOk(t, k);
    var before, after := Bars(t), Bars(Bump(t, k));
    var expected := before[p := before[p].(value := before[p].value + 1)];
    forall i | 0 <= i < |after| ensures after[i] == expected[i] {
      if i != p {
        assert t.order[i] != k;
      }
    }
  }

  /** Where a counted key stands in the key order. */
  lemma KeyIndex(t: Tally, k: string) returns (p: nat)
    requires TallyOk(t) && k in t.counts
    ensures p < |t.order| && t.order[p] == k
  {
    p :| 0 <= p < |t.order| && t.order[p] == k;
  }

  /** Bumping a new key appends a bar of one. */
  lemma BarsBumpNew(t: Tally, k: string)
    requires TallyOk(t) && k !in t.counts
    ensures TallyOk(Bump(t, k))
    ensures Bars(Bump(t, k)) == Bars(t) + [Bar(k, 1)]
  {
    BumpOk(t, k);
    var before, after := Bars(t), Bars(Bump(t, k));
    forall i | 0 <= i < |after| ensures after[i] == (before + [Bar(k, 1)])[i] {
      if i < |before| {
        assert t.order[i] != k;
      }
    }
  }

  /** Bumping raises the total of the bars by one. */
  lemma BumpTotal(t: Tally, k: string)
    requires TallyOk(t)
    ensures TallyOk(Bump(t, k))
    ensures Sum(Bars(Bump(t, k)), BarValue) == Sum(Bars(t), BarValue) + 1
  {
    if k in t.counts {
      BumpTotalOld(t, k);
    } else {
      BumpTotalNew(t, k);
    }
  }

  lemma BumpTotalOld(t: Tally, k: string)
    requires TallyOk(t) && k in t.counts
    ensures TallyOk(Bump(t, k))
    ensures Sum(Bars(Bump(t, k)), BarValue) == Sum(Bars(t), BarValue) + 1
  {
    var p := KeyIndex(t, k);
    var before := Bars(t);
    var raised := before[p := before[p].(value := before[p].value + 1)];
    BarsBumpOld(t, k, p);
    TotalRaise(before, raised, p);
  }

  lemma BumpTotalNew(t: Tally, k: string)
    requires TallyOk(t) && k !in t.counts
    ensures TallyOk(Bump(t, k))
    ensures Sum(Bars(Bump(t, k)), BarValue) == Sum(Bars(t), BarValue) + 1
  {
    BarsBumpNew(t, k);
    SumConcat(Bars(t), [Bar(k, 1)], BarValue);
  }

  /** The counts add up to the number of keys counted. */
  lemma {:induction false} TallyTotal(keys: seq<string>)
    ensures Sum(Bars(TallyOf(keys)), BarValue) == |keys|
  {
    if keys != [] {
      var init := keys[..|keys| - 1];
      TallyTotal(init);
      TallyOfLast(keys);
      BumpTotal(TallyOf(init), keys[|keys| - 1]);
    }
  }

  /** Counting one more key of a list bumps the count of the prefix. */
  lemma TallyOfStep(keys: seq<string>, i: nat)
    requires i < |keys|
    ensures TallyOf(keys[..i + 1]) == Bump(TallyOf(keys[..i]), keys[i])
  {
    assert keys[..i + 1][..i] == keys[..i];
    TallyOfLast(keys[..i + 1]);
  }

  /** The reduce itself: each key bumps its entry of the dictionary. */
  method Count(keys: seq<string>) returns (t: Tally)
    ensures t == TallyOf(keys)
  {
    t := Tally([], map[]);
    var i := 0;
    while i < |keys|
      invariant 0 <= i <= |keys|
      invariant t == TallyOf(keys[..i])
    {
      TallyOfStep(keys, i);
      t := Bump(t, keys[i]);
      i := i + 1;
    }
    assert keys[..i] == keys;
  }


  // ----- Charts -----

  /** The comparator `(a, b) => b.value - a.value`: larger counts first. */
  predicate LargerFirst(a: Bar, b: Bar) { a.value >= b.value }

  predicate DistinctNames(bars: seq<Bar>) {
    forall i, j :: 0 <= i < j < |bars| ==> bars[i].name != bars[j].name
  }

  /** `.sort((a, b) => b.value - a.value).slice(0, n)`: the n largest bars
      (all of them when there are at most n), larger counts first. A bar
      left out is no larger than any bar kept, and among bars of equal count
      the ones kept come first in key order. */
  function Top(bars: seq<Bar>, n: nat): (r: seq<Bar>)
    ensures |r| == if |bars| <= n then |bars| else n
    ensures forall i, j :: 0 <= i < j < |r| ==> r[i].value >= r[j].value
    ensures multiset(r) <= multiset(bars)
    ensures |bars| <= n ==> multiset(r) == multiset(bars)
    ensures forall b, c :: multiset(r)[b] < multiset(bars)[b] && c in r ==> b.value <= c.value
    ensures forall e :: Filter(r, LevelWith(LargerFirst, e)) <= Filter(bars, LevelWith(LargerFirst, e))
    ensures forall b :: b in r ==> b in bars
    ensures DistinctNames(bars) ==> DistinctNames(r)
  {
    LargerFirstOrders();
    var sorted := SortBy(bars, LargerFirst);
    TopCut(bars, sorted, n);
    TopTiesAll(bars, n);
    Take(sorted, n)
  }

  /** The properties of cutting a sorted permutation of the bars to n. */
  lemma TopCut(bars: seq<Bar>, sorted: seq<Bar>, n: nat)
    requires |sorted| == |bars| && multiset(sorted) == multiset(bars) && SortedBy(sorted, LargerFirst)
    ensures var r := Take(sorted, n);
            && |r| == (if |bars| <= n then |bars| else n)
            && (forall i, j :: 0 <= i < j < |r| ==> r[i].value >= r[j].value)
            && multiset(r) <= multiset(bars)
            && (|bars| <= n ==> multiset(r) == multiset(bars))
            && (forall b, c :: multiset(r)[b] < multiset(bars)[b] && c in r ==> b.value <= c.value)
            && (forall b :: b in r ==> b in bars)
            && (DistinctNames(bars) ==> DistinctNames(r))
  {
    var r := Take(sorted, n);
    SameMembers(bars, sorted);
    SortKeepsDistinctNames(bars, sorted);
    TopLeftOut(bars, sorted, n);
    forall i, j | 0 <= i < j < |r| ensures r[i].value >= r[j].value {
      assert LargerFirst(sorted[i], sorted[j]);
    }
    assert forall b :: b in r ==> b in sorted;
  }

  /** Among bars of equal count, the cut keeps the first ones in key order,
      whatever the count. */
  lemma TopTiesAll(bars: seq<Bar>, n: nat)
    requires Total(LargerFirst) && Transitive(LargerFirst)
    ensures forall e :: Filter(Take(SortBy(bars, LargerFirst), n), LevelWith(LargerFirst, e))
                        <= Filter(bars, LevelWith(LargerFirst, e))
  {
    forall e ensures Filter(Take(SortBy(bars, LargerFirst), n), LevelWith(LargerFirst, e))
                     <= Filter(bars, LevelWith(LargerFirst, e)) {
      TopTies(bars, n, e);
    }
  }

  /** The comparator orders bars totally and transitively. */
  lemma LargerFirstOrders()
    ensures Total(LargerFirst) && Transitive(LargerFirst)
  {
  }

  /** Cutting the sorted bars to n leaves out only bars no larger than any
      bar kept. */
  lemma TopLeftOut(bars: seq<Bar>, sorted: seq<Bar>, n: nat)
    requires multiset(sorted) == multiset(bars) && SortedBy(sorted, LargerFirst)
    ensures var r := Take(sorted, n);
            && multiset(r) <= multiset(bars)
            && (forall b, c :: multiset(r)[b] < multiset(bars)[b] && c in r ==> b.value <= c.value)
  {
    var r := Take(sorted, n);
    var rest := sorted[|r|..];
    assert sorted == r + rest;
    assert multiset(sorted) == multiset(r) + multiset(rest);
    forall b, c | multiset(r)[b] < multiset(bars)[b] && c in r ensures b.value <= c.value {
      assert b in multiset(rest);
      var j :| 0 <= j < |rest| && rest[j] == b;
      var i :| 0 <= i < |r| && r[i] == c;
      assert sorted[|r| + j] == b && sorted[i] == c;
      assert LargerFirst(sorted[i], sorted[|r| + j]);
    }
  }

  /** Among bars of equal count, the sorted cut keeps the first ones in key
      order. */
  lemma TopTies(bars: seq<Bar>, n: nat, e: Bar)
    requires Total(LargerFirst) && Transitive(LargerFirst)
    ensures Filter(Take(SortBy(bars, LargerFirst), n), LevelWith(LargerFirst, e)) <= Filter(bars, LevelWith(LargerFirst, e))
  {
    var sorted := SortBy(bars, LargerFirst);
    var r := Take(sorted, n);
    assert sorted == r + sorted[|r|..];
    SortStable(bars, LargerFirst, e);
    FilterConcat(r, sorted[|r|..], LevelWith(LargerFirst, e));
  }

  /** Reordering keeps names distinct. */
  lemma SortKeepsDistinctNames(bars: seq<Bar>, sorted: seq<Bar>)
    requires multiset(bars) == multiset(sorted)
    ensures DistinctNames(bars) ==> DistinctNames(sorted)
  {
    if DistinctNames(bars) {
      assert NoDuplicates(bars);
      PermutationKeepsDistinct(bars, sorted);
      SameMembers(bars, sorted);
      forall i, j | 0 <= i < j < |sorted| ensures sorted[i].name != sorted[j].name {
        assert sorted[i] in bars && sorted[j] in bars;
        var p :| 0 <= p < |bars| && bars[p] == sorted[i];
        var q :| 0 <= q < |bars| && bars[q] == sorted[j];
        assert p != q;
      }
    }
  }

  function CategoryOf(it: Item): string { it.category }

  /** `item.location.split(' - ')[0] || item.location` */
  function LocationKey(location: string): (k: string)
    ensures Area(location) != "" ==> k == Area(location)
    ensures Area(location) == "" ==> k == location
  {
    var a := Area(location);
    if a != "" then a else location
  }

  function LocationOf(it: Item): string { LocationKey(it.location) }

  /** Whether a chart shows a bar for `k`. */
  predicate Shown(r: seq<Bar>, k: string) {
    exists i :: 0 <= i < |r| && r[i].name == k
  }

  /** What a chart of `keys` cut to n shows: one bar per distinct key up to
      n, with distinct names, largest first, each with the key's number of
      occurrences. With at most n distinct keys every key is shown; a key
      left out occurs no more often than any key shown. */
  predicate IsChart(keys: seq<string>, n: nat, r: seq<Bar>) {
    && |r| == (if |Dedup(keys)| <= n then |Dedup(keys)| else n)
    && (forall i, j :: 0 <= i < j < |r| ==> r[i].value >= r[j].value)
    && DistinctNames(r)
    && (forall b :: b in r ==> b.name in keys && b.value == Occurrences(keys, b.name))
    && (forall k, b :: k in keys && !Shown(r, k) && b in r ==> Occurrences(keys, k) <= b.value)
    && (|Dedup(keys)| <= n ==> forall k :: k in keys ==> Shown(r, k))
  }

  /** categoryData: the chart of the items' categories, cut to eight. */
  function CategoryData(items: seq<Item>): (r: seq<Bar>)
    ensures IsChart(Map(items, CategoryOf), CATEGORY_LIMIT, r)
  {
    ChartTop(Map(items, CategoryOf), CATEGORY_LIMIT);
    Top(Bars(TallyOf(Map(items, CategoryOf))), CATEGORY_LIMIT)
  }

  /** locationData: the chart of the items' areas, cut to six. */
  function LocationData(items: seq<Item>): (r: seq<Bar>)
    ensures IsChart(Map(items, LocationOf), LOCATION_LIMIT, r)
  {
    ChartTop(Map(items, LocationOf), LOCATION_LIMIT);
    Top(Bars(TallyOf(Map(items, LocationOf))), LOCATION_LIMIT)
  }

  /** The chart of a count cut to n is a chart of the keys. */
  lemma ChartTop(keys: seq<string>, n: nat)
    ensures IsChart(keys, n, Top(Bars(TallyOf(keys)), n))
  {
    var r := Top(Bars(TallyOf(keys)), n);
    ChartFacts(keys);
    TallyOrderIsDedup(keys);
    ChartLeftOut(keys, n);
    ChartAllShown(keys, n);
    assert forall b :: b in r ==> b.name in keys && b.value == Occurrences(keys, b.name);
  }

  /** A bar that the cut drops belongs to a key the chart does not show. */
  lemma ChartLeftOut(keys: seq<string>, n: nat)
    ensures var r := Top(Bars(TallyOf(keys)), n);
            forall k, b :: k in keys && !Shown(r, k) && b in r ==> Occurrences(keys, k) <= b.value
  {
    var t := TallyOf(keys);
    var bars := Bars(t);
    var r := Top(bars, n);
    forall k, b | k in keys && !Shown(r, k) && b in r ensures Occurrences(keys, k) <= b.value {
      var p := KeyIndex(t, k);
      var kb := bars[p];
      assert kb !in r;
      assert multiset(r)[kb] < multiset(bars)[kb];
      TallyCounts(keys, k);
    }
  }

  /** With at most n distinct keys, the chart shows every key. */
  lemma ChartAllShown(keys: seq<string>, n: nat)
    ensures |Dedup(keys)| <= n ==> forall k :: k in keys ==> Shown(Top(Bars(TallyOf(keys)), n), k)
  {
    var t := TallyOf(keys);
    var bars := Bars(t);
    var r := Top(bars, n);
    TallyOrderIsDedup(keys);
    if |Dedup(keys)| <= n {
      forall k | k in keys ensures Shown(r, k) {
        var p := KeyIndex(t, k);
        assert bars[p] in multiset(r);
        var i :| 0 <= i < |r| && r[i] == bars[p];
      }
    }
  }

  /** The dictionary's keys, in insertion order, are the distinct keys in
      order of first occurrence. */
  lemma {:induction false} TallyOrderIsDedup(keys: seq<string>)
    ensures TallyOf(keys).order == Dedup(keys)
  {
    if keys != [] {
      TallyOrderIsDedup(keys[..|keys| - 1]);
      TallyOfLast(keys);
    }
  }

  /** The bars of a count have distinct labels, each taken from the keys
      with its number of occurrences. */
  lemma ChartFacts(keys: seq<string>)
    ensures DistinctNames(Bars(TallyOf(keys)))
    ensures forall b :: b in Bars(TallyOf(keys)) ==> b.name in keys && b.value == Occurrences(keys, b.name)
  {
    var t := TallyOf(keys);
    var bars := Bars(t);
    forall b | b in bars ensures b.name in keys && b.value == Occurrences(keys, b.name) {
      var i :| 0 <= i < |bars| && bars[i] == b;
      TallyCounts(keys, t.order[i]);
    }
  }

  /** Before the cut to eight, the category counts add up to the number of
      items; likewise the location counts before the cut to six. */
  lemma BreakdownsCoverAllItems(items: seq<Item>)
    ensures Sum(Bars(TallyOf(Map(items, CategoryOf))), BarValue) == |items|
    ensures Sum(Bars(TallyOf(Map(items, LocationOf))), BarValue) == |items|
  {
    TallyTotal(Map(items, CategoryOf));
    TallyTotal(Map(items, LocationOf));
  }

  // ----- Time windows, trend and rates -----

  /** Created within the last seven days. */
  predicate ThisWeek(createdAt: int, now: int) { createdAt > now - WEEK_MS }

  /** Created in the seven days before that. */
  predicate LastWeek(createdAt: int, now: int) {
    now - 2 * WEEK_MS < createdAt <= now - WEEK_MS
  }

  function ThisWeekFn(now: int): Item -> bool { (it: Item) => ThisWeek(it.createdAt, now) }
  function LastWeekFn(now: int): Item -> bool { (it: Item) => LastWeek(it.createdAt, now) }

  /** No item is counted in both weeks. */
  lemma WeeksDisjoint(items: seq<Item>, now: int)
    ensures forall it :: !(it in Filter(items, ThisWeekFn(now)) && it in Filter(items, LastWeekFn(now)))
  {
  }

  /** itemsTrend: the rounded percentage change from last week to this
      week, 0 when last week had no items. */
  function Trend(thisWeek: nat, lastWeek: nat): (r: int)
    ensures lastWeek == 0 ==> r == 0
    ensures lastWeek > 0 ==>
      2 * r * lastWeek <= 200 * (thisWeek - lastWeek) + lastWeek < 2 * (r + 1) * lastWeek
    ensures lastWeek > 0 ==> r >= -100
  {
    if lastWeek > 0 then
      var r := RoundDiv(100 * (thisWeek - lastWeek), lastWeek);
      assert (-100) * (2 * lastWeek) < (r + 1) * (2 * lastWeek);
      FactorLess(-100, r + 1, 2 * lastWeek);
      r
    else 0
  }

  /** The page's figures. */
  datatype Summary = Summary(
    totalItems: nat, approvedItems: nat, pendingItems: nat, rejectedItems: nat,
    totalClaims: nat, resolvedClaims: nat, itemsTrend: int,
    categoryData: seq<Bar>, locationData: seq<Bar>, statusData: seq<Bar>,
    recentItems: nat, recentClaims: nat, successRate: int)

  /** The claims still open: the "Active Claims" card. */
  function ActiveClaims(s: Summary): int { s.totalClaims - s.resolvedClaims }

  /** The analytics memo, with the two dictionary counts done by the loop. */
  method Analyze(items: seq<Item>, claims: seq<Claim>, now: int) returns (s: Summary)
    ensures s.totalItems == |items| && s.totalClaims == |claims|
    ensures s.approvedItems == StatusCount(items, APPROVED)
    ensures s.pendingItems == StatusCount(items, PENDING)
    ensures s.rejectedItems == StatusCount(items, REJECTED)
    ensures s.resolvedClaims == ResolvedCount(claims)
    ensures ActiveClaims(s) >= 0
    ensures s.itemsTrend == Trend(|Filter(items, ThisWeekFn(now))|, |Filter(items, LastWeekFn(now))|)
    ensures s.categoryData == CategoryData(items) && s.locationData == LocationData(items)
    ensures s.statusData == [Bar("Approved", s.approvedItems), Bar("Pending", s.pendingItems), Bar("Rejected", s.rejectedItems)]
    ensures s.recentItems == |Filter(items, ThisWeekFn(now))|
    ensures s.recentClaims == |Filter(claims, (c: Claim) => ThisWeek(c.createdAt, now))|
    ensures 0 <= s.successRate <= 100 && (|claims| == 0 ==> s.successRate == 0)
    ensures |claims| > 0 ==>
      2 * s.successRate * |claims| <= 200 * s.resolvedClaims + |claims| < 2 * (s.successRate + 1) * |claims|
  {
    var approved, pending, rejected := StatusCount(items, APPROVED), StatusCount(items, PENDING), StatusCount(items, REJECTED);
    var resolved := ResolvedCount(claims);
    var thisWeek := |Filter(items, ThisWeekFn(now))|;
    var lastWeek := |Filter(items, LastWeekFn(now))|;
    var categories := Count(Map(items, CategoryOf));
    var locations := Count(Map(items, LocationOf));
    ChartFacts(Map(items, CategoryOf));
    ChartFacts(Map(items, LocationOf));
    var recentClaims := |Filter(claims, (c: Claim) => ThisWeek(c.createdAt, now))|;
    s := Summary(|items|, approved, pending, rejected, |claims|, resolved, Trend(thisWeek, lastWeek),
                 Top(Bars(categories), CATEGORY_LIMIT), Top(Bars(locations), LOCATION_LIMIT),
                 [Bar("Approved", approved), Bar("Pending", pending), Bar("Rejected", rejected)],
                 thisWeek, recentClaims, Percent(resolved, |claims|));
  }
}
