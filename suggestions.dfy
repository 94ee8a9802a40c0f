/** The type-ahead panel under the search box: matching items, search
    terms, categories and areas for the typed query, the combined list the
    arrow keys walk through, what choosing an entry does, and the relative
    time label. Recent searches and the fixed list of popular searches are
    not part of this model. */
module Suggestions {
  import opened Seqs
  import opened Text
  import opened Records
  import Clock

  const ITEM_LIMIT := 8
  const TERM_LIMIT := 5
  const CATEGORY_LIMIT := 4
  const LOCATION_LIMIT := 4

  /** `hay.toLowerCase().includes(query.toLowerCase())` */
  predicate Mentions(hay: string, query: string) {
    Contains(ToLower(hay), ToLower(query))
  }

  function MentionsFn(query: string): string -> bool {
    (s: string) => Mentions(s, query)
  }

  /** One entry of the panel. Every kind has a title; an item entry also
      carries the fields the panel shows. */
  datatype Suggestion =
    | ItemHit(id: string, title: string, category: string, location: string,
              description: string, createdAt: int)
    | TermHit(title: string, matches: nat)
    | CategoryHit(title: string, count: nat)
    | LocationHit(title: string, count: nat)

  // ----- Items -----

  /** An approved item whose title, description, category or location
      mentions the query. */
  predicate ItemMatches(it: Item, query: string) {
    && it.status == APPROVED
    && (Mentions(it.title, query) || Mentions(it.description, query)
        || Mentions(it.category, query) || Mentions(it.location, query))
  }

  function ItemMatchesFn(query: string): Item -> bool {
    (it: Item) => ItemMatches(it, query)
  }

  /** The items offered: none for a query shorter than two characters,
      otherwise the first eight matching items in store order. Fewer than
      eight means every match is offered. */
  function MatchingItems(items: seq<Item>, query: string): (r: seq<Item>)
    ensures |query| < 2 ==> r == []
    ensures |r| <= ITEM_LIMIT
    ensures forall it :: it in r ==> it in items && ItemMatches(it, query)
    ensures |query| >= 2 && |r| < ITEM_LIMIT ==>
              forall it :: it in items && ItemMatches(it, query) ==> it in r
    ensures |query| >= 2 ==> var all := Filter(items, ItemMatchesFn(query));
              |r| <= |all| && r == all[..|r|]
  {
    if |query| < 2 then []
    else
      var all := Filter(items, ItemMatchesFn(query));
      var r := Take(all, ITEM_LIMIT);
      assert forall it :: it in r ==> it in all;
      r
  }

  function ItemSuggestion(it: Item): Suggestion {
    ItemHit(it.id, it.title, it.category, it.location, it.description, it.createdAt)
  }

  /** One item entry per offered item, in the same order. */
  function ItemSuggestions(items: seq<Item>, query: string): (r: seq<Suggestion>)
    ensures |r| <= ITEM_LIMIT && AllOfRank(r, 0)
    ensures |query| < 2 ==> r == []
    ensures |r| == |MatchingItems(items, query)|
    ensures forall i :: 0 <= i < |r| ==> r[i] == ItemSuggestion(MatchingItems(items, query)[i])
  {
    Map(MatchingItems(items, query), ItemSuggestion)
  }

  // ----- Search terms -----

  predicate TitleOrCategoryMentions(it: Item, query: string) {
    Mentions(it.title, query) || Mentions(it.category, query)
  }

  predicate CategoryMentions(it: Item, query: string) {
    Mentions(it.category, query)
  }

  function LowerTitle(it: Item): string { ToLower(it.title) }
  function LowerCategory(it: Item): string { ToLower(it.category) }

  /** Where a term may come from: the lowercased title of an item whose
      title or category mentions the query, or the lowercased category of
      an item whose category mentions it. */
  predicate TermSource(items: seq<Item>, query: string, t: string) {
    exists it :: it in items && (
      || (t == LowerTitle(it) && TitleOrCategoryMentions(it, query))
      || (t == LowerCategory(it) && CategoryMentions(it, query)))
  }

  function TitleOrCategoryFn(query: string): Item -> bool {
    (it: Item) => TitleOrCategoryMentions(it, query)
  }

  function CategoryFn(query: string): Item -> bool {
    (it: Item) => CategoryMentions(it, query)
  }

  /** The candidate terms in the order the source lists them: the lowercased
      titles of the items whose title or category mentions the query, in
      store order, then the lowercased categories of the items whose
      category mentions it. Every such title and category is a candidate,
      and nothing else is. */
  function CandidateTerms(items: seq<Item>, query: string): (r: seq<string>)
    ensures forall t :: t in r ==> TermSource(items, query, t) && IsLower(t)
    ensures forall it :: it in items && TitleOrCategoryMentions(it, query) ==> LowerTitle(it) in r
    ensures forall it :: it in items && CategoryMentions(it, query) ==> LowerCategory(it) in r
    ensures var titled := Filter(items, TitleOrCategoryFn(query));
            && |titled| <= |r|
            && forall i :: 0 <= i < |titled| ==> r[i] == LowerTitle(titled[i])
  {
    var titled := Filter(items, TitleOrCategoryFn(query));
    var categorized := Filter(items, CategoryFn(query));
    var titles := Map(titled, LowerTitle);
    var cats := Map(categorized, LowerCategory);
    forall t | t in titles ensures TermSource(items, query, t) && IsLower(t) {
      MapMember(titled, LowerTitle, t);
    }
    forall t | t in cats ensures TermSource(items, query, t) && IsLower(t) {
      MapMember(categorized, LowerCategory, t);
    }
    forall it | it in items && TitleOrCategoryMentions(it, query) ensures LowerTitle(it) in titles + cats {
      MapHas(titled, LowerTitle, it);
    }
    forall it | it in items && CategoryMentions(it, query) ensures LowerCategory(it) in titles + cats {
      MapHas(categorized, LowerCategory, it);
    }
    titles + cats
  }

  /** The terms offered: none for an empty query, otherwise the first five
      distinct candidate terms in order of first appearance (all of them
      when there are fewer), each the lowercase title or category of an item
      that mentions the query. */
  function Terms(items: seq<Item>, query: string): (r: seq<string>)
    ensures |query| == 0 ==> r == []
    ensures |r| <= TERM_LIMIT
    ensures NoDuplicates(r)
    ensures forall t :: t in r ==> IsLower(t) && TermSource(items, query, t)
    ensures |query| > 0 ==> forall t :: t in r ==> t in CandidateTerms(items, query)
    ensures |query| > 0 && |r| < TERM_LIMIT ==> forall t :: t in CandidateTerms(items, query) ==> t in r
    ensures |query| > 0 ==> InFirstSeenOrder(r, CandidateTerms(items, query))
    ensures |query| > 0 ==> LeftOutOnlyLater(r, CandidateTerms(items, query))
  {
    if |query| == 0 then [] else FirstSeen(CandidateTerms(items, query), TERM_LIMIT)
  }

  /** How many items a term matches: its occurrences in lowercased titles
      and categories. */
  function TermMatches(items: seq<Item>, term: string): nat {
    |Filter(items, (it: Item) => Contains(LowerTitle(it), term) || Contains(LowerCategory(it), term))|
  }

  /** One term entry per offered term, in the same order, with the number
      of items it matches. */
  function TermSuggestions(items: seq<Item>, query: string): (r: seq<Suggestion>)
    ensures |r| <= TERM_LIMIT && AllOfRank(r, 1)
    ensures |query| == 0 ==> r == []
    ensures |r| == |Terms(items, query)|
    ensures forall i :: 0 <= i < |r| ==>
              r[i] == TermHit(Terms(items, query)[i], TermMatches(items, Terms(items, query)[i]))
  {
    Map(Terms(items, query), (t: string) => TermHit(t, TermMatches(items, t)))
  }

  /** A string occurs in itself. */
  lemma ContainsSelf(s: string)
    ensures Contains(s, s)
  {
    assert StartsWith(s, s);
  }

  /** Every term offered matches at least one item, and at most all of them. */
  lemma {:induction false} TermsMatchSomething(items: seq<Item>, query: string, t: string)
    requires t in Terms(items, query)
    ensures 1 <= TermMatches(items, t) <= |items|
  {
    var it :| it in items && (
      || (t == LowerTitle(it) && TitleOrCategoryMentions(it, query))
      || (t == LowerCategory(it) && CategoryMentions(it, query)));
    ContainsSelf(t);
    assert it in Filter(items, (it: Item) => Contains(LowerTitle(it), t) || Contains(LowerCategory(it), t));
  }

  /** Every value of a mapped list is the image of an element. */
  lemma MapMember<T, U>(s: seq<T>, f: T -> U, y: U)
    requires y in Map(s, f)
    ensures exists x :: x in s && f(x) == y
  {
    var i :| 0 <= i < |Map(s, f)| && Map(s, f)[i] == y;
    assert s[i] in s;
  }

  /** Every element's image is in the mapped list. */
  lemma MapHas<T, U>(s: seq<T>, f: T -> U, x: T)
    requires x in s
    ensures f(x) in Map(s, f)
  {
    var i :| 0 <= i < |s| && s[i] == x;
    assert Map(s, f)[i] == f(x);
  }

  /** `[...new Set(s.map(f))].filter(p).slice(0, n)`: at most n distinct
      images satisfying p; fewer than n means every such image is there. */
  function FirstDistinct<T(!new), U(==,!new)>(s: seq<T>, f: T -> U, p: U -> bool, n: nat): (r: seq<U>)
    ensures |r| <= n
    ensures NoDuplicates(r)
    ensures forall y :: y in r ==> p(y) && exists x :: x in s && f(x) == y
    ensures |r| < n ==> forall x :: x in s && p(f(x)) ==> f(x) in r
  {
    var images := Map(s, f);
    var d := Dedup(images);
    var kept := Filter(d, p);
    FilterDistinct(d, p);
    var r := Take(kept, n);
    assert forall y :: y in r ==> y in kept;
    forall y | y in r ensures exists x :: x in s && f(x) == y {
      MapMember(s, f, y);
    }
    forall x | x in s && p(f(x)) && |r| < n ensures f(x) in r {
      MapHas(s, f, x);
    }
    r
  }

  // ----- Categories -----

  function CategoryOf(it: Item): string { it.category }

  /** The categories offered: none for an empty query, otherwise at most
      four distinct item categories mentioning the query, in order of first
      appearance. Fewer than four means every such category is offered. */
  function CategoryNames(items: seq<Item>, query: string): (r: seq<string>)
    ensures |query| == 0 ==> r == []
    ensures |r| <= CATEGORY_LIMIT
    ensures NoDuplicates(r)
    ensures forall c :: c in r ==> Mentions(c, query) && exists it :: it in items && CategoryOf(it) == c
    ensures |query| > 0 && |r| < CATEGORY_LIMIT ==>
              forall it :: it in items && Mentions(it.category, query) ==> it.category in r
  {
    if |query| == 0 then [] else FirstDistinct(items, CategoryOf, MentionsFn(query), CATEGORY_LIMIT)
  }

  /** `items.filter(item => item.category === category).length` */
  function CategoryCount(items: seq<Item>, c: string): nat {
    |Filter(items, (it: Item) => CategoryOf(it) == c)|
  }

  /** One category entry per offered category, in the same order, with the
      number of items in that category. */
  function CategorySuggestions(items: seq<Item>, query: string): (r: seq<Suggestion>)
    ensures |r| <= CATEGORY_LIMIT && AllOfRank(r, 2)
    ensures |query| == 0 ==> r == []
    ensures |r| == |CategoryNames(items, query)|
    ensures forall i :: 0 <= i < |r| ==>
              r[i] == CategoryHit(CategoryNames(items, query)[i], CategoryCount(items, CategoryNames(items, query)[i]))
  {
    Map(CategoryNames(items, query), (c: string) => CategoryHit(c, CategoryCount(items, c)))
  }

  /** Every category offered has at least one item. */
  lemma {:induction false} CategoriesCountSomething(items: seq<Item>, query: string, c: string)
    requires c in CategoryNames(items, query)
    ensures 1 <= CategoryCount(items, c) <= |items|
  {
    var it :| it in items && CategoryOf(it) == c;
    assert it in Filter(items, (it: Item) => CategoryOf(it) == c);
  }

  // ----- Areas -----

  /** `item.location.split(' - ')[0]` */
  function AreaOf(it: Item): string { Area(it.location) }

  /** The areas offered: none for an empty query, otherwise at most four
      distinct areas mentioning the query, each the area of some item. Fewer
      than four means every such area is offered. */
  function LocationNames(items: seq<Item>, query: string): (r: seq<string>)
    ensures |query| == 0 ==> r == []
    ensures |r| <= LOCATION_LIMIT
    ensures NoDuplicates(r)
    ensures forall a :: a in r ==> Mentions(a, query) && exists it :: it in items && AreaOf(it) == a
    ensures |query| > 0 && |r| < LOCATION_LIMIT ==>
              forall it :: it in items && Mentions(AreaOf(it), query) ==> AreaOf(it) in r
  {
    if |query| == 0 then [] else FirstDistinct(items, AreaOf, MentionsFn(query), LOCATION_LIMIT)
  }

  /** `items.filter(item => item.location.includes(location)).length`:
      a substring test, not an area comparison. */
  function LocationCount(items: seq<Item>, area: string): nat {
    |Filter(items, (it: Item) => Contains(it.location, area))|
  }

  /** One area entry per offered area, in the same order, with the number
      of items whose location contains it. */
  function LocationSuggestions(items: seq<Item>, query: string): (r: seq<Suggestion>)
    ensures |r| <= LOCATION_LIMIT && AllOfRank(r, 3)
    ensures |query| == 0 ==> r == []
    ensures |r| == |LocationNames(items, query)|
    ensures forall i :: 0 <= i < |r| ==>
              r[i] == LocationHit(LocationNames(items, query)[i], LocationCount(items, LocationNames(items, query)[i]))
  {
    Map(LocationNames(items, query), (a: string) => LocationHit(a, LocationCount(items, a)))
  }

  /** Every area offered is the start of some item's location, so its count
      is at least one. */
  lemma {:induction false} LocationsCountSomething(items: seq<Item>, query: string, a: string)
    requires a in LocationNames(items, query)
    ensures 1 <= LocationCount(items, a) <= |items|
  {
    var it :| it in items && AreaOf(it) == a;
    ContainsAt(it.location, a, 0);
    assert it in Filter(items, (it: Item) => Contains(it.location, a));
  }

  // ----- The combined list -----

  /** The position of an entry's kind in the combined list. */
  function Rank(s: Suggestion): nat {
    match s
    case ItemHit(_, _, _, _, _, _) => 0
    case TermHit(_, _) => 1
    case CategoryHit(_, _) => 2
    case LocationHit(_, _) => 3
  }

  /** Entries ordered by kind. */
  predicate Ranked(s: seq<Suggestion>) {
    forall i, j :: 0 <= i < j < |s| ==> Rank(s[i]) <= Rank(s[j])
  }

  /** Every entry of the block has rank k. */
  predicate AllOfRank(s: seq<Suggestion>, k: nat) {
    forall i :: 0 <= i < |s| ==> Rank(s[i]) == k
  }

  /** A ranked list followed by a block of a rank no smaller is ranked. */
  lemma {:induction false} AppendRanked(a: seq<Suggestion>, b: seq<Suggestion>, k: nat)
    requires Ranked(a) && AllOfRank(b, k)
    requires forall i :: 0 <= i < |a| ==> Rank(a[i]) <= k
    ensures Ranked(a + b)
    ensures forall i :: 0 <= i < |a + b| ==> Rank((a + b)[i]) <= k
  {
    forall i, j | 0 <= i < j < |a + b| ensures Rank((a + b)[i]) <= Rank((a + b)[j]) {
      if j < |a| {
        assert (a + b)[i] == a[i] && (a + b)[j] == a[j];
      } else if i < |a| {
        assert (a + b)[i] == a[i] && (a + b)[j] == b[j - |a|];
      } else {
        assert (a + b)[i] == b[i - |a|] && (a + b)[j] == b[j - |a|];
      }
    }
  }

  /** With an empty item block, the blocks of terms, categories and areas
      hold no item entry. */
  lemma NoItemHits(a: seq<Suggestion>, b: seq<Suggestion>, c: seq<Suggestion>, d: seq<Suggestion>)
    requires AllOfRank(b, 1) && AllOfRank(c, 2) && AllOfRank(d, 3)
    ensures |a| == 0 ==> forall i :: 0 <= i < |a + b + c + d| ==> !(a + b + c + d)[i].ItemHit?
  {
    forall i | |a| == 0 && 0 <= i < |a + b + c + d| ensures Rank((a + b + c + d)[i]) > 0 {
      if i < |b| {
        assert (a + b + c + d)[i] == b[i];
      } else if i < |b| + |c| {
        assert (a + b + c + d)[i] == c[i - |b|];
      } else {
        assert (a + b + c + d)[i] == d[i - |b| - |c|];
      }
    }
  }

  /** allSuggestions: items, then terms, then categories, then areas. */
  function AllSuggestions(items: seq<Item>, query: string): (r: seq<Suggestion>)
    ensures |r| <= ITEM_LIMIT + TERM_LIMIT + CATEGORY_LIMIT + LOCATION_LIMIT
    ensures |query| == 0 ==> r == []
    ensures |r| == |ItemSuggestions(items, query)| + |TermSuggestions(items, query)|
                   + |CategorySuggestions(items, query)| + |LocationSuggestions(items, query)|
    ensures forall s :: s in r <==>
              || s in ItemSuggestions(items, query) || s in TermSuggestions(items, query)
              || s in CategorySuggestions(items, query) || s in LocationSuggestions(items, query)
  {
    ItemSuggestions(items, query) + TermSuggestions(items, query)
      + CategorySuggestions(items, query) + LocationSuggestions(items, query)
  }

  /** The combined list is ordered by kind: no item entry after a term, no
      term after a category, no category after an area. */
  lemma {:induction false} AllSuggestionsRanked(items: seq<Item>, query: string)
    ensures Ranked(AllSuggestions(items, query))
  {
    var a := ItemSuggestions(items, query);
    var b := TermSuggestions(items, query);
    var c := CategorySuggestions(items, query);
    AppendRanked(a, b, 1);
    AppendRanked(a + b, c, 2);
    AppendRanked(a + b + c, LocationSuggestions(items, query), 3);
  }

  /** A one-character query offers no item. */
  lemma {:induction false} ShortQueryOffersNoItem(items: seq<Item>, query: string)
    requires |query| < 2
    ensures forall s :: s in AllSuggestions(items, query) ==> !s.ItemHit?
  {
    NoItemHits(ItemSuggestions(items, query), TermSuggestions(items, query),
               CategorySuggestions(items, query), LocationSuggestions(items, query));
  }

  // ----- Choosing an entry and the keyboard -----

  /** What the panel asks of its surroundings. */
  datatype Effect = NoEffect | Navigate(path: string) | Pick(text: string) | Close

  /** handleSuggestionClick: an item opens its page; anything else hands
      its title to the search box. */
  function Click(s: Suggestion): (e: Effect)
    ensures s.ItemHit? <==> e.Navigate?
    ensures e.Navigate? ==> e.path == "/items/" + s.id
    ensures !s.ItemHit? ==> e == Pick(s.title)
  {
    if s.ItemHit? then Navigate("/items/" + s.id) else Pick(s.title)
  }

  datatype Key = ArrowDown | ArrowUp | Enter | Escape | OtherKey

  /** ArrowDown: one further while below the last index. */
  function Down(i: int, len: nat): (r: int)
    ensures -1 <= i <= len - 1 ==> -1 <= r <= len - 1
    ensures r == i || r == i + 1
  {
    if i < len - 1 then i + 1 else i
  }

  /** ArrowUp: one back while above the first entry, otherwise nothing
      selected. */
  function Up(i: int): (r: int)
    ensures r >= -1
    ensures r == -1 || r == i - 1
  {
    if i > 0 then i - 1 else -1
  }

  /** Going down and back up returns to where the cursor was. */
  lemma {:induction false} DownUpReturns(i: int, len: nat)
    requires -1 <= i < len - 1
    ensures Up(Down(i, len)) == i
  {
  }

  /** Going up and back down from an entry returns to it. */
  lemma {:induction false} UpDownReturns(i: int, len: nat)
    requires 0 <= i <= len - 1
    ensures Down(Up(i), len) == i
  {
  }

  /** The selection after a key. */
  function AfterKey(key: Key, i: int, len: nat): int {
    match key
    case ArrowDown => Down(i, len)
    case ArrowUp => Up(i)
    case _ => i
  }

  /** What a key asks for: Enter chooses the selected entry when one
      exists at that index, Escape closes the panel. */
  function KeyEffect(key: Key, i: int, all: seq<Suggestion>): (e: Effect)
    ensures key == Enter && 0 <= i < |all| ==> e == Click(all[i])
    ensures key == Enter && !(0 <= i < |all|) ==> e == NoEffect
    ensures key == Escape <==> e == Close
  {
    match key
    case Enter => if 0 <= i < |all| then Click(all[i]) else NoEffect
    case Escape => Close
    case _ => NoEffect
  }

  /** The keyboard cursor over the combined list; -1 selects nothing. */
  class Panel {
    var selected: int

    constructor()
      ensures selected == -1
    {
      selected := -1;
    }

    /** The keydown handler: ignored while the panel is hidden. */
    method KeyDown(key: Key, visible: bool, all: seq<Suggestion>) returns (e: Effect)
      modifies this
      ensures !visible ==> e == NoEffect && selected == old(selected)
      ensures visible ==> e == KeyEffect(key, old(selected), all) && selected == AfterKey(key, old(selected), |all|)
      ensures -1 <= old(selected) <= |all| - 1 ==> -1 <= selected <= |all| - 1
    {
      if !visible {
        return NoEffect;
      }
      e := KeyEffect(key, selected, all);
      selected := AfterKey(key, selected, |all|);
    }
  }

  // ----- Relative time -----

  /** formatTimeAgo: the same rule as the admin page's claim ages. */
  function FormatTimeAgo(now: int, ts: int): string {
    Clock.Label(Clock.TimeAgo(now, ts))
  }

  /** For a timestamp in the past, the label's unit and number bracket the
      elapsed time: n whole minutes under an hour, n whole hours under a
      day, n whole days otherwise. */
  lemma {:induction false} FormatTimeAgoBrackets(now: int, ts: int)
    requires ts <= now
    ensures var r := FormatTimeAgo(now, ts);
            && |r| >= 6
            && (forall i :: 0 <= i < |r| - 5 ==> '0' <= r[i] <= '9')
            && var n, unit := Clock.DigitsValue(r[..|r| - 5]), r[|r| - 5];
            && (unit == 'm' <==> now - ts < Clock.HOUR_MS)
            && (unit == 'm' ==> n * Clock.MINUTE_MS <= now - ts < (n + 1) * Clock.MINUTE_MS)
            && (unit == 'h' ==> n * Clock.HOUR_MS <= now - ts < (n + 1) * Clock.HOUR_MS)
            && (unit == 'd' ==> n * Clock.DAY_MS <= now - ts < (n + 1) * Clock.DAY_MS)
            && (unit == 'm' || unit == 'h' || unit == 'd')
  {
    var e := Clock.TimeAgo(now, ts);
    Clock.LabelReadsBack(e);
  }
}
