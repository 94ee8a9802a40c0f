/** The item listing page: the filters read from the URL's query string,
    the list of visible items, the category and status choices, and the
    update of the query string. */
module Listing {
  import opened Seqs
  import opened Text
  import opened Records

  /** The query string, one value per key. */
  type Params = map<string, string>

  const ALL_STATUSES := "all"
  const ALL_CATEGORIES := "All"

  /** `params.get(key) || fallback`: a missing or empty value gives the fallback. */
  function Param(params: Params, key: string, fallback: string): (r: string)
    ensures key in params && params[key] != "" ==> r == params[key]
    ensures key !in params || params[key] == "" ==> r == fallback
  {
    if key in params && params[key] != "" then params[key] else fallback
  }

  /** The three filters in effect, read once from the query string. */
  datatype Query = Query(text: string, category: string, status: string)

  /** The search text is trimmed and lower-cased; the status defaults to
      "all" for an administrator and to "approved" for everyone else. */
  function QueryOf(params: Params, isAdmin: bool): (q: Query)
    ensures q.text == ToLower(Trim(Param(params, "q", "")))
    ensures q.category == Param(params, "category", ALL_CATEGORIES)
    ensures q.status == Param(params, "status", if isAdmin then ALL_STATUSES else APPROVED)
  {
    Query(ToLower(Trim(Param(params, "q", ""))),
          Param(params, "category", ALL_CATEGORIES),
          Param(params, "status", if isAdmin then ALL_STATUSES else APPROVED))
  }

  /** The text an item's search looks in. */
  function Haystack(it: Item): string {
    it.title + (" " + it.description + " " + it.location + " " + it.category)
  }

  predicate TextHit(it: Item, text: string) {
    text == [] || Contains(ToLower(Haystack(it)), text)
  }

  /** The listing's filter: non-administrators see approved items only;
      "all" and "All" switch the status and category filters off. */
  predicate Keep(it: Item, isAdmin: bool, q: Query) {
    && (isAdmin || it.status == APPROVED)
    && (q.status == ALL_STATUSES || it.status == q.status)
    && (q.category == ALL_CATEGORIES || it.category == q.category)
    && TextHit(it, q.text)
  }

  function KeepFn(isAdmin: bool, q: Query): Item -> bool {
    (it: Item) => Keep(it, isAdmin, q)
  }

  /** The visible list: the items that pass the filters, newest first. */
  function Visible(items: seq<Item>, params: Params, isAdmin: bool): (r: seq<Item>)
    ensures multiset(r) == multiset(Filter(items, KeepFn(isAdmin, QueryOf(params, isAdmin))))
    ensures forall it :: it in r <==> it in items && Keep(it, isAdmin, QueryOf(params, isAdmin))
    ensures multiset(r) <= multiset(items)
    ensures NewestFirst(r)
  {
    var keep := KeepFn(isAdmin, QueryOf(params, isAdmin));
    var kept := Filter(items, keep);
    FilterMultiset(items, keep);
    var r := SortNewestFirst(kept);
    assert forall it :: it in r <==> it in kept by {
      forall it ensures it in r <==> it in kept {
        assert it in r <==> it in multiset(r);
        assert it in kept <==> it in multiset(kept);
      }
    }
    r
  }

  /** A visitor or student never sees an item that is not approved,
      whatever the query string says. */
  lemma {:induction false} NonAdminSeesApprovedOnly(items: seq<Item>, params: Params)
    ensures forall it :: it in Visible(items, params, false) ==> it.status == APPROVED
  {
    var r := Visible(items, params, false);
    forall it | it in r ensures it.status == APPROVED {
      assert Keep(it, false, QueryOf(params, false));
    }
  }

  /** Without query string an administrator sees every item, newest first. */
  lemma AdminDefaultShowsAll(items: seq<Item>)
    ensures var r := Visible(items, map[], true);
            multiset(r) == multiset(items) && NewestFirst(r)
  {
    var keep := KeepFn(true, QueryOf(map[], true));
    assert forall it :: keep(it) by {
      forall it ensures keep(it) {
        assert TextHit(it, "");
      }
    }
    FilterAll(items, keep);
  }

  /** Without query string everyone else sees exactly the approved items. */
  lemma {:induction false} VisitorDefaultShowsApproved(items: seq<Item>)
    ensures forall it :: it in Visible(items, map[], false) <==> it in items && it.status == APPROVED
  {
    var q := QueryOf(map[], false);
    assert q.text == [];
    forall it ensures Keep(it, false, q) <==> it.status == APPROVED {
      assert TextHit(it, q.text);
    }
  }

  /** A search text found in an item's lower-cased title makes the item
      pass the text filter. */
  lemma TitleHit(it: Item, text: string)
    requires Contains(ToLower(it.title), text)
    ensures TextHit(it, text)
  {
    var rest := " " + it.description + " " + it.location + " " + it.category;
    ToLowerConcat(it.title, rest);
    ContainsPrefix(ToLower(it.title), ToLower(rest), text);
  }

  /** Adding a filter to the query string never shows more items: setting
      the search text or the category where none was set keeps a subset
      of the items and no more of them. */
  lemma {:induction false} NarrowingShowsFewer(items: seq<Item>, params: Params, isAdmin: bool, key: string, value: string)
    requires key == "q" || key == "category"
    requires key !in params
    ensures var wide, narrow := Visible(items, params, isAdmin), Visible(items, params[key := value], isAdmin);
            (forall it :: it in narrow ==> it in wide) && |narrow| <= |wide|
  {
    var q, q2 := QueryOf(params, isAdmin), QueryOf(params[key := value], isAdmin);
    QueryWidens(params, isAdmin, key, value);
    FilterNarrows(items, isAdmin, q, q2);
  }

  /** Setting the search text or the category where none was set changes
      only that part of the query, from "no filter" to something. */
  lemma QueryWidens(params: Params, isAdmin: bool, key: string, value: string)
    requires key == "q" || key == "category"
    requires key !in params
    ensures var wide, narrow := QueryOf(params, isAdmin), QueryOf(params[key := value], isAdmin);
            && wide.status == narrow.status
            && (|| (wide.text == [] && wide.category == narrow.category)
                || (wide.category == ALL_CATEGORIES && wide.text == narrow.text))
  {
    if key == "q" {
      assert Param(params, "q", "") == "";
    }
  }

  /** The filter-level statement behind NarrowingShowsFewer. */
  lemma FilterNarrows(items: seq<Item>, isAdmin: bool, wide: Query, narrow: Query)
    requires wide.status == narrow.status
    requires || (wide.text == [] && wide.category == narrow.category)
             || (wide.category == ALL_CATEGORIES && wide.text == narrow.text)
    ensures var w, n := Filter(items, KeepFn(isAdmin, wide)), Filter(items, KeepFn(isAdmin, narrow));
            (forall it :: it in n ==> it in w) && |n| <= |w|
  {
    var keep, keep2 := KeepFn(isAdmin, wide), KeepFn(isAdmin, narrow);
    forall it ensures keep2(it) ==> keep(it) {
      KeepWidens(it, isAdmin, wide, narrow);
    }
    FilterWeaker(items, keep2, keep);
  }

  /** Dropping the text filter, or the category filter, keeps every item
      that passed before. */
  lemma KeepWidens(it: Item, isAdmin: bool, wide: Query, narrow: Query)
    requires wide.status == narrow.status
    requires || (wide.text == [] && wide.category == narrow.category)
             || (wide.category == ALL_CATEGORIES && wide.text == narrow.text)
    ensures Keep(it, isAdmin, narrow) ==> Keep(it, isAdmin, wide)
  {
  }

  function CategoryOf(it: Item): string { it.category }

  predicate NonEmpty(c: string) { c != "" }

  /** The non-empty categories in item order. */
  function NamedCategories(items: seq<Item>): (r: seq<string>)
    ensures forall c :: c in r <==> c != "" && exists i :: 0 <= i < |items| && items[i].category == c
  {
    var all := Map(items, CategoryOf);
    assert forall c :: c in all <==> exists i :: 0 <= i < |items| && items[i].category == c by {
      forall c ensures c in all <==> exists i :: 0 <= i < |items| && items[i].category == c {
        if i :| 0 <= i < |items| && items[i].category == c {
          assert all[i] == c;
        }
      }
    }
    Filter(all, NonEmpty)
  }

  /** The category choices: "All", then the distinct non-empty categories
      of the items in code-point order. */
  function Categories(items: seq<Item>): (r: seq<string>)
    ensures |r| >= 1 && r[0] == ALL_CATEGORIES
    ensures forall c :: c in r[1..] <==> c != "" && exists i :: 0 <= i < |items| && items[i].category == c
    ensures NoDuplicates(r[1..])
    ensures forall i, j :: 1 <= i < j < |r| ==> LexLe(r[i], r[j])
  {
    var distinct := Dedup(NamedCategories(items));
    LexLeTotalPreorder();
    var sorted := SortBy(distinct, LexLe);
    PermutationKeepsDistinct(distinct, sorted);
    var r := [ALL_CATEGORIES] + sorted;
    assert r[1..] == sorted;
    r
  }

  /** The status choices: four for an administrator, only "approved" for
      everyone else; each role's default status is among its choices. */
  function StatusOptions(isAdmin: bool): (r: seq<string>)
    ensures (if isAdmin then ALL_STATUSES else APPROVED) in r
    ensures isAdmin ==> r == [ALL_STATUSES, APPROVED, PENDING, REJECTED]
    ensures !isAdmin ==> r == [APPROVED]
  {
    if isAdmin then [ALL_STATUSES, APPROVED, PENDING, REJECTED] else [APPROVED]
  }

  /** One entry of the object handed to updateParam; None stands for null
      or undefined. */
  datatype Entry = Entry(key: string, value: Option<string>)

  predicate Clears(e: Entry) {
    e.value.None? || e.value.value == ""
  }

  /** One entry applied: a cleared value deletes the key, any other sets it. */
  function ApplyEntry(params: Params, e: Entry): (r: Params)
    ensures Clears(e) ==> r == params - {e.key}
    ensures !Clears(e) ==> r == params[e.key := e.value.value]
  {
    if Clears(e) then params - {e.key} else params[e.key := e.value.value]
  }

  /** The entries applied left to right. */
  function ApplyEntries(params: Params, next: seq<Entry>): Params {
    if next == [] then params
    else ApplyEntry(ApplyEntries(params, next[..|next| - 1]), next[|next| - 1])
  }

  predicate Mentions(next: seq<Entry>, key: string) {
    exists i :: 0 <= i < |next| && next[i].key == key
  }

  /** A key no entry names keeps its value, or its absence. */
  lemma {:induction false} ApplyEntriesKeepsOthers(params: Params, next: seq<Entry>, key: string)
    requires !Mentions(next, key)
    ensures key in ApplyEntries(params, next) <==> key in params
    ensures key in params ==> ApplyEntries(params, next)[key] == params[key]
  {
    if next != [] {
      var init := next[..|next| - 1];
      assert !Mentions(init, key) by {
        if i :| 0 <= i < |init| && init[i].key == key {
          assert next[i].key == key;
        }
      }
      ApplyEntriesKeepsOthers(params, init, key);
    }
  }

  /** The last entry naming a key decides it: deleted when cleared, set
      to its value otherwise. */
  lemma {:induction false} ApplyEntriesLastWins(params: Params, next: seq<Entry>, i: nat)
    requires i < |next|
    requires forall j :: i < j < |next| ==> next[j].key != next[i].key
    ensures Clears(next[i]) ==> next[i].key !in ApplyEntries(params, next)
    ensures !Clears(next[i]) ==> next[i].key in ApplyEntries(params, next)
                                 && ApplyEntries(params, next)[next[i].key] == next[i].value.value
  {
    if i < |next| - 1 {
      ApplyEntriesLastWins(params, next[..|next| - 1], i);
    }
  }

  /** updateParam: a copy of the query string with each entry applied in
      turn. */
  method UpdateParam(params: Params, next: seq<Entry>) returns (r: Params)
    ensures r == ApplyEntries(params, next)
  {
    r := params;
    var i := 0;
    while i < |next|
      invariant 0 <= i <= |next|
      invariant r == ApplyEntries(params, next[..i])
    {
      assert next[..i + 1][..i] == next[..i];
      if next[i].value.None? || next[i].value.value == "" {
        r := r - {next[i].key};
      } else {
        r := r[next[i].key := next[i].value.value];
      }
      i := i + 1;
    }
    assert next[..i] == next;
  }

  /** The search form stores the trimmed text, or removes the search when
      the text is blank; either way the visible list filters on it. */
  lemma SearchSubmitSetsText(params: Params, text: string, isAdmin: bool)
    ensures var p := ApplyEntries(params, [Entry("q", Some(Trim(text)))]);
            QueryOf(p, isAdmin).text == ToLower(Trim(text))
  {
    var p := ApplyEntries(params, [Entry("q", Some(Trim(text)))]);
    assert [Entry("q", Some(Trim(text)))][..0] == [];
    if Trim(text) != [] {
      assert p["q"] == Trim(text);
    }
  }
}
