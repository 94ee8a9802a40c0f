/** The admin page: the three per-status item lists, the claim list, the
    buttons each tab offers and what they ask the store to do, and the
    item title shown beside each claim. */
module Admin {
  import opened Seqs
  import opened Records

  /** The four tabs of the page. */
  datatype Tab = PendingTab | ApprovedTab | RejectedTab | ClaimsTab

  predicate HasStatus(it: Item, status: string) { it.status == status }

  function HasStatusFn(status: string): Item -> bool {
    (it: Item) => HasStatus(it, status)
  }

  /** The items with one status, newest first: exactly those items, each as
      often as it occurs in the store. */
  function StatusList(items: seq<Item>, status: string): (r: seq<Item>)
    ensures forall it :: multiset(r)[it] == if it.status == status then multiset(items)[it] else 0
    ensures forall it :: it in r <==> it in items && it.status == status
    ensures NewestFirst(r)
  {
    var kept := Filter(items, HasStatusFn(status));
    FilterMultiset(items, HasStatusFn(status));
    var r := SortNewestFirst(kept);
    SameMembers(kept, r);
    r
  }

  function PendingItems(items: seq<Item>): seq<Item> { StatusList(items, PENDING) }
  function ApprovedItems(items: seq<Item>): seq<Item> { StatusList(items, APPROVED) }
  function RejectedItems(items: seq<Item>): seq<Item> { StatusList(items, REJECTED) }

  /** No item appears on two of the three lists. */
  lemma StatusListsDisjoint(items: seq<Item>)
    ensures forall it :: !(it in PendingItems(items) && it in ApprovedItems(items))
    ensures forall it :: !(it in PendingItems(items) && it in RejectedItems(items))
    ensures forall it :: !(it in ApprovedItems(items) && it in RejectedItems(items))
  {
  }

  /** An item whose status is one of the three is on exactly one list. */
  lemma {:induction false} StatusListsCover(items: seq<Item>, it: Item)
    requires it in items && it.status in {PENDING, APPROVED, REJECTED}
    ensures it in PendingItems(items) || it in ApprovedItems(items) || it in RejectedItems(items)
  {
    var s := it.status;
    assert it in StatusList(items, s);
  }

  /** claimsList: a newest-first copy; the store's own sequence is a value
      here and is not reordered. */
  function ClaimsList(claims: seq<Claim>): (r: seq<Claim>)
    ensures multiset(r) == multiset(claims) && |r| == |claims|
    ensures forall i, j :: 0 <= i < j < |r| ==> r[i].createdAt >= r[j].createdAt
  {
    SortClaimsNewestFirst(claims)
  }

  /** The row buttons of an item table. */
  datatype ItemAction = Approve | Reject | Delete

  /** Which buttons a tab's table shows: no Approve on the approved tab, no
      Reject on the rejected tab, Delete everywhere, no table on the claims
      tab. */
  predicate Offers(tab: Tab, a: ItemAction) {
    match tab
    case PendingTab => true
    case ApprovedTab => a != Approve
    case RejectedTab => a != Reject
    case ClaimsTab => false
  }

  /** What a row button asks the store: a status change or a deletion. */
  datatype StoreRequest = SetStatus(id: string, status: string) | DeleteItem(id: string)

  function Request(a: ItemAction, id: string): (r: StoreRequest)
    ensures r.id == id
    ensures a == Approve <==> r == SetStatus(id, APPROVED)
    ensures a == Reject <==> r == SetStatus(id, REJECTED)
    ensures a == Delete <==> r.DeleteItem?
  {
    match a
    case Approve => SetStatus(id, APPROVED)
    case Reject => SetStatus(id, REJECTED)
    case Delete => DeleteItem(id)
  }

  /** A tab's buttons never ask for the status the tab already lists and
      never set anything but approved or rejected. */
  lemma {:induction false} TabRequests(tab: Tab, a: ItemAction, id: string)
    requires Offers(tab, a)
    ensures Request(a, id).SetStatus? ==> Request(a, id).status in {APPROVED, REJECTED}
    ensures tab == ApprovedTab ==> Request(a, id) != SetStatus(id, APPROVED)
    ensures tab == RejectedTab ==> Request(a, id) != SetStatus(id, REJECTED)
    ensures tab != ClaimsTab
  {
    match a
    case Approve =>
    case Reject =>
    case Delete =>
  }

  /** The two buttons of a claim card. */
  datatype ClaimButton = MarkInReview | MarkResolved

  /** The status a claim button sets: "Mark in review" sets in review,
      "Mark resolved" sets resolved, and no button approves a claim. */
  function ClaimButtonStatus(b: ClaimButton): (s: string)
    ensures s == IN_REVIEW <==> b == MarkInReview
    ensures s == RESOLVED <==> b == MarkResolved
    ensures s != APPROVED
  {
    match b
    case MarkInReview => IN_REVIEW
    case MarkResolved => RESOLVED
  }

  predicate HasId(it: Item, id: string) { it.id == id }

  /** No item before position i has the id of the item at i. */
  predicate FirstWithId(items: seq<Item>, i: nat)
    requires i < |items|
  {
    forall j :: 0 <= j < i ==> items[j].id != items[i].id
  }

  /** The title beside a claim: that of the first item with the claim's
      item id, "Unknown" when there is none or its title is empty. */
  function ClaimItemTitle(items: seq<Item>, itemId: Option<string>): (t: string)
    ensures t != ""
    ensures itemId.None? ==> t == "Unknown"
    ensures itemId.Some? && (forall i :: 0 <= i < |items| ==> items[i].id != itemId.value) ==> t == "Unknown"
    ensures forall i :: 0 <= i < |items| && itemId == Some(items[i].id) && FirstWithId(items, i) ==>
              t == if items[i].title == "" then "Unknown" else items[i].title
  {
    if itemId.None? then "Unknown"
    else
      var found := Find(items, (it: Item) => HasId(it, itemId.value));
      if found.None? || found.value.title == "" then "Unknown" else found.value.title
  }
}
