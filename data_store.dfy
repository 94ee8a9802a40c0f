/** The item, claim and review store (the data provider): first-run seed
    data, and the operations that replace each collection with a mapped,
    filtered or prepended copy. Record ids (`uid`), the clock and the
    ISO-date formatting of `Date` are parameters. */
module DataStore {
  import opened Seqs
  import opened Text
  import opened Records

  const HOUR_MS := 1000 * 60 * 60
  const DAY_MS := 24 * HOUR_MS

  /** The text of one demo item and how many hours before the first load it
      was created. */
  datatype SeedText = SeedText(title: string, category: string, location: string, description: string, ageHours: nat)

  /** The k-th of `r` has the (first + k)-th generated id, was created no
      later than `now` and found on the ISO date of its creation, and has
      no image and no reporter. */
  predicate Stamped(r: seq<Item>, first: nat, now: int, ids: nat -> string, isoDate: int -> string) {
    forall i :: 0 <= i < |r| ==>
      && r[i].id == ids(first + i)
      && r[i].createdAt <= now && r[i].dateFound == isoDate(r[i].createdAt)
      && r[i].imageDataUrl == "" && r[i].reportedByUserId == None
  }

  lemma StampedConcat(a: seq<Item>, b: seq<Item>, first: nat, mid: nat, now: int, ids: nat -> string, isoDate: int -> string)
    requires mid == first + |a|
    requires Stamped(a, first, now, ids, isoDate) && Stamped(b, mid, now, ids, isoDate)
    ensures Stamped(a + b, first, now, ids, isoDate)
  {
    forall i | 0 <= i < |a + b|
      ensures (a + b)[i].id == ids(first + i)
    {
      if i >= |a| {
        assert (a + b)[i] == b[i - |a|] && first + |a| + (i - |a|) == first + i;
      }
    }
  }

  /** The demo items for `texts`, all with one status, the k-th taking the
      (first + k)-th generated id. */
  function Stamp(texts: seq<SeedText>, first: nat, status: string, now: int,
                 ids: nat -> string, isoDate: int -> string): (r: seq<Item>)
    ensures |r| == |texts|
    ensures Stamped(r, first, now, ids, isoDate)
    ensures forall i :: 0 <= i < |r| ==> r[i].status == status
  {
    if texts == [] then []
    else
      var t := texts[0];
      var createdAt := now - t.ageHours * HOUR_MS;
      [Item(ids(first), t.title, t.category, t.location, isoDate(createdAt), t.description, "", status, createdAt, None)]
      + Stamp(texts[1..], first + 1, status, now, ids, isoDate)
  }

  /** Each stamped item carries its text's title, category, location and
      description, and was created `ageHours` hours before `now`. */
  lemma {:induction false} StampTexts(texts: seq<SeedText>, first: nat, status: string, now: int,
                                      ids: nat -> string, isoDate: int -> string, i: nat)
    requires i < |texts|
    ensures var it := Stamp(texts, first, status, now, ids, isoDate)[i];
      && it.title == texts[i].title && it.category == texts[i].category
      && it.location == texts[i].location && it.description == texts[i].description
      && it.createdAt == now - texts[i].ageHours * HOUR_MS
  {
    if i > 0 {
      StampTexts(texts[1..], first + 1, status, now, ids, isoDate, i - 1);
    }
  }

  method ApprovedTexts() returns (t: seq<SeedText>)
    ensures |t| == 5
  {
    t := [ SeedText("Black Water Bottle (Hydro Flask)", "Bottle", "Library - 2nd floor",
        "Found near the study " + "tables. Has a small dent " + "at the bottom.", 48),
      SeedText("iPhone 13 Pro - Blue Case", "Electronics", "Student Union - Food Court",
        "Found on table near " + "Subway. Screen has minor " + "crack. Phone is locked.", 24),
      SeedText("Brown Leather Wallet", "Wallet", "Gym - Locker Room",
        "Contains student ID and " + "some cash. Found in " + "men's locker room.", 72),
      SeedText("Red Nike Backpack", "Bag", "Engineering Building - Room 205",
        "Contains textbooks and " + "notebooks. Left after " + "class ended.", 96),
      SeedText("Silver MacBook Pro 13\"", "Electronics", "Library - Study Room 3",
        "Left in study room with " + "charger. Has stickers on " + "the back.", 120) ];
  }

  method PendingTexts() returns (t: seq<SeedText>)
    ensures |t| == 7
  {
    t := [ SeedText("Silver Keychain with 2 keys", "Keys", "Cafeteria entrance",
        "Keychain has a blue tag. " + "Turned in by staff.", 20),
      SeedText("AirPods Pro (2nd Gen)", "Electronics", "Business Building - Lecture Hall B",
        "Found under seat after " + "economics class. Case is " + "slightly scratched.", 12),
      SeedText("Blue Adidas Water Bottle", "Bottle", "Recreation Center - Basketball Court",
        "Left on bleachers after " + "intramural game. Half " + "full.", 8),
      SeedText("Gold Ring with Small Diamond", "Jewelry", "Chemistry Lab - Room 101",
        "Found near sink area. " + "Appears to be an " + "engagement ring.", 6),
      SeedText("Black Jansport Backpack", "Bag", "Parking Lot C",
        "Found near bike racks. " + "Contains laptop and " + "school supplies.", 4),
      SeedText("Prescription Glasses - Black Frames", "Accessories", "Math Building - Room 302",
        "Left on desk after " + "calculus exam. " + "Progressive lenses.", 2),
      SeedText("Samsung Galaxy Watch", "Electronics", "Fitness Center - Treadmill Area",
        "Black sport band. Found " + "on equipment after " + "workout session.", 1) ];
  }

  method RejectedTexts() returns (t: seq<SeedText>)
    ensures |t| == 2
  {
    t := [ SeedText("Old Textbook - Biology 101", "Books", "Library - Return Desk",
        "Very worn textbook, " + "appears to be abandoned.", 168),
      SeedText("Broken Umbrella", "Other", "Main Entrance",
        "Umbrella with broken " + "ribs, not repairable.", 144) ];
  }

  /** Counting by status over three single-status lists. */
  lemma {:induction false} StatusCounts(a: seq<Item>, p: seq<Item>, j: seq<Item>)
    requires forall i :: 0 <= i < |a| ==> IsApproved(a[i])
    requires forall i :: 0 <= i < |p| ==> IsPending(p[i])
    requires forall i :: 0 <= i < |j| ==> IsRejected(j[i])
    ensures Filter(a + p + j, IsApproved) == a
    ensures Filter(a + p + j, IsPending) == p
    ensures Filter(a + p + j, IsRejected) == j
  {
    FilterConcat(a + p, j, IsApproved);
    FilterConcat(a, p, IsApproved);
    FilterConcat(a + p, j, IsPending);
    FilterConcat(a, p, IsPending);
    FilterConcat(a + p, j, IsRejected);
    FilterConcat(a, p, IsRejected);
    FilterAll(a, IsApproved);
    FilterAll(p, IsPending);
    FilterAll(j, IsRejected);
    FilterNone(p, IsApproved);
    FilterNone(j, IsApproved);
    FilterNone(a, IsPending);
    FilterNone(j, IsPending);
    FilterNone(a, IsRejected);
    FilterNone(p, IsRejected);
  }

  /** The list seeded from three single-status parts of 5, 7 and 2 items,
      split by status, gives back its three parts. */
  lemma SeedShape(a: seq<Item>, p: seq<Item>, j: seq<Item>)
    requires |a| == 5 && |p| == 7 && |j| == 2
    requires forall i :: 0 <= i < |a| ==> IsApproved(a[i])
    requires forall i :: 0 <= i < |p| ==> IsPending(p[i])
    requires forall i :: 0 <= i < |j| ==> IsRejected(j[i])
    ensures var r := a + p + j;
      && Filter(r, IsApproved) == r[..5]
      && Filter(r, IsPending) == r[5..12]
      && Filter(r, IsRejected) == r[12..]
  {
    StatusCounts(a, p, j);
    var r := a + p + j;
    assert r[..5] == a && r[5..12] == p && r[12..] == j;
  }

  /** The shape of the list the three single-status parts make. */
  lemma DemoShape(a: seq<Item>, p: seq<Item>, j: seq<Item>, now: int, ids: nat -> string, isoDate: int -> string)
    requires |a| == 5 && |p| == 7 && |j| == 2
    requires forall i :: 0 <= i < |a| ==> IsApproved(a[i])
    requires forall i :: 0 <= i < |p| ==> IsPending(p[i])
    requires forall i :: 0 <= i < |j| ==> IsRejected(j[i])
    requires Stamped(a, 0, now, ids, isoDate) && Stamped(p, 5, now, ids, isoDate) && Stamped(j, 12, now, ids, isoDate)
    ensures var r := a + p + j;
      && Filter(r, IsApproved) == r[..5]
      && Filter(r, IsPending) == r[5..12]
      && Filter(r, IsRejected) == r[12..]
      && Stamped(r, 0, now, ids, isoDate)
  {
    StampedConcat(a, p, 0, 5, now, ids, isoDate);
    StampedConcat(a + p, j, 0, 12, now, ids, isoDate);
    SeedShape(a, p, j);
  }

  /** seedItems: a stored list that is not empty is kept as it is; an empty
      one is replaced by the 14 demo items, 5 approved, then 7 pending, then
      2 rejected, with ids drawn in list order, none attributed to a user. */
  method SeedItems(items: seq<Item>, now: int, ids: nat -> string, isoDate: int -> string) returns (r: seq<Item>)
    ensures |items| > 0 ==> r == items
    ensures |items| == 0 ==>
      && |r| == 14
      && Filter(r, IsApproved) == r[..5]
      && Filter(r, IsPending) == r[5..12]
      && Filter(r, IsRejected) == r[12..]
      && Stamped(r, 0, now, ids, isoDate)
  {
    if |items| > 0 {
      return items;
    }
    var approvedTexts := ApprovedTexts();
    var pendingTexts := PendingTexts();
    var rejectedTexts := RejectedTexts();
    var a := Stamp(approvedTexts, 0, APPROVED, now, ids, isoDate);
    var p := Stamp(pendingTexts, 5, PENDING, now, ids, isoDate);
    var j := Stamp(rejectedTexts, 12, REJECTED, now, ids, isoDate);
    DemoShape(a, p, j, now, ids, isoDate);
    r := a + p + j;
  }

  /** The text of one demo claim, how many hours before the first load it
      was made, and its status. */
  datatype ClaimText = ClaimText(userId: string, contact: string, message: string, ageHours: nat, status: string)

  method ClaimTexts() returns (t: seq<ClaimText>)
    ensures |t| == 5
  {
    t := [ ClaimText("user_123", "sarah.johnson@university.edu",
        "This is my water bottle! " + "I lost it yesterday " + "while studying for my " + "midterm. It has my " + "initials \"SJ\" " + "scratched on the bottom.",
        18, SUBMITTED),
      ClaimText("user_456", "mike.chen@university.edu",
        "I think this might be my " + "phone. I was eating " + "lunch at the food court " + "when I realized it was " + "missing. The blue case " + "matches mine exactly.",
        12, IN_REVIEW),
      ClaimText("user_789", "alex.rodriguez@university.edu",
        "This is definitely my " + "wallet! I was at the gym " + "yesterday and must have " + "left it in the locker " + "room. My student ID " + "should be inside.",
        8, RESOLVED),
      ClaimText("user_101", "emma.davis@university.edu",
        "I believe this is my " + "backpack. I had " + "engineering class in " + "room 205 and left it " + "there by accident. It " + "should have my " + "thermodynamics textbook " + "inside.",
        6, SUBMITTED),
      ClaimText("user_202", "james.wilson@university.edu",
        "This looks like my " + "MacBook! I was in study " + "room 3 working on my " + "computer science " + "project. The stickers on " + "the back are from " + "various tech conferences " + "I attended.",
        4, IN_REVIEW) ];
  }

  /** The demo claims for `texts`, the k-th (counting from `first`) about the
      k-th approved item, or about no item (`approvedItems[k]?.id` is
      undefined) when there are at most k approved items. */
  function StampClaims(texts: seq<ClaimText>, first: nat, approved: seq<Item>, now: int, ids: nat -> string): (r: seq<Claim>)
    ensures |r| == |texts|
    ensures forall i :: 0 <= i < |r| ==>
      && r[i].id == ids(first + i)
      && r[i].itemId == (if first + i < |approved| then Some(approved[first + i].id) else None)
      && r[i].userId == texts[i].userId && r[i].contact == texts[i].contact && r[i].message == texts[i].message
      && r[i].status == texts[i].status
      && r[i].createdAt == now - texts[i].ageHours * HOUR_MS && r[i].createdAt <= now
    decreases |texts|
  {
    if texts == [] then []
    else
      var t := texts[0];
      [Claim(ids(first), if first < |approved| then Some(approved[first].id) else None,
             t.userId, t.contact, t.message, now - t.ageHours * HOUR_MS, t.status)]
      + StampClaims(texts[1..], first + 1, approved, now, ids)
  }

  /** seedClaims: stored claims that are not empty are kept; otherwise there
      are no claims when no item is approved, and else the 5 demo claims,
      the k-th about the k-th approved item, or about no item when there are
      at most k approved items. */
  method SeedClaims(claims: seq<Claim>, items: seq<Item>, now: int, ids: nat -> string) returns (r: seq<Claim>)
    ensures |claims| > 0 ==> r == claims
    ensures |claims| == 0 && |Filter(items, IsApproved)| == 0 ==> r == []
    ensures |claims| == 0 && |Filter(items, IsApproved)| > 0 ==>
      && |r| == 5
      && forall k :: 0 <= k < 5 ==>
           && r[k].id == ids(k) && r[k].createdAt <= now
           && r[k].itemId == (if k < |Filter(items, IsApproved)| then Some(Filter(items, IsApproved)[k].id) else None)
  {
    if |claims| > 0 {
      return claims;
    }
    var approved := Filter(items, IsApproved);
    if |approved| == 0 {
      return [];
    }
    var texts := ClaimTexts();
    r := StampClaims(texts, 0, approved, now, ids);
  }

  /** What the report form hands to addItem. */
  datatype ItemDraft = ItemDraft(
    title: string,
    category: string,
    location: string,
    dateFound: string,
    description: string,
    imageDataUrl: string,
    reportedByUserId: Option<string>)

  /** `x || null` for an optional id: the empty string is falsy. */
  function OrNull(id: Option<string>): Option<string> {
    if id == Some("") then None else id
  }

  /** `String(c || '').trim() || 'Other'`: the trimmed category, or "Other" when that is empty. */
  function CategoryOrOther(category: string): (r: string)
    ensures r != [] && IsTrimmed(r)
    ensures IsBlank(category) ==> r == "Other"
    ensures !IsBlank(category) ==> r == Trim(category)
  {
    var t := Trim(category);
    if t == [] then
      assert !IsSpace('O') && !IsSpace('r');
      "Other"
    else t
  }

  /** The record addItem creates: always pending, text fields trimmed, a
      blank category replaced by "Other", an empty reporter id turned into
      null. */
  function NewItem(draft: ItemDraft, id: string, now: int): (it: Item)
    ensures it.id == id && it.createdAt == now && it.status == PENDING
    ensures it.title == Trim(draft.title) && it.location == Trim(draft.location)
    ensures it.dateFound == Trim(draft.dateFound) && it.description == Trim(draft.description)
    ensures it.category == CategoryOrOther(draft.category)
    ensures it.imageDataUrl == draft.imageDataUrl
    ensures it.reportedByUserId != Some("")
    ensures draft.reportedByUserId != Some("") ==> it.reportedByUserId == draft.reportedByUserId
  {
    Item(id, Trim(draft.title), CategoryOrOther(draft.category),
         Trim(draft.location), Trim(draft.dateFound), Trim(draft.description),
         draft.imageDataUrl, PENDING, now, OrNull(draft.reportedByUserId))
  }

  /** setItemStatus: every item with the id gets the new status and nothing
      else changes. */
  function WithItemStatus(items: seq<Item>, itemId: string, status: string): (r: seq<Item>)
    ensures |r| == |items|
    ensures forall i :: 0 <= i < |items| && items[i].id == itemId ==> r[i] == items[i].(status := status)
    ensures forall i :: 0 <= i < |items| && items[i].id != itemId ==> r[i] == items[i]
  {
    Map(items, (it: Item) => if it.id == itemId then it.(status := status) else it)
  }

  /** Setting the same status twice is the same as setting it once. */
  lemma WithItemStatusIdempotent(items: seq<Item>, itemId: string, status: string)
    ensures WithItemStatus(WithItemStatus(items, itemId, status), itemId, status) == WithItemStatus(items, itemId, status)
  {
    var once := WithItemStatus(items, itemId, status);
    var twice := WithItemStatus(once, itemId, status);
    assert forall i :: 0 <= i < |items| ==> twice[i] == once[i];
  }

  /** An id no item carries leaves the list as it was. */
  lemma WithItemStatusUnknownId(items: seq<Item>, itemId: string, status: string)
    requires forall i :: 0 <= i < |items| ==> items[i].id != itemId
    ensures WithItemStatus(items, itemId, status) == items
  {
    var r := WithItemStatus(items, itemId, status);
    assert forall i :: 0 <= i < |items| ==> r[i] == items[i];
  }

  /** A typed `patch` for updateItem: each present field overwrites the item's. */
  datatype ItemPatch = ItemPatch(
    id: Option<string>,
    title: Option<string>,
    category: Option<string>,
    location: Option<string>,
    dateFound: Option<string>,
    description: Option<string>,
    imageDataUrl: Option<string>,
    status: Option<string>,
    createdAt: Option<int>,
    reportedByUserId: Option<Option<string>>)

  function Or<T>(o: Option<T>, old_: T): T {
    if o.Some? then o.value else old_
  }

  /** `{ ...it, ...patch }` */
  function ApplyPatch(it: Item, patch: ItemPatch): Item {
    Item(Or(patch.id, it.id), Or(patch.title, it.title), Or(patch.category, it.category),
         Or(patch.location, it.location), Or(patch.dateFound, it.dateFound),
         Or(patch.description, it.description), Or(patch.imageDataUrl, it.imageDataUrl),
         Or(patch.status, it.status), Or(patch.createdAt, it.createdAt),
         Or(patch.reportedByUserId, it.reportedByUserId))
  }

  /** updateItem: the items with the id take the patch's fields and keep
      every other field; no field is validated (the id and status too may
      change); other items are untouched. */
  function PatchItems(items: seq<Item>, itemId: string, patch: ItemPatch): (r: seq<Item>)
    ensures |r| == |items|
    ensures forall i :: 0 <= i < |items| && items[i].id != itemId ==> r[i] == items[i]
    ensures forall i :: 0 <= i < |items| && items[i].id == itemId ==>
      && (patch.status.Some? ==> r[i].status == patch.status.value)
      && (patch.status.None? ==> r[i].status == items[i].status)
      && (patch.id.Some? ==> r[i].id == patch.id.value)
      && (patch.id.None? ==> r[i].id == items[i].id)
      && r[i] == ApplyPatch(items[i], patch)
  {
    Map(items, (it: Item) => if it.id == itemId then ApplyPatch(it, patch) else it)
  }

  /** The empty patch changes nothing. */
  lemma EmptyPatchIsNoOp(items: seq<Item>, itemId: string)
    ensures PatchItems(items, itemId, ItemPatch(None, None, None, None, None, None, None, None, None, None)) == items
  {
    var r := PatchItems(items, itemId, ItemPatch(None, None, None, None, None, None, None, None, None, None));
    assert forall i :: 0 <= i < |items| ==> r[i] == items[i];
  }

  /** deleteItem, on the items: exactly the items with the id disappear. */
  function WithoutItem(items: seq<Item>, itemId: string): (r: seq<Item>)
    ensures forall it :: it in r <==> it in items && it.id != itemId
    ensures forall it: Item :: it.id != itemId ==> multiset(r)[it] == multiset(items)[it]
    ensures |r| <= |items|
  {
    var keep := (it: Item) => it.id != itemId;
    FilterMultiset(items, keep);
    Filter(items, keep)
  }

  /** deleteItem, on the claims: exactly the claims about that item disappear
      (claims about no item stay). */
  function WithoutClaimsFor(claims: seq<Claim>, itemId: string): (r: seq<Claim>)
    ensures forall c :: c in r <==> c in claims && c.itemId != Some(itemId)
    ensures forall c: Claim :: c.itemId != Some(itemId) ==> multiset(r)[c] == multiset(claims)[c]
    ensures |r| <= |claims|
  {
    var keep := (c: Claim) => c.itemId != Some(itemId);
    FilterMultiset(claims, keep);
    Filter(claims, keep)
  }

  /** Deleting keeps the survivors in their original order: deleting from a
      concatenation is deleting from each part. */
  lemma WithoutItemKeepsOrder(a: seq<Item>, b: seq<Item>, itemId: string)
    ensures WithoutItem(a + b, itemId) == WithoutItem(a, itemId) + WithoutItem(b, itemId)
  {
    FilterConcat(a, b, (it: Item) => it.id != itemId);
  }

  /** What the claim form hands to addClaim. */
  datatype ClaimDraft = ClaimDraft(itemId: Option<string>, userId: string, contact: string, message: string)

  /** The record addClaim creates: status "submitted", contact and message trimmed. */
  function NewClaim(draft: ClaimDraft, id: string, now: int): (c: Claim)
    ensures c.id == id && c.createdAt == now && c.status == SUBMITTED
    ensures c.itemId == draft.itemId && c.userId == draft.userId
    ensures c.contact == Trim(draft.contact) && c.message == Trim(draft.message)
  {
    Claim(id, draft.itemId, draft.userId, Trim(draft.contact), Trim(draft.message), now, SUBMITTED)
  }

  /** updateClaimStatus: the claims with the id get the status, whatever it
      was before; nothing else changes. */
  function WithClaimStatus(claims: seq<Claim>, claimId: string, status: string): (r: seq<Claim>)
    ensures |r| == |claims|
    ensures forall i :: 0 <= i < |claims| && claims[i].id == claimId ==> r[i] == claims[i].(status := status)
    ensures forall i :: 0 <= i < |claims| && claims[i].id != claimId ==> r[i] == claims[i]
  {
    Map(claims, (c: Claim) => if c.id == claimId then c.(status := status) else c)
  }

  /** What the review form hands to addReview; a None rating is a missing one. */
  datatype ReviewDraft = ReviewDraft(userId: string, rating: Option<int>, comment: string)

  /** `Number(payload.rating || 5)`: a missing or zero rating becomes 5. */
  function StoredRating(rating: Option<int>): (r: int)
    ensures r != 0
    ensures rating.Some? && rating.value != 0 ==> r == rating.value
    ensures rating.None? || rating == Some(0) ==> r == 5
  {
    if rating.None? || rating.value == 0 then 5 else rating.value
  }

  /** The record addReview creates. */
  function NewReview(draft: ReviewDraft, id: string, now: int): (r: Review)
    ensures r.id == id && r.userId == draft.userId && r.createdAt == now
    ensures r.rating == Some(StoredRating(draft.rating))
    ensures r.comment == Trim(draft.comment)
  {
    Review(id, draft.userId, Some(StoredRating(draft.rating)), Trim(draft.comment), now)
  }

  /** The provider's state. Each operation replaces one or two collections
      with a new sequence, as the source's state setters do; the effects
      that save each collection after every change are not modelled. */
  class Store {
    var items: seq<Item>
    var claims: seq<Claim>
    var reviews: seq<Review>

    /** Initial state from what storage held: items seeded first, claims
        seeded from the seeded items. On a first load (nothing stored) the
        5 demo claims are about the 5 demo approved items, in order. */
    constructor (storedItems: seq<Item>, storedClaims: seq<Claim>, storedReviews: seq<Review>,
                 now: int, itemIds: nat -> string, claimIds: nat -> string, isoDate: int -> string)
      ensures |storedItems| > 0 ==> items == storedItems
      ensures |storedClaims| > 0 ==> claims == storedClaims
      ensures |storedItems| == 0 ==> |items| == 14 && Filter(items, IsApproved) == items[..5]
      ensures |storedItems| == 0 && |storedClaims| == 0 ==>
        |claims| == 5 && forall k :: 0 <= k < 5 ==> claims[k].itemId == Some(items[k].id)
      ensures reviews == storedReviews
    {
      var seeded := SeedItems(storedItems, now, itemIds, isoDate);
      var seededClaims := SeedClaims(storedClaims, seeded, now, claimIds);
      items := seeded;
      claims := seededClaims;
      reviews := storedReviews;
    }

    /** addItem: the new item is prepended; the list grows by one. */
    method AddItem(draft: ItemDraft, id: string, now: int) returns (created: Item)
      modifies this
      ensures created == NewItem(draft, id, now)
      ensures items == [created] + old(items)
      ensures claims == old(claims) && reviews == old(reviews)
    {
      created := NewItem(draft, id, now);
      items := [created] + items;
    }

    method SetItemStatus(itemId: string, status: string)
      modifies this
      ensures items == WithItemStatus(old(items), itemId, status)
      ensures claims == old(claims) && reviews == old(reviews)
    {
      items := WithItemStatus(items, itemId, status);
    }

    method UpdateItem(itemId: string, patch: ItemPatch)
      modifies this
      ensures items == PatchItems(old(items), itemId, patch)
      ensures claims == old(claims) && reviews == old(reviews)
    {
      items := PatchItems(items, itemId, patch);
    }

    /** deleteItem cascades: the item's claims go with it. */
    method DeleteItem(itemId: string)
      modifies this
      ensures items == WithoutItem(old(items), itemId)
      ensures claims == WithoutClaimsFor(old(claims), itemId)
      ensures reviews == old(reviews)
      ensures forall it :: it in items ==> it.id != itemId
      ensures forall c :: c in claims ==> c.itemId != Some(itemId)
    {
      items := WithoutItem(items, itemId);
      claims := WithoutClaimsFor(claims, itemId);
    }

    method AddClaim(draft: ClaimDraft, id: string, now: int) returns (created: Claim)
      modifies this
      ensures created == NewClaim(draft, id, now)
      ensures claims == [created] + old(claims)
      ensures items == old(items) && reviews == old(reviews)
    {
      created := NewClaim(draft, id, now);
      claims := [created] + claims;
    }

    method UpdateClaimStatus(claimId: string, status: string)
      modifies this
      ensures claims == WithClaimStatus(old(claims), claimId, status)
      ensures items == old(items) && reviews == old(reviews)
    {
      claims := WithClaimStatus(claims, claimId, status);
    }

    /** addReview prepends; reviews are never updated or deleted. */
    method AddReview(draft: ReviewDraft, id: string, now: int) returns (created: Review)
      modifies this
      ensures created == NewReview(draft, id, now)
      ensures reviews == [created] + old(reviews)
      ensures items == old(items) && claims == old(claims)
    {
      created := NewReview(draft, id, now);
      reviews := [created] + reviews;
    }
  }
}
