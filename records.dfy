/** The persisted entities of the lost-and-found application and the
    constants their status and role fields take. Statuses and roles stay
    strings, as in the source: the store accepts whatever string an
    operation is handed. */
module Records {
  import opened Seqs

  const PENDING := "pending"
  const APPROVED := "approved"
  const REJECTED := "rejected"

  const SUBMITTED := "submitted"
  const IN_REVIEW := "in_review"
  const RESOLVED := "resolved"

  const ADMIN := "admin"
  const STUDENT := "student"

  /** A registered account. */
  datatype User = User(
    id: string,
    name: string,
    email: string,
    password: string,
    role: string,
    phone: string,
    createdAt: int)

  /** A reported found item; `reportedByUserId` is None for null. */
  datatype Item = Item(
    id: string,
    title: string,
    category: string,
    location: string,
    dateFound: string,
    description: string,
    imageDataUrl: string,
    status: string,
    createdAt: int,
    reportedByUserId: Option<string>)

  /** A claim or inquiry about an item; `itemId` is None for undefined
      (a seeded claim whose approved item does not exist). */
  datatype Claim = Claim(
    id: string,
    itemId: Option<string>,
    userId: string,
    contact: string,
    message: string,
    createdAt: int,
    status: string)

  /** A site review; `rating` is None for a value that is not a number (NaN). */
  datatype Review = Review(
    id: string,
    userId: string,
    rating: Option<int>,
    comment: string,
    createdAt: int)

  predicate IsApproved(it: Item) { it.status == APPROVED }
  predicate IsPending(it: Item) { it.status == PENDING }
  predicate IsRejected(it: Item) { it.status == REJECTED }

  /** The comparator `(a, b) => b.createdAt - a.createdAt`: newest first. */
  predicate NewerItem(a: Item, b: Item) { a.createdAt >= b.createdAt }
  predicate NewerClaim(a: Claim, b: Claim) { a.createdAt >= b.createdAt }

  /** Every item in `s` is at least as new as every item after it. */
  predicate NewestFirst(s: seq<Item>) {
    forall i, j :: 0 <= i < j < |s| ==> s[i].createdAt >= s[j].createdAt
  }

  /** Items sorted newest first by a stable sort: the same items, reordered. */
  function SortNewestFirst(items: seq<Item>): (r: seq<Item>)
    ensures multiset(r) == multiset(items) && |r| == |items|
    ensures NewestFirst(r)
  {
    var r := SortBy(items, NewerItem);
    assert SortedBy(r, NewerItem);
    r
  }

  /** Claims sorted newest first by a stable sort. */
  function SortClaimsNewestFirst(claims: seq<Claim>): (r: seq<Claim>)
    ensures multiset(r) == multiset(claims) && |r| == |claims|
    ensures forall i, j :: 0 <= i < j < |r| ==> r[i].createdAt >= r[j].createdAt
  {
    var r := SortBy(claims, NewerClaim);
    assert SortedBy(r, NewerClaim);
    r
  }
}
