/** The personal dashboard: the user's counters and success rate, the
    user's own items, and the recent-activity feed built from the user's
    items and claims. The current user's id is None when nobody is
    signed in. */
module Dashboard {
  import opened Seqs
  import opened Records
  import opened Arith
  import Admin

  const ACTIVITY_LIMIT := 10
  const SUCCESS := "success"
  const PENDING_TONE := "pending"
  const ERROR_TONE := "error"

  /** `item.reportedByUserId === currentUser?.id`: with nobody signed in
      the right side is undefined, which no stored id or null equals. */
  predicate ReportedBy(it: Item, user: Option<string>) {
    user.Some? && it.reportedByUserId == user
  }

  predicate ClaimedBy(c: Claim, user: Option<string>) {
    user.Some? && c.userId == user.value
  }

  function ReportedByFn(user: Option<string>): Item -> bool {
    (it: Item) => ReportedBy(it, user)
  }

  function ClaimedByFn(user: Option<string>): Claim -> bool {
    (c: Claim) => ClaimedBy(c, user)
  }

  function UserItems(items: seq<Item>, user: Option<string>): (r: seq<Item>)
    ensures forall it :: it in r <==> it in items && ReportedBy(it, user)
    ensures |r| <= |items|
  {
    Filter(items, ReportedByFn(user))
  }

  function UserClaims(claims: seq<Claim>, user: Option<string>): (r: seq<Claim>)
    ensures forall c :: c in r <==> c in claims && ClaimedBy(c, user)
    ensures |r| <= |claims|
  {
    Filter(claims, ClaimedByFn(user))
  }

  datatype UserStats = UserStats(reported: nat, claims: nat, pending: nat, successRate: int)

  /** userStats: how many items the user reported and claims the user made,
      how many of the items are pending, and the rounded percentage of them
      that are approved (0 when the user reported nothing). */
  function Stats(items: seq<Item>, claims: seq<Claim>, user: Option<string>): (s: UserStats)
    ensures s.reported == |UserItems(items, user)|
    ensures s.claims == |UserClaims(claims, user)|
    ensures s.pending == |Filter(UserItems(items, user), IsPending)| <= s.reported
    ensures 0 <= s.successRate <= 100
    ensures s.reported == 0 ==> s.successRate == 0
    ensures var approved := |Filter(UserItems(items, user), IsApproved)|;
            s.reported > 0 ==> 2 * s.successRate * s.reported <= 200 * approved + s.reported < 2 * (s.successRate + 1) * s.reported
  {
    var mine := UserItems(items, user);
    var approved := Filter(mine, IsApproved);
    UserStats(|mine|, |UserClaims(claims, user)|, |Filter(mine, IsPending)|, Percent(|approved|, |mine|))
  }

  /** With nobody signed in every counter is zero. */
  lemma {:induction false} SignedOutStatsAreZero(items: seq<Item>, claims: seq<Claim>)
    ensures Stats(items, claims, None) == UserStats(0, 0, 0, 0)
  {
    FilterNone(items, ReportedByFn(None));
    FilterNone(claims, ClaimedByFn(None));
  }

  /** myItems: exactly the user's items, newest first. */
  function MyItems(items: seq<Item>, user: Option<string>): (r: seq<Item>)
    ensures forall it :: multiset(r)[it] == if ReportedBy(it, user) then multiset(items)[it] else 0
    ensures forall it :: it in r <==> it in items && ReportedBy(it, user)
    ensures NewestFirst(r)
  {
    var mine := UserItems(items, user);
    FilterMultiset(items, ReportedByFn(user));
    var r := SortNewestFirst(mine);
    SameMembers(mine, r);
    r
  }

  /** One entry of the activity feed. The date label is kept as the
      timestamp it is formatted from. */
  datatype Activity = Activity(id: string, title: string, description: string,
                               status: string, createdAt: int, link: string)

  /** An item's tone: approved is a success, pending is pending, anything
      else an error. */
  function ItemTone(status: string): (t: string)
    ensures t == SUCCESS <==> status == APPROVED
    ensures t == PENDING_TONE <==> status == PENDING
    ensures t == ERROR_TONE <==> status != APPROVED && status != PENDING
  {
    if status == APPROVED then SUCCESS else if status == PENDING then PENDING_TONE else ERROR_TONE
  }

  /** A claim's tone: a success only for the status "approved", pending
      otherwise. */
  function ClaimTone(status: string): (t: string)
    ensures t == SUCCESS <==> status == APPROVED
    ensures t == PENDING_TONE <==> status != APPROVED
  {
    if status == APPROVED then SUCCESS else PENDING_TONE
  }

  /** An item's entry: its title, where it was found, its tone and a link
      to its page. */
  function ItemActivity(it: Item): Activity {
    Activity("item-" + it.id, "Reported: " + it.title, "Found at " + it.location,
             ItemTone(it.status), it.createdAt, "/items/" + it.id)
  }

  /** The claim title as the source writes it: claims carry no `itemTitle`
      field, so the template prints "undefined" for every claim. */
  function ClaimTitleAsWritten(c: Claim): string {
    "Claimed: undefined"
  }

  /** Whatever the claimed item is called, the title as written does not
      mention it: a claim on a "Blue Backpack" is shown as "Claimed: undefined". */
  lemma ClaimTitleAsWrittenIgnoresItem()
    ensures var it := Item("itm_1", "Blue Backpack", "Bags", "Library", "", "", "", APPROVED, 0, None);
            var c := Claim("clm_1", Some("itm_1"), "usr_1", "", "", 0, SUBMITTED);
            && Admin.ClaimItemTitle([it], c.itemId) == "Blue Backpack"
            && ClaimTitleAsWritten(c) != "Claimed: " + Admin.ClaimItemTitle([it], c.itemId)
  {
    var it := Item("itm_1", "Blue Backpack", "Bags", "Library", "", "", "", APPROVED, 0, None);
    assert [it][0] == it;
    assert ("Claimed: undefined")[9] != ("Claimed: " + "Blue Backpack")[9];
  }

  /** The claim title as evidently intended: the claimed item's title,
      looked up as the admin page does. */
  function ClaimTitle(items: seq<Item>, c: Claim): string {
    "Claimed: " + Admin.ClaimItemTitle(items, c.itemId)
  }

  /** The corrected title names the claimed item whenever it exists with a
      title. */
  lemma ClaimTitleNamesItem(items: seq<Item>, c: Claim, i: nat)
    requires i < |items| && c.itemId == Some(items[i].id) && Admin.FirstWithId(items, i)
    requires items[i].title != ""
    ensures ClaimTitle(items, c) == "Claimed: " + items[i].title
  {
  }

  /** A claim's entry: the claimed item's title, the message, the tone and
      a link to the item's page; a claim without an item id links to
      "/items/undefined", as the template interpolates the missing field. */
  function ClaimActivity(items: seq<Item>, c: Claim): Activity {
    Activity("claim-" + c.id, ClaimTitle(items, c), c.message, ClaimTone(c.status), c.createdAt,
             "/items/" + (if c.itemId.Some? then c.itemId.value else "undefined"))
  }

  function ClaimActivityFn(items: seq<Item>): Claim -> Activity {
    (c: Claim) => ClaimActivity(items, c)
  }

  /** One entry per item the user reported, in store order. */
  function ItemEntries(items: seq<Item>, user: Option<string>): (r: seq<Activity>)
    ensures var mine := UserItems(items, user);
            |r| == |mine| && forall i :: 0 <= i < |r| ==> r[i] == ItemActivity(mine[i])
  {
    Map(UserItems(items, user), ItemActivity)
  }

  /** One entry per claim the user made, in store order. */
  function ClaimEntries(items: seq<Item>, claims: seq<Claim>, user: Option<string>): (r: seq<Activity>)
    ensures var theirs := UserClaims(claims, user);
            |r| == |theirs| && forall i :: 0 <= i < |r| ==> r[i] == ClaimActivity(items, theirs[i])
  {
    Map(UserClaims(claims, user), ClaimActivityFn(items))
  }

  /** recentActivity: the user's item entries, then the user's claim
      entries, cut to the first ten. */
  function RecentActivity(items: seq<Item>, claims: seq<Claim>, user: Option<string>): (r: seq<Activity>)
    ensures |r| <= ACTIVITY_LIMIT
    ensures var a, b := ItemEntries(items, user), ClaimEntries(items, claims, user);
            && |r| == (if |a| + |b| <= ACTIVITY_LIMIT then |a| + |b| else ACTIVITY_LIMIT)
            && (forall i :: 0 <= i < |r| && i < |a| ==> r[i] == a[i])
            && (forall i :: |a| <= i < |r| ==> r[i] == b[i - |a|])
  {
    var a, b := ItemEntries(items, user), ClaimEntries(items, claims, user);
    TakeConcat(a, b, ACTIVITY_LIMIT);
    Take(a + b, ACTIVITY_LIMIT)
  }

  /** While no claim has the status "approved" (and no claim operation of
      the application sets it), no claim entry of the feed is a success. */
  lemma {:induction false} ClaimEntriesNeverSucceed(items: seq<Item>, claims: seq<Claim>, user: Option<string>)
    requires forall i :: 0 <= i < |claims| ==> claims[i].status != APPROVED
    ensures var r := RecentActivity(items, claims, user);
            forall i :: |UserItems(items, user)| <= i < |r| ==> r[i].status == PENDING_TONE
  {
    var theirs := UserClaims(claims, user);
    var a, b := ItemEntries(items, user), ClaimEntries(items, claims, user);
    var r := RecentActivity(items, claims, user);
    forall i | |a| <= i < |r| ensures r[i].status == PENDING_TONE {
      var c := theirs[i - |a|];
      assert c in claims;
      assert r[i] == ClaimActivity(items, c);
    }
  }
}
