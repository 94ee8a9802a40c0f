/** Properties that span several parts of the application: the moderation
    of a new report, and the statuses claims can reach through the
    application's own buttons and forms. */
module Scenarios {
  import opened Seqs
  import opened Text
  import opened Records
  import DataStore
  import Listing
  import Admin

  /** A freshly reported item is pending, so the public listing hides it
      whatever the query string says; once an administrator approves it,
      the public listing with no filters shows it. */
  lemma {:induction false} ReportThenApprove(items: seq<Item>, draft: DataStore.ItemDraft, id: string, now: int,
                                             params: Listing.Params)
    ensures var created := DataStore.NewItem(draft, id, now);
            created !in Listing.Visible([created] + items, params, false)
    ensures var created := DataStore.NewItem(draft, id, now);
            created.(status := APPROVED) in Listing.Visible(DataStore.WithItemStatus([created] + items, id, APPROVED), map[], false)
  {
    var created := DataStore.NewItem(draft, id, now);
    var approved := DataStore.WithItemStatus([created] + items, id, APPROVED);
    var it := created.(status := APPROVED);
    assert approved[0] == it;
    var q := Listing.QueryOf(map[], false);
    assert Trim("") == [];
    assert q == Listing.Query([], Listing.ALL_CATEGORIES, APPROVED);
    assert Listing.Keep(it, false, q);
  }

  /** The claim operations the application's screens perform: filing a
      claim from an item page, and the two buttons of a claim card. */
  datatype ClaimStep =
    | File(draft: DataStore.ClaimDraft, id: string, now: int)
    | Press(claimId: string, button: Admin.ClaimButton)

  /** The claims after the steps, each applied as the store applies it. */
  function Run(claims: seq<Claim>, steps: seq<ClaimStep>): seq<Claim> {
    if steps == [] then claims
    else
      var s := steps[|steps| - 1];
      var before := Run(claims, steps[..|steps| - 1]);
      match s
      case File(draft, id, now) => [DataStore.NewClaim(draft, id, now)] + before
      case Press(claimId, button) => DataStore.WithClaimStatus(before, claimId, Admin.ClaimButtonStatus(button))
  }

  predicate NoneApproved(claims: seq<Claim>) {
    forall i :: 0 <= i < |claims| ==> claims[i].status != APPROVED
  }

  /** No sequence of the application's claim steps makes a claim
      "approved", so the dashboard never shows a claim as a success. */
  lemma {:induction false} ClaimsNeverApproved(claims: seq<Claim>, steps: seq<ClaimStep>)
    requires NoneApproved(claims)
    ensures NoneApproved(Run(claims, steps))
  {
    if steps != [] {
      var before := Run(claims, steps[..|steps| - 1]);
      ClaimsNeverApproved(claims, steps[..|steps| - 1]);
      match steps[|steps| - 1]
      case File(draft, id, now) =>
        var r := [DataStore.NewClaim(draft, id, now)] + before;
        assert forall i :: 1 <= i < |r| ==> r[i] == before[i - 1];
      case Press(claimId, button) =>
    }
  }
}
