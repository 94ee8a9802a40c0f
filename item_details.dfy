/** The item page: which item a link shows, whether the viewer may see it,
    and the claim form whose submission is refused without a signed-in
    user, a contact or a message. */
module ItemDetails {
  import opened Seqs
  import opened Text
  import opened Records
  import DataStore

  const LOGIN_FIRST := "Please log in to submit a claim/inquiry."
  const FILL_BOTH := "Please provide contact info and a message."
  const SENT := "Request submitted. The admin team will review it."

  predicate HasId(it: Item, id: string) { it.id == id }

  /** `items.find(it => it.id === id) || null`: the first item with the id. */
  function FindItem(items: seq<Item>, id: string): (r: Option<Item>)
    ensures r.None? <==> forall i :: 0 <= i < |items| ==> items[i].id != id
    ensures r.Some? ==> exists i :: 0 <= i < |items| && items[i] == r.value && r.value.id == id
                          && forall j :: 0 <= j < i ==> items[j].id != id
  {
    var r := Find(items, (it: Item) => HasId(it, id));
    assert r.Some? ==> r.value == items[FirstIndex(items, (it: Item) => HasId(it, id))];
    r
  }

  /** What the page renders. */
  datatype View = NotFound | NotPublic | Details(item: Item)

  /** canView: approved items are public, everything is visible to an
      admin. */
  predicate CanView(it: Item, viewer: Option<User>) {
    it.status == APPROVED || (viewer.Some? && viewer.value.role == ADMIN)
  }

  /** The page for an id: not found when no item has it, withheld when the
      viewer may not see the item, the item's details otherwise. */
  function PageView(items: seq<Item>, id: string, viewer: Option<User>): (v: View)
    ensures v == NotFound <==> forall i :: 0 <= i < |items| ==> items[i].id != id
    ensures v.Details? ==> v.item.id == id && v.item in items && CanView(v.item, viewer)
    ensures v == NotPublic ==> exists it :: it in items && it.id == id && !CanView(it, viewer)
    ensures v == NotPublic ==> viewer.None? || viewer.value.role != ADMIN
  {
    var found := FindItem(items, id);
    if found.None? then NotFound
    else if CanView(found.value, viewer) then Details(found.value)
    else NotPublic
  }

  /** Why a claim is refused, if it is: no signed-in user first, then a
      blank contact or message. */
  function Refusal(user: Option<User>, contact: string, message: string): (m: Option<string>)
    ensures m.None? <==> user.Some? && !IsBlank(contact) && !IsBlank(message)
    ensures user.None? ==> m == Some(LOGIN_FIRST)
    ensures user.Some? && (IsBlank(contact) || IsBlank(message)) ==> m == Some(FILL_BOTH)
  {
    if user.None? then Some(LOGIN_FIRST)
    else if Trim(contact) == [] || Trim(message) == [] then Some(FILL_BOTH)
    else None
  }

  /** The claim an accepted submission stores: about this item, by this
      user, with the contact and message trimmed, status submitted. */
  function Filed(it: Item, user: User, contact: string, message: string, id: string, now: int): (c: Claim)
    ensures c.id == id && c.createdAt == now && c.status == SUBMITTED
    ensures c.itemId == Some(it.id) && c.userId == user.id
    ensures c.contact == Trim(contact) && c.message == Trim(message)
  {
    DataStore.NewClaim(DataStore.ClaimDraft(Some(it.id), user.id, Trim(contact), Trim(message)), id, now)
  }

  /** The claim form's state. */
  class ClaimForm {
    var contact: string
    var message: string
    var status: string

    constructor()
      ensures contact == "" && message == "" && status == ""
    {
      contact := "";
      message := "";
      status := "";
    }

    /** onSubmitClaim: a refused claim only sets the message; an accepted
        one adds exactly one claim and clears both fields. */
    method Submit(it: Item, user: Option<User>, store: DataStore.Store, id: string, now: int)
      modifies this, store
      ensures var m := Refusal(user, old(contact), old(message));
              && (m.Some? ==> status == m.value && contact == old(contact) && message == old(message))
              && (m.Some? ==> store.claims == old(store.claims))
              && (m.None? ==> status == SENT && contact == "" && message == "")
              && (m.None? ==> store.claims == [Filed(it, user.value, old(contact), old(message), id, now)] + old(store.claims))
      ensures store.items == old(store.items) && store.reviews == old(store.reviews)
    {
      status := "";
      var m := Refusal(user, contact, message);
      if m.Some? {
        status := m.value;
        return;
      }
      var _ := store.AddClaim(DataStore.ClaimDraft(Some(it.id), user.value.id, Trim(contact), Trim(message)), id, now);
      contact := "";
      message := "";
      status := SENT;
    }
  }
}
