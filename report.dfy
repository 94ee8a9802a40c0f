/** The report form: its category choices and defaults, the check that
    title, location and description are filled in, and the draft it hands
    to addItem. Today's date and the image preview (read from a file) are
    inputs. */
module Report {
  import opened Seqs
  import opened Text
  import opened Records
  import DataStore

  const CATEGORIES := ["Bottle", "Keys", "ID Card", "Electronics", "Clothing", "Bag", "Other"]
  const DEFAULT_CATEGORY := "Other"
  const FILL_IN := "Please fill in title, location, and description."

  /** The form is refused when any of the three text fields is blank. */
  predicate Missing(title: string, location: string, description: string) {
    IsBlank(title) || IsBlank(location) || IsBlank(description)
  }

  /** `currentUser?.id || null` */
  function ReporterId(user: Option<User>): (r: Option<string>)
    ensures user.None? ==> r.None?
    ensures user.Some? && user.value.id != "" ==> r == Some(user.value.id)
    ensures r != Some("")
  {
    if user.Some? && user.value.id != "" then Some(user.value.id) else None
  }

  /** The draft handed to addItem: the three text fields trimmed, the
      category and date as selected, the preview or "", and the reporter. */
  function Draft(title: string, category: string, location: string, dateFound: string,
                 description: string, preview: string, user: Option<User>): (d: DataStore.ItemDraft)
    ensures d.title == Trim(title) && d.location == Trim(location) && d.description == Trim(description)
    ensures d.category == category && d.dateFound == dateFound && d.imageDataUrl == preview
    ensures d.reportedByUserId == ReporterId(user)
  {
    DataStore.ItemDraft(Trim(title), category, Trim(location), dateFound, Trim(description),
                        preview, ReporterId(user))
  }

  /** Every offered category is stored as chosen. */
  lemma {:induction false} CategoriesStoredAsChosen(c: string)
    requires c in CATEGORIES
    ensures DataStore.CategoryOrOther(c) == c
  {
    assert IsTrimmed(c) && !IsBlank(c);
  }

  /** A report that passes the check becomes a pending item with the
      trimmed, non-empty title, location and description, the chosen
      category and the reporter's id. */
  lemma {:induction false} AcceptedReportIsPending(title: string, category: string, location: string,
                                                   dateFound: string, description: string, preview: string,
                                                   user: Option<User>, id: string, now: int)
    requires !Missing(title, location, description) && category in CATEGORIES
    ensures var it := DataStore.NewItem(Draft(title, category, location, dateFound, description, preview, user), id, now);
            && it.status == PENDING && it.id == id
            && it.title == Trim(title) && it.title != []
            && it.location == Trim(location) && it.location != []
            && it.description == Trim(description) && it.description != []
            && it.category == category
            && it.reportedByUserId == ReporterId(user)
  {
    CategoriesStoredAsChosen(category);
  }

  /** The report form's state. */
  class ReportForm {
    var title: string
    var category: string
    var location: string
    var dateFound: string
    var description: string
    var preview: string
    var status: string
    var busy: bool

    /** Empty fields, the category "Other" and today's date. */
    constructor(today: string)
      ensures title == "" && location == "" && description == "" && preview == "" && status == ""
      ensures category == DEFAULT_CATEGORY && dateFound == today && !busy
    {
      title := "";
      category := DEFAULT_CATEGORY;
      location := "";
      dateFound := today;
      description := "";
      preview := "";
      status := "";
      busy := false;
    }

    /** onSubmit: a report missing a field only sets the message; otherwise
        exactly one item is added and the page moves to it. */
    method Submit(user: Option<User>, store: DataStore.Store, id: string, now: int) returns (go: Option<string>)
      modifies this, store
      ensures Missing(title, location, description) ==>
                status == FILL_IN && go.None? && store.items == old(store.items) && busy == old(busy)
      ensures !Missing(title, location, description) ==>
                && status == ""
                && go == Some("/items/" + id)
                && store.items == [DataStore.NewItem(Draft(title, category, location, dateFound, description, preview, user), id, now)]
                                  + old(store.items)
                && !busy
      ensures title == old(title) && category == old(category) && location == old(location)
      ensures dateFound == old(dateFound) && description == old(description) && preview == old(preview)
      ensures store.claims == old(store.claims) && store.reviews == old(store.reviews)
    {
      status := "";
      if Missing(title, location, description) {
        status := FILL_IN;
        return None;
      }
      busy := true;
      var created := store.AddItem(Draft(title, category, location, dateFound, description, preview, user), id, now);
      go := Some("/items/" + created.id);
      busy := false;
    }
  }
}
