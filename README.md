# LostAndFound: a verified model of the client-side data layer

LostAndFound is a single-page campus lost-and-found application. There is no
server. Items, claims, reviews, user accounts and the session live in React
state and are saved to the browser's `localStorage`. Every page derives its
lists and counters from those collections.

This project models that data layer in Dafny and proves what each part
promises. The model covers:

- the item/claim/review store (`DataStore`) and the account store (`Auth`);
- the views over them: `Listing`, `Home`, `Admin`, `Dashboard`, `Analytics` and `Suggestions`;
- the form guards that decide whether a store operation happens at all (`Reviews`, `ItemDetails`, `Report`);
- backup, restore and storage statistics (`Backup`);
- the toast queue (`Toasts`);
- two properties that span several parts (`Scenarios`).

Shared helpers:

- `Seqs`: `map`, `filter`, `find`, `slice`, `new Set`, a stable sort and a sum.
- `Text`: `trim`, `toLowerCase`, `includes`, the `split(' - ')[0]` area and code-point order.
- `Records`: the record types and status constants.
- `Arith`: `Math.round` of a quotient.
- `Clock`: the relative time labels.

Conventions:

- Record ids (`uid`), the clock (`Date.now`) and ISO date formatting are parameters.
- `null`/`undefined` become `Option`.
- Storage holds parsed JSON values.
- Where the source replaces a state collection in place, the model is a class whose methods reassign `seq` fields. Pure views are functions, with lemmas about them.

## Model

| member | source | states |
|---|---|---|
| DataStore.SeedItems | src/contexts/DataContext.jsx:67-246 | A stored list that is not empty is returned unchanged. An empty one yields the 14 demo items: 5 approved, then 7 pending, then 2 rejected, with ids drawn in order, no image and no reporter. |
| DataStore.Stamp | src/contexts/DataContext.jsx:71-245 | The demo items built from a text table have one status each, consecutive ids and creation times no later than now. |
| DataStore.StampTexts | src/contexts/DataContext.jsx:73-245 | Each demo item carries its table row's title, category, location and description, and was created the row's number of hours before now. |
| DataStore.StatusCounts | src/contexts/DataContext.jsx:71-245 | Filtering the approved+pending+rejected concatenation by status gives back each part. |
| DataStore.SeedShape | src/contexts/DataContext.jsx:71-245 | The seeded list splits by status into positions 0-4, 5-11 and 12-13. |
| DataStore.DemoShape | src/contexts/DataContext.jsx:71-245 | The same split, with the whole list stamped with ids 0-13. |
| DataStore.StampedConcat | src/contexts/DataContext.jsx:71-245 | Consecutively stamped parts make a consecutively stamped whole. |
| DataStore.ApprovedTexts | src/contexts/DataContext.jsx:72-133 | There are 5 approved demo rows. |
| DataStore.PendingTexts | src/contexts/DataContext.jsx:134-219 | There are 7 pending demo rows. |
| DataStore.RejectedTexts | src/contexts/DataContext.jsx:220-245 | There are 2 rejected demo rows. |
| DataStore.ClaimTexts | src/contexts/DataContext.jsx:18-64 | There are 5 demo claim rows. |
| DataStore.StampClaims | src/contexts/DataContext.jsx:18-64 | The k-th demo claim is about the k-th approved item, or about no item when there are at most k approved items. It keeps its row's user, contact, message and status, and its creation time is no later than now. |
| DataStore.SeedClaims | src/contexts/DataContext.jsx:10-65 | Non-empty stored claims are kept. With no approved item the result is []. Otherwise there are 5 claims, the k-th about the k-th approved item or about none. |
| DataStore.CategoryOrOther | src/contexts/DataContext.jsx:261 | The category is trimmed, and a blank one becomes "Other"; the result is never empty. |
| DataStore.NewItem | src/contexts/DataContext.jsx:257-269 | A new item is always pending. Its text fields are trimmed, a blank category becomes "Other", and an empty reporter id becomes null. |
| DataStore.WithItemStatus | src/contexts/DataContext.jsx:275-277 | Only the status of items with the id changes. Every other item and field stays. |
| DataStore.WithItemStatusIdempotent | src/contexts/DataContext.jsx:275-277 | Setting a status twice is setting it once. |
| DataStore.WithItemStatusUnknownId | src/contexts/DataContext.jsx:275-277 | An id no item carries changes nothing. |
| DataStore.PatchItems | src/contexts/DataContext.jsx:279-281 | Matching items take exactly the patch's fields, id and status included, and keep the rest. Other items are untouched. |
| DataStore.EmptyPatchIsNoOp | src/contexts/DataContext.jsx:279-281 | The empty patch changes nothing. |
| DataStore.WithoutItem | src/contexts/DataContext.jsx:284 | Exactly the items with the id disappear. Every other item keeps its multiplicity. |
| DataStore.WithoutClaimsFor | src/contexts/DataContext.jsx:285 | Exactly the claims about that item disappear. Claims about no item stay. |
| DataStore.WithoutItemKeepsOrder | src/contexts/DataContext.jsx:284 | Deleting distributes over concatenation, so survivors keep their order. |
| DataStore.NewClaim | src/contexts/DataContext.jsx:288-297 | A new claim is "submitted", with trimmed contact and message and the given item and user. |
| DataStore.WithClaimStatus | src/contexts/DataContext.jsx:303-305 | Only the status of the matching claims changes, to any value. |
| DataStore.StoredRating | src/contexts/DataContext.jsx:311 | A missing or zero rating is stored as 5; any other rating is kept. |
| DataStore.NewReview | src/contexts/DataContext.jsx:307-314 | A new review has the user's id, the stored rating and the trimmed comment. |
| DataStore.Store.constructor | src/contexts/DataContext.jsx:249-251 | Items are seeded first and claims from the seeded items. On a first load the 5 demo claims are about the 5 demo approved items. |
| DataStore.Store.AddItem | src/contexts/DataContext.jsx:257-273 | The new item is prepended; claims and reviews are unchanged. |
| DataStore.Store.SetItemStatus | src/contexts/DataContext.jsx:275-277 | The items become the status-updated list; nothing else changes. |
| DataStore.Store.UpdateItem | src/contexts/DataContext.jsx:279-281 | The items become the patched list; nothing else changes. |
| DataStore.Store.DeleteItem | src/contexts/DataContext.jsx:283-286 | The item and every claim about it are removed; reviews are unchanged. |
| DataStore.Store.AddClaim | src/contexts/DataContext.jsx:288-301 | The new claim is prepended; items and reviews are unchanged. |
| DataStore.Store.UpdateClaimStatus | src/contexts/DataContext.jsx:303-305 | The claims become the status-updated list; nothing else changes. |
| DataStore.Store.AddReview | src/contexts/DataContext.jsx:307-318 | The new review is prepended; items and claims are unchanged. |
| Auth.EnsureSeedUsers | src/contexts/AuthContext.jsx:9-25 | A list with an admin is kept. Otherwise exactly one demo admin (admin@campus.edu, role admin) is put in front. |
| Auth.EnsureSeedUsersIdempotent | src/contexts/AuthContext.jsx:31-34 | Seeding twice is seeding once, so the mount-time re-seed never changes a seeded list. |
| Auth.IndexOfId | src/contexts/AuthContext.jsx:46 | The position of the first user with the id. |
| Auth.CurrentUser | src/contexts/AuthContext.jsx:44-47 | There is no current user without a session, with an empty user id, or when no user has the session's id. Otherwise the current user is the first user with that id. |
| Auth.NormalizeEmail | src/contexts/AuthContext.jsx:50 | The normalized email is lower case and trimmed. It is empty exactly when the input is blank. |
| Auth.IndexOfEmail | src/contexts/AuthContext.jsx:78 | The position of the first user whose lower-cased email is the normalized one. |
| Auth.SignupError | src/contexts/AuthContext.jsx:49-60 | Each of the three refusals occurs exactly in its case, checked in the source's order: empty email, password under 4 characters, email taken ignoring case. |
| Auth.NewUser | src/contexts/AuthContext.jsx:61-69 | A new account has the normalized email, role student and no phone; a blank name becomes "Student". |
| Auth.PrependKeepsEmailsDistinct | src/contexts/AuthContext.jsx:57-71 | Putting in front an account whose email matches no stored one, ignoring case, keeps emails distinct. |
| Auth.SignupKeepsEmailsDistinct | src/contexts/AuthContext.jsx:57-71 | A successful signup keeps stored emails pairwise distinct ignoring case. |
| Auth.LoginMatch | src/contexts/AuthContext.jsx:77-81 | The match is the first user with the email, provided the password is exactly equal. |
| Auth.LoginSucceedsIff | src/contexts/AuthContext.jsx:76-85 | With distinct emails, login succeeds iff some user has both the email and the password. |
| Auth.WithProfile | src/contexts/AuthContext.jsx:93-99 | Only the current user's name and phone change. A blank name keeps the old one, and the phone is trimmed. |
| Auth.ProfileKeepsEmailsDistinct | src/contexts/AuthContext.jsx:91-101 | A profile update keeps emails distinct. |
| Auth.AuthStore.constructor | src/contexts/AuthContext.jsx:28-29 | The stored users are seeded with an admin, and the session is the stored one. |
| Auth.AuthStore.Signup | src/contexts/AuthContext.jsx:49-74 | A refusal changes nothing and reports the reason. On success the new user is prepended and becomes the session. |
| Auth.AuthStore.Login | src/contexts/AuthContext.jsx:76-85 | On a match the session moves to the matched user. Otherwise one error covers both causes and the session stays. |
| Auth.AuthStore.Logout | src/contexts/AuthContext.jsx:87-89 | The session becomes null. |
| Auth.AuthStore.UpdateProfile | src/contexts/AuthContext.jsx:91-101 | The update is refused without a current user. Otherwise only that user's profile changes. |
| Listing.Param | src/pages/ItemsPage.jsx:32-34 | `params.get(k) \|\| fallback`: a missing or empty value gives the fallback. |
| Listing.QueryOf | src/pages/ItemsPage.jsx:32-34 | The text is trimmed and lower-cased and the category defaults to "All". The status defaults to "all" for an admin and to "approved" otherwise. |
| Listing.Visible | src/pages/ItemsPage.jsx:31-46 | The result is exactly the items passing the filter, as a sub-multiset of the items, newest first. |
| Listing.NonAdminSeesApprovedOnly | src/pages/ItemsPage.jsx:38 | A non-admin sees only approved items, whatever the parameters. |
| Listing.AdminDefaultShowsAll | src/pages/ItemsPage.jsx:34-39 | With no parameters an admin sees every item, newest first. |
| Listing.VisitorDefaultShowsApproved | src/pages/ItemsPage.jsx:34-39 | With no parameters a non-admin sees exactly the approved items. |
| Listing.TitleHit | src/pages/ItemsPage.jsx:41-43 | A query found in the lower-cased title passes the text filter. |
| Listing.NarrowingShowsFewer | src/pages/ItemsPage.jsx:36-45 | Adding a query or a category never enlarges the list. |
| Listing.QueryWidens | src/pages/ItemsPage.jsx:32-34 | Setting q or category where it was unset changes only that part of the query. |
| Listing.FilterNarrows | src/pages/ItemsPage.jsx:37-44 | A narrower query keeps a subset of the items and no more of them. |
| Listing.KeepWidens | src/pages/ItemsPage.jsx:37-44 | Dropping the text or category filter keeps every item that passed. |
| Listing.NamedCategories | src/pages/ItemsPage.jsx:27 | The result holds exactly the non-empty categories of the items. |
| Listing.Categories | src/pages/ItemsPage.jsx:26-29 | "All" comes first, then the distinct non-empty categories, sorted. |
| Listing.StatusOptions | src/pages/ItemsPage.jsx:19-24 | An admin gets four options and anyone else gets "approved" alone. Each role's default status is among its options. |
| Listing.ApplyEntry | src/pages/ItemsPage.jsx:50-53 | A null, undefined or empty value deletes the key; anything else sets it. |
| Listing.ApplyEntriesKeepsOthers | src/pages/ItemsPage.jsx:48-55 | Keys no entry names keep their value or their absence. |
| Listing.ApplyEntriesLastWins | src/pages/ItemsPage.jsx:48-55 | The last entry naming a key decides that key. |
| Listing.UpdateParam | src/pages/ItemsPage.jsx:48-55 | The loop copies the parameters and applies the entries left to right. |
| Listing.SearchSubmitSetsText | src/pages/ItemsPage.jsx:57-60 | After a search submit, the listing filters on the trimmed, lower-cased text. |
| Home.CountsBounded | src/pages/HomePage.jsx:46-47 | approvedCount + pendingCount is at most the number of items. |
| Home.HomeVisible | src/pages/HomePage.jsx:49-52 | At most 6 items, all on the tab, newest first. The length is min(6, matches). |
| Home.HomeShowsNewest | src/pages/HomePage.jsx:49-52 | A tab item left out is no newer than any shown item. |
| Home.NewerThanLater | src/pages/HomePage.jsx:51 | In a newest-first list, earlier entries are at least as new as later ones. |
| Home.AllTabShowsEverything | src/pages/HomePage.jsx:50 | The "all" tab keeps every status. |
| Admin.StatusList | src/pages/AdminPage.jsx:49-60 | The result is exactly the items with the status, with their multiplicities, newest first. |
| Admin.StatusListsDisjoint | src/pages/AdminPage.jsx:49-60 | The pending, approved and rejected lists are pairwise disjoint. |
| Admin.StatusListsCover | src/pages/AdminPage.jsx:49-60 | An item with one of the three statuses is on one of the lists. |
| Admin.ClaimsList | src/pages/AdminPage.jsx:62 | The claims list is a newest-first permutation of the claims. |
| Admin.Request | src/pages/AdminPage.jsx:82-104 | Approve sets "approved", Reject sets "rejected", Delete deletes. |
| Admin.TabRequests | src/pages/AdminPage.jsx:78-106 | A tab's buttons only set approved or rejected. The approved tab has no Approve, and the rejected tab has no Reject. |
| Admin.ClaimButtonStatus | src/pages/AdminPage.jsx:153-162 | "Mark in review" sets "in_review" and "Mark resolved" sets "resolved", each status from exactly that button; no button sets "approved". |
| Admin.ClaimItemTitle | src/pages/AdminPage.jsx:135 | The title of the first item with the claim's id, or "Unknown". |
| Clock.TimeAgo | src/pages/AdminPage.jsx:25-33 | Minutes under an hour, hours under a day, days beyond. Each count is floored, and its unit brackets the elapsed time. |
| Clock.FloorBounds | src/pages/AdminPage.jsx:27 | Dafny's division is the floor for a positive divisor. |
| Clock.FloorTwice | src/pages/AdminPage.jsx:29-31 | Flooring minutes then hours is flooring by the product. |
| Clock.FloorUnique | src/pages/AdminPage.jsx:27-31 | The floor is the unique bracketing multiple. |
| Clock.Digits | src/pages/AdminPage.jsx:28 | A number is rendered as decimal digits. |
| Clock.DigitsRoundTrip | src/pages/AdminPage.jsx:28 | The rendered digits read back as the number. |
| Clock.LabelReadsBack | src/pages/AdminPage.jsx:28-32 | A label ends in "m ago", "h ago" or "d ago", after digits that read back as the count. |
| Dashboard.UserItems | src/pages/DashboardPage.jsx:107 | Exactly the items whose reporter is the current user. |
| Dashboard.UserClaims | src/pages/DashboardPage.jsx:108 | Exactly the claims the current user made. |
| Dashboard.Stats | src/pages/DashboardPage.jsx:106-117 | The counts match the user's items and claims, and pending ≤ reported. successRate is round(100·approved/reported), within [0,100], and 0 when nothing is reported. |
| Dashboard.SignedOutStatsAreZero | src/pages/DashboardPage.jsx:107-108 | With nobody signed in every counter is 0. |
| Dashboard.MyItems | src/pages/DashboardPage.jsx:149-153 | Exactly the user's items with their multiplicities, newest first. |
| Dashboard.ItemTone | src/pages/DashboardPage.jsx:130 | approved ↦ success, pending ↦ pending, anything else ↦ error. |
| Dashboard.ClaimTone | src/pages/DashboardPage.jsx:139 | A claim is a success only for status "approved". |
| Dashboard.ItemEntries | src/pages/DashboardPage.jsx:124-132 | One entry per user item, in store order. |
| Dashboard.ClaimEntries | src/pages/DashboardPage.jsx:133-141 | One entry per user claim, in store order. Each entry carries the corrected title (Dashboard.ClaimTitle, see Findings) and links to "/items/undefined" when the claim has no item id. |
| Dashboard.RecentActivity | src/pages/DashboardPage.jsx:123-146 | The item entries, then the claim entries, at most 10. |
| Dashboard.ClaimEntriesNeverSucceed | src/pages/DashboardPage.jsx:139 | While no claim is "approved", every claim entry is pending. |
| Dashboard.ClaimTitleAsWrittenIgnoresItem | src/pages/DashboardPage.jsx:136 | As written, a claim's title does not name the claimed item. |
| Dashboard.ClaimTitleNamesItem | src/pages/DashboardPage.jsx:136 | The corrected title names the claimed item. |
| Analytics.StatusCountsBounded | src/pages/AnalyticsPage.jsx:77-80 | approved + pending + rejected ≤ totalItems, with equality when every status is one of the three. |
| Analytics.ResolvedCount | src/pages/AnalyticsPage.jsx:82 | resolvedClaims ≤ totalClaims. |
| Analytics.TallyOf | src/pages/AnalyticsPage.jsx:90-93 | The dictionary's keys are exactly the keys counted, in first-insertion order. |
| Analytics.BumpOk | src/pages/AnalyticsPage.jsx:91 | One bump keeps the key order in step with the dictionary. |
| Analytics.TallyOfLast | src/pages/AnalyticsPage.jsx:90-93 | Counting a list is counting all but the last key, then bumping the last. |
| Analytics.TallyCounts | src/pages/AnalyticsPage.jsx:90-93 | Each key's count is its number of occurrences. |
| Analytics.NoOccurrences | src/pages/AnalyticsPage.jsx:90-93 | An absent key occurs 0 times. |
| Analytics.Bars | src/pages/AnalyticsPage.jsx:95-96 | One bar per key, in key order, with its count. |
| Analytics.BarsOf | src/pages/AnalyticsPage.jsx:95-96 | A bar per listed key, with its count. |
| Analytics.TotalRaise | src/pages/AnalyticsPage.jsx:91 | Raising one bar by one raises the total by one. |
| Analytics.BarsBumpOld | src/pages/AnalyticsPage.jsx:91 | Bumping a known key raises its bar only. |
| Analytics.KeyIndex | src/pages/AnalyticsPage.jsx:95 | A counted key has a position in the key order. |
| Analytics.BarsBumpNew | src/pages/AnalyticsPage.jsx:91 | Bumping a new key appends a bar of 1. |
| Analytics.BumpTotal | src/pages/AnalyticsPage.jsx:91 | Every bump raises the total by one. |
| Analytics.BumpTotalOld | src/pages/AnalyticsPage.jsx:91 | The same, for a known key. |
| Analytics.BumpTotalNew | src/pages/AnalyticsPage.jsx:91 | The same, for a new key. |
| Analytics.TallyTotal | src/pages/AnalyticsPage.jsx:90-96 | The counts add up to the number of keys counted. |
| Analytics.TallyOfStep | src/pages/AnalyticsPage.jsx:90-93 | Counting one more key bumps that key in the count of the keys before it. |
| Analytics.Count | src/pages/AnalyticsPage.jsx:90-93 | The reduce loop builds exactly the tally. |
| Analytics.Top | src/pages/AnalyticsPage.jsx:97-98 | Exactly min(n, #bars) bars, larger counts first, a sub-multiset of the input (all of it when #bars ≤ n). A bar left out is no larger than any bar kept. Among bars of equal count, the kept ones are a prefix of them in input order. |
| Analytics.TopCut | src/pages/AnalyticsPage.jsx:97-98 | Cutting a larger-first ordering of the bars to n gives min(n, #bars) bars in order, drawn from the input, the largest ones. |
| Analytics.TopLeftOut | src/pages/AnalyticsPage.jsx:97-98 | After the cut, every bar left out is no larger than every bar kept. |
| Analytics.TopTies | src/pages/AnalyticsPage.jsx:97-98 | Bars of one count appear after the sort and cut as a prefix of those bars in input order. |
| Analytics.TopTiesAll | src/pages/AnalyticsPage.jsx:97-98 | The same, for every count at once. |
| Analytics.LargerFirstOrders | src/pages/AnalyticsPage.jsx:97 | The comparator `b.value - a.value` is a total, transitive order. |
| Analytics.SortKeepsDistinctNames | src/pages/AnalyticsPage.jsx:97 | Sorting keeps names distinct. |
| Analytics.LocationKey | src/pages/AnalyticsPage.jsx:102 | The text before the first " - ", or the whole location when that text is empty. |
| Analytics.CategoryData | src/pages/AnalyticsPage.jsx:90-98 | min(8, #distinct categories) bars, larger counts first, distinct names. Each bar is a category with its item count. No category left out has more items than a category shown, and with at most 8 categories all are shown. |
| Analytics.LocationData | src/pages/AnalyticsPage.jsx:101-110 | min(6, #distinct areas) bars, larger counts first, distinct names. Each bar is an area with its item count. No area left out has more items than an area shown, and with at most 6 areas all are shown. |
| Analytics.ChartTop | src/pages/AnalyticsPage.jsx:90-110 | Counting keys, listing the entries and taking the top n makes a chart as CategoryData and LocationData state. |
| Analytics.ChartLeftOut | src/pages/AnalyticsPage.jsx:95-98 | A key not shown occurs no more often than any shown bar's count. |
| Analytics.ChartAllShown | src/pages/AnalyticsPage.jsx:95-98 | With at most n distinct keys, every key is shown. |
| Analytics.TallyOrderIsDedup | src/pages/AnalyticsPage.jsx:90-95 | The dictionary's key order is the keys' order of first appearance, without repeats. |
| Seqs.SortStable | src/pages/AnalyticsPage.jsx:97 | The sort keeps the input order among elements the comparator ranks level. |
| Seqs.InsertStable | src/pages/AnalyticsPage.jsx:97 | One insertion step keeps the order among level elements. |
| Analytics.ChartFacts | src/pages/AnalyticsPage.jsx:90-96 | Bars have distinct labels, each with its number of occurrences. |
| Analytics.BreakdownsCoverAllItems | src/pages/AnalyticsPage.jsx:90-105 | The category counts and the location counts each sum to totalItems. |
| Analytics.WeeksDisjoint | src/pages/AnalyticsPage.jsx:85-86 | No item is in both this week and last week. |
| Analytics.Trend | src/pages/AnalyticsPage.jsx:87 | 0 when last week is empty, otherwise the rounded percentage change, at least -100. |
| Analytics.Analyze | src/pages/AnalyticsPage.jsx:71-124 | Every figure is as defined, and active claims are never negative. successRate is round(100·resolved/total), within [0,100], and 0 with no claims. |
| Arith.RoundDiv | src/pages/AnalyticsPage.jsx:124 | `Math.round(p / q)`: the nearest integer, with halves rounding up. |
| Arith.RoundDivBounds | src/pages/AnalyticsPage.jsx:124 | A quotient in [0,k] rounds into [0,k]. |
| Arith.FactorLess | src/pages/ReviewsPage.jsx:34 | Positive factors preserve strict order. |
| Arith.Percent | src/pages/DashboardPage.jsx:114 | A rounded percentage within [0,100], and 0 for an empty whole. |
| Suggestions.MatchingItems | src/components/SearchSuggestions.jsx:17-25 | None for a query under 2 characters. Otherwise the first ≤8 approved items mentioning the query, in store order; fewer than 8 means all of them. |
| Suggestions.ItemSuggestions | src/components/SearchSuggestions.jsx:17-34 | At most 8 item entries, none for a short query. Entry i is the entry of matching item i, so there are exactly as many entries as matching items. |
| Suggestions.CandidateTerms | src/components/SearchSuggestions.jsx:38-46 | Every candidate is the lowercase title or category of an item mentioning the query. Every such title (of an item whose title or category mentions it) and every such category is a candidate. The titles come first, in store order. |
| Suggestions.Terms | src/components/SearchSuggestions.jsx:37-47 | None for an empty query. Otherwise at most 5 distinct candidates in order of first appearance. Fewer than 5 means every candidate is there. A candidate left out first appears after every term kept. |
| Seqs.FirstSeen | src/components/SearchSuggestions.jsx:37-47 | `[...new Set(s)].slice(0, n)`: at most n distinct elements of s in order of first appearance; all of them when fewer than n; one left out first appears after all those kept. |
| Seqs.TakeDistinct | src/components/SearchSuggestions.jsx:37-47 | Cutting a first-appearance listing keeps that order, and anything left out appears later. |
| Seqs.AppendFirstSeen | src/components/SearchSuggestions.jsx:38 | Adding one element to a Set keeps its listing in order of first appearance. |
| Seqs.Dedup | src/components/SearchSuggestions.jsx:38 | `[...new Set(s)]`: the elements of s, each once, in order of first appearance. |
| Suggestions.TermSuggestions | src/components/SearchSuggestions.jsx:37-54 | At most 5 term entries, none for an empty query. Entry i is offered term i with its number of matching items. |
| Suggestions.TermsMatchSomething | src/components/SearchSuggestions.jsx:50-53 | Every offered term matches between 1 and all of the items. |
| Suggestions.ContainsSelf | src/components/SearchSuggestions.jsx:50-53 | A string occurs in itself. |
| Suggestions.MapMember | src/components/SearchSuggestions.jsx:80-91 | Every mapped value is an element's image. |
| Suggestions.MapHas | src/components/SearchSuggestions.jsx:80-91 | Every element's image is in the mapped list. |
| Suggestions.FirstDistinct | src/components/SearchSuggestions.jsx:79-94 | At most n distinct images satisfying the test. Fewer than n means all such images are there. |
| Suggestions.CategoryNames | src/components/SearchSuggestions.jsx:79-83 | At most 4 distinct categories mentioning the query; fewer than 4 means all of them. |
| Suggestions.CategorySuggestions | src/components/SearchSuggestions.jsx:79-87 | At most 4 category entries, none for an empty query. Entry i is offered category i with its item count. |
| Suggestions.CategoriesCountSomething | src/components/SearchSuggestions.jsx:86 | Each offered category counts between 1 and all of the items. |
| Suggestions.LocationNames | src/components/SearchSuggestions.jsx:90-94 | At most 4 distinct areas mentioning the query; fewer than 4 means all of them. |
| Suggestions.LocationSuggestions | src/components/SearchSuggestions.jsx:90-98 | At most 4 area entries, none for an empty query. Entry i is offered area i with the number of items whose location contains it. |
| Suggestions.LocationsCountSomething | src/components/SearchSuggestions.jsx:97 | Each offered area's substring count lies between 1 and the number of items. |
| Suggestions.AppendRanked | src/components/SearchSuggestions.jsx:101-106 | Appending a block of equal or higher rank keeps the list ranked. |
| Suggestions.NoItemHits | src/components/SearchSuggestions.jsx:101-106 | With an empty item block, the combined list has no item entry. |
| Suggestions.AllSuggestions | src/components/SearchSuggestions.jsx:101-106 | At most 21 entries, none for an empty query. The length is the sum of the four blocks, and an entry is in the list exactly when it is in one of them. |
| Suggestions.AllSuggestionsRanked | src/components/SearchSuggestions.jsx:101-106 | Items come before terms, terms before categories, categories before areas. |
| Suggestions.ShortQueryOffersNoItem | src/components/SearchSuggestions.jsx:17-106 | A one-character query offers no item. |
| Suggestions.Click | src/components/SearchSuggestions.jsx:140-146 | An item entry navigates to /items/id; any other entry hands over its title. |
| Suggestions.Down | src/components/SearchSuggestions.jsx:114-119 | ArrowDown moves by 0 or 1 and stays within [-1, len-1]. |
| Suggestions.Up | src/components/SearchSuggestions.jsx:120-123 | ArrowUp gives -1 or moves back by one. |
| Suggestions.DownUpReturns | src/components/SearchSuggestions.jsx:114-123 | Down then Up returns to the same index. |
| Suggestions.UpDownReturns | src/components/SearchSuggestions.jsx:114-123 | Up then Down returns to the same entry. |
| Suggestions.KeyEffect | src/components/SearchSuggestions.jsx:124-132 | Enter acts only at a valid index. Escape closes the panel. |
| Suggestions.Panel.constructor | src/components/SearchSuggestions.jsx:14 | Nothing is selected. |
| Suggestions.Panel.KeyDown | src/components/SearchSuggestions.jsx:109-134 | Keys are ignored while hidden. The cursor stays within [-1, len-1]. |
| Suggestions.FormatTimeAgoBrackets | src/components/SearchSuggestions.jsx:148-155 | The label's unit and number bracket the elapsed time, with the same thresholds as the admin page. |
| Reviews.AverageTenths | src/pages/ReviewsPage.jsx:31-35 | 0 with no reviews, otherwise round(10·sum/n) in tenths. |
| Reviews.RoundDivAtLeast | src/pages/ReviewsPage.jsx:34 | A quotient of at least k rounds to at least k. |
| Reviews.AverageInRange | src/pages/ReviewsPage.jsx:33-34 | Ratings in 1..5 give an average in [1.0, 5.0]. |
| Reviews.Display | src/pages/ReviewsPage.jsx:64 | A dash shows iff the average is 0. |
| Reviews.DisplayCases | src/pages/ReviewsPage.jsx:32-64 | No reviews show a dash. Ratings in 1..5 always show a number. |
| Reviews.StarRow | src/pages/ReviewsPage.jsx:9-14 | 5 stars, and the lit stars form a prefix. |
| Reviews.ClickLightsUpTo | src/pages/ReviewsPage.jsx:13-14 | After clicking star n, a star is lit iff its index is below n, and n stars are lit. |
| Reviews.Refusal | src/pages/ReviewsPage.jsx:40-47 | Refused iff signed out or the comment is blank, with the source's message for each case. |
| Reviews.Added | src/pages/ReviewsPage.jsx:48 | The stored review has the user's id, the chosen rating and the trimmed comment. |
| Reviews.ReviewForm.constructor | src/pages/ReviewsPage.jsx:27-29 | The rating starts at 5, with an empty comment and status. |
| Reviews.ReviewForm.Submit | src/pages/ReviewsPage.jsx:37-52 | A refusal only sets the message. Success adds exactly one review and resets the rating to 5 and the comment to "". |
| ItemDetails.FindItem | src/pages/ItemDetailsPage.jsx:13 | None iff no item has the id, otherwise the first such item. |
| ItemDetails.PageView | src/pages/ItemDetailsPage.jsx:13-35 | Not found iff no item has the id. Details are shown only when viewable: approved, or the viewer is an admin. |
| ItemDetails.Refusal | src/pages/ItemDetailsPage.jsx:40-47 | Refused iff signed out, or the contact or message is blank. |
| ItemDetails.Filed | src/pages/ItemDetailsPage.jsx:49 | The claim has the item's id, the user's id and trimmed texts, with status submitted. |
| ItemDetails.ClaimForm.constructor | src/pages/ItemDetailsPage.jsx:15-17 | The form fields start empty. |
| ItemDetails.ClaimForm.Submit | src/pages/ItemDetailsPage.jsx:37-53 | A refusal only sets the message. Success adds exactly one claim and clears both fields. |
| Report.ReporterId | src/pages/ReportPage.jsx:56 | The reporter is the current user's id, or null when nobody is signed in. |
| Report.Draft | src/pages/ReportPage.jsx:48-57 | addItem receives the trimmed text fields, the chosen category and date, the preview or "", and the reporter. |
| Report.CategoriesStoredAsChosen | src/pages/ReportPage.jsx:8 | Every offered category is stored unchanged. |
| Report.AcceptedReportIsPending | src/pages/ReportPage.jsx:41-57 | An accepted report becomes a pending item with non-empty trimmed fields. |
| Report.ReportForm.constructor | src/pages/ReportPage.jsx:15-26 | The category defaults to "Other" and the found date to today. |
| Report.ReportForm.Submit | src/pages/ReportPage.jsx:37-63 | A missing field only sets the message. Otherwise exactly one item is added and the page moves to it. |
| Backup.Lookup | src/lib/backup.js:49 | The value of the first member with the key, if any. |
| Backup.LoadFrom | src/lib/storage.js:1-9 | The stored value, or the fallback for an absent key. |
| Backup.RedactionKeepsOtherFields | src/lib/backup.js:18-21 | A redacted user's password is "[REDACTED]", and every other member is unchanged. |
| Backup.ExportedUsersRedacted | src/lib/backup.js:17-22 | Every exported user has the redacted password and keeps its other fields. |
| Backup.DataFields | src/lib/backup.js:12-22 | The five keys in order, each loaded with [] as the fallback, with users redacted. |
| Backup.ExportEnvelope | src/lib/backup.js:6-10 | The export has version "1.0", the export time and the data object. |
| Backup.DataKeys | src/lib/backup.js:3-14 | The data object holds exactly the five backup keys. |
| Backup.DataValues | src/lib/backup.js:12-22 | Each key holds its stored value or []; the users are redacted. |
| Backup.DistinctBackupKeys | src/lib/backup.js:3 | The five keys are distinct. |
| Backup.RestoreKeepsSession | src/lib/backup.js:55 | The session is never restored. |
| Backup.RestoreKeepsOthers | src/lib/backup.js:54-58 | A key with no array entry keeps its value or its absence. |
| Backup.RestoreLastWins | src/lib/backup.js:54-58 | The last array entry for a key other than the session is stored. |
| Backup.RestoredAt | src/lib/backup.js:54-58 | Each exported array under users, items, claims or reviews is stored back. |
| Backup.ImportOfExport | src/lib/backup.js:5-58 | An export passes the check. Importing it restores items, claims and reviews, and users with redacted passwords. The session and every other key are untouched. |
| Backup.ItemCount | src/lib/backup.js:86 | The corrected count: a list's length, a string's length, and 0 for every other value, null included. |
| Backup.StatOf | src/lib/backup.js:82-87 | An absent key has size 0 and count 0. |
| Backup.NullSessionBreaksStats | src/lib/backup.js:86 | The count as written fails on a stored null; the corrected count gives 0. |
| Backup.StatsAgreeOffNull | src/lib/backup.js:86 | Away from null, the two counts agree. |
| Backup.StatsOf | src/lib/backup.js:81-89 | One statistic per key, in key order. |
| Backup.ClearedTotalIsZero | src/lib/backup.js:71-89 | After clearing, the total is 0. |
| Backup.Storage.constructor | src/lib/storage.js:1-13 | Storage starts with the given entries. |
| Backup.Storage.ExportAllData | src/lib/backup.js:5-25 | The loop builds exactly the export envelope. |
| Backup.Storage.ImportBackup | src/lib/backup.js:45-60 | Unparsable text or a missing version/data writes nothing. Otherwise the entries are restored in order. |
| Backup.Storage.ClearAllData | src/lib/backup.js:71-75 | Exactly the five keys are removed. |
| Backup.Storage.StorageStats | src/lib/backup.js:77-96 | Per-key statistics in key order; the total is the sum of the sizes. |
| Toasts.Stamp | src/contexts/ToastContext.jsx:13 | The stored id is the counter value unless the payload has its own id, which wins. |
| Toasts.TypedToastKeepsCounter | src/contexts/ToastContext.jsx:22-27 | A typed toast keeps the counter id and its type. |
| Toasts.Without | src/contexts/ToastContext.jsx:18-20 | Exactly the toasts with other ids remain. |
| Toasts.WithoutAbsentId | src/contexts/ToastContext.jsx:18-20 | Removing an absent id is a no-op. |
| Toasts.WithoutTwice | src/contexts/ToastContext.jsx:18-20 | Removing twice is removing once. |
| Toasts.AddThenClose | src/contexts/ToastContext.jsx:11-20 | Closing a freshly added toast restores the queue. |
| Toasts.WithoutDistributes | src/contexts/ToastContext.jsx:19 | Removal distributes over concatenation, so order is kept. |
| Toasts.IdCounter.constructor | src/contexts/ToastContext.jsx:6 | The counter starts at 0. |
| Toasts.ToastQueue.constructor | src/contexts/ToastContext.jsx:9 | No toasts. |
| Toasts.ToastQueue.AddToast | src/contexts/ToastContext.jsx:11-16 | The drawn id exceeds every earlier one. The toast is appended and the drawn id is returned. |
| Toasts.ToastQueue.RemoveToast | src/contexts/ToastContext.jsx:18-20 | The queue becomes the filtered queue. |
| Toasts.ToastQueue.Notify | src/contexts/ToastContext.jsx:22-27 | success/error/warning/info each add one toast of that type. |
| Scenarios.ReportThenApprove | src/contexts/DataContext.jsx:257-277 | A new item is hidden from the public listing. After approval it is shown with no filters. |
| Scenarios.ClaimsNeverApproved | src/pages/AdminPage.jsx:153-159 | No sequence of claim filings and claim buttons makes a claim "approved". |
| Text.Trim | src/contexts/DataContext.jsx:260 | `trim` removes exactly leading and trailing whitespace. The result is empty iff the input is blank, and trimming is idempotent. |
| Text.TrimIsInfix | src/contexts/DataContext.jsx:260 | The trim is the part between a blank prefix and a blank suffix. |
| Text.ToLower | src/pages/ItemsPage.jsx:32 | Lower-casing keeps the length and leaves lowercase strings unchanged. |
| Text.ToLowerConcat | src/pages/ItemsPage.jsx:42 | Lower-casing distributes over concatenation. |
| Text.Area | src/components/SearchSuggestions.jsx:91 | `split(' - ')[0]`: the prefix before the first " - ". |
| Text.LexLeTotalPreorder | src/pages/ItemsPage.jsx:28 | The category order is a total preorder. |
| Records.SortNewestFirst | src/pages/HomePage.jsx:51 | A newest-first permutation of the items. |
| Records.SortClaimsNewestFirst | src/pages/AdminPage.jsx:62 | A newest-first permutation of the claims. |

## Left out

- Rendering, styling, routing, navigation and every static page are not modelled.
- Timers are not modelled: the status resets, the toast auto-dismiss and the simulated contact send.
- The FileReader wrapper around import and the file download are not modelled.
- `window.location.reload` is not modelled.
- The effects that save each collection to storage after every change are not modelled. The model's stores hold the state that would be saved.
- `Date.now`, `new Date().toISOString()` and `uid` are parameters. Ids are assumed fresh where a property needs it.
- `toLowerCase` acts on ASCII letters only. `localeCompare` is code-point order.
- JavaScript strings are sequences of characters, not UTF-16 code units.
- Floating point is replaced by integer arithmetic. `Math.round(p/q)` rounds halves up exactly, so a quotient that floating point represents just below a half may round differently in the source.
- Reviews.AverageTenths: the average is a whole number of tenths. The source's floating-point average is not modelled.
- The Math.max bar widths of the analytics charts are not modelled; they are floating point over possibly empty lists.
- formatBytes and the KB display of the settings page are not modelled; they use logarithms and toFixed.
- Dashboard.RecentActivity: the sort by re-parsed locale date strings is left out. The model keeps the feed in concatenation order (item entries, then claim entries) before the cut to ten.
- Search suggestions: the recent searches read from storage and the fixed popular list are not modelled.
- The multi-valued query parameters of URLSearchParams are not modelled; each key has one value.
- Analytics.TallyOf: the source counts into a plain `{}`, so keys naming Object.prototype members behave differently there. A `__proto__` count is not an own entry and drops out of Object.entries. `constructor` or `toString` starts from the inherited function and yields a string instead of a count. The model counts every key as an ordinary key.
- Analytics.BreakdownsCoverAllItems: the sums equal totalItems in the source only when no category or area is `__proto__`, `constructor` or another Object.prototype member name (see Analytics.TallyOf above).
- Analytics.Tally: Object.entries lists integer-like keys first in numeric order. The model keeps first-insertion order for every key.
- Backup.Json: an object's duplicate keys, numbers that are not whole, and `length` properties of plain objects are not modelled.
- Backup.RedactUsers: a truthy `lf_users` that is not a list makes `.map` throw in the source. The model leaves such a value unredacted.
- Backup.RedactUser: spreading a list element that is not an object yields `{ password }` here. The source would also copy a string's indexed characters.
- Backup.Storage.ImportBackup: a rejected promise is a result value. The two failure messages are not modelled.
- Backup.Storage.StorageStats: the byte size of a stored text is a parameter, since the text form is not modelled. The model counts a stored null as 0 entries (see Findings).
- Toasts.Payload: ids are whole numbers, and a payload id present but undefined is not modelled.

## Findings

| source | as written | input that shows it | evidently intended | confidence | as-written member | corrected member |
|---|---|---|---|---|---|---|
| src/pages/DashboardPage.jsx:136 | A claim's activity title reads `claim.itemTitle`, a field no claim has, so every claim shows "Claimed: undefined". | A claim on an item titled "Blue Backpack" is shown as "Claimed: undefined". | The title names the claimed item, looked up as the admin page does. | high, not executed | Dashboard.ClaimTitleAsWrittenIgnoresItem | Dashboard.ClaimTitleNamesItem |
| src/lib/backup.js:86 | The item count reads `JSON.parse(data).length`. When nobody is signed in, `lf_session` holds `null`, so this throws a TypeError and the statistics fail. | Storage with `lf_session` set to `null`, which the session effect writes after logout (src/contexts/AuthContext.jsx:40-42). | A stored null counts 0 entries, like any value without a length. | high, not executed | Backup.NullSessionBreaksStats | Backup.StatsAgreeOffNull |
