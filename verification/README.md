# A verified model of a small customer-relationship tracker

The system is a CRM in which each user has their own customers (the ownership rules
themselves are not modelled). Every
customer has a status (Lead, Active or Closed) and a history of interactions (calls,
emails and meetings), each of which may carry a follow-up date. Three pages work on
this data:

- the customer list, with a search box and a create/edit form;
- the page of one customer, with its history, a form that logs an interaction, and delete buttons;
- the dashboard, with the status counts and a feed of the next five follow-ups.

The model is written in Dafny as seven modules, one per part of the program:

- `Schema` (`schema.dfy`) holds the two tables, `customers` and `interactions`.
  - Each table has a Row, an Insert and an Update shape.
  - A nullable column is an `Option`. An optional payload key is a `Field`.
  - Statuses and interaction types are enumerations.
  - It also defines the rows the store builds from an insert or an update.
- `Query` (`query.dfy`) gives the store's query operators as pure functions over sequences.
  - `.eq`, `.not(is null)`, `.gte` and `Array.filter` are `Filter`.
  - `.order` is `OrderBy`, a stable sort.
  - `.limit` is `Limit`.
  - It also holds the lemmas about these operators: subsequence, counts, commutation, ordering and truncation.
- `Text` (`text.dfy`) is substring search, JavaScript's `includes`, over positions where a needle occurs; both pages use it.
- `Backend` (`store.dfy`) models the hosted store as a `Store` class that the pages' methods update.
  - Its fields are the set of users, the two tables and an `available` flag.
  - A write is accepted exactly when the tables stay consistent, and the store is reachable. Consistent means unique ids, and that every user id and customer id points at an existing row.
  - Deleting a customer cascades to its interactions. This is an assumption about the store.
- `Customers` (`customers.dfy`) covers the customer list page.
  - Search uses ASCII lowering and `includes`.
  - The status colours are modelled.
  - The form and the page state form a class.
  - The methods are the four handlers: fetch, edit click, add click and submit.
- `CustomerDetail` (`customer_detail.dfy`) covers the page of one customer.
  - The note guard is `trim()`.
  - The status badge and the interaction icon are modelled.
  - Reads cover the single-row lookup and the history.
  - A class holds the page state, with handlers to log an interaction, delete an interaction and delete the customer.
- `Dashboard` (`dashboard.dfy`) covers the dashboard.
  - It computes the four counts and the follow-up feed, and joins each feed row to its customer.
  - It models the display fallbacks.
  - A class holds the page state, with its fetch handler.

Inputs the program takes from its environment are parameters:

- the signed-in user, as `Option<Id>`;
- the current time, as an integer timestamp;
- the id the store generates for a new row;
- the answer to a confirmation dialog, as a `bool`;
- the parsing of the follow-up date input, as a function `string -> Timestamp`.

The model follows what the code does, which differs from the intended design in three ways:

- Creating a customer does not check that the trimmed name is non-empty.
- No operation is scoped to an owner. Reads take every row or filter by a customer id, and deletes select by id; nothing filters by owner.
- A failed read does not raise `NotFound`. The page keeps its previous state.

## Model

| member | source | states |
|---|---|---|
| Schema.ParseStatus | src/types/supabase.ts:44 | a status column is one of exactly three names, and each parsed status prints back as its text |
| Schema.ParseType | src/types/supabase.ts:79 | an interaction type is one of exactly `call`, `meeting`, `email`, and each parsed type prints back as its text |
| Schema.NewCustomer | src/types/supabase.ts:47-55 | the row built from an insert: given keys are taken, omitted ones take the column defaults (generated id, null email and phone, Lead, insertion time); its properties are proved in CustomerDefaults and CustomerInsertRoundTrip |
| Schema.ApplyCustomerUpdate | src/types/supabase.ts:56-64 | an update replaces the given keys of a row and keeps the omitted ones; its laws are proved in CustomerUpdateLaws |
| Schema.NewInteraction | src/types/supabase.ts:84-92 | the row built from an interaction insert: omitted id, notes, date and follow-up take the generated id, null, the insertion time and null; proved in InteractionDefaults |
| Schema.StatusNameRoundTrip | src/types/supabase.ts:44 | every status reads back from its name, and distinct statuses have distinct names |
| Schema.TypeNameRoundTrip | src/types/supabase.ts:79 | every interaction type reads back from its name, and distinct types have distinct names |
| Schema.CustomerDefaults | src/types/supabase.ts:47-55 | an insert needs only `user_id` and `name`; id, email, phone, status and creation time default to the generated id, null, null, Lead and now |
| Schema.CustomerInsertRoundTrip | src/types/supabase.ts:38-55 | a row inserted from its own full payload comes back unchanged; without id and `created_at` it differs only in those two columns |
| Schema.CustomerUpdateLaws | src/types/supabase.ts:56-64 | an empty update changes nothing, an update applied twice equals applying it once, and a status-only update changes only the status |
| Schema.InteractionDefaults | src/types/supabase.ts:75-92 | a stored interaction always has an `interaction_date`, which defaults to the insertion time; notes and follow-up default to null; a full payload reads back unchanged |
| Query.Filter | src/pages/CustomerDetail.tsx:161 | the kept rows are exactly the input rows the predicate accepts, and there are no more of them than input rows |
| Query.FilterIsSubsequence | src/pages/Customers.tsx:35-38 | a filter keeps the rows in their original order (an order-preserving subsequence) |
| Query.FilterCount | src/pages/CustomerDetail.tsx:105 | a filter keeps each accepted row as often as it occurs and drops every other row |
| Query.FilterCounts | src/pages/CustomerDetail.tsx:105 | the per-row counts of a filter, for every row at once |
| Query.FilterAll | src/pages/Customers.tsx:35-38 | a predicate that accepts every row leaves the list as it is |
| Query.FilterFilter | src/pages/CustomerDetail.tsx:105 | two filters commute |
| Query.FilterOrdered | src/pages/CustomerDetail.tsx:161 | filtering an ordered list leaves it ordered |
| Query.OrderBy | src/pages/CustomerDetail.tsx:106 | `.order` returns a permutation of its input, sorted by the key in the requested direction |
| Query.FilterOrderBy | src/pages/CustomerDetail.tsx:102-106 | filtering the sorted list is sorting the filtered list |
| Query.Limit | src/pages/Dashboard.tsx:81 | `.limit(n)` returns the first min(n, length) rows |
| Query.LimitOrdered | src/pages/Dashboard.tsx:80-81 | the kept prefix of a sorted list is sorted, and every dropped row sorts after every kept one |
| Backend.UpdateCustomersByIdSpec | src/pages/Customers.tsx:72-80 | an update by id rewrites exactly the rows with that id and leaves every other row where and as it was |
| Backend.InsertCustomerAccepted | src/types/supabase.ts:65-72 | a new customer keeps the tables consistent exactly when its id is unused and its user exists |
| Backend.InsertInteractionAccepted | src/types/supabase.ts:102-115 | a new interaction keeps the tables consistent exactly when its id is unused, its user exists and its customer is stored |
| Backend.UpdateKeepsConsistent | src/pages/Customers.tsx:72-80 | an update that sets neither the id nor an unknown user cannot break a constraint |
| Backend.SignedIn | src/pages/Customers.tsx:63 | a user counts as signed in when one is reported and its id is not empty; a missing user and an empty id are both rejected |
| Backend.Consistent | src/types/supabase.ts:65-115 | the tables' constraints: unique ids in each table, every `user_id` names a user, every `customer_id` names a stored customer |
| Backend.UpdateCustomersById | src/pages/Customers.tsx:72-80 | `.update(u).eq('id', id)`: every row with the id takes the update; its effect is stated in UpdateCustomersByIdSpec |
| Backend.SubsequenceKeepsUnique | src/pages/CustomerDetail.tsx:150 | deleting rows cannot create a duplicate key: any subsequence of rows with unique keys has unique keys |
| Backend.DeleteCustomerCascade | src/pages/CustomerDetail.tsx:148-151 | deleting a customer removes exactly its rows and, by cascade, exactly its interactions; the tables stay consistent and no interaction refers to it |
| Backend.DeleteInteractionKeepsConsistent | src/pages/CustomerDetail.tsx:158 | deleting an interaction by id removes exactly the rows with that id and keeps the tables consistent |
| Backend.Store.constructor | src/types/supabase.ts:37-116 | a new store holds no rows, is reachable and is consistent |
| Backend.Store.InsertCustomer | src/pages/Customers.tsx:83-91 | the row built from the payload is appended when the store is reachable, the id is new and the user exists; otherwise nothing changes and the error says why |
| Backend.Store.UpdateCustomer | src/pages/Customers.tsx:72-80 | the rows with the id are updated when the store is reachable and the result is consistent; otherwise nothing changes |
| Backend.Store.DeleteCustomer | src/pages/CustomerDetail.tsx:150 | when reachable, the customer and all its interactions are removed and nothing else changes |
| Backend.Store.InsertInteraction | src/pages/CustomerDetail.tsx:130-137 | the row built from the payload is appended exactly when reachable, new, and its user and customer exist |
| Backend.Store.DeleteInteraction | src/pages/CustomerDetail.tsx:158 | when reachable, the interactions with the id are removed and nothing else changes |
| Customers.ToLower | src/pages/Customers.tsx:36-37 | lowering keeps the length, turns each ASCII capital into its small letter and keeps every other character |
| Customers.ToLowerLaws | src/pages/Customers.tsx:36-37 | lowering is idempotent and distributes over concatenation |
| Text.Includes | src/pages/Customers.tsx:36-37 | `includes` holds exactly when the needle occurs at some position of the text |
| Text.IncludesPrefix | src/pages/Customers.tsx:36 | every text includes the empty text, and a text that includes `s + t` includes `s` |
| Customers.Matches | src/pages/Customers.tsx:36-37 | a customer matches when its lowered name includes the lowered query, or its email is not null and its lowered email includes it |
| Customers.Search | src/pages/Customers.tsx:35-38 | the shown rows are an order-preserving subsequence of the list, made of exactly the customers whose lowered name or lowered email contains the lowered query, each as often as it occurs in the list |
| Customers.SearchEmptyQuery | src/pages/Customers.tsx:35-38 | an empty query shows the whole list, in order |
| Customers.SearchNullEmail | src/pages/Customers.tsx:37 | a customer with a null email matches only through its name |
| Customers.SearchIgnoresCase | src/pages/Customers.tsx:36-37 | the query's case does not matter |
| Customers.SearchNarrows | src/pages/Customers.tsx:35-38 | extending the query never shows a customer that the shorter query hid |
| Customers.StatusColor | src/pages/Customers.tsx:103-109 | green exactly for Active, slate exactly for Closed, blue for anything else |
| Customers.StatusColorsDistinct | src/pages/Customers.tsx:103-109 | the three statuses get three different colours, and unknown text is coloured like Lead |
| Customers.IsEditing | src/pages/Customers.tsx:71 | the form updates a customer exactly when an edited id is set and is not empty; a missing or empty id makes the form create one |
| Customers.UpdatePatchEffect | src/pages/Customers.tsx:71-81 | an edit writes name, email, phone and status, and never the id, owner or creation time |
| Customers.InsertPayloadEffect | src/pages/Customers.tsx:82-92 | a created customer is owned by the signed-in user and carries the form's fields |
| Customers.EditRoundTrip | src/pages/Customers.tsx:40-50 | saving an unchanged edit form gives back the customer, except that a null email or phone is stored as empty text; search results are unaffected |
| Customers.FormOf | src/pages/Customers.tsx:43-48 | the edit form filled from a customer, null email and phone becoming empty text; stated with its patch in EditRoundTrip |
| Customers.UpdatePatch | src/pages/Customers.tsx:74-79 | the update an edit sends gives exactly name, email, phone and status; its effect is stated in UpdatePatchEffect |
| Customers.InsertPayload | src/pages/Customers.tsx:85-91 | the insert sends the user id and the form's name, email, phone and status; its effect is stated in InsertPayloadEffect |
| Customers.NewestFirst | src/pages/Customers.tsx:25-28 | the fetched list, ordered by `created_at` descending; stated in NewestFirstSpec |
| Customers.NewestFirstSpec | src/pages/Customers.tsx:24-28 | the fetched list is a permutation of the stored customers, newest `created_at` first |
| Customers.CustomersPage.constructor | src/pages/Customers.tsx:11-18 | the page starts loading, with no rows, an empty query, a closed empty form and no edited id |
| Customers.CustomersPage.FilteredCustomers | src/pages/Customers.tsx:35-38 | the table's rows are the search over the page's list and query; stated in Search |
| Customers.CustomersPage.FetchCustomers | src/pages/Customers.tsx:24-32 | the list becomes the stored customers newest first, or stays as it was if the store does not answer; loading ends |
| Customers.CustomersPage.HandleEditClick | src/pages/Customers.tsx:40-50 | the form opens on the customer's fields, with null email and phone as empty text, and the edited id is set |
| Customers.CustomersPage.HandleAddClick | src/pages/Customers.tsx:52-56 | the form opens empty with status Lead and no edited id |
| Customers.CustomersPage.HandleSubmit | src/pages/Customers.tsx:58-101 | with no signed-in user nothing is written; otherwise only the row with the edited id is updated, or one row owned by the user is inserted; success resets the form and refetches, while failure leaves the page unchanged |
| CustomerDetail.IsSpace | src/pages/CustomerDetail.tsx:125 | the characters `trim()` removes: tab, line feed, vertical tab, form feed, carriage return, space, no-break space, ogham space, U+2000 to U+200A, line and paragraph separators, narrow no-break space, medium mathematical space, ideographic space and the byte order mark |
| CustomerDetail.TrimStart | src/pages/CustomerDetail.tsx:125 | the result is a suffix of the text, everything dropped is white space, and its first character is not |
| CustomerDetail.TrimEnd | src/pages/CustomerDetail.tsx:125 | the result is a prefix of the text, everything dropped is white space, and its last character is not |
| CustomerDetail.Trim | src/pages/CustomerDetail.tsx:125 | `trim()`: both ends stripped of white space, from TrimStart and TrimEnd |
| CustomerDetail.Blank | src/pages/CustomerDetail.tsx:125 | `!note.trim()`; characterised in BlankIffAllSpace |
| CustomerDetail.BlankIffAllSpace | src/pages/CustomerDetail.tsx:125 | a note is rejected exactly when it is empty or all white space; otherwise the trimmed note is a piece of it with visible ends |
| CustomerDetail.StatusBadgeTone | src/pages/CustomerDetail.tsx:24-45 | a badge is highlighted exactly for Active |
| CustomerDetail.StatusBadgeInitial | src/pages/CustomerDetail.tsx:33 | the round badge shows the first character of the status, or nothing for an empty status |
| CustomerDetail.StatusBadgeDistinct | src/pages/CustomerDetail.tsx:24-45 | the three statuses have distinct initials, and only Active is highlighted |
| CustomerDetail.InteractionIconFallback | src/pages/CustomerDetail.tsx:49-64 | each type has its own colour and glyph; unknown text takes the call colour and gets no glyph |
| CustomerDetail.InteractionIconColor | src/pages/CustomerDetail.tsx:50-57 | the icon colour of a type, the call colour for unknown text; stated in InteractionIconFallback |
| CustomerDetail.InteractionIconGlyph | src/pages/CustomerDetail.tsx:61-63 | the glyph of a type, none for unknown text; stated in InteractionIconFallback |
| CustomerDetail.SingleById | src/pages/CustomerDetail.tsx:93-97 | `.eq('id', id).single()` succeeds only when exactly one row has the id; stated in SingleByIdFinds |
| CustomerDetail.History | src/pages/CustomerDetail.tsx:102-106 | the customer's interactions ordered by `interaction_date` descending; stated in HistorySpec |
| CustomerDetail.SingleByIdFinds | src/pages/CustomerDetail.tsx:93-97 | with unique ids, the single-row read finds a customer exactly when one with that id is stored, and it is that customer |
| CustomerDetail.AtMostOneWithId | src/pages/CustomerDetail.tsx:96-97 | with unique ids, at most one row matches an id |
| CustomerDetail.HistorySpec | src/pages/CustomerDetail.tsx:102-106 | the history holds exactly the customer's interactions, each as often as stored, from the latest `interaction_date` to the earliest |
| CustomerDetail.LocalRemovalMatchesRefetch | src/pages/CustomerDetail.tsx:156-162 | removing an interaction from the shown history gives the same list as reading the history again after the delete |
| CustomerDetail.LocalRemovalIsValidRefetch | src/pages/CustomerDetail.tsx:156-162 | whatever order the store gives equal dates, removing an interaction from any newest-first history leaves a newest-first arrangement of exactly the customer's remaining interactions |
| CustomerDetail.RemoveInteractionSpec | src/pages/CustomerDetail.tsx:161 | the local removal drops exactly the entries with that id and keeps all others, with their counts and order; a list ordered newest first stays ordered |
| CustomerDetail.LogPayload | src/pages/CustomerDetail.tsx:130-137 | the insert the log form sends; its row is stated in LoggedRow |
| CustomerDetail.LoggedRow | src/pages/CustomerDetail.tsx:130-137 | the logged row has the route's customer, the user, the chosen type, the note as typed and now as its date; its follow-up is null exactly when the date field is empty |
| CustomerDetail.HasRouteId | src/pages/CustomerDetail.tsx:86 | the route gives a customer id that is present and not empty; without one the page does not load (`if (id)`) and does not log (`!id` at line 125) |
| CustomerDetail.LoadSucceeds | src/pages/CustomerDetail.tsx:93-108 | both reads succeed exactly when the store answers, the route has an id and `.single()` finds exactly one customer with it; FetchData and Open change the page only when it holds |
| CustomerDetail.CustomerDetailPage.constructor | src/pages/CustomerDetail.tsx:71-82 | the page starts loading, with no customer, an empty history, an empty note and follow-up, and type call |
| CustomerDetail.CustomerDetailPage.FetchData | src/pages/CustomerDetail.tsx:90-119 | when both reads succeed, the page shows the single customer with the id and its history; otherwise it keeps what it had; loading ends either way |
| CustomerDetail.CustomerDetailPage.Open | src/pages/CustomerDetail.tsx:85-87 | the page fetches only when the route carries an id; it then shows the single customer with that id and its history when both reads succeed and keeps what it had otherwise, and loading ends |
| CustomerDetail.CustomerDetailPage.HandleAddInteraction | src/pages/CustomerDetail.tsx:123-146 | nothing is inserted for a blank note, a missing id or no signed-in user; otherwise the logged row is appended exactly when the store accepts it, after which the inputs are cleared and the refetched history contains the row; on failure the inputs are kept |
| CustomerDetail.CustomerDetailPage.HandleDeleteInteraction | src/pages/CustomerDetail.tsx:156-164 | only after confirmation, and only if the store accepts, are the rows with the id removed from the store and from the shown list; nothing else changes |
| CustomerDetail.CustomerDetailPage.HandleDeleteCustomer | src/pages/CustomerDetail.tsx:148-153 | only after confirmation, the customer and its whole history are deleted and the page is left |
| CustomerDetail.DeletedCustomerIsGone | src/pages/CustomerDetail.tsx:148-151 | after the delete, the customer cannot be read and its history is empty |
| Dashboard.Statuses | src/pages/Dashboard.tsx:68 | the status column is read for every customer, in order |
| Dashboard.CountStatus | src/pages/Dashboard.tsx:89-91 | a card's count is the number of customers with its status |
| Dashboard.ThreeStatuses | src/pages/Dashboard.tsx:88-91 | every status is one of the three, so their counts add up to the number of rows |
| Dashboard.StatusPartition | src/pages/Dashboard.tsx:85-93 | each card counts its status, total is the number of rows, `total == leads + active + closed`, and no count exceeds total |
| Dashboard.StatsAfterInsert | src/pages/Dashboard.tsx:88-91 | a new customer adds one to the card of its status and to no other card |
| Dashboard.ComputeStats | src/pages/Dashboard.tsx:87-92 | the four cards, each a `filter(...).length`; stated in StatusPartition and StatsAfterInsert |
| Dashboard.IsUpcoming | src/pages/Dashboard.tsx:78-79 | an interaction is upcoming when its follow-up date is not null and not before now; used in PendingSpec and FeedRows |
| Dashboard.FindCustomer | src/pages/Dashboard.tsx:76 | the join finds a customer exactly when one with the id is stored, and returns such a customer |
| Dashboard.Join | src/pages/Dashboard.tsx:72-77 | a feed row carries the interaction's id, type and follow-up date and its customer's name and id, or null; stated in FeedJoinsCustomer |
| Dashboard.Pending | src/pages/Dashboard.tsx:78-80 | the upcoming interactions, earliest follow-up first; stated in PendingSpec |
| Dashboard.FeedInteractions | src/pages/Dashboard.tsx:78-81 | the first five pending interactions; stated in FeedRows and FeedEarliest |
| Dashboard.Feed | src/pages/Dashboard.tsx:70-81 | the feed rows, each the join of one of those interactions; stated in FeedRows, FeedEarliest and FeedJoinsCustomer |
| Dashboard.PendingSpec | src/pages/Dashboard.tsx:78-80 | the sorted candidates are a permutation of the interactions with a non-null follow-up at or after now, earliest first |
| Dashboard.FeedRows | src/pages/Dashboard.tsx:70-81 | the feed has min(5, upcoming) rows; each comes from a stored interaction with a non-null follow-up at or after now; rows are non-decreasing by follow-up date |
| Dashboard.OneRowFeed | src/pages/Dashboard.tsx:70-81 | with one customer and one interaction of it whose follow-up is at or after now, the feed is exactly that interaction joined with the customer's name and id |
| Dashboard.FeedEarliest | src/pages/Dashboard.tsx:78-81 | an upcoming interaction is left out only if every shown row is due no later than it; with five or fewer upcoming, all are shown |
| Dashboard.FeedJoinsCustomer | src/pages/Dashboard.tsx:72-77 | in a consistent store every feed row carries the name and id of its stored customer, never null |
| Dashboard.FeedAfterDelete | src/pages/Dashboard.tsx:25 | after a cascading delete, no feed row refers to the deleted customer |
| Dashboard.DisplayName | src/pages/Dashboard.tsx:168 | a row without a customer, or whose customer has an empty name, is shown as "Unknown Customer"; otherwise it shows the customer's name |
| Dashboard.ViewLink | src/pages/Dashboard.tsx:176-183 | the View link exists exactly when the row has a customer with a non-empty id, and it points at that id |
| Dashboard.DashboardPage.constructor | src/pages/Dashboard.tsx:55-57 | the page starts loading, with zero counts and an empty feed |
| Dashboard.DashboardPage.FetchDashboardData | src/pages/Dashboard.tsx:64-106 | when the store answers, the cards and the feed are computed from it; otherwise they keep their previous values; the counts keep adding up, the feed stays within five rows, and loading ends |
| Dashboard.CustomerLifeCycle | src/pages/Dashboard.tsx:85-98 | (proved through LifeCycleCreate, LifeCycleViews and LifeCycleDelete) one customer is created, gets a call with a follow-up a week ahead, and is deleted: the counts, the history and the feed show it while it exists, and are empty after the delete |

## Left out

- Date parsing and formatting are not modelled: `new Date(...)`, `toISOString` and `toLocaleDateString`. Timestamps are integers, and the follow-up date input is turned into a timestamp by a function parameter.
- Network and scheduling are not modelled: the hosted store client, `Promise.all`, React's effects and state batching. Each handler is one sequential state transition.
  - Both dashboard reads succeed or fail together, because both go to the same store.
- Alerts, the confirmation dialogs and navigation are not modelled. A confirmation is a `bool` input, and the page exit after a customer delete is a returned `bool`.
- Rendering is not modelled: JSX, CSS classes and icon components. Colours and glyphs are small enumerations.
- The store's delete rule is not part of this model. The cascade from a customer to its interactions is assumed: the foreign key at src/types/supabase.ts:102-108 does not declare it, and the page relies on it at src/pages/CustomerDetail.tsx:149-150.
- Customers.CustomersPage.HandleSubmit and CustomerDetail.CustomerDetailPage.HandleAddInteraction: a write and the refetch after it succeed or fail together, because one availability flag decides both. In the source the refetch can fail on its own and leave the old list, which does not show the new row.
- CustomerDetail.LocalRemovalMatchesRefetch: the exact equality with a refetched history holds only for the model's stable sort. For an arbitrary tie order of equal dates, only what LocalRemovalIsValidRefetch states is promised: the same rows, each list newest first.
- The order of rows with equal sort keys is not modelled. `OrderBy` is a stable sort in stored order, while the hosted store leaves ties unspecified.
- `toLowerCase` lowers ASCII letters only. Unicode case mapping is not modelled.
- Row-level ownership rules, the `profiles` table and the authentication pages are not part of this model. The signed-in user is an input.
- Customers.CustomersPage.HandleSubmit: the form's status is a `Status`, so the `as` cast of arbitrary text in the source is not modelled.
- Strings are sequences of Unicode scalar values. JavaScript's UTF-16 code units, which `includes`, `charAt(0)` and `trim` work on, are not modelled.
- The interaction Update shape is not modelled, because no page updates an interaction.
- The icon colour lookup `styles[type]` is modelled for the three type names and for any other text. Keys inherited from the object prototype are not modelled.
- The customer card's fallbacks "No email" and "No phone" are not modelled. Neither are the empty-history and empty-feed messages, which are rendering only.
