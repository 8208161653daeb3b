/** The customer list page: the list fetched newest first, a local case-insensitive
    search over name or email, and one form that either creates a customer or edits
    the one picked from the list. */
module Customers {
  import opened Schema
  import opened Query
  import opened Backend
  import opened Text

  // ---------------------------------------------------------------------------
  // Text

  /** `toLowerCase` on one character, for the ASCII letters. */
  function LowerChar(ch: char): char
  {
    if 'A' <= ch <= 'Z' then (ch as int + 32) as char else ch
  }

  /** `toLowerCase`: each ASCII capital becomes its small letter, every other character is kept. */
  function ToLower(s: string): (r: string)
    ensures |r| == |s|
    ensures forall k :: 0 <= k < |r| ==> !('A' <= r[k] <= 'Z')
    ensures forall k :: 0 <= k < |s| ==>
      if 'A' <= s[k] <= 'Z' then r[k] as int == s[k] as int + 32 else r[k] == s[k]
  {
    seq(|s|, k requires 0 <= k < |s| => LowerChar(s[k]))
  }

  /** Lowering is idempotent and lowers a concatenation piecewise. */
  lemma ToLowerLaws(s: string, t: string)
    ensures ToLower(ToLower(s)) == ToLower(s)
    ensures ToLower(s + t) == ToLower(s) + ToLower(t)
  {
    assert forall k :: 0 <= k < |s| ==> ToLower(ToLower(s))[k] == ToLower(s)[k];
    assert forall k :: 0 <= k < |s + t| ==> ToLower(s + t)[k] == (ToLower(s) + ToLower(t))[k];
  }

  // ---------------------------------------------------------------------------
  // Search

  /** The search condition of the list: the lowered query occurs in the lowered name,
      or in the lowered email when there is one. */
  predicate Matches(c: Customer, query: string)
  {
    Includes(ToLower(c.name), ToLower(query)) ||
    (c.email.Some? && Includes(ToLower(c.email.value), ToLower(query)))
  }

  function Matching(query: string): Customer -> bool
  {
    (c: Customer) => Matches(c, query)
  }

  /** The customers the table shows for a query: exactly the matching ones, in list order. */
  function Search(cs: seq<Customer>, query: string): (r: seq<Customer>)
    ensures IsSubsequence(r, cs)
    ensures forall c :: c in r <==> c in cs && Matches(c, query)
    ensures forall c :: multiset(r)[c] == if Matches(c, query) then multiset(cs)[c] else 0
  {
    FilterIsSubsequence(cs, Matching(query));
    FilterCounts(cs, Matching(query));
    Filter(cs, Matching(query))
  }

  /** An empty query shows every fetched customer, in the fetched order. */
  lemma SearchEmptyQuery(cs: seq<Customer>)
    ensures Search(cs, "") == cs
  {
    forall c | c in cs ensures Matching("")(c) {
      IncludesPrefix(ToLower(c.name), "", "");
    }
    FilterAll(cs, Matching(""));
  }

  /** A customer without an email can match only through its name. */
  lemma SearchNullEmail(c: Customer, query: string)
    requires c.email.None?
    ensures Matches(c, query) <==> Includes(ToLower(c.name), ToLower(query))
  {
  }

  /** The search ignores the case of the query. */
  lemma SearchIgnoresCase(cs: seq<Customer>, query: string)
    ensures Search(cs, query) == Search(cs, ToLower(query))
  {
    ToLowerLaws(query, "");
    FilterSame(cs, Matching(query), Matching(ToLower(query)));
  }

  /** Typing more characters never brings a customer back: every customer shown for
      `query + more` is shown for `query`. */
  lemma SearchNarrows(cs: seq<Customer>, query: string, more: string)
    ensures forall c :: c in Search(cs, query + more) ==> c in Search(cs, query)
  {
    ToLowerLaws(query, more);
    forall c | c in Search(cs, query + more) ensures Matches(c, query) {
      IncludesPrefix(ToLower(c.name), ToLower(query), ToLower(more));
      if c.email.Some? {
        IncludesPrefix(ToLower(c.email.value), ToLower(query), ToLower(more));
      }
    }
  }

  // ---------------------------------------------------------------------------
  // Status colours

  datatype Palette = Green | Slate | Blue

  /** The colour of a status pill: green for Active, slate for Closed, blue otherwise. */
  function StatusColor(status: string): (p: Palette)
    ensures p == Green <==> status == "Active"
    ensures p == Slate <==> status == "Closed"
  {
    if status == "Active" then Green
    else if status == "Closed" then Slate
    else Blue
  }

  /** The three statuses get three different colours; any other text is coloured like a Lead. */
  lemma StatusColorsDistinct(a: Status, b: Status, text: string)
    ensures StatusColor(StatusName(a)) == StatusColor(StatusName(b)) <==> a == b
    ensures ParseStatus(text).None? ==> StatusColor(text) == StatusColor(StatusName(Lead))
  {
  }

  // ---------------------------------------------------------------------------
  // The form

  /** The form's fields: empty text stands for an empty input. */
  datatype FormData = FormData(name: string, email: string, phone: string, status: Status)

  const EmptyForm := FormData("", "", "", Lead)

  /** `value || ''`. */
  function OrEmpty(s: Option<string>): string
  {
    match s
    case None => ""
    case Some(v) => v
  }

  /** The form filled in from a customer picked for editing. */
  function FormOf(c: Customer): FormData
  {
    FormData(c.name, OrEmpty(c.email), OrEmpty(c.phone), c.status)
  }

  /** The update an edit sends: name, email, phone and status, nothing else. */
  function UpdatePatch(f: FormData): CustomerUpdate
  {
    NoCustomerChange.(name := Given(f.name), email := Given(Some(f.email)), phone := Given(Some(f.phone)), status := Given(f.status))
  }

  /** The insert a new customer sends: the form's fields and the signed-in user's id. */
  function InsertPayload(f: FormData, userId: Id): CustomerInsert
  {
    CustomerInsert(Omitted, userId, f.name, Given(Some(f.email)), Given(Some(f.phone)), Given(f.status), Omitted)
  }

  /** `if (editingId)`: a missing or empty id means the form creates a customer. */
  predicate IsEditing(editingId: Option<Id>)
  {
    editingId.Some? && editingId.value != ""
  }

  /** An edit writes the form's name, email, phone and status into the row and never
      touches its id, owner or creation time. */
  lemma UpdatePatchEffect(c: Customer, f: FormData)
    ensures ApplyCustomerUpdate(c, UpdatePatch(f))
         == Customer(c.id, c.userId, f.name, Some(f.email), Some(f.phone), f.status, c.createdAt)
  {
  }

  /** A created customer belongs to the signed-in user and carries the form's fields. */
  lemma InsertPayloadEffect(f: FormData, userId: Id, generatedId: Id, now: Timestamp)
    ensures NewCustomer(InsertPayload(f, userId), generatedId, now)
         == Customer(generatedId, userId, f.name, Some(f.email), Some(f.phone), f.status, now)
  {
  }

  /** Opening a customer for editing and saving without changes gives back the customer,
      except that a null email or phone is stored as the empty text; the search cannot
      tell the two apart. */
  lemma EditRoundTrip(c: Customer, query: string)
    ensures ApplyCustomerUpdate(c, UpdatePatch(FormOf(c)))
         == c.(email := Some(OrEmpty(c.email)), phone := Some(OrEmpty(c.phone)))
    ensures Matches(ApplyCustomerUpdate(c, UpdatePatch(FormOf(c))), query) == Matches(c, query)
  {
    var lq := ToLower(query);
    if c.email.None? && Includes(ToLower(""), lq) {
      assert |lq| == 0;
      assert lq == "";
      IncludesPrefix(ToLower(c.name), "", "");
    }
  }

  /** The customers list: the table's rows newest first (`.order('created_at', { ascending: false })`). */
  function CreatedAt(c: Customer): int
  {
    c.createdAt
  }

  function NewestFirst(cs: seq<Customer>): seq<Customer>
  {
    OrderBy(cs, CreatedAt, false)
  }

  /** The fetched list holds every stored customer, each as often as stored, newest first. */
  lemma NewestFirstSpec(cs: seq<Customer>)
    ensures multiset(NewestFirst(cs)) == multiset(cs)
    ensures forall j, k :: 0 <= j < k < |NewestFirst(cs)| ==> NewestFirst(cs)[j].createdAt >= NewestFirst(cs)[k].createdAt
  {
    var r := NewestFirst(cs);
    assert Ordered(r, CreatedAt, false);
    forall j, k | 0 <= j < k < |r| ensures r[j].createdAt >= r[k].createdAt {
      assert InOrder(CreatedAt(r[j]), CreatedAt(r[k]), false);
    }
  }

  // ---------------------------------------------------------------------------
  // The page

  class CustomersPage {
    var customers: seq<Customer>
    var loading: bool
    var searchQuery: string
    var showForm: bool
    var editingId: Option<Id>
    var formData: FormData

    constructor ()
      ensures customers == [] && loading && searchQuery == ""
      ensures !showForm && editingId == None && formData == EmptyForm
    {
      customers := [];
      loading := true;
      searchQuery := "";
      showForm := false;
      editingId := None;
      formData := EmptyForm;
    }

    /** The rows the table shows. */
    function FilteredCustomers(): seq<Customer>
      reads this
    {
      Search(customers, searchQuery)
    }

    /** Fetches the list newest first; when the store returns nothing the list is kept. */
    method FetchCustomers(db: Store)
      modifies this
      ensures customers == if db.available then NewestFirst(db.customers) else old(customers)
      ensures !loading
      ensures searchQuery == old(searchQuery) && showForm == old(showForm)
      ensures editingId == old(editingId) && formData == old(formData)
    {
      if db.available {
        customers := NewestFirst(db.customers);
      }
      loading := false;
    }

    /** Opens the form on a customer of the list. */
    method HandleEditClick(c: Customer)
      modifies this
      ensures editingId == Some(c.id) && formData == FormOf(c) && showForm
      ensures customers == old(customers) && loading == old(loading) && searchQuery == old(searchQuery)
    {
      editingId := Some(c.id);
      formData := FormOf(c);
      showForm := true;
    }

    /** Opens an empty form for a new customer. */
    method HandleAddClick()
      modifies this
      ensures editingId == None && formData == EmptyForm && showForm
      ensures customers == old(customers) && loading == old(loading) && searchQuery == old(searchQuery)
    {
      editingId := None;
      formData := EmptyForm;
      showForm := true;
    }

    /** Submits the form: without a signed-in user nothing happens; when editing, the
        row with `editingId` is updated; otherwise a row owned by the user is inserted.
        A successful write resets the form and refetches the list; a failed one leaves
        the page as it was. */
    method HandleSubmit(db: Store, user: Option<Id>, generatedId: Id, now: Timestamp) returns (saved: bool)
      requires db.Valid()
      modifies this, db
      ensures db.Valid()
      ensures db.users == old(db.users) && db.available == old(db.available)
      ensures db.interactions == old(db.interactions)
      ensures !SignedIn(user) ==> !saved && db.customers == old(db.customers)
      ensures SignedIn(user) && IsEditing(old(editingId)) ==>
        && saved == db.available
        && db.customers == if saved then UpdateCustomersById(old(db.customers), old(editingId).value, UpdatePatch(old(formData)))
                           else old(db.customers)
      ensures SignedIn(user) && !IsEditing(old(editingId)) ==>
        && saved == (db.available && !HasCustomer(old(db.customers), generatedId) && user.value in db.users)
        && db.customers == if saved then old(db.customers) + [NewCustomer(InsertPayload(old(formData), user.value), generatedId, now)]
                           else old(db.customers)
      ensures saved ==> formData == EmptyForm && !showForm && editingId == None
      ensures saved ==> customers == NewestFirst(db.customers) && !loading
      ensures !saved ==> customers == old(customers) && loading == old(loading) && formData == old(formData)
      ensures !saved ==> showForm == old(showForm) && editingId == old(editingId)
      ensures searchQuery == old(searchQuery)
    {
      if !SignedIn(user) {
        return false;
      }
      var err: Option<StoreError>;
      if IsEditing(editingId) {
        UpdateKeepsConsistent(db.users, db.customers, db.interactions, editingId.value, UpdatePatch(formData));
        err := db.UpdateCustomer(editingId.value, UpdatePatch(formData));
      } else {
        err := db.InsertCustomer(InsertPayload(formData, user.value), generatedId, now);
      }
      saved := err == None;
      if saved {
        formData := EmptyForm;
        showForm := false;
        editingId := None;
        FetchCustomers(db);
      }
    }
  }
}
