/** The page of one customer: its record, its interaction history newest first, a
    form that logs a new interaction, and the deletion of one interaction or of the
    whole customer. */
module CustomerDetail {
  import opened Schema
  import opened Query
  import opened Backend
  import opened Text

  // ---------------------------------------------------------------------------
  // The note guard: `note.trim()`

  /** The characters `String.prototype.trim` removes: white space (tab, vertical tab,
      form feed, space, no-break space, byte order mark and the space separators) and
      line terminators. */
  predicate IsSpace(ch: char)
  {
    var c := ch as int;
    c == 0x09 || c == 0x0A || c == 0x0B || c == 0x0C || c == 0x0D || c == 0x20 ||
    c == 0xA0 || c == 0x1680 || (0x2000 <= c <= 0x200A) || c == 0x2028 || c == 0x2029 ||
    c == 0x202F || c == 0x205F || c == 0x3000 || c == 0xFEFF
  }

  /** `s` without its leading white space. */
  function TrimStart(s: string): (r: string)
    ensures |r| <= |s| && r == s[|s| - |r|..]
    ensures forall k :: 0 <= k < |s| - |r| ==> IsSpace(s[k])
    ensures r != [] ==> !IsSpace(r[0])
  {
    if s != [] && IsSpace(s[0]) then TrimStart(s[1..]) else s
  }

  /** `s` without its trailing white space. */
  function TrimEnd(s: string): (r: string)
    ensures |r| <= |s| && r == s[..|r|]
    ensures forall k :: |r| <= k < |s| ==> IsSpace(s[k])
    ensures r != [] ==> !IsSpace(r[|r| - 1])
  {
    if s != [] && IsSpace(s[|s| - 1]) then TrimEnd(s[..|s| - 1]) else s
  }

  function Trim(s: string): string
  {
    TrimEnd(TrimStart(s))
  }

  /** `!note.trim()`: the trimmed note is empty. */
  predicate Blank(note: string)
  {
    Trim(note) == ""
  }

  /** A note is blank exactly when every character of it is white space; otherwise its
      trimmed form is a piece of it that starts and ends with a visible character. */
  lemma BlankIffAllSpace(note: string)
    ensures Blank(note) <==> forall k :: 0 <= k < |note| ==> IsSpace(note[k])
    ensures !Blank(note) ==>
      && !IsSpace(Trim(note)[0]) && !IsSpace(Trim(note)[|Trim(note)| - 1])
      && exists i :: OccursAt(note, Trim(note), i)
  {
    var t := TrimStart(note);
    var r := TrimEnd(t);
    var i := |note| - |t|;
    // the first kept character is where the leading white space ends, and is visible
    assert t == [] || (i < |note| && note[i] == t[0]);
    // so trimming the end cannot remove everything that is left
    assert t != [] ==> r != [];
    assert r == [] || r[0] == t[0];
    assert OccursAt(note, r, i);
  }

  // ---------------------------------------------------------------------------
  // Badges and icons

  /** The tone of a status badge: highlighted for Active, muted otherwise. */
  datatype BadgeTone = Highlighted | Muted

  function StatusBadgeTone(status: string): (t: BadgeTone)
    ensures t == Highlighted <==> status == "Active"
  {
    if status == "Active" then Highlighted else Muted
  }

  /** The letter in the round badge: `status.charAt(0)`, empty for an empty status. */
  function StatusBadgeInitial(status: string): (r: string)
    ensures |r| == if status == "" then 0 else 1
    ensures r == status[..|r|]
  {
    if status == "" then "" else [status[0]]
  }

  /** The round badge tells the three statuses apart by their initials, and only Active is highlighted. */
  lemma StatusBadgeDistinct(a: Status, b: Status)
    ensures StatusBadgeInitial(StatusName(a)) == StatusBadgeInitial(StatusName(b)) <==> a == b
    ensures StatusBadgeTone(StatusName(a)) == Highlighted <==> a == Active
  {
  }

  datatype IconColor = Blue | Purple | Orange
  datatype Glyph = PhoneGlyph | MailGlyph | CalendarGlyph

  /** `styles[type] || styles.call`: an unknown type takes the colour of a call. */
  function InteractionIconColor(kind: string): IconColor
  {
    if kind == "email" then Purple
    else if kind == "meeting" then Orange
    else Blue
  }

  /** The glyph drawn for a type; an unknown type gets none. */
  function InteractionIconGlyph(kind: string): Option<Glyph>
  {
    if kind == "call" then Some(PhoneGlyph)
    else if kind == "email" then Some(MailGlyph)
    else if kind == "meeting" then Some(CalendarGlyph)
    else None
  }

  /** Each interaction type has its own colour and a glyph; text that is not a type is
      drawn in the colour of a call, with no glyph. */
  lemma InteractionIconFallback(a: InteractionType, b: InteractionType, text: string)
    ensures InteractionIconColor(TypeName(a)) == InteractionIconColor(TypeName(b)) <==> a == b
    ensures InteractionIconGlyph(TypeName(a)).Some?
    ensures ParseType(text).None? ==>
      InteractionIconColor(text) == InteractionIconColor(TypeName(Call)) && InteractionIconGlyph(text) == None
  {
  }

  // ---------------------------------------------------------------------------
  // Queries

  /** `.eq('id', id).single()`: the customer when exactly one row has that id, otherwise an error. */
  function SingleById(cs: seq<Customer>, id: Id): Option<Customer>
  {
    var m := Filter(cs, CustomerIdIs(id));
    if |m| == 1 then Some(m[0]) else None
  }

  /** With unique ids, the single-row read finds a customer exactly when one with that id is stored. */
  lemma SingleByIdFinds(cs: seq<Customer>, id: Id)
    requires UniqueCustomerIds(cs)
    ensures SingleById(cs, id).Some? <==> HasCustomer(cs, id)
    ensures SingleById(cs, id).Some? ==> SingleById(cs, id).value in cs && SingleById(cs, id).value.id == id
  {
    AtMostOneWithId(cs, id);
    var m := Filter(cs, CustomerIdIs(id));
    if HasCustomer(cs, id) {
      var c :| c in cs && c.id == id;
      assert c in m;
    }
    if |m| == 1 {
      assert m[0] in m;
    }
  }

  lemma {:induction false} AtMostOneWithId(cs: seq<Customer>, id: Id)
    requires UniqueCustomerIds(cs)
    ensures |Filter(cs, CustomerIdIs(id))| <= 1
  {
    if cs != [] {
      assert UniqueCustomerIds(cs[1..]);
      if cs[0].id == id {
        forall c | c in cs[1..] ensures !CustomerIdIs(id)(c) {
          var k :| 0 <= k < |cs[1..]| && cs[1..][k] == c;
          assert cs[k + 1] == c;
        }
        FilterNone(cs[1..], CustomerIdIs(id));
      } else {
        AtMostOneWithId(cs[1..], id);
      }
    }
  }

  function InteractionDate(i: Interaction): int
  {
    i.interactionDate
  }

  /** The history of a customer: its interactions, newest first. */
  function History(ins: seq<Interaction>, customerId: Id): seq<Interaction>
  {
    OrderBy(Filter(ins, OfCustomer(customerId)), InteractionDate, false)
  }

  /** The history holds exactly the customer's interactions, each as often as stored, and
      runs from the latest `interaction_date` to the earliest. */
  lemma HistorySpec(ins: seq<Interaction>, customerId: Id)
    ensures forall i :: i in History(ins, customerId) <==> i in ins && i.customerId == customerId
    ensures forall i: Interaction :: multiset(History(ins, customerId))[i] == if i.customerId == customerId then multiset(ins)[i] else 0
    ensures forall j, k :: 0 <= j < k < |History(ins, customerId)| ==>
      History(ins, customerId)[j].interactionDate >= History(ins, customerId)[k].interactionDate
  {
    var h := History(ins, customerId);
    forall i: Interaction ensures multiset(h)[i] == if i.customerId == customerId then multiset(ins)[i] else 0 {
      FilterCount(ins, OfCustomer(customerId), i);
    }
    forall j, k | 0 <= j < k < |h| ensures h[j].interactionDate >= h[k].interactionDate {
      assert InOrder(InteractionDate(h[j]), InteractionDate(h[k]), false);
    }
  }

  /** Removing an interaction from the shown history gives what fetching the history
      again after the delete would give. */
  lemma LocalRemovalMatchesRefetch(ins: seq<Interaction>, customerId: Id, interactionId: Id)
    ensures Filter(History(ins, customerId), InteractionIdIsNot(interactionId))
         == History(Filter(ins, InteractionIdIsNot(interactionId)), customerId)
  {
    FilterOrderBy(Filter(ins, OfCustomer(customerId)), InteractionIdIsNot(interactionId), InteractionDate, false);
    FilterFilter(ins, OfCustomer(customerId), InteractionIdIsNot(interactionId));
  }

  /** Whatever order the store gives interactions of the same date, the local removal
      is a correct answer to reading the history again: starting from any newest-first
      arrangement of the customer's interactions, it leaves a newest-first arrangement of
      exactly the interactions the store still holds for the customer. */
  lemma LocalRemovalIsValidRefetch(ins: seq<Interaction>, customerId: Id, interactionId: Id, shown: seq<Interaction>)
    requires multiset(shown) == multiset(Filter(ins, OfCustomer(customerId)))
    requires Ordered(shown, InteractionDate, false)
    ensures var r := Filter(shown, InteractionIdIsNot(interactionId));
      && multiset(r) == multiset(Filter(Filter(ins, InteractionIdIsNot(interactionId)), OfCustomer(customerId)))
      && Ordered(r, InteractionDate, false)
  {
    var r := Filter(shown, InteractionIdIsNot(interactionId));
    var kept := Filter(ins, InteractionIdIsNot(interactionId));
    FilterOrdered(shown, InteractionIdIsNot(interactionId), InteractionDate, false);
    forall x ensures multiset(r)[x] == multiset(Filter(kept, OfCustomer(customerId)))[x] {
      FilterCount(shown, InteractionIdIsNot(interactionId), x);
      FilterCount(ins, OfCustomer(customerId), x);
      FilterCount(ins, InteractionIdIsNot(interactionId), x);
      FilterCount(kept, OfCustomer(customerId), x);
    }
  }

  /** Removing an interaction by id from a list drops exactly the entries with that id and
      keeps every other entry, as often as before and in its order; a list ordered newest
      first stays so. */
  lemma RemoveInteractionSpec(list: seq<Interaction>, interactionId: Id)
    ensures var r := Filter(list, InteractionIdIsNot(interactionId));
      && IsSubsequence(r, list)
      && (forall i :: i in r <==> i in list && i.id != interactionId)
      && (forall i: Interaction :: i.id != interactionId ==> multiset(r)[i] == multiset(list)[i])
      && (Ordered(list, InteractionDate, false) ==> Ordered(r, InteractionDate, false))
  {
    var r := Filter(list, InteractionIdIsNot(interactionId));
    FilterIsSubsequence(list, InteractionIdIsNot(interactionId));
    forall i: Interaction | i.id != interactionId ensures multiset(r)[i] == multiset(list)[i] {
      FilterCount(list, InteractionIdIsNot(interactionId), i);
    }
    if Ordered(list, InteractionDate, false) {
      FilterOrdered(list, InteractionIdIsNot(interactionId), InteractionDate, false);
    }
  }

  // ---------------------------------------------------------------------------
  // Logging an interaction

  /** The interaction the form sends: the route's customer, the user, the chosen type, the
      note as typed, the current time, and a follow-up only when a date was picked. */
  function LogPayload(customerId: Id, userId: Id, kind: InteractionType, note: string,
                      followUpDate: string, toTimestamp: string -> Timestamp, now: Timestamp): InteractionInsert
  {
    InteractionInsert(Omitted, customerId, userId, kind, Given(Some(note)), Given(now),
      Given(if followUpDate == "" then None else Some(toTimestamp(followUpDate))))
  }

  /** The logged row carries the route's customer, the user, the type, the note and the
      current time; its follow-up is null exactly when the date field was empty. */
  lemma LoggedRow(customerId: Id, userId: Id, kind: InteractionType, note: string,
                  followUpDate: string, toTimestamp: string -> Timestamp, now: Timestamp, generatedId: Id)
    ensures var row := NewInteraction(LogPayload(customerId, userId, kind, note, followUpDate, toTimestamp, now), generatedId, now);
      && row == Interaction(generatedId, customerId, userId, kind, Some(note), now, row.followUpDate)
      && (row.followUpDate.None? <==> followUpDate == "")
      && (followUpDate != "" ==> row.followUpDate == Some(toTimestamp(followUpDate)))
  {
  }

  /** `!id`: the route gave no customer id. */
  predicate HasRouteId(routeId: Option<Id>)
  {
    routeId.Some? && routeId.value != ""
  }

  /** Both reads of the page succeed: the store answers and exactly one customer has the route's id. */
  predicate LoadSucceeds(available: bool, cs: seq<Customer>, routeId: Option<Id>)
  {
    available && routeId.Some? && SingleById(cs, routeId.value).Some?
  }

  // ---------------------------------------------------------------------------
  // The page

  class CustomerDetailPage {
    /** The `:id` of the route. */
    const routeId: Option<Id>
    var customer: Option<Customer>
    var interactions: seq<Interaction>
    var loading: bool
    var note: string
    var kind: InteractionType
    var followUpDate: string

    constructor (routeId: Option<Id>)
      ensures this.routeId == routeId && customer == None && interactions == [] && loading
      ensures note == "" && kind == Call && followUpDate == ""
    {
      this.routeId := routeId;
      customer := None;
      interactions := [];
      loading := true;
      note := "";
      kind := Call;
      followUpDate := "";
    }

    /** Reads the customer and its history; if either read fails, both are kept as they were. */
    method FetchData(db: Store)
      modifies this
      ensures !loading
      ensures note == old(note) && kind == old(kind) && followUpDate == old(followUpDate)
      ensures LoadSucceeds(db.available, db.customers, routeId) ==>
        customer == SingleById(db.customers, routeId.value) && interactions == History(db.interactions, routeId.value)
      ensures !LoadSucceeds(db.available, db.customers, routeId) ==>
        customer == old(customer) && interactions == old(interactions)
    {
      if LoadSucceeds(db.available, db.customers, routeId) {
        customer := SingleById(db.customers, routeId.value);
        interactions := History(db.interactions, routeId.value);
      }
      loading := false;
    }

    /** What the page does when it opens: fetch only when the route has an id. */
    method Open(db: Store)
      modifies this
      ensures HasRouteId(routeId) ==> !loading
      ensures HasRouteId(routeId) && LoadSucceeds(db.available, db.customers, routeId) ==>
        customer == SingleById(db.customers, routeId.value) && interactions == History(db.interactions, routeId.value)
      ensures HasRouteId(routeId) && !LoadSucceeds(db.available, db.customers, routeId) ==>
        customer == old(customer) && interactions == old(interactions)
      ensures !HasRouteId(routeId) ==>
        loading == old(loading) && customer == old(customer) && interactions == old(interactions)
      ensures note == old(note) && kind == old(kind) && followUpDate == old(followUpDate)
    {
      if HasRouteId(routeId) {
        FetchData(db);
      }
    }

    /** Logs the typed note. Nothing is sent for a blank note, a missing route id or a
        missing user; after a successful insert the inputs are cleared and the history is
        read again (and shows the new interaction); after a failed one the page is kept. */
    method HandleAddInteraction(db: Store, user: Option<Id>, generatedId: Id, now: Timestamp,
                                toTimestamp: string -> Timestamp) returns (saved: bool)
      requires db.Valid()
      modifies this, db
      ensures db.Valid()
      ensures db.users == old(db.users) && db.available == old(db.available) && db.customers == old(db.customers)
      ensures Blank(old(note)) || !HasRouteId(routeId) || !SignedIn(user) ==>
        !saved && db.interactions == old(db.interactions)
      ensures !Blank(old(note)) && HasRouteId(routeId) && SignedIn(user) ==>
        var row := NewInteraction(LogPayload(routeId.value, user.value, old(kind), old(note), old(followUpDate), toTimestamp, now), generatedId, now);
        && saved == (db.available && !HasInteraction(old(db.interactions), generatedId)
                     && user.value in db.users && HasCustomer(db.customers, routeId.value))
        && db.interactions == (if saved then old(db.interactions) + [row] else old(db.interactions))
        && (saved ==> row in interactions)
      ensures saved ==> note == "" && followUpDate == "" && !loading
      ensures saved ==> customer == SingleById(db.customers, routeId.value) && interactions == History(db.interactions, routeId.value)
      ensures !saved ==> note == old(note) && followUpDate == old(followUpDate) && loading == old(loading)
      ensures !saved ==> customer == old(customer) && interactions == old(interactions)
      ensures kind == old(kind)
    {
      if Blank(note) || !HasRouteId(routeId) {
        return false;
      }
      if !SignedIn(user) {
        return false;
      }
      var payload := LogPayload(routeId.value, user.value, kind, note, followUpDate, toTimestamp, now);
      ghost var row := NewInteraction(payload, generatedId, now);
      assert row.id == generatedId && row.userId == user.value && row.customerId == routeId.value;
      var err := db.InsertInteraction(payload, generatedId, now);
      saved := err == None;
      if saved {
        note := "";
        followUpDate := "";
        SingleByIdFinds(db.customers, routeId.value);
        HistorySpec(db.interactions, routeId.value);
        assert row in db.interactions;
        FetchData(db);
      }
    }

    /** Deletes one interaction after confirmation; when the store accepts, the shown
        history drops it locally, without reading it again. */
    method HandleDeleteInteraction(db: Store, interactionId: Id, confirmed: bool) returns (removed: bool)
      requires db.Valid()
      modifies this, db
      ensures db.Valid()
      ensures db.users == old(db.users) && db.available == old(db.available) && db.customers == old(db.customers)
      ensures removed == (confirmed && db.available)
      ensures db.interactions == if removed then Filter(old(db.interactions), InteractionIdIsNot(interactionId)) else old(db.interactions)
      ensures interactions == if removed then Filter(old(interactions), InteractionIdIsNot(interactionId)) else old(interactions)
      ensures customer == old(customer) && loading == old(loading)
      ensures note == old(note) && kind == old(kind) && followUpDate == old(followUpDate)
    {
      removed := false;
      if confirmed {
        var err := db.DeleteInteraction(interactionId);
        if err == None {
          interactions := Filter(interactions, InteractionIdIsNot(interactionId));
          removed := true;
        }
      }
    }

    /** Deletes the customer after confirmation, its history going with it, and leaves the
        page; the outcome of the delete is not looked at. */
    method HandleDeleteCustomer(db: Store, confirmed: bool) returns (leave: bool)
      requires db.Valid()
      modifies db
      ensures db.Valid()
      ensures db.users == old(db.users) && db.available == old(db.available)
      ensures leave == confirmed
      ensures confirmed && routeId.Some? && db.available ==>
        && db.customers == Filter(old(db.customers), CustomerIdIsNot(routeId.value))
        && db.interactions == Filter(old(db.interactions), NotOfCustomer(routeId.value))
      ensures !(confirmed && routeId.Some? && db.available) ==>
        db.customers == old(db.customers) && db.interactions == old(db.interactions)
    {
      leave := false;
      if confirmed {
        if routeId.Some? {
          var _ := db.DeleteCustomer(routeId.value);
        }
        leave := true;
      }
    }
  }

  /** After a confirmed delete, the customer can no longer be read and its history is empty. */
  lemma DeletedCustomerIsGone(users: set<Id>, cs: seq<Customer>, ins: seq<Interaction>, id: Id)
    requires Consistent(users, cs, ins)
    ensures SingleById(Filter(cs, CustomerIdIsNot(id)), id) == None
    ensures History(Filter(ins, NotOfCustomer(id)), id) == []
  {
    DeleteCustomerCascade(users, cs, ins, id);
    SingleByIdFinds(Filter(cs, CustomerIdIsNot(id)), id);
  }
}
