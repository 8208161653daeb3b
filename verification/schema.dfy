/** The two tables of the CRM store, `customers` and `interactions`, with their
    Row, Insert and Update shapes.  Identifiers are strings, timestamps are
    integers (instants on one clock), a nullable column is an `Option` and an
    optional key of an Insert or Update payload is a `Field`. */
module Schema {

  type Id = string
  type Timestamp = int

  /** A nullable value: `null` or a value. */
  datatype Option<+T> = None | Some(value: T)

  /** An optional key of a payload: left out, or given (a nullable column may be given as null). */
  datatype Field<+T> = Omitted | Given(value: T)

  function GivenOr<T>(f: Field<T>, default: T): T
  {
    match f
    case Omitted => default
    case Given(v) => v
  }

  // ---------------------------------------------------------------------------
  // Enumerations

  /** The `status` column of a customer. */
  datatype Status = Lead | Active | Closed

  function StatusName(s: Status): string
  {
    match s
    case Lead => "Lead"
    case Active => "Active"
    case Closed => "Closed"
  }

  /** Reading the text of a status column: exactly the three names are statuses. */
  function ParseStatus(text: string): (r: Option<Status>)
    ensures r.Some? <==> text == "Lead" || text == "Active" || text == "Closed"
    ensures r.Some? ==> StatusName(r.value) == text
  {
    if text == "Lead" then Some(Lead)
    else if text == "Active" then Some(Active)
    else if text == "Closed" then Some(Closed)
    else None
  }

  /** The `type` column of an interaction. */
  datatype InteractionType = Call | Meeting | Email

  function TypeName(t: InteractionType): string
  {
    match t
    case Call => "call"
    case Meeting => "meeting"
    case Email => "email"
  }

  function ParseType(text: string): (r: Option<InteractionType>)
    ensures r.Some? <==> text == "call" || text == "meeting" || text == "email"
    ensures r.Some? ==> TypeName(r.value) == text
  {
    if text == "call" then Some(Call)
    else if text == "meeting" then Some(Meeting)
    else if text == "email" then Some(Email)
    else None
  }

  /** Every status is written as exactly one name, and that name reads back as that status. */
  lemma StatusNameRoundTrip(s: Status, t: Status)
    ensures ParseStatus(StatusName(s)) == Some(s)
    ensures StatusName(s) == StatusName(t) <==> s == t
  {
    match s
    case Lead =>
    case Active =>
    case Closed =>
  }

  /** Every interaction type is written as exactly one name, and that name reads back as that type. */
  lemma TypeNameRoundTrip(k: InteractionType, l: InteractionType)
    ensures ParseType(TypeName(k)) == Some(k)
    ensures TypeName(k) == TypeName(l) <==> k == l
  {
    match k
    case Call =>
    case Meeting =>
    case Email =>
  }

  // ---------------------------------------------------------------------------
  // customers

  /** A stored customer row. */
  datatype Customer = Customer(
    id: Id,
    userId: Id,
    name: string,
    email: Option<string>,
    phone: Option<string>,
    status: Status,
    createdAt: Timestamp)

  /** The payload of an insert into `customers`: `userId` and `name` are required. */
  datatype CustomerInsert = CustomerInsert(
    id: Field<Id>,
    userId: Id,
    name: string,
    email: Field<Option<string>>,
    phone: Field<Option<string>>,
    status: Field<Status>,
    createdAt: Field<Timestamp>)

  /** The payload of an update of `customers`: every key is optional. */
  datatype CustomerUpdate = CustomerUpdate(
    id: Field<Id>,
    userId: Field<Id>,
    name: Field<string>,
    email: Field<Option<string>>,
    phone: Field<Option<string>>,
    status: Field<Status>,
    createdAt: Field<Timestamp>)

  const NoCustomerChange := CustomerUpdate(Omitted, Omitted, Omitted, Omitted, Omitted, Omitted, Omitted)

  /** The row the store creates for an insert payload: omitted keys take the column
      defaults (a generated id, null email and phone, status Lead, the time of insertion). */
  function NewCustomer(ins: CustomerInsert, generatedId: Id, now: Timestamp): Customer
  {
    Customer(
      GivenOr(ins.id, generatedId),
      ins.userId,
      ins.name,
      GivenOr(ins.email, None),
      GivenOr(ins.phone, None),
      GivenOr(ins.status, Lead),
      GivenOr(ins.createdAt, now))
  }

  /** The full insert payload that describes a row. */
  function CustomerPayload(c: Customer): CustomerInsert
  {
    CustomerInsert(Given(c.id), c.userId, c.name, Given(c.email), Given(c.phone), Given(c.status), Given(c.createdAt))
  }

  /** The row an update payload makes of a stored row: given keys replace, omitted keys keep. */
  function ApplyCustomerUpdate(c: Customer, u: CustomerUpdate): Customer
  {
    Customer(
      GivenOr(u.id, c.id),
      GivenOr(u.userId, c.userId),
      GivenOr(u.name, c.name),
      GivenOr(u.email, c.email),
      GivenOr(u.phone, c.phone),
      GivenOr(u.status, c.status),
      GivenOr(u.createdAt, c.createdAt))
  }

  /** Only `userId` and `name` are needed to create a customer; everything else defaults. */
  lemma CustomerDefaults(userId: Id, name: string, generatedId: Id, now: Timestamp)
    ensures NewCustomer(CustomerInsert(Omitted, userId, name, Omitted, Omitted, Omitted, Omitted), generatedId, now)
         == Customer(generatedId, userId, name, None, None, Lead, now)
  {
  }

  /** Creating a row from its own payload and reading it back gives the row; with the
      server-assigned keys left out, it differs from the row only in `id` and `createdAt`. */
  lemma CustomerInsertRoundTrip(c: Customer, generatedId: Id, now: Timestamp)
    ensures NewCustomer(CustomerPayload(c), generatedId, now) == c
    ensures NewCustomer(CustomerPayload(c).(id := Omitted, createdAt := Omitted), generatedId, now)
         == c.(id := generatedId, createdAt := now)
  {
  }

  /** An empty update changes nothing, applying an update twice is applying it once,
      and an update that gives only `status` changes only the status. */
  lemma CustomerUpdateLaws(c: Customer, u: CustomerUpdate, s: Status)
    ensures ApplyCustomerUpdate(c, NoCustomerChange) == c
    ensures ApplyCustomerUpdate(ApplyCustomerUpdate(c, u), u) == ApplyCustomerUpdate(c, u)
    ensures ApplyCustomerUpdate(c, NoCustomerChange.(status := Given(s))) == c.(status := s)
  {
  }

  // ---------------------------------------------------------------------------
  // interactions

  /** A stored interaction row: `notes` and `followUpDate` may be null, `interactionDate` may not. */
  datatype Interaction = Interaction(
    id: Id,
    customerId: Id,
    userId: Id,
    kind: InteractionType,
    notes: Option<string>,
    interactionDate: Timestamp,
    followUpDate: Option<Timestamp>)

  /** The payload of an insert into `interactions`: `customerId`, `userId` and the type are required. */
  datatype InteractionInsert = InteractionInsert(
    id: Field<Id>,
    customerId: Id,
    userId: Id,
    kind: InteractionType,
    notes: Field<Option<string>>,
    interactionDate: Field<Timestamp>,
    followUpDate: Field<Option<Timestamp>>)

  /** The row the store creates for an interaction payload: omitted keys take the column
      defaults (a generated id, null notes and follow-up, the time of insertion). */
  function NewInteraction(ins: InteractionInsert, generatedId: Id, now: Timestamp): Interaction
  {
    Interaction(
      GivenOr(ins.id, generatedId),
      ins.customerId,
      ins.userId,
      ins.kind,
      GivenOr(ins.notes, None),
      GivenOr(ins.interactionDate, now),
      GivenOr(ins.followUpDate, None))
  }

  function InteractionPayload(i: Interaction): InteractionInsert
  {
    InteractionInsert(Given(i.id), i.customerId, i.userId, i.kind, Given(i.notes), Given(i.interactionDate), Given(i.followUpDate))
  }

  /** An interaction needs only its customer, its user and its type; the date defaults to the
      time of insertion and notes and follow-up to null.  A full payload reads back unchanged. */
  lemma InteractionDefaults(i: Interaction, customerId: Id, userId: Id, kind: InteractionType, generatedId: Id, now: Timestamp)
    ensures NewInteraction(InteractionInsert(Omitted, customerId, userId, kind, Omitted, Omitted, Omitted), generatedId, now)
         == Interaction(generatedId, customerId, userId, kind, None, now, None)
    ensures NewInteraction(InteractionPayload(i), generatedId, now) == i
  {
  }
}
