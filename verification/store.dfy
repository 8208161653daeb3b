/** The store behind the pages, as the pages see it: the `customers` and
    `interactions` tables, the ids of the registered users, and whether the store
    can be reached at all.  Its constraints are the primary keys (`id` unique in
    each table) and the foreign keys (`user_id` to a user, `customer_id` to a
    customer); a write whose result would break one is rejected and changes
    nothing.  Deleting a customer deletes its interactions with it. */
module Backend {
  import opened Schema
  import opened Query

  /** Why the store refused a call. */
  datatype StoreError = Unavailable | ConstraintViolation

  /** The signed-in user as the auth client reports it; `!user || !user.id` rejects both
      a missing user and an empty id. */
  predicate SignedIn(user: Option<Id>)
  {
    user.Some? && user.value != ""
  }

  // ---------------------------------------------------------------------------
  // Constraints

  predicate HasCustomer(cs: seq<Customer>, id: Id)
  {
    exists c :: c in cs && c.id == id
  }

  predicate HasInteraction(ins: seq<Interaction>, id: Id)
  {
    exists i :: i in ins && i.id == id
  }

  /** No two rows of `s` share a key. */
  predicate UniqueBy<T>(s: seq<T>, key: T -> Id)
  {
    forall j, k :: 0 <= j < k < |s| ==> key(s[j]) != key(s[k])
  }

  function CustomerKey(c: Customer): Id
  {
    c.id
  }

  function InteractionKey(i: Interaction): Id
  {
    i.id
  }

  predicate UniqueCustomerIds(cs: seq<Customer>)
  {
    UniqueBy(cs, CustomerKey)
  }

  predicate UniqueInteractionIds(ins: seq<Interaction>)
  {
    UniqueBy(ins, InteractionKey)
  }

  /** Primary keys are unique, every row's `user_id` names a user and every
      interaction's `customer_id` names a stored customer. */
  predicate Consistent(users: set<Id>, cs: seq<Customer>, ins: seq<Interaction>)
  {
    && UniqueCustomerIds(cs)
    && UniqueInteractionIds(ins)
    && (forall c :: c in cs ==> c.userId in users)
    && (forall i :: i in ins ==> i.userId in users && HasCustomer(cs, i.customerId))
  }

  // ---------------------------------------------------------------------------
  // Row predicates of the `.eq` filters

  /** `.eq('id', id)` on customers. */
  function CustomerIdIs(id: Id): Customer -> bool
  {
    (c: Customer) => c.id == id
  }

  /** `.eq('id', id)` on customers, negated: the rows a delete by id keeps. */
  function CustomerIdIsNot(id: Id): Customer -> bool
  {
    (c: Customer) => c.id != id
  }

  /** `.eq('id', id)` on interactions, negated. */
  function InteractionIdIsNot(id: Id): Interaction -> bool
  {
    (i: Interaction) => i.id != id
  }

  /** `.eq('customer_id', id)` on interactions. */
  function OfCustomer(id: Id): Interaction -> bool
  {
    (i: Interaction) => i.customerId == id
  }

  /** The interactions that survive a cascading delete of customer `id`. */
  function NotOfCustomer(id: Id): Interaction -> bool
  {
    (i: Interaction) => i.customerId != id
  }

  // ---------------------------------------------------------------------------
  // Writes

  /** `.update(u).eq('id', id)` on customers: every row with that id takes the update. */
  function UpdateCustomersById(cs: seq<Customer>, id: Id, u: CustomerUpdate): seq<Customer>
  {
    seq(|cs|, k requires 0 <= k < |cs| => if cs[k].id == id then ApplyCustomerUpdate(cs[k], u) else cs[k])
  }

  /** An update by id leaves every other row where and as it was, and rewrites the matching rows in place. */
  lemma UpdateCustomersByIdSpec(cs: seq<Customer>, id: Id, u: CustomerUpdate)
    ensures |UpdateCustomersById(cs, id, u)| == |cs|
    ensures forall k :: 0 <= k < |cs| && cs[k].id != id ==> UpdateCustomersById(cs, id, u)[k] == cs[k]
    ensures forall k :: 0 <= k < |cs| && cs[k].id == id ==> UpdateCustomersById(cs, id, u)[k] == ApplyCustomerUpdate(cs[k], u)
    ensures !HasCustomer(cs, id) ==> UpdateCustomersById(cs, id, u) == cs
  {
  }

  /** A new customer row is accepted exactly when its id is unused and its user exists. */
  lemma InsertCustomerAccepted(users: set<Id>, cs: seq<Customer>, ins: seq<Interaction>, row: Customer)
    requires Consistent(users, cs, ins)
    ensures Consistent(users, cs + [row], ins) <==> !HasCustomer(cs, row.id) && row.userId in users
  {
    var cs' := cs + [row];
    if !HasCustomer(cs, row.id) && row.userId in users {
      forall c | c in cs' ensures c.userId in users {
        assert c in cs || c == row;
      }
      forall i | i in ins ensures HasCustomer(cs', i.customerId) {
        var c :| c in cs && c.id == i.customerId;
        assert c in cs';
      }
    }
    if HasCustomer(cs, row.id) {
      var c :| c in cs && c.id == row.id;
      var j :| 0 <= j < |cs| && cs[j] == c;
      assert cs'[j].id == cs'[|cs|].id;
    }
  }

  /** A new interaction is accepted exactly when its id is unused, its user exists and
      its customer is stored. */
  lemma InsertInteractionAccepted(users: set<Id>, cs: seq<Customer>, ins: seq<Interaction>, row: Interaction)
    requires Consistent(users, cs, ins)
    ensures Consistent(users, cs, ins + [row])
        <==> !HasInteraction(ins, row.id) && row.userId in users && HasCustomer(cs, row.customerId)
  {
    var ins' := ins + [row];
    if !HasInteraction(ins, row.id) && row.userId in users && HasCustomer(cs, row.customerId) {
      forall i | i in ins' ensures i.userId in users && HasCustomer(cs, i.customerId) {
        assert i in ins || i == row;
      }
    }
    if HasInteraction(ins, row.id) {
      var i :| i in ins && i.id == row.id;
      var j :| 0 <= j < |ins| && ins[j] == i;
      assert ins'[j].id == ins'[|ins|].id;
    }
    assert row in ins';
  }

  /** An update that gives neither a new id nor an unknown user cannot break a constraint. */
  lemma UpdateKeepsConsistent(users: set<Id>, cs: seq<Customer>, ins: seq<Interaction>, id: Id, u: CustomerUpdate)
    requires Consistent(users, cs, ins)
    requires u.id.Omitted? && (u.userId.Omitted? || u.userId.value in users)
    ensures Consistent(users, UpdateCustomersById(cs, id, u), ins)
  {
    var cs' := UpdateCustomersById(cs, id, u);
    assert forall k :: 0 <= k < |cs| ==> cs'[k].id == cs[k].id;
    forall c | c in cs' ensures c.userId in users {
      var k :| 0 <= k < |cs'| && cs'[k] == c;
      assert cs[k] in cs;
    }
    forall i | i in ins ensures HasCustomer(cs', i.customerId) {
      var c :| c in cs && c.id == i.customerId;
      var k :| 0 <= k < |cs| && cs[k] == c;
      assert cs'[k] in cs';
    }
  }

  /** Deleting a customer by id removes exactly the rows with that id and, by cascade,
      exactly the interactions that reference it; the store stays consistent and
      nothing refers to the customer any more. */
  lemma DeleteCustomerCascade(users: set<Id>, cs: seq<Customer>, ins: seq<Interaction>, id: Id)
    requires Consistent(users, cs, ins)
    ensures var cs', ins' := Filter(cs, CustomerIdIsNot(id)), Filter(ins, NotOfCustomer(id));
      && Consistent(users, cs', ins')
      && !HasCustomer(cs', id)
      && (forall c :: c in cs' <==> c in cs && c.id != id)
      && (forall i :: i in ins' <==> i in ins && i.customerId != id)
      && Filter(ins', OfCustomer(id)) == []
  {
    var cs', ins' := Filter(cs, CustomerIdIsNot(id)), Filter(ins, NotOfCustomer(id));
    FilterIsSubsequence(cs, CustomerIdIsNot(id));
    SubsequenceKeepsUnique(cs', cs, CustomerKey);
    FilterIsSubsequence(ins, NotOfCustomer(id));
    SubsequenceKeepsUnique(ins', ins, InteractionKey);
    forall i | i in ins' ensures HasCustomer(cs', i.customerId) {
      var c :| c in cs && c.id == i.customerId;
      assert c in cs';
    }
    FilterNone(ins', OfCustomer(id));
  }

  /** Deleting one interaction by id keeps the store consistent and removes only rows with that id. */
  lemma DeleteInteractionKeepsConsistent(users: set<Id>, cs: seq<Customer>, ins: seq<Interaction>, id: Id)
    requires Consistent(users, cs, ins)
    ensures var ins' := Filter(ins, InteractionIdIsNot(id));
      && Consistent(users, cs, ins')
      && !HasInteraction(ins', id)
      && (forall i :: i in ins' <==> i in ins && i.id != id)
  {
    var ins' := Filter(ins, InteractionIdIsNot(id));
    FilterIsSubsequence(ins, InteractionIdIsNot(id));
    SubsequenceKeepsUnique(ins', ins, InteractionKey);
  }

  /** A subsequence of rows with unique keys has unique keys. */
  lemma {:induction false} SubsequenceKeepsUnique<T>(sub: seq<T>, s: seq<T>, key: T -> Id)
    requires IsSubsequence(sub, s) && UniqueBy(s, key)
    ensures UniqueBy(sub, key)
    decreases |s|
  {
    if sub != [] {
      assert s != [];
      if sub[0] == s[0] && IsSubsequence(sub[1..], s[1..]) {
        SubsequenceKeepsUnique(sub[1..], s[1..], key);
        SubsequenceMembers(sub[1..], s[1..]);
        forall k | 0 < k < |sub| ensures key(sub[0]) != key(sub[k]) {
          assert sub[1..][k - 1] in s[1..];
          var m :| 0 <= m < |s[1..]| && s[1..][m] == sub[k];
          assert s[m + 1] == sub[k];
        }
      } else {
        SubsequenceKeepsUnique(sub, s[1..], key);
      }
    }
  }

  /** Every element of a subsequence is an element of the sequence. */
  lemma {:induction false} SubsequenceMembers<T>(sub: seq<T>, s: seq<T>)
    requires IsSubsequence(sub, s)
    ensures forall x :: x in sub ==> x in s
    decreases |s|
  {
    if sub != [] {
      if sub[0] == s[0] && IsSubsequence(sub[1..], s[1..]) {
        SubsequenceMembers(sub[1..], s[1..]);
        assert forall x :: x in sub ==> x == sub[0] || x in sub[1..];
      } else {
        SubsequenceMembers(sub, s[1..]);
      }
    }
  }

  // ---------------------------------------------------------------------------
  // The store object

  class Store {
    var users: set<Id>
    var customers: seq<Customer>
    var interactions: seq<Interaction>
    /** False while the store cannot be reached: every call then fails with `Unavailable`. */
    var available: bool

    ghost predicate Valid()
      reads this
    {
      Consistent(users, customers, interactions)
    }

    constructor (users: set<Id>)
      ensures Valid() && available
      ensures this.users == users && customers == [] && interactions == []
    {
      this.users := users;
      customers := [];
      interactions := [];
      available := true;
    }

    /** `.insert([ins])` on customers. */
    method InsertCustomer(ins: CustomerInsert, generatedId: Id, now: Timestamp) returns (err: Option<StoreError>)
      requires Valid()
      modifies this
      ensures Valid()
      ensures users == old(users) && available == old(available) && interactions == old(interactions)
      ensures var row := NewCustomer(ins, generatedId, now);
        && err == (if !available then Some(Unavailable)
                   else if !HasCustomer(old(customers), row.id) && row.userId in users then None
                   else Some(ConstraintViolation))
        && customers == if err == None then old(customers) + [row] else old(customers)
    {
      var row := NewCustomer(ins, generatedId, now);
      InsertCustomerAccepted(users, customers, interactions, row);
      if !available {
        err := Some(Unavailable);
      } else if Consistent(users, customers + [row], interactions) {
        customers := customers + [row];
        err := None;
      } else {
        err := Some(ConstraintViolation);
      }
    }

    /** `.update(u).eq('id', id)` on customers. */
    method UpdateCustomer(id: Id, u: CustomerUpdate) returns (err: Option<StoreError>)
      requires Valid()
      modifies this
      ensures Valid()
      ensures users == old(users) && available == old(available) && interactions == old(interactions)
      ensures var updated := UpdateCustomersById(old(customers), id, u);
        && err == (if !available then Some(Unavailable)
                   else if Consistent(users, updated, interactions) then None
                   else Some(ConstraintViolation))
        && customers == if err == None then updated else old(customers)
    {
      var updated := UpdateCustomersById(customers, id, u);
      if !available {
        err := Some(Unavailable);
      } else if Consistent(users, updated, interactions) {
        customers := updated;
        err := None;
      } else {
        err := Some(ConstraintViolation);
      }
    }

    /** `.delete().eq('id', id)` on customers, cascading to the customer's interactions. */
    method DeleteCustomer(id: Id) returns (err: Option<StoreError>)
      requires Valid()
      modifies this
      ensures Valid()
      ensures users == old(users) && available == old(available)
      ensures err == if available then None else Some(Unavailable)
      ensures customers == if err == None then Filter(old(customers), CustomerIdIsNot(id)) else old(customers)
      ensures interactions == if err == None then Filter(old(interactions), NotOfCustomer(id)) else old(interactions)
    {
      if !available {
        err := Some(Unavailable);
      } else {
        DeleteCustomerCascade(users, customers, interactions, id);
        customers := Filter(customers, CustomerIdIsNot(id));
        interactions := Filter(interactions, NotOfCustomer(id));
        err := None;
      }
    }

    /** `.insert([ins])` on interactions. */
    method InsertInteraction(ins: InteractionInsert, generatedId: Id, now: Timestamp) returns (err: Option<StoreError>)
      requires Valid()
      modifies this
      ensures Valid()
      ensures users == old(users) && available == old(available) && customers == old(customers)
      ensures var row := NewInteraction(ins, generatedId, now);
        && err == (if !available then Some(Unavailable)
                   else if !HasInteraction(old(interactions), row.id) && row.userId in users && HasCustomer(customers, row.customerId) then None
                   else Some(ConstraintViolation))
        && interactions == if err == None then old(interactions) + [row] else old(interactions)
    {
      var row := NewInteraction(ins, generatedId, now);
      InsertInteractionAccepted(users, customers, interactions, row);
      if !available {
        err := Some(Unavailable);
      } else if Consistent(users, customers, interactions + [row]) {
        interactions := interactions + [row];
        err := None;
      } else {
        err := Some(ConstraintViolation);
      }
    }

    /** `.delete().eq('id', id)` on interactions. */
    method DeleteInteraction(id: Id) returns (err: Option<StoreError>)
      requires Valid()
      modifies this
      ensures Valid()
      ensures users == old(users) && available == old(available) && customers == old(customers)
      ensures err == if available then None else Some(Unavailable)
      ensures interactions == if err == None then Filter(old(interactions), InteractionIdIsNot(id)) else old(interactions)
    {
      if !available {
        err := Some(Unavailable);
      } else {
        DeleteInteractionKeepsConsistent(users, customers, interactions, id);
        interactions := Filter(interactions, InteractionIdIsNot(id));
        err := None;
      }
    }
  }
}
