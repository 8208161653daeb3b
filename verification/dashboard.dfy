/** The dashboard: the customers counted by status, and a feed of at most five upcoming
    follow-ups, earliest first, each joined to the name and id of its customer. */
module Dashboard {
  import opened Schema
  import opened Query
  import opened Backend
  import CustomerDetail

  // ---------------------------------------------------------------------------
  // Status counts

  datatype Stats = Stats(total: nat, leads: nat, active: nat, closed: nat)

  const NoStats := Stats(0, 0, 0, 0)

  function HasStatus(s: Status): Customer -> bool
  {
    (c: Customer) => c.status == s
  }

  /** The `status` column of every customer, in stored order (`select('status')`). */
  function Statuses(cs: seq<Customer>): (r: seq<Status>)
    ensures |r| == |cs| && forall k :: 0 <= k < |cs| ==> r[k] == cs[k].status
  {
    if cs == [] then [] else [cs[0].status] + Statuses(cs[1..])
  }

  /** The four cards: all customers, and those with each status. */
  function ComputeStats(cs: seq<Customer>): Stats
  {
    Stats(|cs|,
      |Filter(cs, HasStatus(Lead))|,
      |Filter(cs, HasStatus(Active))|,
      |Filter(cs, HasStatus(Closed))|)
  }

  /** A card counts the customers whose status column holds its status. */
  lemma {:induction false} CountStatus(cs: seq<Customer>, s: Status)
    ensures |Filter(cs, HasStatus(s))| == multiset(Statuses(cs))[s]
  {
    if cs != [] {
      CountStatus(cs[1..], s);
      FilterCons(cs[0], cs[1..], HasStatus(s));
      assert [cs[0]] + cs[1..] == cs;
      assert Statuses(cs) == [cs[0].status] + Statuses(cs[1..]);
    }
  }

  /** Every status is one of the three. */
  lemma {:induction false} ThreeStatuses(ss: seq<Status>)
    ensures multiset(ss)[Lead] + multiset(ss)[Active] + multiset(ss)[Closed] == |ss|
  {
    if ss != [] {
      ThreeStatuses(ss[1..]);
      assert ss == [ss[0]] + ss[1..];
      assert multiset(ss) == multiset{ss[0]} + multiset(ss[1..]);
      match ss[0]
      case Lead =>
      case Active =>
      case Closed =>
    }
  }

  /** Each card counts the customers that have its status, and since every customer has
      exactly one of the three, the three counts add up to the total. */
  lemma StatusPartition(cs: seq<Customer>)
    ensures ComputeStats(cs).leads == multiset(Statuses(cs))[Lead]
    ensures ComputeStats(cs).active == multiset(Statuses(cs))[Active]
    ensures ComputeStats(cs).closed == multiset(Statuses(cs))[Closed]
    ensures ComputeStats(cs).leads + ComputeStats(cs).active + ComputeStats(cs).closed == ComputeStats(cs).total
    ensures ComputeStats(cs).leads <= ComputeStats(cs).total && ComputeStats(cs).active <= ComputeStats(cs).total
    ensures ComputeStats(cs).closed <= ComputeStats(cs).total
  {
    CountStatus(cs, Lead);
    CountStatus(cs, Active);
    CountStatus(cs, Closed);
    ThreeStatuses(Statuses(cs));
  }

  /** A new customer adds one to the card of its status, and to no other. */
  lemma StatsAfterInsert(cs: seq<Customer>, c: Customer, s: Status)
    ensures |Filter(cs + [c], HasStatus(s))| == |Filter(cs, HasStatus(s))| + (if c.status == s then 1 else 0)
  {
    assert Statuses(cs + [c]) == Statuses(cs) + [c.status];
    assert multiset(Statuses(cs + [c])) == multiset(Statuses(cs)) + multiset{c.status};
    CountStatus(cs, s);
    CountStatus(cs + [c], s);
  }

  // ---------------------------------------------------------------------------
  // Upcoming follow-ups

  const FeedSize := 5

  /** `.not('follow_up_date', 'is', null).gte('follow_up_date', now)`. */
  function IsUpcoming(now: Timestamp): Interaction -> bool
  {
    (i: Interaction) => i.followUpDate.Some? && i.followUpDate.value >= now
  }

  /** The follow-up date as a sort key; only interactions that have one are sorted by it. */
  function FollowUpKey(i: Interaction): int
  {
    if i.followUpDate.Some? then i.followUpDate.value else 0
  }

  /** The embedded `customers ( name, id )` of a feed row. */
  datatype CustomerRef = CustomerRef(name: string, id: Id)

  /** One row of the feed: the interaction's id, type and follow-up date, and its customer,
      which the join leaves null when no customer matches. */
  datatype FollowUpRow = FollowUpRow(id: Id, kind: InteractionType, followUpDate: Timestamp, customer: Option<CustomerRef>)

  /** The first stored customer with the given id. */
  function FindCustomer(cs: seq<Customer>, id: Id): (r: Option<Customer>)
    ensures r.Some? <==> HasCustomer(cs, id)
    ensures r.Some? ==> r.value in cs && r.value.id == id
  {
    if cs == [] then None
    else if cs[0].id == id then Some(cs[0])
    else
      var r := FindCustomer(cs[1..], id);
      assert forall c :: c in cs[1..] ==> c in cs;
      assert HasCustomer(cs, id) ==> cs[0].id == id || HasCustomer(cs[1..], id);
      r
  }

  /** The customer the join attaches to an interaction. */
  function Join(cs: seq<Customer>, i: Interaction): FollowUpRow
  {
    var c := FindCustomer(cs, i.customerId);
    FollowUpRow(i.id, i.kind, FollowUpKey(i),
      if c.Some? then Some(CustomerRef(c.value.name, c.value.id)) else None)
  }

  /** Every upcoming interaction, earliest follow-up first. */
  function Pending(ins: seq<Interaction>, now: Timestamp): seq<Interaction>
  {
    OrderBy(Filter(ins, IsUpcoming(now)), FollowUpKey, true)
  }

  /** The interactions behind the feed: the first five pending ones. */
  function FeedInteractions(ins: seq<Interaction>, now: Timestamp): seq<Interaction>
  {
    Limit(Pending(ins, now), FeedSize)
  }

  function Feed(cs: seq<Customer>, ins: seq<Interaction>, now: Timestamp): seq<FollowUpRow>
  {
    var f := FeedInteractions(ins, now);
    seq(|f|, k requires 0 <= k < |f| => Join(cs, f[k]))
  }

  /** The pending list holds exactly the upcoming interactions, earliest first. */
  lemma PendingSpec(ins: seq<Interaction>, now: Timestamp)
    ensures multiset(Pending(ins, now)) == multiset(Filter(ins, IsUpcoming(now)))
    ensures |Pending(ins, now)| == |Filter(ins, IsUpcoming(now))|
    ensures forall i :: i in Pending(ins, now) <==> i in ins && IsUpcoming(now)(i)
    ensures Ordered(Pending(ins, now), FollowUpKey, true)
  {
    var u := Filter(ins, IsUpcoming(now));
    var p := Pending(ins, now);
    assert multiset(p) == multiset(u);
    assert |p| == |multiset(p)|;
    forall i ensures i in p <==> i in u {
      assert i in p <==> i in multiset(p);
      assert i in u <==> i in multiset(u);
    }
  }

  /** The feed shows as many rows as there are upcoming interactions, up to five; each row
      is a stored interaction whose follow-up date is set and not in the past; and rows
      run from the earliest date to the latest. */
  lemma FeedRows(cs: seq<Customer>, ins: seq<Interaction>, now: Timestamp)
    ensures var n := |Filter(ins, IsUpcoming(now))|;
      |Feed(cs, ins, now)| == if n < FeedSize then n else FeedSize
    ensures forall k :: 0 <= k < |Feed(cs, ins, now)| ==>
      && FeedInteractions(ins, now)[k] in ins
      && FeedInteractions(ins, now)[k].followUpDate == Some(Feed(cs, ins, now)[k].followUpDate)
      && Feed(cs, ins, now)[k].followUpDate >= now
    ensures forall j, k :: 0 <= j < k < |Feed(cs, ins, now)| ==>
      Feed(cs, ins, now)[j].followUpDate <= Feed(cs, ins, now)[k].followUpDate
  {
    var p := Pending(ins, now);
    var f := FeedInteractions(ins, now);
    var feed := Feed(cs, ins, now);
    PendingSpec(ins, now);
    LimitOrdered(p, FeedSize, FollowUpKey, true);
    forall k | 0 <= k < |feed|
      ensures f[k] in ins && f[k].followUpDate == Some(feed[k].followUpDate) && feed[k].followUpDate >= now
    {
      assert f[k] == p[k];
    }
    forall j, k | 0 <= j < k < |feed| ensures feed[j].followUpDate <= feed[k].followUpDate {
      assert InOrder(FollowUpKey(f[j]), FollowUpKey(f[k]), true);
    }
  }

  /** An upcoming interaction is left out of the feed only if every row shown is due no
      later than it; with five or fewer upcoming interactions, all of them are shown. */
  lemma FeedEarliest(cs: seq<Customer>, ins: seq<Interaction>, now: Timestamp, i: Interaction)
    requires i in ins && IsUpcoming(now)(i)
    ensures forall k :: 0 <= k < |Feed(cs, ins, now)| && i.followUpDate.value < Feed(cs, ins, now)[k].followUpDate ==>
              Join(cs, i) in Feed(cs, ins, now)
    ensures |Filter(ins, IsUpcoming(now))| <= FeedSize ==> Join(cs, i) in Feed(cs, ins, now)
  {
    var p := Pending(ins, now);
    var f := FeedInteractions(ins, now);
    var feed := Feed(cs, ins, now);
    PendingSpec(ins, now);
    LimitOrdered(p, FeedSize, FollowUpKey, true);
    var j :| 0 <= j < |p| && p[j] == i;
    if j < |f| {
      assert f[j] == i;
      assert feed[j] == Join(cs, i);
    } else {
      forall k | 0 <= k < |feed| ensures feed[k].followUpDate <= i.followUpDate.value {
        assert InOrder(FollowUpKey(f[k]), FollowUpKey(p[j]), true);
      }
    }
  }

  /** In a consistent store every feed row is joined to its customer: the row carries the
      name and id of the stored customer the interaction belongs to, never null. */
  lemma FeedJoinsCustomer(users: set<Id>, cs: seq<Customer>, ins: seq<Interaction>, now: Timestamp)
    requires Consistent(users, cs, ins)
    ensures forall k, c :: 0 <= k < |Feed(cs, ins, now)| && c in cs && c.id == FeedInteractions(ins, now)[k].customerId ==>
              Feed(cs, ins, now)[k].customer == Some(CustomerRef(c.name, c.id))
  {
    forall k, c | 0 <= k < |Feed(cs, ins, now)| && c in cs && c.id == FeedInteractions(ins, now)[k].customerId
      ensures Feed(cs, ins, now)[k].customer == Some(CustomerRef(c.name, c.id))
    {
      var d := FindCustomer(cs, c.id).value;
      var a :| 0 <= a < |cs| && cs[a] == c;
      var b :| 0 <= b < |cs| && cs[b] == d;
      assert a == b;
    }
  }

  /** After a customer is deleted with its history, no feed row refers to it. */
  lemma FeedAfterDelete(users: set<Id>, cs: seq<Customer>, ins: seq<Interaction>, id: Id, now: Timestamp)
    requires Consistent(users, cs, ins)
    ensures forall row :: row in Feed(Filter(cs, CustomerIdIsNot(id)), Filter(ins, NotOfCustomer(id)), now) ==>
              row.customer.Some? && row.customer.value.id != id
  {
    var cs', ins' := Filter(cs, CustomerIdIsNot(id)), Filter(ins, NotOfCustomer(id));
    DeleteCustomerCascade(users, cs, ins, id);
    FeedRows(cs', ins', now);
    forall row | row in Feed(cs', ins', now) ensures row.customer.Some? && row.customer.value.id != id {
      var k :| 0 <= k < |Feed(cs', ins', now)| && Feed(cs', ins', now)[k] == row;
      var i := FeedInteractions(ins', now)[k];
      assert HasCustomer(cs', i.customerId);
    }
  }

  /** `customers?.name || 'Unknown Customer'`. */
  function DisplayName(row: FollowUpRow): (r: string)
    ensures r != ""
    ensures row.customer.None? || row.customer.value.name == "" ==> r == "Unknown Customer"
    ensures row.customer.Some? && row.customer.value.name != "" ==> r == row.customer.value.name
  {
    if row.customer.Some? && row.customer.value.name != "" then row.customer.value.name else "Unknown Customer"
  }

  /** The target of the View link, shown only when the row has a customer id. */
  function ViewLink(row: FollowUpRow): (r: Option<Id>)
    ensures r.Some? <==> row.customer.Some? && row.customer.value.id != ""
    ensures r.Some? ==> r.value == row.customer.value.id
  {
    if row.customer.Some? && row.customer.value.id != "" then Some(row.customer.value.id) else None
  }

  // ---------------------------------------------------------------------------
  // The page

  class DashboardPage {
    var stats: Stats
    var followUps: seq<FollowUpRow>
    var loading: bool

    /** The counts add up and the feed is within its limit. */
    ghost predicate Valid()
      reads this
    {
      stats.leads + stats.active + stats.closed == stats.total && |followUps| <= FeedSize
    }

    constructor ()
      ensures Valid()
      ensures stats == NoStats && followUps == [] && loading
    {
      stats := NoStats;
      followUps := [];
      loading := true;
    }

    /** Both reads at `now`; when the store does not answer, the previous cards and feed stay. */
    method FetchDashboardData(db: Store, now: Timestamp)
      requires Valid()
      modifies this
      ensures Valid()
      ensures !loading
      ensures db.available ==> stats == ComputeStats(db.customers) && followUps == Feed(db.customers, db.interactions, now)
      ensures !db.available ==> stats == old(stats) && followUps == old(followUps)
    {
      if db.available {
        StatusPartition(db.customers);
        FeedRows(db.customers, db.interactions, now);
        stats := ComputeStats(db.customers);
        followUps := Feed(db.customers, db.interactions, now);
      }
      loading := false;
    }
  }

  // ---------------------------------------------------------------------------
  // A whole life cycle

  /** The customer created in the life cycle below. */
  function Ada(now: Timestamp): Customer
  {
    NewCustomer(CustomerInsert(Omitted, "u1", "Ada Lovelace", Given(Some("ada@x.com")), Omitted, Given(Lead), Omitted), "c1", now)
  }

  /** The call logged for it, with a follow-up `week` ahead. */
  function IntroCall(now: Timestamp, week: nat): Interaction
  {
    NewInteraction(InteractionInsert(Omitted, "c1", "u1", Call, Given(Some("intro")), Given(now), Given(Some(now + week))), "i1", now)
  }

  /** One customer is created, gets a call with a follow-up a week ahead, and is deleted:
      the cards count it while it exists, its history and the feed show the call, and
      after the delete the customer cannot be read and both views are empty again. */
  lemma CustomerLifeCycle(now: Timestamp, week: nat)
    requires week > 0
    ensures && Consistent({"u1"}, [Ada(now)], []) && ComputeStats([Ada(now)]) == Stats(1, 1, 0, 0)
      && Consistent({"u1"}, [Ada(now)], [IntroCall(now, week)])
      && CustomerDetail.History([IntroCall(now, week)], "c1") == [IntroCall(now, week)]
      && Feed([Ada(now)], [IntroCall(now, week)], now) == [FollowUpRow("i1", Call, now + week, Some(CustomerRef("Ada Lovelace", "c1")))]
      && Filter([Ada(now)], CustomerIdIsNot("c1")) == [] && Filter([IntroCall(now, week)], NotOfCustomer("c1")) == []
      && CustomerDetail.SingleById([], "c1") == None
      && ComputeStats([]) == NoStats && Feed([], [], now) == []
  {
    LifeCycleCreate(now, week);
    LifeCycleViews(now, week);
    LifeCycleDelete(now, week);
  }

  /** Creating the customer and its call is accepted, and the cards count one lead. */
  lemma LifeCycleCreate(now: Timestamp, week: nat)
    ensures Consistent({"u1"}, [Ada(now)], []) && ComputeStats([Ada(now)]) == Stats(1, 1, 0, 0)
    ensures Consistent({"u1"}, [Ada(now)], [IntroCall(now, week)])
  {
    var ada, call := Ada(now), IntroCall(now, week);
    assert ada == Customer("c1", "u1", "Ada Lovelace", Some("ada@x.com"), None, Lead, now);
    assert call == Interaction("i1", "c1", "u1", Call, Some("intro"), now, Some(now + week));
    InsertCustomerAccepted({"u1"}, [], [], ada);
    assert HasCustomer([ada], "c1") by { assert ada in [ada]; }
    InsertInteractionAccepted({"u1"}, [ada], [], call);
    StatusPartition([ada]);
    assert Statuses([ada]) == [Lead];
  }

  /** The history and the feed both show the call. */
  lemma LifeCycleViews(now: Timestamp, week: nat)
    requires week > 0
    ensures CustomerDetail.History([IntroCall(now, week)], "c1") == [IntroCall(now, week)]
    ensures Feed([Ada(now)], [IntroCall(now, week)], now) == [FollowUpRow("i1", Call, now + week, Some(CustomerRef("Ada Lovelace", "c1")))]
  {
    var ada, call := Ada(now), IntroCall(now, week);
    assert ada == Customer("c1", "u1", "Ada Lovelace", Some("ada@x.com"), None, Lead, now);
    assert call == Interaction("i1", "c1", "u1", Call, Some("intro"), now, Some(now + week));
    assert Filter([call], OfCustomer("c1")) == [call];
    OneRowFeed(ada, call, now);
  }

  /** After the delete nothing of the customer is left and both views are empty. */
  lemma LifeCycleDelete(now: Timestamp, week: nat)
    ensures Filter([Ada(now)], CustomerIdIsNot("c1")) == [] && Filter([IntroCall(now, week)], NotOfCustomer("c1")) == []
    ensures CustomerDetail.SingleById([], "c1") == None
    ensures ComputeStats([]) == NoStats && Feed([], [], now) == []
  {
    assert Ada(now).id == "c1" && IntroCall(now, week).customerId == "c1";
  }

  /** The feed of a store with one customer and one upcoming interaction of it. */
  lemma OneRowFeed(c: Customer, i: Interaction, now: Timestamp)
    requires i.followUpDate.Some? && i.followUpDate.value >= now && i.customerId == c.id
    ensures Feed([c], [i], now) == [FollowUpRow(i.id, i.kind, i.followUpDate.value, Some(CustomerRef(c.name, c.id)))]
  {
    assert Filter([i], IsUpcoming(now)) == [i];
    assert Pending([i], now) == [i];
    assert FeedInteractions([i], now) == [i];
    assert FindCustomer([c], c.id) == Some(c);
  }
}
