/** The consumer of `sapiens.user.created`: subscribe a new internal user to the default digest,
    under an at-least-once relay that may redeliver any event any number of times. */
module GrowthLoop {
  import opened Common
  import opened Subscriptions

  /** The recipient port's answer for one delivery. */
  datatype Resolution = Internal | External | NotWired | Unresolvable

  /** One delivery of an event; `user` is None when the payload holds no readable id, and `writes` is
      false when the insert fails. */
  datatype Delivery = Delivery(user: Option<Uuid>, resolution: Resolution, metadata: Metadata, writes: bool)

  datatype Handled = Acknowledged | Failed

  /** The user a delivery subscribes, when it subscribes one. */
  function Accepts(d: Delivery): Option<Uuid> {
    if d.resolution.Internal? && d.writes then d.user else None
  }

  function Deliver(t: Table, digestId: Uuid, d: Delivery): Table {
    match Accepts(d)
    case Some(user) => Step(t, AutoSubscribe((digestId, user), d.metadata))
    case None => t
  }

  function DeliverAll(t: Table, digestId: Uuid, ds: seq<Delivery>): Table {
    if ds == [] then t else Deliver(DeliverAll(t, digestId, ds[..|ds| - 1]), digestId, ds[|ds| - 1])
  }

  /** The keys some delivery subscribes. */
  function Wanted(digestId: Uuid, ds: seq<Delivery>): set<Key> {
    set i | 0 <= i < |ds| && Accepts(ds[i]).Some? :: (digestId, Accepts(ds[i]).value)
  }

  /** The state of each row, metadata aside. */
  function Membership(rows: Rows): map<Key, (Status, Option<int>)> {
    map key | key in rows :: (rows[key].status, rows[key].unsubscribedAt)
  }

  /** Whatever the order and number of deliveries, every row there was stays as it was, and the new
      rows are exactly the wanted ones, subscribed; each new row was audited once, no other was. */
  lemma {:induction false} DeliveriesInClosedForm(t: Table, digestId: Uuid, ds: seq<Delivery>)
    ensures var after := DeliverAll(t, digestId, ds);
            && (forall key :: key in t.rows ==> key in after.rows && after.rows[key] == t.rows[key])
            && after.rows.Keys == t.rows.Keys + Wanted(digestId, ds)
            && (forall key :: key in after.rows && key !in t.rows ==>
                  after.rows[key].status.Subscribed? && after.rows[key].unsubscribedAt.None?)
            && (forall key: Key ::
                  FactCount(after.facts, AutoSubscribedFact(key))
                  == FactCount(t.facts, AutoSubscribedFact(key))
                     + if key in Wanted(digestId, ds) && key !in t.rows then 1 else 0)
    decreases |ds|
  {
    if ds != [] {
      var before, last := ds[..|ds| - 1], ds[|ds| - 1];
      DeliveriesInClosedForm(t, digestId, before);
      WantedGrows(digestId, before, last);
      assert before + [last] == ds;
    }
  }

  lemma WantedGrows(digestId: Uuid, ds: seq<Delivery>, d: Delivery)
    ensures Wanted(digestId, ds + [d])
         == Wanted(digestId, ds) + if Accepts(d).Some? then {(digestId, Accepts(d).value)} else {}
  {
    var all := ds + [d];
    assert forall i :: 0 <= i < |ds| ==> all[i] == ds[i];
    forall key | key in Wanted(digestId, ds) + if Accepts(d).Some? then {(digestId, Accepts(d).value)} else {}
      ensures key in Wanted(digestId, all)
    {
      if key in Wanted(digestId, ds) {
        var i :| 0 <= i < |ds| && Accepts(ds[i]).Some? && key == (digestId, Accepts(ds[i]).value);
        assert all[i] == ds[i];
      } else {
        assert all[|ds|] == d;
      }
    }
  }

  /** Redelivery and reordering do not show: two relays that get the same users accepted leave the
      same membership, so at-least-once is as good as exactly-once. */
  lemma RedeliveryDoesNotShow(t: Table, digestId: Uuid, once: seq<Delivery>, again: seq<Delivery>)
    requires Wanted(digestId, once) == Wanted(digestId, again)
    ensures Membership(DeliverAll(t, digestId, once).rows) == Membership(DeliverAll(t, digestId, again).rows)
    ensures forall key: Key :: FactCount(DeliverAll(t, digestId, once).facts, AutoSubscribedFact(key))
                            == FactCount(DeliverAll(t, digestId, again).facts, AutoSubscribedFact(key))
  {
    DeliveriesInClosedForm(t, digestId, once);
    DeliveriesInClosedForm(t, digestId, again);
  }

  class UserCreatedHandler {
    const table: SubscriptionTable
    /** None: the growth loop is off. */
    const defaultDigest: Option<Uuid>

    constructor (table: SubscriptionTable, defaultDigest: Option<Uuid>)
      ensures this.table == table && this.defaultDigest == defaultDigest
    {
      this.table, this.defaultDigest := table, defaultDigest;
    }

    /** An unreadable payload, an unwired or failing port and a failed insert fail the delivery, so
        that the relay redelivers; a switched-off loop and an external user are acknowledged without
        a subscription. */
    method Handle(d: Delivery) returns (r: Handled)
      modifies table
      ensures table.View() == if defaultDigest.Some? then Deliver(old(table.View()), defaultDigest.value, d)
                              else old(table.View())
      ensures r.Acknowledged? <==>
                && d.user.Some?
                && (defaultDigest.Some? ==> d.resolution.External? || (d.resolution.Internal? && d.writes))
      ensures table.View() != old(table.View()) ==>
                && defaultDigest.Some? && d.user.Some? && d.resolution.Internal? && d.writes
                && var key := (defaultDigest.value, d.user.value);
                   && key !in old(table.rows)
                   && table.rows == old(table.rows)[key := Subscription(Subscribed, None, d.metadata)]
                   && table.facts == old(table.facts) + [AutoSubscribedFact(key)]
      ensures d.user.Some? && defaultDigest.Some? && d.resolution.Internal? && d.writes ==>
                (defaultDigest.value, d.user.value) in table.rows
    {
      if d.user.None? {
        return Failed;
      }
      if defaultDigest.None? {
        return Acknowledged;
      }
      match d.resolution {
        case NotWired => return Failed;
        case Unresolvable => return Failed;
        case External => return Acknowledged;
        case Internal =>
      }
      if !d.writes {
        return Failed;
      }
      var firstTime := table.AutoSubscribeUser(defaultDigest.value, d.user.value, d.metadata);
      if firstTime {
        table.facts := table.facts + [AutoSubscribedFact((defaultDigest.value, d.user.value))];
      }
      return Acknowledged;
    }
  }
}
