/** The subscription table as the hand-written verbs drive it: one row per (digest, user), flipped
    between subscribed and unsubscribed, never removed. */
module Subscriptions {
  import opened Common
  import opened Cadence

  datatype Status = Subscribed | Unsubscribed

  datatype Json = JNull | JBool(flag: bool) | JText(text: string)

  type Metadata = map<string, Json>

  datatype Subscription = Subscription(status: Status, unsubscribedAt: Option<Instant>, metadata: Metadata)

  /** (digest, user). */
  type Key = (Uuid, Uuid)

  type Rows = map<Key, Subscription>

  /** `metadata->>'deleted_at' IS NOT NULL`. */
  predicate Tombstoned(m: Metadata) {
    "deleted_at" in m && m["deleted_at"] != JNull
  }

  datatype Fact = UnsubscribedFact(key: Key) | AutoSubscribedFact(key: Key)

  datatype Table = Table(rows: Rows, facts: seq<Fact>)

  datatype Op =
    | Subscribe(key: Key, metadata: Metadata)
    | AutoSubscribe(key: Key, metadata: Metadata)
    | Unsubscribe(key: Key, now: Instant)
    | Resubscribe(key: Key)
    | Stamp(key: Key, patch: Metadata)

  /** Whether the verb's statement changes a row: what it reports to its caller. `subscribe_user`
      always writes and reports whether it created the row. */
  predicate Performs(rows: Rows, op: Op) {
    match op
    case Subscribe(key, _) => key !in rows
    case AutoSubscribe(key, _) => key !in rows
    case Unsubscribe(key, _) => key in rows && rows[key].status.Subscribed? && !Tombstoned(rows[key].metadata)
    case Resubscribe(key) => key in rows && rows[key].status.Unsubscribed? && !Tombstoned(rows[key].metadata)
    case Stamp(key, _) => key in rows
  }

  /** The table after one verb; the audit facts go with the performed edges. */
  function Step(t: Table, op: Op): Table {
    var key := op.key;
    match op
    case Subscribe(_, metadata) =>
      var merged := if key in t.rows then t.rows[key].metadata - {"deleted_at"} + metadata else metadata;
      t.(rows := t.rows[key := Subscription(Subscribed, None, merged)])
    case AutoSubscribe(_, metadata) =>
      if Performs(t.rows, op) then
        Table(t.rows[key := Subscription(Subscribed, None, metadata)], t.facts + [AutoSubscribedFact(key)])
      else t
    case Unsubscribe(_, now) =>
      if Performs(t.rows, op) then
        Table(t.rows[key := Subscription(Unsubscribed, Some(now), t.rows[key].metadata)],
              t.facts + [UnsubscribedFact(key)])
      else t
    case Resubscribe(_) =>
      if Performs(t.rows, op) then t.(rows := t.rows[key := Subscription(Subscribed, None, t.rows[key].metadata)])
      else t
    case Stamp(_, patch) =>
      if Performs(t.rows, op) then
        t.(rows := t.rows[key := t.rows[key].(metadata := t.rows[key].metadata + patch)])
      else t
  }

  function Run(t: Table, ops: seq<Op>): Table
    decreases ops
  {
    if ops == [] then t else Run(Step(t, ops[0]), ops[1..])
  }

  const EMPTY := Table(map[], [])

  // ---- over every run ---------------------------------------------------------------------

  predicate IsSubscribed(rows: Rows, key: Key) {
    key in rows && rows[key].status.Subscribed?
  }

  predicate IsUnsubscribed(rows: Rows, key: Key) {
    key in rows && rows[key].status.Unsubscribed?
  }

  /** The subscribed-to-unsubscribed moves of one row, seen from outside. */
  function Leaves(t: Table, ops: seq<Op>, key: Key): nat
    decreases ops
  {
    if ops == [] then 0
    else
      var t1 := Step(t, ops[0]);
      (if IsSubscribed(t.rows, key) && IsUnsubscribed(t1.rows, key) then 1 else 0) + Leaves(t1, ops[1..], key)
  }

  /** The unsubscribed-to-subscribed moves of one row. */
  function Returns(t: Table, ops: seq<Op>, key: Key): nat
    decreases ops
  {
    if ops == [] then 0
    else
      var t1 := Step(t, ops[0]);
      (if IsUnsubscribed(t.rows, key) && IsSubscribed(t1.rows, key) then 1 else 0) + Returns(t1, ops[1..], key)
  }

  function FactCount(facts: seq<Fact>, fact: Fact): nat {
    multiset(facts)[fact]
  }

  /** A row carries the moment it was unsubscribed exactly while it is unsubscribed. */
  predicate Stamped(rows: Rows) {
    forall key :: key in rows ==> (rows[key].unsubscribedAt.Some? <==> rows[key].status.Unsubscribed?)
  }

  /** The row of `key` and its audit facts are the same in both tables. */
  predicate SameAt(t: Table, after: Table, key: Key) {
    && (key in after.rows <==> key in t.rows)
    && (key in t.rows ==> after.rows[key] == t.rows[key])
    && FactCount(after.facts, UnsubscribedFact(key)) == FactCount(t.facts, UnsubscribedFact(key))
    && FactCount(after.facts, AutoSubscribedFact(key)) == FactCount(t.facts, AutoSubscribedFact(key))
  }

  /** What each verb leaves in its row: a hand subscription always a live, subscribed, unstamped row, its
      metadata over the old; an automatic one only where there was no row; an unsubscribe and a resubscribe
      only on a live row in the other state; a stamp only the metadata of a row there is. And what each
      reports: that it created the row, moved it, or found it. */
  lemma VerbsDo(t: Table, op: Op)
    ensures Performs(t.rows, op) <==>
              match op
              case Subscribe(key, _) => key !in t.rows
              case AutoSubscribe(key, _) => key !in t.rows
              case Unsubscribe(key, _) => IsSubscribed(t.rows, key) && IsUnsubscribed(Step(t, op).rows, key)
              case Resubscribe(key) => IsUnsubscribed(t.rows, key) && IsSubscribed(Step(t, op).rows, key)
              case Stamp(key, _) => key in t.rows
    ensures var key, rows, after := op.key, t.rows, Step(t, op).rows;
            var live := key in rows
                        && ("deleted_at" in rows[key].metadata ==> rows[key].metadata["deleted_at"] == JNull);
            match op
            case Subscribe(_, metadata) =>
              && key in after && after[key].status == Subscribed && after[key].unsubscribedAt == None
              && (forall name :: name in metadata ==>
                    name in after[key].metadata && after[key].metadata[name] == metadata[name])
              && ("deleted_at" !in metadata ==> !Tombstoned(after[key].metadata))
              && (forall name :: key in rows && name in rows[key].metadata ==>
                    name !in metadata && name != "deleted_at" ==>
                      name in after[key].metadata && after[key].metadata[name] == rows[key].metadata[name])
            case AutoSubscribe(_, metadata) =>
              after == if key in rows then rows else rows[key := Subscription(Subscribed, None, metadata)]
            case Unsubscribe(_, now) =>
              after == if live && rows[key].status == Subscribed
                       then rows[key := Subscription(Unsubscribed, Some(now), rows[key].metadata)] else rows
            case Resubscribe(_) =>
              after == if live && rows[key].status == Unsubscribed
                       then rows[key := Subscription(Subscribed, None, rows[key].metadata)] else rows
            case Stamp(_, patch) =>
              && (key in after <==> key in rows)
              && (key in rows ==> after[key].status == rows[key].status
                                  && after[key].unsubscribedAt == rows[key].unsubscribedAt
                                  && after[key].metadata == rows[key].metadata + patch)
  {
  }

  /** A verb on one key leaves every other key alone. */
  lemma StepLeavesOthers(t: Table, op: Op, key: Key)
    requires op.key != key
    ensures SameAt(t, Step(t, op), key)
  {
  }

  /** One verb keeps the stamp invariant and audits an unsubscribe exactly when it moves the row out. */
  lemma StepAudits(t: Table, op: Op, key: Key)
    requires Stamped(t.rows)
    ensures var after := Step(t, op);
            && Stamped(after.rows)
            && t.rows.Keys <= after.rows.Keys
            && FactCount(after.facts, UnsubscribedFact(key))
               == FactCount(t.facts, UnsubscribedFact(key))
                  + (if IsSubscribed(t.rows, key) && IsUnsubscribed(after.rows, key) then 1 else 0)
            && (IsUnsubscribed(after.rows, key) ==> key in t.rows)
  {
    if op.key != key {
      StepLeavesOthers(t, op, key);
    }
  }

  /** Rows are never removed, the stamp invariant is kept, and for each row the audited unsubscribes
      are exactly the moves out, which are the moves back plus one while the row is out. */
  lemma {:induction false} SubscriptionMachine(t: Table, ops: seq<Op>, key: Key)
    requires Stamped(t.rows)
    ensures var after := Run(t, ops);
            && Stamped(after.rows)
            && t.rows.Keys <= after.rows.Keys
            && FactCount(after.facts, UnsubscribedFact(key))
               == FactCount(t.facts, UnsubscribedFact(key)) + Leaves(t, ops, key)
            && (if IsUnsubscribed(t.rows, key) then 1 else 0) + Leaves(t, ops, key)
               == (if IsUnsubscribed(after.rows, key) then 1 else 0) + Returns(t, ops, key)
    decreases ops
  {
    if ops != [] {
      StepAudits(t, ops[0], key);
      SubscriptionMachine(Step(t, ops[0]), ops[1..], key);
    }
  }

  /** The auto-subscribe fact is recorded at most once per (digest, user), whatever else runs. */
  lemma {:induction false} AutoSubscribedOnce(t: Table, ops: seq<Op>, key: Key)
    requires FactCount(t.facts, AutoSubscribedFact(key)) <= if key in t.rows then 1 else 0
    ensures FactCount(Run(t, ops).facts, AutoSubscribedFact(key)) <= if key in Run(t, ops).rows then 1 else 0
    decreases ops
  {
    if ops != [] {
      AutoSubscribedOnce(Step(t, ops[0]), ops[1..], key);
    }
  }

  predicate OnlyReplays(ops: seq<Op>) {
    forall i :: 0 <= i < |ops| ==> ops[i].AutoSubscribe? || ops[i].Unsubscribe?
  }

  /** Once a row is unsubscribed, no replayed link and no redelivered event changes it: it is neither
      stamped again nor subscribed again. */
  lemma {:induction false} ReplaysNeverTouch(t: Table, ops: seq<Op>, key: Key)
    requires IsUnsubscribed(t.rows, key) && OnlyReplays(ops)
    ensures key in Run(t, ops).rows && Run(t, ops).rows[key] == t.rows[key]
    decreases ops
  {
    if ops != [] {
      assert ops[0].AutoSubscribe? || ops[0].Unsubscribe?;
      ReplaysNeverTouch(Step(t, ops[0]), ops[1..], key);
    }
  }

  lemma {:induction false} RunJoins(t: Table, first: seq<Op>, rest: seq<Op>)
    ensures Run(t, first + rest) == Run(Run(t, first), rest)
    decreases first
  {
    if first == [] {
      assert first + rest == rest;
    } else {
      assert (first + rest)[1..] == first[1..] + rest;
      RunJoins(Step(t, first[0]), first[1..], rest);
    }
  }

  lemma {:induction false} RowsStay(t: Table, ops: seq<Op>)
    ensures t.rows.Keys <= Run(t, ops).rows.Keys
    decreases ops
  {
    if ops != [] {
      RowsStay(Step(t, ops[0]), ops[1..]);
    }
  }

  /** Redelivery leaves no trace in any run of the verbs: once a user has been subscribed, by hand or by an
      event, a run with a later automatic subscription of theirs ends in the same table, row states,
      metadata and facts alike, as the run without it. */
  lemma RedeliveryLeavesNoTrace(t: Table, ops: seq<Op>, i: nat, j: nat)
    requires i < j < |ops| && (ops[i].AutoSubscribe? || ops[i].Subscribe?)
    requires ops[j].AutoSubscribe? && ops[j].key == ops[i].key
    ensures Run(t, ops[..j] + ops[j + 1..]) == Run(t, ops)
  {
    var before, after := ops[..i], ops[i + 1..j];
    var t1 := Run(t, before);
    var t2 := Step(t1, ops[i]);
    assert ops[..j] == before + ([ops[i]] + after);
    assert ([ops[i]] + after)[1..] == after;
    RunJoins(t, before, [ops[i]] + after);
    RowsStay(t2, after);
    assert ops[i].key in Run(t, ops[..j]).rows;
    assert ops == ops[..j] + ops[j..] && ops[j..][1..] == ops[j + 1..];
    RunJoins(t, ops[..j], ops[j..]);
    RunJoins(t, ops[..j], ops[j + 1..]);
  }

  /** An unsubscribe works on a live row exactly once: the row ends unsubscribed, at the moment of
      the first of any run of unsubscribes. */
  lemma {:induction false} FirstUnsubscribeWins(t: Table, key: Key, now: Instant, ops: seq<Op>)
    requires IsSubscribed(t.rows, key) && !Tombstoned(t.rows[key].metadata) && OnlyReplays(ops)
    ensures var after := Run(t, [Unsubscribe(key, now)] + ops).rows;
            key in after && after[key] == t.rows[key].(status := Unsubscribed, unsubscribedAt := Some(now))
  {
    var all := [Unsubscribe(key, now)] + ops;
    assert all[1..] == ops;
    ReplaysNeverTouch(Step(t, all[0]), ops, key);
  }

  // ---- the verbs --------------------------------------------------------------------------

  class SubscriptionTable {
    var rows: Rows
    var facts: seq<Fact>

    constructor ()
      ensures View() == EMPTY
    {
      rows, facts := map[], [];
    }

    function View(): Table
      reads this
    {
      Table(rows, facts)
    }

    method SubscribeUser(digestId: Uuid, userId: Uuid, metadata: Metadata) returns (inserted: bool)
      modifies this
      ensures View() == Step(old(View()), Subscribe((digestId, userId), metadata))
      ensures inserted == Performs(old(rows), Subscribe((digestId, userId), metadata))
    {
      var key := (digestId, userId);
      if key in rows {
        var kept := rows[key].metadata - {"deleted_at"};
        rows := rows[key := Subscription(Subscribed, None, kept + metadata)];
        return false;
      }
      rows := rows[key := Subscription(Subscribed, None, metadata)];
      return true;
    }

    /** The growth loop's verb; the caller records the fact on the edge it reports. */
    method AutoSubscribeUser(digestId: Uuid, userId: Uuid, metadata: Metadata) returns (inserted: bool)
      modifies this`rows
      ensures rows == Step(old(View()), AutoSubscribe((digestId, userId), metadata)).rows
      ensures inserted == Performs(old(rows), AutoSubscribe((digestId, userId), metadata))
    {
      var key := (digestId, userId);
      if key in rows {
        return false;
      }
      rows := rows[key := Subscription(Subscribed, None, metadata)];
      return true;
    }

    /** Apply a verified unsubscribe. */
    method Apply(digestId: Uuid, userId: Uuid, now: Instant) returns (performed: bool)
      modifies this
      ensures View() == Step(old(View()), Unsubscribe((digestId, userId), now))
      ensures performed == Performs(old(rows), Unsubscribe((digestId, userId), now))
    {
      var key := (digestId, userId);
      performed := key in rows && rows[key].status.Subscribed? && !Tombstoned(rows[key].metadata);
      if performed {
        rows := rows[key := rows[key].(status := Unsubscribed, unsubscribedAt := Some(now))];
        facts := facts + [UnsubscribedFact(key)];
      }
    }

    method Resubscribe(digestId: Uuid, userId: Uuid) returns (performed: bool)
      modifies this
      ensures View() == Step(old(View()), Op.Resubscribe((digestId, userId)))
      ensures performed == Performs(old(rows), Op.Resubscribe((digestId, userId)))
    {
      var key := (digestId, userId);
      performed := key in rows && rows[key].status.Unsubscribed? && !Tombstoned(rows[key].metadata);
      if performed {
        rows := rows[key := rows[key].(status := Subscribed, unsubscribedAt := None)];
      }
    }

    method StampMetadata(digestId: Uuid, userId: Uuid, patch: Metadata)
      modifies this
      ensures View() == Step(old(View()), Stamp((digestId, userId), patch))
    {
      var key := (digestId, userId);
      if key in rows {
        rows := rows[key := rows[key].(metadata := rows[key].metadata + patch)];
      }
    }
  }
}
