/** The tip carousel: each mail carries the first unconsumed tip its recipient may see, and the tip is
    consumed by a marker written after the mail is enqueued. */
module Carousel {
  import opened Common

  datatype Tip = Tip(id: Uuid, sequence: int, groupKey: Option<string>)

  /** (tip, user) to whether the marker row is soft-deleted. */
  type Markers = map<(Uuid, Uuid), bool>

  /** ORDER BY sequence, id: how the tip table is read. */
  predicate Precedes(a: Tip, b: Tip) {
    a.sequence < b.sequence || (a.sequence == b.sequence && a.id < b.id)
  }

  predicate InOrder(tips: seq<Tip>) {
    forall i, j :: 0 <= i < j < |tips| ==> Precedes(tips[i], tips[j])
  }

  predicate DistinctIds(tips: seq<Tip>) {
    forall i, j :: 0 <= i < j < |tips| ==> tips[i].id != tips[j].id
  }

  /** `keys` is None when the group keys could not be resolved: only ungated tips pass then. */
  predicate Passes(tip: Tip, keys: Option<set<string>>) {
    tip.groupKey.None? || tip.groupKey.value == "" || (keys.Some? && tip.groupKey.value in keys.value)
  }

  predicate Consumed(markers: Markers, tip: Tip, user: Uuid) {
    (tip.id, user) in markers && !markers[(tip.id, user)]
  }

  /** The tips still to come, in order. */
  function Remaining(tips: seq<Tip>, markers: Markers, user: Uuid, keys: Option<set<string>>): seq<Tip> {
    if tips == [] then []
    else
      (if Passes(tips[0], keys) && !Consumed(markers, tips[0], user) then [tips[0]] else [])
      + Remaining(tips[1..], markers, user, keys)
  }

  function Head(tips: seq<Tip>): Option<Tip> {
    if tips == [] then None else Some(tips[0])
  }

  /** Walk the table in order to the first tip that is unconsumed and passes its gate. */
  method PickTip(tips: seq<Tip>, markers: Markers, user: Uuid, keys: Option<set<string>>)
    returns (pick: Option<Tip>)
    ensures pick == Head(Remaining(tips, markers, user, keys))
  {
    var i := 0;
    while i < |tips|
      invariant 0 <= i <= |tips|
      invariant Remaining(tips, markers, user, keys) == Remaining(tips[i..], markers, user, keys)
    {
      assert tips[i..][1..] == tips[i + 1..];
      var tip := tips[i];
      if !Consumed(markers, tip, user) {
        var gate := if tip.groupKey.Some? then tip.groupKey.value else "";
        if gate == "" || (keys.Some? && gate in keys.value) {
          return Some(tip);
        }
      }
      i := i + 1;
    }
    return None;
  }

  // ---- delivery ---------------------------------------------------------------------------

  /** What one attempt came to: refused at the queue; enqueued, but the marker insert failed;
      enqueued and marked, but the first-digest stamp failed; or delivered. */
  datatype Attempt = RefusedAtQueue | MarkerFailed | StampFailed | Delivered

  predicate Marks(a: Attempt) {
    a.StampFailed? || a.Delivered?
  }

  /** INSERT … ON CONFLICT DO NOTHING: a marker row already there, live or soft-deleted, stays. */
  function Mark(markers: Markers, pick: Option<Tip>, user: Uuid): Markers {
    if pick.None? || (pick.value.id, user) in markers then markers
    else markers[(pick.value.id, user) := false]
  }

  function AfterAttempt(tips: seq<Tip>, markers: Markers, user: Uuid, keys: Option<set<string>>, a: Attempt): Markers {
    if Marks(a) then Mark(markers, Head(Remaining(tips, markers, user, keys)), user) else markers
  }

  /** The tips the attempts carried, one entry an attempt. */
  function Carried(tips: seq<Tip>, markers: Markers, user: Uuid, keys: Option<set<string>>, attempts: seq<Attempt>)
    : (carried: seq<Option<Tip>>)
    ensures |carried| == |attempts|
    decreases attempts
  {
    if attempts == [] then []
    else
      [Head(Remaining(tips, markers, user, keys))]
      + Carried(tips, AfterAttempt(tips, markers, user, keys, attempts[0]), user, keys, attempts[1..])
  }

  function MarkCount(attempts: seq<Attempt>): (n: nat)
    ensures n <= |attempts|
  {
    if attempts == [] then 0 else (if Marks(attempts[0]) then 1 else 0) + MarkCount(attempts[1..])
  }

  /** How many of the remaining tips come before the first that already has a marker row, which then is
      a soft-deleted one: all of them when none has. */
  function BeforeStuck(remaining: seq<Tip>, markers: Markers, user: Uuid): (n: nat)
    ensures n <= |remaining|
  {
    if remaining == [] || (remaining[0].id, user) in markers then 0
    else 1 + BeforeStuck(remaining[1..], markers, user)
  }

  lemma {:induction false} RemainingMembers(
    tips: seq<Tip>, markers: Markers, user: Uuid, keys: Option<set<string>>, tip: Tip)
    ensures tip in Remaining(tips, markers, user, keys)
       <==> tip in tips && Passes(tip, keys) && !Consumed(markers, tip, user)
  {
    if tips != [] {
      assert tips == [tips[0]] + tips[1..];
      RemainingMembers(tips[1..], markers, user, keys, tip);
    }
  }

  /** Marking a tip that is not in a list of distinct tips leaves what remains of it. */
  lemma {:induction false} MarkingOthers(
    tips: seq<Tip>, markers: Markers, user: Uuid, keys: Option<set<string>>, id: Uuid)
    requires forall i :: 0 <= i < |tips| ==> tips[i].id != id
    ensures Remaining(tips, markers[(id, user) := false], user, keys) == Remaining(tips, markers, user, keys)
  {
    if tips != [] {
      MarkingOthers(tips[1..], markers, user, keys, id);
    }
  }

  /** Marking the first remaining tip leaves the rest, in order. */
  lemma {:induction false} MarkingFirst(tips: seq<Tip>, markers: Markers, user: Uuid, keys: Option<set<string>>)
    requires DistinctIds(tips) && Remaining(tips, markers, user, keys) != []
    ensures var remaining := Remaining(tips, markers, user, keys);
            Remaining(tips, markers[(remaining[0].id, user) := false], user, keys) == remaining[1..]
  {
    var remaining := Remaining(tips, markers, user, keys);
    var marked := markers[(remaining[0].id, user) := false];
    if Passes(tips[0], keys) && !Consumed(markers, tips[0], user) {
      assert remaining == [tips[0]] + Remaining(tips[1..], markers, user, keys);
      MarkingOthers(tips[1..], markers, user, keys, tips[0].id);
    } else {
      assert remaining == Remaining(tips[1..], markers, user, keys);
      RemainingMembers(tips[1..], markers, user, keys, remaining[0]);
      var j :| 0 <= j < |tips[1..]| && tips[1..][j] == remaining[0];
      assert tips[j + 1] == remaining[0];
      MarkingFirst(tips[1..], markers, user, keys);
    }
  }

  lemma {:induction false} RemainingDistinct(
    tips: seq<Tip>, markers: Markers, user: Uuid, keys: Option<set<string>>)
    requires DistinctIds(tips)
    ensures DistinctIds(Remaining(tips, markers, user, keys))
  {
    hide Passes, Consumed;
    if tips != [] {
      var rest := Remaining(tips[1..], markers, user, keys);
      RemainingDistinct(tips[1..], markers, user, keys);
      forall i | 0 <= i < |rest|
        ensures rest[i].id != tips[0].id
      {
        RemainingMembers(tips[1..], markers, user, keys, rest[i]);
        var j :| 0 <= j < |tips[1..]| && tips[1..][j] == rest[i];
        assert tips[j + 1] == rest[i];
      }
    }
  }

  lemma {:induction false} StuckElsewhere(remaining: seq<Tip>, markers: Markers, user: Uuid, id: Uuid)
    requires forall i :: 0 <= i < |remaining| ==> remaining[i].id != id
    ensures BeforeStuck(remaining, markers[(id, user) := false], user) == BeforeStuck(remaining, markers, user)
  {
    if remaining != [] {
      StuckElsewhere(remaining[1..], markers, user, id);
    }
  }

  /** A marked attempt takes the first remaining tip unless that one is stuck; any other takes none. */
  lemma AttemptTakesFirst(tips: seq<Tip>, markers: Markers, user: Uuid, keys: Option<set<string>>, a: Attempt)
    requires DistinctIds(tips)
    ensures var remaining := Remaining(tips, markers, user, keys);
            var free := BeforeStuck(remaining, markers, user);
            var after := AfterAttempt(tips, markers, user, keys, a);
            && Remaining(tips, after, user, keys) == (if Marks(a) && free > 0 then remaining[1..] else remaining)
            && BeforeStuck(Remaining(tips, after, user, keys), after, user)
               == if Marks(a) && free > 0 then free - 1 else free
  {
    var remaining := Remaining(tips, markers, user, keys);
    if Marks(a) && BeforeStuck(remaining, markers, user) > 0 {
      MarkingFirst(tips, markers, user, keys);
      RemainingDistinct(tips, markers, user, keys);
      StuckElsewhere(remaining[1..], markers, user, remaining[0].id);
    }
  }

  function Min(a: nat, b: nat): nat {
    if a <= b then a else b
  }

  /** The tip whose turn it is after `n` marked attempts: the turn never moves past the stuck tip. */
  function TurnOf(remaining: seq<Tip>, free: nat, n: nat): Option<Tip> {
    var turn := Min(n, free);
    if turn < |remaining| then Some(remaining[turn]) else None
  }

  /** What an attempt does to the turns still to come. */
  lemma TurnMoves(remaining: seq<Tip>, free: nat, marks: bool, n: nat)
    requires free <= |remaining|
    ensures TurnOf(remaining, free, (if marks then 1 else 0) + n)
         == if marks && free > 0 then TurnOf(remaining[1..], free - 1, n) else TurnOf(remaining, free, n)
  {
  }

  /** The carousel in closed form: the attempt carries the remaining tip whose turn the marked attempts
      before it have brought up, and none once the tips run out; but the turn never moves past a tip that
      already has a marker row. So refused and unmarked attempts consume nothing, and each tip up to a
      stuck one is taken once, in order. */
  lemma {:induction false} CarouselInOrder(
    tips: seq<Tip>, markers: Markers, user: Uuid, keys: Option<set<string>>, attempts: seq<Attempt>, i: nat)
    requires DistinctIds(tips) && i < |attempts|
    ensures var remaining := Remaining(tips, markers, user, keys);
            Carried(tips, markers, user, keys, attempts)[i]
            == TurnOf(remaining, BeforeStuck(remaining, markers, user), MarkCount(attempts[..i]))
    decreases attempts
  {
    if i > 0 {
      var remaining := Remaining(tips, markers, user, keys);
      var after := AfterAttempt(tips, markers, user, keys, attempts[0]);
      var n := MarkCount(attempts[1..][..i - 1]);
      CarouselInOrder(tips, after, user, keys, attempts[1..], i - 1);
      AttemptTakesFirst(tips, markers, user, keys, attempts[0]);
      CarriedLater(tips, markers, user, keys, attempts, i);
      assert MarkCount(attempts[..i]) == (if Marks(attempts[0]) then 1 else 0) + n by {
        MarkCountFirst(attempts[..i]);
        assert attempts[..i][1..] == attempts[1..][..i - 1];
      }
      TurnMoves(remaining, BeforeStuck(remaining, markers, user), Marks(attempts[0]), n);
    }
  }

  lemma CarriedLater(
    tips: seq<Tip>, markers: Markers, user: Uuid, keys: Option<set<string>>, attempts: seq<Attempt>, i: nat)
    requires 0 < i < |attempts|
    ensures Carried(tips, markers, user, keys, attempts)[i]
         == Carried(tips, AfterAttempt(tips, markers, user, keys, attempts[0]), user, keys, attempts[1..])[i - 1]
  {
  }

  lemma MarkCountFirst(attempts: seq<Attempt>)
    requires attempts != []
    ensures MarkCount(attempts) == (if Marks(attempts[0]) then 1 else 0) + MarkCount(attempts[1..])
  {
  }

  /** The tips carried by the attempts that came to one of these ends, in order. */
  function TipsOf(carried: seq<Option<Tip>>, attempts: seq<Attempt>, ends: set<Attempt>): seq<Tip>
    requires |carried| == |attempts|
  {
    if attempts == [] then []
    else (if attempts[0] in ends && carried[0].Some? then [carried[0].value] else [])
         + TipsOf(carried[1..], attempts[1..], ends)
  }

  /** `n` turns: the tips in order, with the stuck one, if any, over and over. */
  function Turns(remaining: seq<Tip>, free: nat, n: nat): seq<Tip>
    requires free <= |remaining|
  {
    if n <= free then remaining[..n]
    else if free == |remaining| then remaining
    else remaining[..free] + seq(n - free, _ => remaining[free])
  }

  /** No attempt whose first-digest stamp failed carried a tip. */
  predicate NoTipLostToStamp(carried: seq<Option<Tip>>, attempts: seq<Attempt>)
    requires |carried| == |attempts|
  {
    forall i :: 0 <= i < |attempts| && attempts[i].StampFailed? ==> carried[i].None?
  }

  /** Over any run the tips of the attempts that wrote their marker are exactly the first remaining ones,
      each once, up to a stuck one, which then comes every time; those are the tips of the successful
      deliveries exactly when no attempt with a failed stamp carried one. */
  lemma DeliveredInTurn(
    tips: seq<Tip>, markers: Markers, user: Uuid, keys: Option<set<string>>, attempts: seq<Attempt>)
    requires DistinctIds(tips)
    ensures var remaining := Remaining(tips, markers, user, keys);
            var carried := Carried(tips, markers, user, keys, attempts);
            var turns := Turns(remaining, BeforeStuck(remaining, markers, user), MarkCount(attempts));
            && TipsOf(carried, attempts, {StampFailed, Delivered}) == turns
            && (TipsOf(carried, attempts, {Delivered}) == turns <==> NoTipLostToStamp(carried, attempts))
  {
    MarkedInTurn(tips, markers, user, keys, attempts);
    LostToStamps(Carried(tips, markers, user, keys, attempts), attempts);
  }

  lemma {:induction false} MarkedInTurn(
    tips: seq<Tip>, markers: Markers, user: Uuid, keys: Option<set<string>>, attempts: seq<Attempt>)
    requires DistinctIds(tips)
    ensures var remaining := Remaining(tips, markers, user, keys);
            TipsOf(Carried(tips, markers, user, keys, attempts), attempts, {StampFailed, Delivered})
            == Turns(remaining, BeforeStuck(remaining, markers, user), MarkCount(attempts))
    decreases attempts
  {
    hide AfterAttempt, BeforeStuck, Remaining;
    if attempts != [] {
      var remaining := Remaining(tips, markers, user, keys);
      var after := AfterAttempt(tips, markers, user, keys, attempts[0]);
      MarkedInTurn(tips, after, user, keys, attempts[1..]);
      AttemptTakesFirst(tips, markers, user, keys, attempts[0]);
      FirstTip(Head(remaining), Carried(tips, after, user, keys, attempts[1..]), attempts, {StampFailed, Delivered});
      NextTurns(remaining, BeforeStuck(remaining, markers, user), Marks(attempts[0]), MarkCount(attempts[1..]));
      MarkCountFirst(attempts);
    }
  }

  lemma FirstTip(head: Option<Tip>, rest: seq<Option<Tip>>, attempts: seq<Attempt>, ends: set<Attempt>)
    requires |attempts| == 1 + |rest|
    ensures TipsOf([head] + rest, attempts, ends)
         == (if attempts[0] in ends && head.Some? then [head.value] else []) + TipsOf(rest, attempts[1..], ends)
  {
    assert ([head] + rest)[1..] == rest;
  }

  /** What an attempt adds to the turns. */
  lemma NextTurns(remaining: seq<Tip>, free: nat, marks: bool, n: nat)
    requires free <= |remaining|
    ensures Turns(remaining, free, (if marks then 1 else 0) + n)
         == (if marks && remaining != [] then [remaining[0]] else [])
            + (if marks && free > 0 then Turns(remaining[1..], free - 1, n) else Turns(remaining, free, n))
  {
  }

  /** Failed stamps only take tips away from the deliveries, and each that carried one does. */
  lemma {:induction false} LostToStamps(carried: seq<Option<Tip>>, attempts: seq<Attempt>)
    requires |carried| == |attempts|
    ensures var delivered := TipsOf(carried, attempts, {Delivered});
            var marked := TipsOf(carried, attempts, {StampFailed, Delivered});
            && |delivered| <= |marked|
            && (NoTipLostToStamp(carried, attempts) ==> delivered == marked)
            && (!NoTipLostToStamp(carried, attempts) ==> |delivered| < |marked|)
  {
    if attempts != [] {
      hide NoTipLostToStamp;
      LostToStamps(carried[1..], attempts[1..]);
      LostFirst(carried, attempts);
    }
  }

  lemma LostFirst(carried: seq<Option<Tip>>, attempts: seq<Attempt>)
    requires |carried| == |attempts| > 0
    ensures NoTipLostToStamp(carried, attempts)
       <==> (attempts[0].StampFailed? ==> carried[0].None?) && NoTipLostToStamp(carried[1..], attempts[1..])
  {
    var rest := attempts[1..];
    assert forall i :: 0 <= i < |rest| ==> rest[i] == attempts[i + 1] && carried[1..][i] == carried[i + 1];
    if NoTipLostToStamp(carried[1..], rest) {
      forall i | 0 < i < |attempts| && attempts[i].StampFailed?
        ensures carried[i].None?
      {
        assert rest[i - 1].StampFailed?;
      }
    }
  }

  /** A soft-deleted marker stops the carousel: the next tip, once its marker row is there but
      deleted, is carried by every attempt. */
  lemma {:induction false} DeletedMarkerSticks(
    tips: seq<Tip>, markers: Markers, user: Uuid, keys: Option<set<string>>, attempts: seq<Attempt>, i: nat)
    requires i < |attempts| && Remaining(tips, markers, user, keys) != []
    requires (Remaining(tips, markers, user, keys)[0].id, user) in markers
    ensures Carried(tips, markers, user, keys, attempts)[i] == Some(Remaining(tips, markers, user, keys)[0])
    decreases attempts
  {
    if i > 0 {
      DeletedMarkerSticks(tips, markers, user, keys, attempts[1..], i - 1);
    }
  }

  /** A marked attempt consumes the tip it carried exactly when no marker row stood in its way. */
  lemma ConsumesExactly(tips: seq<Tip>, markers: Markers, user: Uuid, keys: Option<set<string>>, a: Attempt)
    requires Marks(a) && Remaining(tips, markers, user, keys) != []
    ensures var tip := Remaining(tips, markers, user, keys)[0];
            Consumed(AfterAttempt(tips, markers, user, keys, a), tip, user) <==> (tip.id, user) !in markers
  {
    var remaining := Remaining(tips, markers, user, keys);
    RemainingMembers(tips, markers, user, keys, remaining[0]);
  }

  /** What remains keeps the table's order. */
  lemma {:induction false} RemainingInOrder(tips: seq<Tip>, markers: Markers, user: Uuid, keys: Option<set<string>>)
    requires InOrder(tips)
    ensures InOrder(Remaining(tips, markers, user, keys))
  {
    hide Passes, Consumed;
    if tips != [] {
      var rest := Remaining(tips[1..], markers, user, keys);
      RemainingInOrder(tips[1..], markers, user, keys);
      forall i | 0 <= i < |rest|
        ensures Precedes(tips[0], rest[i])
      {
        RemainingMembers(tips[1..], markers, user, keys, rest[i]);
        var j :| 0 <= j < |tips[1..]| && tips[1..][j] == rest[i];
        assert tips[j + 1] == rest[i];
      }
    }
  }

  /** What remains for a user: exactly the tips without a live marker of theirs that are ungated or gated by
      one of their groups; when the group keys cannot be resolved, the ungated ones only. */
  lemma RemainingExactly(tips: seq<Tip>, markers: Markers, user: Uuid, keys: Option<set<string>>, tip: Tip)
    ensures tip in Remaining(tips, markers, user, keys)
       <==> && tip in tips
            && ((tip.id, user) in markers ==> markers[(tip.id, user)])
            && (tip.groupKey.Some? && tip.groupKey.value != "" ==> keys.Some? && tip.groupKey.value in keys.value)
  {
    RemainingMembers(tips, markers, user, keys, tip);
  }

  /** When the group keys cannot be resolved, what remains is exactly the unconsumed ungated tips. */
  lemma UnresolvedKeysLeaveUngated(tips: seq<Tip>, markers: Markers, user: Uuid, tip: Tip)
    ensures tip in Remaining(tips, markers, user, None)
       <==> tip in tips && !Consumed(markers, tip, user) && (tip.groupKey.None? || tip.groupKey.value == "")
  {
    RemainingMembers(tips, markers, user, None, tip);
  }

  /** The tip a mail carries comes before every other remaining one by sequence, then by id. */
  lemma FirstBySequence(tips: seq<Tip>, markers: Markers, user: Uuid, keys: Option<set<string>>, other: Tip)
    requires InOrder(tips)
    requires other in Remaining(tips, markers, user, keys)
    ensures var first := Remaining(tips, markers, user, keys)[0];
            first == other || first.sequence < other.sequence
            || (first.sequence == other.sequence && first.id < other.id)
  {
    RemainingInOrder(tips, markers, user, keys);
  }
}
