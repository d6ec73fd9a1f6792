/** One recipient's mail: render it whole or not at all, enqueue it, then mark its tip, then stamp the
    first digest; and what the sweep makes of the result. */
module Delivery {
  import opened Common
  import opened Cadence
  import opened Batch
  import opened Text
  import opened Token
  import opened Kpi
  import C = Carousel

  /** The mail seam's answer. A refusal queues nothing; another error may come before or after. */
  datatype Enqueue = Queued | SeamRefuses | SeamFails(queued: bool)

  /** What one send meets. None where a query or the recipient port failed. */
  datatype SendEnv = SendEnv(
    company: Option<Option<Uuid>>,
    keys: Option<seq<string>>,
    compute: Computer,
    tips: Option<seq<C.Tip>>,
    groupKeys: Option<set<string>>,
    enqueue: Enqueue,
    markerWrites: bool,
    firstDigest: bool,
    stampWrites: bool)

  datatype OutgoingMail = OutgoingMail(
    digestId: Uuid, userId: Uuid, classes: Classes, tip: Option<C.Tip>, listUnsubscribe: string)

  /** The signing side of the module; None when no secret was configured. */
  datatype Signer = Signer(hmac: Hmac, secret: seq<Byte>)

  /** Unicode White_Space, as `str::trim` strips it. */
  predicate IsSpace(c: char) {
    var n := c as int;
    9 <= n <= 13 || n == 0x20 || n == 0x85 || n == 0xA0 || n == 0x1680 || 0x2000 <= n <= 0x200A
    || n == 0x2028 || n == 0x2029 || n == 0x202F || n == 0x205F || n == 0x3000
  }

  predicate Blank(s: string) {
    forall i :: 0 <= i < |s| ==> IsSpace(s[i])
  }

  /** Whether the mail can be rendered: the recipient resolves, the link can be signed for a real
      host, and every query and computed key that is not merely unavailable succeeds. */
  predicate Renders(signer: Option<Signer>, base: string, entries: Entries, env: SendEnv) {
    && env.company.Some? && signer.Some? && !Blank(base) && env.keys.Some? && env.tips.Some?
    && forall i :: 0 <= i < |env.keys.value| ==>
         FateOf(entries, env.company.value, env.compute, env.keys.value[i]) != Aborts
  }

  function Pick(env: SendEnv, markers: C.Markers, user: Uuid): Option<C.Tip>
    requires env.tips.Some?
  {
    C.Head(C.Remaining(env.tips.value, markers, user, env.groupKeys))
  }

  /** The mail of a render. */
  function Planned(
    signer: Signer, base: string, entries: Entries, env: SendEnv, markers: C.Markers,
    digestId: Uuid, userId: Uuid, minted: Instant): OutgoingMail
    requires Renders(Some(signer), base, entries, env)
  {
    var token := Mint(signer.hmac, signer.secret, digestId, userId, minted);
    var company, keys := env.company.value, env.keys.value;
    OutgoingMail(digestId, userId,
                 Classes(Keep(entries, company, env.compute, keys, Rendered),
                         Keep(entries, company, env.compute, keys, OutOfFence),
                         Keep(entries, company, env.compute, keys, Dropped)),
                 Pick(env, markers, userId),
                 ListUnsubscribe(UnsubscribeUrl(base, token)))
  }

  /** What a mail has to hold: its digest and recipient, the first tip of theirs still to come, and in each
      list exactly the enabled keys of that list's fate, as often as enabled. */
  ghost predicate HoldsWhatItShould(
    mail: OutgoingMail, entries: Entries, env: SendEnv, markers: C.Markers, digestId: Uuid, userId: Uuid)
    requires env.company.Some? && env.keys.Some? && env.tips.Some?
  {
    && mail.digestId == digestId && mail.userId == userId
    && mail.tip == C.Head(C.Remaining(env.tips.value, markers, userId, env.groupKeys))
    && forall key: string ::
         var fate := FateOf(entries, env.company.value, env.compute, key);
         var enabled := multiset(env.keys.value)[key];
         && multiset(mail.classes.rendered)[key] == (if fate == Rendered then enabled else 0)
         && multiset(mail.classes.outOfFence)[key] == (if fate == OutOfFence then enabled else 0)
         && multiset(mail.classes.dropped)[key] == (if fate == Dropped then enabled else 0)
  }

  lemma PlannedHolds(
    signer: Signer, base: string, entries: Entries, env: SendEnv, markers: C.Markers,
    digestId: Uuid, userId: Uuid, minted: Instant)
    requires Renders(Some(signer), base, entries, env)
    ensures HoldsWhatItShould(Planned(signer, base, entries, env, markers, digestId, userId, minted),
                              entries, env, markers, digestId, userId)
  {
    hide FateOf, Keep, Mint, ListUnsubscribe, UnsubscribeUrl, C.Remaining;
    forall key: string, fate: Fate
      ensures multiset(Keep(entries, env.company.value, env.compute, env.keys.value, fate))[key]
           == if FateOf(entries, env.company.value, env.compute, key) == fate then multiset(env.keys.value)[key] else 0
    {
      KeepCounts(entries, env.company.value, env.compute, env.keys.value, fate, key);
    }
  }

  /** Whatever else is in the mail, the token that comes back from its unsubscribe header names its digest
      and recipient, whoever they are, exactly when the base URL has no `?`, no `#` and no `>`. */
  lemma PlannedMailNamesRecipient(
    signer: Signer, base: string, entries: Entries, env: SendEnv, markers: C.Markers, minted: Instant)
    requires Renders(Some(signer), base, entries, env) && InI64(minted + TTL_SECONDS)
    ensures (forall digestId: Uuid, userId: Uuid ::
               var mail := Planned(signer, base, entries, env, markers, digestId, userId, minted);
               Names(ReadBack(mail.listUnsubscribe), digestId, userId))
       <==> PlainBase(base)
    ensures forall digestId: Uuid, userId: Uuid :: PlainBase(base) ==>
              var mail := Planned(signer, base, entries, env, markers, digestId, userId, minted);
              ReadBack(mail.listUnsubscribe) == Some(Mint(signer.hmac, signer.secret, digestId, userId, minted))
  {
    if PlainBase(base) {
      forall digestId: Uuid, userId: Uuid
        ensures var mail := Planned(signer, base, entries, env, markers, digestId, userId, minted);
                ReadBack(mail.listUnsubscribe) == Some(Mint(signer.hmac, signer.secret, digestId, userId, minted))
      {
        PlainReadsBack(base, Mint(signer.hmac, signer.secret, digestId, userId, minted));
      }
    } else {
      var s, t := Mint(signer.hmac, signer.secret, 0, 0, minted), Mint(signer.hmac, signer.secret, 1, 0, minted);
      OtherMissesOne(base, s, t);
      var mailS := Planned(signer, base, entries, env, markers, 0, 0, minted);
      var mailT := Planned(signer, base, entries, env, markers, 1, 0, minted);
      assert !Names(ReadBack(mailS.listUnsubscribe), 0, 0) || !Names(ReadBack(mailT.listUnsubscribe), 1, 0);
    }
  }

  /** The carousel's view of a send. */
  function AttemptOf(env: SendEnv, pick: Option<C.Tip>): C.Attempt {
    if !env.enqueue.Queued? then C.RefusedAtQueue
    else if pick.Some? && !env.markerWrites then C.MarkerFailed
    else if env.firstDigest && !env.stampWrites then C.StampFailed
    else C.Delivered
  }

  /** The sweep's view of a send that rendered. */
  function ResultOf(env: SendEnv, pick: Option<C.Tip>): SendResult {
    match env.enqueue
    case SeamRefuses => SendResult.Refused
    case SeamFails(queued) => Failed(queued)
    case Queued => if AttemptOf(env, pick).Delivered? then Sent else Failed(true)
  }

  class RenderService {
    const registry: KpiRegistry
    const signer: Option<Signer>
    const base: string
    var markers: C.Markers
    var stamped: set<(Uuid, Uuid)>
    var queue: seq<OutgoingMail>

    constructor (registry: KpiRegistry, signer: Option<Signer>, base: string)
      ensures this.registry == registry && this.signer == signer && this.base == base
      ensures markers == map[] && stamped == {} && queue == []
    {
      this.registry, this.signer, this.base := registry, signer, base;
      markers, stamped, queue := map[], {}, [];
    }

    /** Render and deliver one recipient. A mail that does not render leaves everything as it was; a
        mail that is not queued consumes nothing; a queued one consumes its tip, unless that write
        itself fails. */
    method SendToRecipient(digestId: Uuid, userId: Uuid, env: SendEnv, minted: Instant) returns (r: SendResult)
      modifies this
      ensures !Renders(signer, base, registry.entries, env) ==>
                r == Failed(false) && queue == old(queue) && markers == old(markers) && stamped == old(stamped)
      ensures Renders(signer, base, registry.entries, env) ==>
                var pick := Pick(env, old(markers), userId);
                var attempt := AttemptOf(env, pick);
                && r == ResultOf(env, pick)
                && queue == old(queue)
                   + (if Enqueues(r) then [Planned(signer.value, base, registry.entries, env, old(markers),
                                                   digestId, userId, minted)] else [])
                && markers == C.AfterAttempt(env.tips.value, old(markers), userId, env.groupKeys, attempt)
                && stamped == old(stamped) + if attempt.Delivered? && env.firstDigest then {(digestId, userId)} else {}
      ensures r.Sent? || r == Failed(true) ==>
                && signer.Some? && !Blank(base) && env.company.Some? && env.keys.Some? && env.tips.Some?
                && |queue| == |old(queue)| + 1 && queue[..|old(queue)|] == old(queue)
                && HoldsWhatItShould(queue[|old(queue)|], registry.entries, env, old(markers), digestId, userId)
      ensures r.Sent? ==>
                var tip := queue[|old(queue)|].tip;
                && (tip.Some? ==> (tip.value.id, userId) in markers)
                && (env.firstDigest ==> (digestId, userId) in stamped)
      ensures markers != old(markers) ==>
                && |queue| > |old(queue)| && queue[|old(queue)|].tip.Some?
                && markers == old(markers)[(queue[|old(queue)|].tip.value.id, userId) := false]
      ensures r.Sent? <==>
                && Renders(signer, base, registry.entries, env) && env.enqueue.Queued?
                && (C.Remaining(env.tips.value, old(markers), userId, env.groupKeys) != [] ==> env.markerWrites)
                && (env.firstDigest ==> env.stampWrites)
      ensures r == Failed(false) <==>
                || env.company.None? || signer.None? || Blank(base) || env.keys.None? || env.tips.None?
                || (exists i :: 0 <= i < |env.keys.value| &&
                      FateOf(registry.entries, env.company.value, env.compute, env.keys.value[i]) == Aborts)
                || env.enqueue == SeamFails(false)
      ensures r.Refused? || r == Failed(false) ==>
                queue == old(queue) && markers == old(markers) && stamped == old(stamped)
    {
      hide Mint, ListUnsubscribe, UnsubscribeUrl, Keep, FateOf, C.Remaining, Blank, HoldsWhatItShould;
      if env.company.None? || signer.None? || Blank(base) || env.keys.None? {
        return Failed(false);
      }
      var classes, calls := Classify(registry.entries, env.company.value, env.keys.value, env.compute);
      if classes.None? || env.tips.None? {
        return Failed(false);
      }
      var pick := C.PickTip(env.tips.value, markers, userId, env.groupKeys);
      var token := Mint(signer.value.hmac, signer.value.secret, digestId, userId, minted);
      var mail := OutgoingMail(digestId, userId, classes.value, pick, ListUnsubscribe(UnsubscribeUrl(base, token)));
      PlannedHolds(signer.value, base, registry.entries, env, markers, digestId, userId, minted);

      match env.enqueue {
        case SeamRefuses => return SendResult.Refused;
        case SeamFails(queued) =>
          if queued {
            queue := queue + [mail];
          }
          return Failed(queued);
        case Queued =>
          queue := queue + [mail];
      }
      if pick.Some? {
        if !env.markerWrites {
          return Failed(true);
        }
        if (pick.value.id, userId) !in markers {
          markers := markers[(pick.value.id, userId) := false];
        }
      }
      if env.firstDigest {
        if !env.stampWrites {
          return Failed(true);
        }
        stamped := stamped + {(digestId, userId)};
      }
      return Sent;
    }
  }
}
