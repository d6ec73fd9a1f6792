/** KPIs: the registry, the fence each declares, and the classification of a digest's enabled keys
    for one recipient. */
module Kpi {
  import opened Common

  datatype Fence = SharedData | CompanyData | PinnedCompanyData(company: Uuid)

  /** The drop decision, from the declaration and the recipient's company alone. */
  predicate RendersFor(fence: Fence, company: Option<Uuid>) {
    match fence
    case SharedData => true
    case CompanyData => company.Some?
    case PinnedCompanyData(pinned) => company == Some(pinned)
  }

  datatype Definition = Definition(name: string, title: string, fence: Fence)

  const PREFIX := "kpi_"

  type Entries = map<string, Definition>

  // ---- the registry -----------------------------------------------------------------------

  /** A taken name is a panic, not an answer. */
  datatype Registration = Registered | BadPrefix | DuplicatePanic

  predicate WellNamed(entries: Entries) {
    forall name :: name in entries ==> PREFIX <= name && entries[name].name == name
  }

  class KpiRegistry {
    var entries: Entries

    constructor ()
      ensures entries == map[]
    {
      entries := map[];
    }

    /** Names keep their prefix and their first definition for good. */
    method Register(def: Definition) returns (r: Registration)
      requires WellNamed(entries)
      modifies this
      ensures WellNamed(entries)
      ensures r == if !("kpi_" <= def.name) then BadPrefix
                   else if def.name in old(entries) then DuplicatePanic else Registered
      ensures entries == if r == Registered then old(entries)[def.name := def] else old(entries)
    {
      if !(PREFIX <= def.name) {
        return BadPrefix;
      }
      if def.name in entries {
        return DuplicatePanic;
      }
      entries := entries[def.name := def];
      return Registered;
    }
  }

  // ---- one key ----------------------------------------------------------------------------

  /** One compute over one window: a value, a source this composition does not have, or trouble. */
  datatype Computed = Value(number: int) | Unavailable | Trouble

  const WINDOWS := 3

  /** What the computer of a key answers for a window, current (true) or previous period. */
  type Computer = (string, nat, bool) -> Computed

  /** Where a key ends up; `Aborts` fails the whole render. */
  datatype Fate = Rendered | OutOfFence | Dropped | Aborts

  predicate WindowComputes(compute: Computer, key: string, w: nat) {
    compute(key, w, true).Value? && compute(key, w, false).Value?
  }

  /** A missing source on either side hides trouble on the other. */
  predicate WindowUnavailable(compute: Computer, key: string, w: nat) {
    compute(key, w, true).Unavailable? || compute(key, w, false).Unavailable?
  }

  /** Where a key ends up after its windows from `w` on. */
  function FateFrom(compute: Computer, key: string, w: nat): Fate
    decreases WINDOWS - w
  {
    if w >= WINDOWS then Rendered
    else if WindowUnavailable(compute, key, w) then Dropped
    else if !WindowComputes(compute, key, w) then Aborts
    else FateFrom(compute, key, w + 1)
  }

  function FateOf(entries: Entries, company: Option<Uuid>, compute: Computer, key: string): Fate {
    if key !in entries then Dropped
    else if !RendersFor(entries[key].fence, company) then OutOfFence
    else FateFrom(compute, key, 0)
  }

  /** Whether the first window that does not compute is `w`. */
  predicate FirstGap(compute: Computer, key: string, w: nat) {
    w < WINDOWS && !WindowComputes(compute, key, w) && forall v :: 0 <= v < w ==> WindowComputes(compute, key, v)
  }

  lemma {:induction false} FateFromByFirstGap(compute: Computer, key: string, w: nat)
    requires w <= WINDOWS && forall v :: 0 <= v < w ==> WindowComputes(compute, key, v)
    ensures FateFrom(compute, key, w) == Rendered
       <==> forall v :: 0 <= v < WINDOWS ==> WindowComputes(compute, key, v)
    ensures FateFrom(compute, key, w) == Dropped
       <==> exists v :: FirstGap(compute, key, v) && WindowUnavailable(compute, key, v)
    ensures FateFrom(compute, key, w) == Aborts
       <==> exists v :: FirstGap(compute, key, v) && !WindowUnavailable(compute, key, v)
    decreases WINDOWS - w
  {
    if w < WINDOWS && WindowComputes(compute, key, w) {
      FateFromByFirstGap(compute, key, w + 1);
    } else if w < WINDOWS {
      assert FirstGap(compute, key, w);
      assert forall v :: FirstGap(compute, key, v) ==> v == w;
    }
  }

  /** A key renders exactly when it is registered, in fence, and all its windows compute; its fence
      decides before anything is computed; and among the computed, the first gap decides. */
  lemma FateByWindows(entries: Entries, company: Option<Uuid>, compute: Computer, key: string)
    ensures var inFence := key in entries && RendersFor(entries[key].fence, company);
            var fate := FateOf(entries, company, compute, key);
            && (fate == OutOfFence <==> key in entries && !inFence)
            && (fate == Rendered <==> inFence && forall v :: 0 <= v < WINDOWS ==> WindowComputes(compute, key, v))
            && (fate == Aborts <==>
                  inFence && exists v :: && FirstGap(compute, key, v)
                                         && !compute(key, v, true).Unavailable?
                                         && !compute(key, v, false).Unavailable?)
            && (fate == Dropped <==>
                  key !in entries
                  || (inFence && exists v :: && FirstGap(compute, key, v)
                                             && (|| compute(key, v, true).Unavailable?
                                                 || compute(key, v, false).Unavailable?)))
  {
    FateFromByFirstGap(compute, key, 0);
  }

  /** Who sees a key's values: a render computes nothing outside the fence and needs all six answers. A
      pinned company's key is rendered for recipients of that company only, a company's key only for
      recipients with a company; and a key is out of fence exactly when its fence says so. */
  lemma FencesHold(entries: Entries, company: Option<Uuid>, compute: Computer, key: string)
    ensures FateOf(entries, company, compute, key) == Rendered <==>
              && key in entries
              && (entries[key].fence.CompanyData? ==> company.Some?)
              && (entries[key].fence.PinnedCompanyData? ==> company == Some(entries[key].fence.company))
              && forall w: nat, current :: w < 3 ==> compute(key, w, current).Value?
    ensures FateOf(entries, company, compute, key) == OutOfFence <==>
              && key in entries
              && match entries[key].fence
                 case SharedData => false
                 case CompanyData => company == None
                 case PinnedCompanyData(pinned) => company != Some(pinned)
  {
    FateByWindows(entries, company, compute, key);
    if forall w: nat, current :: w < 3 ==> compute(key, w, current).Value? {
      assert forall v :: 0 <= v < WINDOWS ==> WindowComputes(compute, key, v);
    }
    if forall v :: 0 <= v < WINDOWS ==> WindowComputes(compute, key, v) {
      forall w: nat, current | w < 3
        ensures compute(key, w, current).Value?
      {
        assert WindowComputes(compute, key, w);
      }
    }
  }

  // ---- all keys ---------------------------------------------------------------------------

  datatype Classes = Classes(rendered: seq<string>, outOfFence: seq<string>, dropped: seq<string>)

  /** The keys with one fate, in order. */
  function Keep(
    entries: Entries, company: Option<Uuid>, compute: Computer, keys: seq<string>, fate: Fate): seq<string>
  {
    if keys == [] then []
    else
      var last := keys[|keys| - 1];
      Keep(entries, company, compute, keys[..|keys| - 1], fate)
      + if FateOf(entries, company, compute, last) == fate then [last] else []
  }

  datatype Call = Call(key: string, window: nat, current: bool)

  /** The classification loop: None when a key aborts the render. `calls` is every compute made. */
  method Classify(entries: Entries, company: Option<Uuid>, keys: seq<string>, compute: Computer)
    returns (r: Option<Classes>, calls: seq<Call>)
    ensures r.None? <==> exists i :: 0 <= i < |keys| && FateOf(entries, company, compute, keys[i]) == Aborts
    ensures r.Some? ==> r.value == Classes(Keep(entries, company, compute, keys, Rendered),
                                           Keep(entries, company, compute, keys, OutOfFence),
                                           Keep(entries, company, compute, keys, Dropped))
    ensures forall c :: c in calls ==> c.key in entries && RendersFor(entries[c.key].fence, company)
    ensures forall c :: c in calls && entries[c.key].fence.PinnedCompanyData? ==>
              company == Some(entries[c.key].fence.company)
  {
    calls := [];
    var rendered, outOfFence, dropped := [], [], [];
    var i := 0;
    while i < |keys|
      invariant 0 <= i <= |keys|
      invariant forall k :: 0 <= k < i ==> FateOf(entries, company, compute, keys[k]) != Aborts
      invariant rendered == Keep(entries, company, compute, keys[..i], Rendered)
      invariant outOfFence == Keep(entries, company, compute, keys[..i], OutOfFence)
      invariant dropped == Keep(entries, company, compute, keys[..i], Dropped)
      invariant forall c :: c in calls ==> c.key in entries && RendersFor(entries[c.key].fence, company)
    {
      var key := keys[i];
      assert keys[..i + 1][..i] == keys[..i];
      i := i + 1;
      if key !in entries {
        dropped := dropped + [key];
        continue;
      }
      if !RendersFor(entries[key].fence, company) {
        outOfFence := outOfFence + [key];
        continue;
      }
      var w := 0;
      var unavailable := false;
      while w < WINDOWS && !unavailable
        invariant 0 <= w <= WINDOWS
        invariant FateFrom(compute, key, 0) == if unavailable then Dropped else FateFrom(compute, key, w)
        invariant forall c :: c in calls ==> c.key in entries && RendersFor(entries[c.key].fence, company)
        decreases WINDOWS - w, !unavailable
      {
        var current, previous := compute(key, w, true), compute(key, w, false);
        calls := calls + [Call(key, w, true), Call(key, w, false)];
        if current.Value? && previous.Value? {
          w := w + 1;
        } else if current.Unavailable? || previous.Unavailable? {
          unavailable := true;
        } else {
          return None, calls;
        }
      }
      if unavailable {
        dropped := dropped + [key];
      } else {
        rendered := rendered + [key];
      }
    }
    assert keys[..|keys|] == keys;
    r := Some(Classes(rendered, outOfFence, dropped));
  }

  /** A list holds its keys as often as they are enabled, and no others: so when no key aborts, the
      three lists share out the enabled keys. */
  lemma {:induction false} KeepCounts(
    entries: Entries, company: Option<Uuid>, compute: Computer, keys: seq<string>, fate: Fate, key: string)
    ensures multiset(Keep(entries, company, compute, keys, fate))[key]
         == if FateOf(entries, company, compute, key) == fate then multiset(keys)[key] else 0
    decreases |keys|
  {
    if keys != [] {
      var before, last := keys[..|keys| - 1], keys[|keys| - 1];
      assert keys == before + [last];
      KeepCounts(entries, company, compute, before, fate, key);
    }
  }

  lemma ClassesPartition(entries: Entries, company: Option<Uuid>, compute: Computer, keys: seq<string>, key: string)
    requires forall i :: 0 <= i < |keys| ==> FateOf(entries, company, compute, keys[i]) != Aborts
    ensures multiset(Keep(entries, company, compute, keys, Rendered))[key]
            + multiset(Keep(entries, company, compute, keys, OutOfFence))[key]
            + multiset(Keep(entries, company, compute, keys, Dropped))[key] == multiset(keys)[key]
  {
    KeepCounts(entries, company, compute, keys, Rendered, key);
    KeepCounts(entries, company, compute, keys, OutOfFence, key);
    KeepCounts(entries, company, compute, keys, Dropped, key);
    assert key in multiset(keys) ==> key in keys;
  }

  ghost predicate OrderedBy(keys: seq<string>, before: (string, string) -> bool) {
    forall i, j :: 0 <= i < j < |keys| ==> before(keys[i], keys[j])
  }

  lemma OrderedParts(front: seq<string>, last: string, before: (string, string) -> bool)
    ensures OrderedBy(front + [last], before)
       <==> OrderedBy(front, before) && forall key :: key in front ==> before(key, last)
  {
    var all := front + [last];
    assert forall i :: 0 <= i < |front| ==> all[i] == front[i];
    if OrderedBy(all, before) {
      forall key | key in front
        ensures before(key, last)
      {
        var i :| 0 <= i < |front| && front[i] == key;
        assert before(all[i], all[|front|]);
      }
    }
  }

  /** The lists keep the order of the enabled keys, whatever relation orders those. */
  lemma {:induction false} KeepsOrder(
    entries: Entries, company: Option<Uuid>, compute: Computer, keys: seq<string>, fate: Fate,
    before: (string, string) -> bool)
    requires OrderedBy(keys, before)
    ensures OrderedBy(Keep(entries, company, compute, keys, fate), before)
    decreases |keys|
  {
    hide OrderedBy, FateOf;
    if keys == [] {
      NoKeysOrdered(before);
    } else {
      var front, last := keys[..|keys| - 1], keys[|keys| - 1];
      assert keys == front + [last];
      OrderedParts(front, last, before);
      KeepsOrder(entries, company, compute, front, fate, before);
      var kept := Keep(entries, company, compute, front, fate);
      forall key | key in kept
        ensures before(key, last)
      {
        KeepCounts(entries, company, compute, front, fate, key);
        assert key in multiset(kept);
      }
      OrderedParts(kept, last, before);
      assert kept + [] == kept;
    }
  }

  lemma NoKeysOrdered(before: (string, string) -> bool)
    ensures OrderedBy([], before)
  {
  }

  /** Two computers that answer, miss and fail alike, with any values. */
  ghost predicate SameShape(a: Computer, b: Computer) {
    forall key: string, w: nat, current: bool ::
      && (a(key, w, current).Value? <==> b(key, w, current).Value?)
      && (a(key, w, current).Unavailable? <==> b(key, w, current).Unavailable?)
  }

  lemma {:induction false} ShapeFixesFate(a: Computer, b: Computer, key: string, w: nat)
    requires SameShape(a, b)
    ensures FateFrom(a, key, w) == FateFrom(b, key, w)
    decreases WINDOWS - w
  {
    if w < WINDOWS {
      ShapeFixesFate(a, b, key, w + 1);
    }
  }

  /** The values never matter, zeros included: the lists depend on declarations and availability. */
  lemma {:induction false} ValuesDoNotMatter(
    entries: Entries, company: Option<Uuid>, a: Computer, b: Computer, keys: seq<string>, fate: Fate)
    requires SameShape(a, b)
    ensures Keep(entries, company, a, keys, fate) == Keep(entries, company, b, keys, fate)
    decreases |keys|
  {
    if keys != [] {
      ShapeFixesFate(a, b, keys[|keys| - 1], 0);
      ValuesDoNotMatter(entries, company, a, b, keys[..|keys| - 1], fate);
    }
  }
}
