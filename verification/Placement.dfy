/**
 * Where an item of an execution manifest belongs in the referential: its domain and capability,
 * found by walking up its declared parents.
 */
module Placement {
  import opened Wrappers

  datatype ItemKind = DomainItem | CapabilityItem | EpicItem | StoryItem

  datatype ManifestItem = ManifestItem(
    kind: ItemKind,
    sourceKey: string,
    parentKey: Option<string>,
    title: string,
    body: Option<string>,
    priority: Option<string>,
    surface: Option<string>,
    targetVersion: Option<string>,
    excerptHash: string)

  datatype Capability = Capability(id: string, domainId: string)

  /** The registered taxonomy: domain ids and capabilities, by code. */
  datatype Registry = Registry(domains: map<string, string>, capabilities: map<string, Capability>)

  datatype Refusal = Cycle(around: string) | UnknownParent(key: string)

  datatype Placing =
    | Placed(domainId: Option<string>, capabilityId: Option<string>)
    | Refused(why: Refusal)

  type Manifest = map<string, ManifestItem>

  /** What `new Map(items.map(i => [i.sourceKey, i]))` guarantees. */
  ghost predicate Keyed(byKey: Manifest) {
    forall k :: k in byKey ==> byKey[k].sourceKey == k
  }

  /** An empty string is falsy in the source, exactly like a missing parent. */
  predicate HasParent(item: ManifestItem) {
    item.parentKey.Some? && item.parentKey.value != ""
  }

  /** What one node of the chain decides: the answer, or the next node up. */
  datatype Hop = Settled(answer: Placing) | Climb(parent: ManifestItem)

  function HopFrom(item: ManifestItem, byKey: Manifest, reg: Registry): Hop {
    if !HasParent(item) then Settled(Placed(None, None))
    else
      var key := item.parentKey.value;
      if key in reg.capabilities then
        Settled(Placed(Some(reg.capabilities[key].domainId), Some(reg.capabilities[key].id)))
      else if key in reg.domains then Settled(Placed(Some(reg.domains[key]), None))
      else if key in byKey then Climb(byKey[key])
      else Settled(Refused(UnknownParent(key)))
  }

  /** The walk as a function: `seen` holds the keys of the nodes already left. */
  function ResolveFrom(cursor: ManifestItem, seen: set<string>, byKey: Manifest, reg: Registry): Placing
    requires Keyed(byKey)
    decreases (byKey.Keys + {cursor.sourceKey}) - seen
  {
    if HasParent(cursor) && cursor.sourceKey in seen then Refused(Cycle(cursor.sourceKey))
    else
      match HopFrom(cursor, byKey, reg)
      case Settled(answer) => answer
      case Climb(parent) =>
        assert cursor.sourceKey in (byKey.Keys + {cursor.sourceKey}) - seen;
        ResolveFrom(parent, seen + {cursor.sourceKey}, byKey, reg)
  }

  function Resolve(item: ManifestItem, byKey: Manifest, reg: Registry): Placing
    requires Keyed(byKey)
  {
    ResolveFrom(item, {}, byKey, reg)
  }

  method ResolvePlacement(item: ManifestItem, byKey: Manifest, reg: Registry) returns (r: Placing)
    requires Keyed(byKey)
    ensures r == Resolve(item, byKey, reg)
  {
    var cursor := item;
    var seen: set<string> := {};
    while HasParent(cursor)
      invariant ResolveFrom(cursor, seen, byKey, reg) == Resolve(item, byKey, reg)
      decreases (byKey.Keys + {cursor.sourceKey}) - seen
    {
      if cursor.sourceKey in seen {
        return Refused(Cycle(cursor.sourceKey));
      }
      assert cursor.sourceKey in (byKey.Keys + {cursor.sourceKey}) - seen;
      seen := seen + {cursor.sourceKey};

      var parentKey := cursor.parentKey.value;
      if parentKey in reg.capabilities {
        var capability := reg.capabilities[parentKey];
        return Placed(Some(capability.domainId), Some(capability.id));
      }
      if parentKey in reg.domains {
        return Placed(Some(reg.domains[parentKey]), None);
      }
      if parentKey !in byKey {
        return Refused(UnknownParent(parentKey));
      }
      cursor := byKey[parentKey];
    }
    return Placed(None, None);
  }

  // ------------------------------------------------------------------------------------------
  // The declarative reading: the n-th ancestor, and the ancestor at which the chain settles.

  /** The item names a parent that only the manifest holds. */
  predicate HangsOn(item: ManifestItem, byKey: Manifest, reg: Registry) {
    && HasParent(item)
    && item.parentKey.value !in reg.capabilities && item.parentKey.value !in reg.domains
    && item.parentKey.value in byKey
  }

  /** The n-th ancestor of an item, counting only manifest items no registry entry cuts off. */
  function Ancestor(item: ManifestItem, n: nat, byKey: Manifest, reg: Registry): Option<ManifestItem> {
    if n == 0 then Some(item)
    else
      match Ancestor(item, n - 1, byKey, reg)
      case None => None
      case Some(a) => if HangsOn(a, byKey, reg) then Some(byKey[a.parentKey.value]) else None
  }

  /**
   * What an item itself says of its place: none without a parent, a registered capability with its domain,
   * a registered domain that is no capability's code, or a parent nobody knows.
   */
  predicate Says(item: ManifestItem, answer: Placing, byKey: Manifest, reg: Registry) {
    match answer
    case Placed(None, None) => !HasParent(item)
    case Placed(Some(domain), Some(capability)) =>
      HasParent(item) && item.parentKey.value in reg.capabilities &&
      reg.capabilities[item.parentKey.value] == Capability(capability, domain)
    case Placed(Some(domain), None) =>
      HasParent(item) && item.parentKey.value !in reg.capabilities && item.parentKey.value in reg.domains &&
      reg.domains[item.parentKey.value] == domain
    case Refused(UnknownParent(key)) =>
      HasParent(item) && item.parentKey.value == key &&
      key !in reg.capabilities && key !in reg.domains && key !in byKey
    case _ => false
  }

  /** The chain of `item` ends at its n-th ancestor, and says `answer` there. */
  predicate SettlesAt(item: ManifestItem, n: nat, answer: Placing, byKey: Manifest, reg: Registry) {
    var a := Ancestor(item, n, byKey, reg);
    a.Some? && Says(a.value, answer, byKey, reg)
  }

  ghost predicate Endless(item: ManifestItem, byKey: Manifest, reg: Registry) {
    forall n: nat :: Ancestor(item, n, byKey, reg).Some?
  }

  /** The item the walk starts from is the one the manifest holds under its key. */
  predicate Listed(item: ManifestItem, byKey: Manifest) {
    item.sourceKey in byKey && byKey[item.sourceKey] == item
  }

  lemma {:induction false} AncestorStep(item: ManifestItem, n: nat, byKey: Manifest, reg: Registry)
    requires HopFrom(item, byKey, reg).Climb?
    ensures Ancestor(item, n + 1, byKey, reg)
         == Ancestor(HopFrom(item, byKey, reg).parent, n, byKey, reg)
  {
    if n == 0 {
      assert Ancestor(item, 0, byKey, reg) == Some(item);
    } else {
      AncestorStep(item, n - 1, byKey, reg);
    }
  }

  /** Two equal ancestors have equal ancestors for ever after. */
  lemma {:induction false} SameForward(item: ManifestItem, m: nat, n: nat, d: nat, byKey: Manifest, reg: Registry)
    requires Ancestor(item, m, byKey, reg) == Ancestor(item, n, byKey, reg)
    ensures Ancestor(item, m + d, byKey, reg) == Ancestor(item, n + d, byKey, reg)
  {
    if d > 0 {
      SameForward(item, m, n, d - 1, byKey, reg);
    }
  }

  lemma {:induction false} EarlierExists(item: ManifestItem, m: nat, n: nat, byKey: Manifest, reg: Registry)
    requires m <= n && Ancestor(item, n, byKey, reg).Some?
    ensures Ancestor(item, m, byKey, reg).Some?
    decreases n
  {
    if m < n {
      EarlierExists(item, m, n - 1, byKey, reg);
    }
  }

  /** A chain that comes back to where it was never ends. */
  lemma {:induction false} RepeatIsEndless(item: ManifestItem, m: nat, n: nat, k: nat, byKey: Manifest, reg: Registry)
    requires m < n && Ancestor(item, n, byKey, reg).Some?
    requires Ancestor(item, m, byKey, reg) == Ancestor(item, n, byKey, reg)
    ensures Ancestor(item, k, byKey, reg).Some?
    decreases k
  {
    if k <= n {
      EarlierExists(item, k, n, byKey, reg);
    } else {
      RepeatIsEndless(item, m, n, k - (n - m), byKey, reg);
      SameForward(item, m, n, k - n, byKey, reg);
    }
  }

  /** `seen` is exactly the keys of the first n ancestors. */
  ghost predicate SeenSoFar(item: ManifestItem, n: nat, seen: set<string>, byKey: Manifest, reg: Registry) {
    && (forall k :: k in seen ==> exists m: nat ::
          m < n && Ancestor(item, m, byKey, reg).Some? && Ancestor(item, m, byKey, reg).value.sourceKey == k)
    && (forall m: nat :: m < n && Ancestor(item, m, byKey, reg).Some? ==>
          Ancestor(item, m, byKey, reg).value.sourceKey in seen)
  }

  /** The n-th ancestor has a parent, and the key of the m-th before it. */
  predicate RepeatsAt(item: ManifestItem, m: nat, n: nat, byKey: Manifest, reg: Registry) {
    var a, b := Ancestor(item, m, byKey, reg), Ancestor(item, n, byKey, reg);
    m < n && a.Some? && b.Some? && HasParent(b.value) && a.value.sourceKey == b.value.sourceKey
  }

  /** The chain comes back to the key it started from, at an ancestor that has a parent. */
  ghost predicate ReturnsToStart(item: ManifestItem, byKey: Manifest, reg: Registry) {
    exists n: nat :: RepeatsAt(item, 0, n, byKey, reg)
  }

  /** Every ancestor but the item itself is the one the manifest holds under its key. */
  lemma {:induction false} AncestorListed(item: ManifestItem, n: nat, byKey: Manifest, reg: Registry)
    requires Keyed(byKey) && Ancestor(item, n, byKey, reg).Some?
    ensures n > 0 || Listed(item, byKey) ==> Listed(Ancestor(item, n, byKey, reg).value, byKey)
    ensures n > 0 ==> var a := Ancestor(item, n - 1, byKey, reg);
              a.Some? && a.value.parentKey == Some(Ancestor(item, n, byKey, reg).value.sourceKey)
  {
  }

  /** What the walk says of the chain: a repetition, or where it settles without one. */
  ghost predicate Means(item: ManifestItem, r: Placing, byKey: Manifest, reg: Registry) {
    if r.Refused? && r.why.Cycle? then exists m: nat, n: nat :: RepeatsAt(item, m, n, byKey, reg)
    else exists k: nat :: SettlesAt(item, k, r, byKey, reg) && NoRepeatUpTo(item, k, byKey, reg)
  }

  ghost predicate NoRepeatUpTo(item: ManifestItem, k: nat, byKey: Manifest, reg: Registry) {
    forall m: nat, n: nat :: n <= k ==> !RepeatsAt(item, m, n, byKey, reg)
  }

  lemma {:induction false} ResolveFromMeaning(
    item: ManifestItem, n: nat, cursor: ManifestItem, seen: set<string>, byKey: Manifest, reg: Registry)
    requires Keyed(byKey)
    requires Ancestor(item, n, byKey, reg) == Some(cursor)
    requires SeenSoFar(item, n, seen, byKey, reg)
    requires n > 0 ==> NoRepeatUpTo(item, n - 1, byKey, reg)
    ensures Means(item, ResolveFrom(cursor, seen, byKey, reg), byKey, reg)
    decreases (byKey.Keys + {cursor.sourceKey}) - seen
  {
    if HasParent(cursor) && cursor.sourceKey in seen {
      var m: nat :| m < n && Ancestor(item, m, byKey, reg).Some?
                 && Ancestor(item, m, byKey, reg).value.sourceKey == cursor.sourceKey;
      assert RepeatsAt(item, m, n, byKey, reg);
    } else {
      assert NoRepeatUpTo(item, n, byKey, reg);
      match HopFrom(cursor, byKey, reg)
      case Settled(answer) =>
        assert SettlesAt(item, n, answer, byKey, reg);
      case Climb(parent) =>
        assert Ancestor(item, n + 1, byKey, reg) == Some(parent);
        assert cursor.sourceKey in (byKey.Keys + {cursor.sourceKey}) - seen;
        ResolveFromMeaning(item, n + 1, parent, seen + {cursor.sourceKey}, byKey, reg);
    }
  }

  lemma {:induction false} SettlesOnce(
    item: ManifestItem, m: nat, a: Placing, n: nat, b: Placing, byKey: Manifest, reg: Registry)
    requires SettlesAt(item, m, a, byKey, reg) && SettlesAt(item, n, b, byKey, reg)
    ensures m == n && a == b
  {
    if m < n {
      EarlierExists(item, m + 1, n, byKey, reg);
    } else if n < m {
      EarlierExists(item, n + 1, m, byKey, reg);
    }
  }

  /** A repetition not of the start makes the chain endless: it is of one listed item. */
  lemma RepeatMeans(item: ManifestItem, m: nat, n: nat, byKey: Manifest, reg: Registry)
    requires Keyed(byKey) && RepeatsAt(item, m, n, byKey, reg)
    ensures Endless(item, byKey, reg) || ReturnsToStart(item, byKey, reg)
    ensures m > 0 || Listed(item, byKey) ==> Endless(item, byKey, reg)
  {
    AncestorListed(item, n, byKey, reg);
    AncestorListed(item, m, byKey, reg);
    if m > 0 || Listed(item, byKey) {
      forall k: nat ensures Ancestor(item, k, byKey, reg).Some? {
        RepeatIsEndless(item, m, n, k, byKey, reg);
      }
    }
  }

  predicate IsCycle(r: Placing) {
    r.Refused? && r.why.Cycle?
  }

  /**
   * For every item, listed or not: a cycle is reported exactly when the chain has no end or comes back
   * to the key it started from, and any other answer is that of the nearest ancestor at which the
   * chain settles.
   */
  lemma ResolveExactly(item: ManifestItem, answer: Placing, byKey: Manifest, reg: Registry)
    requires Keyed(byKey) && !IsCycle(answer)
    ensures IsCycle(Resolve(item, byKey, reg)) <==> Endless(item, byKey, reg) || ReturnsToStart(item, byKey, reg)
    ensures Resolve(item, byKey, reg) == answer <==>
            !ReturnsToStart(item, byKey, reg) && exists n: nat :: SettlesAt(item, n, answer, byKey, reg)
  {
    var r := Resolve(item, byKey, reg);
    ResolveFromMeaning(item, 0, item, {}, byKey, reg);
    if IsCycle(r) {
      var m: nat, n: nat :| RepeatsAt(item, m, n, byKey, reg);
      RepeatMeans(item, m, n, byKey, reg);
      if Endless(item, byKey, reg) {
        forall n: nat ensures !SettlesAt(item, n, answer, byKey, reg) {
          assert Ancestor(item, n + 1, byKey, reg).Some?;
        }
      }
    } else {
      var k: nat :| SettlesAt(item, k, r, byKey, reg) && NoRepeatUpTo(item, k, byKey, reg);
      assert Ancestor(item, k + 1, byKey, reg) == None;
      forall n: nat ensures !RepeatsAt(item, 0, n, byKey, reg) {
        if n > k && Ancestor(item, n, byKey, reg).Some? {
          EarlierExists(item, k + 1, n, byKey, reg);
        }
      }
      forall n: nat | SettlesAt(item, n, answer, byKey, reg) ensures answer == r {
        SettlesOnce(item, k, r, n, answer, byKey, reg);
      }
    }
  }

  /**
   * The walk finds the nearest ancestor at which the chain settles, and reports a cycle exactly when
   * there is none, for every item that the manifest holds under its key or whose key no ancestor has.
   */
  lemma ResolveIsNearest(item: ManifestItem, answer: Placing, byKey: Manifest, reg: Registry)
    requires Keyed(byKey) && !IsCycle(answer)
    requires Listed(item, byKey) || !ReturnsToStart(item, byKey, reg)
    ensures Resolve(item, byKey, reg) == answer <==> exists n: nat :: SettlesAt(item, n, answer, byKey, reg)
    ensures IsCycle(Resolve(item, byKey, reg)) <==> Endless(item, byKey, reg)
  {
    ResolveExactly(item, answer, byKey, reg);
    if ReturnsToStart(item, byKey, reg) {
      var n: nat :| RepeatsAt(item, 0, n, byKey, reg);
      RepeatMeans(item, 0, n, byKey, reg);
      forall n: nat ensures !SettlesAt(item, n, answer, byKey, reg) {
        assert Ancestor(item, n + 1, byKey, reg).Some?;
      }
    }
  }

  /** A key that nothing declares as its parent is not come back to. */
  lemma UnnamedNeverReturns(item: ManifestItem, byKey: Manifest, reg: Registry)
    requires Keyed(byKey) && item.parentKey != Some(item.sourceKey)
    requires forall k :: k in byKey ==> byKey[k].parentKey != Some(item.sourceKey)
    ensures !ReturnsToStart(item, byKey, reg)
  {
    forall n: nat ensures !RepeatsAt(item, 0, n, byKey, reg) {
      if n > 0 && Ancestor(item, n, byKey, reg).Some? {
        AncestorListed(item, n, byKey, reg);
        AncestorListed(item, n - 1, byKey, reg);
      }
    }
  }

  /** Two placings that may differ only in the key a cycle is named after. */
  predicate SamePlacing(a: Placing, b: Placing) {
    a == b || (IsCycle(a) && IsCycle(b))
  }

  /** A story under an unregistered epic is placed where its epic is, and fails when its epic does. */
  lemma StoryFollowsEpic(story: ManifestItem, epic: ManifestItem, byKey: Manifest, reg: Registry)
    requires Keyed(byKey) && (Listed(story, byKey) || !ReturnsToStart(story, byKey, reg))
    requires HangsOn(story, byKey, reg) && byKey[story.parentKey.value] == epic
    ensures SamePlacing(Resolve(story, byKey, reg), Resolve(epic, byKey, reg))
  {
    assert Listed(epic, byKey);
    var r := Resolve(epic, byKey, reg);
    ResolveIsNearest(epic, Placed(None, None), byKey, reg);
    ResolveIsNearest(story, Placed(None, None), byKey, reg);
    if IsCycle(r) {
      forall n: nat ensures Ancestor(story, n, byKey, reg).Some? {
        if n > 0 { AncestorStep(story, n - 1, byKey, reg); }
      }
    } else {
      ResolveIsNearest(epic, r, byKey, reg);
      ResolveIsNearest(story, r, byKey, reg);
      var n: nat :| SettlesAt(epic, n, r, byKey, reg);
      AncestorStep(story, n, byKey, reg);
      assert SettlesAt(story, n + 1, r, byKey, reg);
    }
  }

  /**
   * The hypothesis is needed: with two items under one key, a chain that does end is reported as a
   * cycle when it comes back to that key.
   */
  lemma DuplicateKeyFalseCycle()
    ensures exists item: ManifestItem, byKey: Manifest, reg: Registry ::
      && Keyed(byKey) && !Listed(item, byKey) && ReturnsToStart(item, byKey, reg)
      && SettlesAt(item, 2, Refused(UnknownParent("Z")), byKey, reg)
      && Resolve(item, byKey, reg) == Refused(Cycle("A"))
  {
    var first := ManifestItem(EpicItem, "A", Some("B"), "", None, None, None, None, "");
    var middle := first.(sourceKey := "B", parentKey := Some("A"));
    var last := first.(parentKey := Some("Z"));
    var byKey: Manifest := map["A" := last, "B" := middle];
    var reg := Registry(map[], map[]);
    assert HopFrom(first, byKey, reg) == Climb(middle);
    assert HopFrom(middle, byKey, reg) == Climb(last);
    assert Ancestor(first, 1, byKey, reg) == Some(middle);
    assert Ancestor(first, 2, byKey, reg) == Some(last);
    assert SettlesAt(first, 2, Refused(UnknownParent("Z")), byKey, reg);
    assert RepeatsAt(first, 0, 2, byKey, reg);
    assert ResolveFrom(last, {} + {"A"} + {"B"}, byKey, reg) == Refused(Cycle("A"));
    assert ResolveFrom(middle, {} + {"A"}, byKey, reg) == Refused(Cycle("A"));
    assert Resolve(first, byKey, reg) == Refused(Cycle("A"));
  }
}
