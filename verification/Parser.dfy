/** The parser: one pass over the lines, updating the items it has already pushed. */
module Parser {
  import opened Wrappers
  import opened ParserModel

  // ------------------------------------------------------------------------------------------
  // How the declarative items change when one more line is read.

  /** Line `i`'s contribution is final once the lines before `n` are read. */
  predicate Settled(lines: seq<Line>, i: nat, n: nat)
    requires i < |lines|
  {
    lines[i].says.EpicHeading? ==> NextHeading(lines, i + 1) < n
  }

  lemma SettledAt(lines: seq<Line>, i: nat, n: nat, m: nat)
    requires i < |lines| && i < n <= m <= |lines| + 1 && Settled(lines, i, n)
    ensures ItemsAt(lines, i, n) == ItemsAt(lines, i, m)
  {
  }

  /** Between an epic's heading and the line being read there is no other heading. */
  lemma SectionOpen(lines: seq<Line>, h: nat, n: nat)
    requires h < n <= |lines| && forall k :: h < k < n ==> !IsHeading(lines[k].says)
    ensures NextHeading(lines, h + 1) >= n
    ensures n == |lines| || IsHeading(lines[n].says) ==> NextHeading(lines, h + 1) == n
    ensures n < |lines| && !IsHeading(lines[n].says) ==> NextHeading(lines, h + 1) > n
  {
  }

  /** Before the last heading everything is settled. */
  lemma BeforeLastHeading(lines: seq<Line>, h: nat, n: nat)
    requires h < n <= |lines| && IsHeading(lines[h].says)
    ensures forall i :: 0 <= i < h ==> Settled(lines, i, n)
  {
  }

  /** The item of the epic at `h` once the lines before `n` are read. */
  function OwnerItem(lines: seq<Line>, h: nat, n: nat): ParsedItem
    requires h < |lines| && h < n <= |lines| + 1 && lines[h].says.EpicHeading?
  {
    var e := NextHeading(lines, h + 1);
    if e < n then EpicFrom(lines, h, e, true) else EpicFrom(lines, h, n, false)
  }

  lemma FlattenSnoc<T>(parts: seq<seq<T>>, part: seq<T>)
    ensures Flatten(parts + [part]) == Flatten(parts) + part
  {
    assert (parts + [part])[..|parts|] == parts;
  }

  lemma {:induction false} FlattenUpdate<T>(parts: seq<seq<T>>, h: nat, x: T, y: T)
    requires h < |parts| && parts[h] == [x]
    ensures var pos := |Flatten(parts[..h])|;
      && pos < |Flatten(parts)| && Flatten(parts)[pos] == x
      && Flatten(parts[h := [y]]) == Flatten(parts)[pos := y]
  {
    var k := |parts| - 1;
    if h == k {
      assert parts[h := [y]][..k] == parts[..k];
    } else {
      FlattenUpdate(parts[..k], h, x, y);
      assert parts[..k][..h] == parts[..h];
      assert parts[h := [y]][..k] == parts[..k][h := [y]];
    }
  }

  lemma OwnerItemsAt(lines: seq<Line>, h: nat, n: nat)
    requires h < |lines| && h < n <= |lines| + 1 && lines[h].says.EpicHeading? && Accepted(lines, h)
    ensures ItemsAt(lines, h, n) == [OwnerItem(lines, h, n)]
  {
  }

  lemma SettledBefore(lines: seq<Line>, h: nat, n: nat, i: nat)
    requires i < n <= |lines| && Owner(lines, n) == Some(h) && i != h
    ensures ItemsAt(lines, i, n + 1) == ItemsAt(lines, i, n)
  {
    if i < h {
      BeforeLastHeading(lines, h, n);
    }
    SettledAt(lines, i, n, n + 1);
  }

  lemma PartsRefreshed(lines: seq<Line>, h: nat, n: nat)
    requires n <= |lines| && Owner(lines, n) == Some(h) && Accepted(lines, h)
    ensures Parts(lines, n, n + 1) == Parts(lines, n, n)[h := [OwnerItem(lines, h, n + 1)]]
    ensures Parts(lines, n, n)[h] == [OwnerItem(lines, h, n)]
  {
    OwnerItemsAt(lines, h, n);
    OwnerItemsAt(lines, h, n + 1);
    forall i | 0 <= i < n && i != h ensures ItemsAt(lines, i, n + 1) == ItemsAt(lines, i, n) {
      SettledBefore(lines, h, n, i);
    }
  }

  /** Reading line `n` updates the accepted owner's item, where it stands, and nothing else. */
  lemma OwnerRefreshed(lines: seq<Line>, h: nat, n: nat)
    requires n <= |lines| && Owner(lines, n) == Some(h) && Accepted(lines, h)
    ensures var pos := |ItemsUpTo(lines, h, n)|;
      && pos < |ItemsUpTo(lines, n, n)|
      && ItemsUpTo(lines, n, n)[pos] == OwnerItem(lines, h, n)
      && ItemsUpTo(lines, n, n + 1) == ItemsUpTo(lines, n, n)[pos := OwnerItem(lines, h, n + 1)]
  {
    PartsRefreshed(lines, h, n);
    FlattenUpdate(Parts(lines, n, n), h, OwnerItem(lines, h, n), OwnerItem(lines, h, n + 1));
    assert Parts(lines, n, n)[..h] == Parts(lines, h, n);
  }

  /** The place of an item does not depend on how far the reading has come. */
  lemma PlaceFixed(lines: seq<Line>, h: nat, n: nat)
    requires h < n <= |lines| && IsHeading(lines[h].says)
    ensures ItemsUpTo(lines, h, n + 1) == ItemsUpTo(lines, h, n)
  {
    BeforeLastHeading(lines, h, n);
    forall i | 0 <= i < h ensures ItemsAt(lines, i, n + 1) == ItemsAt(lines, i, n) {
      SettledAt(lines, i, n, n + 1);
    }
    assert Parts(lines, h, n + 1) == Parts(lines, h, n);
  }

  /** With no accepted owner, one more line changes nothing of what was read before it. */
  lemma NothingRefreshed(lines: seq<Line>, n: nat)
    requires n <= |lines|
    requires Owner(lines, n).Some? ==> !Accepted(lines, Owner(lines, n).value)
    ensures ItemsUpTo(lines, n, n + 1) == ItemsUpTo(lines, n, n)
  {
    forall i | 0 <= i < n ensures ItemsAt(lines, i, n + 1) == ItemsAt(lines, i, n) {
      NothingRefreshedAt(lines, i, n);
    }
    assert Parts(lines, n, n + 1) == Parts(lines, n, n);
  }

  lemma NothingRefreshedAt(lines: seq<Line>, i: nat, n: nat)
    requires i < n <= |lines|
    requires Owner(lines, n).Some? ==> !Accepted(lines, Owner(lines, n).value)
    ensures ItemsAt(lines, i, n + 1) == ItemsAt(lines, i, n)
  {
    if Settled(lines, i, n) {
      SettledAt(lines, i, n, n + 1);
    } else {
      assert LastHeading(lines, n) == Some(i);
    }
  }

  /** Line `n` adds its own contribution after the others. */
  lemma ItemsSnoc(lines: seq<Line>, n: nat)
    requires n < |lines|
    ensures ItemsUpTo(lines, n + 1, n + 1) == ItemsUpTo(lines, n, n + 1) + ItemsAt(lines, n, n + 1)
  {
    assert Parts(lines, n + 1, n + 1) == Parts(lines, n, n + 1) + [ItemsAt(lines, n, n + 1)];
    FlattenSnoc(Parts(lines, n, n + 1), ItemsAt(lines, n, n + 1));
  }

  // ------------------------------------------------------------------------------------------
  // The keys already seen.

  /** `seenKeys` as the lines before `n` leave it, when the items so far have these keys. */
  ghost predicate SeenOver(lines: seq<Line>, n: nat, keys: set<Key>, seen: map<Key, int>)
    requires n <= |lines|
  {
    && (forall k :: k in seen && !k.StoryKey? ==>
          FirstWith(lines, 0, k) < n && seen[k] == FirstWith(lines, 0, k) + 1)
    && (forall i :: 0 <= i < n && HeadingKey(lines[i].says).Some? ==> HeadingKey(lines[i].says).value in seen)
    && seen.Keys == keys
  }

  ghost predicate SeenFits(lines: seq<Line>, n: nat, seen: map<Key, int>)
    requires n <= |lines|
  {
    SeenOver(lines, n, KeysOf(ItemsUpTo(lines, n, n)), seen)
  }

  /** The epic whose section is being read, and its place among the items when it was accepted. */
  datatype CurrentEpic = CurrentEpic(item: ParsedItem, at: Option<nat>)

  datatype OpenItem = OpenItem(at: nat, bodyStart: nat)

  ghost function EpicAt(lines: seq<Line>, n: nat): Option<CurrentEpic>
    requires n <= |lines|
  {
    var h := Owner(lines, n);
    if h.None? then None
    else Some(CurrentEpic(EpicFrom(lines, h.value, n, false),
                          if Accepted(lines, h.value) then Some(|ItemsUpTo(lines, h.value, n)|) else None))
  }

  ghost function OpenAt(lines: seq<Line>, n: nat): Option<OpenItem>
    requires n <= |lines|
  {
    var h := Owner(lines, n);
    if h.None? || !Accepted(lines, h.value) then None
    else Some(OpenItem(|ItemsUpTo(lines, h.value, n)|, h.value + 1))
  }

  // ------------------------------------------------------------------------------------------
  // One more line.

  lemma KeysConcat(a: seq<ParsedItem>, b: seq<ParsedItem>)
    ensures KeysOf(a + b) == KeysOf(a) + KeysOf(b)
  {
    forall k | k in KeysOf(a) + KeysOf(b) ensures k in KeysOf(a + b) {
      if k in KeysOf(a) {
        var i :| 0 <= i < |a| && a[i].key == k;
        assert (a + b)[i].key == k;
      } else {
        var i :| 0 <= i < |b| && b[i].key == k;
        assert (a + b)[|a| + i].key == k;
      }
    }
  }

  lemma KeysUpdated(a: seq<ParsedItem>, at: nat, x: ParsedItem)
    requires at < |a| && a[at].key == x.key
    ensures KeysOf(a[at := x]) == KeysOf(a)
  {
    forall k | k in KeysOf(a) ensures k in KeysOf(a[at := x]) {
      var i :| 0 <= i < |a| && a[i].key == k;
      assert a[at := x][i].key == k;
    }
  }

  /** The items read so far, with the section of the accepted owner brought up to `item`. */
  ghost function Refreshed(lines: seq<Line>, n: nat, item: ParsedItem): seq<ParsedItem>
    requires n <= |lines|
  {
    var o := OpenAt(lines, n);
    var items := ItemsUpTo(lines, n, n);
    if o.Some? && o.value.at < |items| then items[o.value.at := item] else items
  }

  /** How the items grow by line `n`, and that the keys of the old ones stay. */
  lemma ItemsGrow(lines: seq<Line>, n: nat)
    requires n < |lines|
    ensures var h := Owner(lines, n);
      && ItemsUpTo(lines, n, n + 1)
         == (if h.Some? then Refreshed(lines, n, OwnerItem(lines, h.value, n + 1)) else ItemsUpTo(lines, n, n))
      && ItemsUpTo(lines, n + 1, n + 1) == ItemsUpTo(lines, n, n + 1) + ItemsAt(lines, n, n + 1)
      && KeysOf(ItemsUpTo(lines, n, n + 1)) == KeysOf(ItemsUpTo(lines, n, n))
      && (OpenAt(lines, n).Some? ==>
            && OpenAt(lines, n).value.at < |ItemsUpTo(lines, n, n)|
            && ItemsUpTo(lines, n, n)[OpenAt(lines, n).value.at] == OwnerItem(lines, h.value, n))
  {
    var h := Owner(lines, n);
    ItemsSnoc(lines, n);
    if h.Some? && Accepted(lines, h.value) {
      OwnerRefreshed(lines, h.value, n);
      KeysUpdated(ItemsUpTo(lines, n, n), |ItemsUpTo(lines, h.value, n)|, OwnerItem(lines, h.value, n + 1));
    } else {
      NothingRefreshed(lines, n);
    }
  }

  /** In an open section the owner's item is not closed yet; a heading closes it. */
  lemma OwnerItemIs(lines: seq<Line>, h: nat, n: nat)
    requires n <= |lines| && Owner(lines, n) == Some(h)
    ensures OwnerItem(lines, h, n) == EpicFrom(lines, h, n, false)
    ensures n < |lines| && !IsHeading(lines[n].says) ==>
      OwnerItem(lines, h, n + 1) == EpicFrom(lines, h, n + 1, false)
    ensures n == |lines| || IsHeading(lines[n].says) ==> OwnerItem(lines, h, n + 1) == EpicFrom(lines, h, n, true)
  {
    SectionOpen(lines, h, n);
  }

  /** What a line inside a section changes of its epic. */
  lemma SectionLine(lines: seq<Line>, h: nat, n: nat)
    requires h < n < |lines| && lines[h].says.EpicHeading?
    ensures var was, now := EpicFrom(lines, h, n, false), EpicFrom(lines, h, n + 1, false);
      match lines[n].says
      case PriorityLine(p) => now == was.(priority := Some(p))
      case SurfaceLine(w) => now == if ReadSurface(w).Some? then was.(surface := ReadSurface(w)) else was
      case VersionLine(v) =>
        now == if |v| <= TARGET_VERSION_MAX then was.(targetVersion := if v == "" then None else Some(v)) else was
      case DomainLine(d) => now == was.(parent := Some(DomainKey(d)))
      case _ => now == was
  {
  }

  lemma OwnerAfter(lines: seq<Line>, n: nat)
    requires n < |lines|
    ensures !IsHeading(lines[n].says) ==> Owner(lines, n + 1) == Owner(lines, n)
    ensures IsHeading(lines[n].says) ==> Owner(lines, n + 1) == if lines[n].says.EpicHeading? then Some(n) else None
  {
  }

  /** A line inside a section, or outside any: the open epic is refreshed, the rest stays. */
  lemma InSection(lines: seq<Line>, n: nat)
    requires n < |lines| && !IsHeading(lines[n].says)
    ensures var h := Owner(lines, n);
      && Owner(lines, n + 1) == h
      && OpenAt(lines, n + 1) == OpenAt(lines, n)
      && (h.None? ==> EpicAt(lines, n + 1) == None
                      && ItemsUpTo(lines, n + 1, n + 1) == ItemsUpTo(lines, n, n) + ItemsAt(lines, n, n + 1))
      && (h.Some? ==>
            var item := EpicFrom(lines, h.value, n + 1, false);
            && EpicAt(lines, n + 1) == Some(CurrentEpic(item, EpicAt(lines, n).value.at))
            && ItemsUpTo(lines, n + 1, n + 1) == Refreshed(lines, n, item) + ItemsAt(lines, n, n + 1))
  {
    var h := Owner(lines, n);
    OwnerAfter(lines, n);
    ItemsGrow(lines, n);
    if h.Some? {
      OwnerItemIs(lines, h.value, n);
      PlaceFixed(lines, h.value, n);
    }
  }

  /** A heading closes the open section. */
  lemma AtHeading(lines: seq<Line>, n: nat)
    requires n < |lines| && IsHeading(lines[n].says)
    ensures var h := Owner(lines, n);
      && ItemsUpTo(lines, n, n + 1)
         == (if h.Some? then Refreshed(lines, n, EpicFrom(lines, h.value, n, true)) else ItemsUpTo(lines, n, n))
      && ItemsUpTo(lines, n + 1, n + 1) == ItemsUpTo(lines, n, n + 1) + ItemsAt(lines, n, n + 1)
      && (OpenAt(lines, n).Some? ==>
            && OpenAt(lines, n).value.at < |ItemsUpTo(lines, n, n)|
            && ItemsUpTo(lines, n, n)[OpenAt(lines, n).value.at] == EpicFrom(lines, h.value, n, false))
      && (!lines[n].says.EpicHeading? ==> EpicAt(lines, n + 1) == None && OpenAt(lines, n + 1) == None)
      && (lines[n].says.EpicHeading? ==>
            && EpicAt(lines, n + 1) == Some(CurrentEpic(EpicFrom(lines, n, n + 1, false),
                 if Accepted(lines, n) then Some(|ItemsUpTo(lines, n, n + 1)|) else None))
            && OpenAt(lines, n + 1)
               == if Accepted(lines, n) then Some(OpenItem(|ItemsUpTo(lines, n, n + 1)|, n + 1)) else None)
  {
    hide EpicFrom, Accepted, ItemsAt, ItemsUpTo, Owner, Refreshed, OwnerItem, KeysOf;
    OwnerAfter(lines, n);
    ItemsGrow(lines, n);
    if Owner(lines, n).Some? {
      OwnerItemIs(lines, Owner(lines, n).value, n);
    }
  }

  // ------------------------------------------------------------------------------------------
  // Seen keys, one more line.

  /** How the keys of the items grow by line `n`. */
  lemma KeysGrow(lines: seq<Line>, n: nat)
    requires n < |lines|
    ensures KeysOf(ItemsUpTo(lines, n + 1, n + 1))
         == KeysOf(ItemsUpTo(lines, n, n)) + KeysOf(ItemsAt(lines, n, n + 1))
  {
    ItemsGrow(lines, n);
    KeysConcat(ItemsUpTo(lines, n, n + 1), ItemsAt(lines, n, n + 1));
  }

  lemma HeadingContributes(lines: seq<Line>, n: nat)
    requires n < |lines| && HeadingKey(lines[n].says).Some?
    ensures KeysOf(ItemsAt(lines, n, n + 1)) == if Accepted(lines, n) then {HeadingKey(lines[n].says).value} else {}
  {
    var items := ItemsAt(lines, n, n + 1);
    assert Accepted(lines, n) ==> |items| == 1 && items[0].key == HeadingKey(lines[n].says).value;
    assert !Accepted(lines, n) ==> items == [];
  }

  lemma SeenHeading(lines: seq<Line>, n: nat, seen: map<Key, int>)
    requires n < |lines| && SeenFits(lines, n, seen) && HeadingKey(lines[n].says).Some?
    ensures var key := HeadingKey(lines[n].says).value;
      && (key in seen <==> !Accepted(lines, n))
      && (key in seen ==> seen[key] == FirstWith(lines, 0, key) + 1)
      && SeenFits(lines, n + 1, if key in seen then seen else seen[key := n + 1])
  {
    KeysGrow(lines, n);
    HeadingContributes(lines, n);
    SeenHeadingKey(lines, n, KeysOf(ItemsUpTo(lines, n, n)), seen);
  }

  lemma SeenHeadingKey(lines: seq<Line>, n: nat, keys: set<Key>, seen: map<Key, int>)
    requires n < |lines| && SeenOver(lines, n, keys, seen) && HeadingKey(lines[n].says).Some?
    ensures var key := HeadingKey(lines[n].says).value;
      && (key in seen <==> !Accepted(lines, n))
      && (key in seen ==> seen[key] == FirstWith(lines, 0, key) + 1)
      && SeenOver(lines, n + 1, keys + (if Accepted(lines, n) then {key} else {}),
                  if key in seen then seen else seen[key := n + 1])
  {
    var key := HeadingKey(lines[n].says).value;
    assert !key.StoryKey?;
    assert FirstWith(lines, 0, key) <= n;
  }

  /** A line that declares nothing leaves the keys as they are. */
  lemma SeenQuiet(lines: seq<Line>, n: nat, seen: map<Key, int>)
    requires n < |lines| && SeenFits(lines, n, seen) && HeadingKey(lines[n].says).None?
    requires ItemsAt(lines, n, n + 1) == []
    ensures SeenFits(lines, n + 1, seen)
  {
    KeysGrow(lines, n);
    assert KeysOf([]) == {};
  }

  /** The keys of a story block are noted; keys noted before keep their line. */
  ghost predicate Noted(seen0: map<Key, int>, keys: set<Key>, seen: map<Key, int>) {
    seen.Keys == seen0.Keys + keys && forall k :: k in seen0 && k !in keys ==> seen[k] == seen0[k]
  }

  lemma NotedNone(seen: map<Key, int>)
    ensures Noted(seen, KeysOf([]), seen)
  {
  }

  lemma NotedMore(seen0: map<Key, int>, keys: set<Key>, seen: map<Key, int>, key: Key, line: nat)
    requires Noted(seen0, keys, seen)
    ensures Noted(seen0, keys + {key}, seen[key := line])
  {
  }

  lemma SeenStories(lines: seq<Line>, n: nat, seen: map<Key, int>, stories: seq<ParsedItem>, seen': map<Key, int>)
    requires n < |lines| && SeenFits(lines, n, seen) && lines[n].says.StoriesStart?
    requires ItemsAt(lines, n, n + 1) == stories
    requires forall k :: k in KeysOf(stories) ==> k.StoryKey?
    requires Noted(seen, KeysOf(stories), seen')
    ensures SeenFits(lines, n + 1, seen')
  {
    KeysGrow(lines, n);
  }

  // ------------------------------------------------------------------------------------------
  // The whole state, one more line: each lemma says what the parser has to do with the line.

  /** The items once the open section ends before line `end`. */
  function Closed(lines: seq<Line>, items: seq<ParsedItem>, open: Option<OpenItem>, end: nat): seq<ParsedItem>
    requires end <= |lines| && (open.Some? ==> open.value.bodyStart <= end)
  {
    if open.None? || open.value.at >= |items| then items
    else
      var at := open.value.at;
      var body := Excerpt(lines[open.value.bodyStart..end]);
      items[at := items[at].(body := body, hashed := Hashed(items[at].title, body))]
  }

  /** The items with the open epic's own item changed. */
  function Changed(items: seq<ParsedItem>, at: Option<nat>, item: ParsedItem): seq<ParsedItem> {
    if at.Some? && at.value < |items| then items[at.value := item] else items
  }

  /** The open item is the current epic's own, at its place among the items. */
  lemma OpenInside(lines: seq<Line>, n: nat)
    requires n <= |lines|
    ensures var o, c := OpenAt(lines, n), EpicAt(lines, n);
      && (o.Some? ==>
            && o.value.bodyStart <= n
            && o.value.at < |ItemsUpTo(lines, n, n)|
            && c.Some? && ItemsUpTo(lines, n, n)[o.value.at] == c.value.item)
      && (c.Some? ==> c.value.at == if o.Some? then Some(o.value.at) else None)
      && (c.Some? ==> Changed(ItemsUpTo(lines, n, n), c.value.at, c.value.item) == ItemsUpTo(lines, n, n))
  {
    var h := Owner(lines, n);
    if h.Some? && Accepted(lines, h.value) {
      OwnerRefreshed(lines, h.value, n);
      OwnerItemIs(lines, h.value, n);
    }
  }

  lemma ClosedItem(lines: seq<Line>, h: nat, n: nat)
    requires h < n <= |lines| && lines[h].says.EpicHeading?
    ensures var was := EpicFrom(lines, h, n, false);
      var body := Excerpt(lines[h + 1..n]);
      EpicFrom(lines, h, n, true) == was.(body := body, hashed := Hashed(was.title, body))
  {
  }

  lemma ClosedIs(lines: seq<Line>, n: nat)
    requires n < |lines| && IsHeading(lines[n].says)
    ensures OpenAt(lines, n).Some? ==> OpenAt(lines, n).value.bodyStart <= n
    ensures ItemsUpTo(lines, n, n + 1) == Closed(lines, ItemsUpTo(lines, n, n), OpenAt(lines, n), n)
  {
    AtHeading(lines, n);
    var h := Owner(lines, n);
    if h.Some? {
      ClosedItem(lines, h.value, n);
    }
  }

  /** The item a keyed heading declares, as the heading alone makes it. */
  function HeadingItem(lines: seq<Line>, n: nat): ParsedItem
    requires n < |lines| && HeadingKey(lines[n].says).Some?
  {
    match lines[n].says
    case DomainHeading(number, title) =>
      ParsedItem(DomainItem, DomainKey(number), None, title, None, None, None, None, title, n + 1)
    case CapabilityHeading(domain, number, title) =>
      ParsedItem(CapabilityItem, CapabilityKey(domain, number), Some(DomainKey(domain)), title,
                 None, None, None, None, title, n + 1)
    case EpicHeading(code, title) =>
      ParsedItem(EpicItem, EpicKey(code), CapabilityAt(lines, n).Or(DomainAt(lines, n)), title,
                 None, None, None, None, "", n + 1)
  }

  lemma HeadingItemIs(lines: seq<Line>, n: nat)
    requires n < |lines| && HeadingKey(lines[n].says).Some?
    ensures ItemsAt(lines, n, n + 1) == if Accepted(lines, n) then [HeadingItem(lines, n)] else []
    ensures lines[n].says.EpicHeading? ==> EpicFrom(lines, n, n + 1, false) == HeadingItem(lines, n)
  {
  }

  lemma HeadingStep(lines: seq<Line>, n: nat, seen: map<Key, int>)
    requires n < |lines| && HeadingKey(lines[n].says).Some? && SeenFits(lines, n, seen)
    requires OpenAt(lines, n).Some? ==> OpenAt(lines, n).value.bodyStart <= n
    ensures var item := HeadingItem(lines, n);
      var closed := Closed(lines, ItemsUpTo(lines, n, n), OpenAt(lines, n), n);
      var dup := item.key in seen;
      && ItemsUpTo(lines, n + 1, n + 1) == (if dup then closed else closed + [item])
      && DuplicateAt(lines, n) == (if dup then [DuplicateKey(item.key, n + 1, seen[item.key])] else [])
      && SeenFits(lines, n + 1, if dup then seen else seen[item.key := n + 1])
      && EpicAt(lines, n + 1) == (if item.kind.EpicItem?
           then Some(CurrentEpic(item, if dup then None else Some(|closed|))) else None)
      && OpenAt(lines, n + 1) == (if item.kind.EpicItem? && !dup then Some(OpenItem(|closed|, n + 1)) else None)
  {
    hide EpicFrom, Accepted, ItemsAt, ItemsUpTo, Owner, OpenAt, EpicAt, Closed, SeenFits, FirstWith, Refreshed;
    SeenHeading(lines, n, seen);
    ClosedIs(lines, n);
    AtHeading(lines, n);
    HeadingItemIs(lines, n);
  }

  lemma OtherHeadingStep(lines: seq<Line>, n: nat, seen: map<Key, int>)
    requires n < |lines| && lines[n].says.OtherHeading? && SeenFits(lines, n, seen)
    requires OpenAt(lines, n).Some? ==> OpenAt(lines, n).value.bodyStart <= n
    ensures ItemsUpTo(lines, n + 1, n + 1) == Closed(lines, ItemsUpTo(lines, n, n), OpenAt(lines, n), n)
    ensures EpicAt(lines, n + 1) == None && OpenAt(lines, n + 1) == None && SeenFits(lines, n + 1, seen)
  {
    ClosedIs(lines, n);
    AtHeading(lines, n);
    SeenQuiet(lines, n, seen);
  }

  /** What a line inside a section makes of its epic. */
  function About(epic: ParsedItem, r: Reading): ParsedItem {
    match r
    case PriorityLine(p) => epic.(priority := Some(p))
    case SurfaceLine(w) => if ReadSurface(w).Some? then epic.(surface := ReadSurface(w)) else epic
    case VersionLine(v) =>
      if |v| <= TARGET_VERSION_MAX then epic.(targetVersion := if v == "" then None else Some(v)) else epic
    case DomainLine(d) => epic.(parent := Some(DomainKey(d)))
    case _ => epic
  }

  lemma SectionStep(lines: seq<Line>, n: nat)
    requires n < |lines| && !IsHeading(lines[n].says)
    ensures var c := EpicAt(lines, n);
      && OpenAt(lines, n + 1) == OpenAt(lines, n)
      && EpicAt(lines, n + 1)
         == (if c.None? then None else Some(CurrentEpic(About(c.value.item, lines[n].says), c.value.at)))
      && ItemsUpTo(lines, n + 1, n + 1)
         == (if c.None? then ItemsUpTo(lines, n, n)
             else Changed(ItemsUpTo(lines, n, n), c.value.at, About(c.value.item, lines[n].says)))
            + ItemsAt(lines, n, n + 1)
  {
    InSection(lines, n);
    OpenInside(lines, n);
    var h := Owner(lines, n);
    if h.Some? {
      SectionLine(lines, h.value, n);
    }
  }

  /** A line that is neither heading nor story block. */
  lemma QuietStep(lines: seq<Line>, n: nat, seen: map<Key, int>)
    requires n < |lines| && !IsHeading(lines[n].says) && !lines[n].says.StoriesStart? && SeenFits(lines, n, seen)
    ensures var c := EpicAt(lines, n);
      && OpenAt(lines, n + 1) == OpenAt(lines, n)
      && EpicAt(lines, n + 1)
         == (if c.None? then None else Some(CurrentEpic(About(c.value.item, lines[n].says), c.value.at)))
      && ItemsUpTo(lines, n + 1, n + 1)
         == (if c.None? then ItemsUpTo(lines, n, n)
             else Changed(ItemsUpTo(lines, n, n), c.value.at, About(c.value.item, lines[n].says)))
      && SeenFits(lines, n + 1, seen)
  {
    SectionStep(lines, n);
    assert ItemsAt(lines, n, n + 1) == [];
    SeenQuiet(lines, n, seen);
  }

  /** What the line changes of the headings' context and of the project. */
  lemma ContextStep(lines: seq<Line>, n: nat)
    requires n < |lines|
    ensures DomainAt(lines, n + 1)
         == if lines[n].says.DomainHeading? then Some(DomainKey(lines[n].says.number)) else DomainAt(lines, n)
    ensures CapabilityAt(lines, n + 1)
         == if lines[n].says.DomainHeading? then None
            else if lines[n].says.CapabilityHeading?
            then Some(CapabilityKey(lines[n].says.domain, lines[n].says.number))
            else CapabilityAt(lines, n)
    ensures ProjectAt(lines, n + 1)
         == ProjectAt(lines, n).Or(if lines[n].says.ProjectLine? then Some(lines[n].says.name) else None)
  {
  }

  lemma DomainsStep(lines: seq<Line>, n: nat)
    requires n < |lines|
    ensures DomainsNamed(lines, n + 1)
         == DomainsNamed(lines, n) + (if lines[n].says.DomainLine? && EpicAt(lines, n).Some?
                                      then {DomainKey(lines[n].says.number)} else {})
  {
  }

  /** The issues of line `n`, told from the state the parser has reached. */
  function IssuesOf(
    r: Reading, n: nat, domain: Option<Key>, project: Option<string>, epic: Option<CurrentEpic>,
    duplicate: seq<Issue>, noStory: bool): seq<Issue>
  {
    match r
    case DomainHeading(_, _) => duplicate
    case CapabilityHeading(d, c, _) =>
      (if domain.Some? && domain.value != DomainKey(d) then
         [CapabilityElsewhere(CapabilityKey(d, c), n + 1, domain.value)]
       else []) + duplicate
    case EpicHeading(_, _) => duplicate
    case ProjectLine(name) =>
      if project.Some? && project.value != name then [TwoProjects(project.value, name, n + 1)] else []
    case SurfaceLine(word) =>
      if epic.Some? && ReadSurface(word).None? then [UnknownSurface(epic.value.item.key, n + 1)] else []
    case VersionLine(version) =>
      if epic.Some? && |version| > TARGET_VERSION_MAX then [VersionTooLong(epic.value.item.key, n + 1)] else []
    case StoriesStart => if epic.Some? && noStory then [EmptyStoryBlock(epic.value.item.key, n + 1)] else []
    case _ => []
  }

  lemma IssuesStep(lines: seq<Line>, n: nat)
    requires n < |lines|
    ensures IssuesUpTo(lines, n + 1)
         == IssuesUpTo(lines, n)
            + IssuesOf(lines[n].says, n, DomainAt(lines, n), ProjectAt(lines, n), EpicAt(lines, n),
                       DuplicateAt(lines, n), StoryLines(lines, n + 1, 0) == [])
  {
    hide DomainAt, ProjectAt, DuplicateAt, StoryLines;
    assert IssuesUpTo(lines, n + 1) == IssuesUpTo(lines, n) + IssuesAt(lines, n);
  }

  lemma KeysSnoc(items: seq<ParsedItem>, k: nat)
    requires k < |items|
    ensures KeysOf(items[..k + 1]) == KeysOf(items[..k]) + {items[k].key}
    ensures items[..k + 1] == items[..k] + [items[k]]
  {
    assert items[..k + 1] == items[..k] + [items[k]];
    KeysConcat(items[..k], [items[k]]);
    assert KeysOf([items[k]]) == {items[k].key} by {
      assert [items[k]][0].key == items[k].key;
    }
  }

  /** One line of the scan for the list of a story block. */
  lemma StoryScan(lines: seq<Line>, c: nat, index: nat, cs: seq<nat>)
    requires c < |lines| && index <= |cs| && cs[index..] == StoryLines(lines, c, index)
    ensures var r := lines[c].says;
      if IsHeading(r) || (!r.Numbered? && !r.Blank? && index > 0) then index == |cs|
      else if r.Numbered? then index < |cs| && cs[index] == c && cs[index + 1..] == StoryLines(lines, c + 1, index + 1)
      else cs[index..] == StoryLines(lines, c + 1, index)
  {
    if index < |cs| {
      assert cs[index] == cs[index..][0];
      assert cs[index + 1..] == cs[index..][1..];
    }
  }

  lemma StoryScanEnds(lines: seq<Line>, index: nat, cs: seq<nat>)
    requires index <= |cs|
    ensures cs[index..] == StoryLines(lines, |lines|, index) ==> index == |cs|
  {
  }

  lemma StoriesAt(lines: seq<Line>, epic: ParsedItem, code: string, cs: seq<nat>, k: nat)
    requires forall k :: 0 <= k < |cs| ==> cs[k] < |lines| && lines[cs[k]].says.Numbered?
    requires k < |cs|
    ensures Stories(lines, epic, code, cs)[k] == Story(epic, code, k + 1, lines[cs[k]], cs[k] + 1)
  {
  }

  lemma OneMoreStory(stories: seq<ParsedItem>, k: nat, seen0: map<Key, int>, seen: map<Key, int>, line: nat)
    requires k < |stories| && Noted(seen0, KeysOf(stories[..k]), seen)
    ensures stories[..k] + [stories[k]] == stories[..k + 1]
    ensures Noted(seen0, KeysOf(stories[..k + 1]), seen[stories[k].key := line])
  {
    KeysSnoc(stories, k);
    NotedMore(seen0, KeysOf(stories[..k]), seen, stories[k].key, line);
  }

  lemma StoryKeys(lines: seq<Line>, epic: ParsedItem, code: string, cs: seq<nat>)
    requires forall k :: 0 <= k < |cs| ==> cs[k] < |lines| && lines[cs[k]].says.Numbered?
    ensures forall k :: k in KeysOf(Stories(lines, epic, code, cs)) ==> k.StoryKey?
    ensures |Stories(lines, epic, code, cs)| == 0 <==> cs == []
  {
  }

  lemma StoryBlockStep(lines: seq<Line>, n: nat, seen: map<Key, int>)
    requires n < |lines| && lines[n].says.StoriesStart? && SeenFits(lines, n, seen)
    ensures var c := EpicAt(lines, n);
      && OpenAt(lines, n + 1) == OpenAt(lines, n)
      && EpicAt(lines, n + 1) == c
      && (c.None? ==> ItemsUpTo(lines, n + 1, n + 1) == ItemsUpTo(lines, n, n) && SeenFits(lines, n + 1, seen))
      && (c.Some? ==>
            && c.value.item.key.EpicKey?
            && var stories := Stories(lines, c.value.item, c.value.item.key.code, StoryLines(lines, n + 1, 0));
            && ItemsUpTo(lines, n + 1, n + 1) == ItemsUpTo(lines, n, n) + stories
            && ItemsAt(lines, n, n + 1) == stories)
  {
    SectionStep(lines, n);
    OpenInside(lines, n);
    if EpicAt(lines, n).None? {
      assert ItemsAt(lines, n, n + 1) == [];
      SeenQuiet(lines, n, seen);
    }
  }

  lemma AtTheEnd(lines: seq<Line>, seen: map<Key, int>)
    requires SeenFits(lines, |lines|, seen)
    ensures OpenAt(lines, |lines|).Some? ==> OpenAt(lines, |lines|).value.bodyStart <= |lines|
    ensures Items(lines) == Closed(lines, ItemsUpTo(lines, |lines|, |lines|), OpenAt(lines, |lines|), |lines|)
    ensures seen.Keys == KeysOf(Items(lines))
  {
    hide EpicFrom, ItemsUpTo;
    var n := |lines|;
    var h := Owner(lines, n);
    OpenInside(lines, n);
    if h.Some? && Accepted(lines, h.value) {
      OwnerRefreshed(lines, h.value, n);
      OwnerItemIs(lines, h.value, n);
      ClosedItem(lines, h.value, n);
      KeysUpdated(ItemsUpTo(lines, n, n), OpenAt(lines, n).value.at, EpicFrom(lines, h.value, n, true));
    } else {
      NothingRefreshed(lines, n);
    }
  }

  class ReferenceParser {
    const lines: seq<Line>
    var items: seq<ParsedItem>
    var issues: seq<Issue>
    var currentDomain: Option<Key>
    var currentCapability: Option<Key>
    var currentEpic: Option<CurrentEpic>
    var openItem: Option<OpenItem>
    var seenKeys: map<Key, int>
    var declaredDomainCodes: set<Key>
    var project: Option<string>

    /** The state is what the lines before `n` declare. */
    ghost predicate Read(n: nat)
      requires n <= |lines|
      reads this
    {
      && currentDomain == DomainAt(lines, n)
      && currentCapability == CapabilityAt(lines, n)
      && SeenFits(lines, n, seenKeys)
      && declaredDomainCodes == DomainsNamed(lines, n)
      && project == ProjectAt(lines, n)
      && issues == IssuesUpTo(lines, n)
      && items == ItemsUpTo(lines, n, n)
      && currentEpic == EpicAt(lines, n)
      && openItem == OpenAt(lines, n)
    }

    constructor (lines: seq<Line>)
      ensures this.lines == lines && Read(0)
    {
      this.lines := lines;
      items, issues := [], [];
      currentDomain, currentCapability, currentEpic, openItem := None, None, None, None;
      seenKeys, declaredDomainCodes, project := map[], {}, None;
    }

    /** Ends the open section before line `end`: its body and its hash are now known. */
    method CloseOpenItem(end: nat)
      requires end <= |lines|
      requires openItem.Some? ==> openItem.value.at < |items| && openItem.value.bodyStart <= end
      modifies this`items, this`openItem
      ensures openItem == None && items == Closed(lines, old(items), old(openItem), end)
    {
      if openItem.None? { return; }
      var at := openItem.value.at;
      var body := Excerpt(lines[openItem.value.bodyStart..end]);
      items := items[at := items[at].(body := body, hashed := Hashed(items[at].title, body))];
      openItem := None;
    }

    /** Files an item under its key, or reports that the key is taken. */
    method Push(item: ParsedItem, bodyStart: Option<nat>)
      modifies this`items, this`issues, this`seenKeys, this`openItem
      ensures if item.key in old(seenKeys) then
          && issues == old(issues) + [DuplicateKey(item.key, item.line, old(seenKeys)[item.key])]
          && items == old(items) && seenKeys == old(seenKeys) && openItem == old(openItem)
        else
          && issues == old(issues)
          && items == old(items) + [item] && seenKeys == old(seenKeys)[item.key := item.line]
          && openItem == if bodyStart.Some? then Some(OpenItem(|old(items)|, bodyStart.value)) else old(openItem)
    {
      if item.key in seenKeys {
        issues := issues + [DuplicateKey(item.key, item.line, seenKeys[item.key])];
        return;
      }
      seenKeys := seenKeys[item.key := item.line];
      if bodyStart.Some? {
        openItem := Some(OpenItem(|items|, bodyStart.value));
      }
      items := items + [item];
    }

    /** Changes the open epic, and its item when it was accepted: in the source they are one object. */
    method SetEpic(item: ParsedItem)
      requires currentEpic.Some?
      requires currentEpic.value.at.Some? ==> currentEpic.value.at.value < |items|
      modifies this`items, this`currentEpic
      ensures currentEpic == Some(CurrentEpic(item, old(currentEpic).value.at))
      ensures items == Changed(old(items), old(currentEpic).value.at, item)
    {
      if currentEpic.value.at.Some? {
        items := items[currentEpic.value.at.value := item];
      }
      currentEpic := Some(CurrentEpic(item, currentEpic.value.at));
    }

    method ReadDomain(i: nat)
      requires i < |lines| && Read(i) && lines[i].says.DomainHeading?
      modifies this
      ensures Read(i + 1)
    {
      hide ItemsUpTo, SeenFits, IssuesUpTo, DomainsNamed, DomainAt, CapabilityAt, ProjectAt, EpicAt, OpenAt;
      hide DuplicateAt, StoryLines, Closed;
      OpenInside(lines, i);
      HeadingStep(lines, i, seenKeys);
      ContextStep(lines, i);
      DomainsStep(lines, i);
      IssuesStep(lines, i);
      CloseOpenItem(i);
      var key := DomainKey(lines[i].says.number);
      currentDomain := Some(key);
      currentCapability := None;
      currentEpic := None;
      Push(ParsedItem(DomainItem, key, None, lines[i].says.title, None, None, None, None, lines[i].says.title, i + 1),
           None);
    }

    method ReadCapability(i: nat)
      requires i < |lines| && Read(i) && lines[i].says.CapabilityHeading?
      modifies this
      ensures Read(i + 1)
    {
      hide ItemsUpTo, SeenFits, IssuesUpTo, DomainsNamed, DomainAt, CapabilityAt, ProjectAt, EpicAt, OpenAt;
      hide DuplicateAt, StoryLines, Closed;
      OpenInside(lines, i);
      HeadingStep(lines, i, seenKeys);
      ContextStep(lines, i);
      DomainsStep(lines, i);
      IssuesStep(lines, i);
      CloseOpenItem(i);
      var key := CapabilityKey(lines[i].says.domain, lines[i].says.number);
      var parent := DomainKey(lines[i].says.domain);
      if currentDomain.Some? && currentDomain.value != parent {
        issues := issues + [CapabilityElsewhere(key, i + 1, currentDomain.value)];
      }
      currentCapability := Some(key);
      currentEpic := None;
      Push(ParsedItem(CapabilityItem, key, Some(parent), lines[i].says.title,
                      None, None, None, None, lines[i].says.title, i + 1), None);
    }

    method ReadEpic(i: nat)
      requires i < |lines| && Read(i) && lines[i].says.EpicHeading?
      modifies this
      ensures Read(i + 1)
    {
      hide ItemsUpTo, SeenFits, IssuesUpTo, DomainsNamed, DomainAt, CapabilityAt, ProjectAt, EpicAt, OpenAt;
      hide DuplicateAt, StoryLines, Closed;
      OpenInside(lines, i);
      HeadingStep(lines, i, seenKeys);
      ContextStep(lines, i);
      DomainsStep(lines, i);
      IssuesStep(lines, i);
      CloseOpenItem(i);
      var key := EpicKey(lines[i].says.code);
      var epic := ParsedItem(EpicItem, key, currentCapability.Or(currentDomain), lines[i].says.title,
                             None, None, None, None, "", i + 1);
      currentEpic := Some(CurrentEpic(epic, if key in seenKeys then None else Some(|items|)));
      Push(epic, Some(i + 1));
    }

    /** Any other heading closes the section collecting a body. */
    method ReadOtherHeading(i: nat)
      requires i < |lines| && Read(i) && lines[i].says.OtherHeading?
      modifies this
      ensures Read(i + 1)
    {
      hide ItemsUpTo, SeenFits, IssuesUpTo, DomainsNamed, DomainAt, CapabilityAt, ProjectAt, EpicAt, OpenAt;
      hide DuplicateAt, StoryLines, Closed;
      OpenInside(lines, i);
      OtherHeadingStep(lines, i, seenKeys);
      ContextStep(lines, i);
      DomainsStep(lines, i);
      IssuesStep(lines, i);
      CloseOpenItem(i);
      currentEpic := None;
    }

    /** A line that speaks about the epic whose section it stands in. */
    method ReadAboutEpic(i: nat)
      requires i < |lines| && Read(i)
      requires var r := lines[i].says; r.PriorityLine? || r.SurfaceLine? || r.VersionLine? || r.DomainLine?
      modifies this
      ensures Read(i + 1)
    {
      hide ItemsUpTo, SeenFits, IssuesUpTo, DomainsNamed, DomainAt, CapabilityAt, ProjectAt, EpicAt, OpenAt;
      hide DuplicateAt, StoryLines, Closed;
      OpenInside(lines, i);
      QuietStep(lines, i, seenKeys);
      ContextStep(lines, i);
      DomainsStep(lines, i);
      IssuesStep(lines, i);
      if currentEpic.None? { return; }
      var epic := currentEpic.value.item;
      match lines[i].says
      case PriorityLine(priority) =>
        SetEpic(epic.(priority := Some(priority)));
      case SurfaceLine(word) =>
        var surface := ReadSurface(word);
        if surface.Some? {
          SetEpic(epic.(surface := surface));
        } else {
          issues := issues + [UnknownSurface(epic.key, i + 1)];
        }
      case VersionLine(version) =>
        if |version| > TARGET_VERSION_MAX {
          issues := issues + [VersionTooLong(epic.key, i + 1)];
        } else {
          SetEpic(epic.(targetVersion := if version == "" then None else Some(version)));
        }
      case DomainLine(number) =>
        var domain := DomainKey(number);
        SetEpic(epic.(parent := Some(domain)));
        declaredDomainCodes := declaredDomainCodes + {domain};
    }

    /** The project is declared once; the first declaration is kept. */
    method ReadProject(i: nat)
      requires i < |lines| && Read(i) && lines[i].says.ProjectLine?
      modifies this
      ensures Read(i + 1)
    {
      hide ItemsUpTo, SeenFits, IssuesUpTo, DomainsNamed, DomainAt, CapabilityAt, ProjectAt, EpicAt, OpenAt;
      hide DuplicateAt, StoryLines, Closed;
      OpenInside(lines, i);
      QuietStep(lines, i, seenKeys);
      ContextStep(lines, i);
      DomainsStep(lines, i);
      IssuesStep(lines, i);
      var name := lines[i].says.name;
      if project.None? {
        project := Some(name);
      } else if project.value != name {
        issues := issues + [TwoProjects(project.value, name, i + 1)];
      }
    }

    /** The numbered list after « User stories : », until it stops; the loop only looks ahead. */
    method ScanStories(i: nat, epic: ParsedItem) returns (index: nat)
      requires i < |lines| && epic.key.EpicKey?
      modifies this`items, this`seenKeys
      ensures var stories := Stories(lines, epic, epic.key.code, StoryLines(lines, i + 1, 0));
        && index == |stories|
        && items == old(items) + stories
        && Noted(old(seenKeys), KeysOf(stories), seenKeys)
    {
      hide KeysOf, Noted, Story, Stories, StoryLines;
      ghost var cs := StoryLines(lines, i + 1, 0);
      ghost var stories := Stories(lines, epic, epic.key.code, cs);
      NotedNone(seenKeys);
      var block: seq<ParsedItem>, seen: map<Key, int> := [], seenKeys;
      var cursor := i + 1;
      while cursor < |lines|
        modifies {}
        invariant i < cursor <= |lines| && |block| <= |cs| && cs[|block|..] == StoryLines(lines, cursor, |block|)
        invariant block == stories[..|block|]
        invariant Noted(seenKeys, KeysOf(block), seen)
      {
        StoryScan(lines, cursor, |block|, cs);
        var candidate := lines[cursor];
        if IsHeading(candidate.says) { break; }
        if candidate.says.Numbered? {
          var story := Story(epic, epic.key.code, |block| + 1, candidate, cursor + 1);
          StoriesAt(lines, epic, epic.key.code, cs, |block|);
          OneMoreStory(stories, |block|, seenKeys, seen, cursor + 1);
          block := block + [story];
          seen := seen[story.key := cursor + 1];
        } else if !candidate.says.Blank? && |block| > 0 {
          break;
        }
        cursor := cursor + 1;
      }
      StoryScanEnds(lines, |block|, cs);
      assert block == stories;
      index := |block|;
      items := items + block;
      seenKeys := seen;
    }

    method ReadStories(i: nat)
      requires i < |lines| && Read(i) && lines[i].says.StoriesStart?
      modifies this
      ensures Read(i + 1)
    {
      hide ItemsUpTo, SeenFits, IssuesUpTo, DomainsNamed, DomainAt, CapabilityAt, ProjectAt, EpicAt, OpenAt;
      hide DuplicateAt, Closed, Stories, StoryLines;
      StoryBlockStep(lines, i, seenKeys);
      ContextStep(lines, i);
      DomainsStep(lines, i);
      IssuesStep(lines, i);
      if currentEpic.None? { return; }
      var epic := currentEpic.value.item;
      ghost var stories := Stories(lines, epic, epic.key.code, StoryLines(lines, i + 1, 0));
      ghost var seen0 := seenKeys;
      var index := ScanStories(i, epic);
      StoryKeys(lines, epic, epic.key.code, StoryLines(lines, i + 1, 0));
      SeenStories(lines, i, seen0, stories, seenKeys);
      if index == 0 {
        issues := issues + [EmptyStoryBlock(epic.key, i + 1)];
      }
    }

    method ReadLine(i: nat)
      requires i < |lines| && Read(i)
      modifies this
      ensures Read(i + 1)
    {
      hide ItemsUpTo, SeenFits, IssuesUpTo, DomainsNamed, DomainAt, CapabilityAt, ProjectAt, EpicAt, OpenAt;
      hide DuplicateAt, Closed;
      match lines[i].says
      case DomainHeading(_, _) => ReadDomain(i);
      case CapabilityHeading(_, _, _) => ReadCapability(i);
      case EpicHeading(_, _) => ReadEpic(i);
      case OtherHeading => ReadOtherHeading(i);
      case ProjectLine(_) => ReadProject(i);
      case StoriesStart => ReadStories(i);
      case Numbered(_, _) => ReadNothing(i);
      case Blank => ReadNothing(i);
      case Prose => ReadNothing(i);
      case PriorityLine(_) => ReadAboutEpic(i);
      case SurfaceLine(_) => ReadAboutEpic(i);
      case VersionLine(_) => ReadAboutEpic(i);
      case DomainLine(_) => ReadAboutEpic(i);
    }

    /** Prose and list items matter only to the section's excerpt and to a story block before them. */
    ghost method ReadNothing(i: nat)
      requires i < |lines| && Read(i)
      requires var r := lines[i].says; r.Numbered? || r.Blank? || r.Prose?
      ensures Read(i + 1)
    {
      hide ItemsUpTo, SeenFits, IssuesUpTo, DomainsNamed, DomainAt, CapabilityAt, ProjectAt, EpicAt, OpenAt;
      hide DuplicateAt, Closed;
      OpenInside(lines, i);
      QuietStep(lines, i, seenKeys);
      ContextStep(lines, i);
      DomainsStep(lines, i);
      IssuesStep(lines, i);
    }

    /** The whole document: exactly the items and issues of its declarative segmentation. */
    method Parse()
      requires Read(0)
      modifies this
      ensures items == Items(lines) && issues == Issues(lines) && project == ProjectAt(lines, |lines|)
    {
      hide ItemsUpTo, SeenFits, IssuesUpTo, DomainsNamed, DomainAt, CapabilityAt, ProjectAt, EpicAt, OpenAt;
      hide DuplicateAt, Closed;
      for i := 0 to |lines|
        invariant Read(i)
      {
        ReadLine(i);
      }
      AtTheEnd(lines, seenKeys);
      OpenInside(lines, |lines|);
      CloseOpenItem(|lines|);
      if items == [] {
        issues := issues + [NothingRecognised];
      }
      ghost var read := issues;
      for k := 0 to |items|
        invariant items == Items(lines) && seenKeys.Keys == KeysOf(items)
        invariant declaredDomainCodes == DomainsNamed(lines, |lines|) && project == ProjectAt(lines, |lines|)
        invariant issues == read + MissingParents(items, k, KeysOf(items) + DomainsNamed(lines, |lines|))
      {
        var item := items[k];
        if item.parent.Some? && item.parent.value !in seenKeys && item.parent.value !in declaredDomainCodes {
          issues := issues + [MissingParent(item.key, item.parent.value, item.line)];
        }
      }
    }
  }
}
