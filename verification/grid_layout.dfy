/**
 * The layout bookkeeping of the draggable video grid
 * (frontend/src/components/DraggableVideoGrid.jsx): the default cell of
 * each participant, the effect that keeps the stored layout's ids in step
 * with the participant list, and the focus toggle.
 */
module GridLayout {
  import opened Wrappers
  import opened Text

  type Id = string

  /** A react-grid-layout item: the tile of participant `i`. */
  datatype Item = Item(
    i: Id,
    x: nat, y: nat, w: nat, h: nat,
    minW: nat, minH: nat, maxW: nat, maxH: nat,
    isDraggable: bool, isResizable: bool)

  /** The layouts object, one item list per breakpoint name; only "lg" is written. */
  type Layouts = map<string, seq<Item>>

  const Lg := "lg"

  /** The default item of the participant at `index`. */
  function DefaultItem(id: Id, index: nat, mobile: bool): Item {
    if mobile then Item(id, index % 2, index / 2, 1, 1, 1, 1, 2, 2, false, false)
    else if index == 0 then Item(id, 0, 0, 2, 2, 1, 1, 4, 4, true, true)
    else if index <= 4 then Item(id, (index - 1) % 3, (index - 1) / 3 + 2, 1, 1, 1, 1, 3, 3, true, true)
    else Item(id, (index - 5) % 4, (index - 5) / 4 + 4, 1, 1, 1, 1, 2, 2, true, true)
  }

  /** `defaultLayouts.lg`: one item per participant, in participant order. */
  function DefaultLayout(ids: seq<Id>, mobile: bool): (r: seq<Item>)
    ensures |r| == |ids|
    ensures forall k :: 0 <= k < |ids| ==> r[k].i == ids[k]
    ensures forall k :: 0 <= k < |ids| ==> r[k] == DefaultItem(ids[k], k, mobile)
  {
    seq(|ids|, k requires 0 <= k < |ids| => DefaultItem(ids[k], k, mobile))
  }

  /** Whether `item` covers the grid cell in column `cx`, row `cy`. */
  predicate Covers(item: Item, cx: int, cy: int) {
    item.x <= cx < item.x + item.w && item.y <= cy < item.y + item.h
  }

  /** On mobile the tiles fill a two-column grid row by row, fixed and 1x1. */
  lemma MobilePlacement(ids: seq<Id>, k: nat)
    requires k < |ids|
    ensures var item := DefaultLayout(ids, true)[k];
            item.x == k % 2 && item.x < 2 && item.y == k / 2 && item.w == 1 && item.h == 1
            && !item.isDraggable && !item.isResizable
            && item.y * 2 + item.x == k
  {
  }

  /** On desktop the first tile is 2x2 in the corner, the next four fill rows 2-3 three to a row, the rest rows 4 and up four to a row. */
  lemma DesktopPlacement(ids: seq<Id>, k: nat)
    requires k < |ids|
    ensures var item := DefaultLayout(ids, false)[k];
            item.isDraggable && item.isResizable
            && (k == 0 ==> item.x == 0 && item.y == 0 && item.w == 2 && item.h == 2)
            && (k > 0 ==> item.w == 1 && item.h == 1)
            && (1 <= k <= 4 ==> item.x < 3 && 2 <= item.y <= 3 && (item.y - 2) * 3 + item.x == k - 1)
            && (k >= 5 ==> item.x < 4 && item.y >= 4 && (item.y - 4) * 4 + item.x == k - 5)
  {
  }

  /** No grid cell is covered by two default tiles, on mobile or on desktop. */
  lemma DefaultCellsDisjoint(ids: seq<Id>, mobile: bool, a: nat, b: nat, cx: int, cy: int)
    requires a < b < |ids|
    ensures var layout := DefaultLayout(ids, mobile);
            !(Covers(layout[a], cx, cy) && Covers(layout[b], cx, cy))
  {
    var layout := DefaultLayout(ids, mobile);
    if Covers(layout[a], cx, cy) && Covers(layout[b], cx, cy) {
      if mobile {
        MobilePlacement(ids, a);
        MobilePlacement(ids, b);
      } else {
        DesktopPlacement(ids, a);
        DesktopPlacement(ids, b);
      }
    }
  }

  /** The set of ids a list of items or participants mentions. */
  function ItemIds(items: seq<Item>): (r: set<Id>)
    ensures forall k :: 0 <= k < |items| ==> items[k].i in r
    ensures forall id :: id in r ==> exists k :: 0 <= k < |items| && items[k].i == id
  {
    set k | 0 <= k < |items| :: items[k].i
  }

  function IdSet(ids: seq<Id>): (r: set<Id>)
    ensures forall id :: id in r <==> id in ids
  {
    set k | 0 <= k < |ids| :: ids[k]
  }

  lemma ItemIdsCons(item: Item, rest: seq<Item>)
    ensures ItemIds([item] + rest) == {item.i} + ItemIds(rest)
  {
    var s := [item] + rest;
    forall id | id in ItemIds(s) ensures id in {item.i} + ItemIds(rest) {
      var k :| 0 <= k < |s| && s[k].i == id;
      if k > 0 {
        assert rest[k - 1] == s[k];
      }
    }
    forall id | id in ItemIds(rest) ensures id in ItemIds(s) {
      var k :| 0 <= k < |rest| && rest[k].i == id;
      assert s[k + 1] == rest[k];
    }
    assert s[0] == item;
  }

  /** `layoutsRef.current.lg || []`. */
  function Current(layouts: Layouts): seq<Item> {
    if Lg in layouts then layouts[Lg] else []
  }

  /** `newLayout.filter(...)`: the items whose participant is still present, in order. */
  function Keep(items: seq<Item>, present: set<Id>): (r: seq<Item>)
    ensures forall it :: it in r <==> it in items && it.i in present
    ensures ItemIds(r) == ItemIds(items) * present
  {
    if items == [] then []
    else if items[0].i in present then [items[0]] + Keep(items[1..], present)
    else Keep(items[1..], present)
  }

  /** The ids of `ids` not in `seen`, each once, in order of first occurrence (a `Set`'s iteration order). */
  function Fresh(ids: seq<Id>, seen: set<Id>): (r: seq<Id>)
    ensures IdSet(r) == IdSet(ids) - seen
  {
    if ids == [] then []
    else if ids[0] in seen then Fresh(ids[1..], seen)
    else [ids[0]] + Fresh(ids[1..], seen + {ids[0]})
  }

  /** `items.find(item => item.i === id)`. */
  function Find(items: seq<Item>, id: Id): (r: Option<Item>)
    ensures r.Some? ==> r.value in items && r.value.i == id
    ensures r.None? <==> forall k :: 0 <= k < |items| ==> items[k].i != id
  {
    if items == [] then None
    else if items[0].i == id then Some(items[0])
    else Find(items[1..], id)
  }

  /** In a list whose ids follow `ids`, `find` returns the item at the id's first position. */
  lemma {:induction false} FindFirst(items: seq<Item>, ids: seq<Id>, id: Id)
    requires |items| == |ids| && id in ids
    requires forall k :: 0 <= k < |ids| ==> items[k].i == ids[k]
    ensures Find(items, id) == Some(items[IndexOf(ids, id)])
  {
    if ids[0] != id {
      FindFirst(items[1..], ids[1..], id);
    }
  }

  /** The default item found for a participant is the one for its first position in the list. */
  lemma FindDefault(ids: seq<Id>, mobile: bool, id: Id)
    requires id in ids
    ensures Find(DefaultLayout(ids, mobile), id) == Some(DefaultItem(id, IndexOf(ids, id), mobile))
  {
    FindFirst(DefaultLayout(ids, mobile), ids, id);
  }

  /** The loop over `participantsToAdd`: push each found default item. */
  function AddDefaults(added: seq<Id>, defaults: seq<Item>): (r: seq<Item>)
    ensures forall it :: it in r ==> it in defaults
  {
    if added == [] then []
    else
      var rest := AddDefaults(added[1..], defaults);
      match Find(defaults, added[0])
      case Some(item) => [item] + rest
      case None => rest
  }

  /** When every added id has a default item, the pushed items are exactly the added ids' defaults. */
  lemma {:induction false} AddDefaultsIds(added: seq<Id>, ids: seq<Id>, mobile: bool)
    requires forall id :: id in added ==> id in ids
    ensures var r := AddDefaults(added, DefaultLayout(ids, mobile));
            ItemIds(r) == IdSet(added)
            && forall it :: it in r ==> it == DefaultItem(it.i, IndexOf(ids, it.i), mobile)
  {
    var defaults := DefaultLayout(ids, mobile);
    if added != [] {
      AddDefaultsIds(added[1..], ids, mobile);
      FindDefault(ids, mobile, added[0]);
      var r := AddDefaults(added, defaults);
      var rest := AddDefaults(added[1..], defaults);
      assert r == [DefaultItem(added[0], IndexOf(ids, added[0]), mobile)] + rest;
      assert IdSet(added) == {added[0]} + IdSet(added[1..]);
      ItemIdsCons(r[0], rest);
    }
  }

  /**
   * The reconciliation effect. `mobile` and `ids` are the props the
   * defaults are computed from; the result is the new layouts state.
   * Afterwards the "lg" items name exactly the participants, other
   * breakpoints are untouched, every surviving item is kept as it was, and
   * every new item is the default tile of its participant's first position.
   */
  function Reconcile(layouts: Layouts, ids: seq<Id>, mobile: bool): (r: Layouts)
    ensures ItemIds(Current(r)) == IdSet(ids)
    ensures r != map[]
    ensures forall b :: b in layouts && b != Lg ==> b in r && r[b] == layouts[b]
    ensures forall it :: it in Current(layouts) && it.i in ids ==> it in Current(r)
    ensures forall it :: it in Current(r) && it !in Current(layouts) ==>
              it == DefaultItem(it.i, IndexOf(ids, it.i), mobile)
    // Restricted to the ids it already had, the layout only loses the
    // departed participants' items; the rest keep their relative order.
    ensures Keep(Current(r), ItemIds(Current(layouts))) == Keep(Current(layouts), IdSet(ids))
  {
    var current := Current(layouts);
    if ItemIds(current) == IdSet(ids) then
      if layouts == map[] then
        var r := map[Lg := DefaultLayout(ids, mobile)];
        assert Current(r) == DefaultLayout(ids, mobile) && current == [];
        assert ItemIds(current) == {};
        KeepAllOrNone(DefaultLayout(ids, mobile), {});
        r
      else layouts
    else
      var items := Rebuild(current, ids, mobile);
      var r := layouts[Lg := items];
      assert Current(r) == items;
      RebuildKeepsOrder(current, ids, mobile);
      r
  }

  /**
   * The else-branch of the effect: the current items still in `ids`
   * followed by the default items of the ids not yet laid out.
   */
  function Rebuild(current: seq<Item>, ids: seq<Id>, mobile: bool): (items: seq<Item>)
    ensures ItemIds(items) == IdSet(ids)
    ensures forall it :: it in current && it.i in ids ==> it in items
    ensures forall it :: it in items && it !in current ==> it == DefaultItem(it.i, IndexOf(ids, it.i), mobile)
    // Order: first the surviving items as they stood, then one default tile
    // per new participant, in participant order (see FreshOrdered).
    ensures items == Keep(current, IdSet(ids)) + DefaultTiles(Fresh(ids, ItemIds(current)), ids, mobile)
  {
    var kept := Keep(current, IdSet(ids));
    var incoming := Fresh(ids, ItemIds(current));
    var added := AddDefaults(incoming, DefaultLayout(ids, mobile));
    assert added == DefaultTiles(incoming, ids, mobile) by {
      AddDefaultsOrder(incoming, ids, mobile);
    }
    var items := kept + added;
    assert ItemIds(items) == IdSet(ids) by {
      AddDefaultsIds(incoming, ids, mobile);
      ItemIdsAppend(kept, added);
    }
    assert forall it :: it in current && it.i in ids ==> it in items by {
      forall it | it in current && it.i in ids ensures it in items {
        assert it in kept;
      }
    }
    assert forall it :: it in items && it !in current ==> it == DefaultItem(it.i, IndexOf(ids, it.i), mobile) by {
      AddDefaultsIds(incoming, ids, mobile);
      forall it | it in items && it !in current ensures it == DefaultItem(it.i, IndexOf(ids, it.i), mobile) {
        assert it in added;
      }
    }
    items
  }

  /**
   * The default tiles of `added`, one per id in the same order: the tile
   * each id has at its first position in `ids`.
   */
  function DefaultTiles(added: seq<Id>, ids: seq<Id>, mobile: bool): (r: seq<Item>)
    ensures |r| == |added|
    ensures forall k :: 0 <= k < |added| ==> r[k] == DefaultItem(added[k], IndexOf(ids, added[k]), mobile)
  {
    seq(|added|, k requires 0 <= k < |added| => DefaultItem(added[k], IndexOf(ids, added[k]), mobile))
  }

  /** Filtering distributes over concatenation. */
  lemma {:induction false} KeepAppend(a: seq<Item>, b: seq<Item>, present: set<Id>)
    ensures Keep(a + b, present) == Keep(a, present) + Keep(b, present)
  {
    if a != [] {
      var ab := a + b;
      assert ab != [] && ab[0] == a[0] && ab[1..] == a[1..] + b;
      var tail := Keep(a[1..] + b, present);
      assert tail == Keep(a[1..], present) + Keep(b, present) by {
        KeepAppend(a[1..], b, present);
      }
      if a[0].i in present {
        assert Keep(ab, present) == [a[0]] + tail;
        assert Keep(a, present) == [a[0]] + Keep(a[1..], present);
        AppendAssoc([a[0]], Keep(a[1..], present), Keep(b, present));
        assert Keep(ab, present) == Keep(a, present) + Keep(b, present);
      } else {
        assert Keep(ab, present) == tail;
        assert Keep(a, present) == Keep(a[1..], present);
        assert Keep(ab, present) == Keep(a, present) + Keep(b, present);
      }
    } else {
      assert a + b == b;
      assert Keep(a, present) == [];
      assert Keep(a + b, present) == Keep(a, present) + Keep(b, present);
    }
  }

  /** Filtering keeps every item whose id passes and drops every item whose id does not. */
  lemma {:induction false} KeepAllOrNone(items: seq<Item>, present: set<Id>)
    ensures (forall k :: 0 <= k < |items| ==> items[k].i in present) ==> Keep(items, present) == items
    ensures (forall k :: 0 <= k < |items| ==> items[k].i !in present) ==> Keep(items, present) == []
  {
    if items != [] {
      KeepAllOrNone(items[1..], present);
      assert forall k :: 0 <= k < |items| - 1 ==> items[1..][k] == items[k + 1];
    }
  }

  /** The fresh ids come in the order of their first position in `ids`. */
  lemma FreshOrdered(ids: seq<Id>, seen: set<Id>)
    ensures forall k, l :: 0 <= k < l < |Fresh(ids, seen)| ==>
              IndexOf(ids, Fresh(ids, seen)[k]) < IndexOf(ids, Fresh(ids, seen)[l])
  {
    forall k, l | 0 <= k < l < |Fresh(ids, seen)|
      ensures IndexOf(ids, Fresh(ids, seen)[k]) < IndexOf(ids, Fresh(ids, seen)[l])
    {
      FreshOrderedPair(ids, seen, k, l);
    }
  }

  lemma {:induction false} FreshOrderedPair(ids: seq<Id>, seen: set<Id>, k: nat, l: nat)
    requires k < l < |Fresh(ids, seen)|
    ensures IndexOf(ids, Fresh(ids, seen)[k]) < IndexOf(ids, Fresh(ids, seen)[l])
  {
    var r := Fresh(ids, seen);
    if ids[0] in seen {
      var rest := Fresh(ids[1..], seen);
      assert r == rest;
      FreshOrderedPair(ids[1..], seen, k, l);
      FreshShift(ids, seen, rest[k]);
      FreshShift(ids, seen, rest[l]);
    } else {
      var seen1 := seen + {ids[0]};
      var rest := Fresh(ids[1..], seen1);
      assert r == [ids[0]] + rest;
      assert r[l] == rest[l - 1];
      FreshShift(ids, seen1, rest[l - 1]);
      if k > 0 {
        assert r[k] == rest[k - 1];
        FreshOrderedPair(ids[1..], seen1, k - 1, l - 1);
        FreshShift(ids, seen1, rest[k - 1]);
      } else {
        assert r[k] == ids[0];
      }
    }
  }

  /** An id fresh after the head was seen sits one place further in the whole list. */
  lemma FreshShift(ids: seq<Id>, seen: set<Id>, x: Id)
    requires ids != [] && ids[0] in seen && x in Fresh(ids[1..], seen)
    ensures IndexOf(ids, x) == IndexOf(ids[1..], x) + 1
  {
    assert x in IdSet(Fresh(ids[1..], seen));
  }

  /** The pushed default items follow the added ids one for one. */
  lemma {:induction false} AddDefaultsOrder(added: seq<Id>, ids: seq<Id>, mobile: bool)
    requires forall id :: id in added ==> id in ids
    ensures AddDefaults(added, DefaultLayout(ids, mobile)) == DefaultTiles(added, ids, mobile)
  {
    if added != [] {
      var defaults := DefaultLayout(ids, mobile);
      var rest := AddDefaults(added[1..], defaults);
      AddDefaultsOrder(added[1..], ids, mobile);
      FindDefault(ids, mobile, added[0]);
      var r := AddDefaults(added, defaults);
      var tiles := DefaultTiles(added, ids, mobile);
      assert r == [DefaultItem(added[0], IndexOf(ids, added[0]), mobile)] + rest;
      forall k | 0 <= k < |added| ensures r[k] == tiles[k] {
        if k > 0 {
          assert r[k] == rest[k - 1] && added[k] == added[1..][k - 1];
        }
      }
    }
  }

  /**
   * Looking only at the ids the stored layout had, the rebuilt layout is the
   * stored one with the departed participants' items dropped, in the same order.
   */
  lemma RebuildKeepsOrder(current: seq<Item>, ids: seq<Id>, mobile: bool)
    ensures Keep(Rebuild(current, ids, mobile), ItemIds(current)) == Keep(current, IdSet(ids))
  {
    var kept := Keep(current, IdSet(ids));
    var incoming := Fresh(ids, ItemIds(current));
    var added := AddDefaults(incoming, DefaultLayout(ids, mobile));
    RebuildSplits(current, ids, mobile);
    KeepAppend(kept, added, ItemIds(current));
    KeptAreOld(current, IdSet(ids));
    KeepAllOrNone(kept, ItemIds(current));
    AddedAreNew(current, ids, mobile);
    KeepAllOrNone(added, ItemIds(current));
  }

  lemma RebuildSplits(current: seq<Item>, ids: seq<Id>, mobile: bool)
    ensures Rebuild(current, ids, mobile) ==
              Keep(current, IdSet(ids)) + AddDefaults(Fresh(ids, ItemIds(current)), DefaultLayout(ids, mobile))
  {
  }

  lemma KeptAreOld(current: seq<Item>, present: set<Id>)
    ensures var kept := Keep(current, present);
            forall k :: 0 <= k < |kept| ==> kept[k].i in ItemIds(current)
  {
    var kept := Keep(current, present);
    forall k | 0 <= k < |kept| ensures kept[k].i in ItemIds(current) {
      assert kept[k] in kept;
      var j :| 0 <= j < |current| && current[j] == kept[k];
    }
  }

  lemma AddedAreNew(current: seq<Item>, ids: seq<Id>, mobile: bool)
    ensures var added := AddDefaults(Fresh(ids, ItemIds(current)), DefaultLayout(ids, mobile));
            forall k :: 0 <= k < |added| ==> added[k].i !in ItemIds(current)
  {
    var incoming := Fresh(ids, ItemIds(current));
    var added := AddDefaults(incoming, DefaultLayout(ids, mobile));
    AddDefaultsIds(incoming, ids, mobile);
    forall k | 0 <= k < |added| ensures added[k].i !in ItemIds(current) {
      assert added[k].i in ItemIds(added);
    }
  }

  lemma ItemIdsAppend(a: seq<Item>, b: seq<Item>)
    ensures ItemIds(a + b) == ItemIds(a) + ItemIds(b)
  {
    var s := a + b;
    forall id | id in ItemIds(s) ensures id in ItemIds(a) + ItemIds(b) {
      var k :| 0 <= k < |s| && s[k].i == id;
      if k >= |a| {
        assert b[k - |a|] == s[k];
      }
    }
    forall id | id in ItemIds(a) ensures id in ItemIds(s) {
      var k :| 0 <= k < |a| && a[k].i == id;
      assert s[k] == a[k];
    }
    forall id | id in ItemIds(b) ensures id in ItemIds(s) {
      var k :| 0 <= k < |b| && b[k].i == id;
      assert s[k + |a|] == b[k];
    }
  }

  /** When the stored layout already names exactly the participants it is left alone. */
  lemma ReconcileInSync(layouts: Layouts, ids: seq<Id>, mobile: bool)
    requires layouts != map[] && ItemIds(Current(layouts)) == IdSet(ids)
    ensures Reconcile(layouts, ids, mobile) == layouts
  {
  }

  /** Running the effect again after it has run changes nothing. */
  lemma ReconcileIdempotent(layouts: Layouts, ids: seq<Id>, mobile: bool)
    ensures var r := Reconcile(layouts, ids, mobile);
            Reconcile(r, ids, mobile) == r
  {
    ReconcileInSync(Reconcile(layouts, ids, mobile), ids, mobile);
  }

  /** From an empty state the layout becomes the defaults, when participant ids are distinct. */
  lemma ReconcileFromEmpty(ids: seq<Id>, mobile: bool)
    requires forall j, k :: 0 <= j < k < |ids| ==> ids[j] != ids[k]
    ensures Reconcile(map[], ids, mobile) == map[Lg := DefaultLayout(ids, mobile)]
  {
    if ids != [] {
      var defaults := DefaultLayout(ids, mobile);
      var empty: Layouts := map[];
      assert Current(empty) == [];
      assert ItemIds([]) != IdSet(ids) by {
        assert ItemIds([]) == {};
        assert ids[0] in IdSet(ids);
      }
      assert Rebuild([], ids, mobile) == defaults by {
        assert Keep([], IdSet(ids)) == [];
        assert Fresh(ids, ItemIds([])) == ids by {
          assert ItemIds([]) == {};
          FreshAll(ids, {});
        }
        assert AddDefaults(ids, defaults) == defaults by {
          AddDefaultsAll(ids, mobile, 0);
          assert ids[0..] == ids;
          assert defaults[0..] == defaults;
        }
      }
      ReconcileRebuilds(empty, ids, mobile);
      assert empty[Lg := defaults] == map[Lg := defaults];
    }
  }

  lemma ReconcileRebuilds(layouts: Layouts, ids: seq<Id>, mobile: bool)
    requires ItemIds(Current(layouts)) != IdSet(ids)
    ensures Reconcile(layouts, ids, mobile) == layouts[Lg := Rebuild(Current(layouts), ids, mobile)]
  {
  }

  /** With distinct ids and none seen, every id is fresh. */
  lemma {:induction false} FreshAll(ids: seq<Id>, seen: set<Id>)
    requires forall j, k :: 0 <= j < k < |ids| ==> ids[j] != ids[k]
    requires forall k :: 0 <= k < |ids| ==> ids[k] !in seen
    ensures Fresh(ids, seen) == ids
  {
    if ids != [] {
      FreshAll(ids[1..], seen + {ids[0]});
    }
  }

  lemma {:induction false} AddDefaultsAll(ids: seq<Id>, mobile: bool, j: nat)
    requires j <= |ids|
    requires forall a, b :: 0 <= a < b < |ids| ==> ids[a] != ids[b]
    ensures AddDefaults(ids[j..], DefaultLayout(ids, mobile)) == DefaultLayout(ids, mobile)[j..]
    decreases |ids| - j
  {
    var defaults := DefaultLayout(ids, mobile);
    if j < |ids| {
      var item := defaults[j];
      assert AddDefaults(ids[j..], defaults) == [item] + defaults[j + 1..] by {
        FindDistinct(ids, mobile, j);
        AddDefaultsStep(ids[j..], defaults, item);
        SliceTail(ids, j);
        AddDefaultsAll(ids, mobile, j + 1);
      }
      SliceTail(defaults, j);
    }
  }

  lemma AppendAssoc<T>(a: seq<T>, b: seq<T>, c: seq<T>)
    ensures a + (b + c) == (a + b) + c
  {
  }

  lemma SliceTail<T>(s: seq<T>, j: nat)
    requires j < |s|
    ensures s[j..] == [s[j]] + s[j + 1..] && s[j..][1..] == s[j + 1..]
  {
  }

  /** With distinct ids, the default item found for the j-th id is the j-th default item. */
  lemma FindDistinct(ids: seq<Id>, mobile: bool, j: nat)
    requires j < |ids|
    requires forall a, b :: 0 <= a < b < |ids| ==> ids[a] != ids[b]
    ensures Find(DefaultLayout(ids, mobile), ids[j]) == Some(DefaultLayout(ids, mobile)[j])
  {
    FindDefault(ids, mobile, ids[j]);
    IndexOfDistinct(ids, j);
  }

  lemma AddDefaultsStep(added: seq<Id>, defaults: seq<Item>, item: Item)
    requires added != [] && Find(defaults, added[0]) == Some(item)
    ensures AddDefaults(added, defaults) == [item] + AddDefaults(added[1..], defaults)
  {
  }

  lemma {:induction false} IndexOfDistinct(ids: seq<Id>, j: nat)
    requires j < |ids|
    requires forall a, b :: 0 <= a < b < |ids| ==> ids[a] != ids[b]
    ensures IndexOf(ids, ids[j]) == j
  {
    if j > 0 {
      IndexOfDistinct(ids[1..], j - 1);
    }
  }

  /** `toggleTileFocus`: focus the tile, or clear the focus if it is that tile already. */
  function ToggleFocus(focused: Option<Id>, id: Id): (r: Option<Id>)
    ensures r == None <==> focused == Some(id)
    ensures r != None ==> r == Some(id)
  {
    if focused == Some(id) then None else Some(id)
  }

  /** Toggling the same tile twice restores the focus when nothing or that tile was focused. */
  lemma ToggleTwice(focused: Option<Id>, id: Id)
    requires focused == None || focused == Some(id)
    ensures ToggleFocus(ToggleFocus(focused, id), id) == focused
  {
  }

  /** When another tile was focused, two toggles clear the focus instead of restoring it. */
  lemma ToggleTwiceFromOther(other: Id, id: Id)
    requires other != id
    ensures ToggleFocus(ToggleFocus(Some(other), id), id) == None
  {
  }
}
