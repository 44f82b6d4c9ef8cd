/**
 * The editor's top-level operations that change the document or the view
 * state directly: the lamp-filter dropdown, image resizing and brightness
 * (their undo discipline), the four special click modes, tab switching,
 * the frame and illumination view toggles, and saving and deleting
 * animations.
 */
module EditorMain {
  import opened Wrappers
  import opened Text
  import opened Numbers
  import opened Data
  import opened UndoRecords
  import opened State
  import opened Undo
  import opened Selection
  import opened Renderer

  // ---------------------------------------------------------------------
  // ROM id strings and the lamp-filter dropdown

  function RomIdLetters(t: RomIdType): string
  {
    match t
    case Lamp => "L"
    case Solenoid => "S"
    case GIString => "GI"
  }

  /** `getRomIdString`: an optional `I`, the type letters and the id, as in `IL12`. */
  function RomIdString(t: RomIdType, id: int, inverted: bool): (s: string)
    ensures |s| > |RomIdLetters(t)|
    ensures s[0] == 'I' <==> inverted
  {
    (if inverted then "I" else "") + RomIdLetters(t) + IntToString(id)
  }

  /** `String(id)` starts with a digit or a minus sign, never with a letter. */
  lemma IntToStringLead(i: int)
    ensures IsDigit(IntToString(i)[0]) || IntToString(i)[0] == '-'
  {
    if i >= 0 {
      assert IntToString(i) == NatToString(i);
    }
  }

  /**
   * The key string names one ROM id: equal strings come from the same type,
   * id and inversion, so counting bulbs by key counts them by ROM id.
   */
  lemma RomIdStringInjective(t1: RomIdType, id1: int, inv1: bool, t2: RomIdType, id2: int, inv2: bool)
    requires RomIdString(t1, id1, inv1) == RomIdString(t2, id2, inv2)
    ensures t1 == t2 && id1 == id2 && inv1 == inv2
  {
    var s := RomIdString(t1, id1, inv1);
    var p1 := (if inv1 then "I" else "") + RomIdLetters(t1);
    var p2 := (if inv2 then "I" else "") + RomIdLetters(t2);
    var d1, d2 := IntToString(id1), IntToString(id2);
    assert s == p1 + d1 && s == p2 + d2;
    IntToStringLead(id1);
    IntToStringLead(id2);
    assert inv1 == inv2;
    var o := if inv1 then 1 else 0;
    assert s[o] == RomIdLetters(t1)[0] && s[o] == RomIdLetters(t2)[0] by {
      assert s[o] == p1[o] && s[o] == p2[o];
    }
    assert t1 == t2;
    assert p1 == p2;
    assert d1 == s[|p1|..] == d2;
    ParseIntOfIntToString(id1, "");
    ParseIntOfIntToString(id2, "");
    assert d1 + "" == d1 && d2 + "" == d2;
  }

  /** One dropdown entry: a ROM id of the active parent and how many bulbs use it. */
  datatype RomEntry = RomEntry(key: string, romType: RomIdType, id: int, inverted: bool, count: nat)

  function RomEntryKey(e: RomEntry): string
  {
    e.key
  }

  /** A bulb is counted when it belongs to the parent and has a positive ROM id. */
  predicate Listed(b: Bulb, parent: Parent)
  {
    b.parent == parent && b.romId > 0
  }

  function BulbRomKey(b: Bulb): string
  {
    RomIdString(b.romIdType, b.romId, b.romInverted)
  }

  /** How many listed bulbs carry the key. */
  function KeyCount(bulbs: seq<Bulb>, parent: Parent, key: string): (n: nat)
    ensures n <= |bulbs|
  {
    if bulbs == [] then 0
    else
      var b := bulbs[|bulbs| - 1];
      KeyCount(bulbs[..|bulbs| - 1], parent, key) + (if Listed(b, parent) && BulbRomKey(b) == key then 1 else 0)
  }

  lemma KeyCountSnoc(bulbs: seq<Bulb>, i: nat, parent: Parent, key: string)
    requires i < |bulbs|
    ensures KeyCount(bulbs[..i + 1], parent, key) == KeyCount(bulbs[..i], parent, key)
      + (if Listed(bulbs[i], parent) && BulbRomKey(bulbs[i]) == key then 1 else 0)
  {
    assert bulbs[..i + 1][..i] == bulbs[..i];
  }

  /** A key no listed bulb carries counts zero. */
  lemma {:induction false} KeyCountAbsent(bulbs: seq<Bulb>, parent: Parent, key: string)
    requires forall j :: 0 <= j < |bulbs| && Listed(bulbs[j], parent) ==> BulbRomKey(bulbs[j]) != key
    ensures KeyCount(bulbs, parent, key) == 0
  {
    if bulbs != [] {
      var init := bulbs[..|bulbs| - 1];
      assert forall j :: 0 <= j < |init| ==> init[j] == bulbs[j];
      KeyCountAbsent(init, parent, key);
    }
  }

  /**
   * The tally of `updateLampFilterDropdown`: one entry per key in use, whose
   * data spells the key and whose count is the number of listed bulbs with it.
   */
  predicate Tallied(entries: seq<RomEntry>, bulbs: seq<Bulb>, parent: Parent)
  {
    UniqueKeys(entries, RomEntryKey)
    && (forall i :: 0 <= i < |entries| ==>
          entries[i].key == RomIdString(entries[i].romType, entries[i].id, entries[i].inverted)
          && entries[i].count == KeyCount(bulbs, parent, entries[i].key) && entries[i].count > 0)
    && (forall j :: 0 <= j < |bulbs| && Listed(bulbs[j], parent) ==> HasKey(entries, RomEntryKey, BulbRomKey(bulbs[j])))
  }

  /** One step of the count: `romIdCounts.get(key)`, then a bump or a `set`. */
  function Tally(entries: seq<RomEntry>, b: Bulb, parent: Parent): seq<RomEntry>
  {
    if !Listed(b, parent) then entries
    else
      var key := BulbRomKey(b);
      match FindIndex(entries, RomEntryKey, key)
      case Some(j) => entries[j := entries[j].(count := entries[j].count + 1)]
      case None => entries + [RomEntry(key, b.romIdType, b.romId, b.romInverted, 1)]
  }

  /** A step keeps every key where it was and adds at most the bulb's key, last. */
  lemma TallyKeys(entries: seq<RomEntry>, b: Bulb, parent: Parent)
    requires UniqueKeys(entries, RomEntryKey)
    ensures var r := Tally(entries, b, parent);
      && |r| >= |entries|
      && (forall n :: 0 <= n < |entries| ==> r[n].key == entries[n].key)
      && (forall n :: |entries| <= n < |r| ==> r[n].key == BulbRomKey(b) && !HasKey(entries, RomEntryKey, BulbRomKey(b)))
      && UniqueKeys(r, RomEntryKey)
      && (Listed(b, parent) ==> HasKey(r, RomEntryKey, BulbRomKey(b)))
  {
    var r := Tally(entries, b, parent);
    if Listed(b, parent) {
      match FindIndex(entries, RomEntryKey, BulbRomKey(b))
      case Some(j) =>
        assert r[j].key == BulbRomKey(b);
      case None =>
        assert r[|entries|].key == BulbRomKey(b);
    }
  }

  /** Entry `n` after a step: its data still spells its key and its count is right. */
  lemma TallyCount(entries: seq<RomEntry>, bulbs: seq<Bulb>, i: nat, parent: Parent, n: nat)
    requires i < |bulbs| && Tallied(entries, bulbs[..i], parent)
    requires n < |Tally(entries, bulbs[i], parent)|
    ensures var e := Tally(entries, bulbs[i], parent)[n];
      && e.key == RomIdString(e.romType, e.id, e.inverted)
      && e.count == KeyCount(bulbs[..i + 1], parent, e.key) && e.count > 0
  {
    var b := bulbs[i];
    var r := Tally(entries, b, parent);
    TallyKeys(entries, b, parent);
    KeyCountSnoc(bulbs, i, parent, r[n].key);
    if n >= |entries| {
      KeyCountAbsent(bulbs[..i], parent, r[n].key);
    } else if Listed(b, parent) && BulbRomKey(b) == r[n].key {
      var f := FindIndex(entries, RomEntryKey, BulbRomKey(b));
      assert f.Some? && entries[f.value].key == entries[n].key;
      assert f.value == n;
    }
  }

  lemma TallyStep(entries: seq<RomEntry>, bulbs: seq<Bulb>, i: nat, parent: Parent)
    requires i < |bulbs| && Tallied(entries, bulbs[..i], parent)
    ensures Tallied(Tally(entries, bulbs[i], parent), bulbs[..i + 1], parent)
  {
    var b := bulbs[i];
    var r := Tally(entries, b, parent);
    var next := bulbs[..i + 1];
    TallyKeys(entries, b, parent);
    forall n | 0 <= n < |r|
      ensures r[n].key == RomIdString(r[n].romType, r[n].id, r[n].inverted)
      ensures r[n].count == KeyCount(next, parent, r[n].key) && r[n].count > 0
    {
      TallyCount(entries, bulbs, i, parent, n);
    }
    assert forall m :: 0 <= m < |next| ==> next[m] == bulbs[m];
    TallyCovers(entries, bulbs, i, parent);
  }

  /** After a step every listed bulb seen so far has an entry. */
  lemma TallyCovers(entries: seq<RomEntry>, bulbs: seq<Bulb>, i: nat, parent: Parent)
    requires i < |bulbs| && Tallied(entries, bulbs[..i], parent)
    ensures forall m :: 0 <= m <= i && Listed(bulbs[m], parent) ==>
      HasKey(Tally(entries, bulbs[i], parent), RomEntryKey, BulbRomKey(bulbs[m]))
  {
    var r := Tally(entries, bulbs[i], parent);
    TallyKeys(entries, bulbs[i], parent);
    forall m | 0 <= m < i && Listed(bulbs[m], parent)
      ensures HasKey(r, RomEntryKey, BulbRomKey(bulbs[m]))
    {
      assert bulbs[..i][m] == bulbs[m];
      var k :| 0 <= k < |entries| && entries[k].key == BulbRomKey(bulbs[m]);
      assert r[k].key == entries[k].key;
    }
  }

  /** The counting loop over the bulbs of the active parent. */
  method CountRomIds(bulbs: seq<Bulb>, parent: Parent) returns (entries: seq<RomEntry>)
    ensures Tallied(entries, bulbs, parent)
  {
    entries := [];
    for i := 0 to |bulbs|
      invariant Tallied(entries, bulbs[..i], parent)
    {
      var before := entries;
      entries := CountBulb(entries, bulbs[i], parent);
      TallyStep(before, bulbs, i, parent);
    }
    assert bulbs[..|bulbs|] == bulbs;
  }

  /** One turn of the counting loop: bump the bulb's entry, or append a new one with count 1. */
  method CountBulb(entries: seq<RomEntry>, b: Bulb, parent: Parent) returns (r: seq<RomEntry>)
    ensures r == Tally(entries, b, parent)
  {
    r := entries;
    if b.parent == parent && b.romId > 0 {
      var key := RomIdString(b.romIdType, b.romId, b.romInverted);
      match FindIndex(entries, RomEntryKey, key)
      case Some(j) =>
        r := entries[j := entries[j].(count := entries[j].count + 1)];
      case None =>
        r := entries + [RomEntry(key, b.romIdType, b.romId, b.romInverted, 1)];
    }
  }

  /** The dropdown's order: `Lamp` < `Solenoid` < `GIString`. */
  function TypeOrder(t: RomIdType): nat
  {
    match t
    case Lamp => 0
    case Solenoid => 1
    case GIString => 2
  }

  /**
   * The comparator of the sort: non-inverted entries first, then by type
   * order, then by ascending id.
   */
  predicate EntryBefore(a: RomEntry, b: RomEntry)
  {
    var ai, bi := (if a.inverted then 1 else 0), (if b.inverted then 1 else 0);
    ai < bi
    || (ai == bi && (TypeOrder(a.romType) < TypeOrder(b.romType)
        || (TypeOrder(a.romType) == TypeOrder(b.romType) && a.id <= b.id)))
  }

  predicate SortedEntries(es: seq<RomEntry>)
  {
    forall i, j :: 0 <= i < j < |es| ==> EntryBefore(es[i], es[j])
  }

  /** Places `e` before the first entry it may precede. */
  function InsertEntry(e: RomEntry, es: seq<RomEntry>): (r: seq<RomEntry>)
    ensures multiset(r) == multiset(es) + multiset{e}
  {
    if es == [] then [e]
    else if EntryBefore(e, es[0]) then [e] + es
    else
      assert es == [es[0]] + es[1..];
      [es[0]] + InsertEntry(e, es[1..])
  }

  /** Insertion keeps a sorted list sorted. */
  lemma {:induction false} InsertEntrySorted(e: RomEntry, es: seq<RomEntry>)
    requires SortedEntries(es)
    ensures SortedEntries(InsertEntry(e, es))
  {
    if es != [] && !EntryBefore(e, es[0]) {
      var rest := InsertEntry(e, es[1..]);
      InsertEntrySorted(e, es[1..]);
      HeadPrecedesInsert(e, es);
      var r := [es[0]] + rest;
      forall i, j | 0 <= i < j < |r|
        ensures EntryBefore(r[i], r[j])
      {
        if i > 0 {
          assert r[i] == rest[i - 1] && r[j] == rest[j - 1];
        } else {
          assert r[j] in rest;
        }
      }
    }
  }

  /** When `e` goes after the head, the head precedes everything inserted behind it. */
  lemma HeadPrecedesInsert(e: RomEntry, es: seq<RomEntry>)
    requires SortedEntries(es) && es != [] && !EntryBefore(e, es[0])
    ensures forall x :: x in InsertEntry(e, es[1..]) ==> EntryBefore(es[0], x)
  {
    var tail := es[1..];
    assert EntryBefore(es[0], e);
    forall x | x in InsertEntry(e, tail)
      ensures EntryBefore(es[0], x)
    {
      assert x in multiset(tail) + multiset{e};
      if x != e {
        assert x in multiset(tail);
        var k :| 0 <= k < |tail| && tail[k] == x;
        assert es[k + 1] == x;
      }
    }
  }

  /** `Array.prototype.sort` with the comparator above. */
  function SortRomEntries(es: seq<RomEntry>): (r: seq<RomEntry>)
    ensures SortedEntries(r) && multiset(r) == multiset(es)
  {
    if es == [] then []
    else
      assert es == es[..|es| - 1] + [es[|es| - 1]];
      InsertEntrySorted(es[|es| - 1], SortRomEntries(es[..|es| - 1]));
      InsertEntry(es[|es| - 1], SortRomEntries(es[..|es| - 1]))
  }

  /**
   * The entries of the lamp-filter dropdown, in the order they are listed:
   * sorted by the comparator, one per ROM id in use by a bulb of the
   * parent, each with the number of such bulbs.
   */
  method LampFilterEntries(bulbs: seq<Bulb>, parent: Parent) returns (sorted: seq<RomEntry>)
    ensures SortedEntries(sorted)
    ensures forall e :: e in sorted ==>
      e.key == RomIdString(e.romType, e.id, e.inverted) && e.count == KeyCount(bulbs, parent, e.key) && e.count > 0
    ensures forall e1, e2 :: e1 in sorted && e2 in sorted && e1.key == e2.key ==> e1 == e2
    ensures forall b :: b in bulbs && Listed(b, parent) ==> exists e :: e in sorted && e.key == BulbRomKey(b)
  {
    var entries := CountRomIds(bulbs, parent);
    sorted := SortRomEntries(entries);
    assert forall e :: e in sorted <==> e in entries by {
      assert forall e :: e in sorted <==> e in multiset(sorted);
    }
    forall e1, e2 | e1 in sorted && e2 in sorted && e1.key == e2.key
      ensures e1 == e2
    {
      var i :| 0 <= i < |entries| && entries[i] == e1;
      var j :| 0 <= j < |entries| && entries[j] == e2;
      assert i == j;
    }
    forall b | b in bulbs && Listed(b, parent)
      ensures exists e :: e in sorted && e.key == BulbRomKey(b)
    {
      var j :| 0 <= j < |bulbs| && bulbs[j] == b;
      var k :| 0 <= k < |entries| && entries[k].key == BulbRomKey(b);
      assert entries[k] in sorted;
    }
  }

  /** A dropdown option: the filter value it sets and the text it shows. */
  datatype LampOption = LampOption(value: string, caption: string)

  /** The option of an entry: its filter lets through exactly the bulbs with that ROM id. */
  function LampOptionOf(e: RomEntry): (o: LampOption)
    ensures forall b: Bulb :: BulbPassesFilter(b, o.value) <==>
      b.romIdType == e.romType && b.romId == e.id && b.romInverted == e.inverted
  {
    var value := RomFilter(e.inverted, e.romType, e.id);
    assert forall b: Bulb :: BulbPassesFilter(b, value) <==>
      b.romIdType == e.romType && b.romId == e.id && b.romInverted == e.inverted by {
      forall b: Bulb
        ensures BulbPassesFilter(b, value) <==> b.romIdType == e.romType && b.romId == e.id && b.romInverted == e.inverted
      {
        RomFilterSelectsExactly(b, e.inverted, e.romType, e.id);
      }
    }
    LampOption(value, e.key + " (" + NatToString(e.count) + ")")
  }

  // ---------------------------------------------------------------------
  // Tabs, frames and the special click modes

  /** How many of the four special click modes are on. */
  function ModeCount(st: EditorState): (n: nat)
    reads st
    ensures n == 0 <==> st.NoSpecialMode()
  {
    (if st.setGrillHeight then 1 else 0) + (if st.setSmallGrillHeight then 1 else 0)
    + (if st.copyDmdFromBackglass then 1 else 0) + (if st.setDmdDefaultLocation then 1 else 0)
  }

  /**
   * `switchTab`: the tab changes, the lamp filter goes back to `all` and the
   * selection is cleared; leaving for the DMD tab also turns every special
   * mode off and forgets the mouse position.
   */
  method SwitchTab(st: EditorState, tab: Tab)
    modifies st`activeTab, st`lampFilter, st`mouseWorldX, st`mouseWorldY
    modifies st`setGrillHeight, st`setSmallGrillHeight, st`copyDmdFromBackglass, st`setDmdDefaultLocation
    modifies st`selectedBulbIds, st`selectedScoreIds, st`primarySelection
    ensures st.activeTab == tab && st.lampFilter == "all"
    ensures SelectionOf(st) == Cleared()
    ensures tab == DmdTab ==> st.NoSpecialMode() && st.mouseWorldX.None? && st.mouseWorldY.None?
    ensures tab == BackglassTab ==>
      st.setGrillHeight == old(st.setGrillHeight) && st.setSmallGrillHeight == old(st.setSmallGrillHeight)
      && st.copyDmdFromBackglass == old(st.copyDmdFromBackglass)
      && st.setDmdDefaultLocation == old(st.setDmdDefaultLocation)
      && st.mouseWorldX == old(st.mouseWorldX) && st.mouseWorldY == old(st.mouseWorldY)
  {
    st.activeTab := tab;
    st.lampFilter := "all";
    if tab != BackglassTab {
      st.setGrillHeight := false;
      st.setSmallGrillHeight := false;
      st.copyDmdFromBackglass := false;
      st.setDmdDefaultLocation := false;
      st.mouseWorldX := None;
      st.mouseWorldY := None;
    }
    ClearSelection(st);
  }

  /** The step every mode toggle takes after turning a mode on: back to the backglass tab. */
  method ShowBackglass(st: EditorState)
    modifies st`activeTab, st`lampFilter, st`mouseWorldX, st`mouseWorldY
    modifies st`setGrillHeight, st`setSmallGrillHeight, st`copyDmdFromBackglass, st`setDmdDefaultLocation
    modifies st`selectedBulbIds, st`selectedScoreIds, st`primarySelection
    ensures st.activeTab == BackglassTab
    ensures old(st.activeTab) == BackglassTab ==>
      st.lampFilter == old(st.lampFilter) && SelectionOf(st) == old(SelectionOf(st))
    ensures old(st.activeTab) != BackglassTab ==> st.lampFilter == "all" && SelectionOf(st) == Cleared()
    ensures st.setGrillHeight == old(st.setGrillHeight) && st.setSmallGrillHeight == old(st.setSmallGrillHeight)
    ensures st.copyDmdFromBackglass == old(st.copyDmdFromBackglass)
    ensures st.setDmdDefaultLocation == old(st.setDmdDefaultLocation)
    ensures st.mouseWorldX == old(st.mouseWorldX) && st.mouseWorldY == old(st.mouseWorldY)
  {
    if st.activeTab != BackglassTab {
      SwitchTab(st, BackglassTab);
    }
  }

  /**
   * `toggleSetGrillHeight`: turning the mode on turns the other three off
   * and shows the backglass; turning it off forgets the mouse height.
   */
  method ToggleSetGrillHeight(st: EditorState)
    modifies st`activeTab, st`lampFilter, st`mouseWorldX, st`mouseWorldY
    modifies st`setGrillHeight, st`setSmallGrillHeight, st`copyDmdFromBackglass, st`setDmdDefaultLocation
    modifies st`selectedBulbIds, st`selectedScoreIds, st`primarySelection
    ensures st.setGrillHeight == !old(st.setGrillHeight)
    ensures st.setGrillHeight ==> ModeCount(st) == 1 && st.activeTab == BackglassTab
    ensures !st.setGrillHeight ==>
      st.mouseWorldY.None? && st.setSmallGrillHeight == old(st.setSmallGrillHeight)
      && st.copyDmdFromBackglass == old(st.copyDmdFromBackglass)
      && st.setDmdDefaultLocation == old(st.setDmdDefaultLocation)
      && st.activeTab == old(st.activeTab) && SelectionOf(st) == old(SelectionOf(st))
    ensures old(ModeCount(st)) <= 1 ==> ModeCount(st) <= 1
  {
    st.setGrillHeight := !st.setGrillHeight;
    if st.setGrillHeight {
      st.setSmallGrillHeight := false;
      st.copyDmdFromBackglass := false;
      st.setDmdDefaultLocation := false;
      ShowBackglass(st);
    } else {
      st.mouseWorldY := None;
    }
  }

  /** `toggleSetSmallGrillHeight`: as for the grill height, with the small grill. */
  method ToggleSetSmallGrillHeight(st: EditorState)
    modifies st`activeTab, st`lampFilter, st`mouseWorldX, st`mouseWorldY
    modifies st`setGrillHeight, st`setSmallGrillHeight, st`copyDmdFromBackglass, st`setDmdDefaultLocation
    modifies st`selectedBulbIds, st`selectedScoreIds, st`primarySelection
    ensures st.setSmallGrillHeight == !old(st.setSmallGrillHeight)
    ensures st.setSmallGrillHeight ==> ModeCount(st) == 1 && st.activeTab == BackglassTab
    ensures !st.setSmallGrillHeight ==>
      st.mouseWorldY.None? && st.setGrillHeight == old(st.setGrillHeight)
      && st.copyDmdFromBackglass == old(st.copyDmdFromBackglass)
      && st.setDmdDefaultLocation == old(st.setDmdDefaultLocation)
      && st.activeTab == old(st.activeTab) && SelectionOf(st) == old(SelectionOf(st))
    ensures old(ModeCount(st)) <= 1 ==> ModeCount(st) <= 1
  {
    st.setSmallGrillHeight := !st.setSmallGrillHeight;
    if st.setSmallGrillHeight {
      st.setGrillHeight := false;
      st.copyDmdFromBackglass := false;
      st.setDmdDefaultLocation := false;
      ShowBackglass(st);
    } else {
      st.mouseWorldY := None;
    }
  }

  /**
   * `toggleCopyDmdFromBackglass`: turning the mode on turns the other three
   * off, shows the backglass and, when the copy area has no size yet and a
   * backglass image is loaded, places a default area: a third of the image
   * wide, a sixth high, centred across and three quarters down.
   */
  method ToggleCopyDmdFromBackglass(st: EditorState)
    modifies st`activeTab, st`lampFilter, st`mouseWorldX, st`mouseWorldY
    modifies st`setGrillHeight, st`setSmallGrillHeight, st`copyDmdFromBackglass, st`setDmdDefaultLocation
    modifies st`selectedBulbIds, st`selectedScoreIds, st`primarySelection, st`data
    ensures st.copyDmdFromBackglass == !old(st.copyDmdFromBackglass)
    ensures st.copyDmdFromBackglass ==> ModeCount(st) == 1 && st.activeTab == BackglassTab
    ensures !st.copyDmdFromBackglass ==>
      st.setGrillHeight == old(st.setGrillHeight) && st.setSmallGrillHeight == old(st.setSmallGrillHeight)
      && st.setDmdDefaultLocation == old(st.setDmdDefaultLocation)
      && st.activeTab == old(st.activeTab) && SelectionOf(st) == old(SelectionOf(st))
      && st.data == old(st.data)
    ensures var d := old(st.data);
      if st.copyDmdFromBackglass && (d.dmdCopyAreaWidth <= 0 || d.dmdCopyAreaHeight <= 0) && st.backgroundImage.Some? then
        var w, h := st.backgroundImage.value.width, st.backgroundImage.value.height;
        st.data == d.(dmdCopyAreaX := Round(w / 2.0 - w / 6.0), dmdCopyAreaY := Round(h / 4.0 * 3.0),
          dmdCopyAreaWidth := Round(w / 3.0), dmdCopyAreaHeight := Round(h / 6.0))
      else st.data == d
    ensures old(ModeCount(st)) <= 1 ==> ModeCount(st) <= 1
  {
    st.copyDmdFromBackglass := !st.copyDmdFromBackglass;
    if st.copyDmdFromBackglass {
      st.setDmdDefaultLocation := false;
      st.setGrillHeight := false;
      st.setSmallGrillHeight := false;
      ShowBackglass(st);
      if st.data.dmdCopyAreaWidth <= 0 || st.data.dmdCopyAreaHeight <= 0 {
        match st.backgroundImage
        case Some(image) =>
          st.data := st.data.(
            dmdCopyAreaX := Round(image.width / 2.0 - image.width / 6.0),
            dmdCopyAreaY := Round(image.height / 4.0 * 3.0),
            dmdCopyAreaWidth := Round(image.width / 3.0),
            dmdCopyAreaHeight := Round(image.height / 6.0));
        case None =>
      }
    }
  }

  /**
   * The default copy area lies within half a pixel of the image's middle
   * third across and of its band from three quarters to eleven twelfths down.
   */
  lemma DefaultCopyAreaPlacement(w: real, h: real)
    ensures var x, width := Round(w / 2.0 - w / 6.0), Round(w / 3.0);
      w / 3.0 - 0.5 <= x as real <= w / 3.0 + 0.5 && w / 3.0 - 0.5 <= width as real <= w / 3.0 + 0.5
    ensures var y, height := Round(h / 4.0 * 3.0), Round(h / 6.0);
      h * 3.0 / 4.0 - 0.5 <= y as real <= h * 3.0 / 4.0 + 0.5 && h / 6.0 - 0.5 <= height as real <= h / 6.0 + 0.5
  {
  }

  /**
   * `toggleSetDmdDefaultLocation`: refused while no DMD image is loaded;
   * turning the mode on turns the other three off and shows the backglass;
   * turning it off forgets the mouse position.
   */
  method ToggleSetDmdDefaultLocation(st: EditorState)
    modifies st`activeTab, st`lampFilter, st`mouseWorldX, st`mouseWorldY
    modifies st`setGrillHeight, st`setSmallGrillHeight, st`copyDmdFromBackglass, st`setDmdDefaultLocation
    modifies st`selectedBulbIds, st`selectedScoreIds, st`primarySelection
    ensures old(st.dmdImage).None? ==>
      st.setDmdDefaultLocation == old(st.setDmdDefaultLocation) && ModeCount(st) == old(ModeCount(st))
      && st.activeTab == old(st.activeTab) && SelectionOf(st) == old(SelectionOf(st))
    ensures old(st.dmdImage).Some? ==> st.setDmdDefaultLocation == !old(st.setDmdDefaultLocation)
    ensures old(st.dmdImage).Some? && st.setDmdDefaultLocation ==> ModeCount(st) == 1 && st.activeTab == BackglassTab
    ensures old(st.dmdImage).Some? && !st.setDmdDefaultLocation ==>
      st.mouseWorldX.None? && st.mouseWorldY.None?
      && st.setGrillHeight == old(st.setGrillHeight) && st.setSmallGrillHeight == old(st.setSmallGrillHeight)
      && st.copyDmdFromBackglass == old(st.copyDmdFromBackglass)
      && st.activeTab == old(st.activeTab) && SelectionOf(st) == old(SelectionOf(st))
    ensures old(ModeCount(st)) <= 1 ==> ModeCount(st) <= 1
  {
    if st.dmdImage.None? {
      return;
    }
    st.setDmdDefaultLocation := !st.setDmdDefaultLocation;
    if st.setDmdDefaultLocation {
      st.copyDmdFromBackglass := false;
      st.setGrillHeight := false;
      st.setSmallGrillHeight := false;
      ShowBackglass(st);
    } else {
      st.mouseWorldX := None;
      st.mouseWorldY := None;
    }
  }

  /**
   * `toggleScoreFrames`: showing the frames also turns scoring on; hiding
   * them deselects every score and drops a score primary selection (the
   * bulb selection is kept).
   */
  method ToggleScoreFrames(st: EditorState)
    modifies st`showScoreFrames, st`showScoring, st`selectedScoreIds, st`primarySelection
    ensures st.showScoreFrames == !old(st.showScoreFrames)
    ensures st.showScoreFrames ==> st.showScoring && SelectionOf(st) == old(SelectionOf(st))
    ensures !st.showScoreFrames ==>
      st.showScoring == old(st.showScoring) && st.selectedScoreIds == []
      && (old(st.primarySelection).Some? && old(st.primarySelection).value.kind == ScoreSelection ==>
            st.primarySelection.None?)
      && (old(st.primarySelection).None? || old(st.primarySelection).value.kind == BulbSelection ==>
            st.primarySelection == old(st.primarySelection))
    ensures st.selectedBulbIds == old(st.selectedBulbIds)
    ensures forall id :: !IsIn(SelectionOf(st), ScoreSelection, id) || st.showScoreFrames
  {
    st.showScoreFrames := !st.showScoreFrames;
    if st.showScoreFrames {
      st.showScoring := true;
    } else {
      st.selectedScoreIds := [];
      if st.primarySelection.Some? && st.primarySelection.value.kind == ScoreSelection {
        st.primarySelection := None;
      }
    }
  }

  /** `toggleScoring`: turning scoring off also hides the score frames. */
  method ToggleScoring(st: EditorState)
    modifies st`showScoring, st`showScoreFrames
    ensures st.showScoring == !old(st.showScoring)
    ensures !st.showScoring ==> !st.showScoreFrames
    ensures st.showScoring ==> st.showScoreFrames == old(st.showScoreFrames)
  {
    st.showScoring := !st.showScoring;
    if !st.showScoring {
      st.showScoreFrames := false;
    }
  }

  /**
   * `toggleIlluminationFrames`: hiding the bulb frames deselects every bulb
   * and drops a bulb primary selection (the score selection is kept).
   */
  method ToggleIlluminationFrames(st: EditorState)
    modifies st`showIlluminationFrames, st`selectedBulbIds, st`primarySelection
    ensures st.showIlluminationFrames == !old(st.showIlluminationFrames)
    ensures st.showIlluminationFrames ==> SelectionOf(st) == old(SelectionOf(st))
    ensures !st.showIlluminationFrames ==>
      st.selectedBulbIds == []
      && (old(st.primarySelection).Some? && old(st.primarySelection).value.kind == BulbSelection ==>
            st.primarySelection.None?)
      && (old(st.primarySelection).None? || old(st.primarySelection).value.kind == ScoreSelection ==>
            st.primarySelection == old(st.primarySelection))
    ensures st.selectedScoreIds == old(st.selectedScoreIds)
    ensures forall id :: !IsIn(SelectionOf(st), BulbSelection, id) || st.showIlluminationFrames
  {
    st.showIlluminationFrames := !st.showIlluminationFrames;
    if !st.showIlluminationFrames {
      st.selectedBulbIds := [];
      if st.primarySelection.Some? && st.primarySelection.value.kind == BulbSelection {
        st.primarySelection := None;
      }
    }
  }

  /**
   * `toggleIllumination` and `toggleIlluminationIntensity` flip one view
   * flag each; the buttons they restyle are not modelled.
   */
  method ToggleIllumination(st: EditorState)
    modifies st`showIllumination
    ensures st.showIllumination == !old(st.showIllumination)
  {
    st.showIllumination := !st.showIllumination;
  }

  method ToggleIlluminationIntensity(st: EditorState)
    modifies st`showIlluminationIntensity
    ensures st.showIlluminationIntensity == !old(st.showIlluminationIntensity)
  {
    st.showIlluminationIntensity := !st.showIlluminationIntensity;
  }

  // ---------------------------------------------------------------------
  // Resizing the active image

  /** The sizes the resize dialog reports; the source image has area. */
  datatype ResizeSettings = ResizeSettings(originalWidth: real, originalHeight: real, newWidth: real, newHeight: real)

  /** What the asynchronous image step delivers: the new base64 data and its decoded size. */
  datatype ImageResult = ImageResult(data: string, size: ImageSize)

  /** The parent whose items and image a tab edits. */
  function ActiveParent(tab: Tab): (p: Parent)
    ensures p == Dmd <==> tab == DmdTab
  {
    if tab == DmdTab then Dmd else Backglass
  }

  function ScaledBulb(b: Bulb, sx: real, sy: real): Bulb
  {
    b.(locX := Round(b.locX * sx) as real, locY := Round(b.locY * sy) as real,
       width := Round(b.width * sx) as real, height := Round(b.height * sy) as real)
  }

  function ScaledScore(s: Score, sx: real, sy: real): Score
  {
    s.(locX := Round(s.locX * sx) as real, locY := Round(s.locY * sy) as real,
       width := Round(s.width * sx) as real, height := Round(s.height * sy) as real)
  }

  /** The bulb list after the scaling loop: bulbs of the parent scaled, the others as they were. */
  function ScaleBulbs(bulbs: seq<Bulb>, parent: Parent, sx: real, sy: real): seq<Bulb>
  {
    seq(|bulbs|, i requires 0 <= i < |bulbs| =>
      if bulbs[i].parent == parent then ScaledBulb(bulbs[i], sx, sy) else bulbs[i])
  }

  function ScaleScores(scores: seq<Score>, parent: Parent, sx: real, sy: real): seq<Score>
  {
    seq(|scores|, i requires 0 <= i < |scores| =>
      if scores[i].parent == parent then ScaledScore(scores[i], sx, sy) else scores[i])
  }

  /**
   * Scaling keeps every bulb in its place with its id and parent, leaves
   * the other parent's bulbs alone, and puts every scaled coordinate and
   * size within half a unit of the exact product.
   */
  lemma ScaleBulbsFaithful(bulbs: seq<Bulb>, parent: Parent, sx: real, sy: real)
    ensures var r := ScaleBulbs(bulbs, parent, sx, sy);
      && |r| == |bulbs|
      && (forall i :: 0 <= i < |r| ==> r[i].id == bulbs[i].id && r[i].parent == bulbs[i].parent)
      && (forall i :: 0 <= i < |r| && bulbs[i].parent != parent ==> r[i] == bulbs[i])
      && (forall i :: 0 <= i < |r| && bulbs[i].parent == parent ==>
            bulbs[i].locX * sx - 0.5 < r[i].locX <= bulbs[i].locX * sx + 0.5
            && bulbs[i].locY * sy - 0.5 < r[i].locY <= bulbs[i].locY * sy + 0.5
            && bulbs[i].width * sx - 0.5 < r[i].width <= bulbs[i].width * sx + 0.5
            && bulbs[i].height * sy - 0.5 < r[i].height <= bulbs[i].height * sy + 0.5)
  {
  }

  /** The same for scores. */
  lemma ScaleScoresFaithful(scores: seq<Score>, parent: Parent, sx: real, sy: real)
    ensures var r := ScaleScores(scores, parent, sx, sy);
      && |r| == |scores|
      && (forall i :: 0 <= i < |r| ==> r[i].id == scores[i].id && r[i].parent == scores[i].parent)
      && (forall i :: 0 <= i < |r| && scores[i].parent != parent ==> r[i] == scores[i])
      && (forall i :: 0 <= i < |r| && scores[i].parent == parent ==>
            scores[i].locX * sx - 0.5 < r[i].locX <= scores[i].locX * sx + 0.5
            && scores[i].locY * sy - 0.5 < r[i].locY <= scores[i].locY * sy + 0.5
            && scores[i].width * sx - 0.5 < r[i].width <= scores[i].width * sx + 0.5
            && scores[i].height * sy - 0.5 < r[i].height <= scores[i].height * sy + 0.5)
  {
  }

  /** The first-image data of the list a parent uses, replaced. */
  function WithFirstImageData(images: ImageCollection, parent: Parent, data: string): ImageCollection
  {
    if parent == Dmd then
      if images.dmdImages == [] then images
      else images.(dmdImages := images.dmdImages[0 := images.dmdImages[0].(imageData := data)])
    else
      if images.backgroundImages == [] then images
      else images.(backgroundImages := images.backgroundImages[0 := images.backgroundImages[0].(imageData := data)])
  }

  predicate HasImage(images: ImageCollection, parent: Parent)
  {
    if parent == Dmd then images.dmdImages != [] else images.backgroundImages != []
  }

  /** The document after a resize: items of the parent scaled, the image collection replaced. */
  function ResizedDocument(d: Document, parent: Parent, sx: real, sy: real, images: ImageCollection): Document
  {
    d.(illumination := ScaleBulbs(d.illumination, parent, sx, sy),
       scores := ScaleScores(d.scores, parent, sx, sy),
       images := images)
  }

  /** The open record `r` once the images of `d` are marked: a first snapshot is kept. */
  function ImagesMarks(r: UndoRecord, d: Document): UndoRecord
  {
    if r.imagesBefore.Some? then r else r.(imagesBefore := Some(d.images))
  }

  /** The open record `r` once every item of the parent and the images of `d` are marked, first snapshots kept. */
  function ResizeMarks(r: UndoRecord, d: Document, parent: Parent): UndoRecord
    requires DistinctKeys(r.bulbSnapshots) && DistinctKeys(r.scoreSnapshots)
  {
    ImagesMarks(r, d).(
      bulbSnapshots := MarkAll(r.bulbSnapshots, d.illumination, BulbKey, IncludeBulb(Some(parent))),
      scoreSnapshots := MarkAll(r.scoreSnapshots, d.scores, ScoreKey, IncludeScore(Some(parent))))
  }

  /** The record a resize opens on `d`: every item of the parent and the images are marked. */
  function ResizeRecord(d: Document, parent: Parent): (r: UndoRecord)
    ensures HasChanges(r) && WellFormed(r)
  {
    MarkAllWellKeyed([], d.illumination, BulbKey, IncludeBulb(Some(parent)));
    MarkAllWellKeyed([], d.scores, ScoreKey, IncludeScore(Some(parent)));
    ResizeMarks(CreateUndoRecord("Resize image"), d, parent)
  }

  /** Each snapshot of a fresh `markAll*ForUndo` holds what the list held for its key. */
  lemma MarkAllCaptured<K, T>(items: seq<T>, key: T -> K, pick: T -> bool)
    requires UniqueKeys(items, key)
    ensures forall i :: 0 <= i < |MarkAll([], items, key, pick)| ==>
      MarkAll([], items, key, pick)[i].snapshot.before == Find(items, key, MarkAll([], items, key, pick)[i].key)
  {
    var es := MarkAll([], items, key, pick);
    forall i | 0 <= i < |es|
      ensures es[i].snapshot.before == Find(items, key, es[i].key)
    {
      MarkAllLookup([], items, key, pick, es[i].key);
      FindUnique(es, EntryKey, i);
    }
  }

  /**
   * A list changed only at picked items, keys kept: a key a fresh
   * `markAll*ForUndo` left unmarked finds the same item before and after.
   */
  lemma UnmarkedUnchanged<K, T>(start: seq<T>, now: seq<T>, key: T -> K, pick: T -> bool, k: K)
    requires UniqueKeys(start, key) && |now| == |start|
    requires forall i :: 0 <= i < |start| ==> key(now[i]) == key(start[i])
    requires forall i :: 0 <= i < |start| && !pick(start[i]) ==> now[i] == start[i]
    requires !Has(MarkAll([], start, key, pick), k)
    ensures Find(now, key, k) == Find(start, key, k)
  {
    MarkAllLookup([], start, key, pick, k);
    FindIndexSameKeys(now, start, key, k);
  }

  lemma ResizeCaptured(start: Document, parent: Parent)
    requires UniqueIds(start)
    ensures CapturedFrom(ResizeRecord(start, parent), start)
  {
    var r := ResizeRecord(start, parent);
    var bs := MarkAll([], start.illumination, BulbKey, IncludeBulb(Some(parent)));
    var ss := MarkAll([], start.scores, ScoreKey, IncludeScore(Some(parent)));
    assert r.bulbSnapshots == bs && r.scoreSnapshots == ss && r.animationSnapshots == [];
    MarkAllCaptured(start.illumination, BulbKey, IncludeBulb(Some(parent)));
    MarkAllCaptured(start.scores, ScoreKey, IncludeScore(Some(parent)));
    assert forall i :: 0 <= i < |bs| ==> bs[i].snapshot.before == Find(start.illumination, BulbKey, bs[i].key);
    assert forall i :: 0 <= i < |ss| ==> ss[i].snapshot.before == Find(start.scores, ScoreKey, ss[i].key);
  }

  lemma ResizeChangesOnlyMarked(start: Document, parent: Parent, sx: real, sy: real, images: ImageCollection)
    requires UniqueIds(start)
    ensures UniqueIds(ResizedDocument(start, parent, sx, sy, images))
    ensures ChangedOnlyMarked(ResizeRecord(start, parent), start, ResizedDocument(start, parent, sx, sy, images))
  {
    var now := ResizedDocument(start, parent, sx, sy, images);
    var r := ResizeRecord(start, parent);
    ScaleBulbsFaithful(start.illumination, parent, sx, sy);
    ScaleScoresFaithful(start.scores, parent, sx, sy);
    forall k | !Has(r.bulbSnapshots, k)
      ensures Find(now.illumination, BulbKey, k) == Find(start.illumination, BulbKey, k)
    {
      UnmarkedUnchanged(start.illumination, now.illumination, BulbKey, IncludeBulb(Some(parent)), k);
    }
    forall k | !Has(r.scoreSnapshots, k)
      ensures Find(now.scores, ScoreKey, k) == Find(start.scores, ScoreKey, k)
    {
      UnmarkedUnchanged(start.scores, now.scores, ScoreKey, IncludeScore(Some(parent)), k);
    }
    assert forall i :: 0 <= i < |now.illumination| ==> BulbKey(now.illumination[i]) == BulbKey(start.illumination[i]);
    assert forall i :: 0 <= i < |now.scores| ==> ScoreKey(now.scores[i]) == ScoreKey(start.scores[i]);
  }

  /**
   * Undoing a committed resize gives back the content the document had
   * before it: the marks cover every item the scaling moved, and the
   * images were snapshotted.
   */
  lemma ResizeIsUndoable(start: Document, parent: Parent, sx: real, sy: real, images: ImageCollection)
    requires UniqueIds(start)
    ensures var now := ResizedDocument(start, parent, sx, sy, images);
      SameContent(ApplyRecordTo(now, FinalizeRecord(ResizeRecord(start, parent), now), true), start)
  {
    ResizeCaptured(start, parent);
    ResizeChangesOnlyMarked(start, parent, sx, sy, images);
    UndoGivesBackStart(start, ResizedDocument(start, parent, sx, sy, images), ResizeRecord(start, parent));
  }

  /** The scaling loop over the bulbs: `for (const bulb of illumination)`, skipping other parents. */
  method ScaleBulbsInPlace(st: EditorState, parent: Parent, sx: real, sy: real)
    modifies st`data
    ensures st.data == old(st.data).(illumination := ScaleBulbs(old(st.data.illumination), parent, sx, sy))
  {
    var bulbs := st.data.illumination;
    for i := 0 to |bulbs|
      invariant st.data == old(st.data).(illumination := st.data.illumination)
      invariant |st.data.illumination| == |bulbs|
      invariant forall j :: 0 <= j < i ==> st.data.illumination[j] == ScaleBulbs(bulbs, parent, sx, sy)[j]
      invariant forall j :: i <= j < |bulbs| ==> st.data.illumination[j] == bulbs[j]
    {
      var bulb := st.data.illumination[i];
      if bulb.parent == parent {
        st.data := st.data.(illumination := st.data.illumination[i := ScaledBulb(bulb, sx, sy)]);
      }
    }
    assert st.data.illumination == ScaleBulbs(bulbs, parent, sx, sy);
  }

  /** The scaling loop over the scores. */
  method ScaleScoresInPlace(st: EditorState, parent: Parent, sx: real, sy: real)
    modifies st`data
    ensures st.data == old(st.data).(scores := ScaleScores(old(st.data.scores), parent, sx, sy))
  {
    var scores := st.data.scores;
    for i := 0 to |scores|
      invariant st.data == old(st.data).(scores := st.data.scores)
      invariant |st.data.scores| == |scores|
      invariant forall j :: 0 <= j < i ==> st.data.scores[j] == ScaleScores(scores, parent, sx, sy)[j]
      invariant forall j :: i <= j < |scores| ==> st.data.scores[j] == scores[j]
    {
      var score := st.data.scores[i];
      if score.parent == parent {
        st.data := st.data.(scores := st.data.scores[i := ScaledScore(score, sx, sy)]);
      }
    }
    assert st.data.scores == ScaleScores(scores, parent, sx, sy);
  }

  /**
   * The `try` block shared by resizing and brightness: the parent's first
   * image takes the new data and size, and the transaction is committed;
   * when the image step fails the transaction is cancelled instead and
   * nothing else changes.
   */
  method FinishImageOperation(st: EditorState, um: UndoManager, parent: Parent, result: Option<ImageResult>)
      returns (committed: bool)
    requires um.Valid()
    modifies st`data, st`isDirty, st`backgroundImage, st`dmdImage, um
    ensures um.Valid()
    ensures committed <==> !HasImage(old(st.data.images), parent) || result.Some?
    ensures !committed ==>
      um.transactionDepth == 0 && um.currentRecord.None?
      && um.undoStack == old(um.undoStack) && um.redoStack == old(um.redoStack)
      && um.savePointIndex == old(um.savePointIndex)
      && st.data == old(st.data) && st.isDirty == old(st.isDirty)
      && st.backgroundImage == old(st.backgroundImage) && st.dmdImage == old(st.dmdImage)
    ensures committed ==> st.isDirty
    ensures committed && result.Some? ==>
      st.data == old(st.data).(images := WithFirstImageData(old(st.data.images), parent, result.value.data))
    ensures committed && result.None? ==> st.data == old(st.data)
    ensures committed && HasImage(old(st.data.images), parent) && parent == Dmd ==>
      st.dmdImage == Some(result.value.size) && st.backgroundImage == old(st.backgroundImage)
    ensures committed && HasImage(old(st.data.images), parent) && parent == Backglass ==>
      st.backgroundImage == Some(result.value.size) && st.dmdImage == old(st.dmdImage)
    ensures committed && old(um.transactionDepth) == 1 && HasChanges(old(um.currentRecord).value) ==>
      um.undoStack == PushCapped(old(um.undoStack), FinalizeRecord(old(um.currentRecord).value, st.data))
      && um.redoStack == [] && um.transactionDepth == 0
    ensures committed && old(um.transactionDepth) == 1 && !HasChanges(old(um.currentRecord).value) ==>
      um.undoStack == old(um.undoStack) && um.redoStack == old(um.redoStack)
      && um.transactionDepth == 0 && um.savePointIndex == old(um.savePointIndex)
    ensures committed && old(um.transactionDepth) != 1 ==>
      um.transactionDepth == (if old(um.transactionDepth) == 0 then 0 else old(um.transactionDepth) - 1)
      && um.currentRecord == old(um.currentRecord) && um.savePointIndex == old(um.savePointIndex)
      && um.undoStack == old(um.undoStack) && um.redoStack == old(um.redoStack)
  {
    if HasImage(st.data.images, parent) {
      match result
      case None =>
        um.CancelUndo();
        return false;
      case Some(image) =>
        st.data := st.data.(images := WithFirstImageData(st.data.images, parent, image.data));
        if parent == Dmd {
          st.dmdImage := Some(image.size);
        } else {
          st.backgroundImage := Some(image.size);
        }
    }
    um.EndUndo(st);
    st.MarkDirty();
    return true;
  }

  /**
   * `performResize`: nothing happens when the size is unchanged; otherwise
   * one transaction marks every item of the active parent and the images,
   * scales the items' positions and sizes (rounded), and replaces the first
   * image of the parent.  When the image step fails the transaction is
   * cancelled, so the scaled items stay but no undo record is kept.
   */
  method PerformResize(st: EditorState, um: UndoManager, settings: ResizeSettings, result: Option<ImageResult>)
    requires um.Valid()
    requires settings.originalWidth > 0.0 && settings.originalHeight > 0.0
    modifies st`data, st`isDirty, st`backgroundImage, st`dmdImage, um
    ensures um.Valid()
    ensures settings.newWidth == settings.originalWidth && settings.newHeight == settings.originalHeight ==>
      st.data == old(st.data) && st.isDirty == old(st.isDirty)
      && um.undoStack == old(um.undoStack) && um.redoStack == old(um.redoStack)
      && um.currentRecord == old(um.currentRecord) && um.transactionDepth == old(um.transactionDepth)
    ensures settings.newWidth != settings.originalWidth || settings.newHeight != settings.originalHeight ==>
      var parent := ActiveParent(st.activeTab);
      var sx, sy := settings.newWidth / settings.originalWidth, settings.newHeight / settings.originalHeight;
      var images := old(st.data.images);
      var committed := !HasImage(images, parent) || result.Some?;
      && st.data == ResizedDocument(old(st.data), parent, sx, sy,
           if committed && result.Some? then WithFirstImageData(images, parent, result.value.data) else images)
      && (!committed ==>
            um.transactionDepth == 0 && um.currentRecord.None?
            && um.undoStack == old(um.undoStack) && um.redoStack == old(um.redoStack))
      && (committed && old(um.transactionDepth) == 0 ==>
            um.undoStack == PushCapped(old(um.undoStack), FinalizeRecord(ResizeRecord(old(st.data), parent), st.data))
            && um.redoStack == [] && um.transactionDepth == 0 && st.isDirty)
      && (committed && old(um.transactionDepth) > 0 ==>
            um.transactionDepth == old(um.transactionDepth) && um.undoStack == old(um.undoStack)
            && um.redoStack == old(um.redoStack) && st.isDirty
            && um.currentRecord == Some(ResizeMarks(old(um.currentRecord).value, old(st.data), parent)))
  {
    if settings.newWidth == settings.originalWidth && settings.newHeight == settings.originalHeight {
      return;
    }
    var parent := ActiveParent(st.activeTab);
    var scaleX := settings.newWidth / settings.originalWidth;
    var scaleY := settings.newHeight / settings.originalHeight;
    ghost var start := st.data;

    um.BeginUndo("Resize image");
    um.MarkAllBulbsForUndo(st, Some(parent));
    um.MarkAllScoresForUndo(st, Some(parent));
    um.MarkImagesForUndo(st);
    assert old(um.transactionDepth) == 0 ==> um.currentRecord == Some(ResizeRecord(start, parent));
    assert old(um.transactionDepth) > 0 ==> um.currentRecord == Some(ResizeMarks(old(um.currentRecord).value, start, parent));

    ScaleBulbsInPlace(st, parent, scaleX, scaleY);
    ScaleScoresInPlace(st, parent, scaleX, scaleY);
    var _ := FinishImageOperation(st, um, parent, result);
  }

  /**
   * `performBrightness`: nothing happens for a zero adjustment; otherwise
   * one transaction marks the images and replaces the first image of the
   * active parent, or is cancelled when the image step fails.
   */
  method PerformBrightness(st: EditorState, um: UndoManager, brightness: int, result: Option<ImageResult>)
    requires um.Valid()
    modifies st`data, st`isDirty, st`backgroundImage, st`dmdImage, um
    ensures um.Valid()
    ensures brightness == 0 ==>
      st.data == old(st.data) && st.isDirty == old(st.isDirty)
      && um.undoStack == old(um.undoStack) && um.redoStack == old(um.redoStack)
      && um.currentRecord == old(um.currentRecord) && um.transactionDepth == old(um.transactionDepth)
    ensures brightness != 0 ==>
      var parent := ActiveParent(st.activeTab);
      var images := old(st.data.images);
      var committed := !HasImage(images, parent) || result.Some?;
      && (!committed ==>
            st.data == old(st.data) && um.transactionDepth == 0 && um.currentRecord.None?
            && um.undoStack == old(um.undoStack) && um.redoStack == old(um.redoStack))
      && (committed && result.Some? ==>
            st.data == old(st.data).(images := WithFirstImageData(images, parent, result.value.data)))
      && (committed && old(um.transactionDepth) == 0 ==>
            um.undoStack == PushCapped(old(um.undoStack),
              FinalizeRecord(CreateUndoRecord("Adjust brightness").(imagesBefore := Some(images)), st.data))
            && um.redoStack == [] && um.transactionDepth == 0 && st.isDirty)
      && (committed && old(um.transactionDepth) > 0 ==>
            um.transactionDepth == old(um.transactionDepth) && um.undoStack == old(um.undoStack)
            && um.redoStack == old(um.redoStack) && st.isDirty
            && um.currentRecord == Some(ImagesMarks(old(um.currentRecord).value, old(st.data))))
  {
    if brightness == 0 {
      return;
    }
    var parent := ActiveParent(st.activeTab);
    um.BeginUndo("Adjust brightness");
    um.MarkImagesForUndo(st);
    var _ := FinishImageOperation(st, um, parent, result);
  }

  // ---------------------------------------------------------------------
  // Saving and deleting animations

  /** The animation list after a save: a new one is appended, an edit replaces the first of that name. */
  function SavedAnimations(anims: seq<Animation>, a: Animation, isNew: bool): (r: seq<Animation>)
    ensures a in r
    ensures forall x :: x in r ==> x in anims || x == a
    ensures forall x :: x in anims && x.name != a.name ==> x in r
    ensures |r| == if !isNew && HasKey(anims, AnimationKey, a.name) then |anims| else |anims| + 1
  {
    if isNew then anims + [a]
    else match FindIndex(anims, AnimationKey, a.name)
      case Some(i) =>
        assert forall x :: x in anims && x.name != a.name ==> x in anims[i := a] by {
          forall x | x in anims && x.name != a.name
            ensures x in anims[i := a]
          {
            var j :| 0 <= j < |anims| && anims[j] == x;
            assert anims[i := a][j] == x;
          }
        }
        assert anims[i := a][i] == a;
        anims[i := a]
      case None => anims + [a]
  }

  /** A save keeps names unique unless it adds a second animation of an existing name. */
  lemma SavedAnimationsUnique(anims: seq<Animation>, a: Animation, isNew: bool)
    requires UniqueKeys(anims, AnimationKey)
    requires isNew ==> !HasKey(anims, AnimationKey, a.name)
    ensures UniqueKeys(SavedAnimations(anims, a, isNew), AnimationKey)
  {
    var r := SavedAnimations(anims, a, isNew);
    if |r| == |anims| {
      var i := FindIndex(anims, AnimationKey, a.name).value;
      assert r == anims[i := a];
      assert forall j :: 0 <= j < |r| ==> AnimationKey(r[j]) == AnimationKey(anims[j]);
    } else {
      assert r == anims + [a];
      assert forall j :: 0 <= j < |anims| ==> r[j] == anims[j];
    }
  }

  /** The animation list after deleting the first animation of a name; nothing happens when there is none. */
  function DeletedAnimations(anims: seq<Animation>, name: string): (r: seq<Animation>)
    ensures forall x :: x in r ==> x in anims
    ensures forall x :: x in anims && x.name != name ==> x in r
    ensures |r| == if HasKey(anims, AnimationKey, name) then |anims| - 1 else |anims|
    ensures UniqueKeys(anims, AnimationKey) ==> UniqueKeys(r, AnimationKey) && !HasKey(r, AnimationKey, name)
  {
    match FindIndex(anims, AnimationKey, name)
    case None => anims
    case Some(i) =>
      RemovedAt(anims, i, name);
      anims[..i] + anims[i + 1..]
  }

  /** Taking out the animation at `i`, which carries `name`, keeps every other one and no second `name`. */
  lemma RemovedAt(anims: seq<Animation>, i: nat, name: string)
    requires i < |anims| && anims[i].name == name
    ensures var r := anims[..i] + anims[i + 1..];
      && (forall x :: x in r ==> x in anims)
      && (forall x :: x in anims && x.name != name ==> x in r)
      && |r| == |anims| - 1
      && (UniqueKeys(anims, AnimationKey) ==> UniqueKeys(r, AnimationKey) && !HasKey(r, AnimationKey, name))
  {
    var r := anims[..i] + anims[i + 1..];
    assert forall j :: 0 <= j < |r| ==> r[j] == anims[if j < i then j else j + 1];
    forall x | x in anims && x.name != name
      ensures x in r
    {
      var j :| 0 <= j < |anims| && anims[j] == x;
      assert j != i;
      assert r[if j < i then j else j - 1] == x;
    }
    if UniqueKeys(anims, AnimationKey) {
      forall j | 0 <= j < |r|
        ensures AnimationKey(r[j]) != name
      {
        var k := if j < i then j else j + 1;
        assert r[j] == anims[k] && k != i;
      }
    }
  }

  function SaveDescription(isNew: bool): string
  {
    if isNew then "Add animation" else "Edit animation"
  }

  /** The open record `r` once every animation of `d` is marked, first snapshots kept. */
  function AnimationsMarks(r: UndoRecord, d: Document): UndoRecord
    requires DistinctKeys(r.animationSnapshots)
  {
    r.(animationSnapshots := MarkAll(r.animationSnapshots, d.animations, AnimationKey, IncludeAnimation))
  }

  /** The open record `r` once every animation of `d` and then the saved name are marked, first snapshots kept. */
  function SaveMarks(r: UndoRecord, d: Document, name: string): UndoRecord
    requires DistinctKeys(r.animationSnapshots)
  {
    var es := MarkAll(r.animationSnapshots, d.animations, AnimationKey, IncludeAnimation);
    r.(animationSnapshots := MarkForUndo(es, name, Find(d.animations, AnimationKey, name)))
  }

  /** The record `handleAnimationSaved` opens, as written: every existing animation is marked. */
  function SaveRecordAsWritten(d: Document, isNew: bool): (r: UndoRecord)
    ensures WellFormed(r)
    ensures forall k :: Has(r.animationSnapshots, k) <==> HasKey(d.animations, AnimationKey, k)
  {
    var es := MarkAll([], d.animations, AnimationKey, IncludeAnimation);
    MarkAllWellKeyed([], d.animations, AnimationKey, IncludeAnimation);
    assert forall k :: Has(es, k) <==> HasKey(d.animations, AnimationKey, k) by {
      forall k
        ensures Has(es, k) <==> HasKey(d.animations, AnimationKey, k)
      {
        MarkAllLookupAny(d.animations, k);
      }
    }
    CreateUndoRecord(SaveDescription(isNew)).(animationSnapshots := es)
  }

  /** With every animation picked, a name is marked exactly when the list holds it (names unique or not). */
  lemma MarkAllLookupAny(anims: seq<Animation>, k: string)
    ensures Has(MarkAll([], anims, AnimationKey, IncludeAnimation), k) <==> HasKey(anims, AnimationKey, k)
  {
    if anims != [] {
      var init := anims[..|anims| - 1];
      var x := anims[|anims| - 1];
      MarkAllLookupAny(init, k);
      var prev := MarkAll([], init, AnimationKey, IncludeAnimation);
      MarkForUndoKeepsFirst(prev, x.name, Some(x), k);
      if HasKey(init, AnimationKey, k) {
        var j :| 0 <= j < |init| && init[j].name == k;
        assert anims[j] == init[j];
      }
      if HasKey(anims, AnimationKey, k) && x.name != k {
        var j :| 0 <= j < |anims| && anims[j].name == k;
        assert init[j] == anims[j];
      }
    }
  }

  /**
   * The corrected record: the saved animation's name is marked as well, so
   * that undoing an addition removes the animation again.
   */
  function SaveRecord(d: Document, a: Animation, isNew: bool): (r: UndoRecord)
    ensures WellFormed(r) && HasChanges(r)
    ensures forall k :: Has(r.animationSnapshots, k) <==> HasKey(d.animations, AnimationKey, k) || k == a.name
  {
    var r0 := SaveRecordAsWritten(d, isNew);
    var es := MarkForUndo(r0.animationSnapshots, a.name, Find(d.animations, AnimationKey, a.name));
    MarkForUndoWellKeyed(r0.animationSnapshots, AnimationKey, a.name, Find(d.animations, AnimationKey, a.name));
    assert forall k :: Has(es, k) <==> Has(r0.animationSnapshots, k) || k == a.name by {
      forall k
        ensures Has(es, k) <==> Has(r0.animationSnapshots, k) || k == a.name
      {
        MarkForUndoKeepsFirst(r0.animationSnapshots, a.name, Find(d.animations, AnimationKey, a.name), k);
      }
    }
    r0.(animationSnapshots := es)
  }

  /** The record `handleAnimationDeleted` opens: every animation is marked. */
  function DeleteRecord(d: Document): (r: UndoRecord)
    ensures WellFormed(r)
    ensures HasChanges(r) <==> d.animations != []
  {
    var r0 := SaveRecordAsWritten(d, true);
    assert d.animations != [] ==> Has(r0.animationSnapshots, d.animations[0].name);
    r0.(description := "Delete animation")
  }

  /** Every mark of a fresh `markAnimationsForUndo` holds the animation the list had under that name. */
  lemma SaveMarksCaptured(start: Document, isNew: bool)
    requires UniqueIds(start)
    ensures CapturedFrom(SaveRecordAsWritten(start, isNew), start)
  {
    MarkAllCaptured(start.animations, AnimationKey, IncludeAnimation);
  }

  /** The extra mark of the saved name holds what the list had under it: nothing, for an addition. */
  lemma SaveRecordCaptured(start: Document, a: Animation, isNew: bool)
    requires UniqueIds(start)
    ensures CapturedFrom(SaveRecord(start, a, isNew), start)
  {
    var es0 := SaveRecordAsWritten(start, isNew).animationSnapshots;
    SaveMarksCaptured(start, isNew);
    if !Has(es0, a.name) {
      var es := SaveRecord(start, a, isNew).animationSnapshots;
      assert es == es0 + [Entry(a.name, Snapshot(Find(start.animations, AnimationKey, a.name), None))];
      assert forall i :: 0 <= i < |es0| ==> es[i] == es0[i];
    }
  }

  /** A name that neither list had nor gained finds nothing in either. */
  lemma NoNewName(start: seq<Animation>, now: seq<Animation>, k: string)
    requires forall x :: x in now && x.name == k ==> x in start
    requires !HasKey(start, AnimationKey, k)
    ensures Find(now, AnimationKey, k) == Find(start, AnimationKey, k)
  {
  }

  /** The document after a save or a delete differs from `start` in its animations alone. */
  lemma AnimationsOnlyChanged(r: UndoRecord, start: Document, now: Document)
    requires now == start.(animations := now.animations)
    requires r.bulbSnapshots == [] && r.scoreSnapshots == []
    requires r.imagesBefore.None? && r.grillHeightsBefore.None? && r.dmdAreaBefore.None?
    requires forall k :: !Has(r.animationSnapshots, k) ==>
      Find(now.animations, AnimationKey, k) == Find(start.animations, AnimationKey, k)
    ensures ChangedOnlyMarked(r, start, now)
  {
  }

  /**
   * Undoing a committed save gives back the content the document had
   * before it, for an edit and for an addition of a new name alike.  A new
   * animation saved under a name already in use is outside this claim:
   * the list then holds two animations of that name, which undo, working
   * by name, does not tell apart.
   */
  lemma SaveIsUndoable(start: Document, a: Animation, isNew: bool)
    requires UniqueIds(start)
    requires isNew ==> !HasKey(start.animations, AnimationKey, a.name)
    ensures var now := start.(animations := SavedAnimations(start.animations, a, isNew));
      SameContent(ApplyRecordTo(now, FinalizeRecord(SaveRecord(start, a, isNew), now), true), start)
  {
    var now := start.(animations := SavedAnimations(start.animations, a, isNew));
    var r := SaveRecord(start, a, isNew);
    SavedAnimationsUnique(start.animations, a, isNew);
    SaveRecordCaptured(start, a, isNew);
    forall k | !Has(r.animationSnapshots, k)
      ensures Find(now.animations, AnimationKey, k) == Find(start.animations, AnimationKey, k)
    {
      NoNewName(start.animations, now.animations, k);
    }
    AnimationsOnlyChanged(r, start, now);
    UndoGivesBackStart(start, now, r);
  }

  /**
   * The record as written misses a new name: after an addition is
   * committed and undone the added animation is still found, although the
   * list had no animation of that name before.
   */
  lemma SaveAsWrittenKeepsAddedAnimation(start: Document, a: Animation)
    requires UniqueIds(start)
    requires !HasKey(start.animations, AnimationKey, a.name)
    ensures Find(start.animations, AnimationKey, a.name) == None
    ensures var now := start.(animations := SavedAnimations(start.animations, a, true));
      Find(ApplyRecordTo(now, FinalizeRecord(SaveRecordAsWritten(start, true), now), true).animations,
           AnimationKey, a.name) == Some(a)
  {
    var now := start.(animations := SavedAnimations(start.animations, a, true));
    var r := SaveRecordAsWritten(start, true);
    var f := FinalizeRecord(r, now);
    SavedAnimationsUnique(start.animations, a, true);
    FinalizeRecordWellFormed(r, now);
    assert now.animations == start.animations + [a];
    FindUnique(now.animations, AnimationKey, |start.animations|);
    ApplyEntriesFind(now.animations, AnimationKey, f.animationSnapshots, true, a.name);
  }

  /** The first addition to an empty list opens a record with no marks, so it is not kept at all. */
  lemma SaveAsWrittenFirstAnimationNotRecorded(start: Document)
    requires start.animations == []
    ensures !HasChanges(SaveRecordAsWritten(start, true))
  {
    assert !Has(SaveRecordAsWritten(start, true).animationSnapshots, "");
  }

  /** Undoing a committed delete gives back the content the document had before it. */
  lemma DeleteIsUndoable(start: Document, name: string)
    requires UniqueIds(start)
    ensures var now := start.(animations := DeletedAnimations(start.animations, name));
      SameContent(ApplyRecordTo(now, FinalizeRecord(DeleteRecord(start), now), true), start)
  {
    var now := start.(animations := DeletedAnimations(start.animations, name));
    var r := DeleteRecord(start);
    SaveMarksCaptured(start, true);
    assert r.animationSnapshots == SaveRecordAsWritten(start, true).animationSnapshots;
    forall k | !Has(r.animationSnapshots, k)
      ensures Find(now.animations, AnimationKey, k) == Find(start.animations, AnimationKey, k)
    {
      NoNewName(start.animations, now.animations, k);
    }
    AnimationsOnlyChanged(r, start, now);
    UndoGivesBackStart(start, now, r);
  }

  /** The branch of `handleAnimationSaved` that stores the animation. */
  method StoreAnimation(st: EditorState, a: Animation, isNew: bool)
    modifies st`data
    ensures st.data == old(st.data).(animations := SavedAnimations(old(st.data.animations), a, isNew))
  {
    var animations := st.data.animations;
    if isNew {
      animations := animations + [a];
    } else {
      var idx := FindIndex(animations, AnimationKey, a.name);
      if idx.Some? {
        animations := animations[idx.value := a];
      } else {
        animations := animations + [a];
      }
    }
    st.data := st.data.(animations := animations);
  }

  /**
   * `handleAnimationSaved`, with the correction: an animation without a
   * name is ignored; otherwise one transaction marks every animation and
   * the saved name, stores the animation, and commits.
   */
  method HandleAnimationSaved(st: EditorState, um: UndoManager, a: Animation, isNew: bool)
    requires um.Valid()
    modifies st`data, st`isDirty, um
    ensures um.Valid()
    ensures a.name == "" ==>
      st.data == old(st.data) && st.isDirty == old(st.isDirty)
      && um.undoStack == old(um.undoStack) && um.redoStack == old(um.redoStack)
      && um.currentRecord == old(um.currentRecord) && um.transactionDepth == old(um.transactionDepth)
    ensures a.name != "" ==>
      st.data == old(st.data).(animations := SavedAnimations(old(st.data.animations), a, isNew)) && st.isDirty
    ensures a.name != "" && old(um.transactionDepth) == 0 ==>
      um.undoStack == PushCapped(old(um.undoStack), FinalizeRecord(SaveRecord(old(st.data), a, isNew), st.data))
      && um.redoStack == [] && um.transactionDepth == 0
    ensures a.name != "" && old(um.transactionDepth) > 0 ==>
      um.transactionDepth == old(um.transactionDepth) && um.undoStack == old(um.undoStack)
      && um.redoStack == old(um.redoStack)
      && um.currentRecord == Some(SaveMarks(old(um.currentRecord).value, old(st.data), a.name))
  {
    if a.name == "" {
      return;
    }
    ghost var start := st.data;
    um.BeginUndo(SaveDescription(isNew));
    um.MarkAnimationsForUndo(st);
    um.MarkAnimationForUndo(st, a.name);
    assert old(um.transactionDepth) == 0 ==> um.currentRecord == Some(SaveRecord(start, a, isNew));

    StoreAnimation(st, a, isNew);
    um.EndUndo(st);
    st.MarkDirty();
  }

  /**
   * `handleAnimationDeleted`: nothing happens when no animation has the
   * name; otherwise one transaction marks every animation, removes the
   * first of that name, and commits.
   */
  method HandleAnimationDeleted(st: EditorState, um: UndoManager, name: string)
    requires um.Valid()
    modifies st`data, st`isDirty, um
    ensures um.Valid()
    ensures !HasKey(old(st.data.animations), AnimationKey, name) ==>
      st.data == old(st.data) && st.isDirty == old(st.isDirty)
      && um.undoStack == old(um.undoStack) && um.redoStack == old(um.redoStack)
      && um.currentRecord == old(um.currentRecord) && um.transactionDepth == old(um.transactionDepth)
    ensures HasKey(old(st.data.animations), AnimationKey, name) ==>
      st.data == old(st.data).(animations := DeletedAnimations(old(st.data.animations), name)) && st.isDirty
    ensures HasKey(old(st.data.animations), AnimationKey, name) && old(um.transactionDepth) == 0 ==>
      um.undoStack == PushCapped(old(um.undoStack), FinalizeRecord(DeleteRecord(old(st.data)), st.data))
      && um.redoStack == [] && um.transactionDepth == 0
    ensures HasKey(old(st.data.animations), AnimationKey, name) && old(um.transactionDepth) > 0 ==>
      um.transactionDepth == old(um.transactionDepth) && um.undoStack == old(um.undoStack)
      && um.redoStack == old(um.redoStack)
      && um.currentRecord == Some(AnimationsMarks(old(um.currentRecord).value, old(st.data)))
  {
    var idx := FindIndex(st.data.animations, AnimationKey, name);
    if idx.None? {
      return;
    }
    ghost var start := st.data;
    um.BeginUndo("Delete animation");
    um.MarkAnimationsForUndo(st);
    assert old(um.transactionDepth) == 0 ==> um.currentRecord == Some(DeleteRecord(start));
    var i := idx.value;
    st.data := st.data.(animations := st.data.animations[..i] + st.data.animations[i + 1..]);
    um.EndUndo(st);
    st.MarkDirty();
  }
}
