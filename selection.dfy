/**
 * The selection model: two insertion-ordered id sets (bulbs and scores) and
 * a primary selection.  Each operation is specified by a function on the
 * selection as a value (`Sel`); the methods update the editor state and are
 * proved to agree with those functions.
 */
module Selection {
  import opened Wrappers
  import opened Data
  import opened State

  /** The selection part of the editor state, as a value. */
  datatype Sel = Sel(bulbs: seq<int>, scores: seq<int>, primary: Option<PrimarySelection>)

  /** `isSelected(type, id)`. */
  predicate IsIn(s: Sel, kind: SelectionType, id: int)
  {
    if kind == BulbSelection then id in s.bulbs else id in s.scores
  }

  predicate Distinct(s: Sel)
  {
    NoDuplicates(s.bulbs) && NoDuplicates(s.scores)
  }

  /** A primary exists exactly when something is selected, and it is itself selected. */
  predicate Consistent(s: Sel)
  {
    (s.primary.Some? <==> (s.bulbs != [] || s.scores != []))
    && (s.primary.Some? ==> IsIn(s, s.primary.value.kind, s.primary.value.id))
  }

  /** `updatePrimarySelection`: the first selected bulb, else the first selected score, else none. */
  function FirstPrimary(bulbs: seq<int>, scores: seq<int>): (p: Option<PrimarySelection>)
    ensures Consistent(Sel(bulbs, scores, p))
    ensures p.Some? && p.value.kind == ScoreSelection ==> bulbs == []
  {
    if bulbs != [] then Some(PrimarySelection(BulbSelection, bulbs[0]))
    else if scores != [] then Some(PrimarySelection(ScoreSelection, scores[0]))
    else None
  }

  /** `selectBulb` / `selectScore`: a non-additive select starts from an empty selection. */
  function Select(s: Sel, kind: SelectionType, id: int, add: bool): (r: Sel)
    ensures Consistent(r) && r.primary == Some(PrimarySelection(kind, id))
    ensures forall k, x :: IsIn(r, k, x) <==> (k == kind && x == id) || (add && IsIn(s, k, x))
    ensures Distinct(s) ==> Distinct(r)
  {
    var base := if add then s else Sel([], [], s.primary);
    if kind == BulbSelection then Sel(AddId(base.bulbs, id), base.scores, Some(PrimarySelection(kind, id)))
    else Sel(base.bulbs, AddId(base.scores, id), Some(PrimarySelection(kind, id)))
  }

  /** `deselectBulb` / `deselectScore`: removing the primary recomputes it. */
  function Deselect(s: Sel, kind: SelectionType, id: int): (r: Sel)
    ensures !IsIn(r, kind, id)
    ensures forall k, x :: !(k == kind && x == id) ==> (IsIn(r, k, x) <==> IsIn(s, k, x))
    ensures s.primary != Some(PrimarySelection(kind, id)) ==> r.primary == s.primary
    ensures Consistent(s) ==> Consistent(r)
    ensures Distinct(s) ==> Distinct(r)
  {
    var s1 := if kind == BulbSelection then s.(bulbs := RemoveId(s.bulbs, id))
      else s.(scores := RemoveId(s.scores, id));
    if s.primary == Some(PrimarySelection(kind, id)) then s1.(primary := FirstPrimary(s1.bulbs, s1.scores))
    else s1
  }

  /** `toggleSelection`: deselect a member, additively select a non-member. */
  function Toggle(s: Sel, kind: SelectionType, id: int): (r: Sel)
    ensures IsIn(r, kind, id) <==> !IsIn(s, kind, id)
    ensures forall k, x :: !(k == kind && x == id) ==> (IsIn(r, k, x) <==> IsIn(s, k, x))
    ensures Consistent(s) ==> Consistent(r)
    ensures Distinct(s) ==> Distinct(r)
  {
    if IsIn(s, kind, id) then Deselect(s, kind, id) else Select(s, kind, id, true)
  }

  /** Toggling the same id twice gives back the same members. */
  lemma ToggleTwice(s: Sel, kind: SelectionType, id: int)
    ensures forall k, x :: IsIn(Toggle(Toggle(s, kind, id), kind, id), k, x) <==> IsIn(s, k, x)
  {
  }

  /** `clearSelection`. */
  function Cleared(): (r: Sel)
    ensures Consistent(r) && Distinct(r)
    ensures forall k, x :: !IsIn(r, k, x)
  {
    Sel([], [], None)
  }

  /** The keys of a list of entities, in list order. */
  function Ids<T>(items: seq<T>, key: T -> int): (r: seq<int>)
    ensures |r| == |items| && forall i :: 0 <= i < |items| ==> r[i] == key(items[i])
  {
    seq(|items|, i requires 0 <= i < |items| => key(items[i]))
  }

  /** `selectAll`: every bulb and score of the document joins the selection. */
  function SelectAllOf(s: Sel, d: Document): (r: Sel)
    ensures Consistent(r)
    ensures Distinct(s) ==> Distinct(r)
    ensures forall b :: b in d.illumination ==> IsIn(r, BulbSelection, b.id)
    ensures forall c :: c in d.scores ==> IsIn(r, ScoreSelection, c.id)
    ensures forall k, x :: IsIn(s, k, x) ==> IsIn(r, k, x)
    ensures forall x :: IsIn(r, BulbSelection, x) ==> IsIn(s, BulbSelection, x) || exists b :: b in d.illumination && b.id == x
    ensures forall x :: IsIn(r, ScoreSelection, x) ==> IsIn(s, ScoreSelection, x) || exists c :: c in d.scores && c.id == x
  {
    var bulbs := AddAll(s.bulbs, Ids(d.illumination, BulbKey));
    var scores := AddAll(s.scores, Ids(d.scores, ScoreKey));
    AddAllIds(s.bulbs, d.illumination, BulbKey);
    AddAllIds(s.scores, d.scores, ScoreKey);
    Sel(bulbs, scores, FirstPrimary(bulbs, scores))
  }

  /** Adding the ids of a list adds every item's key and nothing else. */
  lemma AddAllIds<T>(s: seq<int>, items: seq<T>, key: T -> int)
    ensures forall t :: t in items ==> key(t) in AddAll(s, Ids(items, key))
    ensures forall x :: x in AddAll(s, Ids(items, key)) ==> x in s || exists t :: t in items && key(t) == x
  {
    var ids := Ids(items, key);
    forall t | t in items
      ensures key(t) in AddAll(s, ids)
    {
      var i :| 0 <= i < |items| && items[i] == t;
      assert ids[i] == key(t);
    }
    forall x | x in AddAll(s, ids) && x !in s
      ensures exists t :: t in items && key(t) == x
    {
      var i :| 0 <= i < |ids| && ids[i] == x;
      assert items[i] in items;
    }
  }

  /** `setSelection`: the sets become exactly the given ids; the primary is the given one or recomputed. */
  function SetSel(bulbIds: seq<int>, scoreIds: seq<int>, primary: Option<PrimarySelection>): (r: Sel)
    ensures Distinct(r)
    ensures forall x :: IsIn(r, BulbSelection, x) <==> x in bulbIds
    ensures forall x :: IsIn(r, ScoreSelection, x) <==> x in scoreIds
    ensures primary.Some? ==> r.primary == primary
    ensures primary.None? ==> Consistent(r)
  {
    var bulbs := AddAll([], bulbIds);
    var scores := AddAll([], scoreIds);
    Sel(bulbs, scores, if primary.Some? then primary else FirstPrimary(bulbs, scores))
  }

  /** Given ids without repeats, `setSelection` keeps them in the order given. */
  lemma SetSelKeepsOrder(bulbIds: seq<int>, scoreIds: seq<int>, primary: Option<PrimarySelection>)
    requires NoDuplicates(bulbIds) && NoDuplicates(scoreIds)
    ensures SetSel(bulbIds, scoreIds, primary).bulbs == bulbIds
    ensures SetSel(bulbIds, scoreIds, primary).scores == scoreIds
  {
    assert [] + bulbIds == bulbIds && [] + scoreIds == scoreIds;
    AddAllDistinct([], bulbIds);
    AddAllDistinct([], scoreIds);
  }

  // ---------------------------------------------------------------------
  // The operations on the editor state

  function SelectionOf(st: EditorState): Sel
    reads st`selectedBulbIds, st`selectedScoreIds, st`primarySelection
  {
    Sel(st.selectedBulbIds, st.selectedScoreIds, st.primarySelection)
  }

  /** `selectBulb(id, addToSelection)`. */
  method SelectBulb(st: EditorState, id: int, addToSelection: bool)
    modifies st`selectedBulbIds, st`selectedScoreIds, st`primarySelection
    ensures SelectionOf(st) == Select(old(SelectionOf(st)), BulbSelection, id, addToSelection)
  {
    if !addToSelection {
      st.selectedBulbIds := [];
      st.selectedScoreIds := [];
    }
    st.selectedBulbIds := AddId(st.selectedBulbIds, id);
    st.primarySelection := Some(PrimarySelection(BulbSelection, id));
  }

  /** `selectScore(id, addToSelection)`. */
  method SelectScore(st: EditorState, id: int, addToSelection: bool)
    modifies st`selectedBulbIds, st`selectedScoreIds, st`primarySelection
    ensures SelectionOf(st) == Select(old(SelectionOf(st)), ScoreSelection, id, addToSelection)
  {
    if !addToSelection {
      st.selectedBulbIds := [];
      st.selectedScoreIds := [];
    }
    st.selectedScoreIds := AddId(st.selectedScoreIds, id);
    st.primarySelection := Some(PrimarySelection(ScoreSelection, id));
  }

  /** `updatePrimarySelection`. */
  method UpdatePrimarySelection(st: EditorState)
    modifies st`primarySelection
    ensures st.primarySelection == FirstPrimary(st.selectedBulbIds, st.selectedScoreIds)
  {
    if |st.selectedBulbIds| > 0 {
      st.primarySelection := Some(PrimarySelection(BulbSelection, st.selectedBulbIds[0]));
    } else if |st.selectedScoreIds| > 0 {
      st.primarySelection := Some(PrimarySelection(ScoreSelection, st.selectedScoreIds[0]));
    } else {
      st.primarySelection := None;
    }
  }

  /** `deselectBulb(id)`. */
  method DeselectBulb(st: EditorState, id: int)
    modifies st`selectedBulbIds, st`primarySelection
    ensures SelectionOf(st) == Deselect(old(SelectionOf(st)), BulbSelection, id)
  {
    st.selectedBulbIds := RemoveId(st.selectedBulbIds, id);
    if st.primarySelection == Some(PrimarySelection(BulbSelection, id)) {
      UpdatePrimarySelection(st);
    }
  }

  /** `deselectScore(id)`. */
  method DeselectScore(st: EditorState, id: int)
    modifies st`selectedScoreIds, st`primarySelection
    ensures SelectionOf(st) == Deselect(old(SelectionOf(st)), ScoreSelection, id)
  {
    st.selectedScoreIds := RemoveId(st.selectedScoreIds, id);
    if st.primarySelection == Some(PrimarySelection(ScoreSelection, id)) {
      UpdatePrimarySelection(st);
    }
  }

  /** `clearSelection()`. */
  method ClearSelection(st: EditorState)
    modifies st`selectedBulbIds, st`selectedScoreIds, st`primarySelection
    ensures SelectionOf(st) == Cleared()
  {
    st.selectedBulbIds := [];
    st.selectedScoreIds := [];
    st.primarySelection := None;
  }

  /** Adds each id in turn, as the `for … of` loops over `Set.add` do. */
  method AddEach(s: seq<int>, ids: seq<int>) returns (r: seq<int>)
    ensures r == AddAll(s, ids)
  {
    r := s;
    var i := 0;
    while i < |ids|
      invariant 0 <= i <= |ids|
      invariant AddAll(r, ids[i..]) == AddAll(s, ids)
    {
      assert ids[i..][1..] == ids[i + 1..];
      r := AddId(r, ids[i]);
      i := i + 1;
    }
  }

  /** `selectAll()`. */
  method SelectAll(st: EditorState)
    modifies st`selectedBulbIds, st`selectedScoreIds, st`primarySelection
    ensures SelectionOf(st) == SelectAllOf(old(SelectionOf(st)), st.data)
  {
    st.selectedBulbIds := AddEach(st.selectedBulbIds, Ids(st.data.illumination, BulbKey));
    st.selectedScoreIds := AddEach(st.selectedScoreIds, Ids(st.data.scores, ScoreKey));
    UpdatePrimarySelection(st);
  }

  /** `hasSelection()`: with a consistent selection, exactly when there is a primary. */
  function HasSelection(st: EditorState): (b: bool)
    reads st
    ensures Consistent(SelectionOf(st)) ==> (b <==> st.primarySelection.Some?)
    ensures b <==> exists k, x :: IsIn(SelectionOf(st), k, x)
  {
    assert st.selectedBulbIds != [] ==> IsIn(SelectionOf(st), BulbSelection, st.selectedBulbIds[0]);
    assert st.selectedScoreIds != [] ==> IsIn(SelectionOf(st), ScoreSelection, st.selectedScoreIds[0]);
    |st.selectedBulbIds| > 0 || |st.selectedScoreIds| > 0
  }

  /** `getSelectionCount()`. */
  function GetSelectionCount(st: EditorState): (n: nat)
    reads st
    ensures n == 0 <==> !HasSelection(st)
  {
    |st.selectedBulbIds| + |st.selectedScoreIds|
  }

  /** `toggleSelection(type, id)`. */
  method ToggleSelection(st: EditorState, kind: SelectionType, id: int)
    modifies st`selectedBulbIds, st`selectedScoreIds, st`primarySelection
    ensures SelectionOf(st) == Toggle(old(SelectionOf(st)), kind, id)
  {
    if kind == BulbSelection {
      if id in st.selectedBulbIds {
        DeselectBulb(st, id);
      } else {
        SelectBulb(st, id, true);
      }
    } else {
      if id in st.selectedScoreIds {
        DeselectScore(st, id);
      } else {
        SelectScore(st, id, true);
      }
    }
  }

  /** `setSelection(bulbIds, scoreIds, primary)`. */
  method SetSelection(st: EditorState, bulbIds: seq<int>, scoreIds: seq<int>, primary: Option<PrimarySelection>)
    modifies st`selectedBulbIds, st`selectedScoreIds, st`primarySelection
    ensures SelectionOf(st) == SetSel(bulbIds, scoreIds, primary)
  {
    st.selectedBulbIds := AddEach([], bulbIds);
    st.selectedScoreIds := AddEach([], scoreIds);
    if primary.Some? {
      st.primarySelection := primary;
    } else {
      UpdatePrimarySelection(st);
    }
  }
}
