/**
 * The editor's state singleton: the open document, the viewport, the
 * selection and the special click modes.
 *
 * The selection id-sets are JavaScript `Set`s, which iterate in insertion
 * order (the "first selected bulb" depends on it), so each is a `seq<int>`
 * without duplicates.
 */
module State {
  import opened Wrappers
  import opened Data

  datatype Tab = BackglassTab | DmdTab
  datatype SelectionType = BulbSelection | ScoreSelection
  datatype PrimarySelection = PrimarySelection(kind: SelectionType, id: int)

  /** The natural size of a decoded image (the decoding itself is not modelled). */
  datatype ImageSize = ImageSize(width: real, height: real)

  /** What `getPrimarySelectedItem` returns. */
  datatype Item = BulbItem(bulb: Bulb) | ScoreItem(score: Score)

  /** The parent that entities created on a tab get. */
  function TabParent(tab: Tab): Parent
  {
    if tab == DmdTab then Dmd else Backglass
  }

  // ---------------------------------------------------------------------
  // Insertion-ordered id sets

  predicate NoDuplicates(s: seq<int>)
  {
    forall i, j :: 0 <= i < j < |s| ==> s[i] != s[j]
  }

  /** `set.add(id)`: a new id goes last, an existing one keeps its place. */
  function AddId(s: seq<int>, id: int): (r: seq<int>)
    ensures forall x :: x in r <==> x in s || x == id
    ensures NoDuplicates(s) ==> NoDuplicates(r)
    ensures s <= r
  {
    if id in s then s else s + [id]
  }

  /** `set.delete(id)`: the other ids keep their order. */
  function RemoveId(s: seq<int>, id: int): (r: seq<int>)
    ensures forall x :: x in r <==> x in s && x != id
    ensures NoDuplicates(s) ==> NoDuplicates(r)
    ensures |r| <= |s|
  {
    if s == [] then []
    else if s[0] == id then RemoveId(s[1..], id)
    else
      var rest := RemoveId(s[1..], id);
      NoDuplicatesCons(s[0], rest);
      [s[0]] + rest
  }

  lemma NoDuplicatesCons(x: int, t: seq<int>)
    ensures NoDuplicates([x] + t) <==> x !in t && NoDuplicates(t)
  {
    var s := [x] + t;
    assert forall i :: 0 <= i < |t| ==> s[i + 1] == t[i];
    if x in t {
      var i :| 0 <= i < |t| && t[i] == x;
      assert s[0] == s[i + 1];
    }
  }

  /** `for (const id of ids) set.add(id)`. */
  function AddAll(s: seq<int>, ids: seq<int>): (r: seq<int>)
    ensures forall x :: x in r <==> x in s || x in ids
    ensures NoDuplicates(s) ==> NoDuplicates(r)
    ensures s <= r
    decreases |ids|
  {
    if ids == [] then s else AddAll(AddId(s, ids[0]), ids[1..])
  }

  /** Adding ids that are all distinct to an empty set keeps their order. */
  lemma {:induction false} AddAllDistinct(s: seq<int>, ids: seq<int>)
    requires NoDuplicates(s + ids)
    ensures AddAll(s, ids) == s + ids
    decreases |ids|
  {
    if ids != [] {
      assert ids[0] !in s by {
        forall i | 0 <= i < |s|
          ensures s[i] != ids[0]
        {
          assert (s + ids)[i] == s[i] && (s + ids)[|s|] == ids[0];
        }
      }
      assert s + ids == (s + [ids[0]]) + ids[1..];
      AddAllDistinct(s + [ids[0]], ids[1..]);
    }
  }

  // ---------------------------------------------------------------------
  // Pure helpers behind the getters

  /** `items.filter(x => ids.has(key(x)))`. */
  function SelectedItems<T>(items: seq<T>, key: T -> int, ids: seq<int>): (r: seq<T>)
    ensures forall i :: 0 <= i < |r| ==> r[i] in items && key(r[i]) in ids
    ensures forall i :: 0 <= i < |items| && key(items[i]) in ids ==> items[i] in r
    ensures |r| <= |items|
  {
    if items == [] then []
    else (if key(items[0]) in ids then [items[0]] else []) + SelectedItems(items[1..], key, ids)
  }

  /** The filter keeps document order: it distributes over concatenation. */
  lemma {:induction false} SelectedItemsAppend<T>(a: seq<T>, b: seq<T>, key: T -> int, ids: seq<int>)
    ensures SelectedItems(a + b, key, ids) == SelectedItems(a, key, ids) + SelectedItems(b, key, ids)
  {
    if a != [] {
      assert (a + b)[1..] == a[1..] + b;
      SelectedItemsAppend(a[1..], b, key, ids);
    } else {
      assert a + b == b;
    }
  }

  /** `Math.max(...items.map(key))` of a non-empty list. */
  function MaxKey<T>(items: seq<T>, key: T -> int): (m: int)
    requires |items| > 0
    ensures forall i :: 0 <= i < |items| ==> key(items[i]) <= m
    ensures exists i :: 0 <= i < |items| && key(items[i]) == m
  {
    if |items| == 1 then key(items[0])
    else
      var rest := MaxKey(items[1..], key);
      assert forall i :: 1 <= i < |items| ==> items[i] == items[1..][i - 1];
      if key(items[0]) >= rest then key(items[0]) else rest
  }

  /** The id `updateNextIds` picks: one past the largest id, or 1 for an empty list. */
  function NextId<T>(items: seq<T>, key: T -> int): (n: int)
    ensures forall i :: 0 <= i < |items| ==> key(items[i]) < n
    ensures items == [] ==> n == 1
    ensures items != [] ==> exists i :: 0 <= i < |items| && key(items[i]) == n - 1
  {
    if |items| > 0 then MaxKey(items, key) + 1 else 1
  }

  class EditorState {
    var data: Document
    var currentFilePath: Option<string>
    var isDirty: bool

    var zoom: real
    var panX: real
    var panY: real
    var activeTab: Tab

    var selectedBulbIds: seq<int>
    var selectedScoreIds: seq<int>
    var primarySelection: Option<PrimarySelection>

    var isPanning: bool
    var panStartX: real
    var panStartY: real

    var backgroundImage: Option<ImageSize>
    var dmdImage: Option<ImageSize>

    var lampFilter: string
    var hasFile: bool
    var nextBulbId: int
    var nextScoreId: int

    var showScoreFrames: bool
    var showScoring: bool
    var showIlluminationFrames: bool
    var showIllumination: bool
    var showIlluminationIntensity: bool

    var setGrillHeight: bool
    var setSmallGrillHeight: bool
    var mouseWorldY: Option<real>
    var copyDmdFromBackglass: bool
    var setDmdDefaultLocation: bool
    var mouseWorldX: Option<real>

    /** The selection sets hold no duplicates. */
    ghost predicate Valid()
      reads this
    {
      NoDuplicates(selectedBulbIds) && NoDuplicates(selectedScoreIds)
    }

    /** No special click mode is on. */
    ghost predicate NoSpecialMode()
      reads this
    {
      !setGrillHeight && !setSmallGrillHeight && !copyDmdFromBackglass && !setDmdDefaultLocation
    }

    /** The initial state of the singleton. */
    constructor()
      ensures Valid() && NoSpecialMode()
      ensures data == EmptyDocument() && currentFilePath.None? && !isDirty
      ensures zoom == 1.0 && panX == 0.0 && panY == 0.0 && activeTab == BackglassTab
      ensures selectedBulbIds == [] && selectedScoreIds == [] && primarySelection.None?
      ensures lampFilter == "all" && !hasFile && nextBulbId == 1 && nextScoreId == 1
      ensures !showScoreFrames && showScoring && !showIlluminationFrames
      ensures mouseWorldX.None? && mouseWorldY.None? && !isPanning
    {
      data := EmptyDocument();
      currentFilePath := None;
      isDirty := false;
      zoom := 1.0;
      panX := 0.0;
      panY := 0.0;
      activeTab := BackglassTab;
      selectedBulbIds := [];
      selectedScoreIds := [];
      primarySelection := None;
      isPanning := false;
      panStartX := 0.0;
      panStartY := 0.0;
      backgroundImage := None;
      dmdImage := None;
      lampFilter := "all";
      hasFile := false;
      nextBulbId := 1;
      nextScoreId := 1;
      showScoreFrames := false;
      showScoring := true;
      showIlluminationFrames := false;
      showIllumination := false;
      showIlluminationIntensity := false;
      setGrillHeight := false;
      setSmallGrillHeight := false;
      mouseWorldY := None;
      copyDmdFromBackglass := false;
      setDmdDefaultLocation := false;
      mouseWorldX := None;
    }

    /** Back to an empty, unnamed, clean document with nothing selected. */
    method ResetState()
      modifies this
      ensures Valid() && NoSpecialMode()
      ensures data == EmptyDocument() && currentFilePath.None? && !isDirty
      ensures zoom == 1.0 && panX == 0.0 && panY == 0.0 && activeTab == BackglassTab
      ensures selectedBulbIds == [] && selectedScoreIds == [] && primarySelection.None?
      ensures backgroundImage.None? && dmdImage.None?
      ensures lampFilter == "all" && !hasFile && nextBulbId == 1 && nextScoreId == 1
      ensures !showScoreFrames && showScoring && !showIlluminationFrames
      ensures !showIllumination && !showIlluminationIntensity
      ensures mouseWorldX.None? && mouseWorldY.None?
      ensures isPanning == old(isPanning) && panStartX == old(panStartX) && panStartY == old(panStartY)
    {
      ResetDocumentAndView();
      ResetFlags();
    }

    method ResetDocumentAndView()
      modifies this`data, this`currentFilePath, this`isDirty, this`zoom, this`panX, this`panY
      modifies this`selectedBulbIds, this`selectedScoreIds, this`primarySelection
      modifies this`backgroundImage, this`dmdImage, this`activeTab
      ensures data == EmptyDocument() && currentFilePath.None? && !isDirty
      ensures zoom == 1.0 && panX == 0.0 && panY == 0.0 && activeTab == BackglassTab
      ensures selectedBulbIds == [] && selectedScoreIds == [] && primarySelection.None?
      ensures backgroundImage.None? && dmdImage.None?
    {
      data := EmptyDocument();
      currentFilePath := None;
      isDirty := false;
      zoom := 1.0;
      panX := 0.0;
      panY := 0.0;
      selectedBulbIds := [];
      selectedScoreIds := [];
      primarySelection := None;
      backgroundImage := None;
      dmdImage := None;
      activeTab := BackglassTab;
    }

    method ResetFlags()
      modifies this`lampFilter, this`hasFile, this`nextBulbId, this`nextScoreId
      modifies this`showScoreFrames, this`showScoring, this`showIlluminationFrames
      modifies this`showIllumination, this`showIlluminationIntensity
      modifies this`setGrillHeight, this`setSmallGrillHeight, this`mouseWorldY
      modifies this`copyDmdFromBackglass, this`setDmdDefaultLocation, this`mouseWorldX
      ensures NoSpecialMode()
      ensures lampFilter == "all" && !hasFile && nextBulbId == 1 && nextScoreId == 1
      ensures !showScoreFrames && showScoring && !showIlluminationFrames
      ensures !showIllumination && !showIlluminationIntensity
      ensures mouseWorldX.None? && mouseWorldY.None?
    {
      ResetCounters();
      ResetModes();
    }

    method ResetCounters()
      modifies this`lampFilter, this`hasFile, this`nextBulbId, this`nextScoreId
      modifies this`showScoreFrames, this`showScoring, this`showIlluminationFrames
      modifies this`showIllumination, this`showIlluminationIntensity
      ensures lampFilter == "all" && !hasFile && nextBulbId == 1 && nextScoreId == 1
      ensures !showScoreFrames && showScoring && !showIlluminationFrames
      ensures !showIllumination && !showIlluminationIntensity
    {
      lampFilter := "all";
      hasFile := false;
      nextBulbId := 1;
      nextScoreId := 1;
      showScoreFrames := false;
      showScoring := true;
      showIlluminationFrames := false;
      showIllumination := false;
      showIlluminationIntensity := false;
    }

    method ResetModes()
      modifies this`setGrillHeight, this`setSmallGrillHeight, this`mouseWorldY
      modifies this`copyDmdFromBackglass, this`setDmdDefaultLocation, this`mouseWorldX
      ensures NoSpecialMode()
      ensures mouseWorldX.None? && mouseWorldY.None?
    {
      setGrillHeight := false;
      setSmallGrillHeight := false;
      mouseWorldY := None;
      copyDmdFromBackglass := false;
      setDmdDefaultLocation := false;
      mouseWorldX := None;
    }

    /** `markDirty` (the notification of the host window is not modelled). */
    method MarkDirty()
      modifies this`isDirty
      ensures isDirty
    {
      isDirty := true;
    }

    /** The first bulb with this id, if any. */
    function GetBulbById(id: int): (r: Option<Bulb>)
      reads this
      ensures r.Some? <==> exists i :: 0 <= i < |data.illumination| && data.illumination[i].id == id
      ensures r.Some? ==> r.value.id == id
      ensures r.Some? ==> exists i :: (0 <= i < |data.illumination| && data.illumination[i] == r.value
        && forall j :: 0 <= j < i ==> data.illumination[j].id != id)
    {
      Find(data.illumination, BulbKey, id)
    }

    /** The first score with this id, if any. */
    function GetScoreById(id: int): (r: Option<Score>)
      reads this
      ensures r.Some? <==> exists i :: 0 <= i < |data.scores| && data.scores[i].id == id
      ensures r.Some? ==> r.value.id == id
      ensures r.Some? ==> exists i :: (0 <= i < |data.scores| && data.scores[i] == r.value
        && forall j :: 0 <= j < i ==> data.scores[j].id != id)
    {
      Find(data.scores, ScoreKey, id)
    }

    /** The selected bulbs, in document order. */
    function GetSelectedBulbs(): (r: seq<Bulb>)
      reads this
      ensures forall b :: b in r <==> b in data.illumination && b.id in selectedBulbIds
    {
      SelectedItems(data.illumination, BulbKey, selectedBulbIds)
    }

    /** The selected scores, in document order. */
    function GetSelectedScores(): (r: seq<Score>)
      reads this
      ensures forall s :: s in r <==> s in data.scores && s.id in selectedScoreIds
    {
      SelectedItems(data.scores, ScoreKey, selectedScoreIds)
    }

    /** The entity the primary selection names, or `None` when there is none or it is gone. */
    function GetPrimarySelectedItem(): (r: Option<Item>)
      reads this
      ensures primarySelection.None? ==> r.None?
      ensures primarySelection.Some? && primarySelection.value.kind == BulbSelection ==>
        (r.Some? <==> GetBulbById(primarySelection.value.id).Some?)
        && (r.Some? ==> r.value == BulbItem(GetBulbById(primarySelection.value.id).value))
      ensures primarySelection.Some? && primarySelection.value.kind == ScoreSelection ==>
        (r.Some? <==> GetScoreById(primarySelection.value.id).Some?)
        && (r.Some? ==> r.value == ScoreItem(GetScoreById(primarySelection.value.id).value))
    {
      match primarySelection
      case None => None
      case Some(p) =>
        if p.kind == BulbSelection then
          (match GetBulbById(p.id) case None => None case Some(b) => Some(BulbItem(b)))
        else
          (match GetScoreById(p.id) case None => None case Some(s) => Some(ScoreItem(s)))
    }

    /** After loading a file: both counters move past every id in use. */
    method UpdateNextIds()
      modifies this`nextBulbId, this`nextScoreId
      ensures forall b :: b in data.illumination ==> b.id < nextBulbId
      ensures forall s :: s in data.scores ==> s.id < nextScoreId
      ensures data.illumination == [] ==> nextBulbId == 1
      ensures data.scores == [] ==> nextScoreId == 1
      ensures data.illumination != [] ==> exists b :: b in data.illumination && b.id == nextBulbId - 1
      ensures data.scores != [] ==> exists s :: s in data.scores && s.id == nextScoreId - 1
    {
      nextBulbId := NextId(data.illumination, BulbKey);
      nextScoreId := NextId(data.scores, ScoreKey);
    }
  }
}
