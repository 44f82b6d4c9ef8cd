/**
 * The canvas's mouse and keyboard handlers.
 *
 * A drag is a small state machine (pan, move, resize, moving or resizing
 * the DMD copy area).  A move or resize drag opens its undo transaction
 * only once the mouse has travelled more than one world unit, and closes
 * it on mouse-up.  `Phase` abstracts the drag state together with the
 * undo manager's nesting depth; the handlers are proved to step it as the
 * `After…` functions say, and the lemmas below show which event sequences
 * leave the transaction balanced.
 */
module CanvasEvents {
  import opened Wrappers
  import opened Numbers
  import opened Text
  import opened Data
  import opened UndoRecords
  import opened State
  import opened Selection
  import opened Undo
  import opened ListEdits
  import opened ObjectOperations
  import opened Parts
  import opened Renderer

  // ---------------------------------------------------------------------
  // The drag state

  datatype DragMode = NoDrag | PanDrag | MoveDrag | ResizeDrag | MarqueeDrag | DmdCopyMoveDrag | DmdCopyResizeDrag

  /** The drags whose changes are recorded for undo, and so close a transaction on mouse-up. */
  predicate Recording(m: DragMode)
  {
    m == MoveDrag || m == ResizeDrag || m == DmdCopyMoveDrag || m == DmdCopyResizeDrag
  }

  /** The DMD copy area as it was when its drag began. */
  datatype AreaRect = AreaRect(x: int, y: int, w: int, h: int)

  /** A mouse event: the mouse in client coordinates, the button, and the modifier keys used. */
  datatype MouseEvent = MouseEvent(clientX: real, clientY: real, button: int, altKey: bool, shiftKey: bool)

  /** The canvas element; only its cursor is modelled. */
  class Canvas {
    var cursor: string

    constructor()
      ensures cursor == "default"
    {
      cursor := "default";
    }
  }

  class DragState {
    var mode: DragMode
    var startScreenX: real
    var startScreenY: real
    var startWorldX: real
    var startWorldY: real
    var lastWorldX: real
    var lastWorldY: real
    var resizeHandle: Option<ResizeHandle>
    var resizeType: Option<SelectionType>
    var resizeId: Option<int>
    var originalPositions: map<int, Bounds>
    var undoStarted: bool
    var dmdCopyHandle: Option<DmdCopyAreaHit>
    var dmdCopyOriginal: Option<AreaRect>

    /** A resize drag knows what it resizes; a DMD copy-area drag knows where the area started. */
    ghost predicate Valid()
      reads this`mode, this`resizeHandle, this`resizeType, this`resizeId, this`dmdCopyHandle, this`dmdCopyOriginal
    {
      (mode == ResizeDrag ==> resizeHandle.Some? && resizeType.Some? && resizeId.Some?)
      && (mode == DmdCopyMoveDrag ==> dmdCopyOriginal.Some?)
      && (mode == DmdCopyResizeDrag ==> dmdCopyOriginal.Some? && dmdCopyHandle.Some? && dmdCopyHandle.value.HandleOf?)
    }

    constructor()
      ensures Valid() && mode == NoDrag && !undoStarted
      ensures startScreenX == 0.0 && startScreenY == 0.0 && startWorldX == 0.0 && startWorldY == 0.0
      ensures lastWorldX == 0.0 && lastWorldY == 0.0
      ensures resizeHandle.None? && resizeType.None? && resizeId.None? && originalPositions == map[]
      ensures dmdCopyHandle.None? && dmdCopyOriginal.None?
    {
      mode := NoDrag;
      startScreenX, startScreenY := 0.0, 0.0;
      startWorldX, startWorldY := 0.0, 0.0;
      lastWorldX, lastWorldY := 0.0, 0.0;
      resizeHandle, resizeType, resizeId := None, None, None;
      originalPositions := map[];
      undoStarted := false;
      dmdCopyHandle, dmdCopyOriginal := None, None;
    }

    /** `resetDragState`: the start and last points are left as they are. */
    method Reset()
      modifies this`mode, this`resizeHandle, this`resizeType, this`resizeId, this`undoStarted,
        this`originalPositions, this`dmdCopyHandle, this`dmdCopyOriginal
      ensures Valid() && mode == NoDrag && !undoStarted
      ensures resizeHandle.None? && resizeType.None? && resizeId.None? && originalPositions == map[]
      ensures dmdCopyHandle.None? && dmdCopyOriginal.None?
    {
      mode := NoDrag;
      resizeHandle, resizeType, resizeId := None, None, None;
      undoStarted := false;
      originalPositions := map[];
      dmdCopyHandle, dmdCopyOriginal := None, None;
    }
  }

  // ---------------------------------------------------------------------
  // The drag machine and the undo transaction it holds

  /** The drag mode, whether the drag opened its transaction, and the undo manager's nesting depth. */
  datatype Phase = Phase(mode: DragMode, undoStarted: bool, depth: nat)

  function PhaseOf(ds: DragState, um: UndoManager): Phase
    reads ds`mode, ds`undoStarted, um`transactionDepth
  {
    Phase(ds.mode, ds.undoStarted, um.transactionDepth)
  }

  /** What a mouse-down does, in the order `onMouseDown` tries it. */
  datatype DownAction =
    | StartPan
    | GrillClick
    | DmdCopyClick(copyHit: Option<DmdCopyAreaHit>)
    | DmdLocationClick
    | StartResize(handleHit: HandleHit)
    | StartMove(hit: HitResult)
    | ClearClick
    | NoAction

  /**
   * The phase after `onMouseDown` as written: it sets the new mode over
   * whatever drag is in progress.  Starting a pan keeps `undoStarted`.
   */
  function AfterDown(p: Phase, a: DownAction): (q: Phase)
    ensures q.depth == p.depth
    ensures a.StartResize? || a.StartMove? ==> !q.undoStarted
    ensures a == StartPan ==> q.mode == PanDrag && q.undoStarted == p.undoStarted
    ensures a == NoAction || a == ClearClick ==> q == p
  {
    match a
    case StartPan => p.(mode := PanDrag)
    case StartResize(_) => p.(mode := ResizeDrag, undoStarted := false)
    case StartMove(_) => p.(mode := MoveDrag, undoStarted := false)
    case DmdCopyClick(Some(MoveHit)) => p.(mode := DmdCopyMoveDrag, undoStarted := false)
    case DmdCopyClick(Some(HandleOf(_))) => p.(mode := DmdCopyResizeDrag, undoStarted := false)
    case _ => p
  }

  /** `onMouseUp`: only a recording drag whose transaction started closes it; the drag state is reset. */
  function AfterUp(p: Phase): (q: Phase)
    ensures q.mode == NoDrag && !q.undoStarted
    ensures Recording(p.mode) && p.undoStarted && p.depth > 0 ==> q.depth == p.depth - 1
    ensures !(Recording(p.mode) && p.undoStarted) ==> q.depth == p.depth
  {
    Phase(NoDrag, false, if Recording(p.mode) && p.undoStarted && p.depth > 0 then p.depth - 1 else p.depth)
  }

  /** The drag threshold: more than one world unit on either axis. */
  predicate Exceeds(dx: real, dy: real)
  {
    Abs(dx) > 1.0 || Abs(dy) > 1.0
  }

  /** `onMouseMove`: the first move of a recording drag past the threshold opens its transaction. */
  function AfterMove(p: Phase, exceeds: bool): (q: Phase)
    ensures q.mode == p.mode
    ensures p.undoStarted || !exceeds || !Recording(p.mode) ==> q == p
    ensures Recording(p.mode) && !p.undoStarted && exceeds ==> q.undoStarted && q.depth == p.depth + 1
  {
    if Recording(p.mode) && !p.undoStarted && exceeds then p.(undoStarted := true, depth := p.depth + 1) else p
  }

  /** A mouse-down that first finishes a drag still in progress, as a mouse-up would. */
  function AfterDownChecked(p: Phase, a: DownAction): (q: Phase)
  {
    AfterDown(if p.mode != NoDrag then AfterUp(p) else p, a)
  }

  /**
   * The drag holds the only open transaction, exactly while it has started
   * one, and only a recording drag starts one.
   */
  predicate Balanced(p: Phase)
  {
    p.depth == (if p.undoStarted then 1 else 0) && (p.undoStarted ==> Recording(p.mode))
  }

  datatype Event = Down(action: DownAction) | Move(exceeds: bool) | Up | Leave

  /** One canvas event; `checked` selects the corrected mouse-down. */
  function Step(p: Phase, e: Event, checked: bool): Phase
  {
    match e
    case Down(a) => if checked then AfterDownChecked(p, a) else AfterDown(p, a)
    case Move(x) => AfterMove(p, x)
    case Up => AfterUp(p)
    case Leave => if p.mode != NoDrag then AfterUp(p) else p
  }

  function Run(p: Phase, events: seq<Event>, checked: bool): Phase
    decreases |events|
  {
    if events == [] then p else Run(Step(p, events[0], checked), events[1..], checked)
  }

  lemma StepCheckedBalanced(p: Phase, e: Event)
    requires Balanced(p)
    ensures Balanced(Step(p, e, true))
  {
  }

  /**
   * With the corrected mouse-down, every sequence of canvas events keeps the
   * drag's transaction balanced, so whenever no drag is in progress no
   * transaction is open.
   */
  lemma {:induction false} RunCheckedBalanced(p: Phase, events: seq<Event>)
    requires Balanced(p)
    ensures Balanced(Run(p, events, true))
    ensures Run(p, events, true).mode == NoDrag ==> Run(p, events, true).depth == 0
    decreases |events|
  {
    if events != [] {
      StepCheckedBalanced(p, events[0]);
      RunCheckedBalanced(Step(p, events[0], true), events[1..]);
    }
  }

  /** The transactions open beyond the one the drag accounts for. */
  function Surplus(p: Phase): int
  {
    p.depth - (if p.undoStarted then 1 else 0)
  }

  /** As written, no canvas event ever closes a transaction the drag does not account for. */
  lemma {:induction false} SurplusNeverShrinks(p: Phase, events: seq<Event>)
    ensures Surplus(Run(p, events, false)) >= Surplus(p)
    ensures Run(p, events, false).depth >= Surplus(p)
    decreases |events|
  {
    if events != [] {
      var q := Step(p, events[0], false);
      assert Surplus(q) >= Surplus(p);
      SurplusNeverShrinks(q, events[1..]);
    }
  }

  /**
   * As written: the middle button pressed during a left-button move drag
   * turns it into a pan with `undoStarted` still set; the pan's mouse-up
   * does not end the transaction, and from then on none ever closes.
   */
  lemma PanDuringMoveLeaksTransaction(h: HitResult, later: seq<Event>)
    ensures var idle := Phase(NoDrag, false, 0);
      var p := Run(idle, [Down(StartMove(h)), Move(true), Down(StartPan), Up], false);
      p == Phase(NoDrag, false, 1) && Run(p, later, false).depth >= 1
  {
    var events := [Down(StartMove(h)), Move(true), Down(StartPan), Up];
    var p1 := Phase(MoveDrag, false, 0);
    var p2 := Phase(MoveDrag, true, 1);
    var p3 := Phase(PanDrag, true, 1);
    var e1, e2, e3 := [Move(true), Down(StartPan), Up], [Down(StartPan), Up], [Up];
    assert events[1..] == e1 && e1[1..] == e2 && e2[1..] == e3 && e3[1..] == [];
    assert Run(Phase(NoDrag, false, 0), events, false) == Run(p1, e1, false);
    assert Run(p1, e1, false) == Run(p2, e2, false);
    assert Run(p2, e2, false) == Run(p3, e3, false);
    assert Run(p3, e3, false) == Run(Phase(NoDrag, false, 1), [], false);
    SurplusNeverShrinks(Phase(NoDrag, false, 1), later);
  }

  /** The same events with the corrected mouse-down close the move's transaction. */
  lemma PanDuringMoveChecked(h: HitResult)
    ensures Run(Phase(NoDrag, false, 0), [Down(StartMove(h)), Move(true), Down(StartPan), Up], true)
      == Phase(NoDrag, false, 0)
  {
    var events := [Down(StartMove(h)), Move(true), Down(StartPan), Up];
    var p1 := Phase(MoveDrag, false, 0);
    var p2 := Phase(MoveDrag, true, 1);
    var p3 := Phase(PanDrag, false, 0);
    var e1, e2, e3 := [Move(true), Down(StartPan), Up], [Down(StartPan), Up], [Up];
    assert events[1..] == e1 && e1[1..] == e2 && e2[1..] == e3 && e3[1..] == [];
    assert Run(Phase(NoDrag, false, 0), events, true) == Run(p1, e1, true);
    assert Run(p1, e1, true) == Run(p2, e2, true);
    assert Run(p2, e2, true) == Run(p3, e3, true);
    assert Run(p3, e3, true) == Run(Phase(NoDrag, false, 0), [], true);
  }

  // ---------------------------------------------------------------------
  // Selecting on click

  /**
   * The selection after a click on `h`, as written: `alreadySelected` only
   * skips a `clearSelection` that the non-additive `selectBulb` repeats.
   */
  function ClickSelectAsWritten(s: Sel, h: HitResult, shift: bool): Sel
  {
    var base := if !shift && !IsIn(s, h.kind, h.id) then Cleared() else s;
    Select(base, h.kind, h.id, shift)
  }

  /** As written, a click without shift leaves only the clicked item selected, whatever was selected. */
  lemma ClickAsWrittenSelectsOnlyHit(s: Sel, h: HitResult)
    ensures forall k, x :: IsIn(ClickSelectAsWritten(s, h, false), k, x) <==> k == h.kind && x == h.id
  {
  }

  /** As written, pressing on one of two selected bulbs to drag them drops the other from the drag. */
  lemma ClickAsWrittenCollapsesGroup()
    ensures var s := Sel([1, 2], [], Some(PrimarySelection(BulbSelection, 1)));
      IsIn(s, BulbSelection, 2) && !IsIn(ClickSelectAsWritten(s, HitResult(BulbSelection, 1), false), BulbSelection, 2)
  {
    var s := Sel([1, 2], [], Some(PrimarySelection(BulbSelection, 1)));
    ClickAsWrittenSelectsOnlyHit(s, HitResult(BulbSelection, 1));
  }

  /**
   * The selection after a click on `h`: an item already selected keeps the
   * group (so the drag moves all of it), any other item replaces the
   * selection unless shift adds it.  The clicked item becomes primary.
   */
  function ClickSelect(s: Sel, h: HitResult, shift: bool): (r: Sel)
    ensures IsIn(r, h.kind, h.id) && r.primary == Some(PrimarySelection(h.kind, h.id))
    ensures shift || IsIn(s, h.kind, h.id) ==> forall k, x :: IsIn(r, k, x) <==> IsIn(s, k, x) || (k == h.kind && x == h.id)
    ensures !shift && !IsIn(s, h.kind, h.id) ==> forall k, x :: IsIn(r, k, x) <==> k == h.kind && x == h.id
    ensures Distinct(s) ==> Distinct(r)
  {
    Select(s, h.kind, h.id, shift || IsIn(s, h.kind, h.id))
  }

  /** Clicking an item of the selection without shift keeps every selected item selected. */
  lemma ClickKeepsGroup(s: Sel, h: HitResult)
    requires IsIn(s, h.kind, h.id)
    ensures forall k, x :: IsIn(ClickSelect(s, h, false), k, x) <==> IsIn(s, k, x)
  {
  }

  /** The selection part of a click on an item. */
  method SelectOnClick(st: EditorState, h: HitResult, shift: bool)
    modifies st`selectedBulbIds, st`selectedScoreIds, st`primarySelection
    ensures SelectionOf(st) == ClickSelect(old(SelectionOf(st)), h, shift)
  {
    var alreadySelected := IsIn(SelectionOf(st), h.kind, h.id);
    if !shift && !alreadySelected {
      ClearSelection(st);
    }
    if h.kind == BulbSelection {
      SelectBulb(st, h.id, shift || alreadySelected);
    } else {
      SelectScore(st, h.id, shift || alreadySelected);
    }
  }

  // ---------------------------------------------------------------------
  // Clicks in the grill-height mode

  /** `Math.round(imageHeight - worldY)`, kept only when it lies within the background image's height. */
  function GrillClickHeight(image: Option<ImageSize>, worldY: real): (g: Option<int>)
    ensures g.Some? ==> image.Some? && 0 <= g.value && g.value as real <= image.value.height
    ensures g.Some? ==> g.value as real - 0.5 <= image.value.height - worldY < g.value as real + 0.5
    ensures (image.Some? && image.value.height == image.value.height.Floor as real && 0.0 <= worldY <= image.value.height)
      ==> g.Some?
  {
    if image.None? then None
    else
      var g := Round(image.value.height - worldY);
      RoundWithin(image.value.height - worldY, image.value.height);
      if g < 0 || g as real > image.value.height then None else Some(g)
  }

  /** An edit of the two grill heights, under its undo description. */
  datatype GrillEdit = GrillEdit(description: string, grill: int, small: int)

  /**
   * What a click does while a grill height is being set: a remove button
   * zeroes its height; otherwise the clicked height is set, the grill's
   * mode taking precedence over the small grill's.
   */
  function GrillClickEdit(d: Document, hit: Option<GrillButton>, height: Option<int>, setGrill: bool, setSmall: bool)
    : (e: Option<GrillEdit>)
    ensures e.Some? ==> e.value.grill == d.grillHeight || e.value.small == d.smallGrillHeight
    ensures hit == Some(GrillRemove) ==> e == Some(GrillEdit("Remove grill height", 0, d.smallGrillHeight))
    ensures hit == Some(SmallGrillRemove) ==> e == Some(GrillEdit("Remove mini grill height", d.grillHeight, 0))
    ensures hit.None? && height.Some? && setGrill ==>
      e == Some(GrillEdit("Set grill height", height.value, d.smallGrillHeight))
    ensures hit.None? && height.Some? && !setGrill && setSmall ==>
      e == Some(GrillEdit("Set mini grill height", d.grillHeight, height.value))
    ensures e.None? <==> hit.None? && (height.None? || (!setGrill && !setSmall))
  {
    match hit
    case Some(GrillRemove) => Some(GrillEdit("Remove grill height", 0, d.smallGrillHeight))
    case Some(SmallGrillRemove) => Some(GrillEdit("Remove mini grill height", d.grillHeight, 0))
    case None =>
      if height.None? then None
      else if setGrill then Some(GrillEdit("Set grill height", height.value, d.smallGrillHeight))
      else if setSmall then Some(GrillEdit("Set mini grill height", d.grillHeight, height.value))
      else None
  }

  /** The record of a grill-height edit: both heights as they were. */
  function GrillRecord(description: string, d: Document): (r: UndoRecord)
    ensures HasChanges(r) && WellFormed(r)
  {
    CreateUndoRecord(description).(grillHeightsBefore := Some(GrillHeightsOf(d)))
  }

  /** Undoing a grill-height edit gives back the document; redoing it gives back the edit. */
  lemma UndoGrillEdit(d: Document, description: string, grill: int, small: int)
    ensures var now := d.(grillHeight := grill, smallGrillHeight := small);
      var r := FinalizeRecord(GrillRecord(description, d), now);
      ApplyRecordTo(now, r, true) == d && ApplyRecordTo(d, r, false) == now
  {
    var now := d.(grillHeight := grill, smallGrillHeight := small);
    var r := FinalizeRecord(GrillRecord(description, d), now);
    assert r.bulbSnapshots == [] && r.scoreSnapshots == [] && r.animationSnapshots == [];
  }

  /** One grill-height edit as its own transaction, then `markDirty`. */
  method CommitGrillHeights(st: EditorState, um: UndoManager, description: string, grill: int, small: int)
    requires um.Valid()
    modifies st`data, st`isDirty, um
    ensures um.Valid() && um.transactionDepth == old(um.transactionDepth)
    ensures st.data == old(st.data).(grillHeight := grill, smallGrillHeight := small) && st.isDirty
    ensures old(um.transactionDepth) == 0 ==>
      um.undoStack == Committed(old(um.undoStack), GrillRecord(description, old(st.data)), st.data)
      && um.redoStack == []
    ensures old(um.transactionDepth) > 0 ==> um.undoStack == old(um.undoStack) && um.redoStack == old(um.redoStack)
  {
    ghost var start := st.data;
    um.BeginUndo(description);
    um.MarkGrillHeightsForUndo(st);
    st.data := st.data.(grillHeight := grill, smallGrillHeight := small);
    assert old(um.transactionDepth) == 0 ==> um.currentRecord == Some(GrillRecord(description, start));
    um.EndUndo(st);
    st.MarkDirty();
  }

  /**
   * `handleGrillHeightClick`: applies the edit of `GrillClickEdit` as one
   * undoable step; a remove ends both modes, a set ends its own mode.
   */
  method HandleGrillHeightClick(st: EditorState, um: UndoManager, cv: Canvas, worldX: real, worldY: real)
    requires um.Valid()
    modifies st`data, st`isDirty, st`setGrillHeight, st`setSmallGrillHeight, st`mouseWorldY, um, cv
    ensures um.Valid() && um.transactionDepth == old(um.transactionDepth)
    ensures var hit := old(GrillRemoveHitAt(st, worldX, worldY));
      var e := old(GrillClickEdit(st.data, hit, GrillClickHeight(st.backgroundImage, worldY),
                                  st.setGrillHeight, st.setSmallGrillHeight));
      && (e.None? ==>
            st.data == old(st.data) && st.isDirty == old(st.isDirty)
            && um.undoStack == old(um.undoStack) && um.redoStack == old(um.redoStack)
            && um.currentRecord == old(um.currentRecord))
      && (e.Some? ==>
            st.data == old(st.data).(grillHeight := e.value.grill, smallGrillHeight := e.value.small)
            && st.isDirty && st.mouseWorldY.None? && cv.cursor == "default")
      && (e.Some? && old(um.transactionDepth) == 0 ==>
            um.undoStack == Committed(old(um.undoStack), GrillRecord(e.value.description, old(st.data)), st.data)
            && um.redoStack == [])
      && (e.Some? && old(um.transactionDepth) > 0 ==>
            um.undoStack == old(um.undoStack) && um.redoStack == old(um.redoStack))
      && (hit.Some? ==> !st.setGrillHeight && !st.setSmallGrillHeight)
      && (hit.None? && e.Some? && old(st.setGrillHeight) ==>
            !st.setGrillHeight && st.setSmallGrillHeight == old(st.setSmallGrillHeight))
      && (hit.None? && e.Some? && !old(st.setGrillHeight) ==> !st.setSmallGrillHeight && !st.setGrillHeight)
      && (e.None? ==> st.setGrillHeight == old(st.setGrillHeight) && st.setSmallGrillHeight == old(st.setSmallGrillHeight))
  {
    var hit := GrillRemoveHitAt(st, worldX, worldY);
    if hit.Some? {
      if hit.value == GrillRemove {
        CommitGrillHeights(st, um, "Remove grill height", 0, st.data.smallGrillHeight);
      } else {
        CommitGrillHeights(st, um, "Remove mini grill height", st.data.grillHeight, 0);
      }
      st.setGrillHeight := false;
      st.setSmallGrillHeight := false;
      st.mouseWorldY := None;
      cv.cursor := "default";
      return;
    }
    var height := GrillClickHeight(st.backgroundImage, worldY);
    if height.None? {
      return;
    }
    if st.setGrillHeight {
      CommitGrillHeights(st, um, "Set grill height", height.value, st.data.smallGrillHeight);
      st.setGrillHeight := false;
      st.mouseWorldY := None;
    } else if st.setSmallGrillHeight {
      CommitGrillHeights(st, um, "Set mini grill height", st.data.grillHeight, height.value);
      st.setSmallGrillHeight := false;
      st.mouseWorldY := None;
    }
    cv.cursor := "default";
  }

  // ---------------------------------------------------------------------
  // Clicks in the DMD default-location mode

  /** The record of an edit of the DMD location and copy area: all six fields as they were. */
  function DmdAreaRecord(description: string, d: Document): (r: UndoRecord)
    ensures HasChanges(r) && WellFormed(r)
  {
    CreateUndoRecord(description).(dmdAreaBefore := Some(DmdAreaOf(d)))
  }

  /** Undoing an edit of the DMD area gives back the document; redoing it gives back the edit. */
  lemma UndoDmdAreaEdit(d: Document, description: string, a: DmdArea)
    ensures var now := WithDmdArea(d, a);
      var r := FinalizeRecord(DmdAreaRecord(description, d), now);
      ApplyRecordTo(now, r, true) == d && ApplyRecordTo(d, r, false) == now
  {
    var now := WithDmdArea(d, a);
    var r := FinalizeRecord(DmdAreaRecord(description, d), now);
    assert r.bulbSnapshots == [] && r.scoreSnapshots == [] && r.animationSnapshots == [];
  }

  /** One edit of the DMD area as its own transaction, then `markDirty`. */
  method CommitDmdArea(st: EditorState, um: UndoManager, description: string, a: DmdArea)
    requires um.Valid()
    modifies st`data, st`isDirty, um
    ensures um.Valid() && um.transactionDepth == old(um.transactionDepth)
    ensures st.data == WithDmdArea(old(st.data), a) && st.isDirty
    ensures old(um.transactionDepth) == 0 ==>
      um.undoStack == Committed(old(um.undoStack), DmdAreaRecord(description, old(st.data)), st.data)
      && um.redoStack == []
    ensures old(um.transactionDepth) > 0 ==> um.undoStack == old(um.undoStack) && um.redoStack == old(um.redoStack)
  {
    ghost var start := st.data;
    um.BeginUndo(description);
    um.MarkDmdAreaForUndo(st);
    st.data := WithDmdArea(st.data, a);
    assert old(um.transactionDepth) == 0 ==> um.currentRecord == Some(DmdAreaRecord(description, start));
    um.EndUndo(st);
    st.MarkDirty();
  }

  /** The DMD location a click sets: the origin on the remove button, else the clicked pixel. */
  function DmdLocationEdit(d: Document, remove: bool, worldX: real, worldY: real): (a: DmdArea)
    ensures a.dmdCopyAreaX == d.dmdCopyAreaX && a.dmdCopyAreaY == d.dmdCopyAreaY
    ensures a.dmdCopyAreaWidth == d.dmdCopyAreaWidth && a.dmdCopyAreaHeight == d.dmdCopyAreaHeight
    ensures remove ==> a.dmdDefaultLocationX == 0 && a.dmdDefaultLocationY == 0
    ensures !remove ==>
      && a.dmdDefaultLocationX as real - 0.5 <= worldX < a.dmdDefaultLocationX as real + 0.5
      && a.dmdDefaultLocationY as real - 0.5 <= worldY < a.dmdDefaultLocationY as real + 0.5
  {
    var x := if remove then 0 else Round(worldX);
    var y := if remove then 0 else Round(worldY);
    DmdAreaOf(d).(dmdDefaultLocationX := x, dmdDefaultLocationY := y)
  }

  function DmdLocationDescription(remove: bool): string
  {
    if remove then "Remove DMD default location" else "Set DMD default location"
  }

  /** `handleDmdDefaultLocationClick`: either way one undoable step, and the mode ends. */
  method HandleDmdDefaultLocationClick(st: EditorState, um: UndoManager, cv: Canvas, worldX: real, worldY: real)
    requires um.Valid()
    modifies st`data, st`isDirty, st`setDmdDefaultLocation, st`mouseWorldX, st`mouseWorldY, um, cv
    ensures um.Valid() && um.transactionDepth == old(um.transactionDepth)
    ensures var remove := old(DmdDefaultLocationRemoveHit(st, worldX, worldY));
      && st.data == WithDmdArea(old(st.data), DmdLocationEdit(old(st.data), remove, worldX, worldY))
      && (old(um.transactionDepth) == 0 ==>
            um.undoStack == Committed(old(um.undoStack), DmdAreaRecord(DmdLocationDescription(remove), old(st.data)), st.data)
            && um.redoStack == [])
      && (old(um.transactionDepth) > 0 ==> um.undoStack == old(um.undoStack) && um.redoStack == old(um.redoStack))
    ensures st.isDirty && !st.setDmdDefaultLocation && st.mouseWorldX.None? && st.mouseWorldY.None?
    ensures cv.cursor == "default"
  {
    var remove := DmdDefaultLocationRemoveHit(st, worldX, worldY);
    CommitDmdArea(st, um, DmdLocationDescription(remove), DmdLocationEdit(st.data, remove, worldX, worldY));
    st.setDmdDefaultLocation := false;
    st.mouseWorldX := None;
    st.mouseWorldY := None;
    cv.cursor := "default";
  }

  // ---------------------------------------------------------------------
  // Clicks in the copy-DMD-from-backglass mode

  const PNG_DATA_URL_PREFIX := "data:image/png;base64,"

  /**
   * The document after copying the DMD from the backglass: the area's
   * pixels, as base64 PNG data, become the only DMD image, and the DMD's
   * default location moves to the area's corner.
   */
  function CopiedDmd(d: Document, dataUrl: string): (r: Document)
    ensures |r.images.dmdImages| == 1 && r.images.dmdImages[0].fileName == "DMD from backglass"
    ensures r.dmdDefaultLocationX == d.dmdCopyAreaX && r.dmdDefaultLocationY == d.dmdCopyAreaY
    ensures StartsWith(dataUrl, PNG_DATA_URL_PREFIX) ==>
      r.images.dmdImages[0].imageData == dataUrl[|PNG_DATA_URL_PREFIX|..]
    ensures r.(images := d.images, dmdDefaultLocationX := d.dmdDefaultLocationX, dmdDefaultLocationY := d.dmdDefaultLocationY) == d
    ensures r.images.(dmdImages := d.images.dmdImages) == d.images
  {
    assert StartsWith(dataUrl, PNG_DATA_URL_PREFIX) ==> OccursAt(dataUrl, PNG_DATA_URL_PREFIX, 0);
    var imageData := ReplaceFirst(dataUrl, PNG_DATA_URL_PREFIX, "");
    d.(images := d.images.(dmdImages := [NamedImage("DMD from backglass", imageData)]),
       dmdDefaultLocationX := d.dmdCopyAreaX, dmdDefaultLocationY := d.dmdCopyAreaY)
  }

  /** The record of the copy: the image collection and the DMD area as they were. */
  function CopyDmdRecord(d: Document): (r: UndoRecord)
    ensures HasChanges(r) && WellFormed(r)
  {
    CreateUndoRecord("Copy DMD from backglass").(imagesBefore := Some(d.images), dmdAreaBefore := Some(DmdAreaOf(d)))
  }

  /** Undoing the copy gives back the DMD images and location; redoing it gives back the copy. */
  lemma UndoCopyDmd(d: Document, dataUrl: string)
    ensures var now := CopiedDmd(d, dataUrl);
      var r := FinalizeRecord(CopyDmdRecord(d), now);
      ApplyRecordTo(now, r, true) == d && ApplyRecordTo(d, r, false) == now
  {
    var now := CopiedDmd(d, dataUrl);
    var r := FinalizeRecord(CopyDmdRecord(d), now);
    assert r.bulbSnapshots == [] && r.scoreSnapshots == [] && r.animationSnapshots == [];
    assert WithDmdArea(now, DmdAreaOf(d)).(images := d.images) == d;
  }

  /**
   * `copyDmdFromBackglassArea`.  The rendering of the area into a PNG is
   * not modelled: `dataUrl` is what `toDataURL` returns, or None when no
   * 2D context is available.  Nothing happens for an empty area, without a
   * background image or without a context.
   */
  method CopyDmdFromBackglassArea(st: EditorState, um: UndoManager, cv: Canvas, dataUrl: Option<string>)
    requires um.Valid()
    modifies st`data, st`isDirty, st`copyDmdFromBackglass, um, cv
    ensures um.Valid() && um.transactionDepth == old(um.transactionDepth)
    ensures var ready := old(st.data.dmdCopyAreaWidth > 0 && st.data.dmdCopyAreaHeight > 0 && st.backgroundImage.Some?)
        && dataUrl.Some?;
      && (!ready ==>
            st.data == old(st.data) && st.isDirty == old(st.isDirty)
            && st.copyDmdFromBackglass == old(st.copyDmdFromBackglass) && cv.cursor == old(cv.cursor)
            && um.undoStack == old(um.undoStack) && um.redoStack == old(um.redoStack)
            && um.currentRecord == old(um.currentRecord))
      && (ready ==>
            st.data == CopiedDmd(old(st.data), dataUrl.value) && st.isDirty
            && !st.copyDmdFromBackglass && cv.cursor == "default")
      && (ready && old(um.transactionDepth) == 0 ==>
            um.undoStack == Committed(old(um.undoStack), CopyDmdRecord(old(st.data)), st.data)
            && um.redoStack == [])
      && (ready && old(um.transactionDepth) > 0 ==>
            um.undoStack == old(um.undoStack) && um.redoStack == old(um.redoStack))
  {
    if st.data.dmdCopyAreaWidth <= 0 || st.data.dmdCopyAreaHeight <= 0 {
      return;
    }
    if st.backgroundImage.None? || dataUrl.None? {
      return;
    }
    ghost var start := st.data;
    um.BeginUndo("Copy DMD from backglass");
    um.MarkImagesForUndo(st);
    um.MarkDmdAreaForUndo(st);
    st.data := CopiedDmd(st.data, dataUrl.value);
    assert old(um.transactionDepth) == 0 ==> um.currentRecord == Some(CopyDmdRecord(start));
    um.EndUndo(st);
    st.MarkDirty();
    st.copyDmdFromBackglass := false;
    cv.cursor := "default";
  }

  /** The area as a drag on it begins. */
  function CopyAreaOf(d: Document): AreaRect
  {
    AreaRect(d.dmdCopyAreaX, d.dmdCopyAreaY, d.dmdCopyAreaWidth, d.dmdCopyAreaHeight)
  }

  /**
   * `handleDmdCopyAreaClick`: the camera copies the area, the inside starts
   * a move drag, a handle starts a resize drag; the area as it is now is
   * kept for the drag.  The hit is returned.
   */
  method HandleDmdCopyAreaClick(ds: DragState, st: EditorState, um: UndoManager, cv: Canvas,
                                worldX: real, worldY: real, dataUrl: Option<string>)
    returns (hit: Option<DmdCopyAreaHit>)
    requires um.Valid() && ds.Valid()
    modifies ds`mode, ds`dmdCopyHandle, ds`undoStarted, ds`dmdCopyOriginal,
      st`data, st`isDirty, st`copyDmdFromBackglass, um, cv
    ensures um.Valid() && ds.Valid() && um.transactionDepth == old(um.transactionDepth)
    ensures hit == old(DmdCopyAreaHitAt(st.data, st.copyDmdFromBackglass, st.activeTab, st.zoom, worldX, worldY))
    ensures hit != Some(CameraHit) ==>
      st.data == old(st.data) && st.isDirty == old(st.isDirty) && st.copyDmdFromBackglass == old(st.copyDmdFromBackglass)
      && um.undoStack == old(um.undoStack) && um.redoStack == old(um.redoStack) && um.currentRecord == old(um.currentRecord)
    ensures hit == Some(CameraHit) ==>
      st.data == (if dataUrl.Some? && old(st.backgroundImage).Some? then CopiedDmd(old(st.data), dataUrl.value) else old(st.data))
    ensures hit == Some(CameraHit) && dataUrl.Some? && old(st.backgroundImage).Some? ==>
      && st.isDirty && !st.copyDmdFromBackglass
      && (old(um.transactionDepth) == 0 ==>
            um.undoStack == Committed(old(um.undoStack), CopyDmdRecord(old(st.data)), st.data) && um.redoStack == [])
    ensures hit == Some(MoveHit) ==>
      ds.mode == DmdCopyMoveDrag && ds.dmdCopyHandle == Some(MoveHit) && cv.cursor == "move"
    ensures hit.Some? && hit.value.HandleOf? ==>
      ds.mode == DmdCopyResizeDrag && ds.dmdCopyHandle == hit && cv.cursor == old(cv.cursor)
    ensures hit.Some? && hit.value != CameraHit ==>
      !ds.undoStarted && ds.dmdCopyOriginal == Some(CopyAreaOf(old(st.data)))
    ensures hit.None? || hit == Some(CameraHit) ==>
      ds.mode == old(ds.mode) && ds.undoStarted == old(ds.undoStarted)
      && ds.dmdCopyHandle == old(ds.dmdCopyHandle) && ds.dmdCopyOriginal == old(ds.dmdCopyOriginal)
  {
    hit := HitTestDmdCopyArea(st, worldX, worldY);
    if hit == Some(CameraHit) {
      assert st.copyDmdFromBackglass && st.data.dmdCopyAreaWidth > 0 && st.data.dmdCopyAreaHeight > 0;
      CopyDmdFromBackglassArea(st, um, cv, dataUrl);
      return;
    }
    if hit == Some(MoveHit) {
      ds.mode := DmdCopyMoveDrag;
      ds.dmdCopyHandle := Some(MoveHit);
      ds.undoStarted := false;
      ds.dmdCopyOriginal := Some(CopyAreaOf(st.data));
      cv.cursor := "move";
      return;
    }
    if hit.Some? {
      ds.mode := DmdCopyResizeDrag;
      ds.dmdCopyHandle := hit;
      ds.undoStarted := false;
      ds.dmdCopyOriginal := Some(CopyAreaOf(st.data));
    }
  }

  // ---------------------------------------------------------------------
  // The positions saved when a move drag begins

  /** The bounds of each selected bulb that is found, at its id. */
  function BulbPositions(bulbs: seq<Bulb>, ids: seq<int>): (m: map<int, Bounds>)
    ensures forall k :: k in m <==> k in ids && HasKey(bulbs, BulbKey, k)
    ensures forall k :: k in m ==> m[k] == BulbBounds(Find(bulbs, BulbKey, k).value)
    decreases |ids|
  {
    if ids == [] then map[]
    else
      var m := BulbPositions(bulbs, ids[..|ids| - 1]);
      var k := ids[|ids| - 1];
      assert forall x :: x in ids <==> x in ids[..|ids| - 1] || x == k;
      match Find(bulbs, BulbKey, k)
      case Some(b) => m[k := BulbBounds(b)]
      case None => m
  }

  /** The bounds of each selected score that is found, at its id plus 10000, over `m0`. */
  function ScorePositions(m0: map<int, Bounds>, scores: seq<Score>, ids: seq<int>): (m: map<int, Bounds>)
    ensures forall id :: id in ids && HasKey(scores, ScoreKey, id) ==>
      id + 10000 in m && m[id + 10000] == ScoreBounds(Find(scores, ScoreKey, id).value)
    decreases |ids|
  {
    if ids == [] then m0
    else
      var m := ScorePositions(m0, scores, ids[..|ids| - 1]);
      var k := ids[|ids| - 1];
      assert forall x :: x in ids <==> x in ids[..|ids| - 1] || x == k;
      match Find(scores, ScoreKey, k)
      case Some(c) => m[k + 10000 := ScoreBounds(c)]
      case None => m
  }

  /** The score positions keep every key of `m0` and add only selected ids plus 10000. */
  lemma {:induction false} ScorePositionsKeys(m0: map<int, Bounds>, scores: seq<Score>, ids: seq<int>)
    ensures forall k :: k in m0 ==> k in ScorePositions(m0, scores, ids)
    ensures forall k :: k in ScorePositions(m0, scores, ids) && k !in m0 ==> k - 10000 in ids
    decreases |ids|
  {
    if ids != [] {
      var init := ids[..|ids| - 1];
      ScorePositionsKeys(m0, scores, init);
      assert forall x :: x in init ==> x in ids;
    }
  }

  /** `saveOriginalPositions`: bulbs at their ids, then scores at their ids plus 10000. */
  function OriginalPositions(d: Document, bulbIds: seq<int>, scoreIds: seq<int>): map<int, Bounds>
  {
    ScorePositions(BulbPositions(d.illumination, bulbIds), d.scores, scoreIds)
  }

  /** The bulb loop of `saveOriginalPositions`. */
  method SaveBulbPositions(bulbs: seq<Bulb>, ids: seq<int>) returns (m: map<int, Bounds>)
    ensures m == BulbPositions(bulbs, ids)
  {
    m := map[];
    var i := 0;
    while i < |ids|
      invariant 0 <= i <= |ids|
      invariant m == BulbPositions(bulbs, ids[..i])
    {
      assert ids[..i + 1][..i] == ids[..i];
      var bulb := Find(bulbs, BulbKey, ids[i]);
      if bulb.Some? {
        m := m[ids[i] := BulbBounds(bulb.value)];
      }
      i := i + 1;
    }
    assert ids[..|ids|] == ids;
  }

  /** The score loop of `saveOriginalPositions`. */
  method SaveScorePositions(m0: map<int, Bounds>, scores: seq<Score>, ids: seq<int>) returns (m: map<int, Bounds>)
    ensures m == ScorePositions(m0, scores, ids)
  {
    m := m0;
    var i := 0;
    while i < |ids|
      invariant 0 <= i <= |ids|
      invariant m == ScorePositions(m0, scores, ids[..i])
    {
      ScorePositionsSnoc(m0, scores, ids, i);
      var score := Find(scores, ScoreKey, ids[i]);
      if score.Some? {
        m := m[ids[i] + 10000 := ScoreBounds(score.value)];
      }
      i := i + 1;
    }
    assert ids[..|ids|] == ids;
  }

  lemma ScorePositionsSnoc(m0: map<int, Bounds>, scores: seq<Score>, ids: seq<int>, i: nat)
    requires i < |ids|
    ensures ScorePositions(m0, scores, ids[..i + 1]) ==
      match Find(scores, ScoreKey, ids[i])
      case Some(c) => ScorePositions(m0, scores, ids[..i])[ids[i] + 10000 := ScoreBounds(c)]
      case None => ScorePositions(m0, scores, ids[..i])
  {
    assert ids[..i + 1][..i] == ids[..i];
  }

  /** `saveOriginalPositions`: the map is cleared, then filled from the selection. */
  method SaveOriginalPositions(ds: DragState, st: EditorState)
    modifies ds`originalPositions
    ensures ds.originalPositions == OriginalPositions(st.data, st.selectedBulbIds, st.selectedScoreIds)
  {
    var m := SaveBulbPositions(st.data.illumination, st.selectedBulbIds);
    m := SaveScorePositions(m, st.data.scores, st.selectedScoreIds);
    ds.originalPositions := m;
  }

  // ---------------------------------------------------------------------
  // Mouse-down

  /** The world point under a mouse event. */
  function WorldAt(st: EditorState, v: Viewport, e: MouseEvent): Point
    requires ValidViewport(v) && st.zoom != 0.0
    reads st`zoom, st`panX, st`panY
  {
    ScreenToWorld(v, st.zoom, st.panX, st.panY, e.clientX, e.clientY)
  }

  /** A left click outside the special modes: a resize handle of a selected item, else an item, else empty space. */
  function ItemAction(st: EditorState, w: Point): (a: DownAction)
    requires st.zoom > 0.0
    reads st`zoom, st`showIlluminationFrames, st`showScoreFrames, st`selectedBulbIds, st`selectedScoreIds, st`data
    ensures a.StartResize? || a.StartMove? || a == ClearClick
    ensures a.StartResize? <==> HandleHitAt(st, w.x, w.y).Some?
    ensures a.StartResize? ==> Some(a.handleHit) == HandleHitAt(st, w.x, w.y)
    ensures a.StartMove? ==> Some(a.hit) == HitAt(st.data, st.showIlluminationFrames, st.showScoreFrames, w.x, w.y)
    ensures a == ClearClick <==>
      HandleHitAt(st, w.x, w.y).None? && HitAt(st.data, st.showIlluminationFrames, st.showScoreFrames, w.x, w.y).None?
  {
    match HandleHitAt(st, w.x, w.y)
    case Some(h) => StartResize(h)
    case None =>
      match HitAt(st.data, st.showIlluminationFrames, st.showScoreFrames, w.x, w.y)
      case Some(hit) => StartMove(hit)
      case None => ClearClick
  }

  /** Whether a left click goes to one of the three click modes. */
  predicate InClickMode(st: EditorState)
    reads st`setGrillHeight, st`setSmallGrillHeight, st`copyDmdFromBackglass, st`setDmdDefaultLocation
  {
    st.setGrillHeight || st.setSmallGrillHeight || st.copyDmdFromBackglass || st.setDmdDefaultLocation
  }

  /** A left click in a click mode: the grill heights first, then the DMD copy area, then the DMD location. */
  function ModeAction(st: EditorState, w: Point): (a: DownAction)
    reads st`setGrillHeight, st`setSmallGrillHeight, st`copyDmdFromBackglass, st`data, st`activeTab, st`zoom
    ensures a == GrillClick || a.DmdCopyClick? || a == DmdLocationClick
  {
    if st.setGrillHeight || st.setSmallGrillHeight then GrillClick
    else if st.copyDmdFromBackglass then
      DmdCopyClick(DmdCopyAreaHitAt(st.data, st.copyDmdFromBackglass, st.activeTab, st.zoom, w.x, w.y))
    else DmdLocationClick
  }

  /**
   * What `onMouseDown` does: the middle button, or the left one with Alt,
   * pans; otherwise the left button serves the grill-height mode, then the
   * copy-DMD mode, then the DMD-location mode, and only outside all three
   * reaches the items.
   */
  function DownActionOf(st: EditorState, e: MouseEvent, w: Point): (a: DownAction)
    requires st.zoom > 0.0
    reads st`setGrillHeight, st`setSmallGrillHeight, st`copyDmdFromBackglass, st`setDmdDefaultLocation,
      st`data, st`activeTab, st`zoom, st`showIlluminationFrames, st`showScoreFrames, st`selectedBulbIds, st`selectedScoreIds
    ensures a == StartPan <==> e.button == 1 || (e.button == 0 && e.altKey)
    ensures a == NoAction <==> e.button != 0 && e.button != 1
    ensures a == GrillClick <==> e.button == 0 && !e.altKey && (st.setGrillHeight || st.setSmallGrillHeight)
    ensures a.DmdCopyClick? <==>
      e.button == 0 && !e.altKey && !st.setGrillHeight && !st.setSmallGrillHeight && st.copyDmdFromBackglass
    ensures a.DmdCopyClick? ==>
      a.copyHit == DmdCopyAreaHitAt(st.data, st.copyDmdFromBackglass, st.activeTab, st.zoom, w.x, w.y)
    ensures a == DmdLocationClick <==>
      && e.button == 0 && !e.altKey && !st.setGrillHeight && !st.setSmallGrillHeight
      && !st.copyDmdFromBackglass && st.setDmdDefaultLocation
    ensures (a.StartResize? || a.StartMove? || a == ClearClick) ==> a == ItemAction(st, w)
    ensures a == GrillClick || a.DmdCopyClick? || a == DmdLocationClick ==> a == ModeAction(st, w)
  {
    if e.button == 1 || (e.button == 0 && e.altKey) then StartPan
    else if e.button != 0 then NoAction
    else if InClickMode(st) then ModeAction(st, w)
    else ItemAction(st, w)
  }

  /** A press on a resize handle of a selected item: a resize drag of that item starts. */
  method StartResizeDrag(ds: DragState, um: UndoManager, cv: Canvas, h: HandleHit)
    modifies ds`mode, ds`resizeHandle, ds`resizeType, ds`resizeId, ds`undoStarted, cv
    ensures ds.Valid()
    ensures PhaseOf(ds, um) == AfterDown(old(PhaseOf(ds, um)), StartResize(h))
    ensures ds.resizeHandle == Some(h.handle) && ds.resizeType == Some(h.kind) && ds.resizeId == Some(h.id)
    ensures cv.cursor == h.handle.cursor
  {
    ds.mode := ResizeDrag;
    ds.resizeHandle := Some(h.handle);
    ds.resizeType := Some(h.kind);
    ds.resizeId := Some(h.id);
    ds.undoStarted := false;
    cv.cursor := h.handle.cursor;
  }

  /** A press on an item: select it (`ClickSelect`), keep the selection's positions, start a move drag. */
  method StartMoveDrag(ds: DragState, st: EditorState, um: UndoManager, cv: Canvas, hit: HitResult, shift: bool)
    modifies ds`mode, ds`undoStarted, ds`originalPositions, st`selectedBulbIds, st`selectedScoreIds,
      st`primarySelection, cv
    ensures ds.Valid()
    ensures PhaseOf(ds, um) == AfterDown(old(PhaseOf(ds, um)), StartMove(hit))
    ensures cv.cursor == "move"
    ensures SelectionOf(st) == ClickSelect(old(SelectionOf(st)), hit, shift)
    ensures ds.originalPositions == OriginalPositions(st.data, st.selectedBulbIds, st.selectedScoreIds)
  {
    SelectOnClick(st, hit, shift);
    ds.mode := MoveDrag;
    ds.undoStarted := false;
    SaveOriginalPositions(ds, st);
    cv.cursor := "move";
  }

  /** The item part of `onMouseDown`: start a resize, select and start a move, or clear the selection. */
  method PressOnItems(ds: DragState, st: EditorState, um: UndoManager, cv: Canvas, w: Point, shift: bool)
    returns (a: DownAction)
    requires st.zoom > 0.0 && ds.Valid()
    modifies ds`mode, ds`resizeHandle, ds`resizeType, ds`resizeId, ds`undoStarted, ds`originalPositions,
      st`selectedBulbIds, st`selectedScoreIds, st`primarySelection, cv
    ensures ds.Valid()
    ensures a == old(ItemAction(st, w))
    ensures PhaseOf(ds, um) == AfterDown(old(PhaseOf(ds, um)), a)
    ensures a.StartResize? ==>
      && ds.resizeHandle == Some(a.handleHit.handle) && ds.resizeType == Some(a.handleHit.kind)
      && ds.resizeId == Some(a.handleHit.id) && cv.cursor == a.handleHit.handle.cursor
      && SelectionOf(st) == old(SelectionOf(st))
    ensures a.StartMove? ==>
      && SelectionOf(st) == ClickSelect(old(SelectionOf(st)), a.hit, shift) && cv.cursor == "move"
      && ds.originalPositions == OriginalPositions(st.data, st.selectedBulbIds, st.selectedScoreIds)
    ensures a == ClearClick ==> SelectionOf(st) == Cleared()
  {
    ghost var expected := ItemAction(st, w);
    var resizeHit := HitTestResizeHandleAtPoint(st, w.x, w.y);
    if resizeHit.Some? {
      assert expected == StartResize(resizeHit.value);
      StartResizeDrag(ds, um, cv, resizeHit.value);
      return StartResize(resizeHit.value);
    }
    var hit := HitTestAtPoint(st, w.x, w.y);
    if hit.Some? {
      assert expected == StartMove(hit.value);
      StartMoveDrag(ds, st, um, cv, hit.value, shift);
      return StartMove(hit.value);
    }
    assert expected == ClearClick;
    ClearSelection(st);
    return ClearClick;
  }

  /** The editor fields a click in a click mode may change, as one value. */
  datatype ModeView = ModeView(data: Document, isDirty: bool, undoStack: seq<UndoRecord>, redoStack: seq<UndoRecord>,
                               setGrillHeight: bool, setSmallGrillHeight: bool,
                               copyDmdFromBackglass: bool, setDmdDefaultLocation: bool)

  function ModeViewOf(st: EditorState, um: UndoManager): ModeView
    reads st`data, st`isDirty, st`setGrillHeight, st`setSmallGrillHeight, st`copyDmdFromBackglass, st`setDmdDefaultLocation,
      um`undoStack, um`redoStack
  {
    ModeView(st.data, st.isDirty, um.undoStack, um.redoStack, st.setGrillHeight, st.setSmallGrillHeight,
             st.copyDmdFromBackglass, st.setDmdDefaultLocation)
  }

  /**
   * What a click in a click mode reads of the editor at the press: the grill
   * remove button hit, the grill height under the mouse, whether the DMD
   * location's remove button is hit, and the PNG data the camera copies
   * (none without a background image).
   */
  datatype ModeInputs = ModeInputs(grillHit: Option<GrillButton>, height: Option<int>, locationRemove: bool,
                                   camera: Option<string>)

  function ModeInputsOf(st: EditorState, w: Point, dataUrl: Option<string>): ModeInputs
    reads st`setGrillHeight, st`setSmallGrillHeight, st`setDmdDefaultLocation, st`data, st`activeTab, st`backgroundImage, st`dmdImage, st`zoom
  {
    ModeInputs(GrillRemoveHitAt(st, w.x, w.y), GrillClickHeight(st.backgroundImage, w.y),
               DmdDefaultLocationRemoveHit(st, w.x, w.y), if st.backgroundImage.Some? then dataUrl else None)
  }

  /** The actions a click mode takes. */
  predicate IsModeClick(a: DownAction)
  {
    a == GrillClick || a.DmdCopyClick? || a == DmdLocationClick
  }

  /**
   * The effect of click-mode action `a` at world point `w`, from the fields
   * `before` at transaction depth `depth` to the fields `after`: the grill
   * click's edit, the camera's copy and the DMD location's edit, each
   * committed as one record at depth 0; any other copy-area click changes
   * nothing here.  It says nothing of the other actions.
   */
  predicate ModeClicked(a: DownAction, before: ModeView, after: ModeView, depth: nat, inputs: ModeInputs, w: Point)
  {
    && (a == GrillClick ==>
          var e := GrillClickEdit(before.data, inputs.grillHit, inputs.height, before.setGrillHeight, before.setSmallGrillHeight);
          && (e.None? ==>
                after.data == before.data && after.isDirty == before.isDirty
                && after.undoStack == before.undoStack && after.redoStack == before.redoStack)
          && (e.Some? ==> after.data == before.data.(grillHeight := e.value.grill, smallGrillHeight := e.value.small) && after.isDirty)
          && (e.Some? && depth == 0 ==>
                after.undoStack == Committed(before.undoStack, GrillRecord(e.value.description, before.data), after.data)
                && after.redoStack == [])
          && (inputs.grillHit.Some? ==> !after.setGrillHeight && !after.setSmallGrillHeight))
    && (a.DmdCopyClick? && a.copyHit != Some(CameraHit) ==>
          after.data == before.data && after.isDirty == before.isDirty
          && after.undoStack == before.undoStack && after.redoStack == before.redoStack)
    && (a.DmdCopyClick? && a.copyHit == Some(CameraHit) ==>
          && after.data == (if inputs.camera.Some? then CopiedDmd(before.data, inputs.camera.value) else before.data)
          && (inputs.camera.Some? ==>
                && after.isDirty && !after.copyDmdFromBackglass
                && (depth == 0 ==>
                      after.undoStack == Committed(before.undoStack, CopyDmdRecord(before.data), after.data)
                      && after.redoStack == [])))
    && (a == DmdLocationClick ==>
          && after.data == WithDmdArea(before.data, DmdLocationEdit(before.data, inputs.locationRemove, w.x, w.y))
          && after.isDirty && !after.setDmdDefaultLocation
          && (depth == 0 ==>
                after.undoStack == Committed(before.undoStack, DmdAreaRecord(DmdLocationDescription(inputs.locationRemove), before.data), after.data)
                && after.redoStack == []))
  }

  /** The click-mode part of `onMouseDown`. */
  method PressInMode(ds: DragState, st: EditorState, um: UndoManager, cv: Canvas, w: Point, dataUrl: Option<string>)
    returns (a: DownAction)
    requires um.Valid() && ds.Valid()
    modifies ds`mode, ds`dmdCopyHandle, ds`undoStarted, ds`dmdCopyOriginal,
      st`data, st`isDirty, st`setGrillHeight, st`setSmallGrillHeight, st`mouseWorldY, st`mouseWorldX,
      st`setDmdDefaultLocation, st`copyDmdFromBackglass, um, cv
    ensures um.Valid() && ds.Valid()
    ensures a == old(ModeAction(st, w))
    ensures PhaseOf(ds, um) == AfterDown(old(PhaseOf(ds, um)), a)
    ensures um.transactionDepth == old(um.transactionDepth)
    ensures ModeClicked(a, old(ModeViewOf(st, um)), ModeViewOf(st, um), old(um.transactionDepth),
                        old(ModeInputsOf(st, w, dataUrl)), w)
  {
    ghost var before, depth, inputs := ModeViewOf(st, um), um.transactionDepth, ModeInputsOf(st, w, dataUrl);
    if st.setGrillHeight || st.setSmallGrillHeight {
      a := PressGrillMode(st, um, cv, w, dataUrl);
    } else if st.copyDmdFromBackglass {
      var hit := HandleDmdCopyAreaClick(ds, st, um, cv, w.x, w.y, dataUrl);
      a := DmdCopyClick(hit);
      assert ModeClicked(a, before, ModeViewOf(st, um), depth, inputs, w);
    } else {
      a := PressLocationMode(st, um, cv, w, dataUrl);
    }
  }

  /** The grill-height branch of the click-mode part. */
  method PressGrillMode(st: EditorState, um: UndoManager, cv: Canvas, w: Point, dataUrl: Option<string>)
    returns (a: DownAction)
    requires um.Valid()
    modifies st`data, st`isDirty, st`setGrillHeight, st`setSmallGrillHeight, st`mouseWorldY, um, cv
    ensures um.Valid() && um.transactionDepth == old(um.transactionDepth) && a == GrillClick
    ensures ModeClicked(a, old(ModeViewOf(st, um)), ModeViewOf(st, um), old(um.transactionDepth),
                        old(ModeInputsOf(st, w, dataUrl)), w)
  {
    HandleGrillHeightClick(st, um, cv, w.x, w.y);
    a := GrillClick;
  }

  /** The DMD-location branch of the click-mode part. */
  method PressLocationMode(st: EditorState, um: UndoManager, cv: Canvas, w: Point, dataUrl: Option<string>)
    returns (a: DownAction)
    requires um.Valid()
    modifies st`data, st`isDirty, st`setDmdDefaultLocation, st`mouseWorldX, st`mouseWorldY, um, cv
    ensures um.Valid() && um.transactionDepth == old(um.transactionDepth) && a == DmdLocationClick
    ensures ModeClicked(a, old(ModeViewOf(st, um)), ModeViewOf(st, um), old(um.transactionDepth),
                        old(ModeInputsOf(st, w, dataUrl)), w)
  {
    HandleDmdDefaultLocationClick(st, um, cv, w.x, w.y);
    a := DmdLocationClick;
  }

  /** A left click without Alt: a click mode takes it if one is on, otherwise the items do. */
  method PressLeft(ds: DragState, st: EditorState, um: UndoManager, cv: Canvas, w: Point, shift: bool,
                   dataUrl: Option<string>) returns (a: DownAction)
    requires st.zoom > 0.0 && um.Valid() && ds.Valid()
    modifies ds`mode, ds`resizeHandle, ds`resizeType, ds`resizeId, ds`undoStarted, ds`originalPositions,
      ds`dmdCopyHandle, ds`dmdCopyOriginal, um, cv, st`data, st`isDirty,
      st`selectedBulbIds, st`selectedScoreIds, st`primarySelection,
      st`setGrillHeight, st`setSmallGrillHeight, st`mouseWorldY, st`mouseWorldX,
      st`setDmdDefaultLocation, st`copyDmdFromBackglass
    ensures um.Valid() && ds.Valid()
    ensures a == old(if InClickMode(st) then ModeAction(st, w) else ItemAction(st, w))
    ensures PhaseOf(ds, um) == AfterDown(old(PhaseOf(ds, um)), a)
    ensures a.StartResize? ==>
      && ds.resizeHandle == Some(a.handleHit.handle) && ds.resizeType == Some(a.handleHit.kind)
      && ds.resizeId == Some(a.handleHit.id) && cv.cursor == a.handleHit.handle.cursor
    ensures a.StartMove? ==>
      && SelectionOf(st) == ClickSelect(old(SelectionOf(st)), a.hit, shift) && cv.cursor == "move"
      && ds.originalPositions == OriginalPositions(st.data, st.selectedBulbIds, st.selectedScoreIds)
    ensures a == ClearClick ==> SelectionOf(st) == Cleared()
    ensures a.StartResize? || a.StartMove? || a == ClearClick ==>
      && st.data == old(st.data) && um.undoStack == old(um.undoStack) && um.redoStack == old(um.redoStack)
      && um.currentRecord == old(um.currentRecord) && st.isDirty == old(st.isDirty)
    ensures ModeClicked(a, old(ModeViewOf(st, um)), ModeViewOf(st, um), old(um.transactionDepth),
                        old(ModeInputsOf(st, w, dataUrl)), w)
  {
    if InClickMode(st) {
      a := PressInMode(ds, st, um, cv, w, dataUrl);
    } else {
      a := PressOnItems(ds, st, um, cv, w, shift);
    }
  }

  /** The start of a pan drag: the pan start is kept relative to the current pan. */
  method StartPanDrag(ds: DragState, st: EditorState, cv: Canvas, e: MouseEvent)
    requires ds.Valid()
    modifies ds`mode, st`isPanning, st`panStartX, st`panStartY, cv
    ensures ds.Valid() && ds.mode == PanDrag
    ensures st.isPanning && st.panStartX == e.clientX - st.panX && st.panStartY == e.clientY - st.panY
    ensures cv.cursor == "grabbing"
  {
    ds.mode := PanDrag;
    st.isPanning := true;
    st.panStartX := e.clientX - st.panX;
    st.panStartY := e.clientY - st.panY;
    cv.cursor := "grabbing";
  }

  /** The action part of `onMouseDown` at world point `w`: pan, ignore, or hand a left click on. */
  method PressAt(ds: DragState, st: EditorState, um: UndoManager, cv: Canvas, w: Point, e: MouseEvent,
                 dataUrl: Option<string>) returns (a: DownAction)
    requires st.zoom > 0.0 && um.Valid() && ds.Valid()
    modifies ds`mode, ds`resizeHandle, ds`resizeType, ds`resizeId, ds`undoStarted, ds`originalPositions,
      ds`dmdCopyHandle, ds`dmdCopyOriginal, um, cv, st`data, st`isDirty, st`isPanning, st`panStartX, st`panStartY,
      st`selectedBulbIds, st`selectedScoreIds, st`primarySelection,
      st`setGrillHeight, st`setSmallGrillHeight, st`mouseWorldY, st`mouseWorldX,
      st`setDmdDefaultLocation, st`copyDmdFromBackglass
    ensures um.Valid() && ds.Valid()
    ensures a == old(DownActionOf(st, e, w))
    ensures PhaseOf(ds, um) == AfterDown(old(PhaseOf(ds, um)), a)
    ensures a == StartPan ==>
      && st.isPanning && st.panStartX == e.clientX - st.panX && st.panStartY == e.clientY - st.panY
      && cv.cursor == "grabbing"
    ensures a.StartResize? ==>
      && ds.resizeHandle == Some(a.handleHit.handle) && ds.resizeType == Some(a.handleHit.kind)
      && ds.resizeId == Some(a.handleHit.id) && cv.cursor == a.handleHit.handle.cursor
    ensures a.StartMove? ==>
      && SelectionOf(st) == ClickSelect(old(SelectionOf(st)), a.hit, e.shiftKey) && cv.cursor == "move"
      && ds.originalPositions == OriginalPositions(st.data, st.selectedBulbIds, st.selectedScoreIds)
    ensures a == ClearClick ==> SelectionOf(st) == Cleared()
    ensures a == StartPan || a == NoAction || a.StartResize? || a.StartMove? || a == ClearClick ==>
      && st.data == old(st.data) && um.undoStack == old(um.undoStack) && um.redoStack == old(um.redoStack)
      && um.currentRecord == old(um.currentRecord) && st.isDirty == old(st.isDirty)
    ensures ModeClicked(a, old(ModeViewOf(st, um)), ModeViewOf(st, um), old(um.transactionDepth),
                        old(ModeInputsOf(st, w, dataUrl)), w)
  {
    if e.button == 1 || (e.button == 0 && e.altKey) {
      StartPanDrag(ds, st, cv, e);
      return StartPan;
    }
    if e.button != 0 {
      return NoAction;
    }
    a := PressLeft(ds, st, um, cv, w, e.shiftKey, dataUrl);
  }

  /**
   * `onMouseDown` as written: the start and last points are recorded, then
   * the action `DownActionOf` names is carried out (`PressAt`), over
   * whatever drag is in progress.  `dataUrl` is what the copy-DMD camera
   * would read from the backglass.  The action taken is returned.
   */
  method Press(ds: DragState, st: EditorState, um: UndoManager, cv: Canvas, v: Viewport, e: MouseEvent,
               dataUrl: Option<string>) returns (a: DownAction)
    requires ValidViewport(v) && st.zoom > 0.0 && um.Valid() && ds.Valid()
    modifies ds, um, cv, st`data, st`isDirty, st`isPanning, st`panStartX, st`panStartY,
      st`selectedBulbIds, st`selectedScoreIds, st`primarySelection,
      st`setGrillHeight, st`setSmallGrillHeight, st`mouseWorldY, st`mouseWorldX,
      st`setDmdDefaultLocation, st`copyDmdFromBackglass
    ensures um.Valid() && ds.Valid()
    ensures a == old(DownActionOf(st, e, WorldAt(st, v, e)))
    ensures PhaseOf(ds, um) == AfterDown(old(PhaseOf(ds, um)), a)
    ensures var w := old(WorldAt(st, v, e));
      && ds.startWorldX == w.x && ds.startWorldY == w.y && ds.lastWorldX == w.x && ds.lastWorldY == w.y
      && ds.startScreenX == e.clientX && ds.startScreenY == e.clientY
    ensures var w := old(WorldAt(st, v, e));
      ModeClicked(a, old(ModeViewOf(st, um)), ModeViewOf(st, um), old(um.transactionDepth),
                  old(ModeInputsOf(st, w, dataUrl)), w)
    ensures a == StartPan ==>
      && st.isPanning && st.panStartX == e.clientX - st.panX && st.panStartY == e.clientY - st.panY
      && cv.cursor == "grabbing"
    ensures a.StartResize? ==>
      && ds.resizeHandle == Some(a.handleHit.handle) && ds.resizeType == Some(a.handleHit.kind)
      && ds.resizeId == Some(a.handleHit.id) && cv.cursor == a.handleHit.handle.cursor
    ensures a.StartMove? ==>
      && SelectionOf(st) == ClickSelect(old(SelectionOf(st)), a.hit, e.shiftKey) && cv.cursor == "move"
      && ds.originalPositions == OriginalPositions(st.data, st.selectedBulbIds, st.selectedScoreIds)
    ensures a == ClearClick ==> SelectionOf(st) == Cleared()
    ensures a == StartPan || a == NoAction || a.StartResize? || a.StartMove? || a == ClearClick ==>
      && st.data == old(st.data) && um.undoStack == old(um.undoStack) && um.redoStack == old(um.redoStack)
      && um.currentRecord == old(um.currentRecord) && st.isDirty == old(st.isDirty)
  {
    var w := ScreenToWorld(v, st.zoom, st.panX, st.panY, e.clientX, e.clientY);
    assert w == WorldAt(st, v, e);
    a := PressFrom(ds, st, um, cv, w, e, dataUrl);
  }

  /**
   * `onMouseDown` from the world point `w` of the press: the action is
   * carried out and the point becomes the start and last point.  The source
   * records the point first; nothing `PressAt` reads or writes is one of
   * those six fields, so the order makes no difference to the outcome.
   */
  method PressFrom(ds: DragState, st: EditorState, um: UndoManager, cv: Canvas, w: Point, e: MouseEvent,
                   dataUrl: Option<string>) returns (a: DownAction)
    requires st.zoom > 0.0 && um.Valid() && ds.Valid()
    modifies ds, um, cv, st`data, st`isDirty, st`isPanning, st`panStartX, st`panStartY,
      st`selectedBulbIds, st`selectedScoreIds, st`primarySelection,
      st`setGrillHeight, st`setSmallGrillHeight, st`mouseWorldY, st`mouseWorldX,
      st`setDmdDefaultLocation, st`copyDmdFromBackglass
    ensures um.Valid() && ds.Valid()
    ensures a == old(DownActionOf(st, e, w))
    ensures PhaseOf(ds, um) == AfterDown(old(PhaseOf(ds, um)), a)
    ensures ds.startWorldX == w.x && ds.startWorldY == w.y && ds.lastWorldX == w.x && ds.lastWorldY == w.y
      && ds.startScreenX == e.clientX && ds.startScreenY == e.clientY
    ensures ModeClicked(a, old(ModeViewOf(st, um)), ModeViewOf(st, um), old(um.transactionDepth),
                        old(ModeInputsOf(st, w, dataUrl)), w)
    ensures a == StartPan ==>
      && st.isPanning && st.panStartX == e.clientX - st.panX && st.panStartY == e.clientY - st.panY
      && cv.cursor == "grabbing"
    ensures a.StartResize? ==>
      && ds.resizeHandle == Some(a.handleHit.handle) && ds.resizeType == Some(a.handleHit.kind)
      && ds.resizeId == Some(a.handleHit.id) && cv.cursor == a.handleHit.handle.cursor
    ensures a.StartMove? ==>
      && SelectionOf(st) == ClickSelect(old(SelectionOf(st)), a.hit, e.shiftKey) && cv.cursor == "move"
      && ds.originalPositions == OriginalPositions(st.data, st.selectedBulbIds, st.selectedScoreIds)
    ensures a == ClearClick ==> SelectionOf(st) == Cleared()
    ensures a == StartPan || a == NoAction || a.StartResize? || a.StartMove? || a == ClearClick ==>
      && st.data == old(st.data) && um.undoStack == old(um.undoStack) && um.redoStack == old(um.redoStack)
      && um.currentRecord == old(um.currentRecord) && st.isDirty == old(st.isDirty)
  {
    a := PressAt(ds, st, um, cv, w, e, dataUrl);
    RecordPressPoint(ds, e, w);
  }

  /** The first lines of `onMouseDown`: the press point becomes the start and the last point of a drag. */
  method RecordPressPoint(ds: DragState, e: MouseEvent, w: Point)
    modifies ds`startScreenX, ds`startScreenY, ds`startWorldX, ds`startWorldY, ds`lastWorldX, ds`lastWorldY
    ensures ds.Valid() == old(ds.Valid())
    ensures ds.startWorldX == w.x && ds.startWorldY == w.y && ds.lastWorldX == w.x && ds.lastWorldY == w.y
    ensures ds.startScreenX == e.clientX && ds.startScreenY == e.clientY
  {
    ds.startScreenX, ds.startScreenY := e.clientX, e.clientY;
    ds.startWorldX, ds.startWorldY := w.x, w.y;
    ds.lastWorldX, ds.lastWorldY := w.x, w.y;
  }

  /**
   * `onMouseUp`: a recording drag whose transaction started ends it, a pan
   * stops panning, and the drag state is reset.
   */
  method MouseUp(ds: DragState, st: EditorState, um: UndoManager, cv: Canvas)
    requires um.Valid()
    modifies ds`mode, ds`resizeHandle, ds`resizeType, ds`resizeId, ds`undoStarted, ds`originalPositions,
      ds`dmdCopyHandle, ds`dmdCopyOriginal, st`isPanning, st`isDirty, um, cv
    ensures um.Valid() && ds.Valid()
    ensures PhaseOf(ds, um) == AfterUp(old(PhaseOf(ds, um)))
    ensures ds.resizeHandle.None? && ds.resizeType.None? && ds.resizeId.None? && ds.originalPositions == map[]
    ensures ds.dmdCopyHandle.None? && ds.dmdCopyOriginal.None?
    ensures st.isPanning == (old(st.isPanning) && old(ds.mode) != PanDrag)
    ensures cv.cursor == if old(ds.mode) == PanDrag || Recording(old(ds.mode)) then "default" else old(cv.cursor)
    ensures Recording(old(ds.mode)) && old(ds.undoStarted) && old(um.transactionDepth) == 1 ==>
      var r := old(um.currentRecord).value;
      um.undoStack == Committed(old(um.undoStack), r, st.data)
      && um.redoStack == CommittedRedo(old(um.redoStack), r) && st.isDirty == CommittedDirty(old(st.isDirty), r)
    ensures Recording(old(ds.mode)) && old(ds.undoStarted) && old(um.transactionDepth) != 1 ==>
      um.undoStack == old(um.undoStack) && um.redoStack == old(um.redoStack) && st.isDirty == old(st.isDirty)
    ensures !(Recording(old(ds.mode)) && old(ds.undoStarted)) ==>
      && um.undoStack == old(um.undoStack) && um.redoStack == old(um.redoStack)
      && um.currentRecord == old(um.currentRecord) && st.isDirty == old(st.isDirty)
  {
    if ds.mode == PanDrag {
      st.isPanning := false;
      cv.cursor := "default";
    }
    if Recording(ds.mode) {
      if ds.undoStarted {
        um.EndUndo(st);
      }
      cv.cursor := "default";
    }
    ds.Reset();
  }

  /** `onMouseLeave`: leaving the canvas during a drag ends it as a mouse-up would. */
  method MouseLeave(ds: DragState, st: EditorState, um: UndoManager, cv: Canvas)
    requires um.Valid()
    modifies ds`mode, ds`resizeHandle, ds`resizeType, ds`resizeId, ds`undoStarted, ds`originalPositions,
      ds`dmdCopyHandle, ds`dmdCopyOriginal, st`isPanning, st`isDirty, um, cv
    ensures um.Valid()
    ensures PhaseOf(ds, um) == Step(old(PhaseOf(ds, um)), Leave, true)
    ensures old(ds.mode) == NoDrag ==>
      && ds.undoStarted == old(ds.undoStarted) && st.isPanning == old(st.isPanning) && cv.cursor == old(cv.cursor)
      && um.undoStack == old(um.undoStack) && um.redoStack == old(um.redoStack)
      && um.currentRecord == old(um.currentRecord) && um.transactionDepth == old(um.transactionDepth)
      && st.isDirty == old(st.isDirty)
    ensures old(ds.mode) != NoDrag ==>
      && ds.mode == NoDrag && !ds.undoStarted && ds.Valid()
      && ds.resizeHandle.None? && ds.resizeType.None? && ds.resizeId.None? && ds.originalPositions == map[]
      && ds.dmdCopyHandle.None? && ds.dmdCopyOriginal.None?
      && st.isPanning == (old(st.isPanning) && old(ds.mode) != PanDrag)
      && cv.cursor == (if old(ds.mode) == PanDrag || Recording(old(ds.mode)) then "default" else old(cv.cursor))
    ensures Recording(old(ds.mode)) && old(ds.undoStarted) && old(um.transactionDepth) == 1 ==>
      var r := old(um.currentRecord).value;
      um.undoStack == Committed(old(um.undoStack), r, st.data)
      && um.redoStack == CommittedRedo(old(um.redoStack), r) && st.isDirty == CommittedDirty(old(st.isDirty), r)
    ensures !(Recording(old(ds.mode)) && old(ds.undoStarted) && old(um.transactionDepth) == 1) ==>
      um.undoStack == old(um.undoStack) && um.redoStack == old(um.redoStack) && st.isDirty == old(st.isDirty)
  {
    if ds.mode != NoDrag {
      MouseUp(ds, st, um, cv);
    }
  }

  /**
   * The fields `v` once the drag in progress is finished as `onMouseUp`
   * finishes it: with `commits` (a started recording drag at depth 1) the
   * open record `r` is committed; otherwise nothing here changes.
   */
  function FinishedView(v: ModeView, commits: bool, r: Option<UndoRecord>): ModeView
  {
    if commits && r.Some? then
      v.(undoStack := Committed(v.undoStack, r.value, v.data), redoStack := CommittedRedo(v.redoStack, r.value),
         isDirty := CommittedDirty(v.isDirty, r.value))
    else v
  }

  /**
   * `onMouseDown` with a drag still in progress finished first, as
   * `onMouseUp` would: with it, every run of canvas events keeps the drag's
   * transaction balanced (`RunCheckedBalanced`).
   */
  method MouseDown(ds: DragState, st: EditorState, um: UndoManager, cv: Canvas, v: Viewport, e: MouseEvent,
                   dataUrl: Option<string>) returns (a: DownAction)
    requires ValidViewport(v) && st.zoom > 0.0 && um.Valid() && ds.Valid()
    modifies ds, um, cv, st`data, st`isDirty, st`isPanning, st`panStartX, st`panStartY,
      st`selectedBulbIds, st`selectedScoreIds, st`primarySelection,
      st`setGrillHeight, st`setSmallGrillHeight, st`mouseWorldY, st`mouseWorldX,
      st`setDmdDefaultLocation, st`copyDmdFromBackglass
    ensures um.Valid() && ds.Valid()
    ensures PhaseOf(ds, um) == Step(old(PhaseOf(ds, um)), Down(a), true)
    ensures a == old(DownActionOf(st, e, WorldAt(st, v, e)))
    ensures var w := old(WorldAt(st, v, e));
      var finished := Recording(old(ds.mode)) && old(ds.undoStarted);
      var before := FinishedView(old(ModeViewOf(st, um)), finished && old(um.transactionDepth) == 1, old(um.currentRecord));
      var depth := if finished && old(um.transactionDepth) > 0 then old(um.transactionDepth) - 1 else old(um.transactionDepth);
      && ModeClicked(a, before, ModeViewOf(st, um), depth, old(ModeInputsOf(st, w, dataUrl)), w)
      && (!IsModeClick(a) ==>
            st.data == before.data && st.isDirty == before.isDirty
            && um.undoStack == before.undoStack && um.redoStack == before.redoStack)
    ensures a == StartPan ==>
      && st.isPanning && st.panStartX == e.clientX - st.panX && st.panStartY == e.clientY - st.panY
      && cv.cursor == "grabbing"
    ensures a.StartResize? ==>
      && ds.resizeHandle == Some(a.handleHit.handle) && ds.resizeType == Some(a.handleHit.kind)
      && ds.resizeId == Some(a.handleHit.id) && cv.cursor == a.handleHit.handle.cursor
    ensures a.StartMove? ==>
      && SelectionOf(st) == ClickSelect(old(SelectionOf(st)), a.hit, e.shiftKey) && cv.cursor == "move"
      && ds.originalPositions == OriginalPositions(st.data, st.selectedBulbIds, st.selectedScoreIds)
    ensures a == ClearClick ==> SelectionOf(st) == Cleared()
  {
    FinishDrag(ds, st, um, cv, v, e, dataUrl);
    a := Press(ds, st, um, cv, v, e, dataUrl);
  }

  /** The first part of the corrected `onMouseDown`: a drag in progress ends as `onMouseUp` ends it. */
  method FinishDrag(ds: DragState, st: EditorState, um: UndoManager, cv: Canvas, ghost v: Viewport, ghost e: MouseEvent,
                    ghost dataUrl: Option<string>)
    requires ValidViewport(v) && st.zoom > 0.0 && um.Valid() && ds.Valid()
    modifies ds`mode, ds`resizeHandle, ds`resizeType, ds`resizeId, ds`undoStarted, ds`originalPositions,
      ds`dmdCopyHandle, ds`dmdCopyOriginal, st`isPanning, st`isDirty, um, cv
    ensures um.Valid() && ds.Valid()
    ensures PhaseOf(ds, um) == if old(ds.mode) == NoDrag then old(PhaseOf(ds, um)) else AfterUp(old(PhaseOf(ds, um)))
    ensures var finished := Recording(old(ds.mode)) && old(ds.undoStarted);
      && ModeViewOf(st, um) == FinishedView(old(ModeViewOf(st, um)), finished && old(um.transactionDepth) == 1, old(um.currentRecord))
      && um.transactionDepth == if finished && old(um.transactionDepth) > 0 then old(um.transactionDepth) - 1 else old(um.transactionDepth)
    ensures WorldAt(st, v, e) == old(WorldAt(st, v, e)) && SelectionOf(st) == old(SelectionOf(st))
    ensures var w := WorldAt(st, v, e);
      DownActionOf(st, e, w) == old(DownActionOf(st, e, w)) && ModeInputsOf(st, w, dataUrl) == old(ModeInputsOf(st, w, dataUrl))
  {
    EndDrag(ds, st, um, cv);
  }

  /** A drag in progress ends as `onMouseUp` ends it; with no drag nothing changes. */
  method EndDrag(ds: DragState, st: EditorState, um: UndoManager, cv: Canvas)
    requires um.Valid() && ds.Valid()
    modifies ds`mode, ds`resizeHandle, ds`resizeType, ds`resizeId, ds`undoStarted, ds`originalPositions,
      ds`dmdCopyHandle, ds`dmdCopyOriginal, st`isPanning, st`isDirty, um, cv
    ensures um.Valid() && ds.Valid()
    ensures PhaseOf(ds, um) == if old(ds.mode) == NoDrag then old(PhaseOf(ds, um)) else AfterUp(old(PhaseOf(ds, um)))
    ensures var finished := Recording(old(ds.mode)) && old(ds.undoStarted);
      && ModeViewOf(st, um) == FinishedView(old(ModeViewOf(st, um)), finished && old(um.transactionDepth) == 1, old(um.currentRecord))
      && um.transactionDepth == if finished && old(um.transactionDepth) > 0 then old(um.transactionDepth) - 1 else old(um.transactionDepth)
  {
    if ds.mode != NoDrag {
      MouseUp(ds, st, um, cv);
    }
  }

  // ---------------------------------------------------------------------
  // Dragging

    /** The first move step past the threshold opens "Move" and marks the selection. */
  method StartMoveUndo(ds: DragState, st: EditorState, um: UndoManager)
    requires um.Valid()
    modifies ds`undoStarted, um
    ensures um.Valid() && ds.undoStarted
    ensures um.undoStack == old(um.undoStack) && um.redoStack == old(um.redoStack)
    ensures um.transactionDepth == old(um.transactionDepth) + 1
    ensures old(um.transactionDepth) == 0 ==>
      um.currentRecord == Some(MoveRecord(st.data, st.selectedBulbIds, st.selectedScoreIds))
  {
    um.BeginUndo("Move");
    MoveMarked(st, um, st.selectedBulbIds, st.selectedScoreIds);
    ds.undoStarted := true;
  }

/**
   * A step of a move drag.  The offset is measured from the last point the
   * drag applied, so small steps accumulate until one passes the threshold;
   * that step opens "Move", marks every selected item and moves the
   * selection, as every later step does.
   */
  method MoveDragStep(ds: DragState, st: EditorState, um: UndoManager, w: Point)
    requires um.Valid() && ds.mode == MoveDrag
    modifies ds`undoStarted, ds`lastWorldX, ds`lastWorldY, st`data, st`isDirty, um
    ensures um.Valid()
    ensures PhaseOf(ds, um) == AfterMove(old(PhaseOf(ds, um)), Exceeds(w.x - old(ds.lastWorldX), w.y - old(ds.lastWorldY)))
    ensures um.undoStack == old(um.undoStack) && um.redoStack == old(um.redoStack)
    ensures ds.undoStarted ==> ds.lastWorldX == w.x && ds.lastWorldY == w.y
    ensures ds.undoStarted && (st.selectedBulbIds != [] || st.selectedScoreIds != []) ==>
      st.data == MoveIn(old(st.data), st.selectedBulbIds, st.selectedScoreIds,
                        w.x - old(ds.lastWorldX), w.y - old(ds.lastWorldY))
    ensures !ds.undoStarted ==>
      && st.data == old(st.data) && ds.lastWorldX == old(ds.lastWorldX) && ds.lastWorldY == old(ds.lastWorldY)
      && um.currentRecord == old(um.currentRecord)
    ensures old(ds.undoStarted) ==> um.currentRecord == old(um.currentRecord)
    ensures !old(ds.undoStarted) && ds.undoStarted && old(um.transactionDepth) == 0 ==>
      um.currentRecord == Some(MoveRecord(old(st.data), st.selectedBulbIds, st.selectedScoreIds))
  {
    var dx := w.x - ds.lastWorldX;
    var dy := w.y - ds.lastWorldY;
    ghost var after := AfterMove(PhaseOf(ds, um), Exceeds(dx, dy));
    if !ds.undoStarted && Exceeds(dx, dy) {
      StartMoveUndo(ds, st, um);
    }
    assert PhaseOf(ds, um) == after;
    if ds.undoStarted {
      MoveUncommitted(st, um, dx, dy);
      ds.lastWorldX, ds.lastWorldY := w.x, w.y;
    }
  }

  /** `moveSelected(dx, dy, false)`: the selection moves inside the drag's open transaction. */
  method MoveUncommitted(st: EditorState, um: UndoManager, dx: real, dy: real)
    requires um.Valid()
    modifies st`data, st`isDirty, um
    ensures um.Valid() && um.transactionDepth == old(um.transactionDepth)
    ensures um.undoStack == old(um.undoStack) && um.redoStack == old(um.redoStack)
    ensures um.currentRecord == old(um.currentRecord)
    ensures st.selectedBulbIds != [] || st.selectedScoreIds != [] ==>
      st.data == MoveIn(old(st.data), st.selectedBulbIds, st.selectedScoreIds, dx, dy)
    ensures st.selectedBulbIds == [] && st.selectedScoreIds == [] ==> st.data == old(st.data)
  {
    MoveSelected(st, um, dx, dy, false);
  }



  /**
   * A step of a resize drag: as for a move, the first step past the
   * threshold opens "Resize" and marks the item; from then on each step
   * resizes it by the offset from the last point applied.  `resizeItem` is
   * called without committing, where the as-written and the checked
   * versions agree.
   */
  method ResizeDragStep(ds: DragState, st: EditorState, um: UndoManager, w: Point)
    requires um.Valid() && ds.Valid() && ds.mode == ResizeDrag
    modifies ds`undoStarted, ds`lastWorldX, ds`lastWorldY, st`data, st`isDirty, um
    ensures um.Valid()
    ensures PhaseOf(ds, um) == AfterMove(old(PhaseOf(ds, um)), Exceeds(w.x - old(ds.lastWorldX), w.y - old(ds.lastWorldY)))
    ensures um.undoStack == old(um.undoStack) && um.redoStack == old(um.redoStack)
    ensures var kind, id := ds.resizeType.value, ds.resizeId.value;
      && (ds.undoStarted ==>
            && ds.lastWorldX == w.x && ds.lastWorldY == w.y
            && st.data == (if ItemExists(old(st.data), kind, id)
                           then ResizeIn(old(st.data), kind, id, ds.resizeHandle.value.position,
                                         w.x - old(ds.lastWorldX), w.y - old(ds.lastWorldY))
                           else old(st.data)))
      && (!old(ds.undoStarted) && ds.undoStarted && old(um.transactionDepth) == 0 ==>
            um.currentRecord == Some(ResizeRecord(old(st.data), kind, id)))
    ensures !ds.undoStarted ==>
      && st.data == old(st.data) && ds.lastWorldX == old(ds.lastWorldX) && ds.lastWorldY == old(ds.lastWorldY)
      && um.currentRecord == old(um.currentRecord)
    ensures old(ds.undoStarted) ==> um.currentRecord == old(um.currentRecord)
  {
    var dx := w.x - ds.lastWorldX;
    var dy := w.y - ds.lastWorldY;
    ghost var after := AfterMove(PhaseOf(ds, um), Exceeds(dx, dy));
    if !ds.undoStarted && Exceeds(dx, dy) {
      StartResizeUndo(ds, st, um);
    }
    assert PhaseOf(ds, um) == after;
    if ds.undoStarted && ds.resizeHandle.Some? {
      ResizeUncommitted(st, um, ds.resizeType.value, ds.resizeId.value, ds.resizeHandle.value.position, dx, dy);
      ds.lastWorldX, ds.lastWorldY := w.x, w.y;
    }
  }

  /** The first resize step past the threshold: "Resize" opens and the item is marked. */
  method StartResizeUndo(ds: DragState, st: EditorState, um: UndoManager)
    requires um.Valid() && ds.Valid() && ds.mode == ResizeDrag
    modifies ds`undoStarted, um
    ensures um.Valid() && ds.undoStarted
    ensures um.undoStack == old(um.undoStack) && um.redoStack == old(um.redoStack)
    ensures um.transactionDepth == old(um.transactionDepth) + 1
    ensures old(um.transactionDepth) == 0 ==>
      um.currentRecord == Some(ResizeRecord(st.data, ds.resizeType.value, ds.resizeId.value))
  {
    um.BeginUndo("Resize");
    MarkResizedItem(st, um, ds.resizeType.value, ds.resizeId.value);
    ds.undoStarted := true;
  }

  /** `resizeItem(..., false)`: the item is resized inside the drag's open transaction. */
  method ResizeUncommitted(st: EditorState, um: UndoManager, kind: SelectionType, id: int, position: string, dx: real, dy: real)
    requires um.Valid()
    modifies st`data, st`isDirty, um
    ensures um.Valid() && um.transactionDepth == old(um.transactionDepth)
    ensures um.undoStack == old(um.undoStack) && um.redoStack == old(um.redoStack)
    ensures um.currentRecord == old(um.currentRecord)
    ensures st.data == if ItemExists(old(st.data), kind, id) then ResizeIn(old(st.data), kind, id, position, dx, dy) else old(st.data)
  {
    ResizeItemChecked(st, um, kind, id, position, dx, dy, false);
  }

  /** The copy area's smallest width and height while it is resized. */
  const MIN_COPY_AREA_SIZE: int := 10

  /** The copy area with new bounds; the DMD default location is kept. */
  function WithCopyArea(d: Document, r: AreaRect): (e: Document)
    ensures CopyAreaOf(e) == r
    ensures e == WithDmdArea(d, DmdAreaOf(e))
    ensures e.dmdDefaultLocationX == d.dmdDefaultLocationX && e.dmdDefaultLocationY == d.dmdDefaultLocationY
  {
    d.(dmdCopyAreaX := r.x, dmdCopyAreaY := r.y, dmdCopyAreaWidth := r.w, dmdCopyAreaHeight := r.h)
  }

  /**
   * The copy area moved by the drag's total offset from the press: the
   * corner follows the mouse to the nearest pixel, the size is the
   * current one.
   */
  function MovedCopyArea(current: AreaRect, original: AreaRect, totalDx: real, totalDy: real): (r: AreaRect)
    ensures r.w == current.w && r.h == current.h
    ensures original.x as real + totalDx - 0.5 < r.x as real <= original.x as real + totalDx + 0.5
    ensures original.y as real + totalDy - 0.5 < r.y as real <= original.y as real + totalDy + 0.5
  {
    AreaRect(Round(original.x as real + totalDx), Round(original.y as real + totalDy), current.w, current.h)
  }

  /**
   * The unrounded bounds of a copy-area resize: the dragged edges follow
   * the mouse as for items, but a size below 10 is raised to 10 with the
   * edge opposite the handle held.
   */
  function CopyAreaResizeBox(position: string, original: AreaRect, totalDx: real, totalDy: real): (b: Box)
    ensures b.w >= MIN_COPY_AREA_SIZE as real && b.h >= MIN_COPY_AREA_SIZE as real
    ensures MovesWest(position) ==> b.x + b.w == (original.x + original.w) as real
    ensures !MovesWest(position) ==> b.x == original.x as real
    ensures MovesNorth(position) ==> b.y + b.h == (original.y + original.h) as real
    ensures !MovesNorth(position) ==> b.y == original.y as real
    ensures var h := HandleBox(position, Box(original.x as real, original.y as real, original.w as real,
                                              original.h as real), totalDx, totalDy);
      && (h.w >= MIN_COPY_AREA_SIZE as real ==> b.w == h.w && b.x == h.x)
      && (h.h >= MIN_COPY_AREA_SIZE as real ==> b.h == h.h && b.y == h.y)
  {
    var o := Box(original.x as real, original.y as real, original.w as real, original.h as real);
    var h := HandleBox(position, o, totalDx, totalDy);
    var min := MIN_COPY_AREA_SIZE as real;
    var x := if h.w < min && MovesWest(position) then o.x + o.w - min else h.x;
    var y := if h.h < min && MovesNorth(position) then o.y + o.h - min else h.y;
    Box(x, y, if h.w < min then min else h.w, if h.h < min then min else h.h)
  }

  /**
   * The copy area after a resize drag by the total offset from the press:
   * `CopyAreaResizeBox` rounded field by field.  It is never smaller than
   * 10 by 10, the edges opposite the handle stay where they were up to one
   * pixel of rounding, and a side the handle does not move keeps its size.
   */
  function ResizedCopyArea(position: string, original: AreaRect, totalDx: real, totalDy: real): (r: AreaRect)
    ensures r.w >= MIN_COPY_AREA_SIZE && r.h >= MIN_COPY_AREA_SIZE
    ensures MovesWest(position) ==> original.x + original.w <= r.x + r.w <= original.x + original.w + 1
    ensures !MovesWest(position) ==> r.x == original.x
    ensures MovesNorth(position) ==> original.y + original.h <= r.y + r.h <= original.y + original.h + 1
    ensures !MovesNorth(position) ==> r.y == original.y
    ensures !MovesWest(position) && !MovesEast(position) ==>
      r.w == if original.w < MIN_COPY_AREA_SIZE then MIN_COPY_AREA_SIZE else original.w
    ensures !MovesNorth(position) && !MovesSouth(position) ==>
      r.h == if original.h < MIN_COPY_AREA_SIZE then MIN_COPY_AREA_SIZE else original.h
  {
    var b := CopyAreaResizeBox(position, original, totalDx, totalDy);
    AreaRect(Round(b.x), Round(b.y), Round(b.w), Round(b.h))
  }

  /** The description of a copy-area drag's transaction. */
  function CopyAreaDragDescription(mode: DragMode): string
  {
    if mode == DmdCopyMoveDrag then "Move DMD copy area" else "Resize DMD copy area"
  }

  /** The copy area after a copy-area drag step, from the area as the drag began. */
  function CopyAreaDragged(d: Document, mode: DragMode, handle: Option<DmdCopyAreaHit>, original: AreaRect,
                           totalDx: real, totalDy: real): (e: Document)
    ensures e == WithDmdArea(d, DmdAreaOf(e))
    ensures mode == DmdCopyMoveDrag ==> CopyAreaOf(e) == MovedCopyArea(CopyAreaOf(d), original, totalDx, totalDy)
    ensures mode != DmdCopyMoveDrag && handle.Some? && handle.value.HandleOf? ==>
      CopyAreaOf(e) == ResizedCopyArea(handle.value.position, original, totalDx, totalDy)
  {
    if mode == DmdCopyMoveDrag then WithCopyArea(d, MovedCopyArea(CopyAreaOf(d), original, totalDx, totalDy))
    else if handle.Some? && handle.value.HandleOf? then
      WithCopyArea(d, ResizedCopyArea(handle.value.position, original, totalDx, totalDy))
    else d
  }

  /** The first copy-area step past the threshold opens the transaction and marks the DMD area. */
  method StartCopyAreaUndo(ds: DragState, st: EditorState, um: UndoManager)
    requires um.Valid()
    modifies ds`undoStarted, um
    ensures um.Valid() && ds.undoStarted
    ensures um.undoStack == old(um.undoStack) && um.redoStack == old(um.redoStack)
    ensures um.transactionDepth == old(um.transactionDepth) + 1
    ensures old(um.transactionDepth) == 0 ==>
      um.currentRecord == Some(DmdAreaRecord(CopyAreaDragDescription(ds.mode), st.data))
  {
    um.BeginUndo(CopyAreaDragDescription(ds.mode));
    um.MarkDmdAreaForUndo(st);
    ds.undoStarted := true;
  }

  /**
   * A step of a copy-area drag: the first step past the threshold opens
   * the transaction and marks the DMD area; from then on the area is
   * placed from where it was when the drag began and the total offset.
   */
  method DmdCopyDragStep(ds: DragState, st: EditorState, um: UndoManager, w: Point)
    requires um.Valid() && ds.Valid() && (ds.mode == DmdCopyMoveDrag || ds.mode == DmdCopyResizeDrag)
    modifies ds`undoStarted, ds`lastWorldX, ds`lastWorldY, st`data, um
    ensures um.Valid()
    ensures PhaseOf(ds, um) == AfterMove(old(PhaseOf(ds, um)), Exceeds(w.x - old(ds.lastWorldX), w.y - old(ds.lastWorldY)))
    ensures um.undoStack == old(um.undoStack) && um.redoStack == old(um.redoStack)
    ensures ds.undoStarted ==>
      && ds.lastWorldX == w.x && ds.lastWorldY == w.y
      && st.data == CopyAreaDragged(old(st.data), ds.mode, ds.dmdCopyHandle, ds.dmdCopyOriginal.value,
                                    w.x - ds.startWorldX, w.y - ds.startWorldY)
    ensures !ds.undoStarted ==>
      && st.data == old(st.data) && ds.lastWorldX == old(ds.lastWorldX) && ds.lastWorldY == old(ds.lastWorldY)
      && um.currentRecord == old(um.currentRecord)
    ensures old(ds.undoStarted) ==> um.currentRecord == old(um.currentRecord)
    ensures !old(ds.undoStarted) && ds.undoStarted && old(um.transactionDepth) == 0 ==>
      um.currentRecord == Some(DmdAreaRecord(CopyAreaDragDescription(ds.mode), old(st.data)))
  {
    var dx := w.x - ds.lastWorldX;
    var dy := w.y - ds.lastWorldY;
    if !ds.undoStarted && Exceeds(dx, dy) {
      StartCopyAreaUndo(ds, st, um);
    }
    if ds.undoStarted && ds.dmdCopyOriginal.Some? {
      PlaceCopyArea(ds, st, w);
    }
  }

  /** The placing part of a copy-area drag step, once its transaction is open. */
  method PlaceCopyArea(ds: DragState, st: EditorState, w: Point)
    requires ds.dmdCopyOriginal.Some?
    modifies ds`lastWorldX, ds`lastWorldY, st`data
    ensures ds.lastWorldX == w.x && ds.lastWorldY == w.y
    ensures st.data == CopyAreaDragged(old(st.data), ds.mode, ds.dmdCopyHandle, ds.dmdCopyOriginal.value,
                                       w.x - ds.startWorldX, w.y - ds.startWorldY)
  {
    var original := ds.dmdCopyOriginal.value;
    var totalDx := w.x - ds.startWorldX;
    var totalDy := w.y - ds.startWorldY;
    if ds.mode == DmdCopyMoveDrag {
      st.data := st.data.(dmdCopyAreaX := Round(original.x as real + totalDx),
                          dmdCopyAreaY := Round(original.y as real + totalDy));
    } else if ds.dmdCopyHandle.Some? && ds.dmdCopyHandle.value.HandleOf? {
      var r := ResizedCopyArea(ds.dmdCopyHandle.value.position, original, totalDx, totalDy);
      st.data := st.data.(dmdCopyAreaX := r.x, dmdCopyAreaY := r.y, dmdCopyAreaWidth := r.w, dmdCopyAreaHeight := r.h);
    }
    ds.lastWorldX, ds.lastWorldY := w.x, w.y;
  }

  // ---------------------------------------------------------------------
  // Hovering

  /** The copy-area cursors `onMouseMove` lists for each handle. */
  function CopyHandleCursor(position: string): (c: string)
    ensures position in POSITIONS ==> c == CursorFor(position)
  {
    if position == "n" || position == "s" then "ns-resize"
    else if position == "e" || position == "w" then "ew-resize"
    else if position == "nw" || position == "se" then "nwse-resize"
    else if position == "ne" || position == "sw" then "nesw-resize"
    else "default"
  }

  /**
   * The cursor while no drag is on.  It announces what a left click would
   * do there (`ModeAction`, `ItemAction`): the mouse on a button or an
   * item, a resize cursor on a handle, a crosshair where a click mode places
   * something.
   */
  function HoverCursor(st: EditorState, w: Point): (c: string)
    requires st.zoom > 0.0
    reads st
    ensures st.setGrillHeight || st.setSmallGrillHeight ==>
      (c == "pointer" <==> GrillRemoveHitAt(st, w.x, w.y).Some?) && (c == "pointer" || c == "crosshair")
    ensures !st.setGrillHeight && !st.setSmallGrillHeight && st.copyDmdFromBackglass ==>
      && (ModeAction(st, w) == DmdCopyClick(Some(CameraHit)) ==> c == "pointer")
      && (ModeAction(st, w) == DmdCopyClick(Some(MoveHit)) ==> c == "move")
      && (ModeAction(st, w) == DmdCopyClick(None) ==> c == "default")
      && (ModeAction(st, w).copyHit.Some? && ModeAction(st, w).copyHit.value.HandleOf? ==>
            c == CursorFor(ModeAction(st, w).copyHit.value.position))
    ensures !st.setGrillHeight && !st.setSmallGrillHeight && !st.copyDmdFromBackglass && st.setDmdDefaultLocation ==>
      (c == "pointer" <==> DmdDefaultLocationRemoveHit(st, w.x, w.y)) && (c == "pointer" || c == "crosshair")
    ensures !InClickMode(st) ==>
      && (ItemAction(st, w).StartResize? ==> c == ItemAction(st, w).handleHit.handle.cursor)
      && (ItemAction(st, w).StartMove? ==> c == "pointer")
      && (ItemAction(st, w) == ClearClick ==> c == "default")
  {
    if st.setGrillHeight || st.setSmallGrillHeight then
      if GrillRemoveHitAt(st, w.x, w.y).Some? then "pointer" else "crosshair"
    else if st.copyDmdFromBackglass then
      match DmdCopyAreaHitAt(st.data, st.copyDmdFromBackglass, st.activeTab, st.zoom, w.x, w.y)
      case Some(CameraHit) => "pointer"
      case Some(MoveHit) => "move"
      case Some(HandleOf(position)) => CopyHandleCursor(position)
      case None => "default"
    else if st.setDmdDefaultLocation then
      if DmdDefaultLocationRemoveHit(st, w.x, w.y) then "pointer" else "crosshair"
    else
      match HandleHitAt(st, w.x, w.y)
      case Some(h) => h.handle.cursor
      case None => if HitAt(st.data, st.showIlluminationFrames, st.showScoreFrames, w.x, w.y).Some? then "pointer" else "default"
  }

  /**
   * The hover part of `onMouseMove`: the grill-height mode follows the
   * mouse's height and the DMD-location mode its position, and the cursor
   * becomes `HoverCursor`.
   */
  method Hover(st: EditorState, cv: Canvas, w: Point)
    requires st.zoom > 0.0
    modifies st`mouseWorldX, st`mouseWorldY, cv
    ensures cv.cursor == old(HoverCursor(st, w))
    ensures st.setGrillHeight || st.setSmallGrillHeight ==>
      st.mouseWorldY == Some(w.y) && st.mouseWorldX == old(st.mouseWorldX)
    ensures !st.setGrillHeight && !st.setSmallGrillHeight && !st.copyDmdFromBackglass && st.setDmdDefaultLocation ==>
      st.mouseWorldX == Some(w.x) && st.mouseWorldY == Some(w.y)
    ensures !InClickMode(st) || (!st.setGrillHeight && !st.setSmallGrillHeight && st.copyDmdFromBackglass) ==>
      st.mouseWorldX == old(st.mouseWorldX) && st.mouseWorldY == old(st.mouseWorldY)
  {
    ghost var expected := HoverCursor(st, w);
    if st.setGrillHeight || st.setSmallGrillHeight {
      st.mouseWorldY := Some(w.y);
      assert GrillRemoveHitAt(st, w.x, w.y) == old(GrillRemoveHitAt(st, w.x, w.y));
      var grillHit := GrillRemoveHitAt(st, w.x, w.y);
      cv.cursor := if grillHit.Some? then "pointer" else "crosshair";
      return;
    }
    if st.copyDmdFromBackglass {
      var dmdHit := HitTestDmdCopyArea(st, w.x, w.y);
      cv.cursor := match dmdHit
        case Some(CameraHit) => "pointer"
        case Some(MoveHit) => "move"
        case Some(HandleOf(position)) => CopyHandleCursor(position)
        case None => "default";
      return;
    }
    if st.setDmdDefaultLocation {
      st.mouseWorldX := Some(w.x);
      st.mouseWorldY := Some(w.y);
      assert DmdDefaultLocationRemoveHit(st, w.x, w.y) == old(DmdDefaultLocationRemoveHit(st, w.x, w.y));
      var removeHit := DmdDefaultLocationRemoveHit(st, w.x, w.y);
      cv.cursor := if removeHit then "pointer" else "crosshair";
      return;
    }
    var resizeHit := HitTestResizeHandleAtPoint(st, w.x, w.y);
    if resizeHit.Some? {
      cv.cursor := resizeHit.value.handle.cursor;
    } else {
      var hit := HitTestAtPoint(st, w.x, w.y);
      cv.cursor := if hit.Some? then "pointer" else "default";
    }
  }

  /**
   * `onMouseMove`: a pan follows the mouse, a recording drag takes its
   * step, and without a drag the mouse is hovering.  The coordinate
   * display is not modelled.
   */
  method MouseMove(ds: DragState, st: EditorState, um: UndoManager, cv: Canvas, v: Viewport, e: MouseEvent)
    requires ValidViewport(v) && st.zoom > 0.0 && um.Valid() && ds.Valid()
    modifies ds`undoStarted, ds`lastWorldX, ds`lastWorldY, st`data, st`isDirty, st`panX, st`panY,
      st`mouseWorldX, st`mouseWorldY, um, cv
    ensures um.Valid() && ds.Valid()
    ensures var w := old(WorldAt(st, v, e));
      PhaseOf(ds, um) == AfterMove(old(PhaseOf(ds, um)), Exceeds(w.x - old(ds.lastWorldX), w.y - old(ds.lastWorldY)))
    ensures ds.mode == PanDrag ==> st.panX == e.clientX - st.panStartX && st.panY == e.clientY - st.panStartY
    ensures ds.mode == NoDrag ==> cv.cursor == old(HoverCursor(st, WorldAt(st, v, e)))
    ensures !Recording(ds.mode) ==>
      && st.data == old(st.data) && st.isDirty == old(st.isDirty) && um.currentRecord == old(um.currentRecord)
    ensures um.undoStack == old(um.undoStack) && um.redoStack == old(um.redoStack)
    ensures Recording(ds.mode) && ds.undoStarted ==>
      DragStepped(ds, st.selectedBulbIds, st.selectedScoreIds, old(st.data), st.data,
                  old(ds.lastWorldX), old(ds.lastWorldY), old(WorldAt(st, v, e)))
    ensures Recording(ds.mode) && !ds.undoStarted ==> st.data == old(st.data) && um.currentRecord == old(um.currentRecord)
  {
    var w := ScreenToWorld(v, st.zoom, st.panX, st.panY, e.clientX, e.clientY);
    assert w == WorldAt(st, v, e);
    ghost var after := AfterMove(PhaseOf(ds, um), Exceeds(w.x - ds.lastWorldX, w.y - ds.lastWorldY));
    if ds.mode == PanDrag {
      st.panX := e.clientX - st.panStartX;
      st.panY := e.clientY - st.panStartY;
      assert PhaseOf(ds, um) == after;
      return;
    }
    if Recording(ds.mode) {
      RecordingDragStep(ds, st, um, w);
      return;
    }
    if ds.mode == NoDrag {
      Hover(st, cv, w);
    }
    assert PhaseOf(ds, um) == after;
  }

  /**
   * The document `d1` a started step of a recording drag makes of `d0`, the
   * mouse at `w` and the last applied point at (`lastX`, `lastY`): a move
   * drag moves the selection, a resize drag resizes its item when it
   * exists, and a copy-area drag places the area from its original.
   */
  predicate DragStepped(ds: DragState, bulbIds: seq<int>, scoreIds: seq<int>, d0: Document, d1: Document,
                        lastX: real, lastY: real, w: Point)
    reads ds
  {
    && (ds.mode == MoveDrag && (bulbIds != [] || scoreIds != []) ==>
          d1 == MoveIn(d0, bulbIds, scoreIds, w.x - lastX, w.y - lastY))
    && (ds.mode == ResizeDrag && ds.resizeType.Some? && ds.resizeId.Some? && ds.resizeHandle.Some? ==>
          var kind, id := ds.resizeType.value, ds.resizeId.value;
          d1 == (if ItemExists(d0, kind, id)
                 then ResizeIn(d0, kind, id, ds.resizeHandle.value.position, w.x - lastX, w.y - lastY)
                 else d0))
    && ((ds.mode == DmdCopyMoveDrag || ds.mode == DmdCopyResizeDrag) && ds.dmdCopyOriginal.Some? ==>
          d1 == CopyAreaDragged(d0, ds.mode, ds.dmdCopyHandle, ds.dmdCopyOriginal.value,
                                w.x - ds.startWorldX, w.y - ds.startWorldY))
  }

  /** The drag modes that record an undo step, each to its own step. */
  method RecordingDragStep(ds: DragState, st: EditorState, um: UndoManager, w: Point)
    requires um.Valid() && ds.Valid() && Recording(ds.mode)
    modifies ds`undoStarted, ds`lastWorldX, ds`lastWorldY, st`data, st`isDirty, um
    ensures um.Valid() && ds.Valid()
    ensures PhaseOf(ds, um) == AfterMove(old(PhaseOf(ds, um)), Exceeds(w.x - old(ds.lastWorldX), w.y - old(ds.lastWorldY)))
    ensures um.undoStack == old(um.undoStack) && um.redoStack == old(um.redoStack)
    ensures ds.undoStarted ==> ds.lastWorldX == w.x && ds.lastWorldY == w.y
    ensures !ds.undoStarted ==>
      && st.data == old(st.data) && ds.lastWorldX == old(ds.lastWorldX) && ds.lastWorldY == old(ds.lastWorldY)
      && um.currentRecord == old(um.currentRecord)
    ensures ds.undoStarted ==>
      DragStepped(ds, st.selectedBulbIds, st.selectedScoreIds, old(st.data), st.data, old(ds.lastWorldX), old(ds.lastWorldY), w)
  {
    if ds.mode == MoveDrag {
      MoveDragStep(ds, st, um, w);
      assert ds.undoStarted ==> DragStepped(ds, st.selectedBulbIds, st.selectedScoreIds, old(st.data), st.data, old(ds.lastWorldX), old(ds.lastWorldY), w);
    } else if ds.mode == ResizeDrag {
      ResizeDragStep(ds, st, um, w);
      assert ds.undoStarted ==> DragStepped(ds, st.selectedBulbIds, st.selectedScoreIds, old(st.data), st.data, old(ds.lastWorldX), old(ds.lastWorldY), w);
    } else {
      DmdCopyDragStep(ds, st, um, w);
      assert ds.undoStarted ==> DragStepped(ds, st.selectedBulbIds, st.selectedScoreIds, old(st.data), st.data, old(ds.lastWorldX), old(ds.lastWorldY), w);
    }
  }

  // ---------------------------------------------------------------------
  // The wheel

  /** A wheel event: the mouse in client coordinates and the vertical scroll. */
  datatype WheelEvent = WheelEvent(clientX: real, clientY: real, deltaY: real)

  /** Scrolling down zooms out by 10%, anything else zooms in by 10%. */
  function WheelFactor(deltaY: real): (f: real)
    ensures deltaY > 0.0 ==> f < 1.0
    ensures deltaY <= 0.0 ==> f > 1.0
  {
    if deltaY > 0.0 then 0.9 else 1.1
  }

  /** `onWheel`: zoom by `WheelFactor` about the mouse, which stays over the same world point. */
  method Wheel(st: EditorState, v: Viewport, e: WheelEvent)
    requires st.zoom > 0.0
    modifies st`zoom, st`panX, st`panY
    ensures st.zoom == ClampZoom(old(st.zoom) * WheelFactor(e.deltaY))
    ensures ValidViewport(v) && v.canvasWidth == v.rectWidth && v.canvasHeight == v.rectHeight ==>
      ScreenToWorld(v, st.zoom, st.panX, st.panY, e.clientX, e.clientY)
        == ScreenToWorld(v, old(st.zoom), old(st.panX), old(st.panY), e.clientX, e.clientY)
  {
    ZoomAtPoint(st, v, WheelFactor(e.deltaY), e.clientX, e.clientY);
  }

  // ---------------------------------------------------------------------
  // The keyboard

  /** A key press: the key, the modifiers, and whether it was typed into a text field. */
  datatype KeyEvent = KeyEvent(key: string, ctrlKey: bool, metaKey: bool, shiftKey: bool, inTextField: bool)

  /** What `onKeyDown` does with a key. */
  datatype KeyAction =
    | KeyIgnored
    | ExitGrillMode
    | ExitCopyMode
    | ExitLocationMode
    | DeleteItems
    | UndoKey
    | RedoKey
    | SelectEverything
    | Nudge(dx: real, dy: real)
    | NoKeyAction

  predicate IsArrow(key: string)
  {
    key == "ArrowLeft" || key == "ArrowRight" || key == "ArrowUp" || key == "ArrowDown"
  }

  /** Escape leaves the first click mode that is on: the grill heights, the copy area, the DMD location. */
  function EscapeAction(st: EditorState): (a: KeyAction)
    reads st
    ensures a == NoKeyAction <==> !InClickMode(st)
  {
    if st.setGrillHeight || st.setSmallGrillHeight then ExitGrillMode
    else if st.copyDmdFromBackglass then ExitCopyMode
    else if st.setDmdDefaultLocation then ExitLocationMode
    else NoKeyAction
  }

  /** The arrow keys nudge the selection one unit, or ten with shift, in their direction. */
  function ArrowNudge(key: string, shift: bool): (a: KeyAction)
    requires IsArrow(key)
    ensures a.Nudge?
    ensures (a.dy == 0.0 <==> key == "ArrowLeft" || key == "ArrowRight")
    ensures (a.dx < 0.0 || a.dy < 0.0 <==> key == "ArrowLeft" || key == "ArrowUp")
    ensures Abs(a.dx) + Abs(a.dy) == if shift then 10.0 else 1.0
  {
    var step := if shift then 10.0 else 1.0;
    if key == "ArrowLeft" then Nudge(-step, 0.0)
    else if key == "ArrowRight" then Nudge(step, 0.0)
    else if key == "ArrowUp" then Nudge(0.0, -step)
    else Nudge(0.0, step)
  }

  /**
   * What `onKeyDown` does, in the order it tries: keys typed into a text
   * field are left alone; Escape leaves a click mode; Delete and Backspace
   * delete a non-empty selection; Ctrl or Cmd with z undoes (redoes with
   * shift), with y redoes, with a selects everything; the arrows nudge.
   */
  function KeyActionOf(st: EditorState, e: KeyEvent): (a: KeyAction)
    reads st
    ensures a == KeyIgnored <==> e.inTextField
    ensures a == ExitGrillMode <==> !e.inTextField && e.key == "Escape" && (st.setGrillHeight || st.setSmallGrillHeight)
    ensures a == ExitCopyMode <==>
      !e.inTextField && e.key == "Escape" && !st.setGrillHeight && !st.setSmallGrillHeight && st.copyDmdFromBackglass
    ensures a == ExitLocationMode <==>
      && !e.inTextField && e.key == "Escape" && !st.setGrillHeight && !st.setSmallGrillHeight
      && !st.copyDmdFromBackglass && st.setDmdDefaultLocation
    ensures a == DeleteItems <==>
      !e.inTextField && (e.key == "Delete" || e.key == "Backspace") && (st.selectedBulbIds != [] || st.selectedScoreIds != [])
    ensures a == UndoKey <==> !e.inTextField && (e.ctrlKey || e.metaKey) && e.key == "z" && !e.shiftKey
    ensures a == RedoKey <==> !e.inTextField && (e.ctrlKey || e.metaKey) && (e.key == "y" || (e.key == "z" && e.shiftKey))
    ensures a == SelectEverything <==> !e.inTextField && (e.ctrlKey || e.metaKey) && e.key == "a"
    ensures a.Nudge? <==> !e.inTextField && IsArrow(e.key)
    ensures a.Nudge? ==> a == ArrowNudge(e.key, e.shiftKey)
  {
    if e.inTextField then KeyIgnored
    else if e.key == "Escape" && InClickMode(st) then EscapeAction(st)
    else if e.key == "Delete" || e.key == "Backspace" then
      if st.selectedBulbIds != [] || st.selectedScoreIds != [] then DeleteItems else NoKeyAction
    else if (e.ctrlKey || e.metaKey) && e.key == "z" then (if e.shiftKey then RedoKey else UndoKey)
    else if (e.ctrlKey || e.metaKey) && e.key == "y" then RedoKey
    else if (e.ctrlKey || e.metaKey) && e.key == "a" then SelectEverything
    else if IsArrow(e.key) then ArrowNudge(e.key, e.shiftKey)
    else NoKeyAction
  }

  /**
   * Ctrl+A: every bulb and score joins the selection, as `selectAll` does,
   * but the primary becomes the document's first bulb, else its first
   * score, and stays as it was in an empty document.
   */
  function KeySelectAllOf(s: Sel, d: Document): (r: Sel)
    ensures forall k, x :: IsIn(r, k, x) <==> IsIn(SelectAllOf(s, d), k, x)
    ensures Distinct(s) ==> Distinct(r)
    ensures Consistent(s) ==> Consistent(r)
    ensures d.illumination != [] ==> r.primary == Some(PrimarySelection(BulbSelection, d.illumination[0].id))
    ensures d.illumination == [] && d.scores != [] ==> r.primary == Some(PrimarySelection(ScoreSelection, d.scores[0].id))
    ensures d.illumination == [] && d.scores == [] ==> r == s
  {
    var bulbs := AddAll(s.bulbs, Ids(d.illumination, BulbKey));
    var scores := AddAll(s.scores, Ids(d.scores, ScoreKey));
    assert d.illumination != [] ==> d.illumination[0].id in Ids(d.illumination, BulbKey);
    assert d.scores != [] ==> d.scores[0].id in Ids(d.scores, ScoreKey);
    var primary :=
      if d.illumination != [] then Some(PrimarySelection(BulbSelection, d.illumination[0].id))
      else if d.scores != [] then Some(PrimarySelection(ScoreSelection, d.scores[0].id))
      else s.primary;
    Sel(bulbs, scores, primary)
  }

  /** The Ctrl+A branch of `onKeyDown`. */
  method SelectAllByKey(st: EditorState)
    modifies st`selectedBulbIds, st`selectedScoreIds, st`primarySelection
    ensures SelectionOf(st) == KeySelectAllOf(old(SelectionOf(st)), st.data)
  {
    st.selectedBulbIds := AddEach(st.selectedBulbIds, Ids(st.data.illumination, BulbKey));
    st.selectedScoreIds := AddEach(st.selectedScoreIds, Ids(st.data.scores, ScoreKey));
    if |st.data.illumination| > 0 {
      st.primarySelection := Some(PrimarySelection(BulbSelection, st.data.illumination[0].id));
    } else if |st.data.scores| > 0 {
      st.primarySelection := Some(PrimarySelection(ScoreSelection, st.data.scores[0].id));
    }
  }

  /** The Escape branch of `onKeyDown`: the mode goes off, its mouse position is forgotten, the cursor resets. */
  method LeaveClickMode(st: EditorState, cv: Canvas) returns (a: KeyAction)
    modifies st`setGrillHeight, st`setSmallGrillHeight, st`copyDmdFromBackglass, st`setDmdDefaultLocation,
      st`mouseWorldX, st`mouseWorldY, cv
    ensures a == old(EscapeAction(st))
    ensures a == ExitGrillMode ==>
      && !st.setGrillHeight && !st.setSmallGrillHeight && st.mouseWorldY.None? && cv.cursor == "default"
      && st.copyDmdFromBackglass == old(st.copyDmdFromBackglass)
      && st.setDmdDefaultLocation == old(st.setDmdDefaultLocation) && st.mouseWorldX == old(st.mouseWorldX)
    ensures a == ExitCopyMode ==>
      && !st.copyDmdFromBackglass && cv.cursor == "default"
      && st.setDmdDefaultLocation == old(st.setDmdDefaultLocation)
      && st.mouseWorldX == old(st.mouseWorldX) && st.mouseWorldY == old(st.mouseWorldY)
    ensures a == ExitLocationMode ==>
      !st.setDmdDefaultLocation && st.mouseWorldX.None? && st.mouseWorldY.None? && cv.cursor == "default"
    ensures a != ExitGrillMode ==>
      st.setGrillHeight == old(st.setGrillHeight) && st.setSmallGrillHeight == old(st.setSmallGrillHeight)
    ensures a == NoKeyAction ==>
      && st.copyDmdFromBackglass == old(st.copyDmdFromBackglass)
      && st.setDmdDefaultLocation == old(st.setDmdDefaultLocation)
      && st.mouseWorldX == old(st.mouseWorldX) && st.mouseWorldY == old(st.mouseWorldY) && cv.cursor == old(cv.cursor)
  {
    if st.setGrillHeight || st.setSmallGrillHeight {
      st.setGrillHeight := false;
      st.setSmallGrillHeight := false;
      st.mouseWorldY := None;
      cv.cursor := "default";
      return ExitGrillMode;
    }
    if st.copyDmdFromBackglass {
      st.copyDmdFromBackglass := false;
      cv.cursor := "default";
      return ExitCopyMode;
    }
    if st.setDmdDefaultLocation {
      st.setDmdDefaultLocation := false;
      st.mouseWorldX := None;
      st.mouseWorldY := None;
      cv.cursor := "default";
      return ExitLocationMode;
    }
    return NoKeyAction;
  }

  /** The editing keys of `onKeyDown`: delete, undo, redo, select all and the arrows. */
  method EditByKey(st: EditorState, um: UndoManager, e: KeyEvent) returns (a: KeyAction)
    requires um.Valid() && !e.inTextField && !(e.key == "Escape" && InClickMode(st))
    modifies st`data, st`isDirty, st`selectedBulbIds, st`selectedScoreIds, st`primarySelection, um
    ensures um.Valid() && um.transactionDepth == old(um.transactionDepth)
    ensures a == old(KeyActionOf(st, e))
    ensures a == DeleteItems ==>
      && st.data == DeleteIn(old(st.data), old(st.selectedBulbIds), old(st.selectedScoreIds))
      && SelectionOf(st) == Cleared()
      && (old(um.transactionDepth) == 0 ==>
            var r := DeleteRecord(old(st.data), old(st.selectedBulbIds), old(st.selectedScoreIds));
            um.undoStack == Committed(old(um.undoStack), r, st.data)
            && um.redoStack == CommittedRedo(old(um.redoStack), r) && st.isDirty == CommittedDirty(old(st.isDirty), r))
    ensures a == UndoKey && old(um.undoStack) != [] ==>
      && st.data == ApplyRecordTo(old(st.data), old(um.undoStack[|um.undoStack| - 1]), true)
      && um.undoStack == old(um.undoStack[..|um.undoStack| - 1])
      && um.redoStack == old(um.redoStack) + [old(um.undoStack[|um.undoStack| - 1])]
      && st.isDirty
    ensures a == RedoKey && old(um.redoStack) != [] ==>
      && st.data == ApplyRecordTo(old(st.data), old(um.redoStack[|um.redoStack| - 1]), false)
      && um.redoStack == old(um.redoStack[..|um.redoStack| - 1])
      && um.undoStack == old(um.undoStack) + [old(um.redoStack[|um.redoStack| - 1])]
      && st.isDirty
    ensures a == SelectEverything ==>
      SelectionOf(st) == KeySelectAllOf(old(SelectionOf(st)), st.data)
      && st.data == old(st.data) && um.undoStack == old(um.undoStack) && um.redoStack == old(um.redoStack)
      && st.isDirty == old(st.isDirty)
    ensures a.Nudge? && (old(st.selectedBulbIds) != [] || old(st.selectedScoreIds) != []) ==>
      && st.data == MoveIn(old(st.data), st.selectedBulbIds, st.selectedScoreIds, a.dx, a.dy)
      && (old(um.transactionDepth) == 0 ==>
            var r := MoveRecord(old(st.data), st.selectedBulbIds, st.selectedScoreIds);
            um.undoStack == Committed(old(um.undoStack), r, st.data)
            && um.redoStack == CommittedRedo(old(um.redoStack), r) && st.isDirty == CommittedDirty(old(st.isDirty), r))
    ensures (a == DeleteItems || a.Nudge?) && old(um.transactionDepth) > 0 ==>
      um.undoStack == old(um.undoStack) && um.redoStack == old(um.redoStack) && st.isDirty == old(st.isDirty)
    ensures a == DeleteItems && old(um.transactionDepth) > 0 ==>
      um.currentRecord == Some(DeleteMarks(old(um.currentRecord).value, old(st.data),
                                           old(st.selectedBulbIds), old(st.selectedScoreIds)))
    ensures a.Nudge? && (old(st.selectedBulbIds) != [] || old(st.selectedScoreIds) != []) && old(um.transactionDepth) > 0 ==>
      um.currentRecord == Some(MoveMarks(old(um.currentRecord).value, old(st.data), st.selectedBulbIds, st.selectedScoreIds))
    ensures (|| a == NoKeyAction || (a == UndoKey && old(um.undoStack) == []) || (a == RedoKey && old(um.redoStack) == [])
             || (a.Nudge? && old(st.selectedBulbIds) == [] && old(st.selectedScoreIds) == [])) ==>
      && st.data == old(st.data) && um.undoStack == old(um.undoStack) && um.redoStack == old(um.redoStack)
      && st.isDirty == old(st.isDirty)
    ensures !a.DeleteItems? && !a.SelectEverything? ==> SelectionOf(st) == old(SelectionOf(st))
  {
    ghost var expected := KeyActionOf(st, e);
    if e.key == "Delete" || e.key == "Backspace" {
      if |st.selectedBulbIds| > 0 || |st.selectedScoreIds| > 0 {
        DeleteSelected(st, um);
        return DeleteItems;
      }
      return NoKeyAction;
    }
    var ctrlOrCmd := e.ctrlKey || e.metaKey;
    if ctrlOrCmd && e.key == "z" {
      if e.shiftKey {
        var _ := um.Redo(st);
        return RedoKey;
      }
      var _ := um.Undo(st);
      return UndoKey;
    }
    if ctrlOrCmd && e.key == "y" {
      var _ := um.Redo(st);
      return RedoKey;
    }
    if ctrlOrCmd && e.key == "a" {
      SelectAllByKey(st);
      return SelectEverything;
    }
    if IsArrow(e.key) {
      a := ArrowNudge(e.key, e.shiftKey);
      MoveSelected(st, um, a.dx, a.dy, true);
      return;
    }
    return NoKeyAction;
  }

  /**
   * `onKeyDown`.  The menu-state events and the panel refreshes it sends
   * are not modelled; Escape outside every click mode goes on to the other
   * keys, none of which it is.
   */
  method KeyDown(st: EditorState, um: UndoManager, cv: Canvas, e: KeyEvent) returns (a: KeyAction)
    requires um.Valid()
    modifies st`setGrillHeight, st`setSmallGrillHeight, st`copyDmdFromBackglass, st`setDmdDefaultLocation,
      st`mouseWorldX, st`mouseWorldY, st`data, st`isDirty, st`selectedBulbIds, st`selectedScoreIds,
      st`primarySelection, um, cv
    ensures um.Valid() && um.transactionDepth == old(um.transactionDepth)
    ensures a == old(KeyActionOf(st, e))
    ensures a == ExitGrillMode ==> !st.setGrillHeight && !st.setSmallGrillHeight && st.mouseWorldY.None? && cv.cursor == "default"
    ensures a == ExitCopyMode ==> !st.copyDmdFromBackglass && cv.cursor == "default"
    ensures a == ExitLocationMode ==> !st.setDmdDefaultLocation && st.mouseWorldX.None? && st.mouseWorldY.None? && cv.cursor == "default"
    ensures a == KeyIgnored ==>
      && st.data == old(st.data) && SelectionOf(st) == old(SelectionOf(st))
      && um.undoStack == old(um.undoStack) && um.redoStack == old(um.redoStack) && cv.cursor == old(cv.cursor)
    ensures a.ExitGrillMode? || a.ExitCopyMode? || a.ExitLocationMode? ==>
      && st.data == old(st.data) && SelectionOf(st) == old(SelectionOf(st)) && st.isDirty == old(st.isDirty)
      && um.undoStack == old(um.undoStack) && um.redoStack == old(um.redoStack)
    ensures a == DeleteItems ==>
      && st.data == DeleteIn(old(st.data), old(st.selectedBulbIds), old(st.selectedScoreIds))
      && SelectionOf(st) == Cleared()
      && (old(um.transactionDepth) == 0 ==>
            var r := DeleteRecord(old(st.data), old(st.selectedBulbIds), old(st.selectedScoreIds));
            um.undoStack == Committed(old(um.undoStack), r, st.data)
            && um.redoStack == CommittedRedo(old(um.redoStack), r) && st.isDirty == CommittedDirty(old(st.isDirty), r))
    ensures a == UndoKey && old(um.undoStack) != [] ==>
      && st.data == ApplyRecordTo(old(st.data), old(um.undoStack[|um.undoStack| - 1]), true)
      && um.undoStack == old(um.undoStack[..|um.undoStack| - 1])
      && um.redoStack == old(um.redoStack) + [old(um.undoStack[|um.undoStack| - 1])]
      && st.isDirty
    ensures a == RedoKey && old(um.redoStack) != [] ==>
      && st.data == ApplyRecordTo(old(st.data), old(um.redoStack[|um.redoStack| - 1]), false)
      && um.redoStack == old(um.redoStack[..|um.redoStack| - 1])
      && um.undoStack == old(um.undoStack) + [old(um.redoStack[|um.redoStack| - 1])]
      && st.isDirty
    ensures a == SelectEverything ==>
      SelectionOf(st) == KeySelectAllOf(old(SelectionOf(st)), st.data)
      && st.data == old(st.data) && um.undoStack == old(um.undoStack) && um.redoStack == old(um.redoStack)
      && st.isDirty == old(st.isDirty)
    ensures a.Nudge? && (old(st.selectedBulbIds) != [] || old(st.selectedScoreIds) != []) ==>
      && st.data == MoveIn(old(st.data), st.selectedBulbIds, st.selectedScoreIds, a.dx, a.dy)
      && (old(um.transactionDepth) == 0 ==>
            var r := MoveRecord(old(st.data), st.selectedBulbIds, st.selectedScoreIds);
            um.undoStack == Committed(old(um.undoStack), r, st.data)
            && um.redoStack == CommittedRedo(old(um.redoStack), r) && st.isDirty == CommittedDirty(old(st.isDirty), r))
    ensures (a == DeleteItems || a.Nudge?) && old(um.transactionDepth) > 0 ==>
      um.undoStack == old(um.undoStack) && um.redoStack == old(um.redoStack) && st.isDirty == old(st.isDirty)
    ensures a == DeleteItems && old(um.transactionDepth) > 0 ==>
      um.currentRecord == Some(DeleteMarks(old(um.currentRecord).value, old(st.data),
                                           old(st.selectedBulbIds), old(st.selectedScoreIds)))
    ensures a.Nudge? && (old(st.selectedBulbIds) != [] || old(st.selectedScoreIds) != []) && old(um.transactionDepth) > 0 ==>
      um.currentRecord == Some(MoveMarks(old(um.currentRecord).value, old(st.data), st.selectedBulbIds, st.selectedScoreIds))
    ensures (|| a == NoKeyAction || (a == UndoKey && old(um.undoStack) == []) || (a == RedoKey && old(um.redoStack) == [])
             || (a.Nudge? && old(st.selectedBulbIds) == [] && old(st.selectedScoreIds) == [])) ==>
      && st.data == old(st.data) && um.undoStack == old(um.undoStack) && um.redoStack == old(um.redoStack)
      && st.isDirty == old(st.isDirty)
    ensures !a.DeleteItems? && !a.SelectEverything? ==> SelectionOf(st) == old(SelectionOf(st))
  {
    if e.inTextField {
      return KeyIgnored;
    }
    if e.key == "Escape" && InClickMode(st) {
      a := LeaveClickMode(st, cv);
      return;
    }
    a := EditByKey(st, um, e);
  }
}
