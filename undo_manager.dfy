/**
 * The undo/redo transaction manager.  `BeginUndo`/`EndUndo` nest; only the
 * outermost pair opens and commits a record.  Entities are marked before
 * they change (their `before` snapshot), the `after` snapshots are taken
 * at commit, and undo/redo apply one side of a record to the document.
 */
module Undo {
  import opened Wrappers
  import opened Data
  import opened UndoRecords
  import opened State

  const MAX_UNDO_STACK := 100

  // ---------------------------------------------------------------------
  // Specification functions

  /** Pushing a committed record: the oldest record is dropped past the cap. */
  function PushCapped(stack: seq<UndoRecord>, r: UndoRecord): (s: seq<UndoRecord>)
    ensures |stack| <= MAX_UNDO_STACK ==> |s| <= MAX_UNDO_STACK
    ensures |stack| < MAX_UNDO_STACK ==> s == stack + [r]
    ensures |stack| >= MAX_UNDO_STACK ==> s == stack[1..] + [r]
  {
    if |stack| + 1 > MAX_UNDO_STACK then (stack + [r])[1..] else stack + [r]
  }

  /** The save point after a push: it follows the records when the oldest is dropped. */
  function SavePointAfterPush(savePoint: int, stackLength: nat): int
  {
    if stackLength + 1 > MAX_UNDO_STACK && savePoint > 0 then savePoint - 1 else savePoint
  }

  function DmdAreaOf(d: Document): DmdArea
  {
    DmdArea(d.dmdDefaultLocationX, d.dmdDefaultLocationY, d.dmdCopyAreaX, d.dmdCopyAreaY,
      d.dmdCopyAreaWidth, d.dmdCopyAreaHeight)
  }

  function WithDmdArea(d: Document, a: DmdArea): (r: Document)
    ensures DmdAreaOf(r) == a
  {
    d.(dmdDefaultLocationX := a.dmdDefaultLocationX, dmdDefaultLocationY := a.dmdDefaultLocationY,
       dmdCopyAreaX := a.dmdCopyAreaX, dmdCopyAreaY := a.dmdCopyAreaY,
       dmdCopyAreaWidth := a.dmdCopyAreaWidth, dmdCopyAreaHeight := a.dmdCopyAreaHeight)
  }

  function GrillHeightsOf(d: Document): GrillHeights
  {
    GrillHeights(d.grillHeight, d.smallGrillHeight)
  }

  /** `finalizeSnapshots`: every `after` is read from the document at commit. */
  function FinalizeRecord(r: UndoRecord, d: Document): (f: UndoRecord)
    ensures f.description == r.description
    ensures f.imagesBefore == r.imagesBefore && f.grillHeightsBefore == r.grillHeightsBefore
    ensures f.dmdAreaBefore == r.dmdAreaBefore
    ensures HasChanges(f) == HasChanges(r)
  {
    r.(bulbSnapshots := Finalized(r.bulbSnapshots, d.illumination, BulbKey),
       scoreSnapshots := Finalized(r.scoreSnapshots, d.scores, ScoreKey),
       animationSnapshots := Finalized(r.animationSnapshots, d.animations, AnimationKey),
       imagesAfter := if r.imagesBefore.Some? then Some(CloneImages(d.images)) else r.imagesAfter,
       grillHeightsAfter := if r.grillHeightsBefore.Some? then Some(GrillHeightsOf(d)) else r.grillHeightsAfter,
       dmdAreaAfter := if r.dmdAreaBefore.Some? then Some(DmdAreaOf(d)) else r.dmdAreaAfter)
  }

  lemma FinalizeRecordWellFormed(r: UndoRecord, d: Document)
    requires WellFormed(r)
    ensures WellFormed(FinalizeRecord(r, d))
  {
    FinalizedWellFormed(r.bulbSnapshots, d.illumination, BulbKey);
    FinalizedWellFormed(r.scoreSnapshots, d.scores, ScoreKey);
    FinalizedWellFormed(r.animationSnapshots, d.animations, AnimationKey);
  }

  /** `applyRecord`: each snapshot map in turn, then the whole-document groups that have both sides. */
  function ApplyRecordTo(d: Document, r: UndoRecord, isUndo: bool): Document
  {
    var d1 := d.(illumination := ApplyEntries(d.illumination, BulbKey, r.bulbSnapshots, isUndo),
                 scores := ApplyEntries(d.scores, ScoreKey, r.scoreSnapshots, isUndo),
                 animations := ApplyEntries(d.animations, AnimationKey, r.animationSnapshots, isUndo));
    var d2 := if r.imagesBefore.Some? && r.imagesAfter.Some?
      then d1.(images := CloneImages(if isUndo then r.imagesBefore.value else r.imagesAfter.value)) else d1;
    var d3 := if r.grillHeightsBefore.Some? && r.grillHeightsAfter.Some?
      then (var g := if isUndo then r.grillHeightsBefore.value else r.grillHeightsAfter.value;
            d2.(grillHeight := g.grillHeight, smallGrillHeight := g.smallGrillHeight))
      else d2;
    if r.dmdAreaBefore.Some? && r.dmdAreaAfter.Some?
    then WithDmdArea(d3, if isUndo then r.dmdAreaBefore.value else r.dmdAreaAfter.value)
    else d3
  }

  /** Keys are unique in each entity list (what `getBulbById` and `applyRecord` rely on). */
  predicate UniqueIds(d: Document)
  {
    UniqueKeys(d.illumination, BulbKey) && UniqueKeys(d.scores, ScoreKey)
    && UniqueKeys(d.animations, AnimationKey)
  }

  /**
   * Two documents with the same content: every id and name finds the same
   * entity (list order aside), and the images, grill heights, DMD area and
   * header fields are equal.
   */
  ghost predicate SameContent(a: Document, b: Document)
  {
    (forall k :: Find(a.illumination, BulbKey, k) == Find(b.illumination, BulbKey, k))
    && (forall k :: Find(a.scores, ScoreKey, k) == Find(b.scores, ScoreKey, k))
    && (forall k :: Find(a.animations, AnimationKey, k) == Find(b.animations, AnimationKey, k))
    && a.(illumination := [], scores := [], animations := []) == b.(illumination := [], scores := [], animations := [])
  }

  /**
   * Redo after undo: a record finalized against `d` and applied backwards,
   * then forwards, gives back the content of `d`.
   */
  lemma UndoThenRedoGivesBackContent(d: Document, r: UndoRecord)
    requires UniqueIds(d) && WellFormed(r)
    ensures UniqueIds(ApplyRecordTo(d, FinalizeRecord(r, d), true))
    ensures SameContent(ApplyRecordTo(ApplyRecordTo(d, FinalizeRecord(r, d), true), FinalizeRecord(r, d), false), d)
  {
    var f := FinalizeRecord(r, d);
    FinalizeRecordWellFormed(r, d);
    UndoThenRedoGivesBackLists(d, f);
    UndoThenRedoGivesBackFields(d, r);
    ApplyEntriesFind(d.illumination, BulbKey, f.bulbSnapshots, true, 0);
    ApplyEntriesFind(d.scores, ScoreKey, f.scoreSnapshots, true, 0);
    ApplyEntriesFind(d.animations, AnimationKey, f.animationSnapshots, true, "");
  }

  /** The fields of `UndoThenRedoGivesBackContent` other than the entity lists. */
  lemma UndoThenRedoGivesBackFields(d: Document, r: UndoRecord)
    ensures var f := FinalizeRecord(r, d);
      var back := ApplyRecordTo(ApplyRecordTo(d, f, true), f, false);
      back.(illumination := [], scores := [], animations := []) == d.(illumination := [], scores := [], animations := [])
  {
  }

  /** The entity lists of `UndoThenRedoGivesBackContent`, one key at a time. */
  lemma UndoThenRedoGivesBackLists(d: Document, f: UndoRecord)
    requires UniqueIds(d) && WellFormed(f)
    requires forall i :: 0 <= i < |f.bulbSnapshots| ==>
      f.bulbSnapshots[i].snapshot.after == Find(d.illumination, BulbKey, f.bulbSnapshots[i].key)
    requires forall i :: 0 <= i < |f.scoreSnapshots| ==>
      f.scoreSnapshots[i].snapshot.after == Find(d.scores, ScoreKey, f.scoreSnapshots[i].key)
    requires forall i :: 0 <= i < |f.animationSnapshots| ==>
      f.animationSnapshots[i].snapshot.after == Find(d.animations, AnimationKey, f.animationSnapshots[i].key)
    ensures var back := ApplyRecordTo(ApplyRecordTo(d, f, true), f, false);
      && (forall k :: Find(back.illumination, BulbKey, k) == Find(d.illumination, BulbKey, k))
      && (forall k :: Find(back.scores, ScoreKey, k) == Find(d.scores, ScoreKey, k))
      && (forall k :: Find(back.animations, AnimationKey, k) == Find(d.animations, AnimationKey, k))
  {
    var back := ApplyRecordTo(ApplyRecordTo(d, f, true), f, false);
    forall k: int
      ensures Find(back.illumination, BulbKey, k) == Find(d.illumination, BulbKey, k)
    {
      UndoThenRedoRestores(d.illumination, BulbKey, f.bulbSnapshots, k);
    }
    forall k: int
      ensures Find(back.scores, ScoreKey, k) == Find(d.scores, ScoreKey, k)
    {
      UndoThenRedoRestores(d.scores, ScoreKey, f.scoreSnapshots, k);
    }
    forall k: string
      ensures Find(back.animations, AnimationKey, k) == Find(d.animations, AnimationKey, k)
    {
      UndoThenRedoRestores(d.animations, AnimationKey, f.animationSnapshots, k);
    }
  }

  /** Every `before` snapshot of `r` was read from `start`. */
  ghost predicate CapturedFrom(r: UndoRecord, start: Document)
  {
    (forall i :: 0 <= i < |r.bulbSnapshots| ==>
      r.bulbSnapshots[i].snapshot.before == Find(start.illumination, BulbKey, r.bulbSnapshots[i].key))
    && (forall i :: 0 <= i < |r.scoreSnapshots| ==>
      r.scoreSnapshots[i].snapshot.before == Find(start.scores, ScoreKey, r.scoreSnapshots[i].key))
    && (forall i :: 0 <= i < |r.animationSnapshots| ==>
      r.animationSnapshots[i].snapshot.before == Find(start.animations, AnimationKey, r.animationSnapshots[i].key))
    && (r.imagesBefore.Some? ==> r.imagesBefore.value == start.images)
    && (r.grillHeightsBefore.Some? ==> r.grillHeightsBefore.value == GrillHeightsOf(start))
    && (r.dmdAreaBefore.Some? ==> r.dmdAreaBefore.value == DmdAreaOf(start))
  }

  /** Between `start` and `now` only what `r` marked has changed. */
  ghost predicate ChangedOnlyMarked(r: UndoRecord, start: Document, now: Document)
  {
    (forall k :: !Has(r.bulbSnapshots, k) ==> Find(now.illumination, BulbKey, k) == Find(start.illumination, BulbKey, k))
    && (forall k :: !Has(r.scoreSnapshots, k) ==> Find(now.scores, ScoreKey, k) == Find(start.scores, ScoreKey, k))
    && (forall k :: !Has(r.animationSnapshots, k) ==>
          Find(now.animations, AnimationKey, k) == Find(start.animations, AnimationKey, k))
    && (r.imagesBefore.None? ==> now.images == start.images)
    && (r.grillHeightsBefore.None? ==> GrillHeightsOf(now) == GrillHeightsOf(start))
    && (r.dmdAreaBefore.None? ==> DmdAreaOf(now) == DmdAreaOf(start))
    && now.(illumination := [], scores := [], animations := [], images := start.images,
            grillHeight := 0, smallGrillHeight := 0, dmdDefaultLocationX := 0, dmdDefaultLocationY := 0,
            dmdCopyAreaX := 0, dmdCopyAreaY := 0, dmdCopyAreaWidth := 0, dmdCopyAreaHeight := 0)
       == start.(illumination := [], scores := [], animations := [],
            grillHeight := 0, smallGrillHeight := 0, dmdDefaultLocationX := 0, dmdDefaultLocationY := 0,
            dmdCopyAreaX := 0, dmdCopyAreaY := 0, dmdCopyAreaWidth := 0, dmdCopyAreaHeight := 0)
  }

  /**
   * Commit then undo: when every snapshot was taken before its entity changed
   * and nothing unmarked changed, undoing the committed record gives back the
   * content the document had when the transaction began.
   */
  lemma UndoGivesBackStart(start: Document, now: Document, r: UndoRecord)
    requires UniqueIds(now) && WellFormed(r)
    requires CapturedFrom(r, start) && ChangedOnlyMarked(r, start, now)
    ensures SameContent(ApplyRecordTo(now, FinalizeRecord(r, now), true), start)
  {
    var f := FinalizeRecord(r, now);
    FinalizeRecordWellFormed(r, now);
    var u := ApplyRecordTo(now, f, true);
    UndoGivesBackLists(start, now, r, f);
    assert u.images == start.images;
    assert GrillHeightsOf(u) == GrillHeightsOf(start);
    assert DmdAreaOf(u) == DmdAreaOf(start);
  }

  /** The entity lists of `UndoGivesBackStart`, one key at a time. */
  lemma UndoGivesBackLists(start: Document, now: Document, r: UndoRecord, f: UndoRecord)
    requires UniqueIds(now) && WellFormed(r) && WellFormed(f)
    requires CapturedFrom(r, start) && ChangedOnlyMarked(r, start, now)
    requires f == FinalizeRecord(r, now)
    ensures var u := ApplyRecordTo(now, f, true);
      && (forall k :: Find(u.illumination, BulbKey, k) == Find(start.illumination, BulbKey, k))
      && (forall k :: Find(u.scores, ScoreKey, k) == Find(start.scores, ScoreKey, k))
      && (forall k :: Find(u.animations, AnimationKey, k) == Find(start.animations, AnimationKey, k))
  {
    UndoGivesBackBulbs(start, now, r, f);
    UndoGivesBackScores(start, now, r, f);
    UndoGivesBackAnimations(start, now, r, f);
  }

  lemma UndoGivesBackBulbs(start: Document, now: Document, r: UndoRecord, f: UndoRecord)
    requires UniqueIds(now) && WellFormed(r) && WellFormed(f)
    requires CapturedFrom(r, start) && ChangedOnlyMarked(r, start, now)
    requires f == FinalizeRecord(r, now)
    ensures forall k :: Find(ApplyRecordTo(now, f, true).illumination, BulbKey, k) == Find(start.illumination, BulbKey, k)
  {
    forall k: int
      ensures Find(ApplyRecordTo(now, f, true).illumination, BulbKey, k) == Find(start.illumination, BulbKey, k)
    {
      UndoRestoresBeginning(start.illumination, now.illumination, BulbKey, f.bulbSnapshots, k);
    }
  }

  lemma UndoGivesBackScores(start: Document, now: Document, r: UndoRecord, f: UndoRecord)
    requires UniqueIds(now) && WellFormed(r) && WellFormed(f)
    requires CapturedFrom(r, start) && ChangedOnlyMarked(r, start, now)
    requires f == FinalizeRecord(r, now)
    ensures forall k :: Find(ApplyRecordTo(now, f, true).scores, ScoreKey, k) == Find(start.scores, ScoreKey, k)
  {
    forall k: int
      ensures Find(ApplyRecordTo(now, f, true).scores, ScoreKey, k) == Find(start.scores, ScoreKey, k)
    {
      UndoRestoresBeginning(start.scores, now.scores, ScoreKey, f.scoreSnapshots, k);
    }
  }

  lemma UndoGivesBackAnimations(start: Document, now: Document, r: UndoRecord, f: UndoRecord)
    requires UniqueIds(now) && WellFormed(r) && WellFormed(f)
    requires CapturedFrom(r, start) && ChangedOnlyMarked(r, start, now)
    requires f == FinalizeRecord(r, now)
    ensures forall k :: Find(ApplyRecordTo(now, f, true).animations, AnimationKey, k) == Find(start.animations, AnimationKey, k)
  {
    forall k: string
      ensures Find(ApplyRecordTo(now, f, true).animations, AnimationKey, k) == Find(start.animations, AnimationKey, k)
    {
      UndoRestoresBeginning(start.animations, now.animations, AnimationKey, f.animationSnapshots, k);
    }
  }

  // ---------------------------------------------------------------------
  // Marking

  /** `markAllBulbsForUndo` and friends: a `before` for every included entity not yet marked. */
  function MarkAll<K(==), T>(es: seq<Entry<K, T>>, items: seq<T>, key: T -> K, pick: T -> bool): (r: seq<Entry<K, T>>)
    requires DistinctKeys(es)
    ensures DistinctKeys(r)
  {
    if items == [] then es
    else
      var init := MarkAll(es, items[..|items| - 1], key, pick);
      var x := items[|items| - 1];
      if pick(x) then MarkForUndo(init, key(x), Some(x)) else init
  }

  /**
   * After marking all included entities: a key already marked keeps its
   * snapshot, an included entity's key now has the entity as `before`, and
   * no other key is marked.
   */
  lemma {:induction false} MarkAllLookup<K, T>(es: seq<Entry<K, T>>, items: seq<T>, key: T -> K, pick: T -> bool, k: K)
    requires DistinctKeys(es) && UniqueKeys(items, key)
    ensures Has(es, k) ==> Lookup(MarkAll(es, items, key, pick), k) == Lookup(es, k)
    ensures !Has(es, k) ==>
      Lookup(MarkAll(es, items, key, pick), k) == MarkedFor(Find(items, key, k), pick)
  {
    if items != [] {
      var init := items[..|items| - 1];
      var x := items[|items| - 1];
      assert UniqueKeys(init, key);
      MarkAllLookup(es, init, key, pick, k);
      var prev := MarkAll(es, init, key, pick);
      MarkForUndoKeepsFirst(prev, key(x), Some(x), k);
      FindUnique(items, key, |items| - 1);
      if key(x) != k {
        FindInit(items, key, k);
      } else {
        assert Find(init, key, k) == None by {
          forall j | 0 <= j < |init|
            ensures key(init[j]) != k
          {
            assert init[j] == items[j];
          }
        }
      }
    }
  }

  /** The snapshot marking gives an entity found by key: none when absent or not picked. */
  function MarkedFor<T>(found: Option<T>, pick: T -> bool): Option<Snapshot<T>>
  {
    if found.Some? && pick(found.value) then Some(Snapshot(found, None)) else None
  }

  lemma FindInit<K, T>(items: seq<T>, key: T -> K, k: K)
    requires |items| > 0 && key(items[|items| - 1]) != k
    ensures Find(items[..|items| - 1], key, k) == Find(items, key, k)
  {
    var init := items[..|items| - 1];
    if init != [] {
      assert items[1..][..|items[1..]| - 1] == init[1..];
      FindInit(items[1..], key, k);
    }
  }

  lemma MarkForUndoWellKeyed<K, T>(es: seq<Entry<K, T>>, key: T -> K, k: K, current: Option<T>)
    requires DistinctKeys(es) && WellKeyed(es, key)
    requires current.Some? ==> key(current.value) == k
    ensures WellKeyed(MarkForUndo(es, k, current), key)
  {
    if !Has(es, k) {
      PutWellKeyed(es, key, k, Snapshot(current, None));
    }
  }

  lemma PutWellKeyed<K, T>(es: seq<Entry<K, T>>, key: T -> K, k: K, s: Snapshot<T>)
    requires DistinctKeys(es) && WellKeyed(es, key)
    requires s.before.Some? ==> key(s.before.value) == k
    requires s.after.Some? ==> key(s.after.value) == k
    ensures WellKeyed(Put(es, k, s), key)
  {
    var r := Put(es, k, s);
    forall i | 0 <= i < |r|
      ensures r[i].snapshot.before.Some? ==> key(r[i].snapshot.before.value) == r[i].key
      ensures r[i].snapshot.after.Some? ==> key(r[i].snapshot.after.value) == r[i].key
    {
      if i >= |es| || r[i] != es[i] {
        assert r[i] == Entry(k, s) by {
          match FindIndex(es, EntryKey, k)
          case None =>
          case Some(j) =>
        }
      }
    }
  }

  lemma MarkAllWellKeyed<K, T>(es: seq<Entry<K, T>>, items: seq<T>, key: T -> K, pick: T -> bool)
    requires DistinctKeys(es) && WellKeyed(es, key)
    ensures WellKeyed(MarkAll(es, items, key, pick), key)
  {
    if items != [] {
      var init := items[..|items| - 1];
      var x := items[|items| - 1];
      MarkAllWellKeyed(es, init, key, pick);
      if pick(x) {
        MarkForUndoWellKeyed(MarkAll(es, init, key, pick), key, key(x), Some(x));
      }
    }
  }

  function IncludeBulb(parent: Option<Parent>): Bulb -> bool
  {
    (b: Bulb) => parent.None? || b.parent == parent.value
  }

  function IncludeScore(parent: Option<Parent>): Score -> bool
  {
    (s: Score) => parent.None? || s.parent == parent.value
  }

  function IncludeAnimation(a: Animation): bool
  {
    true
  }

  // ---------------------------------------------------------------------
  // Loops over snapshot maps

  /** The loop of `applyRecord` over one snapshot map. */
  method ApplySnapshots<K(==), T>(items: seq<T>, key: T -> K, es: seq<Entry<K, T>>, isUndo: bool) returns (r: seq<T>)
    ensures r == ApplyEntries(items, key, es, isUndo)
  {
    r := items;
    var i := 0;
    while i < |es|
      invariant 0 <= i <= |es|
      invariant r == ApplyEntries(items, key, es[..i], isUndo)
    {
      var e := es[i];
      var target := Target(e.snapshot, isUndo);
      var index := FindIndex(r, key, e.key);
      if target.None? {
        if index.Some? {
          r := r[..index.value] + r[index.value + 1..];
        }
      } else {
        if index.Some? {
          r := r[index.value := target.value];
        } else {
          r := r + [target.value];
        }
      }
      assert es[..i + 1][..i] == es[..i];
      i := i + 1;
    }
    assert es[..|es|] == es;
  }

  /** The loop of `finalizeSnapshots` over one snapshot map. */
  method TakeAfterSnapshots<K(==), T>(es: seq<Entry<K, T>>, items: seq<T>, key: T -> K) returns (r: seq<Entry<K, T>>)
    ensures r == Finalized(es, items, key)
  {
    r := es;
    var i := 0;
    while i < |es|
      invariant 0 <= i <= |es| && |r| == |es|
      invariant forall j :: 0 <= j < i ==> r[j] == Finalized(es, items, key)[j]
      invariant forall j :: i <= j < |es| ==> r[j] == es[j]
    {
      var current := Find(items, key, es[i].key);
      r := r[i := Entry(es[i].key, Snapshot(r[i].snapshot.before, current))];
      i := i + 1;
    }
  }

  class UndoManager {
    var undoStack: seq<UndoRecord>
    var redoStack: seq<UndoRecord>
    var currentRecord: Option<UndoRecord>
    var transactionDepth: nat
    var savePointIndex: int

    /**
     * A record is open exactly while a transaction is; the two stacks
     * together hold at most 100 committed, non-empty records.
     */
    ghost predicate Valid()
      reads this
    {
      (transactionDepth == 0 <==> currentRecord.None?)
      && (currentRecord.Some? ==> WellFormed(currentRecord.value))
      && |undoStack| + |redoStack| <= MAX_UNDO_STACK
      && 0 <= savePointIndex
      && (forall i :: 0 <= i < |undoStack| ==> WellFormed(undoStack[i]) && HasChanges(undoStack[i]))
      && (forall i :: 0 <= i < |redoStack| ==> WellFormed(redoStack[i]) && HasChanges(redoStack[i]))
    }

    constructor()
      ensures Valid()
      ensures undoStack == [] && redoStack == [] && currentRecord.None?
      ensures transactionDepth == 0 && savePointIndex == 0
    {
      undoStack := [];
      redoStack := [];
      currentRecord := None;
      transactionDepth := 0;
      savePointIndex := 0;
    }

    /** Only the outermost call opens a record; nested calls only count. */
    method BeginUndo(description: string)
      requires Valid()
      modifies this`currentRecord, this`transactionDepth
      ensures Valid()
      ensures transactionDepth == old(transactionDepth) + 1
      ensures old(transactionDepth) == 0 ==> currentRecord == Some(CreateUndoRecord(description))
      ensures old(transactionDepth) > 0 ==> currentRecord == old(currentRecord)
    {
      if transactionDepth == 0 {
        currentRecord := Some(CreateUndoRecord(description));
      }
      transactionDepth := transactionDepth + 1;
    }

    /**
     * Closes one level.  Closing the outermost level commits the record if
     * it marked anything: its `after` snapshots are taken, it is pushed
     * (dropping the oldest past 100), the redo stack is emptied and the
     * document becomes dirty.  An unmatched call changes nothing.
     */
    method EndUndo(st: EditorState)
      requires Valid()
      modifies this, st`isDirty
      ensures Valid()
      ensures old(transactionDepth) == 0 ==>
        undoStack == old(undoStack) && redoStack == old(redoStack) && currentRecord == old(currentRecord)
        && transactionDepth == 0 && savePointIndex == old(savePointIndex) && st.isDirty == old(st.isDirty)
      ensures old(transactionDepth) > 1 ==>
        transactionDepth == old(transactionDepth) - 1 && currentRecord == old(currentRecord)
        && undoStack == old(undoStack) && redoStack == old(redoStack)
        && savePointIndex == old(savePointIndex) && st.isDirty == old(st.isDirty)
      ensures old(transactionDepth) == 1 ==> transactionDepth == 0 && currentRecord.None?
      ensures old(transactionDepth) == 1 && !HasChanges(old(currentRecord).value) ==>
        undoStack == old(undoStack) && redoStack == old(redoStack)
        && savePointIndex == old(savePointIndex) && st.isDirty == old(st.isDirty)
      ensures old(transactionDepth) == 1 && HasChanges(old(currentRecord).value) ==>
        undoStack == PushCapped(old(undoStack), FinalizeRecord(old(currentRecord).value, st.data))
        && redoStack == []
        && savePointIndex == SavePointAfterPush(old(savePointIndex), |old(undoStack)|)
        && st.isDirty
    {
      if transactionDepth == 0 {
        return;
      }
      transactionDepth := transactionDepth - 1;
      if transactionDepth == 0 && currentRecord.Some? {
        if HasChanges(currentRecord.value) {
          FinalizeRecordWellFormed(currentRecord.value, st.data);
          FinalizeSnapshots(st);
          undoStack := undoStack + [currentRecord.value];
          redoStack := [];
          if |undoStack| > MAX_UNDO_STACK {
            undoStack := undoStack[1..];
            if savePointIndex > 0 {
              savePointIndex := savePointIndex - 1;
            }
          }
          st.MarkDirty();
        }
        currentRecord := None;
      }
    }

    /** Takes the `after` snapshots of the open record from the document. */
    method FinalizeSnapshots(st: EditorState)
      requires currentRecord.Some?
      modifies this`currentRecord
      ensures currentRecord == Some(FinalizeRecord(old(currentRecord).value, st.data))
    {
      var r := currentRecord.value;
      var bulbs := TakeAfterSnapshots(r.bulbSnapshots, st.data.illumination, BulbKey);
      var scores := TakeAfterSnapshots(r.scoreSnapshots, st.data.scores, ScoreKey);
      var animations := TakeAfterSnapshots(r.animationSnapshots, st.data.animations, AnimationKey);
      r := r.(bulbSnapshots := bulbs, scoreSnapshots := scores, animationSnapshots := animations);
      if r.imagesBefore.Some? {
        r := r.(imagesAfter := Some(CloneImages(st.data.images)));
      }
      if r.grillHeightsBefore.Some? {
        r := r.(grillHeightsAfter := Some(GrillHeights(st.data.grillHeight, st.data.smallGrillHeight)));
      }
      if r.dmdAreaBefore.Some? {
        r := r.(dmdAreaAfter := Some(DmdAreaOf(st.data)));
      }
      currentRecord := Some(r);
    }

    /** Drops an open transaction at any depth without committing it. */
    method CancelUndo()
      requires Valid()
      modifies this`currentRecord, this`transactionDepth
      ensures Valid()
      ensures transactionDepth == 0 && currentRecord.None?
    {
      if transactionDepth > 0 {
        transactionDepth := 0;
        currentRecord := None;
      }
    }

    /** Snapshots a bulb before it changes; the first snapshot of an id is kept. */
    method MarkBulbForUndo(st: EditorState, id: int)
      requires Valid()
      modifies this`currentRecord
      ensures Valid()
      ensures old(currentRecord).None? ==> currentRecord.None?
      ensures old(currentRecord).Some? ==> currentRecord == Some(old(currentRecord).value.(
        bulbSnapshots := MarkForUndo(old(currentRecord).value.bulbSnapshots, id, st.GetBulbById(id))))
    {
      if currentRecord.None? {
        return;
      }
      var r := currentRecord.value;
      if Has(r.bulbSnapshots, id) {
        return;
      }
      var bulb := st.GetBulbById(id);
      MarkForUndoWellKeyed(r.bulbSnapshots, BulbKey, id, bulb);
      currentRecord := Some(r.(bulbSnapshots := Put(r.bulbSnapshots, id, Snapshot(bulb, None))));
    }

    /** Marks a bulb as created: undo removes it, whatever was recorded before. */
    method MarkBulbForCreate(id: int)
      requires Valid()
      modifies this`currentRecord
      ensures Valid()
      ensures old(currentRecord).None? ==> currentRecord.None?
      ensures old(currentRecord).Some? ==> currentRecord == Some(old(currentRecord).value.(
        bulbSnapshots := Put(old(currentRecord).value.bulbSnapshots, id, Snapshot(None, None))))
    {
      if currentRecord.None? {
        return;
      }
      var r := currentRecord.value;
      PutWellKeyed(r.bulbSnapshots, BulbKey, id, Snapshot(None, None));
      currentRecord := Some(r.(bulbSnapshots := Put(r.bulbSnapshots, id, Snapshot(None, None))));
    }

    /** Marks an existing bulb for deletion: its current value replaces any earlier snapshot. */
    method MarkBulbForDelete(st: EditorState, id: int)
      requires Valid()
      modifies this`currentRecord
      ensures Valid()
      ensures old(currentRecord).None? || st.GetBulbById(id).None? ==> currentRecord == old(currentRecord)
      ensures old(currentRecord).Some? && st.GetBulbById(id).Some? ==> currentRecord == Some(old(currentRecord).value.(
        bulbSnapshots := Put(old(currentRecord).value.bulbSnapshots, id, Snapshot(st.GetBulbById(id), None))))
    {
      if currentRecord.None? {
        return;
      }
      var r := currentRecord.value;
      var bulb := st.GetBulbById(id);
      if bulb.Some? {
        PutWellKeyed(r.bulbSnapshots, BulbKey, id, Snapshot(Some(CloneBulb(bulb.value)), None));
        currentRecord := Some(r.(bulbSnapshots := Put(r.bulbSnapshots, id, Snapshot(Some(CloneBulb(bulb.value)), None))));
      }
    }

    /** Snapshots a score before it changes; the first snapshot of an id is kept. */
    method MarkScoreForUndo(st: EditorState, id: int)
      requires Valid()
      modifies this`currentRecord
      ensures Valid()
      ensures old(currentRecord).None? ==> currentRecord.None?
      ensures old(currentRecord).Some? ==> currentRecord == Some(old(currentRecord).value.(
        scoreSnapshots := MarkForUndo(old(currentRecord).value.scoreSnapshots, id, st.GetScoreById(id))))
    {
      if currentRecord.None? {
        return;
      }
      var r := currentRecord.value;
      if Has(r.scoreSnapshots, id) {
        return;
      }
      var score := st.GetScoreById(id);
      MarkForUndoWellKeyed(r.scoreSnapshots, ScoreKey, id, score);
      currentRecord := Some(r.(scoreSnapshots := Put(r.scoreSnapshots, id, Snapshot(score, None))));
    }

    /** Marks a score as created: undo removes it. */
    method MarkScoreForCreate(id: int)
      requires Valid()
      modifies this`currentRecord
      ensures Valid()
      ensures old(currentRecord).None? ==> currentRecord.None?
      ensures old(currentRecord).Some? ==> currentRecord == Some(old(currentRecord).value.(
        scoreSnapshots := Put(old(currentRecord).value.scoreSnapshots, id, Snapshot(None, None))))
    {
      if currentRecord.None? {
        return;
      }
      var r := currentRecord.value;
      PutWellKeyed(r.scoreSnapshots, ScoreKey, id, Snapshot(None, None));
      currentRecord := Some(r.(scoreSnapshots := Put(r.scoreSnapshots, id, Snapshot(None, None))));
    }

    /** Marks an existing score for deletion: its current value replaces any earlier snapshot. */
    method MarkScoreForDelete(st: EditorState, id: int)
      requires Valid()
      modifies this`currentRecord
      ensures Valid()
      ensures old(currentRecord).None? || st.GetScoreById(id).None? ==> currentRecord == old(currentRecord)
      ensures old(currentRecord).Some? && st.GetScoreById(id).Some? ==> currentRecord == Some(old(currentRecord).value.(
        scoreSnapshots := Put(old(currentRecord).value.scoreSnapshots, id, Snapshot(st.GetScoreById(id), None))))
    {
      if currentRecord.None? {
        return;
      }
      var r := currentRecord.value;
      var score := st.GetScoreById(id);
      if score.Some? {
        PutWellKeyed(r.scoreSnapshots, ScoreKey, id, Snapshot(Some(CloneScore(score.value)), None));
        currentRecord := Some(r.(scoreSnapshots := Put(r.scoreSnapshots, id, Snapshot(Some(CloneScore(score.value)), None))));
      }
    }

    /** Snapshots the animation of that name (or its absence); the first snapshot is kept. */
    method MarkAnimationForUndo(st: EditorState, name: string)
      requires Valid()
      modifies this`currentRecord
      ensures Valid()
      ensures old(currentRecord).None? ==> currentRecord.None?
      ensures old(currentRecord).Some? ==> currentRecord == Some(old(currentRecord).value.(
        animationSnapshots := MarkForUndo(old(currentRecord).value.animationSnapshots, name,
          Find(st.data.animations, AnimationKey, name))))
    {
      if currentRecord.None? {
        return;
      }
      var r := currentRecord.value;
      if Has(r.animationSnapshots, name) {
        return;
      }
      var animation := Find(st.data.animations, AnimationKey, name);
      MarkForUndoWellKeyed(r.animationSnapshots, AnimationKey, name, animation);
      currentRecord := Some(r.(animationSnapshots := Put(r.animationSnapshots, name, Snapshot(animation, None))));
    }

    /** Snapshots every existing animation not yet marked. */
    method MarkAnimationsForUndo(st: EditorState)
      requires Valid()
      modifies this`currentRecord
      ensures Valid()
      ensures old(currentRecord).None? ==> currentRecord.None?
      ensures old(currentRecord).Some? ==> currentRecord == Some(old(currentRecord).value.(
        animationSnapshots := MarkAll(old(currentRecord).value.animationSnapshots, st.data.animations,
          AnimationKey, IncludeAnimation)))
    {
      if currentRecord.None? {
        return;
      }
      var r := currentRecord.value;
      var items := st.data.animations;
      var es := r.animationSnapshots;
      var i := 0;
      while i < |items|
        invariant 0 <= i <= |items|
        invariant DistinctKeys(es) && WellKeyed(es, AnimationKey)
        invariant es == MarkAll(r.animationSnapshots, items[..i], AnimationKey, IncludeAnimation)
      {
        var animation := items[i];
        assert items[..i + 1][..i] == items[..i];
        MarkForUndoWellKeyed(es, AnimationKey, animation.name, Some(animation));
        if !Has(es, animation.name) {
          es := Put(es, animation.name, Snapshot(Some(CloneAnimation(animation)), None));
        }
        i := i + 1;
      }
      assert items[..|items|] == items;
      currentRecord := Some(r.(animationSnapshots := es));
    }

    /** Snapshots the image collection once per transaction. */
    method MarkImagesForUndo(st: EditorState)
      requires Valid()
      modifies this`currentRecord
      ensures Valid()
      ensures old(currentRecord).None? || old(currentRecord).value.imagesBefore.Some? ==>
        currentRecord == old(currentRecord)
      ensures old(currentRecord).Some? && old(currentRecord).value.imagesBefore.None? ==>
        currentRecord == Some(old(currentRecord).value.(imagesBefore := Some(st.data.images)))
    {
      if currentRecord.None? || currentRecord.value.imagesBefore.Some? {
        return;
      }
      currentRecord := Some(currentRecord.value.(imagesBefore := Some(CloneImages(st.data.images))));
    }

    /** Snapshots every bulb of `parent` (every bulb when absent) not yet marked. */
    method MarkAllBulbsForUndo(st: EditorState, parent: Option<Parent>)
      requires Valid()
      modifies this`currentRecord
      ensures Valid()
      ensures old(currentRecord).None? ==> currentRecord.None?
      ensures old(currentRecord).Some? ==> currentRecord == Some(old(currentRecord).value.(
        bulbSnapshots := MarkAll(old(currentRecord).value.bulbSnapshots, st.data.illumination,
          BulbKey, IncludeBulb(parent))))
    {
      if currentRecord.None? {
        return;
      }
      var r := currentRecord.value;
      var items := st.data.illumination;
      var es := r.bulbSnapshots;
      var i := 0;
      while i < |items|
        invariant 0 <= i <= |items|
        invariant DistinctKeys(es) && WellKeyed(es, BulbKey)
        invariant es == MarkAll(r.bulbSnapshots, items[..i], BulbKey, IncludeBulb(parent))
      {
        var bulb := items[i];
        assert items[..i + 1][..i] == items[..i];
        if parent.None? || bulb.parent == parent.value {
          MarkForUndoWellKeyed(es, BulbKey, bulb.id, Some(bulb));
          if !Has(es, bulb.id) {
            es := Put(es, bulb.id, Snapshot(Some(CloneBulb(bulb)), None));
          }
        }
        i := i + 1;
      }
      assert items[..|items|] == items;
      currentRecord := Some(r.(bulbSnapshots := es));
    }

    /** Snapshots every score of `parent` (every score when absent) not yet marked. */
    method MarkAllScoresForUndo(st: EditorState, parent: Option<Parent>)
      requires Valid()
      modifies this`currentRecord
      ensures Valid()
      ensures old(currentRecord).None? ==> currentRecord.None?
      ensures old(currentRecord).Some? ==> currentRecord == Some(old(currentRecord).value.(
        scoreSnapshots := MarkAll(old(currentRecord).value.scoreSnapshots, st.data.scores,
          ScoreKey, IncludeScore(parent))))
    {
      if currentRecord.None? {
        return;
      }
      var r := currentRecord.value;
      var items := st.data.scores;
      var es := r.scoreSnapshots;
      var i := 0;
      while i < |items|
        invariant 0 <= i <= |items|
        invariant DistinctKeys(es) && WellKeyed(es, ScoreKey)
        invariant es == MarkAll(r.scoreSnapshots, items[..i], ScoreKey, IncludeScore(parent))
      {
        var score := items[i];
        assert items[..i + 1][..i] == items[..i];
        if parent.None? || score.parent == parent.value {
          MarkForUndoWellKeyed(es, ScoreKey, score.id, Some(score));
          if !Has(es, score.id) {
            es := Put(es, score.id, Snapshot(Some(CloneScore(score)), None));
          }
        }
        i := i + 1;
      }
      assert items[..|items|] == items;
      currentRecord := Some(r.(scoreSnapshots := es));
    }

    /** Snapshots both grill heights once per transaction. */
    method MarkGrillHeightsForUndo(st: EditorState)
      requires Valid()
      modifies this`currentRecord
      ensures Valid()
      ensures old(currentRecord).None? || old(currentRecord).value.grillHeightsBefore.Some? ==>
        currentRecord == old(currentRecord)
      ensures old(currentRecord).Some? && old(currentRecord).value.grillHeightsBefore.None? ==>
        currentRecord == Some(old(currentRecord).value.(grillHeightsBefore := Some(GrillHeightsOf(st.data))))
    {
      if currentRecord.None? || currentRecord.value.grillHeightsBefore.Some? {
        return;
      }
      currentRecord := Some(currentRecord.value.(
        grillHeightsBefore := Some(GrillHeights(st.data.grillHeight, st.data.smallGrillHeight))));
    }

    /** Snapshots the six DMD location and copy-area fields once per transaction. */
    method MarkDmdAreaForUndo(st: EditorState)
      requires Valid()
      modifies this`currentRecord
      ensures Valid()
      ensures old(currentRecord).None? || old(currentRecord).value.dmdAreaBefore.Some? ==>
        currentRecord == old(currentRecord)
      ensures old(currentRecord).Some? && old(currentRecord).value.dmdAreaBefore.None? ==>
        currentRecord == Some(old(currentRecord).value.(dmdAreaBefore := Some(DmdAreaOf(st.data))))
    {
      if currentRecord.None? || currentRecord.value.dmdAreaBefore.Some? {
        return;
      }
      currentRecord := Some(currentRecord.value.(dmdAreaBefore := Some(DmdAreaOf(st.data))));
    }

    /** Moves the newest record to the redo stack and restores its `before` side. */
    method Undo(st: EditorState) returns (done: bool)
      requires Valid()
      modifies this`undoStack, this`redoStack, st`data, st`isDirty
      ensures Valid()
      ensures done <==> old(|undoStack|) > 0
      ensures !done ==> (undoStack == old(undoStack) && redoStack == old(redoStack)
        && st.data == old(st.data) && st.isDirty == old(st.isDirty))
      ensures done ==> (undoStack == old(undoStack[..|undoStack| - 1])
        && redoStack == old(redoStack) + [old(undoStack[|undoStack| - 1])]
        && st.data == ApplyRecordTo(old(st.data), old(undoStack[|undoStack| - 1]), true)
        && st.isDirty)
    {
      if |undoStack| == 0 {
        return false;
      }
      var record := undoStack[|undoStack| - 1];
      undoStack := undoStack[..|undoStack| - 1];
      ApplyRecord(st, record, true);
      redoStack := redoStack + [record];
      st.MarkDirty();
      return true;
    }

    /** Moves the newest undone record back to the undo stack and re-applies its `after` side. */
    method Redo(st: EditorState) returns (done: bool)
      requires Valid()
      modifies this`undoStack, this`redoStack, st`data, st`isDirty
      ensures Valid()
      ensures done <==> old(|redoStack|) > 0
      ensures !done ==> (undoStack == old(undoStack) && redoStack == old(redoStack)
        && st.data == old(st.data) && st.isDirty == old(st.isDirty))
      ensures done ==> (redoStack == old(redoStack[..|redoStack| - 1])
        && undoStack == old(undoStack) + [old(redoStack[|redoStack| - 1])]
        && st.data == ApplyRecordTo(old(st.data), old(redoStack[|redoStack| - 1]), false)
        && st.isDirty)
    {
      if |redoStack| == 0 {
        return false;
      }
      var record := redoStack[|redoStack| - 1];
      redoStack := redoStack[..|redoStack| - 1];
      ApplyRecord(st, record, false);
      undoStack := undoStack + [record];
      st.MarkDirty();
      return true;
    }

    /** Applies one side of a record to the document, entity by entity. */
    method ApplyRecord(st: EditorState, record: UndoRecord, isUndo: bool)
      modifies st`data
      ensures st.data == ApplyRecordTo(old(st.data), record, isUndo)
    {
      var bulbs := ApplySnapshots(st.data.illumination, BulbKey, record.bulbSnapshots, isUndo);
      var scores := ApplySnapshots(st.data.scores, ScoreKey, record.scoreSnapshots, isUndo);
      var animations := ApplySnapshots(st.data.animations, AnimationKey, record.animationSnapshots, isUndo);
      st.data := st.data.(illumination := bulbs, scores := scores, animations := animations);
      if record.imagesBefore.Some? && record.imagesAfter.Some? {
        st.data := st.data.(images := CloneImages(if isUndo then record.imagesBefore.value else record.imagesAfter.value));
      }
      if record.grillHeightsBefore.Some? && record.grillHeightsAfter.Some? {
        var target := if isUndo then record.grillHeightsBefore.value else record.grillHeightsAfter.value;
        st.data := st.data.(grillHeight := target.grillHeight, smallGrillHeight := target.smallGrillHeight);
      }
      if record.dmdAreaBefore.Some? && record.dmdAreaAfter.Some? {
        var target := if isUndo then record.dmdAreaBefore.value else record.dmdAreaAfter.value;
        st.data := WithDmdArea(st.data, target);
      }
    }

    function CanUndo(): (b: bool)
      reads this
      ensures b <==> |undoStack| > 0
    {
      |undoStack| > 0
    }

    function CanRedo(): (b: bool)
      reads this
      ensures b <==> |redoStack| > 0
    {
      |redoStack| > 0
    }

    /** The description of the record `Undo` would undo. */
    function GetUndoDescription(): (d: Option<string>)
      reads this
      ensures d.None? <==> undoStack == []
      ensures d.Some? ==> d.value == undoStack[|undoStack| - 1].description
    {
      if |undoStack| == 0 then None else Some(undoStack[|undoStack| - 1].description)
    }

    /** The description of the record `Redo` would redo. */
    function GetRedoDescription(): (d: Option<string>)
      reads this
      ensures d.None? <==> redoStack == []
      ensures d.Some? ==> d.value == redoStack[|redoStack| - 1].description
    {
      if |redoStack| == 0 then None else Some(redoStack[|redoStack| - 1].description)
    }

    /** The descriptions of the undo stack, oldest first. */
    function GetUndoStack(): (ds: seq<string>)
      reads this
      ensures |ds| == |undoStack| && forall i :: 0 <= i < |ds| ==> ds[i] == undoStack[i].description
    {
      seq(|undoStack|, i requires 0 <= i < |undoStack| reads this => undoStack[i].description)
    }

    /** Forgets all history and any open transaction. */
    method Clear()
      modifies this
      ensures Valid()
      ensures undoStack == [] && redoStack == [] && currentRecord.None?
      ensures transactionDepth == 0 && savePointIndex == 0
    {
      undoStack := [];
      redoStack := [];
      currentRecord := None;
      transactionDepth := 0;
      savePointIndex := 0;
    }

    /** Remembers the current undo depth as the saved state. */
    method SetSavePoint()
      requires Valid()
      modifies this`savePointIndex
      ensures Valid()
      ensures savePointIndex == |undoStack|
    {
      savePointIndex := |undoStack|;
    }

    function IsAtSavePoint(): (b: bool)
      reads this
      ensures b <==> |undoStack| == savePointIndex
    {
      |undoStack| == savePointIndex
    }
  }
}
