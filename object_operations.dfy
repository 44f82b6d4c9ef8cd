/**
 * The document operations: create, delete, duplicate, move and resize.
 * Each runs inside one undo transaction, marks what it is about to change,
 * edits the entity lists and updates the selection.  For each, the effect
 * on the document and the record it commits are stated as functions, and
 * a lemma proves that undoing that record gives back the document's content.
 */
module ObjectOperations {
  import opened Wrappers
  import opened Text
  import opened Data
  import opened UndoRecords
  import opened State
  import opened Selection
  import opened Undo
  import opened ListEdits

  const DUPLICATE_OFFSET: real := 20.0
  const MIN_ITEM_SIZE: real := 10.0

  // ---------------------------------------------------------------------
  // New entities

  /** `createBulb`: the given position, or a grid of five per row by the bulb count. */
  function NewBulb(id: int, count: nat, locX: Option<real>, locY: Option<real>): (b: Bulb)
    ensures b.id == id && b.name == "Bulb" + IntToString(id)
    ensures locX.Some? && locY.Some? ==> b.locX == locX.value && b.locY == locY.value
    ensures !(locX.Some? && locY.Some?) ==>
      b.locX == 100.0 + ((count % 5) as real) * 60.0 && b.locY == 100.0 + ((count / 5) as real) * 60.0
    ensures b.(locX := 100.0, locY := 100.0) == DefaultBulb(id, "Bulb" + IntToString(id))
  {
    var b := DefaultBulb(id, "Bulb" + IntToString(id));
    if locX.Some? && locY.Some? then b.(locX := locX.value, locY := locY.value)
    else b.(locX := 100.0 + ((count % 5) as real) * 60.0, locY := 100.0 + ((count / 5) as real) * 60.0)
  }

  /** `createScore`: a seven-digit LED score on the active tab's parent, player number = id. */
  function NewScore(id: int, parent: Parent, count: nat, locX: Option<real>, locY: Option<real>): (s: Score)
    ensures s.id == id && s.parent == parent && s.b2sPlayerNo == id
    ensures s.locX == locX.GetOr(200.0) && s.locY == locY.GetOr(50.0 + (count as real) * 50.0)
    ensures s.width == 200.0 && s.height == 50.0 && s.reelType == "Dream7LED8" && s.digits == 7
    ensures s.reelLitColor.None? && s.reelDarkColor == Some(Color(15, 15, 15, 255))
  {
    Score(id, parent, "Dream7LED8", 7, 5, locX.GetOr(200.0), locY.GetOr(50.0 + (count as real) * 50.0),
      200.0, 50.0, Color(255, 120, 0, 255), None, Some(Color(15, 15, 15, 255)),
      1500, 2000, 10, 0, 0, 1, id, true)
  }

  /** A duplicate: a new id, name + "_copy", offset by 20 in both directions; every other field kept. */
  function BulbCopy(b: Bulb, newId: int): (c: Bulb)
    ensures c.id == newId && c.name == b.name + "_copy"
    ensures c.locX == b.locX + DUPLICATE_OFFSET && c.locY == b.locY + DUPLICATE_OFFSET
    ensures c.(id := b.id, name := b.name, locX := b.locX, locY := b.locY) == b
  {
    b.(id := newId, name := b.name + "_copy", locX := b.locX + DUPLICATE_OFFSET, locY := b.locY + DUPLICATE_OFFSET,
       lightColor := CloneColor(b.lightColor), dodgeColor := CloneOptionalColor(b.dodgeColor))
  }

  /** A duplicate score: a new id, offset by 20 in both directions; every other field kept. */
  function ScoreCopy(s: Score, newId: int): (c: Score)
    ensures c.id == newId
    ensures c.locX == s.locX + DUPLICATE_OFFSET && c.locY == s.locY + DUPLICATE_OFFSET
    ensures c.(id := s.id, locX := s.locX, locY := s.locY) == s
  {
    s.(id := newId, locX := s.locX + DUPLICATE_OFFSET, locY := s.locY + DUPLICATE_OFFSET,
       reelColor := CloneColor(s.reelColor), reelLitColor := CloneOptionalColor(s.reelLitColor),
       reelDarkColor := CloneOptionalColor(s.reelDarkColor))
  }

  function TranslateBulb(dx: real, dy: real): Bulb -> Bulb
  {
    (b: Bulb) => b.(locX := b.locX + dx, locY := b.locY + dy)
  }

  function TranslateScore(dx: real, dy: real): Score -> Score
  {
    (s: Score) => s.(locX := s.locX + dx, locY := s.locY + dy)
  }

  // ---------------------------------------------------------------------
  // Resize handles

  datatype Box = Box(x: real, y: real, w: real, h: real)

  predicate MovesWest(position: string) { position == "nw" || position == "w" || position == "sw" }
  predicate MovesEast(position: string) { position == "ne" || position == "e" || position == "se" }
  predicate MovesNorth(position: string) { position == "nw" || position == "n" || position == "ne" }
  predicate MovesSouth(position: string) { position == "sw" || position == "s" || position == "se" }

  /**
   * The handle table of `resizeItem`, stated by edges: a handle moves the
   * edges it names by the drag and holds the opposite edges; an unknown
   * handle changes nothing.
   */
  function HandleBox(position: string, b: Box, dx: real, dy: real): (r: Box)
    ensures r.x == b.x + (if MovesWest(position) then dx else 0.0)
    ensures r.x + r.w == b.x + b.w + (if MovesEast(position) then dx else 0.0)
    ensures r.y == b.y + (if MovesNorth(position) then dy else 0.0)
    ensures r.y + r.h == b.y + b.h + (if MovesSouth(position) then dy else 0.0)
  {
    match position
    case "nw" => Box(b.x + dx, b.y + dy, b.w - dx, b.h - dy)
    case "n" => Box(b.x, b.y + dy, b.w, b.h - dy)
    case "ne" => Box(b.x, b.y + dy, b.w + dx, b.h - dy)
    case "w" => Box(b.x + dx, b.y, b.w - dx, b.h)
    case "e" => Box(b.x, b.y, b.w + dx, b.h)
    case "sw" => Box(b.x + dx, b.y, b.w - dx, b.h + dy)
    case "s" => Box(b.x, b.y, b.w, b.h + dy)
    case "se" => Box(b.x, b.y, b.w + dx, b.h + dy)
    case _ => b
  }

  /** The minimum size: width and height are raised to 10; the position is kept. */
  function ClampSize(b: Box): (r: Box)
    ensures r.x == b.x && r.y == b.y
    ensures r.w >= MIN_ITEM_SIZE && r.h >= MIN_ITEM_SIZE
    ensures b.w >= MIN_ITEM_SIZE ==> r.w == b.w
    ensures b.h >= MIN_ITEM_SIZE ==> r.h == b.h
    ensures b.w < MIN_ITEM_SIZE ==> r.w == MIN_ITEM_SIZE
    ensures b.h < MIN_ITEM_SIZE ==> r.h == MIN_ITEM_SIZE
  {
    Box(b.x, b.y, if b.w > MIN_ITEM_SIZE then b.w else MIN_ITEM_SIZE, if b.h > MIN_ITEM_SIZE then b.h else MIN_ITEM_SIZE)
  }

  function ResizedBox(position: string, b: Box, dx: real, dy: real): Box
  {
    ClampSize(HandleBox(position, b, dx, dy))
  }

  function BulbBox(b: Bulb): Box { Box(b.locX, b.locY, b.width, b.height) }
  function ScoreBox(s: Score): Box { Box(s.locX, s.locY, s.width, s.height) }

  function ResizeBulb(position: string, dx: real, dy: real): Bulb -> Bulb
  {
    (b: Bulb) => var r := ResizedBox(position, BulbBox(b), dx, dy);
      b.(locX := r.x, locY := r.y, width := r.w, height := r.h)
  }

  function ResizeScore(position: string, dx: real, dy: real): Score -> Score
  {
    (s: Score) => var r := ResizedBox(position, ScoreBox(s), dx, dy);
      s.(locX := r.x, locY := r.y, width := r.w, height := r.h)
  }

  // ---------------------------------------------------------------------
  // Effects on the document and the records committed

  /** `deleteSelected` on the document. */
  function DeleteIn(d: Document, bulbIds: seq<int>, scoreIds: seq<int>): Document
  {
    d.(illumination := Unselected(d.illumination, BulbKey, bulbIds), scores := Unselected(d.scores, ScoreKey, scoreIds))
  }

  /** `moveSelected` on the document. */
  function MoveIn(d: Document, bulbIds: seq<int>, scoreIds: seq<int>, dx: real, dy: real): Document
  {
    d.(illumination := MoveEach(d.illumination, BulbKey, bulbIds, TranslateBulb(dx, dy)),
       scores := MoveEach(d.scores, ScoreKey, scoreIds, TranslateScore(dx, dy)))
  }

  /** `resizeItem` on the document. */
  function ResizeIn(d: Document, kind: SelectionType, id: int, position: string, dx: real, dy: real): Document
  {
    if kind == BulbSelection then d.(illumination := MoveFirst(d.illumination, BulbKey, id, ResizeBulb(position, dx, dy)))
    else d.(scores := MoveFirst(d.scores, ScoreKey, id, ResizeScore(position, dx, dy)))
  }

  function DuplicatedBulbs(d: Document, ids: seq<int>, next: int): Duplication<Bulb>
  {
    DuplicateEach(d.illumination, BulbKey, ids, next, BulbCopy)
  }

  function DuplicatedScores(d: Document, ids: seq<int>, next: int): Duplication<Score>
  {
    DuplicateEach(d.scores, ScoreKey, ids, next, ScoreCopy)
  }

  function DeleteDescription(count: int): string
  {
    if count == 1 then "Delete Item" else "Delete " + IntToString(count) + " Items"
  }

  function CreateBulbRecord(id: int): UndoRecord
  {
    CreateUndoRecord("Add Bulb").(bulbSnapshots := MarkCreates([], [id]))
  }

  function CreateScoreRecord(id: int): UndoRecord
  {
    CreateUndoRecord("Add Score").(scoreSnapshots := MarkCreates([], [id]))
  }

  /** The open record `r` once the listed bulbs and scores of `d` are marked as deleted. */
  function DeleteMarks(r: UndoRecord, d: Document, bulbIds: seq<int>, scoreIds: seq<int>): UndoRecord
    requires DistinctKeys(r.bulbSnapshots) && DistinctKeys(r.scoreSnapshots)
  {
    r.(bulbSnapshots := MarkDeletes(r.bulbSnapshots, d.illumination, BulbKey, bulbIds),
       scoreSnapshots := MarkDeletes(r.scoreSnapshots, d.scores, ScoreKey, scoreIds))
  }

  function DeleteRecord(d: Document, bulbIds: seq<int>, scoreIds: seq<int>): UndoRecord
  {
    DeleteMarks(CreateUndoRecord(DeleteDescription(|bulbIds| + |scoreIds|)), d, bulbIds, scoreIds)
  }

  /** The open record `r` once the copies `newBulbIds` and `newScoreIds` are marked as created. */
  function CreateMarks(r: UndoRecord, newBulbIds: seq<int>, newScoreIds: seq<int>): UndoRecord
    requires DistinctKeys(r.bulbSnapshots) && DistinctKeys(r.scoreSnapshots)
  {
    r.(bulbSnapshots := MarkCreates(r.bulbSnapshots, newBulbIds), scoreSnapshots := MarkCreates(r.scoreSnapshots, newScoreIds))
  }

  function DuplicateRecord(newBulbIds: seq<int>, newScoreIds: seq<int>): UndoRecord
  {
    CreateMarks(CreateUndoRecord("Duplicate"), newBulbIds, newScoreIds)
  }

  /** The open record `r` once the listed bulbs and scores of `d` are marked for undo, a first snapshot kept. */
  function MoveMarks(r: UndoRecord, d: Document, bulbIds: seq<int>, scoreIds: seq<int>): UndoRecord
    requires DistinctKeys(r.bulbSnapshots) && DistinctKeys(r.scoreSnapshots)
  {
    r.(bulbSnapshots := MarkEach(r.bulbSnapshots, d.illumination, BulbKey, bulbIds),
       scoreSnapshots := MarkEach(r.scoreSnapshots, d.scores, ScoreKey, scoreIds))
  }

  function MoveRecord(d: Document, bulbIds: seq<int>, scoreIds: seq<int>): UndoRecord
  {
    MoveMarks(CreateUndoRecord("Move"), d, bulbIds, scoreIds)
  }

  function ResizeRecord(d: Document, kind: SelectionType, id: int): UndoRecord
  {
    if kind == BulbSelection then CreateUndoRecord("Resize").(bulbSnapshots := MarkEach([], d.illumination, BulbKey, [id]))
    else CreateUndoRecord("Resize").(scoreSnapshots := MarkEach([], d.scores, ScoreKey, [id]))
  }

  /** The undo stack after a transaction at depth 0 closes: pushed if it marked anything. */
  function Committed(stack: seq<UndoRecord>, r: UndoRecord, d: Document): seq<UndoRecord>
  {
    if HasChanges(r) then PushCapped(stack, FinalizeRecord(r, d)) else stack
  }

  /** The redo stack after a transaction at depth 0 closes: emptied exactly when the record is pushed. */
  function CommittedRedo(redo: seq<UndoRecord>, r: UndoRecord): seq<UndoRecord>
  {
    if HasChanges(r) then [] else redo
  }

  /** The dirty flag after a transaction at depth 0 closes: a pushed record marks the document dirty. */
  function CommittedDirty(dirty: bool, r: UndoRecord): bool
  {
    HasChanges(r) || dirty
  }

  /** Every key of a document list is below the matching id counter. */
  predicate CountersFresh(d: Document, nextBulbId: int, nextScoreId: int)
  {
    (forall j :: 0 <= j < |d.illumination| ==> d.illumination[j].id < nextBulbId)
    && (forall j :: 0 <= j < |d.scores| ==> d.scores[j].id < nextScoreId)
  }

  // ---------------------------------------------------------------------
  // Undo gives back the document

  lemma EmptyMarks<K, T>(items: seq<T>, key: T -> K)
    ensures DistinctKeys<K, T>([]) && WellKeyed<K, T>([], key) && Captured<K, T>([], items, key)
  {
  }

  /** Undoing a delete restores every deleted entity, by id, and changes nothing else. */
  lemma UndoDelete(d: Document, bulbIds: seq<int>, scoreIds: seq<int>)
    requires UniqueIds(d)
    ensures SameContent(ApplyRecordTo(DeleteIn(d, bulbIds, scoreIds),
      FinalizeRecord(DeleteRecord(d, bulbIds, scoreIds), DeleteIn(d, bulbIds, scoreIds)), true), d)
  {
    var now := DeleteIn(d, bulbIds, scoreIds);
    var r := DeleteRecord(d, bulbIds, scoreIds);
    EmptyMarks(d.illumination, BulbKey);
    EmptyMarks(d.scores, ScoreKey);
    MarkDeletesSpec([], d.illumination, BulbKey, bulbIds);
    MarkDeletesSpec([], d.scores, ScoreKey, scoreIds);
    UnselectedUnique(d.illumination, BulbKey, bulbIds);
    UnselectedUnique(d.scores, ScoreKey, scoreIds);
    forall k | !Has(r.bulbSnapshots, k)
      ensures Find(now.illumination, BulbKey, k) == Find(d.illumination, BulbKey, k)
    {
      FindUnselected(d.illumination, BulbKey, bulbIds, k);
    }
    forall k | !Has(r.scoreSnapshots, k)
      ensures Find(now.scores, ScoreKey, k) == Find(d.scores, ScoreKey, k)
    {
      FindUnselected(d.scores, ScoreKey, scoreIds, k);
    }
    UndoGivesBackStart(d, now, r);
  }

  /** Undoing a move puts every moved entity back, by id. */
  lemma UndoMove(d: Document, bulbIds: seq<int>, scoreIds: seq<int>, dx: real, dy: real)
    requires UniqueIds(d)
    ensures SameContent(ApplyRecordTo(MoveIn(d, bulbIds, scoreIds, dx, dy),
      FinalizeRecord(MoveRecord(d, bulbIds, scoreIds), MoveIn(d, bulbIds, scoreIds, dx, dy)), true), d)
  {
    var now := MoveIn(d, bulbIds, scoreIds, dx, dy);
    var r := MoveRecord(d, bulbIds, scoreIds);
    EmptyMarks(d.illumination, BulbKey);
    EmptyMarks(d.scores, ScoreKey);
    MarkEachSpec([], d.illumination, BulbKey, bulbIds);
    MarkEachSpec([], d.scores, ScoreKey, scoreIds);
    MoveEachUnique(d.illumination, BulbKey, bulbIds, TranslateBulb(dx, dy));
    MoveEachUnique(d.scores, ScoreKey, scoreIds, TranslateScore(dx, dy));
    forall k | !Has(r.bulbSnapshots, k)
      ensures Find(now.illumination, BulbKey, k) == Find(d.illumination, BulbKey, k)
    {
      FindMoveEach(d.illumination, BulbKey, bulbIds, TranslateBulb(dx, dy), k);
    }
    forall k | !Has(r.scoreSnapshots, k)
      ensures Find(now.scores, ScoreKey, k) == Find(d.scores, ScoreKey, k)
    {
      FindMoveEach(d.scores, ScoreKey, scoreIds, TranslateScore(dx, dy), k);
    }
    UndoGivesBackStart(d, now, r);
  }

  /** Undoing a resize puts the entity's position and size back. */
  lemma UndoResize(d: Document, kind: SelectionType, id: int, position: string, dx: real, dy: real)
    requires UniqueIds(d)
    ensures SameContent(ApplyRecordTo(ResizeIn(d, kind, id, position, dx, dy),
      FinalizeRecord(ResizeRecord(d, kind, id), ResizeIn(d, kind, id, position, dx, dy)), true), d)
  {
    var now := ResizeIn(d, kind, id, position, dx, dy);
    var r := ResizeRecord(d, kind, id);
    EmptyMarks(d.illumination, BulbKey);
    EmptyMarks(d.scores, ScoreKey);
    assert [id][..0] == [];
    if kind == BulbSelection {
      MarkEachSpec([], d.illumination, BulbKey, [id]);
      MoveEachUnique(d.illumination, BulbKey, [id], ResizeBulb(position, dx, dy));
      forall k | !Has(r.bulbSnapshots, k)
        ensures Find(now.illumination, BulbKey, k) == Find(d.illumination, BulbKey, k)
      {
        FindMoveEach(d.illumination, BulbKey, [id], ResizeBulb(position, dx, dy), k);
      }
    } else {
      MarkEachSpec([], d.scores, ScoreKey, [id]);
      MoveEachUnique(d.scores, ScoreKey, [id], ResizeScore(position, dx, dy));
      forall k | !Has(r.scoreSnapshots, k)
        ensures Find(now.scores, ScoreKey, k) == Find(d.scores, ScoreKey, k)
      {
        FindMoveEach(d.scores, ScoreKey, [id], ResizeScore(position, dx, dy), k);
      }
    }
    UndoGivesBackStart(d, now, r);
  }

  /** The new ids are consecutive from the counter, hence absent from a list whose ids are all below it. */
  lemma NewIdsFresh<T(!new)>(items: seq<T>, key: T -> int, ids: seq<int>, next: int, copy: (T, int) -> T)
    requires forall x, n :: key(copy(x, n)) == n
    requires forall j :: 0 <= j < |items| ==> key(items[j]) < next
    ensures forall j :: 0 <= j < |DuplicateEach(items, key, ids, next, copy).newIds| ==>
      !HasKey(items, key, DuplicateEach(items, key, ids, next, copy).newIds[j])
  {
    DuplicateEachShape(items, key, ids, next, copy);
  }

  /** Undoing a duplicate removes every copy and nothing else. */
  lemma UndoDuplicate(d: Document, bulbIds: seq<int>, scoreIds: seq<int>, nextBulbId: int, nextScoreId: int)
    requires UniqueIds(d) && CountersFresh(d, nextBulbId, nextScoreId)
    ensures var db := DuplicatedBulbs(d, bulbIds, nextBulbId);
      var ds := DuplicatedScores(d, scoreIds, nextScoreId);
      var now := d.(illumination := db.items, scores := ds.items);
      SameContent(ApplyRecordTo(now, FinalizeRecord(DuplicateRecord(db.newIds, ds.newIds), now), true), d)
  {
    var db := DuplicatedBulbs(d, bulbIds, nextBulbId);
    var ds := DuplicatedScores(d, scoreIds, nextScoreId);
    var now := d.(illumination := db.items, scores := ds.items);
    var r := DuplicateRecord(db.newIds, ds.newIds);
    EmptyMarks(d.illumination, BulbKey);
    EmptyMarks(d.scores, ScoreKey);
    NewIdsFresh(d.illumination, BulbKey, bulbIds, nextBulbId, BulbCopy);
    NewIdsFresh(d.scores, ScoreKey, scoreIds, nextScoreId, ScoreCopy);
    assert db == DuplicateEach(d.illumination, BulbKey, bulbIds, nextBulbId, BulbCopy);
    assert ds == DuplicateEach(d.scores, ScoreKey, scoreIds, nextScoreId, ScoreCopy);
    MarkCreatesSpec([], d.illumination, BulbKey, db.newIds);
    MarkCreatesSpec([], d.scores, ScoreKey, ds.newIds);
    DuplicateEachUnique(d.illumination, BulbKey, bulbIds, nextBulbId, BulbCopy);
    DuplicateEachUnique(d.scores, ScoreKey, scoreIds, nextScoreId, ScoreCopy);
    forall k | !Has(r.bulbSnapshots, k)
      ensures Find(now.illumination, BulbKey, k) == Find(d.illumination, BulbKey, k)
    {
      FindDuplicateEach(d.illumination, BulbKey, bulbIds, nextBulbId, BulbCopy, k);
    }
    forall k | !Has(r.scoreSnapshots, k)
      ensures Find(now.scores, ScoreKey, k) == Find(d.scores, ScoreKey, k)
    {
      FindDuplicateEach(d.scores, ScoreKey, scoreIds, nextScoreId, ScoreCopy, k);
    }
    UndoGivesBackStart(d, now, r);
  }

  /** Undoing a create removes the new bulb; the id counter keeps it fresh. */
  lemma UndoCreateBulb(d: Document, b: Bulb)
    requires UniqueIds(d) && !HasKey(d.illumination, BulbKey, b.id)
    ensures var now := d.(illumination := d.illumination + [b]);
      SameContent(ApplyRecordTo(now, FinalizeRecord(CreateBulbRecord(b.id), now), true), d)
  {
    var now := d.(illumination := d.illumination + [b]);
    var r := CreateBulbRecord(b.id);
    EmptyMarks(d.illumination, BulbKey);
    MarkCreatesSpec([], d.illumination, BulbKey, [b.id]);
    assert UniqueKeys(now.illumination, BulbKey) by {
      forall a, c | 0 <= a < c < |now.illumination|
        ensures now.illumination[a].id != now.illumination[c].id
      {
        if c == |d.illumination| {
          assert now.illumination[a] == d.illumination[a];
        } else {
          assert now.illumination[a] == d.illumination[a] && now.illumination[c] == d.illumination[c];
        }
      }
    }
    forall k | !Has(r.bulbSnapshots, k)
      ensures Find(now.illumination, BulbKey, k) == Find(d.illumination, BulbKey, k)
    {
      FindAppend(d.illumination, [b], BulbKey, k);
    }
    UndoGivesBackStart(d, now, r);
  }

  /** Undoing a create removes the new score. */
  lemma UndoCreateScore(d: Document, s: Score)
    requires UniqueIds(d) && !HasKey(d.scores, ScoreKey, s.id)
    ensures var now := d.(scores := d.scores + [s]);
      SameContent(ApplyRecordTo(now, FinalizeRecord(CreateScoreRecord(s.id), now), true), d)
  {
    var now := d.(scores := d.scores + [s]);
    var r := CreateScoreRecord(s.id);
    EmptyMarks(d.scores, ScoreKey);
    MarkCreatesSpec([], d.scores, ScoreKey, [s.id]);
    assert UniqueKeys(now.scores, ScoreKey) by {
      forall a, c | 0 <= a < c < |now.scores|
        ensures now.scores[a].id != now.scores[c].id
      {
        if c == |d.scores| {
          assert now.scores[a] == d.scores[a];
        } else {
          assert now.scores[a] == d.scores[a] && now.scores[c] == d.scores[c];
        }
      }
    }
    forall k | !Has(r.scoreSnapshots, k)
      ensures Find(now.scores, ScoreKey, k) == Find(d.scores, ScoreKey, k)
    {
      FindAppend(d.scores, [s], ScoreKey, k);
    }
    UndoGivesBackStart(d, now, r);
  }

  /** After a move of distinct selected ids, exactly the selected entities are translated. */
  lemma MoveTranslatesSelected(d: Document, bulbIds: seq<int>, scoreIds: seq<int>, dx: real, dy: real)
    requires UniqueIds(d) && DistinctSeq(bulbIds) && DistinctSeq(scoreIds)
    ensures var m := MoveIn(d, bulbIds, scoreIds, dx, dy);
      (forall j :: 0 <= j < |d.illumination| ==>
         m.illumination[j] == if d.illumination[j].id in bulbIds then TranslateBulb(dx, dy)(d.illumination[j]) else d.illumination[j])
      && (forall j :: 0 <= j < |d.scores| ==>
            m.scores[j] == if d.scores[j].id in scoreIds then TranslateScore(dx, dy)(d.scores[j]) else d.scores[j])
  {
    MoveEachPointwise(d.illumination, BulbKey, bulbIds, TranslateBulb(dx, dy));
    MoveEachPointwise(d.scores, ScoreKey, scoreIds, TranslateScore(dx, dy));
  }

  /** The copies are selected afterwards, in the order they were made. */
  lemma DuplicateSelectsCopies(d: Document, ids: seq<int>, next: int)
    ensures AddAll([], DuplicatedBulbs(d, ids, next).newIds) == DuplicatedBulbs(d, ids, next).newIds
  {
    var newIds := DuplicatedBulbs(d, ids, next).newIds;
    DuplicateEachShape(d.illumination, BulbKey, ids, next, BulbCopy);
    assert [] + newIds == newIds;
    AddAllDistinct([], newIds);
  }

  // ---------------------------------------------------------------------
  // The operations on the editor state

  /** `createBulb(locX, locY)`. */
  method CreateBulb(st: EditorState, um: UndoManager, locX: Option<real>, locY: Option<real>) returns (bulb: Bulb)
    requires um.Valid()
    modifies st`nextBulbId, st`data, st`isDirty, st`selectedBulbIds, st`selectedScoreIds, st`primarySelection, um
    ensures um.Valid() && um.transactionDepth == old(um.transactionDepth)
    ensures bulb == NewBulb(old(st.nextBulbId), |old(st.data.illumination)|, locX, locY)
    ensures st.nextBulbId == old(st.nextBulbId) + 1
    ensures st.data == old(st.data).(illumination := old(st.data.illumination) + [bulb])
    ensures SelectionOf(st) == Select(old(SelectionOf(st)), BulbSelection, bulb.id, false)
    ensures old(um.transactionDepth) == 0 ==>
      um.undoStack == Committed(old(um.undoStack), CreateBulbRecord(bulb.id), st.data) && um.redoStack == [] && st.isDirty
    ensures old(um.transactionDepth) > 0 ==>
      um.undoStack == old(um.undoStack) && um.redoStack == old(um.redoStack) && st.isDirty == old(st.isDirty)
      && um.currentRecord == Some(CreateMarks(old(um.currentRecord).value, [bulb.id], []))
  {
    var id := st.nextBulbId;
    st.nextBulbId := st.nextBulbId + 1;
    bulb := NewBulb(id, |st.data.illumination|, locX, locY);
    AddBulbUndoable(st, um, bulb);
    ghost var added := st.data;
    SelectBulb(st, id, false);
    assert st.data == added;
  }

  /** The "Add Bulb" transaction of `createBulb`: the new id is marked as created and the bulb appended. */
  method AddBulbUndoable(st: EditorState, um: UndoManager, bulb: Bulb)
    requires um.Valid()
    modifies st`data, st`isDirty, um
    ensures um.Valid() && um.transactionDepth == old(um.transactionDepth)
    ensures st.data == old(st.data).(illumination := old(st.data.illumination) + [bulb])
    ensures old(um.transactionDepth) == 0 ==>
      um.undoStack == Committed(old(um.undoStack), CreateBulbRecord(bulb.id), st.data) && um.redoStack == [] && st.isDirty
    ensures old(um.transactionDepth) > 0 ==>
      um.undoStack == old(um.undoStack) && um.redoStack == old(um.redoStack) && st.isDirty == old(st.isDirty)
      && um.currentRecord == Some(CreateMarks(old(um.currentRecord).value, [bulb.id], []))
  {
    um.BeginUndo("Add Bulb");
    ghost var open := um.currentRecord;
    if open.Some? {
      MarkCreatesSnoc<int, Bulb>(open.value.bulbSnapshots, [], bulb.id);
      assert [] + [bulb.id] == [bulb.id];
    }
    um.MarkBulbForCreate(bulb.id);
    assert old(um.transactionDepth) > 0 ==> um.currentRecord == Some(CreateMarks(open.value, [bulb.id], []));
    assert MarkCreates<int, Bulb>([], [bulb.id]) == Put([], bulb.id, Snapshot(None, None));
    st.data := st.data.(illumination := st.data.illumination + [bulb]);
    um.EndUndo(st);
  }

  /** `createScore(locX, locY)`: the parent follows the active tab. */
  method CreateScore(st: EditorState, um: UndoManager, locX: Option<real>, locY: Option<real>) returns (score: Score)
    requires um.Valid()
    modifies st`nextScoreId, st`data, st`isDirty, st`selectedBulbIds, st`selectedScoreIds, st`primarySelection, um
    ensures um.Valid() && um.transactionDepth == old(um.transactionDepth)
    ensures score == NewScore(old(st.nextScoreId), TabParent(old(st.activeTab)), |old(st.data.scores)|, locX, locY)
    ensures st.nextScoreId == old(st.nextScoreId) + 1
    ensures st.data == old(st.data).(scores := old(st.data.scores) + [score])
    ensures SelectionOf(st) == Select(old(SelectionOf(st)), ScoreSelection, score.id, false)
    ensures old(um.transactionDepth) == 0 ==>
      um.undoStack == Committed(old(um.undoStack), CreateScoreRecord(score.id), st.data) && um.redoStack == [] && st.isDirty
    ensures old(um.transactionDepth) > 0 ==>
      um.undoStack == old(um.undoStack) && um.redoStack == old(um.redoStack) && st.isDirty == old(st.isDirty)
      && um.currentRecord == Some(CreateMarks(old(um.currentRecord).value, [], [score.id]))
  {
    var id := st.nextScoreId;
    st.nextScoreId := st.nextScoreId + 1;
    score := NewScore(id, TabParent(st.activeTab), |st.data.scores|, locX, locY);
    AddScoreUndoable(st, um, score);
    ghost var added := st.data;
    SelectScore(st, id, false);
    assert st.data == added;
  }

  /** The "Add Score" transaction of `createScore`. */
  method AddScoreUndoable(st: EditorState, um: UndoManager, score: Score)
    requires um.Valid()
    modifies st`data, st`isDirty, um
    ensures um.Valid() && um.transactionDepth == old(um.transactionDepth)
    ensures st.data == old(st.data).(scores := old(st.data.scores) + [score])
    ensures old(um.transactionDepth) == 0 ==>
      um.undoStack == Committed(old(um.undoStack), CreateScoreRecord(score.id), st.data) && um.redoStack == [] && st.isDirty
    ensures old(um.transactionDepth) > 0 ==>
      um.undoStack == old(um.undoStack) && um.redoStack == old(um.redoStack) && st.isDirty == old(st.isDirty)
      && um.currentRecord == Some(CreateMarks(old(um.currentRecord).value, [], [score.id]))
  {
    um.BeginUndo("Add Score");
    ghost var open := um.currentRecord;
    if open.Some? {
      MarkCreatesSnoc<int, Score>(open.value.scoreSnapshots, [], score.id);
      assert [] + [score.id] == [score.id];
    }
    um.MarkScoreForCreate(score.id);
    assert old(um.transactionDepth) > 0 ==> um.currentRecord == Some(CreateMarks(open.value, [], [score.id]));
    assert MarkCreates<int, Score>([], [score.id]) == Put([], score.id, Snapshot(None, None));
    st.data := st.data.(scores := st.data.scores + [score]);
    um.EndUndo(st);
  }

  /** The `markBulbForDelete` loop of `deleteSelected`. */
  method MarkBulbsForDelete(st: EditorState, um: UndoManager, ids: seq<int>)
    requires um.Valid() && um.currentRecord.Some?
    modifies um`currentRecord
    ensures um.Valid()
    ensures um.currentRecord == Some(old(um.currentRecord).value.(bulbSnapshots :=
      MarkDeletes(old(um.currentRecord).value.bulbSnapshots, st.data.illumination, BulbKey, ids)))
  {
    var i := 0;
    while i < |ids|
      invariant 0 <= i <= |ids| && um.Valid()
      invariant um.currentRecord == Some(old(um.currentRecord).value.(bulbSnapshots :=
        MarkDeletes(old(um.currentRecord).value.bulbSnapshots, st.data.illumination, BulbKey, ids[..i])))
    {
      assert ids[..i + 1][..i] == ids[..i];
      um.MarkBulbForDelete(st, ids[i]);
      i := i + 1;
    }
    assert ids[..|ids|] == ids;
  }

  /** The `markScoreForDelete` loop of `deleteSelected`. */
  method MarkScoresForDelete(st: EditorState, um: UndoManager, ids: seq<int>)
    requires um.Valid() && um.currentRecord.Some?
    modifies um`currentRecord
    ensures um.Valid()
    ensures um.currentRecord == Some(old(um.currentRecord).value.(scoreSnapshots :=
      MarkDeletes(old(um.currentRecord).value.scoreSnapshots, st.data.scores, ScoreKey, ids)))
  {
    var i := 0;
    while i < |ids|
      invariant 0 <= i <= |ids| && um.Valid()
      invariant um.currentRecord == Some(old(um.currentRecord).value.(scoreSnapshots :=
        MarkDeletes(old(um.currentRecord).value.scoreSnapshots, st.data.scores, ScoreKey, ids[..i])))
    {
      assert ids[..i + 1][..i] == ids[..i];
      um.MarkScoreForDelete(st, ids[i]);
      i := i + 1;
    }
    assert ids[..|ids|] == ids;
  }

  /** The marks and removals of `deleteSelected`, inside its transaction. */
  method DeleteMarked(st: EditorState, um: UndoManager, bulbIds: seq<int>, scoreIds: seq<int>)
    requires um.Valid() && um.currentRecord.Some?
    modifies st`data, um`currentRecord
    ensures um.Valid()
    ensures st.data == DeleteIn(old(st.data), bulbIds, scoreIds)
    ensures um.currentRecord == Some(DeleteMarks(old(um.currentRecord).value, old(st.data), bulbIds, scoreIds))
  {
    MarkBulbsForDelete(st, um, bulbIds);
    st.data := st.data.(illumination := Unselected(st.data.illumination, BulbKey, bulbIds));
    MarkScoresForDelete(st, um, scoreIds);
    st.data := st.data.(scores := Unselected(st.data.scores, ScoreKey, scoreIds));
  }

  /** `deleteSelected()`: nothing happens with an empty selection. */
  method DeleteSelected(st: EditorState, um: UndoManager)
    requires um.Valid()
    modifies st`data, st`isDirty, st`selectedBulbIds, st`selectedScoreIds, st`primarySelection, um
    ensures um.Valid() && um.transactionDepth == old(um.transactionDepth)
    ensures old(st.selectedBulbIds) == [] && old(st.selectedScoreIds) == [] ==>
      st.data == old(st.data) && SelectionOf(st) == old(SelectionOf(st)) && st.isDirty == old(st.isDirty)
      && um.undoStack == old(um.undoStack) && um.redoStack == old(um.redoStack)
    ensures old(st.selectedBulbIds) != [] || old(st.selectedScoreIds) != [] ==>
      st.data == DeleteIn(old(st.data), old(st.selectedBulbIds), old(st.selectedScoreIds))
      && SelectionOf(st) == Cleared()
      && (old(um.transactionDepth) == 0 ==>
            var r := DeleteRecord(old(st.data), old(st.selectedBulbIds), old(st.selectedScoreIds));
            um.undoStack == Committed(old(um.undoStack), r, st.data)
            && um.redoStack == CommittedRedo(old(um.redoStack), r) && st.isDirty == CommittedDirty(old(st.isDirty), r))
      && (old(um.transactionDepth) > 0 ==>
            um.undoStack == old(um.undoStack) && um.redoStack == old(um.redoStack) && st.isDirty == old(st.isDirty)
            && um.currentRecord == Some(DeleteMarks(old(um.currentRecord).value, old(st.data),
                                                    old(st.selectedBulbIds), old(st.selectedScoreIds))))
  {
    if |st.selectedBulbIds| == 0 && |st.selectedScoreIds| == 0 {
      return;
    }
    DeleteUndoable(st, um, st.selectedBulbIds, st.selectedScoreIds);
    ClearSelection(st);
  }

  /** The "Delete" transaction of `deleteSelected`. */
  method DeleteUndoable(st: EditorState, um: UndoManager, bulbIds: seq<int>, scoreIds: seq<int>)
    requires um.Valid()
    modifies st`data, st`isDirty, um
    ensures um.Valid() && um.transactionDepth == old(um.transactionDepth)
    ensures st.data == DeleteIn(old(st.data), bulbIds, scoreIds)
    ensures old(um.transactionDepth) == 0 ==>
      var r := DeleteRecord(old(st.data), bulbIds, scoreIds);
      um.undoStack == Committed(old(um.undoStack), r, st.data)
      && um.redoStack == CommittedRedo(old(um.redoStack), r) && st.isDirty == CommittedDirty(old(st.isDirty), r)
    ensures old(um.transactionDepth) > 0 ==>
      um.undoStack == old(um.undoStack) && um.redoStack == old(um.redoStack) && st.isDirty == old(st.isDirty)
      && um.currentRecord == Some(DeleteMarks(old(um.currentRecord).value, old(st.data), bulbIds, scoreIds))
  {
    ghost var start := st.data;
    um.BeginUndo(DeleteDescription(|bulbIds| + |scoreIds|));
    DeleteMarked(st, um, bulbIds, scoreIds);
    assert old(um.transactionDepth) == 0 ==> um.currentRecord == Some(DeleteRecord(start, bulbIds, scoreIds));
    um.EndUndo(st);
  }

  /** One selected bulb of `duplicateSelected`: a found bulb is copied under the next id and marked as created. */
  method DuplicateBulb(st: EditorState, um: UndoManager, id: int) returns (newId: Option<int>)
    requires um.Valid() && um.currentRecord.Some?
    modifies st`data, st`nextBulbId, um`currentRecord
    ensures um.Valid()
    ensures newId.Some? <==> Find(old(st.data.illumination), BulbKey, id).Some?
    ensures newId.None? ==> st.data == old(st.data) && st.nextBulbId == old(st.nextBulbId) && um.currentRecord == old(um.currentRecord)
    ensures newId.Some? ==> newId.value == old(st.nextBulbId) && st.nextBulbId == old(st.nextBulbId) + 1
    ensures newId.Some? ==>
      st.data == old(st.data).(illumination := old(st.data.illumination) + [BulbCopy(Find(old(st.data.illumination), BulbKey, id).value, newId.value)])
    ensures newId.Some? ==>
      um.currentRecord == Some(old(um.currentRecord).value.(bulbSnapshots := Put(old(um.currentRecord).value.bulbSnapshots, newId.value, Snapshot(None, None))))
  {
    var original := Find(st.data.illumination, BulbKey, id);
    newId := None;
    if original.Some? {
      var next := st.nextBulbId;
      st.nextBulbId := st.nextBulbId + 1;
      var copy := BulbCopy(original.value, next);
      um.MarkBulbForCreate(next);
      st.data := st.data.(illumination := st.data.illumination + [copy]);
      newId := Some(next);
    }
  }

  /** The bulb loop of `duplicateSelected`: a copy and a create mark per selected bulb still present. */
  method DuplicateBulbs(st: EditorState, um: UndoManager, ids: seq<int>) returns (newIds: seq<int>)
    requires um.Valid() && um.currentRecord.Some?
    modifies st`data, st`nextBulbId, um`currentRecord
    ensures um.Valid()
    ensures Duplication(st.data.illumination, st.nextBulbId, newIds)
      == DuplicateEach(old(st.data.illumination), BulbKey, ids, old(st.nextBulbId), BulbCopy)
    ensures st.data == old(st.data).(illumination := st.data.illumination)
    ensures um.currentRecord == Some(old(um.currentRecord).value.(bulbSnapshots :=
      MarkCreates(old(um.currentRecord).value.bulbSnapshots, newIds)))
  {
    newIds := [];
    for i := 0 to |ids|
      invariant um.Valid()
      invariant Duplication(st.data.illumination, st.nextBulbId, newIds)
        == DuplicateEach(old(st.data.illumination), BulbKey, ids[..i], old(st.nextBulbId), BulbCopy)
      invariant st.data == old(st.data).(illumination := st.data.illumination)
      invariant um.currentRecord == Some(old(um.currentRecord).value.(bulbSnapshots :=
        MarkCreates(old(um.currentRecord).value.bulbSnapshots, newIds)))
    {
      DuplicateEachSnoc(old(st.data.illumination), BulbKey, ids, i, old(st.nextBulbId), BulbCopy);
      var newId := DuplicateBulb(st, um, ids[i]);
      if newId.Some? {
        MarkCreatesSnoc(old(um.currentRecord).value.bulbSnapshots, newIds, newId.value);
        newIds := newIds + [newId.value];
      }
    }
    assert ids[..|ids|] == ids;
  }

  /** One selected score of `duplicateSelected`: a found score is copied under the next id and marked as created. */
  method DuplicateScore(st: EditorState, um: UndoManager, id: int) returns (newId: Option<int>)
    requires um.Valid() && um.currentRecord.Some?
    modifies st`data, st`nextScoreId, um`currentRecord
    ensures um.Valid()
    ensures newId.Some? <==> Find(old(st.data.scores), ScoreKey, id).Some?
    ensures newId.None? ==> st.data == old(st.data) && st.nextScoreId == old(st.nextScoreId) && um.currentRecord == old(um.currentRecord)
    ensures newId.Some? ==> newId.value == old(st.nextScoreId) && st.nextScoreId == old(st.nextScoreId) + 1
    ensures newId.Some? ==>
      st.data == old(st.data).(scores := old(st.data.scores) + [ScoreCopy(Find(old(st.data.scores), ScoreKey, id).value, newId.value)])
    ensures newId.Some? ==>
      um.currentRecord == Some(old(um.currentRecord).value.(scoreSnapshots := Put(old(um.currentRecord).value.scoreSnapshots, newId.value, Snapshot(None, None))))
  {
    var original := Find(st.data.scores, ScoreKey, id);
    newId := None;
    if original.Some? {
      var next := st.nextScoreId;
      st.nextScoreId := st.nextScoreId + 1;
      var copy := ScoreCopy(original.value, next);
      um.MarkScoreForCreate(next);
      st.data := st.data.(scores := st.data.scores + [copy]);
      newId := Some(next);
    }
  }

  /** The score loop of `duplicateSelected`. */
  method DuplicateScores(st: EditorState, um: UndoManager, ids: seq<int>) returns (newIds: seq<int>)
    requires um.Valid() && um.currentRecord.Some?
    modifies st`data, st`nextScoreId, um`currentRecord
    ensures um.Valid()
    ensures Duplication(st.data.scores, st.nextScoreId, newIds)
      == DuplicateEach(old(st.data.scores), ScoreKey, ids, old(st.nextScoreId), ScoreCopy)
    ensures st.data == old(st.data).(scores := st.data.scores)
    ensures um.currentRecord == Some(old(um.currentRecord).value.(scoreSnapshots :=
      MarkCreates(old(um.currentRecord).value.scoreSnapshots, newIds)))
  {
    newIds := [];
    for i := 0 to |ids|
      invariant um.Valid()
      invariant Duplication(st.data.scores, st.nextScoreId, newIds)
        == DuplicateEach(old(st.data.scores), ScoreKey, ids[..i], old(st.nextScoreId), ScoreCopy)
      invariant st.data == old(st.data).(scores := st.data.scores)
      invariant um.currentRecord == Some(old(um.currentRecord).value.(scoreSnapshots :=
        MarkCreates(old(um.currentRecord).value.scoreSnapshots, newIds)))
    {
      DuplicateEachSnoc(old(st.data.scores), ScoreKey, ids, i, old(st.nextScoreId), ScoreCopy);
      var newId := DuplicateScore(st, um, ids[i]);
      if newId.Some? {
        MarkCreatesSnoc(old(um.currentRecord).value.scoreSnapshots, newIds, newId.value);
        newIds := newIds + [newId.value];
      }
    }
    assert ids[..|ids|] == ids;
  }

  /** The primary after a duplicate: the first new bulb, else the first new score, else unchanged. */
  function DuplicatePrimary(newBulbIds: seq<int>, newScoreIds: seq<int>, old_: Option<PrimarySelection>): Option<PrimarySelection>
  {
    if newBulbIds != [] then Some(PrimarySelection(BulbSelection, newBulbIds[0]))
    else if newScoreIds != [] then Some(PrimarySelection(ScoreSelection, newScoreIds[0]))
    else old_
  }

  /** The copies and create marks of `duplicateSelected`, inside its transaction. */
  method DuplicateMarked(st: EditorState, um: UndoManager, bulbIds: seq<int>, scoreIds: seq<int>)
    returns (newBulbIds: seq<int>, newScoreIds: seq<int>)
    requires um.Valid() && um.currentRecord.Some?
    modifies st`data, st`nextBulbId, st`nextScoreId, um`currentRecord
    ensures um.Valid()
    ensures Duplication(st.data.illumination, st.nextBulbId, newBulbIds) == DuplicatedBulbs(old(st.data), bulbIds, old(st.nextBulbId))
    ensures Duplication(st.data.scores, st.nextScoreId, newScoreIds) == DuplicatedScores(old(st.data), scoreIds, old(st.nextScoreId))
    ensures st.data == old(st.data).(illumination := st.data.illumination, scores := st.data.scores)
    ensures um.currentRecord == Some(CreateMarks(old(um.currentRecord).value, newBulbIds, newScoreIds))
  {
    newBulbIds := DuplicateBulbs(st, um, bulbIds);
    newScoreIds := DuplicateScores(st, um, scoreIds);
  }

  /** The selection after `duplicateSelected`: exactly the copies. */
  method SelectCopies(st: EditorState, newBulbIds: seq<int>, newScoreIds: seq<int>)
    modifies st`selectedBulbIds, st`selectedScoreIds, st`primarySelection
    ensures st.selectedBulbIds == AddAll([], newBulbIds) && st.selectedScoreIds == AddAll([], newScoreIds)
    ensures st.primarySelection == DuplicatePrimary(newBulbIds, newScoreIds, old(st.primarySelection))
  {
    st.selectedBulbIds := AddEach([], newBulbIds);
    st.selectedScoreIds := AddEach([], newScoreIds);
    if |newBulbIds| > 0 {
      st.primarySelection := Some(PrimarySelection(BulbSelection, newBulbIds[0]));
    } else if |newScoreIds| > 0 {
      st.primarySelection := Some(PrimarySelection(ScoreSelection, newScoreIds[0]));
    }
  }

  /** `duplicateSelected()`: the copies replace the selection. */
  method DuplicateSelected(st: EditorState, um: UndoManager)
    requires um.Valid()
    modifies st`data, st`isDirty, st`nextBulbId, st`nextScoreId, um
    modifies st`selectedBulbIds, st`selectedScoreIds, st`primarySelection
    ensures um.Valid() && um.transactionDepth == old(um.transactionDepth)
    ensures old(st.selectedBulbIds) == [] && old(st.selectedScoreIds) == [] ==>
      st.data == old(st.data) && SelectionOf(st) == old(SelectionOf(st)) && st.isDirty == old(st.isDirty)
      && um.undoStack == old(um.undoStack) && um.redoStack == old(um.redoStack)
    ensures old(st.selectedBulbIds) != [] || old(st.selectedScoreIds) != [] ==>
      var db := DuplicatedBulbs(old(st.data), old(st.selectedBulbIds), old(st.nextBulbId));
      var ds := DuplicatedScores(old(st.data), old(st.selectedScoreIds), old(st.nextScoreId));
      st.data == old(st.data).(illumination := db.items, scores := ds.items)
      && st.nextBulbId == db.next && st.nextScoreId == ds.next
      && st.selectedBulbIds == AddAll([], db.newIds) && st.selectedScoreIds == AddAll([], ds.newIds)
      && st.primarySelection == DuplicatePrimary(db.newIds, ds.newIds, old(st.primarySelection))
      && (old(um.transactionDepth) == 0 ==>
            var r := DuplicateRecord(db.newIds, ds.newIds);
            um.undoStack == Committed(old(um.undoStack), r, st.data)
            && um.redoStack == CommittedRedo(old(um.redoStack), r) && st.isDirty == CommittedDirty(old(st.isDirty), r))
      && (old(um.transactionDepth) > 0 ==>
            um.undoStack == old(um.undoStack) && um.redoStack == old(um.redoStack) && st.isDirty == old(st.isDirty)
            && um.currentRecord == Some(CreateMarks(old(um.currentRecord).value, db.newIds, ds.newIds)))
  {
    if |st.selectedBulbIds| == 0 && |st.selectedScoreIds| == 0 {
      return;
    }
    var newBulbIds, newScoreIds := DuplicateUndoable(st, um, st.selectedBulbIds, st.selectedScoreIds);
    ghost var copied, dirty := st.data, st.isDirty;
    SelectCopies(st, newBulbIds, newScoreIds);
    assert st.data == copied && st.isDirty == dirty;
  }

  /** The "Duplicate" transaction of `duplicateSelected`. */
  method DuplicateUndoable(st: EditorState, um: UndoManager, bulbIds: seq<int>, scoreIds: seq<int>)
    returns (newBulbIds: seq<int>, newScoreIds: seq<int>)
    requires um.Valid()
    modifies st`data, st`isDirty, st`nextBulbId, st`nextScoreId, um
    ensures um.Valid() && um.transactionDepth == old(um.transactionDepth)
    ensures var db := DuplicatedBulbs(old(st.data), bulbIds, old(st.nextBulbId));
      var ds := DuplicatedScores(old(st.data), scoreIds, old(st.nextScoreId));
      && st.data == old(st.data).(illumination := db.items, scores := ds.items)
      && st.nextBulbId == db.next && st.nextScoreId == ds.next
      && newBulbIds == db.newIds && newScoreIds == ds.newIds
    ensures old(um.transactionDepth) == 0 ==>
      var r := DuplicateRecord(newBulbIds, newScoreIds);
      um.undoStack == Committed(old(um.undoStack), r, st.data)
      && um.redoStack == CommittedRedo(old(um.redoStack), r) && st.isDirty == CommittedDirty(old(st.isDirty), r)
    ensures old(um.transactionDepth) > 0 ==>
      um.undoStack == old(um.undoStack) && um.redoStack == old(um.redoStack) && st.isDirty == old(st.isDirty)
      && um.currentRecord == Some(CreateMarks(old(um.currentRecord).value, newBulbIds, newScoreIds))
  {
    um.BeginUndo("Duplicate");
    newBulbIds, newScoreIds := DuplicateMarked(st, um, bulbIds, scoreIds);
    assert old(um.transactionDepth) == 0 ==> um.currentRecord == Some(DuplicateRecord(newBulbIds, newScoreIds));
    um.EndUndo(st);
  }

  /** The `markBulbForUndo` loop of `moveSelected`. */
  method MarkBulbsForUndo(st: EditorState, um: UndoManager, ids: seq<int>)
    requires um.Valid()
    modifies um`currentRecord
    ensures um.Valid()
    ensures old(um.currentRecord).None? ==> um.currentRecord.None?
    ensures old(um.currentRecord).Some? ==> um.currentRecord == Some(old(um.currentRecord).value.(bulbSnapshots :=
      MarkEach(old(um.currentRecord).value.bulbSnapshots, st.data.illumination, BulbKey, ids)))
  {
    ghost var rec := um.currentRecord;
    var i := 0;
    while i < |ids|
      invariant 0 <= i <= |ids| && um.Valid()
      invariant rec.None? ==> um.currentRecord.None?
      invariant rec.Some? ==> um.currentRecord == Some(rec.value.(bulbSnapshots :=
        MarkEach(rec.value.bulbSnapshots, st.data.illumination, BulbKey, ids[..i])))
    {
      MarkBulbStep(st, um, ids, i, rec);
      i := i + 1;
    }
    assert ids[..|ids|] == ids;
  }

  /** One turn of the `markBulbForUndo` loop. */
  method MarkBulbStep(st: EditorState, um: UndoManager, ids: seq<int>, i: nat, ghost rec: Option<UndoRecord>)
    requires um.Valid() && i < |ids|
    requires rec.Some? ==> DistinctKeys(rec.value.bulbSnapshots)
    requires rec.None? ==> um.currentRecord.None?
    requires rec.Some? ==> um.currentRecord == Some(rec.value.(bulbSnapshots :=
      MarkEach(rec.value.bulbSnapshots, st.data.illumination, BulbKey, ids[..i])))
    modifies um`currentRecord
    ensures um.Valid()
    ensures rec.None? ==> um.currentRecord.None?
    ensures rec.Some? ==> um.currentRecord == Some(rec.value.(bulbSnapshots :=
      MarkEach(rec.value.bulbSnapshots, st.data.illumination, BulbKey, ids[..i + 1])))
  {
    if rec.Some? {
      MarkEachSnoc(rec.value.bulbSnapshots, st.data.illumination, BulbKey, ids, i);
    }
    um.MarkBulbForUndo(st, ids[i]);
  }

  /** The `markScoreForUndo` loop of `moveSelected`. */
  method MarkScoresForUndo(st: EditorState, um: UndoManager, ids: seq<int>)
    requires um.Valid()
    modifies um`currentRecord
    ensures um.Valid()
    ensures old(um.currentRecord).None? ==> um.currentRecord.None?
    ensures old(um.currentRecord).Some? ==> um.currentRecord == Some(old(um.currentRecord).value.(scoreSnapshots :=
      MarkEach(old(um.currentRecord).value.scoreSnapshots, st.data.scores, ScoreKey, ids)))
  {
    ghost var rec := um.currentRecord;
    var i := 0;
    while i < |ids|
      invariant 0 <= i <= |ids| && um.Valid()
      invariant rec.None? ==> um.currentRecord.None?
      invariant rec.Some? ==> um.currentRecord == Some(rec.value.(scoreSnapshots :=
        MarkEach(rec.value.scoreSnapshots, st.data.scores, ScoreKey, ids[..i])))
    {
      MarkScoreStep(st, um, ids, i, rec);
      i := i + 1;
    }
    assert ids[..|ids|] == ids;
  }

  /** One turn of the `markScoreForUndo` loop. */
  method MarkScoreStep(st: EditorState, um: UndoManager, ids: seq<int>, i: nat, ghost rec: Option<UndoRecord>)
    requires um.Valid() && i < |ids|
    requires rec.Some? ==> DistinctKeys(rec.value.scoreSnapshots)
    requires rec.None? ==> um.currentRecord.None?
    requires rec.Some? ==> um.currentRecord == Some(rec.value.(scoreSnapshots :=
      MarkEach(rec.value.scoreSnapshots, st.data.scores, ScoreKey, ids[..i])))
    modifies um`currentRecord
    ensures um.Valid()
    ensures rec.None? ==> um.currentRecord.None?
    ensures rec.Some? ==> um.currentRecord == Some(rec.value.(scoreSnapshots :=
      MarkEach(rec.value.scoreSnapshots, st.data.scores, ScoreKey, ids[..i + 1])))
  {
    if rec.Some? {
      MarkEachSnoc(rec.value.scoreSnapshots, st.data.scores, ScoreKey, ids, i);
    }
    um.MarkScoreForUndo(st, ids[i]);
  }

  /** The bulb loop of `moveSelected`: each selected id moves the first bulb with that id. */
  method TranslateBulbs(st: EditorState, ids: seq<int>, dx: real, dy: real)
    modifies st`data
    ensures st.data == old(st.data).(illumination := MoveEach(old(st.data.illumination), BulbKey, ids, TranslateBulb(dx, dy)))
  {
    var i := 0;
    while i < |ids|
      invariant 0 <= i <= |ids|
      invariant st.data == old(st.data).(illumination := MoveEach(old(st.data.illumination), BulbKey, ids[..i], TranslateBulb(dx, dy)))
    {
      assert ids[..i + 1][..i] == ids[..i];
      var index := FindIndex(st.data.illumination, BulbKey, ids[i]);
      if index.Some? {
        var b := st.data.illumination[index.value];
        assert TranslateBulb(dx, dy)(b) == b.(locX := b.locX + dx, locY := b.locY + dy);
        st.data := st.data.(illumination := st.data.illumination[index.value := b.(locX := b.locX + dx, locY := b.locY + dy)]);
      }
      i := i + 1;
    }
    assert ids[..|ids|] == ids;
  }

  /** The score loop of `moveSelected`. */
  method TranslateScores(st: EditorState, ids: seq<int>, dx: real, dy: real)
    modifies st`data
    ensures st.data == old(st.data).(scores := MoveEach(old(st.data.scores), ScoreKey, ids, TranslateScore(dx, dy)))
  {
    var i := 0;
    while i < |ids|
      invariant 0 <= i <= |ids|
      invariant st.data == old(st.data).(scores := MoveEach(old(st.data.scores), ScoreKey, ids[..i], TranslateScore(dx, dy)))
    {
      assert ids[..i + 1][..i] == ids[..i];
      var index := FindIndex(st.data.scores, ScoreKey, ids[i]);
      if index.Some? {
        var s := st.data.scores[index.value];
        assert TranslateScore(dx, dy)(s) == s.(locX := s.locX + dx, locY := s.locY + dy);
        st.data := st.data.(scores := st.data.scores[index.value := s.(locX := s.locX + dx, locY := s.locY + dy)]);
      }
      i := i + 1;
    }
    assert ids[..|ids|] == ids;
  }

  /** The marks of `moveSelected`, inside its transaction. */
  method MoveMarked(st: EditorState, um: UndoManager, bulbIds: seq<int>, scoreIds: seq<int>)
    requires um.Valid() && um.currentRecord.Some?
    modifies um`currentRecord
    ensures um.Valid()
    ensures um.currentRecord == Some(MoveMarks(old(um.currentRecord).value, st.data, bulbIds, scoreIds))
  {
    MarkBulbsForUndo(st, um, bulbIds);
    MarkScoresForUndo(st, um, scoreIds);
  }

  /**
   * `moveSelected(dx, dy, commit)`: with `commit` the move is its own
   * transaction; without it (a drag in progress) the document is only
   * marked dirty.
   */
  method MoveSelected(st: EditorState, um: UndoManager, dx: real, dy: real, commit: bool)
    requires um.Valid()
    modifies st`data, st`isDirty, um
    ensures um.Valid() && um.transactionDepth == old(um.transactionDepth)
    ensures old(st.selectedBulbIds) == [] && old(st.selectedScoreIds) == [] ==>
      st.data == old(st.data) && st.isDirty == old(st.isDirty) && um.currentRecord == old(um.currentRecord)
      && um.undoStack == old(um.undoStack) && um.redoStack == old(um.redoStack)
    ensures old(st.selectedBulbIds) != [] || old(st.selectedScoreIds) != [] ==>
      st.data == MoveIn(old(st.data), st.selectedBulbIds, st.selectedScoreIds, dx, dy)
    ensures (old(st.selectedBulbIds) != [] || old(st.selectedScoreIds) != []) && !commit ==>
      st.isDirty && um.undoStack == old(um.undoStack) && um.redoStack == old(um.redoStack)
      && um.currentRecord == old(um.currentRecord)
    ensures (old(st.selectedBulbIds) != [] || old(st.selectedScoreIds) != []) && commit && old(um.transactionDepth) == 0 ==>
      var r := MoveRecord(old(st.data), st.selectedBulbIds, st.selectedScoreIds);
      um.undoStack == Committed(old(um.undoStack), r, st.data)
      && um.redoStack == CommittedRedo(old(um.redoStack), r) && st.isDirty == CommittedDirty(old(st.isDirty), r)
    ensures (old(st.selectedBulbIds) != [] || old(st.selectedScoreIds) != []) && commit && old(um.transactionDepth) > 0 ==>
      um.undoStack == old(um.undoStack) && um.redoStack == old(um.redoStack) && st.isDirty == old(st.isDirty)
      && um.currentRecord == Some(MoveMarks(old(um.currentRecord).value, old(st.data), st.selectedBulbIds, st.selectedScoreIds))
  {
    if |st.selectedBulbIds| == 0 && |st.selectedScoreIds| == 0 {
      return;
    }
    if commit {
      MoveUndoable(st, um, dx, dy);
    } else {
      TranslateBulbs(st, st.selectedBulbIds, dx, dy);
      TranslateScores(st, st.selectedScoreIds, dx, dy);
      st.MarkDirty();
    }
  }

  /** The "Move" transaction of `moveSelected` with `commit`. */
  method MoveUndoable(st: EditorState, um: UndoManager, dx: real, dy: real)
    requires um.Valid()
    modifies st`data, st`isDirty, um
    ensures um.Valid() && um.transactionDepth == old(um.transactionDepth)
    ensures st.data == MoveIn(old(st.data), st.selectedBulbIds, st.selectedScoreIds, dx, dy)
    ensures old(um.transactionDepth) == 0 ==>
      var r := MoveRecord(old(st.data), st.selectedBulbIds, st.selectedScoreIds);
      um.undoStack == Committed(old(um.undoStack), r, st.data)
      && um.redoStack == CommittedRedo(old(um.redoStack), r) && st.isDirty == CommittedDirty(old(st.isDirty), r)
    ensures old(um.transactionDepth) > 0 ==>
      um.undoStack == old(um.undoStack) && um.redoStack == old(um.redoStack) && st.isDirty == old(st.isDirty)
      && um.currentRecord == Some(MoveMarks(old(um.currentRecord).value, old(st.data), st.selectedBulbIds, st.selectedScoreIds))
  {
    ghost var start := st.data;
    um.BeginUndo("Move");
    MoveMarked(st, um, st.selectedBulbIds, st.selectedScoreIds);
    TranslateBulbs(st, st.selectedBulbIds, dx, dy);
    TranslateScores(st, st.selectedScoreIds, dx, dy);
    assert old(um.transactionDepth) == 0 ==> um.currentRecord == Some(MoveRecord(start, st.selectedBulbIds, st.selectedScoreIds));
    um.EndUndo(st);
  }

  /** The size change of `resizeItem` on the bulb found, if any. */
  method ResizeFoundBulb(st: EditorState, id: int, position: string, dx: real, dy: real)
    modifies st`data
    ensures st.data == ResizeIn(old(st.data), BulbSelection, id, position, dx, dy)
  {
    var index := FindIndex(st.data.illumination, BulbKey, id);
    if index.Some? {
      var b := st.data.illumination[index.value];
      var r := ClampSize(HandleBox(position, BulbBox(b), dx, dy));
      assert ResizeBulb(position, dx, dy)(b) == b.(locX := r.x, locY := r.y, width := r.w, height := r.h);
      st.data := st.data.(illumination := st.data.illumination[index.value :=
        b.(locX := r.x, locY := r.y, width := r.w, height := r.h)]);
    }
  }

  /** The size change of `resizeItem` on the score found, if any. */
  method ResizeFoundScore(st: EditorState, id: int, position: string, dx: real, dy: real)
    modifies st`data
    ensures st.data == ResizeIn(old(st.data), ScoreSelection, id, position, dx, dy)
  {
    var index := FindIndex(st.data.scores, ScoreKey, id);
    if index.Some? {
      var s := st.data.scores[index.value];
      var r := ClampSize(HandleBox(position, ScoreBox(s), dx, dy));
      assert ResizeScore(position, dx, dy)(s) == s.(locX := r.x, locY := r.y, width := r.w, height := r.h);
      st.data := st.data.(scores := st.data.scores[index.value :=
        s.(locX := r.x, locY := r.y, width := r.w, height := r.h)]);
    }
  }

  /** The size change of `resizeItem`. */
  method ResizeFound(st: EditorState, kind: SelectionType, id: int, position: string, dx: real, dy: real)
    modifies st`data
    ensures st.data == ResizeIn(old(st.data), kind, id, position, dx, dy)
  {
    if kind == BulbSelection {
      ResizeFoundBulb(st, id, position, dx, dy);
    } else {
      ResizeFoundScore(st, id, position, dx, dy);
    }
  }

  /** Whether `resizeItem` finds its item. */
  function ItemExists(d: Document, kind: SelectionType, id: int): bool
  {
    if kind == BulbSelection then HasKey(d.illumination, BulbKey, id) else HasKey(d.scores, ScoreKey, id)
  }

  /**
   * `resizeItem(type, id, position, dx, dy, commit)` as written: with
   * `commit` and no such item, it returns after `beginUndo` without the
   * matching `endUndo`, so the transaction stays open.
   */
  method ResizeItem(st: EditorState, um: UndoManager, kind: SelectionType, id: int, position: string,
                    dx: real, dy: real, commit: bool)
    requires um.Valid()
    modifies st`data, st`isDirty, um
    ensures um.Valid()
    ensures !ItemExists(old(st.data), kind, id) ==> st.data == old(st.data) && st.isDirty == old(st.isDirty)
    ensures !ItemExists(old(st.data), kind, id) && commit ==> um.transactionDepth == old(um.transactionDepth) + 1
    ensures ItemExists(old(st.data), kind, id) ==>
      st.data == ResizeIn(old(st.data), kind, id, position, dx, dy) && um.transactionDepth == old(um.transactionDepth)
    ensures !commit ==>
      um.undoStack == old(um.undoStack) && um.redoStack == old(um.redoStack)
      && um.currentRecord == old(um.currentRecord) && um.transactionDepth == old(um.transactionDepth)
    ensures ItemExists(old(st.data), kind, id) && !commit ==> st.isDirty
    ensures ItemExists(old(st.data), kind, id) && commit && old(um.transactionDepth) == 0 ==>
      var r := ResizeRecord(old(st.data), kind, id);
      um.undoStack == Committed(old(um.undoStack), r, st.data)
      && um.redoStack == CommittedRedo(old(um.redoStack), r) && st.isDirty == CommittedDirty(old(st.isDirty), r)
    ensures ItemExists(old(st.data), kind, id) && commit && old(um.transactionDepth) > 0 ==>
      um.undoStack == old(um.undoStack) && um.redoStack == old(um.redoStack) && st.isDirty == old(st.isDirty)
  {
    if commit {
      um.BeginUndo("Resize");
      MarkResizedItem(st, um, kind, id);
    }
    var found := ItemExists(st.data, kind, id);
    if !found {
      return;
    }
    ResizeFound(st, kind, id, position, dx, dy);
    if commit {
      um.EndUndo(st);
    } else {
      st.MarkDirty();
    }
  }

  /** The marks of a resize transaction: the one item resized. */
  method MarkResizedItem(st: EditorState, um: UndoManager, kind: SelectionType, id: int)
    requires um.Valid() && um.currentRecord.Some?
    modifies um`currentRecord
    ensures um.Valid()
    ensures old(um.currentRecord) == Some(CreateUndoRecord("Resize")) ==>
      um.currentRecord == Some(ResizeRecord(st.data, kind, id))
  {
    if kind == BulbSelection {
      um.MarkBulbForUndo(st, id);
      assert MarkEach([], st.data.illumination, BulbKey, [id]) == MarkForUndo([], id, st.GetBulbById(id));
    } else {
      um.MarkScoreForUndo(st, id);
      assert MarkEach([], st.data.scores, ScoreKey, [id]) == MarkForUndo([], id, st.GetScoreById(id));
    }
  }
  /**
   * `resizeItem` with the item looked up before the transaction opens: a
   * missing item leaves everything, the undo manager included, unchanged.
   */
  method ResizeItemChecked(st: EditorState, um: UndoManager, kind: SelectionType, id: int, position: string,
                           dx: real, dy: real, commit: bool)
    requires um.Valid()
    modifies st`data, st`isDirty, um
    ensures um.Valid() && um.transactionDepth == old(um.transactionDepth)
    ensures !ItemExists(old(st.data), kind, id) ==>
      st.data == old(st.data) && st.isDirty == old(st.isDirty) && um.currentRecord == old(um.currentRecord)
      && um.undoStack == old(um.undoStack) && um.redoStack == old(um.redoStack)
    ensures ItemExists(old(st.data), kind, id) ==> st.data == ResizeIn(old(st.data), kind, id, position, dx, dy)
    ensures ItemExists(old(st.data), kind, id) && !commit ==>
      st.isDirty && um.undoStack == old(um.undoStack) && um.redoStack == old(um.redoStack)
      && um.currentRecord == old(um.currentRecord)
    ensures ItemExists(old(st.data), kind, id) && commit && old(um.transactionDepth) == 0 ==>
      var r := ResizeRecord(old(st.data), kind, id);
      um.undoStack == Committed(old(um.undoStack), r, st.data)
      && um.redoStack == CommittedRedo(old(um.redoStack), r) && st.isDirty == CommittedDirty(old(st.isDirty), r)
    ensures ItemExists(old(st.data), kind, id) && commit && old(um.transactionDepth) > 0 ==>
      um.undoStack == old(um.undoStack) && um.redoStack == old(um.redoStack) && st.isDirty == old(st.isDirty)
  {
    var found := ItemExists(st.data, kind, id);
    if !found {
      return;
    }
    if commit {
      um.BeginUndo("Resize");
      MarkResizedItem(st, um, kind, id);
    }
    ResizeFound(st, kind, id, position, dx, dy);
    if commit {
      um.EndUndo(st);
    } else {
      st.MarkDirty();
    }
  }
}
