# vpx-b2s-designer: the backglass editor's document engine, in Dafny

This project models the core of vpx-b2s-designer, an editor for directB2S
backglass files (the bulbs, score displays, animations and images that
Visual Pinball shows on a second screen).  The core is the part of the
editor that changes the document and the part that can be stated without a
browser:

- the undo/redo transaction manager and its records (`undo_manager.dfy`,
  `undo_record.dfy`): nested transactions, first-mark snapshots, commit,
  the 100-record cap with its save point, and undo/redo applying one side
  of a record;
- the document operations (`object_operations.dfy`, `list_edits.dfy`):
  create, delete, duplicate, move and the eight-handle resize with its
  minimum size of 10, each proved undoable;
- the selection (`selection.dfy`) and the editor's state singleton
  (`state.dfy`);
- the canvas's mouse and keyboard handlers (`canvas_events.dfy`): the drag
  state machine, the one-unit threshold before a drag opens its undo
  transaction, the four click modes and the DMD copy area;
- the renderer's geometry and hit tests (`renderer.dfy`) and the editable
  parts (`parts.dfy`): resize handles, bulb and score hit tests, reel
  names, the seven-segment table;
- the properties panel (`properties_panel.dfy`) and the top-level editor
  operations (`editor_main.dfy`): lamp filter, image resize and brightness,
  click-mode toggles, tabs, saving and deleting animations;
- the format codecs (`parser.dfy`, `writer.dfy`, `document_writer.dfy`,
  `hex.dfy`): enum, colour and escape encoders with their decoders, and the
  writer's line list read back for the header and the animations;
- the smaller pieces: menu evaluation and accelerator formatting
  (`menu.dfy`), the callback registry (`callbacks.dfy`), the animation step
  editor (`animation_steps.dfy`), the brightness filter (`brightness.dfy`)
  and the path helpers (`paths.dfy`).

`data.dfy` holds the document's entities, and `text.dfy`, `numbers.dfy`
and `wrappers.dfy` hold the JavaScript string, number and optional-value
helpers the rest relies on.  The global `state` and `undoManager` objects
are classes (`EditorState`, `UndoManager`) whose methods update their
fields.  So are the drag state, the callback registry, the step editor and
the part registry.  Each such method is proved against a function on
values, and the properties the editor promises are proved about those
functions.  Coordinates are `real`, and `Math.round` is written out as
`Numbers.Round`.

## Model

| member | source | states |
|---|---|---|
| Data.RomIdTypeName | src/editor/main.ts:480-496 | every ROM id type's prefix is non-empty, does not start with the inverted marker 'I' and holds no '-' |
| Data.EmptyDocument | src/types/data.ts:191-232 | a new document has no bulbs, scores or animations, is an SS table without DMD for 4 players, and has no grill and no copy area |
| Data.DefaultBulb | src/types/data.ts:234-264 | a default bulb has the given id and name, sits at 100,100 with size 50x50, is a yellow backglass lamp and has no dodge colour |
| Data.DefaultScore | src/types/data.ts:266-288 | a default score is a backglass Dream7LED8 display for player 1 at 100,100 with size 200x50, with a dark colour and no lit colour |
| Data.FindIndex | src/editor/undo/undo-manager.ts:283-289 | findIndex returns the first position holding the key, and none exactly when no entry has the key |
| Data.Find | src/editor/state.ts:186-192 | find returns an entry with the key exactly when one exists |
| Data.FindUnique | src/editor/state.ts:186-192 | with unique keys, looking up an entry's key finds that entry |
| Data.FindIndexSameKeys | src/editor/undo/undo-manager.ts:283-289 | two lists whose keys agree position by position find every key at the same index |
| UndoRecords.CreateUndoRecord | src/editor/undo/undo-record.ts:35-48 | a new record carries the description, empty snapshot maps and no image, grill or DMD-area snapshots, so it holds no change |
| UndoRecords.CloneBulb | src/editor/undo/undo-record.ts:50-56 | a cloned bulb equals the original as a value, with a dodge colour exactly when the original has one |
| UndoRecords.CloneScore | src/editor/undo/undo-record.ts:58-65 | a cloned score equals the original as a value, with lit and dark colours exactly when the original has them |
| UndoRecords.CloneAnimation | src/editor/undo/undo-record.ts:67-72 | a cloned animation equals the original, step by step |
| UndoRecords.CloneImages | src/editor/undo/undo-record.ts:74-81 | cloned images equal the original collection, list by list, with the same thumbnail |
| UndoRecords.Put | src/editor/undo/undo-manager.ts:66-124 | setting a map key keeps keys distinct, keeps an existing key's position, appends a new key last, and maps the key to the new snapshot |
| UndoRecords.PutOther | src/editor/undo/undo-manager.ts:66-124 | setting one key leaves every other key's snapshot alone |
| UndoRecords.MarkForUndo | src/editor/undo/undo-manager.ts:66-75 | opening a before-snapshot keeps map keys distinct |
| UndoRecords.MarkForUndoKeepsFirst | src/editor/undo/undo-manager.ts:66-75 | the first before-snapshot of a key is kept and later marks change nothing; a new key gets the current value as before and no after; other keys are untouched |
| UndoRecords.ApplyEntryFind | src/editor/undo/undo-manager.ts:273-289 | one applied entry keeps keys unique, makes its own key find the target and leaves every other key's entity alone |
| UndoRecords.RemoveAtFind | src/editor/undo/undo-manager.ts:277-280 | splicing out an entity removes its key and keeps every other key's entity |
| UndoRecords.ReplaceAtFind | src/editor/undo/undo-manager.ts:282-283 | replacing an entity in place by one with the same key changes only that key's entity |
| UndoRecords.AppendFind | src/editor/undo/undo-manager.ts:284-285 | appending an entity with a new key adds that key and keeps every other key's entity |
| UndoRecords.ApplyEntriesFind | src/editor/undo/undo-manager.ts:272-321 | applying a whole snapshot map keeps keys unique; a key of the map finds its target (before on undo, after on redo) and every other key finds what it found before |
| UndoRecords.UndoThenRedoRestores | src/editor/undo/undo-manager.ts:244-270 | when every after-snapshot is what the list held for its key, undo then redo finds every key where it was |
| UndoRecords.UndoRestoresBeginning | src/editor/undo/undo-manager.ts:244-256 | when every before-snapshot is what the list held at the start and no unmarked key changed, undo finds every key where it was at the start |
| UndoRecords.Finalized | src/editor/undo/undo-manager.ts:203-218 | finalizing keeps each entry's key and before-snapshot and takes as after what the list holds for the key now |
| UndoRecords.FinalizedWellFormed | src/editor/undo/undo-manager.ts:203-218 | finalizing keeps map keys distinct and each snapshot keyed by its own key |
| Undo.PushCapped | src/editor/undo/undo-manager.ts:40-49 | pushing a record keeps the stack within 100 records, appending while below the cap and dropping the oldest at the cap |
| Undo.WithDmdArea | src/editor/undo/undo-manager.ts:335-342 | writing the six DMD-area fields makes the document's DMD area the given one |
| Undo.FinalizeRecord | src/editor/undo/undo-manager.ts:203-242 | finalizing keeps the description and every before-snapshot, so it keeps whether the record holds changes |
| Undo.FinalizeRecordWellFormed | src/editor/undo/undo-manager.ts:203-242 | finalizing keeps a record well formed |
| Undo.UndoThenRedoGivesBackContent | src/editor/undo/undo-manager.ts:244-343 | redo after undo of a record finalized against a document gives back that document's content: every id and name finds the same entity, and images, grill heights and DMD area are equal |
| Undo.UndoThenRedoGivesBackFields | src/editor/undo/undo-manager.ts:322-342 | undo then redo gives back every document field outside the entity lists |
| Undo.UndoThenRedoGivesBackLists | src/editor/undo/undo-manager.ts:272-321 | undo then redo makes every bulb id, score id and animation name find the entity it found before |
| Undo.UndoGivesBackStart | src/editor/undo/undo-manager.ts:15-57 | when every snapshot was taken before its entity changed and nothing unmarked changed, undoing the committed record gives back the content the document had when the transaction began |
| Undo.UndoGivesBackLists | src/editor/undo/undo-manager.ts:244-256 | undoing the committed record makes every id and name find the entity it found when the transaction began |
| Undo.UndoGivesBackBulbs | src/editor/undo/undo-manager.ts:272-288 | undo makes every bulb id find the bulb it found when the transaction began |
| Undo.UndoGivesBackScores | src/editor/undo/undo-manager.ts:290-305 | undo makes every score id find the score it found when the transaction began |
| Undo.UndoGivesBackAnimations | src/editor/undo/undo-manager.ts:307-321 | undo makes every animation name find the animation it found when the transaction began |
| Undo.MarkAll | src/editor/undo/undo-manager.ts:155-179 | marking all included entities keeps snapshot keys distinct |
| Undo.MarkAllLookup | src/editor/undo/undo-manager.ts:155-179 | after marking all, a key already marked keeps its snapshot, an included entity's key has the entity as before, and no other key is marked |
| Undo.MarkAllWellKeyed | src/editor/undo/undo-manager.ts:155-179 | marking all keeps each snapshot keyed by its own key |
| Undo.ApplySnapshots | src/editor/undo/undo-manager.ts:273-288 | the loop over one snapshot map computes the entries applied in insertion order |
| Undo.TakeAfterSnapshots | src/editor/undo/undo-manager.ts:206-219 | the loop over one snapshot map takes every after-snapshot from the list as it is now |
| Undo.UndoManager.constructor | src/editor/undo/undo-manager.ts:8-13 | a new manager has empty stacks, no open record, depth 0 and save point 0 |
| Undo.UndoManager.BeginUndo | src/editor/undo/undo-manager.ts:15-20 | the depth grows by one; only the outermost call opens a fresh record with the description |
| Undo.UndoManager.EndUndo | src/editor/undo/undo-manager.ts:22-57 | without an open transaction nothing changes; an inner level only counts down; closing the outermost level commits a record with changes (after-snapshots taken, pushed with the cap, redo stack emptied, save point following a dropped record, document dirty) and drops a record without changes |
| Undo.UndoManager.FinalizeSnapshots | src/editor/undo/undo-manager.ts:203-242 | the open record's after-snapshots are read from the document |
| Undo.UndoManager.CancelUndo | src/editor/undo/undo-manager.ts:59-64 | any open transaction is dropped at any depth without committing |
| Undo.UndoManager.MarkBulbForUndo | src/editor/undo/undo-manager.ts:66-75 | inside a transaction the bulb's current value becomes its before-snapshot unless it already has one |
| Undo.UndoManager.MarkBulbForCreate | src/editor/undo/undo-manager.ts:77-83 | inside a transaction the bulb id gets an empty snapshot, so undo removes it |
| Undo.UndoManager.MarkBulbForDelete | src/editor/undo/undo-manager.ts:85-94 | inside a transaction an existing bulb's current value replaces any earlier snapshot; a missing bulb changes nothing |
| Undo.UndoManager.MarkScoreForUndo | src/editor/undo/undo-manager.ts:96-105 | inside a transaction the score's current value becomes its before-snapshot unless it already has one |
| Undo.UndoManager.MarkScoreForCreate | src/editor/undo/undo-manager.ts:107-113 | inside a transaction the score id gets an empty snapshot, so undo removes it |
| Undo.UndoManager.MarkScoreForDelete | src/editor/undo/undo-manager.ts:115-124 | inside a transaction an existing score's current value replaces any earlier snapshot; a missing score changes nothing |
| Undo.UndoManager.MarkAnimationForUndo | src/editor/undo/undo-manager.ts:126-135 | inside a transaction the named animation, or its absence, becomes its before-snapshot unless one exists |
| Undo.UndoManager.MarkAnimationsForUndo | src/editor/undo/undo-manager.ts:137-147 | inside a transaction every existing animation not yet marked gets its before-snapshot |
| Undo.UndoManager.MarkImagesForUndo | src/editor/undo/undo-manager.ts:149-153 | inside a transaction the image collection is snapshotted once |
| Undo.UndoManager.MarkAllBulbsForUndo | src/editor/undo/undo-manager.ts:155-166 | inside a transaction every bulb of the parent (every bulb without one) not yet marked gets its before-snapshot |
| Undo.UndoManager.MarkAllScoresForUndo | src/editor/undo/undo-manager.ts:168-179 | inside a transaction every score of the parent (every score without one) not yet marked gets its before-snapshot |
| Undo.UndoManager.MarkGrillHeightsForUndo | src/editor/undo/undo-manager.ts:181-188 | inside a transaction both grill heights are snapshotted once |
| Undo.UndoManager.MarkDmdAreaForUndo | src/editor/undo/undo-manager.ts:190-201 | inside a transaction the six DMD location and copy-area fields are snapshotted once |
| Undo.UndoManager.Undo | src/editor/undo/undo-manager.ts:244-256 | undo succeeds exactly when the undo stack is not empty; it then moves the newest record to the redo stack, applies its before side and marks the document dirty; otherwise nothing changes |
| Undo.UndoManager.Redo | src/editor/undo/undo-manager.ts:258-270 | redo succeeds exactly when the redo stack is not empty; it then moves the newest record to the undo stack, applies its after side and marks the document dirty; otherwise nothing changes |
| Undo.UndoManager.ApplyRecord | src/editor/undo/undo-manager.ts:272-343 | applying a record updates the document as the record's before or after side says |
| Undo.UndoManager.CanUndo | src/editor/undo/undo-manager.ts:345-347 | undo is possible exactly when the undo stack is not empty |
| Undo.UndoManager.CanRedo | src/editor/undo/undo-manager.ts:349-351 | redo is possible exactly when the redo stack is not empty |
| Undo.UndoManager.GetUndoDescription | src/editor/undo/undo-manager.ts:353-356 | the undo description is the newest undo record's, and null exactly when there is none |
| Undo.UndoManager.GetRedoDescription | src/editor/undo/undo-manager.ts:358-361 | the redo description is the newest redo record's, and null exactly when there is none |
| Undo.UndoManager.GetUndoStack | src/editor/undo/undo-manager.ts:363-365 | the listed descriptions are the undo records', oldest first |
| Undo.UndoManager.Clear | src/editor/undo/undo-manager.ts:367-374 | all history, any open transaction and the save point are reset |
| Undo.UndoManager.SetSavePoint | src/editor/undo/undo-manager.ts:376-378 | the save point becomes the current undo depth |
| Undo.UndoManager.IsAtSavePoint | src/editor/undo/undo-manager.ts:380-382 | the document is at its save point exactly when the undo depth equals the save point |
| ListEdits.FindAppend | src/editor/state.ts:186-188 | appending entities with other keys does not change what a key finds |
| ListEdits.FindSameWhereKey | src/editor/state.ts:186-188 | two lists with the same keys that agree wherever the key is k find the same entity for k |
| ListEdits.Unselected | src/editor/object-operations.ts:84 | the filter keeps no selected entity and never grows the list |
| ListEdits.UnselectedMembers | src/editor/object-operations.ts:84 | an entity survives the filter exactly when it was in the list and its key is not selected |
| ListEdits.UnselectedAppend | src/editor/object-operations.ts:84 | filtering keeps the surviving entities in their order |
| ListEdits.FindUnselected | src/editor/object-operations.ts:84-89 | after the filter a selected key finds nothing and any other key finds what it found before |
| ListEdits.UnselectedUnique | src/editor/object-operations.ts:84-89 | filtering keeps keys unique |
| ListEdits.MoveFirst | src/editor/object-operations.ts:187-193 | updating the entity a lookup returns keeps the list's length |
| ListEdits.MoveEach | src/editor/object-operations.ts:187-201 | updating once per selected key keeps the list's length |
| ListEdits.MoveEachKeys | src/editor/object-operations.ts:187-201 | moving keeps every entity's key in place |
| ListEdits.MoveEachPointwise | src/editor/object-operations.ts:187-201 | with unique keys and no repeated id, each selected entity is moved exactly once and every other entity is left alone |
| ListEdits.FindMoveEach | src/editor/object-operations.ts:187-201 | an unselected key finds the same entity after the move |
| ListEdits.MoveEachUnique | src/editor/object-operations.ts:187-201 | moving keeps keys unique |
| ListEdits.DuplicateEachSnoc | src/editor/object-operations.ts:108-126 | one more selected id appends a copy, under the next id, of the entity that id then finds, or changes nothing when it finds none |
| ListEdits.DuplicateEachShape | src/editor/object-operations.ts:108-145 | the originals stay in front in order, one copy follows per new id, and the new ids are consecutive from the counter's old value |
| ListEdits.DuplicateEachUnique | src/editor/object-operations.ts:108-145 | when the counter exceeds every key, duplicating keeps keys unique |
| ListEdits.FindDuplicateEach | src/editor/object-operations.ts:108-145 | a key that is not a new id finds what it found before duplicating |
| ListEdits.PutEntries | src/editor/undo/undo-manager.ts:66-124 | each entry after a snapshot update is an old entry or the new one, and the keys are the old keys plus the new one |
| ListEdits.PutCaptured | src/editor/undo/undo-manager.ts:66-124 | recording a snapshot read from the list keeps every before-snapshot read from the list and keyed by its key |
| ListEdits.MarkDeletes | src/editor/undo/undo-manager.ts:85-94 | marking deletes keeps snapshot keys distinct |
| ListEdits.MarkDeletesSpec | src/editor/undo/undo-manager.ts:85-94 | marking deletes records exactly the selected keys that exist, each before-snapshot read from the list |
| ListEdits.MarkEach | src/editor/undo/undo-manager.ts:66-75 | marking for undo keeps snapshot keys distinct |
| ListEdits.MarkEachSnoc | src/editor/undo/undo-manager.ts:66-75 | marking one more key marks it after the earlier ones, keeping a key's first snapshot |
| ListEdits.MarkEachSpec | src/editor/undo/undo-manager.ts:66-75 | marking for undo records every selected key, each before-snapshot read from the list |
| ListEdits.MarkCreates | src/editor/undo/undo-manager.ts:77-83 | marking creates keeps snapshot keys distinct |
| ListEdits.MarkCreatesSnoc | src/editor/undo/undo-manager.ts:77-83 | marking one more created id puts an empty snapshot for it |
| ListEdits.MarkCreatesSpec | src/editor/undo/undo-manager.ts:77-83 | marking creates of ids not in the list records exactly those ids, with no before-snapshot |
| ObjectOperations.NewBulb | src/editor/object-operations.ts:9-19 | a new bulb is the default bulb named Bulb<id>, placed at the given position or on a grid of five per row, 60 apart, counted by the number of bulbs |
| ObjectOperations.NewScore | src/editor/object-operations.ts:34-52 | a new score has the id as player number and the active tab's parent, is a seven-digit Dream7LED8 display of size 200x50 with a dark colour and no lit colour, and defaults to x 200 and one row of 50 per existing score |
| ObjectOperations.BulbCopy | src/editor/object-operations.ts:111-120 | a bulb copy has the new id, the name with '_copy' appended, the position offset by 20 in both directions, and every other field of the original |
| ObjectOperations.ScoreCopy | src/editor/object-operations.ts:131-140 | a score copy has the new id, the position offset by 20 in both directions, and every other field of the original |
| ObjectOperations.HandleBox | src/editor/object-operations.ts:230-272 | each handle moves exactly the edges it names by the drag and holds the opposite edges; an unknown handle changes nothing |
| ObjectOperations.ClampSize | src/editor/object-operations.ts:274-275 | the size is raised to at least 10 in each direction, a size already at least 10 is kept, and the position is kept |
| ObjectOperations.UndoDelete | src/editor/object-operations.ts:72-97 | undoing a delete gives back the document's content: every deleted entity returns by id and nothing else changes |
| ObjectOperations.UndoMove | src/editor/object-operations.ts:171-208 | undoing a move gives back the document's content: every moved entity returns to its place |
| ObjectOperations.UndoResize | src/editor/object-operations.ts:210-281 | undoing a resize gives back the document's content: the entity's position and size return |
| ObjectOperations.NewIdsFresh | src/editor/object-operations.ts:108-145 | the ids of the copies are absent from a list whose ids are all below the counter |
| ObjectOperations.UndoDuplicate | src/editor/object-operations.ts:99-169 | undoing a duplicate removes every copy and nothing else, when the counters exceed every id in use |
| ObjectOperations.UndoCreateBulb | src/editor/object-operations.ts:9-32 | undoing a create removes the new bulb and gives back the document's content |
| ObjectOperations.UndoCreateScore | src/editor/object-operations.ts:34-70 | undoing a create removes the new score and gives back the document's content |
| ObjectOperations.MoveTranslatesSelected | src/editor/object-operations.ts:171-208 | after a move of distinct selected ids, exactly the selected entities are translated by the drag and the others are unchanged |
| ObjectOperations.DuplicateSelectsCopies | src/editor/object-operations.ts:150-158 | the copies are selected afterwards in the order they were made |
| ObjectOperations.CreateBulb | src/editor/object-operations.ts:9-32 | the next bulb id is used and incremented, the new bulb is appended, it alone becomes selected, and at depth 0 an 'Add Bulb' record that undo turns into a removal is committed; inside an open transaction the depth, both stacks and the dirty flag stay, and the open record marks the new id as created |
| ObjectOperations.AddBulbUndoable | src/editor/object-operations.ts:21-24 | the bulb is appended inside one transaction whose record marks it as created; at depth 0 that record is committed and redo emptied; inside an open transaction the stacks and the dirty flag stay and the open record gains the created mark (`CreateMarks`) |
| ObjectOperations.CreateScore | src/editor/object-operations.ts:34-70 | the next score id is used and incremented, the new score is appended on the active tab's parent, it alone becomes selected, and at depth 0 an 'Add Score' record is committed; inside an open transaction the depth, both stacks and the dirty flag stay, and the open record marks the new id as created |
| ObjectOperations.AddScoreUndoable | src/editor/object-operations.ts:58-61 | the score is appended inside one transaction whose record marks it as created; at depth 0 that record is committed and redo emptied; inside an open transaction the stacks and the dirty flag stay and the open record gains the created mark (`CreateMarks`) |
| ObjectOperations.MarkBulbsForDelete | src/editor/object-operations.ts:81-83 | each selected bulb that exists is marked for deletion with its current value |
| ObjectOperations.MarkScoresForDelete | src/editor/object-operations.ts:86-88 | each selected score that exists is marked for deletion with its current value |
| ObjectOperations.DeleteMarked | src/editor/object-operations.ts:81-89 | the selected entities are marked with their current values and then filtered out of both lists |
| ObjectOperations.DeleteSelected | src/editor/object-operations.ts:72-97 | an empty selection changes nothing; otherwise the selected bulbs and scores are removed and the selection is cleared; at depth 0 the delete record, when it marked something, is pushed, the redo stack emptied and the document marked dirty; inside a transaction the stacks and the dirty flag are untouched and the open record gains the delete marks of the selected entities |
| ObjectOperations.DeleteUndoable | src/editor/object-operations.ts:75-91 | the delete happens inside one transaction whose record holds the deleted entities; at depth 0 a record with changes is pushed, empties the redo stack and marks the document dirty; inside a transaction the stacks and the dirty flag are untouched and the open record gains the delete marks of the deleted entities |
| ObjectOperations.DuplicateBulb | src/editor/object-operations.ts:108-124 | a selected id that finds a bulb appends its copy under the next id, increments the counter and marks the copy as created; an id that finds nothing changes nothing |
| ObjectOperations.DuplicateBulbs | src/editor/object-operations.ts:108-125 | the bulb loop gives the duplicated list, counter and new ids, and marks exactly the new ids as created |
| ObjectOperations.DuplicateScore | src/editor/object-operations.ts:127-144 | a selected id that finds a score appends its copy under the next id, increments the counter and marks the copy as created; an id that finds nothing changes nothing |
| ObjectOperations.DuplicateScores | src/editor/object-operations.ts:127-145 | the score loop gives the duplicated list, counter and new ids, and marks exactly the new ids as created |
| ObjectOperations.DuplicateMarked | src/editor/object-operations.ts:108-145 | both loops together give the duplicated lists and counters and mark every copy as created |
| ObjectOperations.SelectCopies | src/editor/object-operations.ts:149-163 | the copies become the selection, and the primary is the first new bulb, else the first new score, else unchanged |
| ObjectOperations.DuplicateSelected | src/editor/object-operations.ts:99-169 | an empty selection changes nothing; otherwise each selected entity still present is copied under a new id and the copies replace the selection; at depth 0 the duplicate record, when it created something, is pushed, the redo stack emptied and the document marked dirty; inside a transaction the stacks and the dirty flag are untouched and the open record gains a created mark for every copy (`CreateMarks`) |
| ObjectOperations.DuplicateUndoable | src/editor/object-operations.ts:106-147 | the duplication happens inside one transaction; at depth 0 a record with changes is pushed, empties the redo stack and marks the document dirty; inside a transaction the stacks and the dirty flag are untouched and the open record gains a created mark for every copy (`CreateMarks`) |
| ObjectOperations.MarkBulbsForUndo | src/editor/object-operations.ts:176-178 | each selected bulb gets its current value as before-snapshot, the first one kept |
| ObjectOperations.MarkScoresForUndo | src/editor/object-operations.ts:179-181 | each selected score gets its current value as before-snapshot, the first one kept |
| ObjectOperations.TranslateBulbs | src/editor/object-operations.ts:184-190 | each selected id moves the first bulb with that id by the drag |
| ObjectOperations.TranslateScores | src/editor/object-operations.ts:192-198 | each selected id moves the first score with that id by the drag |
| ObjectOperations.MoveMarked | src/editor/object-operations.ts:174-182 | the move transaction marks every selected bulb and score |
| ObjectOperations.MoveSelected | src/editor/object-operations.ts:171-208 | an empty selection changes nothing; otherwise the selected entities move by the drag; with commit at depth 0 the move record is pushed, the redo stack emptied and the document marked dirty; with commit inside a transaction the open record keeps a first snapshot of every selected entity (`MoveMarks`) and the stacks are untouched; without commit only the document is marked dirty and the history is untouched |
| ObjectOperations.MoveUndoable | src/editor/object-operations.ts:174-201 | with commit, the move happens inside one "Move" transaction whose record holds the selected entities before the move; at depth 0 a record with changes is pushed, empties the redo stack and marks the document dirty; inside a transaction the stacks and the dirty flag are untouched and the open record keeps a first snapshot of every selected entity (`MoveMarks`) |
| ObjectOperations.ResizeFoundBulb | src/editor/object-operations.ts:227-275 | the bulb the id finds, if any, takes the handle's new box clamped to the minimum size |
| ObjectOperations.ResizeFoundScore | src/editor/object-operations.ts:227-275 | the score the id finds, if any, takes the handle's new box clamped to the minimum size |
| ObjectOperations.ResizeFound | src/editor/object-operations.ts:227-275 | the entity the kind and id find, if any, takes the handle's new box clamped to the minimum size |
| ObjectOperations.ResizeItem | src/editor/object-operations.ts:210-281 | as written: an existing item is resized; without commit the history is untouched and the document is dirty; with commit at depth 0 the resize record is pushed, the redo stack emptied and the document marked dirty; with commit and a missing item the transaction depth stays one higher |
| ObjectOperations.MarkResizedItem | src/editor/object-operations.ts:218-225 | a fresh resize record marks exactly the one resized item |
| ObjectOperations.ResizeItemChecked | src/editor/object-operations.ts:210-281 | a missing item leaves the document and the undo manager unchanged; an existing item is resized; with commit at depth 0 the resize record is pushed, the redo stack emptied and the document marked dirty; without commit only the document is marked dirty |
| State.AddId | src/editor/selection.ts:9 | Set.add makes the id a member, keeps the other members in order, and adds no duplicate |
| State.RemoveId | src/editor/selection.ts:25 | Set.delete removes exactly the id and keeps the others without duplicates |
| State.AddAll | src/editor/selection.ts:48-53 | adding a list of ids makes exactly them members in addition to the old ones, keeps the old order in front and adds no duplicate |
| State.AddAllDistinct | src/editor/selection.ts:108-113 | adding distinct new ids keeps them in the order given |
| State.SelectedItems | src/editor/state.ts:194-200 | the selected entities are exactly the list's entities whose id is selected |
| State.SelectedItemsAppend | src/editor/state.ts:194-200 | the selected entities keep document order |
| State.MaxKey | src/editor/state.ts:212 | Math.max over the ids is an id of the list and no id exceeds it |
| State.NextId | src/editor/state.ts:210-221 | the next id exceeds every id in use, is 1 for an empty list, and is otherwise one past an id in use |
| State.EditorState.constructor | src/editor/state.ts:70-115 | the singleton starts with an empty clean unnamed document, zoom 1 and no pan on the backglass tab, nothing selected, the 'all' lamp filter, both counters at 1 and no special click mode |
| State.EditorState.ResetState | src/editor/state.ts:141-170 | reset gives an empty clean unnamed document, zoom 1 and no pan on the backglass tab, no selection or images, the 'all' lamp filter, counters at 1, scoring shown and every overlay and click mode off; the panning state is left as it was |
| State.EditorState.MarkDirty | src/editor/state.ts:172-177 | the document is marked dirty |
| State.EditorState.GetBulbById | src/editor/state.ts:186-188 | the bulb found carries the id and is the first bulb with it, and none is found exactly when no bulb has it |
| State.EditorState.GetScoreById | src/editor/state.ts:190-192 | the score found carries the id and is the first score with it, and none is found exactly when no score has it |
| State.EditorState.GetSelectedBulbs | src/editor/state.ts:194-196 | the selected bulbs are exactly the document's bulbs whose id is selected |
| State.EditorState.GetSelectedScores | src/editor/state.ts:198-200 | the selected scores are exactly the document's scores whose id is selected |
| State.EditorState.GetPrimarySelectedItem | src/editor/state.ts:202-208 | the primary item is the bulb or score the primary selection names, and none when there is no primary or the entity is gone |
| State.EditorState.UpdateNextIds | src/editor/state.ts:210-221 | both counters move one past the largest id in use, or to 1 for an empty list |
| Selection.FirstPrimary | src/editor/selection.ts:89-99 | the recomputed primary is the first selected bulb, else the first selected score, else none, and it is consistent with the sets |
| Selection.Select | src/editor/selection.ts:4-22 | selecting makes the id the primary and a member, keeps the old members only when adding, and keeps the sets duplicate-free |
| Selection.Deselect | src/editor/selection.ts:24-38 | deselecting removes exactly the id, keeps the primary unless it was the id, and then recomputes it consistently |
| Selection.Toggle | src/editor/selection.ts:73-87 | toggling flips exactly the id's membership and keeps the selection consistent and duplicate-free |
| Selection.ToggleTwice | src/editor/selection.ts:73-87 | toggling the same id twice gives back the same members |
| Selection.Cleared | src/editor/selection.ts:40-45 | after clearing nothing is selected and there is no primary |
| Selection.Ids | src/editor/selection.ts:48-53 | the ids of a list are its entities' keys in list order |
| Selection.SelectAllOf | src/editor/selection.ts:47-56 | select all adds every bulb and score id of the document, keeps the old members, adds nothing else, and recomputes a consistent primary |
| Selection.AddAllIds | src/editor/selection.ts:48-53 | adding the ids of a list adds every entity's key and nothing else |
| Selection.SetSel | src/editor/selection.ts:101-120 | the sets become exactly the given ids without duplicates, and the primary is the given one or a consistent recomputed one |
| Selection.SetSelKeepsOrder | src/editor/selection.ts:108-113 | ids given without repeats keep their order |
| Selection.SelectBulb | src/editor/selection.ts:4-12 | the state's selection becomes the selection with the bulb selected |
| Selection.SelectScore | src/editor/selection.ts:14-22 | the state's selection becomes the selection with the score selected |
| Selection.UpdatePrimarySelection | src/editor/selection.ts:89-99 | the primary becomes the first selected bulb, else the first selected score, else none |
| Selection.DeselectBulb | src/editor/selection.ts:24-30 | the state's selection becomes the selection with the bulb deselected |
| Selection.DeselectScore | src/editor/selection.ts:32-38 | the state's selection becomes the selection with the score deselected |
| Selection.ClearSelection | src/editor/selection.ts:40-45 | the state's selection becomes empty |
| Selection.AddEach | src/editor/selection.ts:48-53 | the Set.add loop computes the ids added in turn |
| Selection.SelectAll | src/editor/selection.ts:47-56 | the state's selection becomes the select-all selection of the document |
| Selection.HasSelection | src/editor/selection.ts:58-60 | there is a selection exactly when some id is selected, which for a consistent selection is exactly when there is a primary |
| Selection.GetSelectionCount | src/editor/selection.ts:62-64 | the count is zero exactly when nothing is selected |
| Selection.ToggleSelection | src/editor/selection.ts:73-87 | the state's selection becomes the toggled selection |
| Selection.SetSelection | src/editor/selection.ts:101-120 | the state's selection becomes exactly the given sets and primary |
| CanvasEvents.DragState.constructor | src/editor/canvas-events.ts:39-54 | the drag state starts with no drag, no transaction started, every point at the origin, no resize target, no saved positions and no copy-area handle or original |
| CanvasEvents.DragState.Reset | src/editor/canvas-events.ts:510-519 | after a reset there is no drag, no transaction started, no resize target, no saved positions and no copy-area handle or original |
| CanvasEvents.AfterDown | src/editor/canvas-events.ts:82-116 | a mouse-down never changes the transaction depth; starting a resize or a move clears `undoStarted`, starting a pan keeps it, and a click that starts no drag leaves the phase as it was |
| CanvasEvents.AfterUp | src/editor/canvas-events.ts:323-349 | a mouse-up always ends the drag; it closes exactly one transaction when the drag records and its transaction started, and otherwise none |
| CanvasEvents.AfterMove | src/editor/canvas-events.ts:164-217 | a move never changes the drag mode; only the first step of a recording drag past the threshold opens a transaction (depth one more) |
| CanvasEvents.StepCheckedBalanced | src/editor/canvas-events.ts:70-355 | with the corrected mouse-down, each canvas event keeps the transaction depth equal to what the drag accounts for |
| CanvasEvents.RunCheckedBalanced | src/editor/canvas-events.ts:70-355 | with the corrected mouse-down, any sequence of canvas events keeps the depth balanced, so no transaction is open whenever no drag is on |
| CanvasEvents.SurplusNeverShrinks | src/editor/canvas-events.ts:70-355 | as written, no sequence of canvas events ever closes a transaction the current drag does not account for, so a leaked transaction stays open for good |
| CanvasEvents.PanDuringMoveLeaksTransaction | src/editor/canvas-events.ts:82-89 | as written, press for a move, drag past the threshold, press the middle button and release leaves no drag but one transaction open, and no later events close it |
| CanvasEvents.PanDuringMoveChecked | src/editor/canvas-events.ts:323-349 | the same four events with the corrected mouse-down end with no drag and no open transaction |
| CanvasEvents.ClickAsWrittenSelectsOnlyHit | src/editor/canvas-events.ts:119-130 | as written, a click without shift on an item leaves exactly that item selected, whatever was selected before |
| CanvasEvents.ClickAsWrittenCollapsesGroup | src/editor/canvas-events.ts:119-130 | as written, pressing on bulb 1 while bulbs 1 and 2 are selected deselects bulb 2, so the drag moves only bulb 1 |
| CanvasEvents.ClickSelect | src/editor/canvas-events.ts:119-130 | the clicked item is selected and primary; with shift or on an item already selected every other selected item stays, otherwise the clicked item is the only one; distinct ids stay distinct |
| CanvasEvents.ClickKeepsGroup | src/editor/canvas-events.ts:120-124 | clicking an item of the selection without shift leaves exactly the same items selected |
| CanvasEvents.SelectOnClick | src/editor/canvas-events.ts:120-130 | the editor's selection becomes `ClickSelect` of the old selection, the corrected click of the Findings row for canvas-events.ts:119-130 |
| CanvasEvents.GrillClickHeight | src/editor/canvas-events.ts:564-570 | a height is given only with a background image; it lies in 0..image height and is the image height minus the mouse's y rounded to the nearest integer; for a whole image height every mouse position inside the image gives one |
| CanvasEvents.GrillClickEdit | src/editor/canvas-events.ts:521-596 | a remove button zeroes its own height, keeping the other; a set height goes to the grill when that mode is on, else to the mini grill; an edit changes at most one height; there is no edit exactly when no button is hit and no height or mode applies |
| CanvasEvents.GrillRecord | src/editor/canvas-events.ts:525-526 | the record of a grill-height edit has changes and is well-formed |
| CanvasEvents.UndoGrillEdit | src/editor/canvas-events.ts:525-528 | undoing a grill-height edit restores the document and redoing it restores the edit |
| CanvasEvents.CommitGrillHeights | src/editor/canvas-events.ts:573-577 | the two heights are set, the document is dirty, and outside a transaction exactly one grill record is committed and the redo stack emptied; inside one the stacks are untouched |
| CanvasEvents.HandleGrillHeightClick | src/editor/canvas-events.ts:521-602 | without an edit nothing changes; with one the heights become the edit's, the document is dirty, the mouse height is cleared, the cursor resets, and at depth 0 one record is committed and the redo stack emptied; a remove ends both modes, a set ends its own mode |
| CanvasEvents.DmdAreaRecord | src/editor/canvas-events.ts:641-642 | the record of a DMD-area edit has changes and is well-formed |
| CanvasEvents.UndoDmdAreaEdit | src/editor/canvas-events.ts:641-645 | undoing a DMD-area edit restores the document and redoing it restores the edit |
| CanvasEvents.CommitDmdArea | src/editor/canvas-events.ts:658-663 | the DMD area is set, the document is dirty, and outside a transaction exactly one DMD-area record is committed and the redo stack emptied; inside one the stacks are untouched |
| CanvasEvents.DmdLocationEdit | src/editor/canvas-events.ts:640-661 | the copy area is kept; the remove button puts the default location at the origin, otherwise at the clicked point rounded to the nearest pixel |
| CanvasEvents.HandleDmdDefaultLocationClick | src/editor/canvas-events.ts:639-672 | the area becomes `DmdLocationEdit`, committed at depth 0 as one record described as a remove or a set, with the redo stack emptied; the document is dirty, the mode ends, both mouse positions are cleared and the cursor resets |
| CanvasEvents.CopiedDmd | src/editor/canvas-events.ts:697-711 | the only DMD image is named 'DMD from backglass' and holds the PNG data without its data-URL prefix; the default location moves to the copy area's corner; nothing else in the document changes |
| CanvasEvents.CopyDmdRecord | src/editor/canvas-events.ts:699-701 | the record of the copy has changes and is well-formed |
| CanvasEvents.UndoCopyDmd | src/editor/canvas-events.ts:699-713 | undoing the copy restores the document and redoing it restores the copy |
| CanvasEvents.CopyDmdFromBackglassArea | src/editor/canvas-events.ts:674-730 | with an empty area, no background image or no rendering context nothing changes; otherwise the document becomes `CopiedDmd` and is dirty, at depth 0 one record is committed and the redo stack emptied, the copy mode ends and the cursor resets |
| CanvasEvents.HandleDmdCopyAreaClick | src/editor/canvas-events.ts:604-637 | the camera copies the DMD; the inside starts a copy-area move drag with the move cursor; a handle starts a resize drag; either drag keeps the area as it is, and only the camera changes the document |
| CanvasEvents.BulbPositions | src/editor/canvas-events.ts:485-495 | the keys are exactly the selected ids that name a bulb, each mapped to that bulb's bounds |
| CanvasEvents.ScorePositions | src/editor/canvas-events.ts:497-507 | every selected id that names a score is present at id plus 10000 with that score's bounds |
| CanvasEvents.ScorePositionsKeys | src/editor/canvas-events.ts:497-507 | the score loop keeps every key already present and adds only selected ids plus 10000 |
| CanvasEvents.SaveBulbPositions | src/editor/canvas-events.ts:485-495 | the bulb loop computes `BulbPositions` |
| CanvasEvents.SaveScorePositions | src/editor/canvas-events.ts:497-507 | the score loop computes `ScorePositions` |
| CanvasEvents.ScorePositionsSnoc | src/editor/canvas-events.ts:497-507 | one more selected id adds its score's bounds at id plus 10000 when the score exists and nothing otherwise |
| CanvasEvents.SaveOriginalPositions | src/editor/canvas-events.ts:482-508 | the saved positions are those of the current selection, the old map cleared first |
| CanvasEvents.ItemAction | src/editor/canvas-events.ts:107-147 | a handle of a selected item starts a resize of that handle, else an item under the mouse starts a move, else the click clears; each exactly when its hit test says so |
| CanvasEvents.ModeAction | src/editor/canvas-events.ts:92-105 | a click in a click mode is a grill click, a copy-area click or a location click |
| CanvasEvents.DownActionOf | src/editor/canvas-events.ts:82-147 | the middle button or Alt with the left pans; any other button does nothing; the left button goes to the grill-height mode, else the copy-area mode with its hit, else the location mode, else to the items, each exactly when its condition holds |
| CanvasEvents.StartResizeDrag | src/editor/canvas-events.ts:108-115 | a resize drag of the hit handle's item starts with no transaction started, and the cursor is the handle's |
| CanvasEvents.StartMoveDrag | src/editor/canvas-events.ts:119-135 | the selection becomes the corrected `ClickSelect`, a move drag starts with no transaction started, the selection's positions are saved and the cursor is 'move' |
| CanvasEvents.PressOnItems | src/editor/canvas-events.ts:107-147 | the action is `ItemAction`; a resize keeps the selection, a move selects by the corrected `ClickSelect` and saves positions, empty space clears the selection |
| CanvasEvents.PressInMode | src/editor/canvas-events.ts:92-105 | the action is `ModeAction` and the drag phase follows `AfterDown`; the document, dirty flag, stacks and mode flags change as `ModeClicked` states: a grill click applies `GrillClickEdit` and a hit grill button turns both grill modes off; a location click applies `DmdLocationEdit` and ends its mode; a camera click copies `CopiedDmd` and ends copy mode; each is committed at depth 0 with the redo stack emptied; any other copy-area click leaves the document and the stacks alone |
| CanvasEvents.PressLeft | src/editor/canvas-events.ts:91-147 | a click mode takes a left click, else the items do (selecting by the corrected click); a click-mode action has the effects `ModeClicked` states; a resize or move start sets the handle or the original positions and the cursor; an empty click clears the selection; the item actions leave the document, dirty flag and undo history untouched |
| CanvasEvents.StartPanDrag | src/editor/canvas-events.ts:82-88 | a pan drag starts, the editor is panning, the pan start is the mouse minus the current pan, and the cursor is 'grabbing' |
| CanvasEvents.PressAt | src/editor/canvas-events.ts:82-147 | the action is `DownActionOf`, whose item actions select by the corrected click; a pan starts panning from the press with the grabbing cursor; a click-mode action has the effects `ModeClicked` states; a pan, an ignored button and the item actions leave the document, dirty flag and undo history untouched |
| CanvasEvents.Press | src/editor/canvas-events.ts:70-148 | the press point in screen and world coordinates becomes the start and last point, and the action is `DownActionOf` at that world point, whose item actions select by the corrected click; pan, resize, move and clear carry `PressAt`'s effects; a click-mode action has the effects `ModeClicked` states; the other actions leave the document, dirty flag and undo history untouched |
| CanvasEvents.PressFrom | src/editor/canvas-events.ts:74-147 | from a world point: the point becomes the start and last point and the action and its effects are those `PressAt` states |
| CanvasEvents.RecordPressPoint | src/editor/canvas-events.ts:74-80 | the start and last points are the press point |
| CanvasEvents.MouseUp | src/editor/canvas-events.ts:323-349 | the phase follows `AfterUp`; a started recording drag at depth one commits its record, which empties the redo stack and marks the document dirty when it holds changes; panning stops after a pan; the cursor resets after a pan or a recording drag; otherwise the history is untouched; the drag state is reset |
| CanvasEvents.MouseLeave | src/editor/canvas-events.ts:351-355 | leaving the canvas is the leave step of the phase machine; without a drag nothing changes; during one it ends the drag exactly as `MouseUp` does: the commit, the end of panning, the cursor and the reset drag state |
| CanvasEvents.MouseDown | src/editor/canvas-events.ts:70-148 | the corrected mouse-down: a drag in progress first ends as `MouseUp` ends it (`FinishedView`); the action is `DownActionOf` at the press point; the phase follows the checked step; a click-mode action then has the effects `ModeClicked` states over the finished view; pan, resize, move and clear carry `Press`'s effects; the other actions leave the finished document, dirty flag and stacks alone |
| CanvasEvents.FinishDrag | src/editor/canvas-events.ts:323-349 | the first step of the corrected mouse-down: a drag in progress ends as `MouseUp` ends it, with the commit that `FinishedView` describes, while the press point, the selection, the action and the click-mode inputs stay as they were |
| CanvasEvents.EndDrag | src/editor/canvas-events.ts:323-349 | with no drag nothing changes; otherwise the phase follows `AfterUp` and the document, dirty flag and stacks become the `FinishedView` of the commit |
| CanvasEvents.StartMoveUndo | src/editor/canvas-events.ts:168-177 | "Move" opens one transaction level whose record, outside another transaction, marks every selected bulb and score |
| CanvasEvents.MoveDragStep | src/editor/canvas-events.ts:164-185 | the phase follows `AfterMove`; once started the selection moves by the offset from the last applied point, which becomes the mouse; before that nothing changes; the first step's record marks the selection |
| CanvasEvents.MoveUncommitted | src/editor/canvas-events.ts:180 | inside the open transaction the selection moves by the offset, and the history is untouched |
| CanvasEvents.ResizeDragStep | src/editor/canvas-events.ts:187-207 | the phase follows `AfterMove`; once started the item is resized by the offset from the last applied point when it exists; the first step's record marks that item |
| CanvasEvents.StartResizeUndo | src/editor/canvas-events.ts:191-199 | "Resize" opens one transaction level whose record, outside another transaction, marks the dragged item |
| CanvasEvents.ResizeUncommitted | src/editor/canvas-events.ts:202 | inside the open transaction an existing item is resized by the offset, a missing one changes nothing, and the history is untouched |
| CanvasEvents.WithCopyArea | src/editor/canvas-events.ts:226-262 | the copy area becomes the given bounds and nothing but the DMD area changes; the default location is kept |
| CanvasEvents.MovedCopyArea | src/editor/canvas-events.ts:225-227 | a moved copy area keeps its size and its corner is the original corner plus the total offset, rounded to the nearest pixel |
| CanvasEvents.CopyAreaResizeBox | src/editor/canvas-events.ts:229-257 | the resized area is at least 10 by 10; a west or north handle holds the opposite edge, the others hold the corner; above the minimum it is exactly the handle's box |
| CanvasEvents.ResizedCopyArea | src/editor/canvas-events.ts:229-262 | after rounding the area is at least 10 by 10, the held edges stay within a pixel, and a size the handle does not touch is kept or raised to 10 |
| CanvasEvents.CopyAreaDragged | src/editor/canvas-events.ts:219-263 | only the DMD area changes: a move drag gives `MovedCopyArea`, a resize drag by a handle gives `ResizedCopyArea` |
| CanvasEvents.StartCopyAreaUndo | src/editor/canvas-events.ts:213-217 | one transaction level opens, described by the drag mode, whose record marks the DMD area |
| CanvasEvents.DmdCopyDragStep | src/editor/canvas-events.ts:209-270 | the phase follows `AfterMove`; once started the area is placed from the drag's original by the total offset from the press; before that nothing changes |
| CanvasEvents.PlaceCopyArea | src/editor/canvas-events.ts:219-266 | the document becomes `CopyAreaDragged` and the last point is the mouse |
| CanvasEvents.CopyHandleCursor | src/editor/canvas-events.ts:290-297 | each copy-area handle gets the same resize cursor as the item handle at that position |
| CanvasEvents.HoverCursor | src/editor/canvas-events.ts:272-319 | the cursor is 'pointer' exactly over a remove button in the grill or location mode and 'crosshair' elsewhere; in the copy mode it follows the area's hit; outside the modes a handle's cursor, 'pointer' over an item, 'default' elsewhere |
| CanvasEvents.Hover | src/editor/canvas-events.ts:272-320 | the cursor is `HoverCursor`; the grill mode keeps the mouse's y, the location mode both coordinates, and otherwise they are unchanged |
| CanvasEvents.MouseMove | src/editor/canvas-events.ts:150-321 | the phase follows `AfterMove`; a pan follows the mouse; without a drag the cursor is `HoverCursor`; once a recording drag has started, a move drag gives `MoveIn`, a resize drag `ResizeIn` and a copy-area drag `CopyAreaDragged`; before that and outside a recording drag the document is unchanged; the stacks are untouched |
| CanvasEvents.RecordingDragStep | src/editor/canvas-events.ts:164-270 | a step of a move, resize or copy-area drag follows `AfterMove` and leaves the stacks untouched; once started the document becomes `MoveIn`, `ResizeIn` or `CopyAreaDragged` and the last point is the mouse; before that nothing changes |
| CanvasEvents.WheelFactor | src/editor/canvas-events.ts:359 | scrolling down zooms out and any other scroll zooms in |
| CanvasEvents.Wheel | src/editor/canvas-events.ts:357-361 | the zoom is the clamped product with `WheelFactor`, and the world point under the mouse stays under it |
| CanvasEvents.EscapeAction | src/editor/canvas-events.ts:372-406 | Escape does something exactly when a click mode is on |
| CanvasEvents.ArrowNudge | src/editor/canvas-events.ts:459-479 | left and right move horizontally and up and down vertically, left and up negatively, by 10 with shift and 1 without |
| CanvasEvents.KeyActionOf | src/editor/canvas-events.ts:367-480 | keys in a text field are ignored; Escape leaves the first click mode on; Delete and Backspace delete a non-empty selection; Ctrl or Cmd with z undoes, with shift-z or y redoes, with a selects all; arrows nudge; each exactly when its condition holds |
| CanvasEvents.KeySelectAllOf | src/editor/canvas-events.ts:440-452 | every item is selected, as by select-all; the primary becomes the first bulb, else the first score, and an empty document leaves the selection as it was |
| CanvasEvents.SelectAllByKey | src/editor/canvas-events.ts:440-457 | the selection becomes `KeySelectAllOf` of the old selection |
| CanvasEvents.LeaveClickMode | src/editor/canvas-events.ts:372-406 | the action is `EscapeAction`; each exit turns its own mode off, clears its mouse positions and resets the cursor, and leaves the other modes alone |
| CanvasEvents.EditByKey | src/editor/canvas-events.ts:408-479 | delete removes the selection and clears it, committing one record at depth 0 that empties the redo stack and marks the document dirty, or inside a transaction marking the open record as `DeleteMarks` does; undo and redo move the top record between the stacks, apply it and mark the document dirty; select-all is `KeySelectAllOf`; an arrow moves a non-empty selection as one record committed the same way, or inside a transaction adds `MoveMarks` to the open record; otherwise nothing changes |
| CanvasEvents.KeyDown | src/editor/canvas-events.ts:367-480 | the action is `KeyActionOf`; each Escape exit ends its mode and leaves the document and the history alone; keys typed in a text field change nothing; every editing key has the effect `EditByKey` states: delete, undo, redo, select-all and the arrow nudge, with the open record's marks inside a transaction |
| Renderer.ClampZoom | src/editor/canvas-renderer.ts:709 | the zoom lies in [0.1, 10], is unchanged inside that range and is the nearer bound outside it |
| Renderer.ActiveImageDimensions | src/editor/canvas-renderer.ts:53-60 | the size of the DMD image on the DMD tab, of the backglass image otherwise, and 800x600 when that image is missing |
| Renderer.ScreenWorldInverse | src/editor/canvas-renderer.ts:439-471 | screenToWorld and worldToScreen are inverse to each other in both directions for any non-zero zoom |
| Renderer.SetZoom | src/editor/canvas-renderer.ts:708-711 | the zoom becomes the requested zoom clamped to the zoom range |
| Renderer.ZoomAtPoint | src/editor/canvas-renderer.ts:733-751 | the zoom is scaled by the factor and clamped, and the pan moves so that the world point under the given screen point stays under it |
| Renderer.UnitScreenToWorld | src/editor/canvas-renderer.ts:439-454 | with the backing store at the rectangle's size, screenToWorld only undoes pan and zoom |
| Renderer.ZoomIn | src/editor/canvas-renderer.ts:713-721 | the zoom is multiplied by 1.2 and clamped |
| Renderer.ZoomOut | src/editor/canvas-renderer.ts:723-731 | the zoom is divided by 1.2 and clamped |
| Renderer.FitScale | src/editor/canvas-renderer.ts:688-697 | the smaller of the two axis scales: the image fits inside the canvas less 40 pixels of padding and touches it on one axis |
| Renderer.ZoomToFit | src/editor/canvas-renderer.ts:679-706 | a canvas without area leaves the view alone; otherwise the zoom is the clamped fitting scale and the pan centres the image on the canvas |
| Renderer.FitFillsPaddedCanvas | src/editor/canvas-renderer.ts:679-706 | when the fitting scale is within the zoom range, the fitted image fills the padded canvas on one axis and stays inside it on the other |
| Renderer.RomFilterSelectsExactly | src/editor/canvas-renderer.ts:144-154 | a lamp-filter entry built by the dropdown (main.ts:535) shows exactly the bulbs with its ROM id type, ROM id and inversion |
| Renderer.RomFilterParts | src/editor/canvas-renderer.ts:144-154 | a filter `rom-[I]<type>-<digits>` shows exactly the bulbs with that type name, parsed number and inversion |
| Renderer.RomFilterDispatch | src/editor/canvas-renderer.ts:138-145 | a filter starting with `rom-` is none of the named filters, so its tail alone decides |
| Renderer.UnknownFilterShowsAll | src/editor/canvas-renderer.ts:156 | a filter that is none of the known ones shows every bulb |
| Renderer.TopmostHit | src/editor/canvas-renderer.ts:478-484 | the bulb found is hit and has the highest z-order of all hit bulbs, and no earlier hit bulb has that z-order (the stable descending sort); none exactly when no bulb is hit |
| Renderer.TopmostHitUnique | src/editor/canvas-renderer.ts:478-484 | those three properties single out one bulb, so the answer does not depend on how it was computed |
| Renderer.FirstScoreHit | src/editor/canvas-renderer.ts:486-492 | the first score in list order that is hit |
| Renderer.HitAt | src/editor/canvas-renderer.ts:473-495 | a bulb or score is reported only when it is hit and its frames are shown; with bulb frames shown, a hit bulb always wins over the scores; nothing is found exactly when no shown item is hit |
| Renderer.HitTestAtPoint | src/editor/canvas-renderer.ts:473-495 | the loops return what HitAt describes |
| Renderer.HitRadius | src/editor/canvas-renderer.ts:501 | half of 24 world units, or 12 screen pixels when zoomed out |
| Renderer.FirstNearHandle | src/editor/canvas-renderer.ts:510-516 | the first handle in list order within the hit radius of the point |
| Renderer.SelectedHandleHit | src/editor/canvas-renderer.ts:503-530 | the hit belongs to a selected id with an existing item, its handle is one of that item's and is near the point; none when no selected item has a near handle |
| Renderer.HandleHitAt | src/editor/canvas-renderer.ts:497-546 | only handles of selected items whose frames are shown are found, each near the point; with both frame kinds hidden nothing is found |
| Renderer.NearestHandle | src/editor/canvas-renderer.ts:510-516 | the handle loop returns FirstNearHandle |
| Renderer.SelectedHandleLoop | src/editor/canvas-renderer.ts:503-530 | the id loop returns SelectedHandleHit |
| Renderer.HitTestResizeHandleAtPoint | src/editor/canvas-renderer.ts:497-546 | the method returns what HandleHitAt describes |
| Renderer.EffectiveZoom | src/editor/canvas-renderer.ts:553 | `state.zoom \|\| 1`: never zero, and the zoom itself when non-zero |
| Renderer.GrillRemoveHit | src/editor/canvas-renderer.ts:548-585 | a remove button is hit only while setting a grill height on the backglass tab, only for a positive height, inside its 12-pixel box; the grill's button wins over the small grill's |
| Renderer.GrillRemoveHitAt | src/editor/canvas-renderer.ts:548-585 | a button is found only in a grill-setting mode on the backglass tab |
| Renderer.DmdDefaultLocationRemoveHit | src/editor/canvas-renderer.ts:647-665 | the remove button is hit only while placing the DMD on the backglass with a DMD image and a location set, and lies right of the placed DMD |
| Renderer.FirstCopyHandle | src/editor/canvas-renderer.ts:615-635 | the first of the eight copy-area handles near the point |
| Renderer.DmdCopyAreaHitAt | src/editor/canvas-renderer.ts:589-645 | only in copy mode with a copy area: the camera icon first, then the handles in order, then the inside of the area |
| Renderer.HitTestDmdCopyArea | src/editor/canvas-renderer.ts:589-645 | the method returns what DmdCopyAreaHitAt describes |
| Parts.ResizeHandlesForBounds | src/editor/parts/registry.ts:30-48 | eight handles in the order nw, n, ne, w, e, sw, s, se, each with its cursor and a square of the handle size centred on its corner or edge midpoint of the bounds |
| Parts.HitTestResizeHandle | src/editor/parts/registry.ts:50-66 | the loop returns the position of the first handle, in list order, whose square widened by (hitSize - visualSize)/2 on each side contains the point, and none when no handle does |
| Parts.FirstHandleUnique | src/editor/parts/registry.ts:56-65 | the handle found is hit and every handle before it is missed, so the answer depends on list order only |
| Parts.Registry.constructor | src/editor/parts/registry.ts:16 | the registry starts empty |
| Parts.Registry.GetEditable | src/editor/parts/registry.ts:22-24 | a type never registered yields none; a registered one yields its part |
| Parts.Registry.RegisterEditable | src/editor/parts/registry.ts:18-20 | after registering, the type maps to the new part, every other type is unchanged, and the type list gains the type only if it was new (a re-registration keeps its place) |
| Parts.Registry.GetAllEditableTypes | src/editor/parts/registry.ts:26-28 | exactly the registered types, each once; the order is the one RegisterEditable keeps |
| Parts.BulbHitBetweenHandles | src/editor/parts/bulb.ts:221-228 | a bulb is hit exactly when the point lies in the closed box between the centres of its nw and se resize handles, which is its bounds |
| Parts.ScoreHitBetweenHandles | src/editor/parts/score.ts:295-302 | the same for a score display, with its resize handles from score.ts:421-423 |
| Parts.ColorOverlay | src/editor/parts/bulb.ts:6-9 | the overlay blend lies in 0..255 and equals the unclamped blend whenever that is in range |
| Parts.OverlayOfBlack | src/editor/parts/bulb.ts:6-9 | a black base channel stays black whatever the tint |
| Parts.EscapeHtml | src/editor/parts/bulb.ts:11-13 | the escaped text contains no `<`, `>` or `"` |
| Parts.EscapeHtmlIsPerChar | src/editor/parts/bulb.ts:11-13 | because `&` is replaced first, the chain of replacements equals escaping each character once on its own; no entity is escaped twice |
| Parts.KnownPrefixesExclusive | src/editor/parts/bulb.ts:25-32 | at most one of the image signatures can begin the text |
| Parts.DetectImageFormat | src/editor/parts/bulb.ts:25-32 | each MIME type is returned exactly when the text begins with its signature; PNG otherwise |
| Parts.ResourceReelType | src/editor/parts/score.ts:31-33 | the result removes an underscore followed by the zeros ending the name and nothing else; a name without such a suffix is unchanged |
| Parts.ResourceReelTypeExamples | src/editor/parts/score.ts:31-33 | EMR_T1_0 becomes EMR_T1, EMR_CT1_00 becomes EMR_CT1 and Dream7LED8 stays as it is |
| Parts.CreditDigitValue | src/editor/parts/score.ts:117-120 | a non-digit (or missing) character shows 0, a digit shows its value capped at the reel's maximum, 15 by default |
| Parts.SegmentMask | src/editor/parts/score.ts:167-180 | the pattern is a seven-bit mask, and any character other than a digit gives 0 |
| Parts.NonDigitDark | src/editor/parts/score.ts:180-206 | a character other than a digit lights none of the seven segments |
| Parts.SegmentExamples | src/editor/parts/score.ts:167-206 | `8` lights all seven segments and `1` exactly segments b and c |
| Parts.DigitPatternsDistinct | src/editor/parts/score.ts:167-178 | no two digits share a segment pattern |
| PropertiesPanel.InputValue | src/editor/properties-panel.ts:139-150 | a number or range input gives an integral number, its parseInt or 0 when that fails; a color input an opaque colour, white for text that is not a hex colour; a checkbox its checked state; any other input its text |
| PropertiesPanel.InputValueOfShownNumber | src/editor/properties-panel.ts:139-142 | a number input showing an integer reads back as that integer |
| PropertiesPanel.InputValueOfShownColor | src/editor/properties-panel.ts:143-145 | a color input showing a colour's hex form reads back as that colour, opaque |
| PropertiesPanel.FieldOf | src/editor/properties-panel.ts:152-169 | each of the twenty typed property names selects the field of that name; any other name, a `<select>` property among them, selects none |
| PropertiesPanel.FieldOfFieldName | src/editor/properties-panel.ts:152-169 | every field is found by its own name |
| PropertiesPanel.SetBulbField | src/editor/properties-panel.ts:152-169 | a bulb keeps its id and parent, and a field a bulb does not have leaves it unchanged |
| PropertiesPanel.SetBulbProperty | src/editor/properties-panel.ts:152-169 | setting a property by name never changes the bulb's id or parent |
| PropertiesPanel.BulbSetThenGet | src/editor/properties-panel.ts:152-169 | a value the field accepts is read back from the bulb after it is set |
| PropertiesPanel.BulbSetKeepsOthers | src/editor/properties-panel.ts:152-169 | setting one field leaves every other field of the bulb as it was |
| PropertiesPanel.SetScoreField | src/editor/properties-panel.ts:152-169 | a score keeps its id and parent; `useDream7` sets the reel type to Dream7LED8 when truthy and to EMR_T1_0 otherwise |
| PropertiesPanel.SetScoreProperty | src/editor/properties-panel.ts:152-169 | setting a property by name never changes the score's id or parent |
| PropertiesPanel.DreamReels | src/editor/properties-panel.ts:159-165 | the `useDream7` checkbox's two reel types are the LED one and the reel one |
| PropertiesPanel.ScoreSetThenGet | src/editor/properties-panel.ts:152-169 | a value the field accepts is read back from the score after it is set |
| PropertiesPanel.ScoreSetKeepsOthers | src/editor/properties-panel.ts:152-169 | setting one field leaves every other field of the score as it was |
| PropertiesPanel.WithFirst | src/editor/properties-panel.ts:114-122 | only the first item with the id is changed, keys and length are kept |
| PropertiesPanel.WithFirstFind | src/editor/properties-panel.ts:114-122 | looking up the edited id finds the edited item; every other id finds what it found before |
| PropertiesPanel.WithFirstUnique | src/editor/properties-panel.ts:114-122 | editing one item keeps ids unique |
| PropertiesPanel.ItemRecord | src/editor/properties-panel.ts:104-111 | the transaction of a committed edit has changes and carries the edit's description |
| PropertiesPanel.ItemRecordMarks | src/editor/properties-panel.ts:106-110 | it marks exactly the edited bulb or score and nothing of the other kind |
| PropertiesPanel.ItemEditIsUndoable | src/editor/properties-panel.ts:104-126 | undoing a committed edit of one item restores the document's content |
| PropertiesPanel.PropertyChangeIsUndoable | src/editor/properties-panel.ts:95-137 | undoing a committed property change restores the document's content |
| PropertiesPanel.ReelTypeChangeIsUndoable | src/editor/properties-panel.ts:80-93 | undoing a committed reel type change restores the document's content |
| PropertiesPanel.SetItemProperty | src/editor/properties-panel.ts:113-123 | the first bulb or score with the id takes the value; a missing id changes nothing |
| PropertiesPanel.ApplyPropertyChange | src/editor/properties-panel.ts:95-137 | the value is set; a preview only marks the document dirty and leaves the undo history alone; a committed change at depth 0 is pushed as one record marking the item, clears redo and marks the document dirty; inside an open transaction the depth, stacks and dirty flag stay and the open record gains the item's mark (`ItemMarks`) |
| PropertiesPanel.ApplyReelTypeChange | src/editor/properties-panel.ts:80-93 | the reel type is set in one "Change reel type" record that marks the score, committed at depth 0; inside an open transaction the depth, stacks and dirty flag stay and the open record gains the score's mark (`ItemMarks`) |
| PropertiesPanel.ListItemClick | src/editor/properties-panel.ts:283-312 | without shift the selection becomes exactly the clicked item; with shift the item is added; either way it becomes primary |
| EditorMain.RomIdString | src/editor/main.ts:480-496 | the key starts with `I` exactly for an inverted ROM id and is longer than its type letters |
| EditorMain.RomIdStringInjective | src/editor/main.ts:480-496 | two ROM ids with the same key have the same type, number and inversion, so the key identifies a dropdown entry |
| EditorMain.KeyCount | src/editor/main.ts:516-526 | a key is counted at most once per bulb |
| EditorMain.CountRomIds | src/editor/main.ts:513-527 | the map loop tallies every listed bulb of the active parent with a positive ROM id: each entry's count is the number of such bulbs with its key, keys are unique, and every such bulb has an entry |
| EditorMain.TallyStep | src/editor/main.ts:518-526 | one more bulb keeps the tally exact: a known key's count grows by one, a new key gets count 1 at the end |
| EditorMain.InsertEntry | src/editor/main.ts:529-538 | inserting adds the entry and keeps every other one |
| EditorMain.InsertEntrySorted | src/editor/main.ts:529-538 | inserting into a sorted list keeps it sorted by inversion, then type order (lamp, solenoid, GI string), then number |
| EditorMain.SortRomEntries | src/editor/main.ts:529-538 | the result is sorted in that order and is a permutation of the entries |
| EditorMain.LampFilterEntries | src/editor/main.ts:498-540 | the dropdown entries are sorted, unique by key, each counts exactly the listed bulbs with its key, and every listed bulb has an entry |
| EditorMain.LampOptionOf | src/editor/main.ts:535 | the filter value of an entry shows exactly the bulbs of that ROM id type, number and inversion |
| EditorMain.ModeCount | src/editor/main.ts:1038-1148 | no special mode is on exactly when the count of set mode flags is zero |
| EditorMain.SwitchTab | src/editor/main.ts:1175-1209 | the tab changes, the lamp filter resets to all and the selection is cleared; leaving for the DMD tab ends every backglass-only mode and forgets the mouse position |
| EditorMain.ShowBackglass | src/editor/main.ts:1044-1046 | the backglass tab is shown; the selection and filter are kept when it already was, reset otherwise; the modes are kept |
| EditorMain.ToggleSetGrillHeight | src/editor/main.ts:1038-1061 | the mode flips; turning it on makes it the only mode on and shows the backglass; turning it off forgets the mouse height and changes nothing else; at most one mode stays on |
| EditorMain.ToggleSetSmallGrillHeight | src/editor/main.ts:1063-1086 | the same for the small grill height |
| EditorMain.ToggleCopyDmdFromBackglass | src/editor/main.ts:1088-1118 | the mode flips with the same exclusivity; turning it on without a copy area places a default one a third wide and a sixth high, three quarters down the backglass image |
| EditorMain.DefaultCopyAreaPlacement | src/editor/main.ts:1100-1103 | the default copy area starts at a third of the width and three quarters of the height and is a third wide and a sixth high, each to the nearest pixel |
| EditorMain.ToggleSetDmdDefaultLocation | src/editor/main.ts:1120-1148 | without a DMD image nothing changes; otherwise the mode flips with the same exclusivity, and turning it off forgets the mouse position |
| EditorMain.ToggleScoreFrames | src/editor/main.ts:953-975 | showing the frames turns scoring on; hiding them deselects every score and drops a score primary selection; the bulb selection is kept; no score stays selected with frames hidden |
| EditorMain.ToggleScoring | src/editor/main.ts:977-989 | scoring flips, and turning it off hides the score frames |
| EditorMain.ToggleIlluminationFrames | src/editor/main.ts:991-1006 | hiding the frames deselects every bulb and drops a bulb primary selection; the score selection is kept; no bulb stays selected with frames hidden |
| EditorMain.ToggleIllumination | src/editor/main.ts:1008-1020 | the illumination view flag flips and nothing else changes |
| EditorMain.ToggleIlluminationIntensity | src/editor/main.ts:1022-1036 | the intensity view flag flips and nothing else changes |
| EditorMain.ActiveParent | src/editor/main.ts:155 | the DMD exactly on the DMD tab |
| EditorMain.ScaleBulbsFaithful | src/editor/main.ts:164-170 | bulbs of the active parent have position and size scaled and rounded to the nearest integer, the others are unchanged, ids and order are kept |
| EditorMain.ScaleScoresFaithful | src/editor/main.ts:172-178 | the same for score displays |
| EditorMain.ScaleBulbsInPlace | src/editor/main.ts:164-170 | the loop leaves the bulbs as ScaleBulbs describes |
| EditorMain.ScaleScoresInPlace | src/editor/main.ts:172-178 | the loop leaves the scores as ScaleScores describes |
| EditorMain.ResizeRecord | src/editor/main.ts:159-162 | the resize transaction marks something and is well formed |
| EditorMain.ResizeCaptured | src/editor/main.ts:159-162 | every snapshot the resize takes is the entity as it was before the resize |
| EditorMain.ResizeChangesOnlyMarked | src/editor/main.ts:159-195 | the resize changes only entities it marked, and ids stay unique |
| EditorMain.ResizeIsUndoable | src/editor/main.ts:148-207 | undoing the committed resize restores the document as it was |
| EditorMain.FinishImageOperation | src/editor/main.ts:180-206 | a failed image step cancels the transaction and changes nothing; otherwise the first image of the parent takes the new data and size, the document is dirty and one level of the transaction is closed: from depth 1 a record with changes is pushed and redo emptied, one without changes is dropped; from a deeper level the depth drops by one and the record, stacks and save point stay; an unmatched close changes nothing |
| EditorMain.PerformResize | src/editor/main.ts:148-207 | an unchanged size does nothing; otherwise the items of the active parent are scaled, and the resize is committed as one undoable record, or cancelled when the image step fails; inside an open transaction the depth and stacks stay and the open record gains the parent's items and the images (`ResizeMarks`) |
| EditorMain.PerformBrightness | src/editor/main.ts:338-380 | a zero adjustment does nothing; otherwise the image is replaced and the change committed as one record holding the images before, or cancelled when the image step fails; inside an open transaction the depth and stacks stay and the open record gains the images (`ImagesMarks`) |
| EditorMain.SavedAnimations | src/editor/main.ts:604-613 | the animation is in the list, every other name is kept, and the list grows by one unless an existing animation of that name is replaced |
| EditorMain.SavedAnimationsUnique | src/editor/main.ts:604-613 | names stay unique when a new animation has a new name |
| EditorMain.DeletedAnimations | src/editor/main.ts:621-626 | the animation of that name is removed, every other one is kept, and the list shrinks by one exactly when the name existed |
| EditorMain.SaveRecord | src/editor/main.ts:601-602 | the corrected save transaction: it has changes and marks every existing animation and the saved one's name |
| EditorMain.SaveIsUndoable | src/editor/main.ts:597-618 | undoing a committed save restores the animations as they were |
| EditorMain.DeleteRecord | src/editor/main.ts:624-625 | the delete transaction has changes exactly when there are animations |
| EditorMain.DeleteIsUndoable | src/editor/main.ts:620-630 | undoing a committed delete restores the animations as they were |
| EditorMain.StoreAnimation | src/editor/main.ts:604-613 | the animations become SavedAnimations of the old list |
| EditorMain.HandleAnimationSaved | src/editor/main.ts:597-618 | an unnamed animation changes nothing; otherwise the list is updated, the document is dirty, and the save is committed as one undoable record by the corrected `SaveRecord`; inside an open transaction the depth and stacks stay and the open record gains every animation and the saved name (`SaveMarks`) |
| EditorMain.HandleAnimationDeleted | src/editor/main.ts:620-630 | an unknown name changes nothing; otherwise the animation is removed, the document is dirty, and the delete is committed as one undoable record; inside an open transaction the depth and stacks stay and the open record gains every animation (`AnimationsMarks`) |
| EditorMain.SaveRecordAsWritten | src/editor/main.ts:601-602 | as written, the save transaction marks exactly the animations that existed before the save |
| EditorMain.SaveAsWrittenKeepsAddedAnimation | src/editor/main.ts:597-618 | as written, undoing the addition of a new animation leaves it in the list |
| EditorMain.SaveAsWrittenFirstAnimationNotRecorded | src/editor/main.ts:597-618 | as written, adding the first animation records no change, so the transaction is discarded |
| Parser.XmlUnescape | src/format/parser.ts:167-174 | the XML decoding of an attribute never lengthens it and leaves text without `&` unchanged |
| Parser.GetAttribute | src/format/parser.ts:167-174 | getAttribute is null exactly when no attribute has that name |
| Parser.ParseTableType | src/format/parser.ts:111-124 | 1 is EM, 3 is SS+DMD, 4 is ORI, and every other number, 2 included, is SS |
| Parser.ParseDmdType | src/format/parser.ts:126-137 | 1 is built in, 2 and 3 are external, every other number is none |
| Parser.ParseCommType | src/format/parser.ts:139-141 | B2S exactly for 2, ROM otherwise |
| Parser.ParseDestType | src/format/parser.ts:143-145 | fantasy exactly for 2, authentic otherwise |
| Parser.ParseDualMode | src/format/parser.ts:197-206 | "1" is authentic, "2" fantasy, anything else or no attribute both |
| Parser.ParseLightState | src/format/parser.ts:208-219 | "1" on, "2" no change, "3" reset, anything else off |
| Parser.ParseStopBehaviour | src/format/parser.ts:221-230 | "1" run till end, "2" return to the first step, anything else immediate |
| Parser.ParseRomIdType | src/format/parser.ts:304-313 | "2" solenoid, "3" GI string, anything else lamp |
| Parser.ParseB2SIdType | src/format/parser.ts:315-317 | cyclic exactly for "1" |
| Parser.ParseRotatingDirection | src/format/parser.ts:319-328 | "1" clockwise, "2" counter-clockwise, anything else none |
| Parser.ParseInitialState | src/format/parser.ts:330-339 | "1" on, "2" undefined, anything else off |
| Parser.ParseParent | src/format/parser.ts:237 | the DMD exactly for the text "DMD", the backglass otherwise |
| Parser.ParseIlluminationMode | src/format/parser.ts:297 | a flasher exactly for "1" |
| Parser.LowerAscii | src/format/parser.ts:263 | same length, upper-case letters lowered one by one, every other character kept |
| Parser.ParseBoolean | src/format/parser.ts:261-264 | true exactly for "1" or "true" in any letter case; a missing or empty attribute is false |
| Parser.TrueSpellings | src/format/parser.ts:261-264 | "1", "true" and "True" read as true; "0", "" and no attribute as false |
| Parser.ParseVisible | src/format/parser.ts:255 | hidden exactly for "0" or "False"; a missing attribute is visible |
| Parser.ParseTrueFlag | src/format/parser.ts:167-174 | an animation flag is set exactly by the text "True" |
| Parser.ColorParts | src/format/parser.ts:149 | splitting on dots and commas yields at least one part |
| Parser.ChannelValues | src/format/parser.ts:149 | every part is read as an integer, in order, and the list is missing exactly when some part is not a number |
| Parser.ParseColor | src/format/parser.ts:147-156 | empty text is white; four parts are alpha, red, green, blue; three are red, green, blue with alpha 255; any other count is white |
| Parser.CleanBase64 | src/format/parser.ts:341-344 | the result holds no white space, keeps every other character with its count, is unchanged when there was none, and is empty for a missing attribute |
| Parser.ReadSteps | src/format/parser.ts:182-195 | one step per element, in document order, each read by the step reader |
| Parser.OptionalColor | src/format/parser.ts:277 | a missing or empty colour attribute gives no colour; otherwise the parsed colour |
| Parser.ValueOf | src/format/parser.ts:101-104 | a child's `Value`, or "" when the child is missing |
| Parser.ReadHeader | src/format/parser.ts:24-37 | a parser error or a missing root is an error; otherwise the header is read from the root |
| Parser.ReadRoot | src/format/parser.ts:38-71 | the header read from the root has a non-empty version and a non-zero player count |
| Parser.Version | src/format/parser.ts:40 | the Version attribute when given and non-empty, "1.27" otherwise |
| Parser.Players | src/format/parser.ts:71 | the number of players read when it is a non-zero number, 4 otherwise |
| Writer.EscapeXmlCharwise | src/format/writer.ts:47-54 | because `&` is replaced first, the five replacements in a row escape every character exactly once, as a per-character escape would |
| Writer.EscapeXmlSafe | src/format/writer.ts:47-54 | the escaped text holds no raw `<`, `>`, `"` or `'` |
| Writer.UnescapeEscapeXml | src/format/writer.ts:47-54 | the XML parser's entity decoding gives back exactly the text that was escaped |
| Writer.ReadBackInt | src/format/writer.ts:12-33 | every integer the writer prints reads back through parseInt and getAttrValueInt as itself and is left alone by entity decoding |
| Writer.NumberEnumsRoundTrip | src/format/writer.ts:60-84 | the table type, DMD type, comm type, dest type and the 0/1 flags written as numbers read back through parseTableType, parseDMDType, parseCommType, parseDestType and `=== 1` as written |
| Writer.AttributeEnumsRoundTrip | src/format/writer.ts:134-167 | every dual mode, light state, stop behaviour, ROM id type, rotating direction and initial state read back through the reader's decoder as written (dualModeToValue to initialStateToValue, lines 134-279) |
| Writer.OmittedAttributeDefaults | src/format/writer.ts:101-109 | the decoder's value for a missing attribute is exactly the value for which the writer leaves the attribute out |
| Writer.ColorPartsOfString | src/format/writer.ts:86-88 | the printed colour splits back into its red, green and blue numbers |
| Writer.ColorRoundTrip | src/format/writer.ts:86-88 | parseColor reads a written colour back with its red, green and blue and an opaque alpha |
| Writer.SlotLookup | src/format/writer.ts:93-111 | on an element written from a list of optional attributes, getAttribute finds a name's unescaped text exactly when it was written |
| Writer.ElementLookup | src/format/writer.ts:93-111 | the same for an element laid out from a fixed list of attribute names |
| Writer.StepRoundTrip | src/format/writer.ts:117-126 | a written animation step reads back as the step, when its pulse switch is not negative |
| Writer.StepsRoundTrip | src/format/writer.ts:117-126 | the written steps read back as the animation's steps, in order |
| Writer.ReadStepFrom | src/format/parser.ts:182-195 | the step reader returns the step whose values the element's attributes hold |
| Writer.AnimationRoundTrip | src/format/writer.ts:90-132 | a written animation with its written steps reads back as the animation, when its random quality and every step's pulse switch are not negative |
| Writer.ReadAnimationFrom | src/format/parser.ts:158-180 | the animation reader returns the animation whose values the element's attributes and steps hold |
| Writer.HeaderReadBack | src/format/writer.ts:3-35 | parsing the header written by writeDirectB2S gives the header with the writer's losses applied: a missing copy area reads as zeros, a non-positive small grill as 0, an empty version as "1.27", no players as 4 |
| Writer.HeaderRoundTrip | src/format/writer.ts:3-35 | a header with a non-empty version, a non-zero player count, a non-negative small grill height and a copy area that is written or all zero reads back unchanged |
| Writer.ReadBackStable | src/format/writer.ts:3-35 | writing and reading back a header a second time changes nothing more |
| Writer.LocationWritten | src/format/writer.ts:12 | the DMD default location attributes read back as the written coordinates |
| Writer.GrillWritten | src/format/writer.ts:18-22 | the grill height element reads back as written, and a left-out `Small` reads as 0 |
| Writer.ReadRootFrom | src/format/parser.ts:38-71 | the header reader returns the header whose fields the root's parts hold |
| DocumentWriter.WriteDirectB2S | src/format/writer.ts:3-45 | the document text is the writer's line list joined by newlines |
| DocumentWriter.WriteDocumentLines | src/format/writer.ts:3-43 | pushing to an empty list gives the header lines, then the animations, scores, illumination and images sections, then the root's end tag |
| DocumentWriter.WriteElement | src/format/writer.ts:56-58 | writeElement appends exactly one element line holding the value, and keeps the earlier lines |
| DocumentWriter.WriteHeader | src/format/writer.ts:6-34 | the declaration, the root's start tag and the header's children are appended in writing order |
| DocumentWriter.WriteCopyArea | src/format/writer.ts:13-18 | the four copy-area children are appended only for a positive width and height |
| DocumentWriter.CopyAreaLines | src/format/writer.ts:13-18 | four lines when the copy area has a positive width and height, none otherwise |
| DocumentWriter.WriteGrillHeight | src/format/writer.ts:19-23 | one grill-height line, with `Small` only for a positive small grill height |
| DocumentWriter.WriteAnimations | src/format/writer.ts:90-132 | the animations section is appended, and nothing when there are no animations |
| DocumentWriter.AnimationsLines | src/format/writer.ts:90-91 | the section is empty exactly when there are no animations |
| DocumentWriter.WriteAnimationBlocks | src/format/writer.ts:93-131 | the loop appends each animation's element, in order |
| DocumentWriter.WriteAnimation | src/format/writer.ts:94-130 | one animation: its start tag, one step leaf per step in order, its end tag |
| DocumentWriter.StepLines | src/format/writer.ts:117-127 | one leaf per step, in order |
| DocumentWriter.ReadAnimationsSection | src/format/parser.ts:73-76 | no section reads as no animations |
| DocumentWriter.AnimationBlocksRoundTrip | src/format/writer.ts:93-131 | the written animation elements read back through the animation reader as the animations, in order |
| DocumentWriter.AnimationsRoundTrip | src/format/writer.ts:90-132 | the written animations section reads back as the animations, in order, when every random quality and pulse switch is not negative |
| DocumentWriter.WriteScores | src/format/writer.ts:169-202 | the scores section is appended, and nothing when there are no scores |
| DocumentWriter.ScoresLines | src/format/writer.ts:169-202 | no lines without scores; otherwise one line per score plus the section's two tags |
| DocumentWriter.WriteScoreLeaves | src/format/writer.ts:173-200 | the loop appends one element per score, in order |
| DocumentWriter.WriteIllumination | src/format/writer.ts:204-246 | the illumination section is appended, and nothing when there are no bulbs |
| DocumentWriter.IlluminationLines | src/format/writer.ts:204-246 | no lines without bulbs; otherwise one line per bulb plus the section's two tags |
| DocumentWriter.WriteBulbLeaves | src/format/writer.ts:208-244 | the loop appends one element per bulb, in order |
| DocumentWriter.WriteImages | src/format/writer.ts:281-326 | the images section: the thumbnail when there is one, then each non-empty image list |
| DocumentWriter.WriteBackgroundImages | src/format/writer.ts:290-304 | the background images; the first is written as the main image |
| DocumentWriter.WriteBackgroundLeaves | src/format/writer.ts:292-302 | the loop appends one element per background image, tagged by its place |
| DocumentWriter.WriteIlluminatedLeaves | src/format/writer.ts:308-310 | the loop appends one element per illuminated image |
| DocumentWriter.WriteDmdImages | src/format/writer.ts:314-322 | the DMD images; the first is written as the main image |
| DocumentWriter.WriteDmdImageLeaves | src/format/writer.ts:316-320 | the loop appends one element per DMD image, tagged by its place |
| Hex.HexChar | src/editor/parts/bulb.ts:16 | the digit written for a value below 16 is a lower-case hex digit that reads back as that value |
| Hex.HexCharOfValue | src/editor/parts/bulb.ts:16 | writing the value of a lower-case hex digit gives the digit back |
| Hex.NatToHex | src/editor/parts/bulb.ts:16 | toString(16) of a natural is never empty, gives one digit below 16 and two digits, high first, below 256 |
| Hex.PadStart2 | src/editor/parts/bulb.ts:16-18 | padding to two keeps a string of two or more, and otherwise ends with the string and has length 2 |
| Hex.Channel | src/editor/parts/bulb.ts:16-18 | a byte is written as exactly two lower-case digits, high nibble first |
| Hex.RgbToHex | src/editor/parts/bulb.ts:15-20 | a colour with byte channels is written as seven characters starting with '#' |
| Hex.HexToRgb | src/editor/properties-panel.ts:171-182 | the read colour is always opaque with byte channels, and a string the pattern rejects gives opaque white |
| Hex.HexToRgbOfDigits | src/editor/properties-panel.ts:172-179 | a '#' followed by six hex digits reads pairwise, high digit first |
| Hex.HexToRgbOfRgbToHex | src/editor/properties-panel.ts:171-182 | reading back what rgbToHex writes gives the colour's channels with alpha 255 |
| Hex.RgbToHexOfHexToRgb | src/editor/parts/bulb.ts:15-20 | writing back what hexToRgb read from a lower-case '#rrggbb' string gives the string |
| Paths.NonSeps | src/platform/desktop/index.ts:48-51 | what is left of a path without its separators holds no separator |
| Paths.DropSeps | src/platform/desktop/index.ts:48-51 | dropping leading separators leaves a suffix that starts with a non-separator and has the same non-separator characters |
| Paths.CollapseRuns | src/platform/desktop/index.ts:48-51 | collapsing runs leaves no two adjacent separators, only the chosen separator, the same non-separator characters in order, and empty exactly when the input is empty |
| Paths.LastIndexOf | src/platform/desktop/index.ts:53-58 | the found position holds the separator and no later position does |
| Paths.JoinLast | src/platform/desktop/index.ts:53-58 | joining all parts is joining all but the last, then the separator and the last part |
| Paths.SplitAtLastSeparator | src/platform/desktop/index.ts:53-68 | the last split part holds no separator; without a separator it is the whole path and the rest is empty; otherwise the split happens at the last separator |
| Paths.Dirname | src/platform/desktop/index.ts:53-58 | dirname is the path up to its last separator, or the separator itself when that prefix is empty or there is no separator |
| Paths.Basename | src/platform/desktop/index.ts:60-68 | basename is the part after the last separator, with a non-empty extension cut off exactly when the part ends with it |
| Paths.WebJoinPath | src/platform/web/index.ts:41-43 | the web join leaves no '//' and keeps every non-separator character of the parts in order |
| Paths.WebDirname | src/platform/web/index.ts:45-49 | the web dirname splits at the last '/' and gives '/' for a path without one |
| Paths.WebBasename | src/platform/web/index.ts:51-58 | the web basename splits at the last '/' and holds no '/' |
| Paths.PathSeparator | src/platform/desktop/index.ts:54 | the desktop separator is backslash exactly when the path holds one, and '/' otherwise |
| Paths.DesktopJoinPath | src/platform/desktop/index.ts:48-51 | the desktop join uses only the platform separator, never twice in a row, and keeps every non-separator character of the parts in order |
| Paths.DesktopDirname | src/platform/desktop/index.ts:53-58 | the desktop dirname splits at the path's own separator and gives '/' for a path without any |
| Paths.DesktopBasename | src/platform/desktop/index.ts:60-68 | the desktop basename splits at the path's own separator |
| Text.TrimStart | src/features/animations/shared/component.ts:206-226 | trimming the front removes exactly the leading white space and leaves a suffix that does not start with white space |
| Text.TrimEnd | src/features/animations/shared/component.ts:206-226 | trimming the end removes exactly the trailing white space and leaves a prefix that does not end with white space |
| Text.NatToString | src/format/writer.ts:56-58 | a natural is written as a non-empty run of digits |
| Text.DigitsValueOfNatToString | src/format/parser.ts:106-109 | the digits written for a natural have that natural as their value |
| Text.IntToString | src/format/writer.ts:56-58 | String of an integer is never empty |
| Text.DigitPrefix | src/format/parser.ts:106-109 | the digit prefix is a prefix made of digits and followed by no digit |
| Text.ParseInt | src/format/parser.ts:106-109 | parseInt gives NaN exactly when no digit follows the leading white space and optional sign |
| Text.ParseIntOfIntToString | src/format/parser.ts:106-109 | parseInt reads back the integer String wrote, whatever non-digit text follows |
| Text.IndexOf | src/editor/canvas-renderer.ts:151 | indexOf gives the first position from the start where the pattern occurs, and -1 exactly when it occurs nowhere |
| Text.ReplaceChar | src/format/writer.ts:47-54 | a global replace of a character leaves no copy of it when the replacement has none, changes nothing when it is absent, and adds only characters of the replacement |
| Text.ReplaceCharConcat | src/format/writer.ts:47-54 | a global character replace works piecewise over a concatenation |
| Text.Split | src/platform/web/index.ts:45-58 | split always gives at least one part and no part holds the separator |
| Text.JoinSplit | src/platform/web/index.ts:45-58 | joining the parts of a split with the same separator gives the string back |
| Text.SplitJoin | src/platform/web/index.ts:45-58 | splitting a join of separator-free parts, at least one, gives the parts back |
| MenuEvaluator.EvaluateMenuItem | src/shared/menu-evaluator.ts:17-50 | the item is invisible exactly when a mac-only, electron-only or web-only constraint fails; enabled exactly when every `requires` key holds and no `disabledWhen` key holds; checked exactly when a `checkedWhen` key is given and holds; the label defaults to the empty text |
| MenuEvaluator.FilterMenu | src/shared/menu-evaluator.ts:52-66 | the result passes the platform rule at every depth and keeps exactly the ids of the allowed top-level items, in their order |
| MenuEvaluator.FilterItem | src/shared/menu-evaluator.ts:60-65 | a kept item keeps its id, label and flags; only its submenu is filtered |
| MenuEvaluator.FilterKeepsAllowed | src/shared/menu-evaluator.ts:52-66 | a tree that passes the platform rule everywhere is returned unchanged |
| MenuEvaluator.FilterIdempotent | src/shared/menu-evaluator.ts:52-66 | filtering twice gives the same as filtering once |
| MenuEvaluator.DroppedIffNotAllowed | src/shared/menu-evaluator.ts:18-21 | a single item is dropped by the filter exactly when evaluateMenuItem would make it invisible |
| MenuRendering.FormatAcceleratorAsWritten | src/shared/menu-renderer-web.ts:16-30 | as written, the Mac form holds no "+" at all, not even one that names the Plus key |
| MenuRendering.PlusKeyLostOnMac | src/shared/menu-renderer-web.ts:24-28 | whenever an accelerator names the Plus key, the written Mac form shows no "+" while the intended one does |
| MenuRendering.ZoomInWrittenOnMac | src/shared/menu-renderer-web.ts:16-30 | as written, Zoom In's "CmdOrCtrl+Plus" shows as a bare "⌘" on a Mac |
| MenuRendering.FormatAccelerator | src/shared/menu-renderer-web.ts:16-30 | as intended, the Mac form shows "+" exactly when the accelerator names the Plus key; elsewhere it equals the written version |
| MenuRendering.ZoomInIntendedOnMac | src/shared/menu-renderer-web.ts:16-30 | as intended, "CmdOrCtrl+Plus" keeps a "+" on a Mac |
| MenuRendering.CmdOrCtrlShown | src/shared/menu-renderer-web.ts:18-20 | a leading "CmdOrCtrl" shows as "⌘" on a Mac and as "Ctrl" elsewhere, and no later renaming touches it |
| MenuRendering.ReplaceBySelf | src/shared/menu-renderer-web.ts:20 | replacing a name by itself (Ctrl, Alt, Shift off the Mac) changes nothing |
| MenuRendering.MenuHasCheckbox | src/shared/menu-renderer-web.ts:32-34 | holds exactly when some item of the menu is a checkbox |
| Callbacks.RemoveFirst | src/shared/callbacks.ts:18-26 | removing a handler takes away exactly one copy of it from the multiset of handlers, and an absent handler changes nothing |
| Callbacks.Throwing | src/shared/callbacks.ts:31-37 | the reported failures are exactly the called handlers that throw |
| Callbacks.RemoveUndoesAdd | src/shared/callbacks.ts:11-26 | removing a handler right after adding it, when it was not there before, restores the list |
| Callbacks.RemoveLeavesLaterCopy | src/shared/callbacks.ts:18-26 | when a handler was added twice, one removal leaves a copy of it registered |
| Callbacks.RemoveAt | src/shared/callbacks.ts:21-24 | the copy removed is the first one, at its indexOf position, and the rest keep their order |
| Callbacks.CallbackRegistry.constructor | src/shared/callbacks.ts:45-50 | at load, each built-in name has an empty list and no other name is known |
| Callbacks.CallbackRegistry.Register | src/shared/callbacks.ts:5-9 | a name gets an empty list unless it already has one |
| Callbacks.CallbackRegistry.Add | src/shared/callbacks.ts:11-16 | the handler is appended to the name's list, which is created on first use; other names are untouched |
| Callbacks.CallbackRegistry.Remove | src/shared/callbacks.ts:18-26 | the name's list loses the first copy of the handler; an unknown name changes nothing |
| Callbacks.CallbackRegistry.Invoke | src/shared/callbacks.ts:28-39 | every handler of the name is called once in registration order, a throwing handler is reported and does not stop the rest, and an unknown name calls nothing |
| Callbacks.CallbackRegistry.Clear | src/shared/callbacks.ts:41-43 | the name's list becomes empty, and is created if missing |
| Numbers.Round | src/features/brightness/shared/component.ts:36 | rounding gives the integer within half of the value, with halves rounded up as Math.round does |
| Numbers.RoundMonotonic | src/features/brightness/shared/component.ts:36 | rounding is monotonic |
| Numbers.RoundOfInt | src/features/brightness/shared/component.ts:36 | rounding an integer gives it back |
| Numbers.RoundWithin | src/features/brightness/shared/component.ts:36 | a value between zero and a whole bound rounds into the same range |
| AnimationEditor.DefaultStep | src/features/animations/shared/component.ts:39-48 | a new step has the given number, switches nothing and waits one loop after each phase |
| AnimationEditor.DefaultAnimation | src/features/animations/shared/component.ts:50-68 | a new animation has the given name, a single default step 1 and the documented defaults (interval 100, loops 0, random quality 50, both modes, no light change, immediate stop, every flag off) |
| AnimationEditor.Numbered | src/features/animations/shared/component.ts:199-204 | renumbering keeps the length and every other field of each step, and numbers each step by its position from 1 |
| AnimationEditor.Swap | src/features/animations/shared/component.ts:181-197 | exchanging two rows puts each at the other's place, leaves every other row alone and keeps the same multiset of steps |
| AnimationEditor.Without | src/features/animations/shared/component.ts:171-179 | removing a row shortens the list by one and shifts the later rows up by one |
| AnimationEditor.NumberedKeepsNumbered | src/features/animations/shared/component.ts:199-204 | renumbering an already numbered list changes nothing |
| AnimationEditor.NumberedIdempotent | src/features/animations/shared/component.ts:199-204 | renumbering twice is the same as renumbering once |
| AnimationEditor.AddKeepsNumbered | src/features/animations/shared/component.ts:163-169 | appending the default step numbered one past the end keeps a numbered list numbered |
| AnimationEditor.MoveUpThenDown | src/features/animations/shared/component.ts:181-197 | moving a row up and then back down gives the renumbered original list |
| AnimationEditor.IntOr | src/features/animations/shared/component.ts:206-226 | a field that is not a number, or is 0, falls back to the default; any other number is kept |
| AnimationEditor.CollectForm | src/features/animations/shared/component.ts:206-226 | the collected animation keeps the working copy's steps, trims the name and id join, and reads interval, loops and random quality with the defaults 100, 0 and 50 |
| AnimationEditor.StepEditor.SetAnimation | src/features/animations/shared/component.ts:260-266 | the editor holds the given animation and new-flag, with row 0 selected when there is a step and no selection otherwise |
| AnimationEditor.StepEditor.SelectStep | src/features/animations/shared/component.ts:144-147 | a click selects exactly the clicked row |
| AnimationEditor.StepEditor.AddStep | src/features/animations/shared/component.ts:163-169 | with an animation loaded, appends the default step numbered one past the end and selects it; without one, nothing changes |
| AnimationEditor.StepEditor.RenumberSteps | src/features/animations/shared/component.ts:199-204 | the working copy's steps become their renumbered list and nothing else changes |
| AnimationEditor.StepEditor.RemoveStep | src/features/animations/shared/component.ts:171-179 | with a selection and more than one step, the selected step is removed, the rest renumbered, and the selection stays on its row or moves to the new last row; otherwise nothing changes |
| AnimationEditor.StepEditor.MoveStepUp | src/features/animations/shared/component.ts:181-188 | when the selected row is not the first, it is swapped with the row above, renumbered and still selected; otherwise nothing changes |
| AnimationEditor.StepEditor.MoveStepDown | src/features/animations/shared/component.ts:190-197 | when the selected row is not the last, it is swapped with the row below, renumbered and still selected; otherwise nothing changes |
| AnimationEditor.StepEditor.Ok | src/features/animations/shared/component.ts:233-238 | a save request is made exactly when an animation is loaded and its trimmed name is not blank, and it carries the collected animation and the new-flag |
| AnimationEditor.StepEditor.Delete | src/features/animations/shared/component.ts:244-250 | a delete request is made exactly for a loaded animation that is not new, and it names that animation |
| Brightness.Clamp8 | src/features/brightness/shared/component.ts:35-45 | a store into the clamped byte buffer gives a byte: values already in 0..255 are kept, negatives become 0 and values above 255 become 255 |
| Brightness.Clamp8Monotonic | src/features/brightness/shared/component.ts:35-45 | the byte store is monotonic |
| Brightness.Adjust | src/features/brightness/shared/component.ts:35-45 | an adjusted colour byte is a byte; brightening never lowers it, darkening never raises it and amount 0 keeps it |
| Brightness.EffectiveHeight | src/features/brightness/shared/component.ts:28 | a positive grill height excludes that many bottom rows; otherwise every row is filtered |
| Brightness.Limit | src/features/brightness/shared/component.ts:28-31 | the filtered bytes never run past the end of the buffer |
| Brightness.Filtered | src/features/brightness/shared/component.ts:25-48 | the filtered buffer has the same length and holds only bytes |
| Brightness.OnlyRowsAboveGrill | src/features/brightness/shared/component.ts:28-31 | a byte in a row at or below the effective height is left as it was |
| Brightness.AlphaAndZero | src/features/brightness/shared/component.ts:33-46 | alpha bytes are never changed, and brightness 0 leaves the whole buffer as it was |
| Brightness.Direction | src/features/brightness/shared/component.ts:35-45 | brightening never darkens any byte and darkening never brightens one |
| Brightness.ApplyBrightness | src/features/brightness/shared/component.ts:25-48 | the buffer, updated in place row by row, ends equal to the filtered buffer for amount brightness/100 and the effective height's rows |
| Brightness.AdjustRows | src/features/brightness/shared/component.ts:31-47 | after the first rows rows, exactly their bytes are processed |
| Brightness.AdjustRow | src/features/brightness/shared/component.ts:32-46 | one row's pixels are processed in place, extending the processed prefix by the row's bytes |
| Brightness.AdjustPixel | src/features/brightness/shared/component.ts:34-45 | one pixel's three colour bytes are adjusted and its alpha kept, extending the processed prefix by four bytes |
| Brightness.ProcessedUpTo | src/features/brightness/shared/component.ts:25-48 | once the processed prefix reaches the limit, the buffer is the filtered buffer |
| Brightness.FilterGrillHeight | src/features/brightness/shared/component.ts:88-90 | the filter excludes a grill only when the box is ticked and the image is a backglass with a grill, and then it uses the scaled grill height |
| Brightness.SliderFromNumber | src/features/brightness/shared/component.ts:113-119 | the typed number is clamped into -100..100 and text that is not a number gives 0 |

## Left out

- Drawing on the canvas, the HTML of the panels, lists, modals and context menus, the console panel, and the `render`, `requestRender`, `updatePropertiesPanel` and `updateAllLists` notifications: they draw or rebuild the screen and hold no document logic.
- The `update-menu-state` events the click modes and Escape send to the menu: they only mirror flags the model already holds.
- Decoding, resizing, re-encoding and brightening images (`Image`, off-screen canvases, `toDataURL`, `getImageData`): their outcome is a parameter of the operation that uses it (`ImageResult`, the `dataUrl` of the DMD copy, the pixel buffer of the brightness filter).
- The XML DOM traversal of `parseDirectB2S` (`DOMParser`, `querySelector`, the parse-error check and the missing-root error): an element is seen through its attributes, and the reader's decoders are modelled.
- The reels section: `writeReels` and the reel parsing are not part of this model.
- Read-back of the written file is proved for the header and the animations; the score, bulb and image sections are written line by line but not read back.
- Electron, IPC, dialogs, storage and file I/O, and the file-level commands of the editor (`newFile`, `loadFile`, `saveFile`, `closeFile`, `handleMenuAction`): they move bytes in and out of the core without changing it.
- GUIDs, timestamps, console logging, the coordinate display and the menu renderer's DOM: outside the document's logic.
- The image cache of the bulb part (`loadBulbImage`): an asynchronous cache around the browser's `Image`.
- `detectImageFormat` of src/editor/main.ts:1350-1357 is the same function as the bulb part's, modelled once as `Parts.DetectImageFormat`.
- Floating point: coordinates and factors are `real`, so rounding errors of JavaScript numbers and the `NaN` and `Infinity` values of the arithmetic are not modelled.
- Parser.ParseColor: a channel that `parseInt` reads as `NaN` gives `None` rather than a colour holding `NaN`.
- Parser.ParseBoolean: lower-cases ASCII letters only, where JavaScript's `toLowerCase` also folds letters of other scripts.
- EditorMain.PerformResize: requires a positive original size, which the resize dialog always supplies; a zero size would divide by zero in the source.
- EditorMain.SaveIsUndoable: covers a new animation only under a name not yet in use; `handleAnimationSaved` does not refuse a new animation whose name exists, and the list then holds two animations of that name, which undo, working by name, does not tell apart.
- EditorMain.PerformBrightness: the grill height handed to the pixel filter is not modelled here; the filter's own treatment of the grill rows is `Brightness.ApplyBrightness`.
- Renderer.ZoomAtPoint: keeps the point fixed in the canvas's on-screen coordinates; `zoomAtPoint` does not apply the backing-store scale that `screenToWorld` applies, so the world point under the mouse is proved fixed only when the canvas's backing store has the size of its on-screen rectangle.
- CanvasEvents.Wheel: the same restriction as `Renderer.ZoomAtPoint`, which it calls.
- CanvasEvents.SelectOnClick: applies the corrected click of the Findings row for src/editor/canvas-events.ts:119-130; the source's plain click on a member of a selected group collapses the selection to that item, which is `ClickSelectAsWritten` and `ClickAsWrittenCollapsesGroup`.
- CanvasEvents.StartMoveDrag: selects by the corrected click (see `CanvasEvents.SelectOnClick`), not by the group-collapsing click the source performs.
- CanvasEvents.PressOnItems: its move action selects by the corrected click (see `CanvasEvents.SelectOnClick`).
- CanvasEvents.PressLeft: its item actions select by the corrected click (see `CanvasEvents.SelectOnClick`).
- CanvasEvents.PressAt: its item actions select by the corrected click (see `CanvasEvents.SelectOnClick`).
- CanvasEvents.Press: its item actions select by the corrected click (see `CanvasEvents.SelectOnClick`).
- CanvasEvents.PressFrom: its item actions select by the corrected click; it stores the press point after the action rather than before, which no part of the action can observe.
- CanvasEvents.MouseDown: the corrected mouse-down of two Findings rows; it finishes a drag in progress and selects by the corrected click, where the source does neither.
- EditorMain.SaveRecord: the corrected save transaction of the Findings row for src/editor/main.ts:597-618; it also marks the saved animation's name, which the source does not, so saving a new animation is undoable here; the source's record is `SaveRecordAsWritten`.
- EditorMain.HandleAnimationSaved: commits `SaveRecord`, the corrected save transaction; in the source saving the first animation of a document commits no undo record (`SaveAsWrittenFirstAnimationNotRecorded`).
- PropertiesPanel.FieldOf: covers the twenty typed inputs of the bulb and score forms; the eight `<select>` properties (`textAlignment`, `romIdType`, `b2sIdType`, `initialState`, `dualMode`, `illuminationMode`, `b2sScoreType`, `b2sPlayerNo`) have no field, because the source stores the selected option's text in them, a string where the document's type holds a number or an enumeration.
- PropertiesPanel.SetBulbField: changes none of the bulb's `<select>` properties (see `PropertiesPanel.FieldOf`).
- PropertiesPanel.SetBulbProperty: a `<select>` property name changes nothing here, where the source assigns the selected text to it (see `PropertiesPanel.FieldOf`).
- PropertiesPanel.SetScoreField: changes neither `b2sScoreType` nor `b2sPlayerNo` (see `PropertiesPanel.FieldOf`).
- PropertiesPanel.SetScoreProperty: a `<select>` property name changes nothing here (see `PropertiesPanel.FieldOf`).
- PropertiesPanel.SetItemProperty: a `<select>` property name changes nothing here (see `PropertiesPanel.FieldOf`).
- PropertiesPanel.ApplyPropertyChange: a change of a `<select>` property changes no item here (see `PropertiesPanel.FieldOf`).
- Parser.XmlUnescape: decodes the character entities only; the XML parser's attribute-value normalisation, which turns a raw tab, line feed or carriage return into a space, is not modelled, and neither is the rejection of a file holding another control character below U+0020.
- Parser.GetAttribute: returns the attribute's text without the normalisation named under `Parser.XmlUnescape`.
- Writer.UnescapeEscapeXml: holds for every string only because attribute-value normalisation is not modelled; `escapeXml` leaves tabs, line feeds and carriage returns raw, so a real XML parser gives them back as spaces, and other control characters make the file unreadable.
- Writer.SlotLookup: inherits the restriction of `Writer.UnescapeEscapeXml`.
- Writer.ElementLookup: inherits the restriction of `Writer.UnescapeEscapeXml`.
- Writer.StepRoundTrip: inherits the restriction of `Writer.UnescapeEscapeXml`.
- Writer.StepsRoundTrip: inherits the restriction of `Writer.UnescapeEscapeXml`.
- Writer.AnimationRoundTrip: inherits the restriction of `Writer.UnescapeEscapeXml`; an animation name holding a tab comes back with a space in its place.
- Writer.HeaderReadBack: inherits the restriction of `Writer.UnescapeEscapeXml`; an author or id list holding a line break comes back with a space in its place.
- Writer.HeaderRoundTrip: inherits the restriction of `Writer.UnescapeEscapeXml`.
- DocumentWriter.AnimationBlocksRoundTrip: inherits the restriction of `Writer.UnescapeEscapeXml`.
- DocumentWriter.AnimationsRoundTrip: inherits the restriction of `Writer.UnescapeEscapeXml`.
- Parser.ReadRoot: a `GrillHeight` or `DMDDefaultLocation` child whose number does not parse gives 0 here, where the source stores `NaN`.
- EditorMain.SwitchTab: the source ends with `zoomToFit`; the model leaves zoom and pan unchanged, because fitting depends on the canvas's size, which is outside the model (`Renderer.ZoomToFit` models the fit itself).
- EditorMain.PerformResize: the closing `zoomToFit` is not modelled, for the reason given under `EditorMain.SwitchTab`, so zoom and pan stay unchanged.
- The `selectionChanged`, `dataChanged` and `undoStackChanged` notifications (src/editor/selection.ts, src/editor/properties-panel.ts, src/editor/object-operations.ts, src/editor/undo/undo-manager.ts): the registry is modelled as `Callbacks`, but no modelled operation invokes it; the listeners only refresh the screen.

## Findings

| source | as written | input that shows it | evidently intended | confidence | as-written member | corrected member |
|---|---|---|---|---|---|---|
| src/editor/main.ts:597-618 | `handleAnimationSaved` marks the animations for undo before a new animation is pushed, so the new name has no before snapshot | saving a new animation "A": undo keeps "A"; with no animations before, the record is empty and discarded | undo of an added animation removes it | high, not executed | EditorMain.SaveAsWrittenKeepsAddedAnimation | EditorMain.SaveIsUndoable |
| src/shared/menu-renderer-web.ts:16-30 | on Mac every "+" is removed after "Plus" has become "+" | `CmdOrCtrl+Plus` on Mac formats as "⌘" | "⌘+", the zoom-in key shown | high, not executed | MenuRendering.ZoomInWrittenOnMac | MenuRendering.ZoomInIntendedOnMac |
| src/editor/object-operations.ts:218-228 | with `commit` the transaction opens before the item lookup, and a missing item returns without `endUndo` | `resizeItem('bulb', 99, 'se', 5, 5)` with no bulb 99 | a missing item leaves the undo manager as it was | medium, not executed | ObjectOperations.ResizeItem | ObjectOperations.ResizeItemChecked |
| src/editor/canvas-events.ts:82-89 | a pan pressed during a move drag replaces the drag without ending its open transaction, and the pan's mouse-up does not end it | left press on a bulb, drag past the threshold, middle press, release | the move's transaction is closed | medium, not executed | CanvasEvents.PanDuringMoveLeaksTransaction | CanvasEvents.PanDuringMoveChecked |
| src/editor/canvas-events.ts:119-130 | clicking an already selected item without shift calls `selectBulb(id, false)`, which clears the rest of the selection | bulbs 1 and 2 selected, press on bulb 1 to drag both | the group stays selected and moves together | medium, not executed | CanvasEvents.ClickAsWrittenCollapsesGroup | CanvasEvents.ClickKeepsGroup |
