/**
 * The properties panel: reading a form input, writing the value into the
 * selected bulb or score, the undo discipline of a property edit (a live
 * preview only marks the document dirty, a committed change is one undo
 * transaction), the reel type picker, and clicks in the item lists.
 */
module PropertiesPanel {
  import opened Wrappers
  import opened Text
  import opened Data
  import opened Hex
  import opened UndoRecords
  import opened State
  import opened Undo
  import opened Selection

  /** The `type` of the input element a property is edited with. */
  datatype InputType = NumberInput | RangeInput | ColorInput | CheckboxInput | TextInput | SelectInput

  /** What `getInputValue` returns: a JavaScript number, a color, a boolean or a string. */
  datatype PropValue = NumValue(x: real) | ColorValue(c: Color) | BoolValue(b: bool) | TextValue(s: string)

  /** JavaScript truthiness of a value (`if (value)`). */
  predicate Truthy(v: PropValue)
  {
    match v
    case NumValue(x) => x != 0.0
    case ColorValue(_) => true
    case BoolValue(b) => b
    case TextValue(s) => s != ""
  }

  /**
   * `getInputValue`: a number or range input reads `parseInt(value, 10) || 0`,
   * a color input `hexToRgb(value)`, a checkbox its checked state, anything
   * else its value string.
   */
  function InputValue(kind: InputType, value: string, checked: bool): (v: PropValue)
    ensures (kind == NumberInput || kind == RangeInput) <==> v.NumValue?
    ensures v.NumValue? ==> v.x == v.x.Floor as real
    ensures v.NumValue? && ParseInt(value).Some? ==> v.x == ParseInt(value).value as real
    ensures v.NumValue? && ParseInt(value).None? ==> v.x == 0.0
    ensures kind == ColorInput <==> v.ColorValue?
    ensures v.ColorValue? ==> v.c.a == 255 && (!IsHexColor(value) ==> v.c == Color(255, 255, 255, 255))
    ensures kind == CheckboxInput ==> v == BoolValue(checked)
    ensures kind == TextInput || kind == SelectInput ==> v == TextValue(value)
  {
    match kind
    case NumberInput => NumValue(ParseIntOrZero(value) as real)
    case RangeInput => NumValue(ParseIntOrZero(value) as real)
    case ColorInput => ColorValue(HexToRgb(value))
    case CheckboxInput => BoolValue(checked)
    case _ => TextValue(value)
  }

  /** A number input showing an integer reads that integer back. */
  lemma InputValueOfShownNumber(i: int, rest: string)
    requires |rest| > 0 ==> !IsDigit(rest[0])
    ensures InputValue(NumberInput, IntToString(i) + rest, false) == NumValue(i as real)
  {
    ParseIntOfIntToString(i, rest);
  }

  /** A color input showing `rgbToHex(c)` reads the color back, made opaque. */
  lemma InputValueOfShownColor(c: Color)
    requires 0 <= c.r < 256 && 0 <= c.g < 256 && 0 <= c.b < 256
    ensures InputValue(ColorInput, RgbToHex(c), false) == ColorValue(c.(a := 255))
  {
    HexToRgbOfRgbToHex(c);
  }

  // ---------------------------------------------------------------------
  // Property names

  /** The `data-prop` names of the bulb and score forms that hold a typed value. */
  datatype Field =
    | NameField | TextField | FontNameField | VisibleField | RomInvertedField | LightColorField
    | LocXField | LocYField | WidthField | HeightField
    | IntensityField | ZOrderField | FontSizeField | RomIdField | B2SIdField
    | ReelColorField | UseDream7Field | DigitsField | SpacingField | B2SStartDigitField

  function FieldName(f: Field): string
  {
    match f
    case NameField => "name"
    case TextField => "text"
    case FontNameField => "fontName"
    case VisibleField => "visible"
    case RomInvertedField => "romInverted"
    case LightColorField => "lightColor"
    case LocXField => "locX"
    case LocYField => "locY"
    case WidthField => "width"
    case HeightField => "height"
    case IntensityField => "intensity"
    case ZOrderField => "zOrder"
    case FontSizeField => "fontSize"
    case RomIdField => "romId"
    case B2SIdField => "b2sId"
    case ReelColorField => "reelColor"
    case UseDream7Field => "useDream7"
    case DigitsField => "digits"
    case SpacingField => "spacing"
    case B2SStartDigitField => "b2sStartDigit"
  }

  /** The field a `data-prop` name stands for; `None` for any other name. */
  function FieldOf(prop: string): (r: Option<Field>)
    ensures r.Some? ==> FieldName(r.value) == prop
  {
    if prop == "name" then Some(NameField)
    else if prop == "text" then Some(TextField)
    else if prop == "fontName" then Some(FontNameField)
    else if prop == "visible" then Some(VisibleField)
    else if prop == "romInverted" then Some(RomInvertedField)
    else if prop == "lightColor" then Some(LightColorField)
    else if prop == "locX" then Some(LocXField)
    else if prop == "locY" then Some(LocYField)
    else if prop == "width" then Some(WidthField)
    else if prop == "height" then Some(HeightField)
    else if prop == "intensity" then Some(IntensityField)
    else if prop == "zOrder" then Some(ZOrderField)
    else if prop == "fontSize" then Some(FontSizeField)
    else if prop == "romId" then Some(RomIdField)
    else if prop == "b2sId" then Some(B2SIdField)
    else if prop == "reelColor" then Some(ReelColorField)
    else if prop == "useDream7" then Some(UseDream7Field)
    else if prop == "digits" then Some(DigitsField)
    else if prop == "spacing" then Some(SpacingField)
    else if prop == "b2sStartDigit" then Some(B2SStartDigitField)
    else None
  }

  /** Every field is found under its own name. */
  lemma FieldOfFieldName(f: Field)
    ensures FieldOf(FieldName(f)) == Some(f)
  {
  }

  /** A value of a JavaScript number that is an integer, as the integer fields hold. */
  predicate IsIntegral(v: PropValue)
  {
    v.NumValue? && v.x == v.x.Floor as real
  }

  // ---------------------------------------------------------------------
  // Bulb properties

  /** The value the bulb form holds for a field; `None` for a score field. */
  function BulbField(b: Bulb, f: Field): Option<PropValue>
  {
    match f
    case NameField => Some(TextValue(b.name))
    case TextField => Some(TextValue(b.text))
    case FontNameField => Some(TextValue(b.fontName))
    case VisibleField => Some(BoolValue(b.visible))
    case RomInvertedField => Some(BoolValue(b.romInverted))
    case LightColorField => Some(ColorValue(b.lightColor))
    case LocXField => Some(NumValue(b.locX))
    case LocYField => Some(NumValue(b.locY))
    case WidthField => Some(NumValue(b.width))
    case HeightField => Some(NumValue(b.height))
    case IntensityField => Some(NumValue(b.intensity as real))
    case ZOrderField => Some(NumValue(b.zOrder as real))
    case FontSizeField => Some(NumValue(b.fontSize as real))
    case RomIdField => Some(NumValue(b.romId as real))
    case B2SIdField => Some(NumValue(b.b2sId as real))
    case _ => None
  }

  /** A value of the kind the bulb field holds. */
  predicate BulbAccepts(f: Field, v: PropValue)
  {
    match f
    case NameField | TextField | FontNameField => v.TextValue?
    case VisibleField | RomInvertedField => v.BoolValue?
    case LightColorField => v.ColorValue?
    case LocXField | LocYField | WidthField | HeightField => v.NumValue?
    case IntensityField | ZOrderField | FontSizeField | RomIdField | B2SIdField => IsIntegral(v)
    case _ => false
  }

  /**
   * One field of `setProperty` on a bulb: the light color takes a color, a
   * string "visible" becomes the comparison with "true", and every other
   * field is assigned the value (integer fields its integer part).
   */
  function SetBulbField(b: Bulb, f: Field, v: PropValue): (r: Bulb)
    ensures r.id == b.id && r.parent == b.parent
    ensures BulbField(b, f).None? ==> r == b
  {
    match f
    case NameField => if v.TextValue? then b.(name := v.s) else b
    case TextField => if v.TextValue? then b.(text := v.s) else b
    case FontNameField => if v.TextValue? then b.(fontName := v.s) else b
    case VisibleField =>
      (match v
       case TextValue(s) => b.(visible := s == "true")
       case BoolValue(x) => b.(visible := x)
       case _ => b)
    case RomInvertedField => if v.BoolValue? then b.(romInverted := v.b) else b
    case LightColorField => if v.ColorValue? then b.(lightColor := v.c) else b
    case LocXField => if v.NumValue? then b.(locX := v.x) else b
    case LocYField => if v.NumValue? then b.(locY := v.x) else b
    case WidthField => if v.NumValue? then b.(width := v.x) else b
    case HeightField => if v.NumValue? then b.(height := v.x) else b
    case IntensityField => if v.NumValue? then b.(intensity := v.x.Floor) else b
    case ZOrderField => if v.NumValue? then b.(zOrder := v.x.Floor) else b
    case FontSizeField => if v.NumValue? then b.(fontSize := v.x.Floor) else b
    case RomIdField => if v.NumValue? then b.(romId := v.x.Floor) else b
    case B2SIdField => if v.NumValue? then b.(b2sId := v.x.Floor) else b
    case _ => b
  }

  /** `setProperty(bulb, prop, value)`: a name that is no bulb field leaves the bulb alone. */
  function SetBulbProperty(b: Bulb, prop: string, v: PropValue): (r: Bulb)
    ensures r.id == b.id && r.parent == b.parent
  {
    match FieldOf(prop)
    case None => b
    case Some(f) => SetBulbField(b, f, v)
  }

  /** A bulb field reads back the value of its kind that was set. */
  lemma BulbSetThenGet(b: Bulb, f: Field, v: PropValue)
    requires BulbAccepts(f, v)
    ensures BulbField(SetBulbField(b, f, v), f) == Some(v)
  {
  }

  /** Setting one bulb field leaves every other field as it was. */
  lemma BulbSetKeepsOthers(b: Bulb, f: Field, v: PropValue, other: Field)
    requires other != f
    ensures BulbField(SetBulbField(b, f, v), other) == BulbField(b, other)
  {
  }

  // ---------------------------------------------------------------------
  // Score properties

  /** The score panel's "Use Dream7 LEDs" box is checked for a Dream7 or rendered LED reel. */
  predicate IsLed(reelType: string)
  {
    StartsWith(reelType, "Dream7") || StartsWith(reelType, "Rendered")
  }

  /** The value the score form holds for a field (the visibility select holds a string); `None` for a bulb field. */
  function ScoreField(s: Score, f: Field): Option<PropValue>
  {
    match f
    case ReelColorField => Some(ColorValue(s.reelColor))
    case VisibleField => Some(TextValue(if s.visible then "true" else "false"))
    case UseDream7Field => Some(BoolValue(IsLed(s.reelType)))
    case LocXField => Some(NumValue(s.locX))
    case LocYField => Some(NumValue(s.locY))
    case WidthField => Some(NumValue(s.width))
    case HeightField => Some(NumValue(s.height))
    case DigitsField => Some(NumValue(s.digits as real))
    case SpacingField => Some(NumValue(s.spacing as real))
    case B2SStartDigitField => Some(NumValue(s.b2sStartDigit as real))
    case _ => None
  }

  /** A value the score field's input delivers and reads back. */
  predicate ScoreAccepts(f: Field, v: PropValue)
  {
    match f
    case ReelColorField => v.ColorValue?
    case VisibleField => v == TextValue("true") || v == TextValue("false")
    case UseDream7Field => v.BoolValue?
    case LocXField | LocYField | WidthField | HeightField => v.NumValue?
    case DigitsField | SpacingField | B2SStartDigitField => IsIntegral(v)
    case _ => false
  }

  /**
   * One field of `setProperty` on a score: the reel color takes a color,
   * the string "visible" becomes a boolean, "useDream7" picks the Dream7 LED
   * or the default EM reel by the truth of the value, the rest is assigned.
   */
  function SetScoreField(s: Score, f: Field, v: PropValue): (r: Score)
    ensures r.id == s.id && r.parent == s.parent
    ensures ScoreField(s, f).None? ==> r == s
    ensures f == UseDream7Field ==> r.reelType == (if Truthy(v) then "Dream7LED8" else "EMR_T1_0")
  {
    match f
    case ReelColorField => if v.ColorValue? then s.(reelColor := v.c) else s
    case VisibleField =>
      (match v
       case TextValue(t) => s.(visible := t == "true")
       case BoolValue(x) => s.(visible := x)
       case _ => s)
    case UseDream7Field => s.(reelType := if Truthy(v) then "Dream7LED8" else "EMR_T1_0")
    case LocXField => if v.NumValue? then s.(locX := v.x) else s
    case LocYField => if v.NumValue? then s.(locY := v.x) else s
    case WidthField => if v.NumValue? then s.(width := v.x) else s
    case HeightField => if v.NumValue? then s.(height := v.x) else s
    case DigitsField => if v.NumValue? then s.(digits := v.x.Floor) else s
    case SpacingField => if v.NumValue? then s.(spacing := v.x.Floor) else s
    case B2SStartDigitField => if v.NumValue? then s.(b2sStartDigit := v.x.Floor) else s
    case _ => s
  }

  /** `setProperty(score, prop, value)`: a name that is no score field leaves the score alone. */
  function SetScoreProperty(s: Score, prop: string, v: PropValue): (r: Score)
    ensures r.id == s.id && r.parent == s.parent
  {
    match FieldOf(prop)
    case None => s
    case Some(f) => SetScoreField(s, f, v)
  }

  /** The two reels "useDream7" picks: the Dream7 LED one shows as checked, the EM one as unchecked. */
  lemma DreamReels()
    ensures IsLed("Dream7LED8") && !IsLed("EMR_T1_0")
  {
    assert "Dream7LED8"[..6] == "Dream7";
    assert "EMR_T1_0"[..6] != "Dream7" by { assert "EMR_T1_0"[0] == 'E'; }
    assert "EMR_T1_0"[..8] != "Rendered" by { assert "EMR_T1_0"[0] == 'E'; }
  }

  /** A score field reads back the value its input delivers. */
  lemma ScoreSetThenGet(s: Score, f: Field, v: PropValue)
    requires ScoreAccepts(f, v)
    ensures ScoreField(SetScoreField(s, f, v), f) == Some(v)
  {
    DreamReels();
  }

  /** Setting one score field leaves every other field as it was. */
  lemma ScoreSetKeepsOthers(s: Score, f: Field, v: PropValue, other: Field)
    requires other != f
    ensures ScoreField(SetScoreField(s, f, v), other) == ScoreField(s, other)
  {
  }

  // ---------------------------------------------------------------------
  // Changing the first item with an id

  /** `getById(id)` followed by an update of the object found: only the first item with that key changes. */
  function WithFirst<K(==), T(!new)>(items: seq<T>, key: T -> K, k: K, f: T -> T): (r: seq<T>)
    requires forall x :: key(f(x)) == key(x)
    ensures |r| == |items|
    ensures forall j :: 0 <= j < |items| ==> key(r[j]) == key(items[j])
    ensures forall j :: 0 <= j < |items| && FindIndex(items, key, k) != Some(j) ==> r[j] == items[j]
  {
    match FindIndex(items, key, k)
    case None => items
    case Some(i) => items[i := f(items[i])]
  }

  /** After `WithFirst` the key finds the updated item, and every other key finds what it found before. */
  lemma WithFirstFind<K, T(!new)>(items: seq<T>, key: T -> K, k: K, f: T -> T, k2: K)
    requires forall x :: key(f(x)) == key(x)
    ensures k2 == k ==>
      Find(WithFirst(items, key, k, f), key, k2) == match Find(items, key, k) case None => None case Some(x) => Some(f(x))
    ensures k2 != k ==> Find(WithFirst(items, key, k, f), key, k2) == Find(items, key, k2)
  {
    var r := WithFirst(items, key, k, f);
    FindIndexSameKeys(r, items, key, k2);
  }

  lemma WithFirstUnique<K, T(!new)>(items: seq<T>, key: T -> K, k: K, f: T -> T)
    requires forall x :: key(f(x)) == key(x)
    requires UniqueKeys(items, key)
    ensures UniqueKeys(WithFirst(items, key, k, f), key)
  {
  }

  /** The document after a property change of the bulb or score with this id. */
  function ChangedDocument(d: Document, kind: SelectionType, id: int, prop: string, v: PropValue): Document
  {
    if kind == BulbSelection then
      d.(illumination := WithFirst(d.illumination, BulbKey, id, b => SetBulbProperty(b, prop, v)))
    else
      d.(scores := WithFirst(d.scores, ScoreKey, id, s => SetScoreProperty(s, prop, v)))
  }

  /** The document after the reel picker set the reel type of the score with this id. */
  function ReelTypeChanged(d: Document, id: int, reelType: string): Document
  {
    d.(scores := WithFirst(d.scores, ScoreKey, id, (s: Score) => s.(reelType := reelType)))
  }

  /** The open record `r` once the bulb or score with this id is marked for undo, a first snapshot kept. */
  function ItemMarks(r: UndoRecord, d: Document, kind: SelectionType, id: int): UndoRecord
    requires DistinctKeys(r.bulbSnapshots) && DistinctKeys(r.scoreSnapshots)
  {
    if kind == BulbSelection then r.(bulbSnapshots := MarkForUndo(r.bulbSnapshots, id, Find(d.illumination, BulbKey, id)))
    else r.(scoreSnapshots := MarkForUndo(r.scoreSnapshots, id, Find(d.scores, ScoreKey, id)))
  }

  /** The record of a one-item edit: one snapshot of the bulb or score with this id, taken before the change. */
  function ItemRecord(d: Document, description: string, kind: SelectionType, id: int): (r: UndoRecord)
    ensures WellFormed(r) && HasChanges(r)
    ensures r.description == description
  {
    if kind == BulbSelection then
      MarkForUndoWellKeyed([], BulbKey, id, Find(d.illumination, BulbKey, id));
      ItemMarks(CreateUndoRecord(description), d, kind, id)
    else
      MarkForUndoWellKeyed([], ScoreKey, id, Find(d.scores, ScoreKey, id));
      ItemMarks(CreateUndoRecord(description), d, kind, id)
  }

  /** A one-item record marks exactly its id. */
  lemma ItemRecordMarks(d: Document, description: string, kind: SelectionType, id: int, k: int)
    ensures kind == BulbSelection ==>
      (Has(ItemRecord(d, description, kind, id).bulbSnapshots, k) <==> k == id)
      && ItemRecord(d, description, kind, id).scoreSnapshots == []
    ensures kind == ScoreSelection ==>
      (Has(ItemRecord(d, description, kind, id).scoreSnapshots, k) <==> k == id)
      && ItemRecord(d, description, kind, id).bulbSnapshots == []
  {
    var r := ItemRecord(d, description, kind, id);
    if kind == BulbSelection {
      assert |r.bulbSnapshots| == 1 && r.bulbSnapshots[0].key == id;
      assert Has(r.bulbSnapshots, id);
    } else {
      assert |r.scoreSnapshots| == 1 && r.scoreSnapshots[0].key == id;
      assert Has(r.scoreSnapshots, id);
    }
  }

  /**
   * Undoing a committed edit of one item gives back the content the
   * document had before: only the item with the marked id changed.
   */
  lemma ItemEditIsUndoable(start: Document, now: Document, description: string, kind: SelectionType, id: int)
    requires UniqueIds(start)
    requires kind == BulbSelection ==>
      && now == start.(illumination := now.illumination)
      && UniqueKeys(now.illumination, BulbKey)
      && (forall k :: k != id ==> Find(now.illumination, BulbKey, k) == Find(start.illumination, BulbKey, k))
    requires kind == ScoreSelection ==>
      && now == start.(scores := now.scores)
      && UniqueKeys(now.scores, ScoreKey)
      && (forall k :: k != id ==> Find(now.scores, ScoreKey, k) == Find(start.scores, ScoreKey, k))
    ensures SameContent(ApplyRecordTo(now, FinalizeRecord(ItemRecord(start, description, kind, id), now), true), start)
  {
    var r := ItemRecord(start, description, kind, id);
    forall k
      ensures kind == BulbSelection ==> (Has(r.bulbSnapshots, k) <==> k == id) && r.scoreSnapshots == []
      ensures kind == ScoreSelection ==> (Has(r.scoreSnapshots, k) <==> k == id) && r.bulbSnapshots == []
    {
      ItemRecordMarks(start, description, kind, id, k);
    }
    assert CapturedFrom(r, start) by {
      if kind == BulbSelection {
        assert |r.bulbSnapshots| == 1 && r.bulbSnapshots[0].key == id;
      } else {
        assert |r.scoreSnapshots| == 1 && r.scoreSnapshots[0].key == id;
      }
    }
    assert ChangedOnlyMarked(r, start, now);
    UndoGivesBackStart(start, now, r);
  }

  /** Undoing a committed property change gives back the content the document had before. */
  lemma PropertyChangeIsUndoable(start: Document, kind: SelectionType, id: int, prop: string, v: PropValue)
    requires UniqueIds(start)
    ensures var now := ChangedDocument(start, kind, id, prop, v);
      SameContent(ApplyRecordTo(now, FinalizeRecord(ItemRecord(start, "Change " + prop, kind, id), now), true), start)
  {
    var now := ChangedDocument(start, kind, id, prop, v);
    if kind == BulbSelection {
      var f := (b: Bulb) => SetBulbProperty(b, prop, v);
      WithFirstUnique(start.illumination, BulbKey, id, f);
      forall k | k != id
        ensures Find(now.illumination, BulbKey, k) == Find(start.illumination, BulbKey, k)
      {
        WithFirstFind(start.illumination, BulbKey, id, f, k);
      }
    } else {
      var f := (s: Score) => SetScoreProperty(s, prop, v);
      WithFirstUnique(start.scores, ScoreKey, id, f);
      forall k | k != id
        ensures Find(now.scores, ScoreKey, k) == Find(start.scores, ScoreKey, k)
      {
        WithFirstFind(start.scores, ScoreKey, id, f, k);
      }
    }
    ItemEditIsUndoable(start, now, "Change " + prop, kind, id);
  }

  /** Undoing a committed reel type change gives back the content the document had before. */
  lemma ReelTypeChangeIsUndoable(start: Document, id: int, reelType: string)
    requires UniqueIds(start)
    ensures var now := ReelTypeChanged(start, id, reelType);
      SameContent(ApplyRecordTo(now, FinalizeRecord(ItemRecord(start, "Change reel type", ScoreSelection, id), now), true), start)
  {
    var now := ReelTypeChanged(start, id, reelType);
    var f := (s: Score) => s.(reelType := reelType);
    WithFirstUnique(start.scores, ScoreKey, id, f);
    forall k | k != id
      ensures Find(now.scores, ScoreKey, k) == Find(start.scores, ScoreKey, k)
    {
      WithFirstFind(start.scores, ScoreKey, id, f, k);
    }
    ItemEditIsUndoable(start, now, "Change reel type", ScoreSelection, id);
  }

  // ---------------------------------------------------------------------
  // Event handlers

  /** Writes the value into the first bulb or score with the id, if there is one. */
  method SetItemProperty(st: EditorState, kind: SelectionType, id: int, prop: string, v: PropValue)
    modifies st`data
    ensures st.data == ChangedDocument(old(st.data), kind, id, prop, v)
  {
    if kind == BulbSelection {
      var i := FindIndex(st.data.illumination, BulbKey, id);
      if i.Some? {
        var bulb := st.data.illumination[i.value];
        st.data := st.data.(illumination := st.data.illumination[i.value := SetBulbProperty(bulb, prop, v)]);
      }
    } else {
      var i := FindIndex(st.data.scores, ScoreKey, id);
      if i.Some? {
        var score := st.data.scores[i.value];
        st.data := st.data.(scores := st.data.scores[i.value := SetScoreProperty(score, prop, v)]);
      }
    }
  }

  /**
   * `applyPropertyChange`: a preview (an `input` event while typing or
   * dragging) changes the item and marks the document dirty without any
   * undo transaction; a committed change (`change`) marks the item, changes
   * it and commits one "Change <prop>" record.
   */
  method ApplyPropertyChange(st: EditorState, um: UndoManager, kind: SelectionType, id: int, prop: string,
                             v: PropValue, preview: bool)
    requires um.Valid()
    modifies st`data, st`isDirty, um
    ensures um.Valid()
    ensures st.data == ChangedDocument(old(st.data), kind, id, prop, v)
    ensures preview ==>
      st.isDirty && um.undoStack == old(um.undoStack) && um.redoStack == old(um.redoStack)
      && um.currentRecord == old(um.currentRecord) && um.transactionDepth == old(um.transactionDepth)
      && um.savePointIndex == old(um.savePointIndex)
    ensures !preview && old(um.transactionDepth) == 0 ==>
      um.undoStack == PushCapped(old(um.undoStack),
        FinalizeRecord(ItemRecord(old(st.data), "Change " + prop, kind, id), st.data))
      && um.redoStack == [] && um.transactionDepth == 0 && st.isDirty
    ensures !preview && old(um.transactionDepth) > 0 ==>
      um.transactionDepth == old(um.transactionDepth) && um.undoStack == old(um.undoStack)
      && um.redoStack == old(um.redoStack) && st.isDirty == old(st.isDirty)
      && um.currentRecord == Some(ItemMarks(old(um.currentRecord).value, old(st.data), kind, id))
  {
    ghost var start := st.data;
    if !preview {
      um.BeginUndo("Change " + prop);
      if kind == BulbSelection {
        um.MarkBulbForUndo(st, id);
      } else {
        um.MarkScoreForUndo(st, id);
      }
      assert old(um.transactionDepth) == 0 ==> um.currentRecord == Some(ItemRecord(start, "Change " + prop, kind, id));
    }
    SetItemProperty(st, kind, id, prop, v);
    if !preview {
      um.EndUndo(st);
    } else {
      st.MarkDirty();
    }
  }

  /** `applyReelTypeChange`: one "Change reel type" transaction that sets the reel type of the score. */
  method ApplyReelTypeChange(st: EditorState, um: UndoManager, id: int, reelType: string)
    requires um.Valid()
    modifies st`data, st`isDirty, um
    ensures um.Valid()
    ensures st.data == ReelTypeChanged(old(st.data), id, reelType)
    ensures old(um.transactionDepth) == 0 ==>
      um.undoStack == PushCapped(old(um.undoStack),
        FinalizeRecord(ItemRecord(old(st.data), "Change reel type", ScoreSelection, id), st.data))
      && um.redoStack == [] && um.transactionDepth == 0 && st.isDirty
    ensures old(um.transactionDepth) > 0 ==>
      um.transactionDepth == old(um.transactionDepth) && um.undoStack == old(um.undoStack)
      && um.redoStack == old(um.redoStack) && st.isDirty == old(st.isDirty)
      && um.currentRecord == Some(ItemMarks(old(um.currentRecord).value, old(st.data), ScoreSelection, id))
  {
    ghost var start := st.data;
    um.BeginUndo("Change reel type");
    um.MarkScoreForUndo(st, id);
    assert old(um.transactionDepth) == 0 ==>
      um.currentRecord == Some(ItemRecord(start, "Change reel type", ScoreSelection, id));
    var i := FindIndex(st.data.scores, ScoreKey, id);
    if i.Some? {
      var score := st.data.scores[i.value];
      st.data := st.data.(scores := st.data.scores[i.value := score.(reelType := reelType)]);
    }
    um.EndUndo(st);
  }

  /**
   * A click on an item of the bulb or score list: without shift both
   * selections are cleared first; the item is added and becomes primary.
   */
  method ListItemClick(st: EditorState, kind: SelectionType, id: int, shiftKey: bool)
    modifies st`selectedBulbIds, st`selectedScoreIds, st`primarySelection
    ensures SelectionOf(st) == Select(old(SelectionOf(st)), kind, id, shiftKey)
    ensures !shiftKey ==> forall k, x :: IsIn(SelectionOf(st), k, x) <==> k == kind && x == id
  {
    if !shiftKey {
      st.selectedBulbIds := [];
      st.selectedScoreIds := [];
    }
    if kind == BulbSelection {
      st.selectedBulbIds := AddId(st.selectedBulbIds, id);
    } else {
      st.selectedScoreIds := AddId(st.selectedScoreIds, id);
    }
    st.primarySelection := Some(PrimarySelection(kind, id));
  }
}
