/**
 * The directB2S backglass document: the entities the editor creates, moves,
 * resizes, deletes and restores through undo.  Every entity is a value; the
 * document is held by `EditorState.data` and replaced field by field.
 *
 * Geometry (`locX`, `locY`, `width`, `height`) is a `real`: the editor adds
 * fractional world-space drag deltas to it.
 */
module Data {
  import opened Wrappers

  datatype Parent = Backglass | Dmd
  datatype TableType = EM | SS | SSDMD | ORI
  datatype DmdType = NoDmd | BuiltIn | External
  datatype CommType = Rom | B2S
  datatype DestType = DestAuthentic | DestFantasy
  datatype RomIdType = Lamp | Solenoid | GIString
  datatype B2SIdType = Cyclic | Straight
  datatype RotatingDirection = NoRotation | Clockwise | CounterClockwise
  datatype InitialState = InitiallyOff | InitiallyOn | InitiallyUndefined
  datatype DualMode = Both | Authentic | Fantasy
  datatype IlluminationMode = Standard | Flasher
  datatype LightState = LightOff | LightOn | NoChange | Reset
  datatype StopBehaviour = Immediate | RunTillEnd | ReturnToFirstStep

  /** The names the document and the lamp filter use for a ROM id type. */
  function RomIdTypeName(t: RomIdType): (s: string)
    ensures |s| > 0 && s[0] != 'I' && '-' !in s
  {
    match t
    case Lamp => "Lamp"
    case Solenoid => "Solenoid"
    case GIString => "GIString"
  }

  /** An RGBA colour; channels are stored as the integers read from the file. */
  datatype Color = Color(r: int, g: int, b: int, a: int)

  /** An illumination (bulb) entry of the backglass or of the DMD. */
  datatype Bulb = Bulb(
    id: int,
    name: string,
    parent: Parent,
    romId: int,
    romIdType: RomIdType,
    romInverted: bool,
    b2sId: int,
    b2sIdType: B2SIdType,
    lightColor: Color,
    dodgeColor: Option<Color>,
    locX: real,
    locY: real,
    width: real,
    height: real,
    intensity: int,
    isImageSnippet: bool,
    imageData: string,
    snippetRotatingDirection: RotatingDirection,
    text: string,
    textAlignment: int,
    fontName: string,
    fontSize: int,
    fontStyle: int,
    visible: bool,
    initialState: InitialState,
    dualMode: DualMode,
    illuminationMode: IlluminationMode,
    zOrder: int)

  /** A score display (LED or EM reel) of the backglass or of the DMD. */
  datatype Score = Score(
    id: int,
    parent: Parent,
    reelType: string,
    digits: int,
    spacing: int,
    locX: real,
    locY: real,
    width: real,
    height: real,
    reelColor: Color,
    reelLitColor: Option<Color>,
    reelDarkColor: Option<Color>,
    glow: int,
    thickness: int,
    shear: int,
    displayState: int,
    b2sStartDigit: int,
    b2sScoreType: int,
    b2sPlayerNo: int,
    visible: bool)

  datatype AnimationStep = AnimationStep(
    step: int,
    on: string,
    off: string,
    waitLoopsAfterOn: int,
    waitLoopsAfterOff: int,
    pulseSwitch: int)

  datatype Animation = Animation(
    name: string,
    dualMode: DualMode,
    interval: int,
    loops: int,
    idJoin: string,
    startAnimationAtRomStart: bool,
    lightAtStart: LightState,
    lightAtEnd: LightState,
    animationStopBehaviour: StopBehaviour,
    lockAtLastStep: bool,
    hideAtStart: bool,
    bringToFront: bool,
    randomStart: bool,
    randomQuality: int,
    steps: seq<AnimationStep>)

  datatype BackgroundImage = BackgroundImage(
    fileName: string, romId: int, romIdType: RomIdType, imageType: string, imageData: string)
  datatype NamedImage = NamedImage(fileName: string, imageData: string)

  datatype ImageCollection = ImageCollection(
    backgroundImages: seq<BackgroundImage>,
    illuminatedImages: seq<NamedImage>,
    dmdImages: seq<NamedImage>,
    thumbnailImage: Option<string>)

  /** The document header fields and entity lists the editor works on. */
  datatype Document = Document(
    name: string,
    tableType: TableType,
    dmdType: DmdType,
    commType: CommType,
    destType: DestType,
    dmdDefaultLocationX: int,
    dmdDefaultLocationY: int,
    dmdCopyAreaX: int,
    dmdCopyAreaY: int,
    dmdCopyAreaWidth: int,
    dmdCopyAreaHeight: int,
    grillHeight: int,
    smallGrillHeight: int,
    numberOfPlayers: int,
    animations: seq<Animation>,
    scores: seq<Score>,
    illumination: seq<Bulb>,
    images: ImageCollection)

  /** The empty document of a new file (the GUIDs and reel settings are not modelled). */
  function EmptyDocument(): (d: Document)
    ensures d.illumination == [] && d.scores == [] && d.animations == []
    ensures d.tableType == SS && d.dmdType == NoDmd && d.numberOfPlayers == 4
    ensures d.grillHeight == 0 && d.smallGrillHeight == 0
    ensures d.dmdCopyAreaWidth == 0 && d.dmdCopyAreaHeight == 0
  {
    Document("", SS, NoDmd, Rom, DestAuthentic, 0, 0, 0, 0, 0, 0, 0, 0, 4, [], [], [],
      ImageCollection([], [], [], None))
  }

  /** A new bulb at 100,100 of size 50x50, yellow, named `Bulb<id>`. */
  function DefaultBulb(id: int, name: string): (b: Bulb)
    ensures b.id == id && b.name == name && b.parent == Backglass
    ensures b.locX == 100.0 && b.locY == 100.0 && b.width == 50.0 && b.height == 50.0
    ensures b.lightColor == Color(255, 255, 0, 255) && b.dodgeColor.None?
  {
    Bulb(id, name, Backglass, 0, Lamp, false, 0, Straight, Color(255, 255, 0, 255), None,
      100.0, 100.0, 50.0, 50.0, 3, false, "", NoRotation, "", 0, "Arial", 12, 0, true,
      InitiallyOff, Both, Standard, 0)
  }

  /** A new seven-digit Dream7 LED score at 100,100 of size 200x50. */
  function DefaultScore(id: int): (s: Score)
    ensures s.id == id && s.parent == Backglass && s.reelType == "Dream7LED8"
    ensures s.locX == 100.0 && s.locY == 100.0 && s.width == 200.0 && s.height == 50.0
    ensures s.b2sPlayerNo == 1 && s.reelLitColor.None? && s.reelDarkColor.Some?
  {
    Score(id, Backglass, "Dream7LED8", 7, 5, 100.0, 100.0, 200.0, 50.0,
      Color(255, 120, 0, 255), None, Some(Color(15, 15, 15, 255)),
      1500, 2000, 10, 0, 0, 1, 1, true)
  }

  // ---------------------------------------------------------------------
  // Lookup by key, as `Array.prototype.find` / `findIndex` do it

  /** No two entries share a key. */
  predicate UniqueKeys<K(==), T>(items: seq<T>, key: T -> K)
  {
    forall i, j :: 0 <= i < j < |items| ==> key(items[i]) != key(items[j])
  }

  predicate HasKey<K(==), T>(items: seq<T>, key: T -> K, k: K)
  {
    exists i :: 0 <= i < |items| && key(items[i]) == k
  }

  /** `items.findIndex(x => key(x) === k)`, with `None` for -1. */
  function FindIndex<K(==), T>(items: seq<T>, key: T -> K, k: K): (r: Option<nat>)
    ensures r.Some? ==> r.value < |items| && key(items[r.value]) == k
    ensures r.Some? ==> forall i :: 0 <= i < r.value ==> key(items[i]) != k
    ensures r.None? <==> !HasKey(items, key, k)
  {
    if items == [] then None
    else if key(items[0]) == k then Some(0)
    else match FindIndex(items[1..], key, k)
      case None => None
      case Some(i) => Some(i + 1)
  }

  /** `items.find(x => key(x) === k)`, with `None` for `undefined`. */
  function Find<K(==), T>(items: seq<T>, key: T -> K, k: K): (r: Option<T>)
    ensures r.Some? <==> HasKey(items, key, k)
    ensures r.Some? ==> r.value in items && key(r.value) == k
  {
    match FindIndex(items, key, k)
    case None => None
    case Some(i) => Some(items[i])
  }

  /** With unique keys the entry found is the only one with that key. */
  lemma FindUnique<K, T>(items: seq<T>, key: T -> K, i: nat)
    requires UniqueKeys(items, key) && i < |items|
    ensures Find(items, key, key(items[i])) == Some(items[i])
  {
    var r := FindIndex(items, key, key(items[i]));
    assert r.Some?;
    assert r.value == i by {
      if r.value < i {
      } else if r.value > i {
      }
    }
  }

  function BulbKey(b: Bulb): int { b.id }
  function ScoreKey(s: Score): int { s.id }
  function AnimationKey(a: Animation): string { a.name }

  /** Two lists with the same keys position by position find every key at the same index. */
  lemma {:induction false} FindIndexSameKeys<K, T>(a: seq<T>, b: seq<T>, key: T -> K, k: K)
    requires |a| == |b| && forall i :: 0 <= i < |a| ==> key(a[i]) == key(b[i])
    ensures FindIndex(a, key, k) == FindIndex(b, key, k)
  {
    if a != [] {
      FindIndexSameKeys(a[1..], b[1..], key, k);
    }
  }
}
