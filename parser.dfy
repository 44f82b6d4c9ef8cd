/**
 * The value decoders of the directB2S reader.  The DOM traversal that finds
 * the elements is not modelled: an element is seen through its attributes,
 * as `getAttribute` returns them after the XML parser has decoded the
 * character entities.  There is no `NaN` here: a colour or an element whose
 * number field `parseInt` would read as `NaN` is read as `None`, and the
 * header's child-element numbers (the DMD location and the grill heights)
 * read as 0 instead.
 */
module Parser {
  import opened Wrappers
  import opened Text
  import opened Data

  // ---------------------------------------------------------------------
  // Attributes as the DOM presents them

  /** An attribute as it stands between the quotes in the file. */
  datatype Attribute = Attribute(name: string, text: string)

  /** The XML parser's decoding of the five predefined entities. */
  function XmlUnescape(t: string): (s: string)
    ensures '&' !in t ==> s == t
    ensures |s| <= |t|
    decreases |t|
  {
    if t == [] then []
    else if t[0] != '&' then [t[0]] + XmlUnescape(t[1..])
    else if StartsWith(t, "&amp;") then "&" + XmlUnescape(t[5..])
    else if StartsWith(t, "&lt;") then "<" + XmlUnescape(t[4..])
    else if StartsWith(t, "&gt;") then ">" + XmlUnescape(t[4..])
    else if StartsWith(t, "&quot;") then "\"" + XmlUnescape(t[6..])
    else if StartsWith(t, "&apos;") then "'" + XmlUnescape(t[6..])
    else "&" + XmlUnescape(t[1..])
  }

  /** `el.getAttribute(name)`: the decoded value of the first attribute of that name, `None` for `null`. */
  function GetAttribute(attrs: seq<Attribute>, name: string): (v: Option<string>)
    ensures v.None? <==> forall k :: 0 <= k < |attrs| ==> attrs[k].name != name
  {
    if attrs == [] then None
    else if attrs[0].name == name then Some(XmlUnescape(attrs[0].text))
    else GetAttribute(attrs[1..], name)
  }

  /** `value || fallback`: `null` and the empty string both fall back. */
  function OrElse(value: Option<string>, fallback: string): string
  {
    if value.Some? && value.value != "" then value.value else fallback
  }

  /** `parseInt(el.getAttribute(name) || fallback, 10)`; `None` is `NaN`. */
  function NumberAttr(attrs: seq<Attribute>, name: string, fallback: string): Option<int>
  {
    ParseInt(OrElse(GetAttribute(attrs, name), fallback))
  }

  // ---------------------------------------------------------------------
  // Enumerations

  /** `parseTableType`: 1..4 name the four table types; anything else reads as SS. */
  function ParseTableType(value: int): (t: TableType)
    ensures t == EM <==> value == 1
    ensures t == SSDMD <==> value == 3
    ensures t == ORI <==> value == 4
    ensures t == SS <==> value != 1 && value != 3 && value != 4
  {
    match value
    case 1 => EM
    case 2 => SS
    case 3 => SSDMD
    case 4 => ORI
    case _ => SS
  }

  /** `parseDMDType`: 1 is built in, 2 and 3 are external, anything else is none. */
  function ParseDmdType(value: int): (t: DmdType)
    ensures t == BuiltIn <==> value == 1
    ensures t == External <==> value == 2 || value == 3
    ensures t == NoDmd <==> value != 1 && value != 2 && value != 3
  {
    match value
    case 1 => BuiltIn
    case 2 => External
    case 3 => External
    case _ => NoDmd
  }

  /** `parseCommType`: only 2 means B2S. */
  function ParseCommType(value: int): (t: CommType)
    ensures t == B2S <==> value == 2
  {
    if value == 2 then B2S else Rom
  }

  /** `parseDestType`: only 2 means fantasy. */
  function ParseDestType(value: int): (t: DestType)
    ensures t == DestFantasy <==> value == 2
  {
    if value == 2 then DestFantasy else DestAuthentic
  }

  /** `parseDualMode`: "1" authentic, "2" fantasy, anything else (or no attribute) both. */
  function ParseDualMode(value: Option<string>): (m: DualMode)
    ensures m == Authentic <==> value == Some("1")
    ensures m == Fantasy <==> value == Some("2")
    ensures m == Both <==> value != Some("1") && value != Some("2")
  {
    if value == Some("1") then Authentic
    else if value == Some("2") then Fantasy
    else Both
  }

  /** `parseLightState`: "1" on, "2" no change, "3" reset, anything else off. */
  function ParseLightState(value: Option<string>): (s: LightState)
    ensures s == LightOn <==> value == Some("1")
    ensures s == NoChange <==> value == Some("2")
    ensures s == Reset <==> value == Some("3")
    ensures s == LightOff <==> value != Some("1") && value != Some("2") && value != Some("3")
  {
    if value == Some("1") then LightOn
    else if value == Some("2") then NoChange
    else if value == Some("3") then Reset
    else LightOff
  }

  /** `parseStopBehaviour`: "1" run till end, "2" return to the first step, anything else immediate. */
  function ParseStopBehaviour(value: Option<string>): (b: StopBehaviour)
    ensures b == RunTillEnd <==> value == Some("1")
    ensures b == ReturnToFirstStep <==> value == Some("2")
    ensures b == Immediate <==> value != Some("1") && value != Some("2")
  {
    if value == Some("1") then RunTillEnd
    else if value == Some("2") then ReturnToFirstStep
    else Immediate
  }

  /** `parseRomIdType`: "2" solenoid, "3" GI string, anything else lamp. */
  function ParseRomIdType(value: Option<string>): (t: RomIdType)
    ensures t == Solenoid <==> value == Some("2")
    ensures t == GIString <==> value == Some("3")
    ensures t == Lamp <==> value != Some("2") && value != Some("3")
  {
    if value == Some("2") then Solenoid
    else if value == Some("3") then GIString
    else Lamp
  }

  /** `parseB2SIdType`: only "1" is cyclic. */
  function ParseB2SIdType(value: Option<string>): (t: B2SIdType)
    ensures t == Cyclic <==> value == Some("1")
  {
    if value == Some("1") then Cyclic else Straight
  }

  /** `parseRotatingDirection`: "1" clockwise, "2" counter-clockwise, anything else none. */
  function ParseRotatingDirection(value: Option<string>): (d: RotatingDirection)
    ensures d == Clockwise <==> value == Some("1")
    ensures d == CounterClockwise <==> value == Some("2")
    ensures d == NoRotation <==> value != Some("1") && value != Some("2")
  {
    if value == Some("1") then Clockwise
    else if value == Some("2") then CounterClockwise
    else NoRotation
  }

  /** `parseInitialState`: "1" on, "2" undefined, anything else off. */
  function ParseInitialState(value: Option<string>): (s: InitialState)
    ensures s == InitiallyOn <==> value == Some("1")
    ensures s == InitiallyUndefined <==> value == Some("2")
    ensures s == InitiallyOff <==> value != Some("1") && value != Some("2")
  {
    if value == Some("1") then InitiallyOn
    else if value == Some("2") then InitiallyUndefined
    else InitiallyOff
  }

  /** The `Parent` attribute: exactly "DMD" is the DMD, anything else the backglass. */
  function ParseParent(value: Option<string>): (p: Parent)
    ensures p == Dmd <==> value == Some("DMD")
  {
    if value == Some("DMD") then Dmd else Backglass
  }

  /** The `IlluminationMode` attribute: exactly "1" is a flasher. */
  function ParseIlluminationMode(value: Option<string>): (m: IlluminationMode)
    ensures m == Flasher <==> value == Some("1")
  {
    if value == Some("1") then Flasher else Standard
  }

  // ---------------------------------------------------------------------
  // Booleans

  /** ASCII upper case to lower case; other characters are kept. */
  function LowerAscii(s: string): (r: string)
    ensures |r| == |s|
    ensures forall k :: 0 <= k < |s| ==> r[k] == if 'A' <= s[k] <= 'Z' then (s[k] as int + 32) as char else s[k]
  {
    if s == [] then []
    else [if 'A' <= s[0] <= 'Z' then (s[0] as int + 32) as char else s[0]] + LowerAscii(s[1..])
  }

  /** `parseBoolean`: "1", or "true" in any letter case; no attribute or "" is false. */
  function ParseBoolean(value: Option<string>): (b: bool)
    ensures b <==> value.Some? && (value.value == "1" || LowerAscii(value.value) == "true")
    ensures b ==> |value.value| == 1 || |value.value| == 4
  {
    if value.None? || value.value == "" then false
    else value.value == "1" || LowerAscii(value.value) == "true"
  }

  /** The usual spellings all read as true. */
  lemma TrueSpellings()
    ensures ParseBoolean(Some("1")) && ParseBoolean(Some("true")) && ParseBoolean(Some("True"))
    ensures !ParseBoolean(Some("0")) && !ParseBoolean(Some("")) && !ParseBoolean(None)
  {
    assert LowerAscii("true") == "true";
    assert LowerAscii("True") == "true";
  }

  /** The `Visible` attribute: hidden only for "0" or "False"; a missing attribute is visible. */
  function ParseVisible(value: Option<string>): (v: bool)
    ensures !v <==> value == Some("0") || value == Some("False")
  {
    value != Some("0") && value != Some("False")
  }

  /** A `"True"` flag of an animation: only that exact text sets it. */
  function ParseTrueFlag(value: Option<string>): (b: bool)
    ensures b <==> value == Some("True")
  {
    value == Some("True")
  }

  // ---------------------------------------------------------------------
  // Colours and base64

  /** Opaque white, the colour of a missing or malformed colour attribute. */
  const WHITE := Color(255, 255, 255, 255)

  /** `colorStr.split(/[.,]/)`: a comma separates like a dot. */
  function ColorParts(colorStr: string): (parts: seq<string>)
    ensures |parts| >= 1
  {
    Split(ReplaceChar(colorStr, ',', "."), '.')
  }

  /** One colour part, trimmed and read with `parseInt`. */
  function Channel(part: string): Option<int>
  {
    ParseInt(Trim(part))
  }

  /** Every part read as a channel; `None` when some part is `NaN`. */
  function ChannelValues(parts: seq<string>): (r: Option<seq<int>>)
    ensures r.Some? <==> forall k :: 0 <= k < |parts| ==> Channel(parts[k]).Some?
    ensures r.Some? ==> |r.value| == |parts| && forall k :: 0 <= k < |parts| ==> Channel(parts[k]) == Some(r.value[k])
  {
    MapAll(Channel, parts)
  }

  /**
   * `parseColor`: four parts are alpha, red, green, blue; three are red,
   * green, blue with an opaque alpha; anything else, or no text, is white.
   * `None` stands for a colour the source would build with a `NaN` channel.
   */
  function ParseColor(colorStr: string): (c: Option<Color>)
    ensures colorStr == "" ==> c == Some(WHITE)
    ensures |ColorParts(colorStr)| != 3 && |ColorParts(colorStr)| != 4 ==> c == Some(WHITE)
    ensures colorStr != "" && |ColorParts(colorStr)| == 3 ==>
      match ChannelValues(ColorParts(colorStr))
      case None => c.None?
      case Some(v) => c == Some(Color(v[0], v[1], v[2], 255))
    ensures colorStr != "" && |ColorParts(colorStr)| == 4 ==>
      match ChannelValues(ColorParts(colorStr))
      case None => c.None?
      case Some(v) => c == Some(Color(v[1], v[2], v[3], v[0]))
  {
    if colorStr == "" then Some(WHITE)
    else
      var parts := ColorParts(colorStr);
      if |parts| != 3 && |parts| != 4 then Some(WHITE)
      else match ChannelValues(parts)
        case None => None
        case Some(v) =>
          if |v| == 4 then Some(Color(v[1], v[2], v[3], v[0])) else Some(Color(v[0], v[1], v[2], 255))
  }

  /** `cleanBase64`: every white-space character is dropped and nothing else. */
  function CleanBase64(value: Option<string>): (r: string)
    ensures value.None? ==> r == ""
    ensures forall k :: 0 <= k < |r| ==> !IsSpace(r[k])
    ensures value.Some? ==> forall x :: !IsSpace(x) ==> multiset(r)[x] == multiset(value.value)[x]
    ensures value.Some? && (forall k :: 0 <= k < |value.value| ==> !IsSpace(value.value[k])) ==> r == value.value
  {
    if value.None? then "" else RemoveSpaces(value.value)
  }

  function RemoveSpaces(s: string): (r: string)
    ensures forall k :: 0 <= k < |r| ==> !IsSpace(r[k])
    ensures forall x :: !IsSpace(x) ==> multiset(r)[x] == multiset(s)[x]
    ensures (forall k :: 0 <= k < |s| ==> !IsSpace(s[k])) ==> r == s
  {
    if s == [] then []
    else
      var rest := RemoveSpaces(s[1..]);
      assert s == [s[0]] + s[1..];
      if IsSpace(s[0]) then rest else [s[0]] + rest
  }

  // ---------------------------------------------------------------------
  // Elements

  /** `parseAnimationSteps`, one `AnimationStep` element. */
  function ReadStep(attrs: seq<Attribute>): (r: Option<AnimationStep>)
  {
    var step := NumberAttr(attrs, "Step", "0");
    var onWait := NumberAttr(attrs, "WaitLoopsAfterOn", "0");
    var offWait := NumberAttr(attrs, "WaitLoopsAfterOff", "0");
    var pulse := NumberAttr(attrs, "PulseSwitch", "0");
    if step.None? || onWait.None? || offWait.None? || pulse.None? then None
    else
      Some(AnimationStep(
        step.value,
        OrElse(GetAttribute(attrs, "On"), ""),
        OrElse(GetAttribute(attrs, "Off"), ""),
        onWait.value,
        offWait.value,
        pulse.value))
  }

  /** The steps of an animation, in document order; `None` if one of them is. */
  function ReadSteps(elements: seq<seq<Attribute>>): (r: Option<seq<AnimationStep>>)
    ensures r.Some? <==> forall k :: 0 <= k < |elements| ==> ReadStep(elements[k]).Some?
    ensures r.Some? ==> |r.value| == |elements| && forall k :: 0 <= k < |elements| ==> ReadStep(elements[k]) == Some(r.value[k])
  {
    MapAll(ReadStep, elements)
  }

  /** `parseAnimations`, one `Animation` element with its step elements. */
  function ReadAnimation(attrs: seq<Attribute>, steps: seq<seq<Attribute>>): (r: Option<Animation>)
  {
    var interval := NumberAttr(attrs, "Interval", "100");
    var loops := NumberAttr(attrs, "Loops", "0");
    var quality := NumberAttr(attrs, "RandomQuality", "0");
    var stepList := ReadSteps(steps);
    if interval.None? || loops.None? || quality.None? || stepList.None? then None
    else
      Some(Animation(
        OrElse(GetAttribute(attrs, "Name"), ""),
        ParseDualMode(GetAttribute(attrs, "DualMode")),
        interval.value,
        loops.value,
        OrElse(GetAttribute(attrs, "IDJoin"), ""),
        ParseTrueFlag(GetAttribute(attrs, "StartAnimationAtRomStart")),
        ParseLightState(GetAttribute(attrs, "LightAtStart")),
        ParseLightState(GetAttribute(attrs, "LightAtEnd")),
        ParseStopBehaviour(GetAttribute(attrs, "AnimationStopBehaviour")),
        ParseTrueFlag(GetAttribute(attrs, "LockAtLastStep")),
        ParseTrueFlag(GetAttribute(attrs, "HideAtStart")),
        ParseTrueFlag(GetAttribute(attrs, "BringToFront")),
        ParseTrueFlag(GetAttribute(attrs, "RandomStart")),
        quality.value,
        stepList.value))
  }

  /** Several number attributes, each with its fallback text; `None` if one of them is `NaN`. */
  function Numbers(attrs: seq<Attribute>, fields: seq<(string, string)>): (r: Option<seq<int>>)
    ensures r.Some? ==> |r.value| == |fields|
  {
    if fields == [] then Some([])
    else
      match (NumberAttr(attrs, fields[0].0, fields[0].1), Numbers(attrs, fields[1..]))
      case (Some(n), Some(rest)) => Some([n] + rest)
      case _ => None
  }

  /** `a || b` on two attributes. */
  function FirstTruthy(a: Option<string>, b: Option<string>): Option<string>
  {
    if a.Some? && a.value != "" then a else b
  }

  /** An optional colour attribute: absent or empty is no colour, else its parse. */
  function OptionalColor(value: Option<string>): (r: Option<Option<Color>>)
    ensures OrElse(value, "") == "" ==> r == Some(None)
    ensures OrElse(value, "") != "" ==> (r.Some? <==> ParseColor(value.value).Some?)
    ensures OrElse(value, "") != "" && r.Some? ==> r.value == Some(ParseColor(value.value).value)
  {
    if value.Some? && value.value != "" then
      match ParseColor(value.value)
      case None => None
      case Some(c) => Some(Some(c))
    else Some(None)
  }

  /** The number attributes of a `Score` element, with the text used when one is missing. */
  const SCORE_NUMBERS: seq<(string, string)> := [
    ("ID", "0"), ("Digits", "0"), ("Spacing", "0"), ("LocX", "0"), ("LocY", "0"),
    ("Width", "0"), ("Height", "0"), ("Glow", "0"), ("Thickness", "0"), ("Shear", "0"),
    ("DisplayState", "0"), ("B2SStartDigit", "0"), ("B2SScoreType", "0"), ("B2SPlayerNo", "0")]

  /** `parseScores`, one `Score` element. */
  function ReadScore(attrs: seq<Attribute>): (r: Option<Score>)
  {
    var reelColor := ParseColor(OrElse(FirstTruthy(GetAttribute(attrs, "ReelColor"), GetAttribute(attrs, "ReelLitColor")), ""));
    var lit := OptionalColor(GetAttribute(attrs, "ReelLitColor"));
    var dark := OptionalColor(GetAttribute(attrs, "ReelDarkColor"));
    match (Numbers(attrs, SCORE_NUMBERS), reelColor, lit, dark)
    case (Some(n), Some(reel), Some(litColor), Some(darkColor)) =>
      Some(Score(
        n[0],
        ParseParent(GetAttribute(attrs, "Parent")),
        OrElse(GetAttribute(attrs, "ReelType"), "Dream7LED8"),
        n[1], n[2],
        n[3] as real, n[4] as real, n[5] as real, n[6] as real,
        reel, litColor, darkColor,
        n[7], n[8], n[9], n[10], n[11], n[12], n[13],
        ParseVisible(GetAttribute(attrs, "Visible"))))
    case _ => None
  }

  /** The number attributes of a `Bulb` element, with the text used when one is missing. */
  const BULB_NUMBERS: seq<(string, string)> := [
    ("ID", "0"), ("RomID", "0"), ("B2SID", "0"), ("LocX", "0"), ("LocY", "0"),
    ("Width", "0"), ("Height", "0"), ("Intensity", "1"), ("TextAlignment", "0"),
    ("FontSize", "12"), ("FontStyle", "0"), ("ZOrder", "0")]

  /** `parseIllumination`, one `Bulb` element. */
  function ReadBulb(attrs: seq<Attribute>): (r: Option<Bulb>)
  {
    var light := ParseColor(OrElse(GetAttribute(attrs, "LightColor"), ""));
    var dodge := OptionalColor(GetAttribute(attrs, "DodgeColor"));
    match (Numbers(attrs, BULB_NUMBERS), light, dodge)
    case (Some(n), Some(lightColor), Some(dodgeColor)) =>
      Some(Bulb(
        n[0],
        OrElse(GetAttribute(attrs, "Name"), ""),
        ParseParent(GetAttribute(attrs, "Parent")),
        n[1],
        ParseRomIdType(GetAttribute(attrs, "RomIDType")),
        ParseBoolean(GetAttribute(attrs, "RomInverted")),
        n[2],
        ParseB2SIdType(GetAttribute(attrs, "B2SIDType")),
        lightColor,
        dodgeColor,
        n[3] as real, n[4] as real, n[5] as real, n[6] as real,
        n[7],
        ParseBoolean(FirstTruthy(GetAttribute(attrs, "IsImageSnippit"), GetAttribute(attrs, "IsImageSnippet"))),
        CleanBase64(GetAttribute(attrs, "Image")),
        ParseRotatingDirection(GetAttribute(attrs, "SnippetRotatingDirection")),
        OrElse(GetAttribute(attrs, "Text"), ""),
        n[8],
        OrElse(GetAttribute(attrs, "FontName"), "Arial"),
        n[9],
        n[10],
        ParseVisible(GetAttribute(attrs, "Visible")),
        ParseInitialState(GetAttribute(attrs, "InitialState")),
        ParseDualMode(GetAttribute(attrs, "DualMode")),
        ParseIlluminationMode(GetAttribute(attrs, "IlluminationMode")),
        n[11]))
    case _ => None
  }

  // ---------------------------------------------------------------------
  // The document header

  /** The header fields `parseDirectB2S` reads from the root element. */
  datatype Header = Header(
    version: string,
    name: string,
    tableType: TableType,
    dmdType: DmdType,
    dmdDefaultLocationX: int,
    dmdDefaultLocationY: int,
    dmdCopyAreaX: int,
    dmdCopyAreaY: int,
    dmdCopyAreaWidth: int,
    dmdCopyAreaHeight: int,
    commType: CommType,
    destType: DestType,
    projectGuid: string,
    assemblyGuid: string,
    vsName: string,
    dualBackglass: bool,
    author: string,
    artwork: string,
    gameName: string,
    addEMDefaults: bool,
    grillHeight: int,
    smallGrillHeight: int,
    numberOfPlayers: int)

  /**
   * What the XML parser made of the text: a parser error, or the
   * `DirectB2SData` root if there is one.  A root is seen through its
   * `Version` attribute, the decoded `Value` attribute of each child element
   * by name, and the attributes of its `DMDDefaultLocation` and
   * `GrillHeight` children if present.
   */
  datatype XmlDocument = XmlDocument(parserError: Option<string>, root: Option<Root>)
  datatype Root = Root(
    version: Option<string>,
    values: map<string, string>,
    dmdLocation: Option<seq<Attribute>>,
    grill: Option<seq<Attribute>>)

  /** `getAttrValue`: the child's `Value`, or "" when the child or its value is missing. */
  function ValueOf(root: Root, name: string): (v: string)
    ensures name in root.values ==> v == root.values[name]
    ensures name !in root.values ==> v == ""
  {
    if name in root.values then root.values[name] else ""
  }

  /** `getAttrValueInt`: `parseInt(getAttrValue(...)) || 0`. */
  function IntValueOf(root: Root, name: string): int
  {
    ParseIntOrZero(ValueOf(root, name))
  }

  /** `parseInt(x || '0', 10)` on an attribute of a child element, 0 standing in for `NaN`. */
  function ChildInt(attrs: seq<Attribute>, name: string): int
  {
    NumberAttr(attrs, name, "0").GetOr(0)
  }

  /**
   * The header part of `parseDirectB2S`: a parser error or a missing root
   * is an error; otherwise the header is read from the root.
   */
  function ReadHeader(doc: XmlDocument): (r: Result<Header>)
    ensures doc.parserError.Some? ==> r.Failure?
    ensures doc.root.None? ==> r.Failure?
    ensures doc.parserError.None? && doc.root.Some? ==> r == Success(ReadRoot(doc.root.value))
  {
    if doc.parserError.Some? then Failure("XML parsing error: " + doc.parserError.value)
    else if doc.root.None? then Failure("Invalid directB2S file: missing DirectB2SData root element")
    else Success(ReadRoot(doc.root.value))
  }

  /**
   * Every header field read from the root, with version "1.27" and four
   * players standing in for a missing (or zero) value.
   */
  function ReadRoot(root: Root): (h: Header)
    ensures h.numberOfPlayers != 0
    ensures h.version != ""
  {
    var locX := if root.dmdLocation.Some? then ChildInt(root.dmdLocation.value, "LocX") else IntValueOf(root, "DMDDefaultLocationX");
    var locY := if root.dmdLocation.Some? then ChildInt(root.dmdLocation.value, "LocY") else IntValueOf(root, "DMDDefaultLocationY");
    var grill := if root.grill.Some? then ChildInt(root.grill.value, "Value") else 0;
    var small := if root.grill.Some? then ChildInt(root.grill.value, "Small") else 0;
    Header(
      Version(root),
      ValueOf(root, "Name"),
      ParseTableType(IntValueOf(root, "TableType")),
      ParseDmdType(IntValueOf(root, "DMDType")),
      locX,
      locY,
      IntValueOf(root, "DMDCopyAreaX"),
      IntValueOf(root, "DMDCopyAreaY"),
      IntValueOf(root, "DMDCopyAreaWidth"),
      IntValueOf(root, "DMDCopyAreaHeight"),
      ParseCommType(IntValueOf(root, "CommType")),
      ParseDestType(IntValueOf(root, "DestType")),
      ValueOf(root, "ProjectGUID"),
      ValueOf(root, "AssemblyGUID"),
      ValueOf(root, "VSName"),
      IntValueOf(root, "DualBackglass") == 1,
      ValueOf(root, "Author"),
      ValueOf(root, "Artwork"),
      ValueOf(root, "GameName"),
      IntValueOf(root, "AddEMDefaults") == 1,
      grill,
      small,
      Players(root))
  }

  /** The `Version` attribute, "1.27" when it is missing or empty. */
  function Version(root: Root): (v: string)
    ensures v != ""
    ensures root.version.Some? && root.version.value != "" ==> v == root.version.value
  {
    OrElse(root.version, "1.27")
  }

  /** `getAttrValueInt(root, 'NumberOfPlayers') || 4`: zero or no number means four. */
  function Players(root: Root): (n: int)
    ensures n != 0
    ensures IntValueOf(root, "NumberOfPlayers") != 0 ==> n == IntValueOf(root, "NumberOfPlayers")
  {
    var players := IntValueOf(root, "NumberOfPlayers");
    if players != 0 then players else 4
  }
}
