/**
 * `writeDirectB2S`: the line list the writer fills, section by section,
 * and joins with newlines.  A line is kept as the element it opens,
 * closes or holds, with the attributes in writing order and each
 * attribute's text as it stands between the quotes; `Render` gives its
 * characters.
 */
module DocumentWriter {
  import opened Wrappers
  import opened Text
  import opened Data
  import opened Parser
  import opened Writer

  // ---------------------------------------------------------------------
  // Lines

  /**
   * A line of the document.  The line `writeElement` pushes keeps the
   * value before escaping, and the element lines of animations, steps,
   * scores and bulbs keep the entity they are written from: `Attributes`
   * gives the attributes as written, `Render` the characters.
   */
  datatype Line =
    | Declaration                                            // <?xml version="1.0"?>
    | Start(depth: nat, tag: string, attrs: seq<Attribute>)  // <Tag a="..">
    | Leaf(depth: nat, tag: string, attrs: seq<Attribute>)   // <Tag a=".." />
    | End(depth: nat, tag: string)                           // </Tag>
    | Element(name: string, value: string)                   // <Name Value="escaped value" />
    | AnimationStart(animation: Animation)                   // <Animation ..>
    | StepLeaf(step: AnimationStep)                          // <AnimationStep .. />
    | ScoreLeaf(score: Score)                                // <Score .. />
    | BulbLeaf(bulb: Bulb)                                   // <Bulb .. />
    | BackgroundLeaf(tag: string, background: BackgroundImage)  // <MainImage .. /> or <Image .. />
    | ImageLeaf(tag: string, image: NamedImage)                // <MainImage .. /> or <Image .. />

  /** Two spaces per level. */
  function Indent(depth: nat): (s: string)
    ensures |s| == 2 * depth
  {
    if depth == 0 then "" else "  " + Indent(depth - 1)
  }

  function AttributeText(a: Attribute): string
  {
    a.name + "=\"" + a.text + "\""
  }

  /** `attrs.join(' ')`. */
  function AttributesText(attrs: seq<Attribute>): string
  {
    Join(seq(|attrs|, k requires 0 <= k < |attrs| => AttributeText(attrs[k])), " ")
  }

  /** The tag a line opens, closes or holds. */
  function Tag(line: Line): string
  {
    match line
    case Declaration => "?xml"
    case Start(_, tag, _) => tag
    case Leaf(_, tag, _) => tag
    case End(_, tag) => tag
    case Element(name, _) => name
    case AnimationStart(_) => "Animation"
    case StepLeaf(_) => "AnimationStep"
    case ScoreLeaf(_) => "Score"
    case BulbLeaf(_) => "Bulb"
    case BackgroundLeaf(tag, _) => tag
    case ImageLeaf(tag, _) => tag
  }

  /** The nesting level of a line's element. */
  function Depth(line: Line): nat
  {
    match line
    case Declaration => 0
    case Start(d, _, _) => d
    case Leaf(d, _, _) => d
    case End(d, _) => d
    case Element(_, _) => 1
    case AnimationStart(_) => 2
    case StepLeaf(_) => 3
    case ScoreLeaf(_) => 2
    case BulbLeaf(_) => 2
    case BackgroundLeaf(_, _) => 3
    case ImageLeaf(_, _) => 3
  }

  /** A line that opens an element the following lines are inside. */
  predicate Opens(line: Line)
  {
    line.Start? || line.AnimationStart?
  }

  /** A line holding a whole element. */
  predicate IsLeaf(line: Line)
  {
    !line.Declaration? && !line.End? && !Opens(line)
  }

  /**
   * The attributes of a line's element, in writing order, each with its
   * text as it stands between the quotes; `num` is the text JavaScript
   * gives a (possibly fractional) number.
   */
  function Attributes(line: Line, num: real -> string): seq<Attribute>
  {
    match line
    case Start(_, _, attrs) => attrs
    case Leaf(_, _, attrs) => attrs
    case Element(_, value) => [Attribute("Value", EscapeXml(value))]
    case AnimationStart(a) => Present(AnimationSlots(a))
    case StepLeaf(s) => StepElement(s)
    case ScoreLeaf(s) => ScoreElement(s, num)
    case BulbLeaf(b) => BulbElement(b, num)
    case BackgroundLeaf(_, image) => BackgroundAttributes(image)
    case ImageLeaf(_, image) => NamedAttributes(image)
    case _ => []
  }

  /** The characters of a line. */
  function Render(line: Line, num: real -> string): string
  {
    if line.Declaration? then "<?xml version=\"1.0\"?>"
    else if line.End? then Indent(line.depth) + "</" + line.tag + ">"
    else
      var attrs := Attributes(line, num);
      var head := Indent(Depth(line)) + "<" + Tag(line) + (if attrs == [] then "" else " " + AttributesText(attrs));
      if Opens(line) then head + ">" else head + " />"
  }

  /** `lines.join('\n')`. */
  function DocumentText(lines: seq<Line>, num: real -> string): string
  {
    Join(seq(|lines|, k requires 0 <= k < |lines| => Render(lines[k], num)), "\n")
  }

  // ---------------------------------------------------------------------
  // The header

  /** The lines `writeDirectB2S` pushes before the first section. */
  function HeaderLines(h: Header): seq<Line>
  {
    HeaderStartLines(h) + CopyAreaLines(h) + [GrillLine(h)] + HeaderTailLines(h)
  }

  /** The declaration, the root's start tag and the children up to the DMD's default location. */
  function HeaderStartLines(h: Header): seq<Line>
  {
    [Declaration]
    + [Start(0, "DirectB2SData", [Attribute("Version", EscapeXml(h.version))])]
    + [Element("Name", h.name)]
    + [Element("TableType", TableTypeToValue(h.tableType))]
    + [Element("DMDType", DmdTypeToValue(h.dmdType))]
    + [Leaf(1, "DMDDefaultLocation", LocationAttributes(h))]
  }

  /** The four copy-area children, only for a copy area with a positive width and height. */
  function CopyAreaLines(h: Header): (r: seq<Line>)
    ensures |r| == if CopyAreaWritten(h) then 4 else 0
  {
    if CopyAreaWritten(h) then
      [Element("DMDCopyAreaX", IntToString(h.dmdCopyAreaX))]
      + [Element("DMDCopyAreaY", IntToString(h.dmdCopyAreaY))]
      + [Element("DMDCopyAreaWidth", IntToString(h.dmdCopyAreaWidth))]
      + [Element("DMDCopyAreaHeight", IntToString(h.dmdCopyAreaHeight))]
    else []
  }

  /** The grill height, with the small grill height only when it is positive. */
  function GrillLine(h: Header): Line
  {
    Leaf(1, "GrillHeight", GrillAttributes(h))
  }

  /** The children after the grill height. */
  function HeaderTailLines(h: Header): seq<Line>
  {
    [Element("ProjectGUID", h.projectGuid)]
    + [Element("AssemblyGUID", h.assemblyGuid)]
    + [Element("VSName", h.vsName)]
    + [Element("DualBackglass", FlagToValue(h.dualBackglass))]
    + [Element("Author", h.author)]
    + [Element("Artwork", h.artwork)]
    + [Element("GameName", h.gameName)]
    + [Element("AddEMDefaults", FlagToValue(h.addEMDefaults))]
    + [Element("CommType", CommTypeToValue(h.commType))]
    + [Element("DestType", DestTypeToValue(h.destType))]
    + [Element("NumberOfPlayers", IntToString(h.numberOfPlayers))]
  }

  // ---------------------------------------------------------------------
  // Animations

  /** `writeAnimations`: nothing without animations, else the section holding each animation. */
  function AnimationsLines(animations: seq<Animation>): (r: seq<Line>)
    ensures animations == [] <==> r == []
  {
    if animations == [] then []
    else [Start(1, "Animations", [])] + AnimationBlocks(animations) + [End(1, "Animations")]
  }

  /** The animations' elements, one after the other. */
  function AnimationBlocks(animations: seq<Animation>): seq<Line>
  {
    if animations == [] then [] else AnimationBlock(animations[0]) + AnimationBlocks(animations[1..])
  }

  /** One `Animation` element with its steps inside. */
  function AnimationBlock(a: Animation): seq<Line>
  {
    [AnimationStart(a)] + StepLines(a.steps) + [End(2, "Animation")]
  }

  /** The `AnimationStep` elements of an animation, in order. */
  function StepLines(steps: seq<AnimationStep>): (r: seq<Line>)
    ensures |r| == |steps|
    ensures forall k :: 0 <= k < |steps| ==> r[k] == StepLeaf(steps[k])
  {
    seq(|steps|, k requires 0 <= k < |steps| => StepLeaf(steps[k]))
  }

  /** One more step appends its leaf. */
  lemma StepLinesSnoc(steps: seq<AnimationStep>, j: nat)
    requires j < |steps|
    ensures StepLines(steps[..j + 1]) == StepLines(steps[..j]) + [StepLeaf(steps[j])]
  {
  }

  /** Appending an animation appends its element. */
  lemma {:induction false} AnimationBlocksSnoc(animations: seq<Animation>, a: Animation)
    ensures AnimationBlocks(animations + [a]) == AnimationBlocks(animations) + AnimationBlock(a)
  {
    if animations == [] {
      assert AnimationBlocks([a]) == AnimationBlock(a) + AnimationBlocks([]);
    } else {
      assert (animations + [a])[1..] == animations[1..] + [a];
      AnimationBlocksSnoc(animations[1..], a);
    }
  }

  /** The `AnimationStep` leaves at the head of `lines`. */
  function LeadingSteps(lines: seq<Line>): (n: nat)
    ensures n <= |lines|
  {
    if lines != [] && IsLeaf(lines[0]) && Tag(lines[0]) == "AnimationStep" then 1 + LeadingSteps(lines[1..]) else 0
  }

  /** The attributes of each line's element, as the parser sees a list of elements. */
  function ListAttributes(lines: seq<Line>, num: real -> string): (r: seq<seq<Attribute>>)
    ensures |r| == |lines|
  {
    seq(|lines|, k requires 0 <= k < |lines| => Attributes(lines[k], num))
  }

  /**
   * `parseAnimations` on the lines between `<Animations>` and
   * `</Animations>`: each `Animation` element read with the step elements
   * inside it; `None` where the parser would meet a `NaN`, or the lines
   * are not animation elements.
   */
  function ReadAnimationBlocks(lines: seq<Line>, num: real -> string): (r: Option<seq<Animation>>)
    decreases |lines|
  {
    if lines == [] then Some([])
    else if !Opens(lines[0]) || Tag(lines[0]) != "Animation" then None
    else
      var n := LeadingSteps(lines[1..]);
      if 1 + n >= |lines| || lines[1 + n] != End(2, "Animation") then None
      else
        var first := ReadAnimation(Attributes(lines[0], num), ListAttributes(lines[1..1 + n], num));
        var rest := ReadAnimationBlocks(lines[2 + n..], num);
        if first.Some? && rest.Some? then Some([first.value] + rest.value) else None
  }

  /** `parseAnimations` on a written section; no section is no animations. */
  function ReadAnimationsSection(lines: seq<Line>, num: real -> string): (r: Option<seq<Animation>>)
    ensures lines == [] ==> r == Some([])
  {
    if lines == [] then Some([])
    else if |lines| >= 2 && lines[0] == Start(1, "Animations", []) && lines[|lines| - 1] == End(1, "Animations") then
      ReadAnimationBlocks(lines[1..|lines| - 1], num)
    else None
  }

  /** A step list followed by anything but a step leaf has exactly its steps at the head. */
  lemma {:induction false} LeadingStepsOf(steps: seq<AnimationStep>, rest: seq<Line>)
    requires rest != [] && !(IsLeaf(rest[0]) && Tag(rest[0]) == "AnimationStep")
    ensures LeadingSteps(StepLines(steps) + rest) == |steps|
  {
    if steps != [] {
      assert (StepLines(steps) + rest)[1..] == StepLines(steps[1..]) + rest;
      LeadingStepsOf(steps[1..], rest);
    } else {
      assert StepLines(steps) + rest == rest;
    }
  }

  /** The step leaves carry the step elements. */
  lemma StepLineAttributes(steps: seq<AnimationStep>, num: real -> string)
    ensures ListAttributes(StepLines(steps), num) == StepElements(steps)
  {
  }

  /** An animation the writer and the parser agree on: no negative count left out when written. */
  predicate AnimationWritable(a: Animation)
  {
    a.randomQuality >= 0 && forall k :: 0 <= k < |a.steps| ==> a.steps[k].pulseSwitch >= 0
  }

  /** Where an animation's element ends in front of other lines. */
  lemma AnimationBlockParts(a: Animation, rest: seq<Line>)
    ensures var lines := AnimationBlock(a) + rest;
      var n := |a.steps|;
      lines[0] == AnimationStart(a) && LeadingSteps(lines[1..]) == n && 1 + n < |lines|
      && lines[1 + n] == End(2, "Animation") && lines[1..1 + n] == StepLines(a.steps) && lines[2 + n..] == rest
  {
    var lines := AnimationBlock(a) + rest;
    var steps := StepLines(a.steps);
    var n := |a.steps|;
    assert lines == [AnimationStart(a)] + (steps + ([End(2, "Animation")] + rest));
    LeadingStepsOf(a.steps, [End(2, "Animation")] + rest);
    assert lines[1..] == steps + ([End(2, "Animation")] + rest);
  }

  /** Written animation elements read back as the animations. */
  lemma {:induction false} AnimationBlocksRoundTrip(animations: seq<Animation>, num: real -> string)
    requires forall k :: 0 <= k < |animations| ==> AnimationWritable(animations[k])
    ensures ReadAnimationBlocks(AnimationBlocks(animations), num) == Some(animations)
  {
    if animations != [] {
      var a := animations[0];
      AnimationLinesRead(a, num);
      AnimationBlocksRoundTrip(animations[1..], num);
      ReadAnimationBlocksCons(a, AnimationBlocks(animations[1..]), animations[1..], num);
      assert [a] + animations[1..] == animations;
    }
  }

  /** An animation's element read in front of other animation elements. */
  lemma ReadAnimationBlocksCons(a: Animation, rest: seq<Line>, others: seq<Animation>, num: real -> string)
    requires ReadAnimation(Attributes(AnimationStart(a), num), ListAttributes(StepLines(a.steps), num)) == Some(a)
    requires ReadAnimationBlocks(rest, num) == Some(others)
    ensures ReadAnimationBlocks(AnimationBlock(a) + rest, num) == Some([a] + others)
  {
    AnimationBlockParts(a, rest);
  }

  /** An animation's start line and step lines read back as the animation. */
  lemma AnimationLinesRead(a: Animation, num: real -> string)
    requires AnimationWritable(a)
    ensures ReadAnimation(Attributes(AnimationStart(a), num), ListAttributes(StepLines(a.steps), num)) == Some(a)
  {
    AnimationRoundTrip(a);
    AnimationLineAttributes(a, num);
  }

  /** An animation's lines carry the animation's element and its step elements. */
  lemma AnimationLineAttributes(a: Animation, num: real -> string)
    ensures Attributes(AnimationStart(a), num) == Present(AnimationSlots(a))
    ensures ListAttributes(StepLines(a.steps), num) == StepElements(a.steps)
  {
    StepLineAttributes(a.steps, num);
  }

  /** The written section reads back as the animations, in order. */
  lemma AnimationsRoundTrip(animations: seq<Animation>, num: real -> string)
    requires forall k :: 0 <= k < |animations| ==> AnimationWritable(animations[k])
    ensures ReadAnimationsSection(AnimationsLines(animations), num) == Some(animations)
  {
    if animations != [] {
      var lines := AnimationsLines(animations);
      assert lines[1..|lines| - 1] == AnimationBlocks(animations);
      AnimationBlocksRoundTrip(animations, num);
    }
  }

  // ---------------------------------------------------------------------
  // Scores

  /** `${score.parent}`. */
  function ParentToValue(p: Parent): string
  {
    match p
    case Backglass => "Backglass"
    case Dmd => "DMD"
  }

  const SCORE_NAMES: seq<string> :=
    ["ID", "Parent", "ReelType", "ReelLitColor", "ReelDarkColor", "Glow", "Thickness", "Shear",
     "Digits", "Spacing", "DisplayState", "LocX", "LocY", "Width", "Height", "B2SStartDigit",
     "B2SScoreType", "B2SPlayerNo", "Visible"]

  /** `score.reelLitColor || score.reelColor`. */
  function LitColor(s: Score): Color
  {
    if s.reelLitColor.Some? then s.reelLitColor.value else s.reelColor
  }

  /**
   * The attribute slots of a `Score` element: the dark colour only when
   * there is one, glow, thickness, shear and the three B2S numbers only
   * when positive, `Visible="0"` only for a hidden score.
   */
  function ScorePresent(s: Score): seq<bool>
  {
    [true, true, true, true, s.reelDarkColor.Some?, s.glow > 0, s.thickness > 0, s.shear > 0,
     true, true, true, true, true, true, true,
     s.b2sStartDigit > 0, s.b2sScoreType > 0, s.b2sPlayerNo > 0, !s.visible]
  }

  function ScoreTexts(s: Score, num: real -> string): seq<string>
  {
    [IntToString(s.id), ParentToValue(s.parent), s.reelType, ColorToString(LitColor(s)),
     if s.reelDarkColor.Some? then ColorToString(s.reelDarkColor.value) else "",
     IntToString(s.glow), IntToString(s.thickness), IntToString(s.shear),
     IntToString(s.digits), IntToString(s.spacing), IntToString(s.displayState),
     num(s.locX), num(s.locY), num(s.width), num(s.height),
     IntToString(s.b2sStartDigit), IntToString(s.b2sScoreType), IntToString(s.b2sPlayerNo), "0"]
  }

  /** A `Score` element as written. */
  function ScoreElement(s: Score, num: real -> string): seq<Attribute>
  {
    Present(Slots(SCORE_NAMES, ScorePresent(s), ScoreTexts(s, num)))
  }

  /** `writeScores`: nothing without scores, else the section holding one element per score. */
  function ScoresLines(scores: seq<Score>): (r: seq<Line>)
    ensures scores == [] <==> r == []
    ensures scores != [] ==> |r| == |scores| + 2
  {
    if scores == [] then [] else [Start(1, "Scores", [])] + ScoreLeaves(scores) + [End(1, "Scores")]
  }

  function ScoreLeaves(scores: seq<Score>): (r: seq<Line>)
    ensures |r| == |scores|
    ensures forall k :: 0 <= k < |scores| ==> r[k] == ScoreLeaf(scores[k])
  {
    seq(|scores|, k requires 0 <= k < |scores| => ScoreLeaf(scores[k]))
  }

  /** Appending a score appends its leaf. */
  lemma ScoreLeavesSnoc(scores: seq<Score>, i: nat)
    requires i < |scores|
    ensures ScoreLeaves(scores[..i + 1]) == ScoreLeaves(scores[..i]) + [ScoreLeaf(scores[i])]
  {
  }

  // ---------------------------------------------------------------------
  // Illumination

  const BULB_NAMES: seq<string> :=
    ["Parent", "ID", "Name", "RomID", "RomIDType", "RomInverted", "InitialState", "DualMode",
     "Intensity", "LightColor", "DodgeColor", "Visible", "LocX", "LocY", "Width", "Height",
     "IsImageSnippit", "Image", "B2SID", "B2SIDType", "Text", "TextAlignment", "FontName",
     "FontSize", "FontStyle", "SnippetRotatingDirection", "IlluminationMode", "ZOrder"]

  /**
   * The attribute slots of a `Bulb` element: the image only when there is
   * one, the B2S id only when positive, `B2SIDType="1"` only when not
   * straight, the rotating direction and `IlluminationMode="1"` only when
   * not the default, the z-order only when positive.
   */
  function BulbPresent(b: Bulb): seq<bool>
  {
    [true, true, true, true, true, true, true, true, true, true, true, true, true, true, true, true, true,
     b.imageData != "", b.b2sId > 0, b.b2sIdType != Straight,
     true, true, true, true, true,
     b.snippetRotatingDirection != NoRotation, b.illuminationMode != Standard, b.zOrder > 0]
  }

  /** A dodge colour, or "0.0.0" when there is none. */
  function DodgeText(c: Option<Color>): string
  {
    if c.Some? then ColorToString(c.value) else "0.0.0"
  }

  function BulbTexts(b: Bulb, num: real -> string): seq<string>
  {
    [ParentToValue(b.parent), IntToString(b.id), EscapeXml(b.name), IntToString(b.romId),
     RomIdTypeToValue(b.romIdType), FlagToValue(b.romInverted), InitialStateToValue(b.initialState),
     DualModeToValue(b.dualMode), IntToString(b.intensity), ColorToString(b.lightColor),
     DodgeText(b.dodgeColor), FlagToValue(b.visible),
     num(b.locX), num(b.locY), num(b.width), num(b.height),
     FlagToValue(b.isImageSnippet), b.imageData, IntToString(b.b2sId), "1",
     EscapeXml(b.text), IntToString(b.textAlignment), EscapeXml(b.fontName),
     IntToString(b.fontSize), IntToString(b.fontStyle),
     RotatingDirectionToValue(b.snippetRotatingDirection), "1", IntToString(b.zOrder)]
  }

  /** A `Bulb` element as written. */
  function BulbElement(b: Bulb, num: real -> string): seq<Attribute>
  {
    Present(Slots(BULB_NAMES, BulbPresent(b), BulbTexts(b, num)))
  }

  /** `writeIllumination`: nothing without bulbs, else the section holding one element per bulb. */
  function IlluminationLines(bulbs: seq<Bulb>): (r: seq<Line>)
    ensures bulbs == [] <==> r == []
    ensures bulbs != [] ==> |r| == |bulbs| + 2
  {
    if bulbs == [] then [] else [Start(1, "Illumination", [])] + BulbLeaves(bulbs) + [End(1, "Illumination")]
  }

  function BulbLeaves(bulbs: seq<Bulb>): (r: seq<Line>)
    ensures |r| == |bulbs|
    ensures forall k :: 0 <= k < |bulbs| ==> r[k] == BulbLeaf(bulbs[k])
  {
    seq(|bulbs|, k requires 0 <= k < |bulbs| => BulbLeaf(bulbs[k]))
  }

  /** Appending a bulb appends its leaf. */
  lemma BulbLeavesSnoc(bulbs: seq<Bulb>, i: nat)
    requires i < |bulbs|
    ensures BulbLeaves(bulbs[..i + 1]) == BulbLeaves(bulbs[..i]) + [BulbLeaf(bulbs[i])]
  {
  }

  // ---------------------------------------------------------------------
  // Images

  /**
   * `writeImages`: the `Images` section, always; inside it the thumbnail
   * when there is a non-empty one, then the background, illuminated and
   * DMD image lists that are not empty.
   */
  function ImagesLines(images: ImageCollection): seq<Line>
  {
    [Start(1, "Images", [])]
    + ThumbnailLines(images.thumbnailImage)
    + BackgroundLines(images.backgroundImages)
    + IlluminatedLines(images.illuminatedImages)
    + DmdImageLines(images.dmdImages)
    + [End(1, "Images")]
  }

  function ThumbnailLines(thumbnail: Option<string>): (r: seq<Line>)
    ensures r != [] <==> thumbnail.Some? && thumbnail.value != ""
  {
    if thumbnail.Some? && thumbnail.value != "" then
      [Start(2, "ThumbnailImages", [])] + [Leaf(3, "MainImage", [Attribute("Image", thumbnail.value)])] + [End(2, "ThumbnailImages")]
    else []
  }

  /** The first image of a list is the main image. */
  function ImageTag(index: nat): string
  {
    if index == 0 then "MainImage" else "Image"
  }

  /** A background image's attributes; an empty type is written as "0". */
  function BackgroundAttributes(image: BackgroundImage): seq<Attribute>
  {
    [Attribute("FileName", EscapeXml(image.fileName)),
     Attribute("Image", image.imageData),
     Attribute("Type", EscapeXml(if image.imageType == "" then "0" else image.imageType)),
     Attribute("RomID", IntToString(image.romId)),
     Attribute("RomIDType", RomIdTypeToValue(image.romIdType))]
  }

  /** An illuminated or DMD image's attributes. */
  function NamedAttributes(image: NamedImage): seq<Attribute>
  {
    [Attribute("FileName", EscapeXml(image.fileName)), Attribute("Image", image.imageData)]
  }

  function BackgroundLines(images: seq<BackgroundImage>): (r: seq<Line>)
    ensures images == [] <==> r == []
  {
    if images == [] then []
    else [Start(2, "BackgroundImages", [])] + BackgroundLeaves(images) + [End(2, "BackgroundImages")]
  }

  function BackgroundLeaves(images: seq<BackgroundImage>): (r: seq<Line>)
    ensures |r| == |images|
    ensures forall k :: 0 <= k < |images| ==> r[k] == BackgroundLeaf(ImageTag(k), images[k])
  {
    seq(|images|, k requires 0 <= k < |images| => BackgroundLeaf(ImageTag(k), images[k]))
  }

  function IlluminatedLines(images: seq<NamedImage>): (r: seq<Line>)
    ensures images == [] <==> r == []
  {
    if images == [] then []
    else [Start(2, "IlluminatedImages", [])] + IlluminatedLeaves(images) + [End(2, "IlluminatedImages")]
  }

  function IlluminatedLeaves(images: seq<NamedImage>): (r: seq<Line>)
    ensures |r| == |images|
    ensures forall k :: 0 <= k < |images| ==> r[k] == ImageLeaf("Image", images[k])
  {
    seq(|images|, k requires 0 <= k < |images| => ImageLeaf("Image", images[k]))
  }

  function DmdImageLines(images: seq<NamedImage>): (r: seq<Line>)
    ensures images == [] <==> r == []
  {
    if images == [] then []
    else [Start(2, "DMDImages", [])] + DmdImageLeaves(images) + [End(2, "DMDImages")]
  }

  function DmdImageLeaves(images: seq<NamedImage>): (r: seq<Line>)
    ensures |r| == |images|
    ensures forall k :: 0 <= k < |images| ==> r[k] == ImageLeaf(ImageTag(k), images[k])
  {
    seq(|images|, k requires 0 <= k < |images| => ImageLeaf(ImageTag(k), images[k]))
  }

  /** Appending an image appends its leaf, tagged by its place. */
  lemma BackgroundLeavesSnoc(images: seq<BackgroundImage>, i: nat)
    requires i < |images|
    ensures BackgroundLeaves(images[..i + 1]) == BackgroundLeaves(images[..i]) + [BackgroundLeaf(ImageTag(i), images[i])]
  {
  }

  lemma IlluminatedLeavesSnoc(images: seq<NamedImage>, i: nat)
    requires i < |images|
    ensures IlluminatedLeaves(images[..i + 1]) == IlluminatedLeaves(images[..i]) + [ImageLeaf("Image", images[i])]
  {
  }

  lemma DmdImageLeavesSnoc(images: seq<NamedImage>, i: nat)
    requires i < |images|
    ensures DmdImageLeaves(images[..i + 1]) == DmdImageLeaves(images[..i]) + [ImageLeaf(ImageTag(i), images[i])]
  {
  }

  // ---------------------------------------------------------------------
  // The document

  /** What `writeDirectB2S` writes: the header fields and the entity lists. */
  datatype DirectB2SData = DirectB2SData(
    header: Header,
    animations: seq<Animation>,
    scores: seq<Score>,
    illumination: seq<Bulb>,
    images: ImageCollection)

  /** The lines of a whole document: header, sections, the root's end tag. */
  function DocumentLines(data: DirectB2SData): seq<Line>
  {
    HeaderLines(data.header)
    + AnimationsLines(data.animations)
    + ScoresLines(data.scores)
    + IlluminationLines(data.illumination)
    + ImagesLines(data.images)
    + [End(0, "DirectB2SData")]
  }

  // ---------------------------------------------------------------------
  // The writer

  // ---------------------------------------------------------------------
  // The writer.  Each `write*` function pushes its lines to the end of the
  // list it is given; a method here returns that list with the lines pushed.

  /** `writeElement`. */
  method WriteElement(lines: seq<Line>, name: string, value: string) returns (out: seq<Line>)
    ensures out == lines + [Element(name, value)]
  {
    out := lines;
    out := out + [Element(name, value)];
  }

  /** The declaration, the root's start and the header's children, in order. */
  method WriteHeader(lines: seq<Line>, h: Header) returns (out: seq<Line>)
    ensures out == lines + HeaderLines(h)
  {
    out := lines;
    out := WriteHeaderStart(out, h);
    out := WriteCopyArea(out, h);
    out := WriteGrillHeight(out, h);
    out := WriteHeaderTail(out, h);
    HeaderLinesAfter(lines, h);
  }

  /** The copy area's four children, only for a positive width and height. */
  method WriteCopyArea(lines: seq<Line>, h: Header) returns (out: seq<Line>)
    ensures out == lines + CopyAreaLines(h)
  {
    out := lines;
    if h.dmdCopyAreaWidth > 0 && h.dmdCopyAreaHeight > 0 {
      out := WriteElement(out, "DMDCopyAreaX", IntToString(h.dmdCopyAreaX));
      out := WriteElement(out, "DMDCopyAreaY", IntToString(h.dmdCopyAreaY));
      out := WriteElement(out, "DMDCopyAreaWidth", IntToString(h.dmdCopyAreaWidth));
      out := WriteElement(out, "DMDCopyAreaHeight", IntToString(h.dmdCopyAreaHeight));
    }
  }

  /** The grill height, with `Small` only for a positive small grill height. */
  method WriteGrillHeight(lines: seq<Line>, h: Header) returns (out: seq<Line>)
    ensures out == lines + [GrillLine(h)]
  {
    out := lines;
    var line;
    if h.smallGrillHeight > 0 {
      line := Leaf(1, "GrillHeight",
        [Attribute("Value", IntToString(h.grillHeight)), Attribute("Small", IntToString(h.smallGrillHeight))]);
    } else {
      line := Leaf(1, "GrillHeight", [Attribute("Value", IntToString(h.grillHeight))]);
    }
    assert line == GrillLine(h);
    out := out + [line];
  }

  method WriteHeaderStart(lines: seq<Line>, h: Header) returns (out: seq<Line>)
    ensures out == lines + HeaderStartLines(h)
  {
    out := lines;
    out := out + [Declaration];
    out := out + [Start(0, "DirectB2SData", [Attribute("Version", EscapeXml(h.version))])];
    out := WriteElement(out, "Name", h.name);
    out := WriteElement(out, "TableType", TableTypeToValue(h.tableType));
    out := WriteElement(out, "DMDType", DmdTypeToValue(h.dmdType));
    out := out + [Leaf(1, "DMDDefaultLocation",
      [Attribute("LocX", IntToString(h.dmdDefaultLocationX)), Attribute("LocY", IntToString(h.dmdDefaultLocationY))])];
    HeaderStartLinesAfter(lines, h);
  }

  method WriteHeaderTail(lines: seq<Line>, h: Header) returns (out: seq<Line>)
    ensures out == lines + HeaderTailLines(h)
  {
    out := lines;
    out := WriteElement(out, "ProjectGUID", h.projectGuid);
    out := WriteElement(out, "AssemblyGUID", h.assemblyGuid);
    out := WriteElement(out, "VSName", h.vsName);
    out := WriteElement(out, "DualBackglass", FlagToValue(h.dualBackglass));
    out := WriteElement(out, "Author", h.author);
    out := WriteElement(out, "Artwork", h.artwork);
    out := WriteElement(out, "GameName", h.gameName);
    out := WriteElement(out, "AddEMDefaults", FlagToValue(h.addEMDefaults));
    out := WriteElement(out, "CommType", CommTypeToValue(h.commType));
    out := WriteElement(out, "DestType", DestTypeToValue(h.destType));
    out := WriteElement(out, "NumberOfPlayers", IntToString(h.numberOfPlayers));
  }

  /** `writeAnimations`: each animation's start tag, its steps and its end tag, inside the section. */
  method WriteAnimations(lines: seq<Line>, animations: seq<Animation>) returns (out: seq<Line>)
    ensures out == lines + AnimationsLines(animations)
  {
    out := lines;
    if |animations| == 0 {
      return;
    }
    out := out + [Start(1, "Animations", [])];
    out := WriteAnimationBlocks(out, animations);
    out := out + [End(1, "Animations")];
  }

  /** The loop over the animations. */
  method WriteAnimationBlocks(lines: seq<Line>, animations: seq<Animation>) returns (out: seq<Line>)
    ensures out == lines + AnimationBlocks(animations)
  {
    out := lines;
    for i := 0 to |animations|
      invariant out == lines + AnimationBlocks(animations[..i])
    {
      out := WriteAnimation(out, animations[i]);
      AnimationBlocksSnoc(animations[..i], animations[i]);
      assert animations[..i + 1] == animations[..i] + [animations[i]];
    }
    assert animations[..|animations|] == animations;
  }

  /** One animation: its start tag with its attributes, its steps, its end tag. */
  method WriteAnimation(lines: seq<Line>, a: Animation) returns (out: seq<Line>)
    ensures out == lines + [AnimationStart(a)] + StepLines(a.steps) + [End(2, "Animation")]
  {
    out := lines;
    out := out + [AnimationStart(a)];
    for j := 0 to |a.steps|
      invariant out == lines + [AnimationStart(a)] + StepLines(a.steps[..j])
    {
      StepLinesSnoc(a.steps, j);
      out := out + [StepLeaf(a.steps[j])];
    }
    assert a.steps[..|a.steps|] == a.steps;
    out := out + [End(2, "Animation")];
  }
  /** `writeScores`: one element per score, inside the section. */
  method WriteScores(lines: seq<Line>, scores: seq<Score>) returns (out: seq<Line>)
    ensures out == lines + ScoresLines(scores)
  {
    out := lines;
    if |scores| == 0 {
      return;
    }
    out := out + [Start(1, "Scores", [])];
    out := WriteScoreLeaves(out, scores);
    out := out + [End(1, "Scores")];
  }

  /** The loop over the scores. */
  method WriteScoreLeaves(lines: seq<Line>, scores: seq<Score>) returns (out: seq<Line>)
    ensures out == lines + ScoreLeaves(scores)
  {
    out := lines;
    for i := 0 to |scores|
      invariant out == lines + ScoreLeaves(scores[..i])
    {
      ScoreLeavesSnoc(scores, i);
      out := out + [ScoreLeaf(scores[i])];
    }
    assert scores[..|scores|] == scores;
  }

  /** `writeIllumination`: one element per bulb, inside the section. */
  method WriteIllumination(lines: seq<Line>, bulbs: seq<Bulb>) returns (out: seq<Line>)
    ensures out == lines + IlluminationLines(bulbs)
  {
    out := lines;
    if |bulbs| == 0 {
      return;
    }
    out := out + [Start(1, "Illumination", [])];
    out := WriteBulbLeaves(out, bulbs);
    out := out + [End(1, "Illumination")];
  }

  /** The loop over the bulbs. */
  method WriteBulbLeaves(lines: seq<Line>, bulbs: seq<Bulb>) returns (out: seq<Line>)
    ensures out == lines + BulbLeaves(bulbs)
  {
    out := lines;
    for i := 0 to |bulbs|
      invariant out == lines + BulbLeaves(bulbs[..i])
    {
      BulbLeavesSnoc(bulbs, i);
      out := out + [BulbLeaf(bulbs[i])];
    }
    assert bulbs[..|bulbs|] == bulbs;
  }

  /** `writeImages`: the section, the thumbnail, then each non-empty image list. */
  method WriteImages(lines: seq<Line>, images: ImageCollection) returns (out: seq<Line>)
    ensures out == lines + ImagesLines(images)
  {
    out := lines;
    out := out + [Start(1, "Images", [])];
    out := WriteThumbnail(out, images.thumbnailImage);
    out := WriteBackgroundImages(out, images.backgroundImages);
    out := WriteIlluminatedImages(out, images.illuminatedImages);
    out := WriteDmdImages(out, images.dmdImages);
    out := out + [End(1, "Images")];
    ImagesLinesAfter(lines, images);
  }

  method WriteThumbnail(lines: seq<Line>, thumbnail: Option<string>) returns (out: seq<Line>)
    ensures out == lines + ThumbnailLines(thumbnail)
  {
    out := lines;
    if thumbnail.Some? && thumbnail.value != "" {
      out := out + [Start(2, "ThumbnailImages", [])];
      out := out + [Leaf(3, "MainImage", [Attribute("Image", thumbnail.value)])];
      out := out + [End(2, "ThumbnailImages")];
    }
  }

  /** The background images; the first is the main image. */
  method WriteBackgroundImages(lines: seq<Line>, images: seq<BackgroundImage>) returns (out: seq<Line>)
    ensures out == lines + BackgroundLines(images)
  {
    out := lines;
    if |images| == 0 {
      return;
    }
    out := out + [Start(2, "BackgroundImages", [])];
    out := WriteBackgroundLeaves(out, images);
    out := out + [End(2, "BackgroundImages")];
  }

  /** The loop over the background images. */
  method WriteBackgroundLeaves(lines: seq<Line>, images: seq<BackgroundImage>) returns (out: seq<Line>)
    ensures out == lines + BackgroundLeaves(images)
  {
    out := lines;
    for i := 0 to |images|
      invariant out == lines + BackgroundLeaves(images[..i])
    {
      var tag := if i == 0 then "MainImage" else "Image";
      BackgroundLeavesSnoc(images, i);
      out := out + [BackgroundLeaf(tag, images[i])];
    }
    assert images[..|images|] == images;
  }

  method WriteIlluminatedImages(lines: seq<Line>, images: seq<NamedImage>) returns (out: seq<Line>)
    ensures out == lines + IlluminatedLines(images)
  {
    out := lines;
    if |images| == 0 {
      return;
    }
    out := out + [Start(2, "IlluminatedImages", [])];
    out := WriteIlluminatedLeaves(out, images);
    out := out + [End(2, "IlluminatedImages")];
  }

  /** The loop over the illuminated images. */
  method WriteIlluminatedLeaves(lines: seq<Line>, images: seq<NamedImage>) returns (out: seq<Line>)
    ensures out == lines + IlluminatedLeaves(images)
  {
    out := lines;
    for i := 0 to |images|
      invariant out == lines + IlluminatedLeaves(images[..i])
    {
      IlluminatedLeavesSnoc(images, i);
      out := out + [ImageLeaf("Image", images[i])];
    }
    assert images[..|images|] == images;
  }

  /** The DMD images; the first is the main image. */
  method WriteDmdImages(lines: seq<Line>, images: seq<NamedImage>) returns (out: seq<Line>)
    ensures out == lines + DmdImageLines(images)
  {
    out := lines;
    if |images| == 0 {
      return;
    }
    out := out + [Start(2, "DMDImages", [])];
    out := WriteDmdImageLeaves(out, images);
    out := out + [End(2, "DMDImages")];
  }

  /** The loop over the DMD images. */
  method WriteDmdImageLeaves(lines: seq<Line>, images: seq<NamedImage>) returns (out: seq<Line>)
    ensures out == lines + DmdImageLeaves(images)
  {
    out := lines;
    for i := 0 to |images|
      invariant out == lines + DmdImageLeaves(images[..i])
    {
      var tag := if i == 0 then "MainImage" else "Image";
      DmdImageLeavesSnoc(images, i);
      out := out + [ImageLeaf(tag, images[i])];
    }
    assert images[..|images|] == images;
  }

  /** `writeDirectB2S`: the header, the sections in order and the root's end tag, joined by newlines. */
  method WriteDirectB2S(data: DirectB2SData, num: real -> string) returns (text: string)
    ensures text == DocumentText(DocumentLines(data), num)
  {
    var lines := WriteDocumentLines(data);
    text := DocumentText(lines, num);
  }

  /** The lines of `writeDirectB2S`, before they are joined. */
  method WriteDocumentLines(data: DirectB2SData) returns (lines: seq<Line>)
    ensures lines == DocumentLines(data)
  {
    lines := WriteHeader([], data.header);
    lines := WriteAnimations(lines, data.animations);
    lines := WriteScores(lines, data.scores);
    lines := WriteIllumination(lines, data.illumination);
    lines := WriteImages(lines, data.images);
    lines := lines + [End(0, "DirectB2SData")];
    DocumentLinesFromEmpty(data);
  }

  /** The header pushed part by part. */
  lemma HeaderLinesAfter(lines: seq<Line>, h: Header)
    ensures lines + HeaderLines(h) == lines + HeaderStartLines(h) + CopyAreaLines(h) + [GrillLine(h)] + HeaderTailLines(h)
  {
    AppendFour(lines, HeaderStartLines(h), CopyAreaLines(h), [GrillLine(h)], HeaderTailLines(h));
  }

  lemma AppendFour<T>(s: seq<T>, a: seq<T>, b: seq<T>, c: seq<T>, d: seq<T>)
    ensures s + (a + b + c + d) == s + a + b + c + d
  {
  }

  /** The header's first lines pushed one by one. */
  lemma HeaderStartLinesAfter(lines: seq<Line>, h: Header)
    ensures lines + HeaderStartLines(h) == lines + [Declaration]
      + [Start(0, "DirectB2SData", [Attribute("Version", EscapeXml(h.version))])]
      + [Element("Name", h.name)] + [Element("TableType", TableTypeToValue(h.tableType))]
      + [Element("DMDType", DmdTypeToValue(h.dmdType))] + [Leaf(1, "DMDDefaultLocation", LocationAttributes(h))]
  {
  }

  /** The images section pushed part by part. */
  lemma ImagesLinesAfter(lines: seq<Line>, images: ImageCollection)
    ensures lines + ImagesLines(images) == lines + [Start(1, "Images", [])] + ThumbnailLines(images.thumbnailImage)
      + BackgroundLines(images.backgroundImages) + IlluminatedLines(images.illuminatedImages)
      + DmdImageLines(images.dmdImages) + [End(1, "Images")]
  {
  }

  /** The document's lines are what the writer pushes to an empty list. */
  lemma DocumentLinesFromEmpty(data: DirectB2SData)
    ensures DocumentLines(data) == [] + HeaderLines(data.header) + AnimationsLines(data.animations)
      + ScoresLines(data.scores) + IlluminationLines(data.illumination) + ImagesLines(data.images)
      + [End(0, "DirectB2SData")]
  {
    assert [] + HeaderLines(data.header) == HeaderLines(data.header);
  }
}
