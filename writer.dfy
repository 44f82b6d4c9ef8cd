/**
 * The directB2S writer's value encoders and `escapeXml`, each paired with
 * the decoder of the reader that it must invert, and the attribute
 * layouts of the elements the writer emits.
 */
module Writer {
  import opened Wrappers
  import opened Text
  import opened Data
  import opened Parser

  // ---------------------------------------------------------------------
  // escapeXml

  /** `escapeXml`: five global replacements, `&` first. */
  function EscapeXml(s: string): string
  {
    var amp := ReplaceChar(s, '&', "&amp;");
    var lt := ReplaceChar(amp, '<', "&lt;");
    var gt := ReplaceChar(lt, '>', "&gt;");
    var quot := ReplaceChar(gt, '"', "&quot;");
    ReplaceChar(quot, '\'', "&apos;")
  }

  /** The escape of one character. */
  function EscapeChar(c: char): string
  {
    if c == '&' then "&amp;"
    else if c == '<' then "&lt;"
    else if c == '>' then "&gt;"
    else if c == '"' then "&quot;"
    else if c == '\'' then "&apos;"
    else [c]
  }

  /** Every character replaced by its escape, left to right. */
  function EscapeChars(s: string): (r: string)
    ensures '<' !in r && '>' !in r && '"' !in r && '\'' !in r
  {
    if s == [] then [] else EscapeChar(s[0]) + EscapeChars(s[1..])
  }

  /** All five replacements applied to a text. */
  function Replaced(s: string): string
  {
    ReplaceChar(ReplaceChar(ReplaceChar(ReplaceChar(ReplaceChar(s, '&', "&amp;"), '<', "&lt;"), '>', "&gt;"), '"', "&quot;"), '\'', "&apos;")
  }

  lemma {:induction false} ReplacedConcat(a: string, b: string)
    ensures Replaced(a + b) == Replaced(a) + Replaced(b)
  {
    var a1, b1 := ReplaceChar(a, '&', "&amp;"), ReplaceChar(b, '&', "&amp;");
    ReplaceCharConcat(a, b, '&', "&amp;");
    var a2, b2 := ReplaceChar(a1, '<', "&lt;"), ReplaceChar(b1, '<', "&lt;");
    ReplaceCharConcat(a1, b1, '<', "&lt;");
    var a3, b3 := ReplaceChar(a2, '>', "&gt;"), ReplaceChar(b2, '>', "&gt;");
    ReplaceCharConcat(a2, b2, '>', "&gt;");
    var a4, b4 := ReplaceChar(a3, '"', "&quot;"), ReplaceChar(b3, '"', "&quot;");
    ReplaceCharConcat(a3, b3, '"', "&quot;");
    ReplaceCharConcat(a4, b4, '\'', "&apos;");
  }

  lemma ReplaceCharSingle(x: char, c: char, rep: string)
    ensures ReplaceChar([x], c, rep) == if x == c then rep else [x]
  {
    assert [x][1..] == [];
  }

  /** The four replacements after the first leave an entity alone. */
  lemma ReplacedAfterAmp(e: string)
    requires '<' !in e && '>' !in e && '"' !in e && '\'' !in e
    ensures ReplaceChar(ReplaceChar(ReplaceChar(ReplaceChar(e, '<', "&lt;"), '>', "&gt;"), '"', "&quot;"), '\'', "&apos;") == e
  {
  }

  lemma ReplacedChar(x: char)
    ensures Replaced([x]) == EscapeChar(x)
  {
    ReplaceCharSingle(x, '&', "&amp;");
    if x == '&' {
      ReplacedAfterAmp("&amp;");
    } else if x == '<' {
      ReplaceCharSingle(x, '<', "&lt;");
      ReplacedAfterLt();
    } else if x == '>' {
      ReplaceCharSingle(x, '<', "&lt;");
      ReplaceCharSingle(x, '>', "&gt;");
      ReplacedAfterGt();
    } else if x == '"' {
      ReplaceCharSingle(x, '<', "&lt;");
      ReplaceCharSingle(x, '>', "&gt;");
      ReplaceCharSingle(x, '"', "&quot;");
      assert ReplaceChar("&quot;", '\'', "&apos;") == "&quot;";
    } else {
      ReplaceCharSingle(x, '<', "&lt;");
      ReplaceCharSingle(x, '>', "&gt;");
      ReplaceCharSingle(x, '"', "&quot;");
      ReplaceCharSingle(x, '\'', "&apos;");
    }
  }

  lemma ReplacedAfterLt()
    ensures ReplaceChar(ReplaceChar(ReplaceChar("&lt;", '>', "&gt;"), '"', "&quot;"), '\'', "&apos;") == "&lt;"
  {
  }

  lemma ReplacedAfterGt()
    ensures ReplaceChar(ReplaceChar("&gt;", '"', "&quot;"), '\'', "&apos;") == "&gt;"
  {
  }

  /**
   * Because `&` is replaced first, the five replacements in a row escape
   * each character of the input exactly once: no entity produced by a
   * later step is escaped again.
   */
  lemma {:induction false} EscapeXmlCharwise(s: string)
    ensures EscapeXml(s) == EscapeChars(s)
  {
    if s != [] {
      assert s == [s[0]] + s[1..];
      ReplacedConcat([s[0]], s[1..]);
      ReplacedChar(s[0]);
      EscapeXmlCharwise(s[1..]);
    }
  }

  /** No raw `<`, `>`, `"` or `'` is left. */
  lemma EscapeXmlSafe(s: string)
    ensures var r := EscapeXml(s); '<' !in r && '>' !in r && '"' !in r && '\'' !in r
  {
    EscapeXmlCharwise(s);
  }

  lemma {:induction false} UnescapeEscapeChars(s: string)
    ensures XmlUnescape(EscapeChars(s)) == s
  {
    if s != [] {
      UnescapeEscapeChars(s[1..]);
      UnescapeEscapeHead(s[0], EscapeChars(s[1..]));
      assert [s[0]] + s[1..] == s;
    }
  }

  /** One escaped character in front of any text unescapes to that character. */
  lemma UnescapeEscapeHead(c: char, rest: string)
    ensures XmlUnescape(EscapeChar(c) + rest) == [c] + XmlUnescape(rest)
  {
    if c == '&' {
      UnescapeAmp(rest);
    } else if c == '<' {
      UnescapeLt(rest);
    } else if c == '>' {
      UnescapeGt(rest);
    } else if c == '"' {
      UnescapeQuot(rest);
    } else if c == '\'' {
      UnescapeApos(rest);
    } else {
      assert ([c] + rest)[1..] == rest;
    }
  }

  lemma UnescapeAmp(rest: string)
    ensures XmlUnescape("&amp;" + rest) == "&" + XmlUnescape(rest)
  {
    var t := "&amp;" + rest;
    assert t[5..] == rest;
    assert StartsWith(t, "&amp;");
  }

  lemma UnescapeLt(rest: string)
    ensures XmlUnescape("&lt;" + rest) == "<" + XmlUnescape(rest)
  {
    var t := "&lt;" + rest;
    assert t[4..] == rest;
    assert t[1] == 'l';
    assert StartsWith(t, "&lt;");
  }

  lemma UnescapeGt(rest: string)
    ensures XmlUnescape("&gt;" + rest) == ">" + XmlUnescape(rest)
  {
    var t := "&gt;" + rest;
    assert t[4..] == rest;
    assert t[1] == 'g';
    assert !StartsWith(t, "&amp;") by {
      if |t| >= 5 {
        assert t[..5][1] == t[1];
      }
    }
    assert !StartsWith(t, "&lt;") by { assert t[..4][1] == t[1]; }
    assert StartsWith(t, "&gt;");
  }

  lemma UnescapeQuot(rest: string)
    ensures XmlUnescape("&quot;" + rest) == "\"" + XmlUnescape(rest)
  {
    var t := "&quot;" + rest;
    assert t[6..] == rest;
    assert t[1] == 'q';
    assert !StartsWith(t, "&amp;") by { assert t[..5][1] == t[1]; }
    assert !StartsWith(t, "&lt;") && !StartsWith(t, "&gt;") by { assert t[..4][1] == t[1]; }
    assert StartsWith(t, "&quot;");
  }

  lemma UnescapeApos(rest: string)
    ensures XmlUnescape("&apos;" + rest) == "'" + XmlUnescape(rest)
  {
    var t := "&apos;" + rest;
    assert t[6..] == rest;
    assert t[1] == 'a' && t[2] == 'p';
    assert !StartsWith(t, "&amp;") by { assert t[..5][2] == t[2]; }
    assert !StartsWith(t, "&lt;") && !StartsWith(t, "&gt;") by { assert t[..4][1] == t[1]; }
    assert !StartsWith(t, "&quot;") by { assert t[..6][1] == t[1]; }
    assert StartsWith(t, "&apos;");
  }

  /** The XML parser gives back exactly what was escaped. */
  lemma UnescapeEscapeXml(s: string)
    ensures XmlUnescape(EscapeXml(s)) == s
  {
    EscapeXmlCharwise(s);
    UnescapeEscapeChars(s);
  }

  // ---------------------------------------------------------------------
  // Numbers as the writer prints them

  lemma IntToStringPlain(i: int)
    ensures forall k :: 0 <= k < |IntToString(i)| ==> IsDigit(IntToString(i)[k]) || IntToString(i)[k] == '-'
    ensures '&' !in IntToString(i) && '.' !in IntToString(i) && ',' !in IntToString(i)
  {
    var s := IntToString(i);
    assert forall k :: 0 <= k < |s| ==> IsDigit(s[k]) || s[k] == '-' by {
      if i < 0 {
        forall k | 0 <= k < |s| ensures IsDigit(s[k]) || s[k] == '-' {
          if k > 0 { assert s[k] == NatToString(-i)[k - 1]; }
        }
      }
    }
  }

  /** `parseInt` reads back any integer the writer prints, and the XML parser leaves it alone. */
  lemma ReadBackInt(i: int)
    ensures ParseInt(IntToString(i)) == Some(i)
    ensures XmlUnescape(IntToString(i)) == IntToString(i)
    ensures ParseIntOrZero(IntToString(i)) == i
  {
    ParseIntOfIntToString(i, "");
    assert IntToString(i) + "" == IntToString(i);
    IntToStringPlain(i);
  }

  lemma SmallInts()
    ensures IntToString(0) == "0" && IntToString(1) == "1" && IntToString(2) == "2"
    ensures IntToString(3) == "3" && IntToString(4) == "4"
  {
    assert NatToString(0) == [DigitChar(0)];
    assert NatToString(1) == [DigitChar(1)];
    assert NatToString(2) == [DigitChar(2)];
    assert NatToString(3) == [DigitChar(3)];
    assert NatToString(4) == [DigitChar(4)];
  }

  // ---------------------------------------------------------------------
  // Enumerations

  /** `tableTypeToValue`. */
  function TableTypeToValue(t: TableType): string
  {
    match t
    case EM => "1"
    case SS => "2"
    case SSDMD => "3"
    case ORI => "4"
  }

  /** `dmdTypeToValue`. */
  function DmdTypeToValue(t: DmdType): string
  {
    match t
    case BuiltIn => "1"
    case External => "2"
    case NoDmd => "0"
  }

  /** The `CommType` element: "2" for B2S, else "1". */
  function CommTypeToValue(t: CommType): string
  {
    if t == B2S then "2" else "1"
  }

  /** The `DestType` element: "2" for fantasy, else "1". */
  function DestTypeToValue(t: DestType): string
  {
    if t == DestFantasy then "2" else "1"
  }

  /** A flag element: "1" or "0". */
  function FlagToValue(b: bool): string
  {
    if b then "1" else "0"
  }

  /** `dualModeToValue`. */
  function DualModeToValue(m: DualMode): string
  {
    match m
    case Authentic => "1"
    case Fantasy => "2"
    case Both => "0"
  }

  /** `lightStateToValue`. */
  function LightStateToValue(s: LightState): string
  {
    match s
    case LightOn => "1"
    case NoChange => "2"
    case Reset => "3"
    case LightOff => "0"
  }

  /** `stopBehaviourToValue`. */
  function StopBehaviourToValue(b: StopBehaviour): string
  {
    match b
    case RunTillEnd => "1"
    case ReturnToFirstStep => "2"
    case Immediate => "0"
  }

  /** `romIdTypeToValue`. */
  function RomIdTypeToValue(t: RomIdType): string
  {
    match t
    case Solenoid => "2"
    case GIString => "3"
    case Lamp => "1"
  }

  /** `rotatingDirectionToValue`. */
  function RotatingDirectionToValue(d: RotatingDirection): string
  {
    match d
    case Clockwise => "1"
    case CounterClockwise => "2"
    case NoRotation => "0"
  }

  /** `initialStateToValue`. */
  function InitialStateToValue(s: InitialState): string
  {
    match s
    case InitiallyOn => "1"
    case InitiallyUndefined => "2"
    case InitiallyOff => "0"
  }

  /** The number-valued header elements read back as written. */
  lemma NumberEnumsRoundTrip(t: TableType, d: DmdType, c: CommType, e: DestType, b: bool)
    ensures ParseTableType(ParseIntOrZero(TableTypeToValue(t))) == t
    ensures ParseDmdType(ParseIntOrZero(DmdTypeToValue(d))) == d
    ensures ParseCommType(ParseIntOrZero(CommTypeToValue(c))) == c
    ensures ParseDestType(ParseIntOrZero(DestTypeToValue(e))) == e
    ensures (ParseIntOrZero(FlagToValue(b)) == 1) == b
  {
    SmallInts();
    ReadBackInt(0);
    ReadBackInt(1);
    ReadBackInt(2);
    ReadBackInt(3);
    ReadBackInt(4);
  }

  /** The attribute-valued encoders invert the reader's decoders. */
  lemma AttributeEnumsRoundTrip(m: DualMode, l: LightState, b: StopBehaviour, r: RomIdType, d: RotatingDirection, s: InitialState)
    ensures ParseDualMode(Some(DualModeToValue(m))) == m
    ensures ParseLightState(Some(LightStateToValue(l))) == l
    ensures ParseStopBehaviour(Some(StopBehaviourToValue(b))) == b
    ensures ParseRomIdType(Some(RomIdTypeToValue(r))) == r
    ensures ParseRotatingDirection(Some(RotatingDirectionToValue(d))) == d
    ensures ParseInitialState(Some(InitialStateToValue(s))) == s
  {
  }

  /** The default of each attribute decoder is the value whose attribute the writer leaves out. */
  lemma OmittedAttributeDefaults()
    ensures ParseLightState(None) == LightOff
    ensures ParseStopBehaviour(None) == Immediate
    ensures ParseRotatingDirection(None) == NoRotation
    ensures ParseB2SIdType(None) == Straight
    ensures ParseIlluminationMode(None) == Standard
    ensures !ParseTrueFlag(None)
    ensures ParseVisible(None)
  {
  }

  // ---------------------------------------------------------------------
  // Colours

  /** `colorToString`: red, green and blue joined by dots; alpha is not written. */
  function ColorToString(c: Color): string
  {
    IntToString(c.r) + "." + IntToString(c.g) + "." + IntToString(c.b)
  }

  lemma {:induction false} SplitNoSeparator(a: string, sep: char)
    requires sep !in a
    ensures Split(a, sep) == [a]
  {
    if a != [] {
      SplitNoSeparator(a[1..], sep);
      assert [a[0]] + a[1..] == a;
    }
  }

  lemma {:induction false} SplitAfter(a: string, sep: char, b: string)
    requires sep !in a
    ensures Split(a + [sep] + b, sep) == [a] + Split(b, sep)
  {
    if a == [] {
      assert a + [sep] + b == [sep] + b;
    } else {
      assert (a + [sep] + b)[1..] == a[1..] + [sep] + b;
      SplitAfter(a[1..], sep, b);
      assert [a[0]] + a[1..] == a;
    }
  }

  lemma TrimPlain(s: string)
    requires |s| > 0 && forall k :: 0 <= k < |s| ==> IsDigit(s[k]) || s[k] == '-'
    ensures Trim(s) == s
  {
    assert TrimStart(s) == s;
  }

  /** The printed colour splits back into its three numbers. */
  lemma ColorPartsOfString(c: Color)
    ensures ColorParts(ColorToString(c)) == [IntToString(c.r), IntToString(c.g), IntToString(c.b)]
  {
    var r, g, b := IntToString(c.r), IntToString(c.g), IntToString(c.b);
    IntToStringPlain(c.r);
    IntToStringPlain(c.g);
    IntToStringPlain(c.b);
    var s := ColorToString(c);
    var gb := g + "." + b;
    assert s == r + ['.'] + gb;
    assert gb == g + ['.'] + b;
    assert ',' !in s;
    SplitNoSeparator(b, '.');
    SplitAfter(g, '.', b);
    SplitAfter(r, '.', gb);
  }

  lemma ChannelOf(i: int)
    ensures Channel(IntToString(i)) == Some(i)
  {
    IntToStringPlain(i);
    TrimPlain(IntToString(i));
    ReadBackInt(i);
  }

  /** `parseColor` reads back red, green and blue; the alpha becomes opaque. */
  lemma ColorRoundTrip(c: Color)
    ensures ParseColor(ColorToString(c)) == Some(Color(c.r, c.g, c.b, 255))
  {
    var s := ColorToString(c);
    var r, g, b := IntToString(c.r), IntToString(c.g), IntToString(c.b);
    ColorPartsOfString(c);
    assert s != "" by { assert |s| >= |r| > 0; }
    ChannelOf(c.r);
    ChannelOf(c.g);
    ChannelOf(c.b);
    MapAllThree(Channel, r, g, b, c.r, c.g, c.b);
    ParseThreeChannels(s, r, g, b, c.r, c.g, c.b);
  }

  /** A non-empty colour text of three parts, each a channel, reads as an opaque colour. */
  lemma ParseThreeChannels(s: string, r: string, g: string, b: string, x: int, y: int, z: int)
    requires s != "" && ColorParts(s) == [r, g, b]
    requires ChannelValues([r, g, b]) == Some([x, y, z])
    ensures ParseColor(s) == Some(Color(x, y, z, 255))
  {
  }

  lemma MapAllThree<A, B>(f: A -> Option<B>, a: A, b: A, c: A, x: B, y: B, z: B)
    requires f(a) == Some(x) && f(b) == Some(y) && f(c) == Some(z)
    ensures MapAll(f, [a, b, c]) == Some([x, y, z])
  {
    var xs := [a, b, c];
    var r := MapAll(f, xs);
    assert xs[0] == a && xs[1] == b && xs[2] == c;
    assert r.Some?;
    assert r.value[0] == x && r.value[1] == y && r.value[2] == z;
    assert r.value == [x, y, z];
  }

  // ---------------------------------------------------------------------
  // Attribute lists.  An element is modelled by its attributes in writing
  // order, each with the text written between its quotes.  The writer's
  // list is a sequence of slots: the attributes it always pushes, and the
  // ones it pushes only under a condition.

  /** One attribute the writer may push: `name="text"`, when `present`. */
  datatype Slot = Slot(present: bool, name: string, text: string)

  /** The attributes actually written, in order. */
  function Present(slots: seq<Slot>): (r: seq<Attribute>)
    ensures |r| <= |slots|
  {
    if slots == [] then []
    else (if slots[0].present then [Attribute(slots[0].name, slots[0].text)] else []) + Present(slots[1..])
  }

  /** `getAttribute` on a written element: the slot's text, unescaped, if it was written. */
  lemma {:induction false} SlotLookup(slots: seq<Slot>, i: nat)
    requires i < |slots|
    requires forall j :: 0 <= j < i ==> slots[j].name != slots[i].name
    requires !slots[i].present ==> forall j :: i < j < |slots| ==> slots[j].name != slots[i].name
    ensures GetAttribute(Present(slots), slots[i].name) ==
      if slots[i].present then Some(XmlUnescape(slots[i].text)) else None
  {
    var name := slots[i].name;
    var head := if slots[0].present then [Attribute(slots[0].name, slots[0].text)] else [];
    var rest := slots[1..];
    assert Present(slots) == head + Present(rest);
    GetAttributeConcat(head, Present(rest), name);
    if i > 0 {
      assert slots[0].name != name && rest[i - 1] == slots[i];
      forall j | 0 <= j < i - 1 ensures rest[j].name != rest[i - 1].name {
        assert rest[j] == slots[j + 1];
      }
      if !slots[i].present {
        forall j | i - 1 < j < |rest| ensures rest[j].name != rest[i - 1].name {
          assert rest[j] == slots[j + 1];
        }
      }
      SlotLookup(rest, i - 1);
    } else if !slots[0].present {
      AbsentName(rest, name);
    }
  }

  /** A name no slot carries is never found. */
  lemma {:induction false} AbsentName(slots: seq<Slot>, name: string)
    requires forall k :: 0 <= k < |slots| ==> slots[k].name != name
    ensures GetAttribute(Present(slots), name).None?
  {
    if slots != [] {
      var head := if slots[0].present then [Attribute(slots[0].name, slots[0].text)] else [];
      GetAttributeConcat(head, Present(slots[1..]), name);
      AbsentName(slots[1..], name);
    }
  }

  /** The first attribute of a name is found in the first list that has one. */
  lemma {:induction false} GetAttributeConcat(xs: seq<Attribute>, ys: seq<Attribute>, name: string)
    ensures GetAttribute(xs + ys, name) == if GetAttribute(xs, name).Some? then GetAttribute(xs, name) else GetAttribute(ys, name)
  {
    if xs != [] {
      assert (xs + ys)[1..] == xs[1..] + ys;
      GetAttributeConcat(xs[1..], ys, name);
    } else {
      assert xs + ys == ys;
    }
  }

  /** The slots of an element whose attribute names are `names`, in writing order. */
  function Slots(names: seq<string>, present: seq<bool>, texts: seq<string>): (r: seq<Slot>)
    requires |present| == |names| && |texts| == |names|
    ensures |r| == |names|
    ensures forall k :: 0 <= k < |r| ==> r[k] == Slot(present[k], names[k], texts[k])
  {
    seq(|names|, k requires 0 <= k < |names| => Slot(present[k], names[k], texts[k]))
  }

  /** One presence flag and one text per attribute name. */
  predicate Layout(names: seq<string>, present: seq<bool>, texts: seq<string>)
  {
    |present| == |names| && |texts| == |names|
  }

  /**
   * `getAttribute` on an element written from `names`, for a name that
   * occurs once, after the names `before`: its text, unescaped, if it was
   * written.
   */
  lemma ElementLookup(names: seq<string>, present: seq<bool>, texts: seq<string>, before: seq<string>, name: string, after: seq<string>)
    requires Layout(names, present, texts)
    requires |before| < |names| && names[..|before|] == before && names[|before|] == name && name !in before
    requires !present[|before|] ==> names[|before| + 1..] == after && name !in after
    ensures GetAttribute(Present(Slots(names, present, texts)), name) ==
      if present[|before|] then Some(XmlUnescape(texts[|before|])) else None
  {
    var slots := Slots(names, present, texts);
    var i := |before|;
    forall j | 0 <= j < i ensures slots[j].name != slots[i].name {
      assert names[j] == names[..i][j] == before[j];
    }
    if !present[i] {
      forall j | i < j < |slots| ensures slots[j].name != slots[i].name {
        assert names[j] == names[i + 1..][j - i - 1] == after[j - i - 1];
      }
    }
    SlotLookup(slots, i);
  }

  const STEP_NAMES: seq<string> := ["Step", "On", "WaitLoopsAfterOn", "Off", "WaitLoopsAfterOff", "PulseSwitch"]

  /** The attribute slots of an `AnimationStep` element; `PulseSwitch` only when positive. */
  function StepSlots(s: AnimationStep): seq<Slot>
  {
    Slots(STEP_NAMES, StepPresent(s), StepTexts(s))
  }

  function StepPresent(s: AnimationStep): seq<bool>
  {
    [true, true, true, true, true, s.pulseSwitch > 0]
  }

  function StepTexts(s: AnimationStep): seq<string>
  {
    [IntToString(s.step), EscapeXml(s.on), IntToString(s.waitLoopsAfterOn),
     EscapeXml(s.off), IntToString(s.waitLoopsAfterOff), IntToString(s.pulseSwitch)]
  }

  /** Reading back a written step gives the step, unless its pulse switch is negative. */
  lemma StepRoundTrip(s: AnimationStep)
    requires s.pulseSwitch >= 0
    ensures ReadStep(Present(StepSlots(s))) == Some(s)
  {
    var attrs := Present(StepSlots(s));
    StepLookups(attrs, StepPresent(s), StepTexts(s));
    ReadStepWritten(attrs, s);
  }

  /** `ReadStep` on attributes holding a step's texts as the writer formats them. */
  lemma ReadStepWritten(attrs: seq<Attribute>, s: AnimationStep)
    requires s.pulseSwitch >= 0
    requires GetAttribute(attrs, "Step") == Some(XmlUnescape(IntToString(s.step)))
    requires GetAttribute(attrs, "On") == Some(XmlUnescape(EscapeXml(s.on)))
    requires GetAttribute(attrs, "WaitLoopsAfterOn") == Some(XmlUnescape(IntToString(s.waitLoopsAfterOn)))
    requires GetAttribute(attrs, "Off") == Some(XmlUnescape(EscapeXml(s.off)))
    requires GetAttribute(attrs, "WaitLoopsAfterOff") == Some(XmlUnescape(IntToString(s.waitLoopsAfterOff)))
    requires GetAttribute(attrs, "PulseSwitch") ==
      if s.pulseSwitch > 0 then Some(XmlUnescape(IntToString(s.pulseSwitch))) else None
    ensures ReadStep(attrs) == Some(s)
  {
    NumberOf(attrs, "Step", s.step, "0");
    TextOf(attrs, "On", s.on);
    NumberOf(attrs, "WaitLoopsAfterOn", s.waitLoopsAfterOn, "0");
    TextOf(attrs, "Off", s.off);
    NumberOf(attrs, "WaitLoopsAfterOff", s.waitLoopsAfterOff, "0");
    NumberOrZero(attrs, "PulseSwitch", s.pulseSwitch);
    ReadStepFrom(attrs, s);
  }

  /** What `getAttribute` finds on a step element, for each of its names. */
  lemma StepLookups(attrs: seq<Attribute>, present: seq<bool>, texts: seq<string>)
    requires Layout(STEP_NAMES, present, texts) && attrs == Present(Slots(STEP_NAMES, present, texts))
    ensures GetAttribute(attrs, "Step") == if present[0] then Some(XmlUnescape(texts[0])) else None
    ensures GetAttribute(attrs, "On") == if present[1] then Some(XmlUnescape(texts[1])) else None
    ensures GetAttribute(attrs, "WaitLoopsAfterOn") == if present[2] then Some(XmlUnescape(texts[2])) else None
    ensures GetAttribute(attrs, "Off") == if present[3] then Some(XmlUnescape(texts[3])) else None
    ensures GetAttribute(attrs, "WaitLoopsAfterOff") == if present[4] then Some(XmlUnescape(texts[4])) else None
    ensures GetAttribute(attrs, "PulseSwitch") == if present[5] then Some(XmlUnescape(texts[5])) else None
  {
    ElementLookup(STEP_NAMES, present, texts, [], "Step", ["On", "WaitLoopsAfterOn", "Off", "WaitLoopsAfterOff", "PulseSwitch"]);
    ElementLookup(STEP_NAMES, present, texts, ["Step"], "On", ["WaitLoopsAfterOn", "Off", "WaitLoopsAfterOff", "PulseSwitch"]);
    ElementLookup(STEP_NAMES, present, texts, ["Step", "On"], "WaitLoopsAfterOn", ["Off", "WaitLoopsAfterOff", "PulseSwitch"]);
    ElementLookup(STEP_NAMES, present, texts, ["Step", "On", "WaitLoopsAfterOn"], "Off", ["WaitLoopsAfterOff", "PulseSwitch"]);
    ElementLookup(STEP_NAMES, present, texts, ["Step", "On", "WaitLoopsAfterOn", "Off"], "WaitLoopsAfterOff", ["PulseSwitch"]);
    ElementLookup(STEP_NAMES, present, texts, ["Step", "On", "WaitLoopsAfterOn", "Off", "WaitLoopsAfterOff"], "PulseSwitch", []);
  }

  /** `ReadStep` on any element whose attributes read as a step's values. */
  lemma ReadStepFrom(attrs: seq<Attribute>, s: AnimationStep)
    requires NumberAttr(attrs, "Step", "0") == Some(s.step)
    requires GetAttribute(attrs, "On") == Some(s.on)
    requires NumberAttr(attrs, "WaitLoopsAfterOn", "0") == Some(s.waitLoopsAfterOn)
    requires GetAttribute(attrs, "Off") == Some(s.off)
    requires NumberAttr(attrs, "WaitLoopsAfterOff", "0") == Some(s.waitLoopsAfterOff)
    requires NumberAttr(attrs, "PulseSwitch", "0") == Some(s.pulseSwitch)
    ensures ReadStep(attrs) == Some(s)
  {
  }

  /** An `AnimationStep` element as written. */
  function StepElement(s: AnimationStep): seq<Attribute>
  {
    Present(StepSlots(s))
  }

  /** The step elements of an animation, in order. */
  function StepElements(steps: seq<AnimationStep>): (r: seq<seq<Attribute>>)
    ensures |r| == |steps|
    ensures forall k :: 0 <= k < |steps| ==> r[k] == StepElement(steps[k])
  {
    seq(|steps|, k requires 0 <= k < |steps| => StepElement(steps[k]))
  }

  /** The written steps read back as the animation's steps, in order. */
  lemma StepsRoundTrip(steps: seq<AnimationStep>)
    requires forall k :: 0 <= k < |steps| ==> steps[k].pulseSwitch >= 0
    ensures ReadSteps(StepElements(steps)) == Some(steps)
  {
    var elements := StepElements(steps);
    forall k | 0 <= k < |steps| ensures ReadStep(elements[k]) == Some(steps[k]) {
      StepRoundTrip(steps[k]);
    }
    var r := ReadSteps(elements);
    assert r.Some?;
    assert r.value == steps;
  }

  const ANIMATION_NAMES: seq<string> :=
    ["Name", "DualMode", "Interval", "Loops", "IDJoin", "StartAnimationAtRomStart", "LightAtStart",
     "LightAtEnd", "AnimationStopBehaviour", "LockAtLastStep", "HideAtStart", "BringToFront",
     "RandomStart", "RandomQuality"]

  /**
   * The attribute slots of an `Animation` element: name, dual mode,
   * interval, loops and join ids always; each flag only when set, each
   * light state and the stop behaviour only when not the default, the
   * random quality only when positive.
   */
  function AnimationSlots(a: Animation): seq<Slot>
  {
    Slots(ANIMATION_NAMES, AnimationPresent(a), AnimationTexts(a))
  }

  function AnimationPresent(a: Animation): seq<bool>
  {
    [true, true, true, true, true, a.startAnimationAtRomStart, a.lightAtStart != LightOff,
     a.lightAtEnd != LightOff, a.animationStopBehaviour != Immediate, a.lockAtLastStep,
     a.hideAtStart, a.bringToFront, a.randomStart, a.randomQuality > 0]
  }

  function AnimationTexts(a: Animation): seq<string>
  {
    [EscapeXml(a.name), DualModeToValue(a.dualMode), IntToString(a.interval), IntToString(a.loops),
     EscapeXml(a.idJoin), "True", LightStateToValue(a.lightAtStart), LightStateToValue(a.lightAtEnd),
     StopBehaviourToValue(a.animationStopBehaviour), "True", "True", "True", "True",
     IntToString(a.randomQuality)]
  }

  lemma AnimationLayout(a: Animation)
    ensures Layout(ANIMATION_NAMES, AnimationPresent(a), AnimationTexts(a))
  {
  }

  /**
   * Reading back a written animation with its written steps gives the
   * animation, unless its random quality or a step's pulse switch is
   * negative (those are left out when written and read back as 0).
   */
  lemma AnimationRoundTrip(a: Animation)
    requires a.randomQuality >= 0
    requires forall k :: 0 <= k < |a.steps| ==> a.steps[k].pulseSwitch >= 0
    ensures ReadAnimation(Present(AnimationSlots(a)), StepElements(a.steps)) == Some(a)
  {
    var attrs := Present(AnimationSlots(a));
    AnimationLayout(a);
    AnimationLookups(attrs, AnimationPresent(a), AnimationTexts(a));
    StepsRoundTrip(a.steps);
    ReadAnimationWritten(attrs, StepElements(a.steps), a);
  }

  /** What `getAttribute` finds on an animation element, for each of its names. */
  lemma AnimationLookups(attrs: seq<Attribute>, present: seq<bool>, texts: seq<string>)
    requires Layout(ANIMATION_NAMES, present, texts) && attrs == Present(Slots(ANIMATION_NAMES, present, texts))
    ensures GetAttribute(attrs, "Name") == if present[0] then Some(XmlUnescape(texts[0])) else None
    ensures GetAttribute(attrs, "DualMode") == if present[1] then Some(XmlUnescape(texts[1])) else None
    ensures GetAttribute(attrs, "Interval") == if present[2] then Some(XmlUnescape(texts[2])) else None
    ensures GetAttribute(attrs, "Loops") == if present[3] then Some(XmlUnescape(texts[3])) else None
    ensures GetAttribute(attrs, "IDJoin") == if present[4] then Some(XmlUnescape(texts[4])) else None
    ensures GetAttribute(attrs, "StartAnimationAtRomStart") == if present[5] then Some(XmlUnescape(texts[5])) else None
    ensures GetAttribute(attrs, "LightAtStart") == if present[6] then Some(XmlUnescape(texts[6])) else None
    ensures GetAttribute(attrs, "LightAtEnd") == if present[7] then Some(XmlUnescape(texts[7])) else None
    ensures GetAttribute(attrs, "AnimationStopBehaviour") == if present[8] then Some(XmlUnescape(texts[8])) else None
    ensures GetAttribute(attrs, "LockAtLastStep") == if present[9] then Some(XmlUnescape(texts[9])) else None
    ensures GetAttribute(attrs, "HideAtStart") == if present[10] then Some(XmlUnescape(texts[10])) else None
    ensures GetAttribute(attrs, "BringToFront") == if present[11] then Some(XmlUnescape(texts[11])) else None
    ensures GetAttribute(attrs, "RandomStart") == if present[12] then Some(XmlUnescape(texts[12])) else None
    ensures GetAttribute(attrs, "RandomQuality") == if present[13] then Some(XmlUnescape(texts[13])) else None
  {
    AnimationLookupName(attrs, present, texts);
    AnimationLookupDualMode(attrs, present, texts);
    AnimationLookupInterval(attrs, present, texts);
    AnimationLookupLoops(attrs, present, texts);
    AnimationLookupIDJoin(attrs, present, texts);
    AnimationLookupStartAnimationAtRomStart(attrs, present, texts);
    AnimationLookupLightAtStart(attrs, present, texts);
    AnimationLookupLightAtEnd(attrs, present, texts);
    AnimationLookupAnimationStopBehaviour(attrs, present, texts);
    AnimationLookupLockAtLastStep(attrs, present, texts);
    AnimationLookupHideAtStart(attrs, present, texts);
    AnimationLookupBringToFront(attrs, present, texts);
    AnimationLookupRandomStart(attrs, present, texts);
    AnimationLookupRandomQuality(attrs, present, texts);
  }

  lemma AnimationLookupName(attrs: seq<Attribute>, present: seq<bool>, texts: seq<string>)
    requires Layout(ANIMATION_NAMES, present, texts) && attrs == Present(Slots(ANIMATION_NAMES, present, texts))
    ensures GetAttribute(attrs, "Name") == if present[0] then Some(XmlUnescape(texts[0])) else None
  {
    ElementLookup(ANIMATION_NAMES, present, texts, [], "Name", ["DualMode", "Interval", "Loops", "IDJoin", "StartAnimationAtRomStart", "LightAtStart", "LightAtEnd", "AnimationStopBehaviour", "LockAtLastStep", "HideAtStart", "BringToFront", "RandomStart", "RandomQuality"]);
  }

  lemma AnimationLookupDualMode(attrs: seq<Attribute>, present: seq<bool>, texts: seq<string>)
    requires Layout(ANIMATION_NAMES, present, texts) && attrs == Present(Slots(ANIMATION_NAMES, present, texts))
    ensures GetAttribute(attrs, "DualMode") == if present[1] then Some(XmlUnescape(texts[1])) else None
  {
    ElementLookup(ANIMATION_NAMES, present, texts, ["Name"], "DualMode", ["Interval", "Loops", "IDJoin", "StartAnimationAtRomStart", "LightAtStart", "LightAtEnd", "AnimationStopBehaviour", "LockAtLastStep", "HideAtStart", "BringToFront", "RandomStart", "RandomQuality"]);
  }

  lemma AnimationLookupInterval(attrs: seq<Attribute>, present: seq<bool>, texts: seq<string>)
    requires Layout(ANIMATION_NAMES, present, texts) && attrs == Present(Slots(ANIMATION_NAMES, present, texts))
    ensures GetAttribute(attrs, "Interval") == if present[2] then Some(XmlUnescape(texts[2])) else None
  {
    ElementLookup(ANIMATION_NAMES, present, texts, ["Name", "DualMode"], "Interval", ["Loops", "IDJoin", "StartAnimationAtRomStart", "LightAtStart", "LightAtEnd", "AnimationStopBehaviour", "LockAtLastStep", "HideAtStart", "BringToFront", "RandomStart", "RandomQuality"]);
  }

  lemma AnimationLookupLoops(attrs: seq<Attribute>, present: seq<bool>, texts: seq<string>)
    requires Layout(ANIMATION_NAMES, present, texts) && attrs == Present(Slots(ANIMATION_NAMES, present, texts))
    ensures GetAttribute(attrs, "Loops") == if present[3] then Some(XmlUnescape(texts[3])) else None
  {
    ElementLookup(ANIMATION_NAMES, present, texts, ["Name", "DualMode", "Interval"], "Loops", ["IDJoin", "StartAnimationAtRomStart", "LightAtStart", "LightAtEnd", "AnimationStopBehaviour", "LockAtLastStep", "HideAtStart", "BringToFront", "RandomStart", "RandomQuality"]);
  }

  lemma AnimationLookupIDJoin(attrs: seq<Attribute>, present: seq<bool>, texts: seq<string>)
    requires Layout(ANIMATION_NAMES, present, texts) && attrs == Present(Slots(ANIMATION_NAMES, present, texts))
    ensures GetAttribute(attrs, "IDJoin") == if present[4] then Some(XmlUnescape(texts[4])) else None
  {
    ElementLookup(ANIMATION_NAMES, present, texts, ["Name", "DualMode", "Interval", "Loops"], "IDJoin", ["StartAnimationAtRomStart", "LightAtStart", "LightAtEnd", "AnimationStopBehaviour", "LockAtLastStep", "HideAtStart", "BringToFront", "RandomStart", "RandomQuality"]);
  }

  lemma AnimationLookupStartAnimationAtRomStart(attrs: seq<Attribute>, present: seq<bool>, texts: seq<string>)
    requires Layout(ANIMATION_NAMES, present, texts) && attrs == Present(Slots(ANIMATION_NAMES, present, texts))
    ensures GetAttribute(attrs, "StartAnimationAtRomStart") == if present[5] then Some(XmlUnescape(texts[5])) else None
  {
    ElementLookup(ANIMATION_NAMES, present, texts, ["Name", "DualMode", "Interval", "Loops", "IDJoin"], "StartAnimationAtRomStart", ["LightAtStart", "LightAtEnd", "AnimationStopBehaviour", "LockAtLastStep", "HideAtStart", "BringToFront", "RandomStart", "RandomQuality"]);
  }

  lemma AnimationLookupLightAtStart(attrs: seq<Attribute>, present: seq<bool>, texts: seq<string>)
    requires Layout(ANIMATION_NAMES, present, texts) && attrs == Present(Slots(ANIMATION_NAMES, present, texts))
    ensures GetAttribute(attrs, "LightAtStart") == if present[6] then Some(XmlUnescape(texts[6])) else None
  {
    ElementLookup(ANIMATION_NAMES, present, texts, ["Name", "DualMode", "Interval", "Loops", "IDJoin", "StartAnimationAtRomStart"], "LightAtStart", ["LightAtEnd", "AnimationStopBehaviour", "LockAtLastStep", "HideAtStart", "BringToFront", "RandomStart", "RandomQuality"]);
  }

  lemma AnimationLookupLightAtEnd(attrs: seq<Attribute>, present: seq<bool>, texts: seq<string>)
    requires Layout(ANIMATION_NAMES, present, texts) && attrs == Present(Slots(ANIMATION_NAMES, present, texts))
    ensures GetAttribute(attrs, "LightAtEnd") == if present[7] then Some(XmlUnescape(texts[7])) else None
  {
    ElementLookup(ANIMATION_NAMES, present, texts, ["Name", "DualMode", "Interval", "Loops", "IDJoin", "StartAnimationAtRomStart", "LightAtStart"], "LightAtEnd", ["AnimationStopBehaviour", "LockAtLastStep", "HideAtStart", "BringToFront", "RandomStart", "RandomQuality"]);
  }

  lemma AnimationLookupAnimationStopBehaviour(attrs: seq<Attribute>, present: seq<bool>, texts: seq<string>)
    requires Layout(ANIMATION_NAMES, present, texts) && attrs == Present(Slots(ANIMATION_NAMES, present, texts))
    ensures GetAttribute(attrs, "AnimationStopBehaviour") == if present[8] then Some(XmlUnescape(texts[8])) else None
  {
    ElementLookup(ANIMATION_NAMES, present, texts, ["Name", "DualMode", "Interval", "Loops", "IDJoin", "StartAnimationAtRomStart", "LightAtStart", "LightAtEnd"], "AnimationStopBehaviour", ["LockAtLastStep", "HideAtStart", "BringToFront", "RandomStart", "RandomQuality"]);
  }

  lemma AnimationLookupLockAtLastStep(attrs: seq<Attribute>, present: seq<bool>, texts: seq<string>)
    requires Layout(ANIMATION_NAMES, present, texts) && attrs == Present(Slots(ANIMATION_NAMES, present, texts))
    ensures GetAttribute(attrs, "LockAtLastStep") == if present[9] then Some(XmlUnescape(texts[9])) else None
  {
    ElementLookup(ANIMATION_NAMES, present, texts, ["Name", "DualMode", "Interval", "Loops", "IDJoin", "StartAnimationAtRomStart", "LightAtStart", "LightAtEnd", "AnimationStopBehaviour"], "LockAtLastStep", ["HideAtStart", "BringToFront", "RandomStart", "RandomQuality"]);
  }

  lemma AnimationLookupHideAtStart(attrs: seq<Attribute>, present: seq<bool>, texts: seq<string>)
    requires Layout(ANIMATION_NAMES, present, texts) && attrs == Present(Slots(ANIMATION_NAMES, present, texts))
    ensures GetAttribute(attrs, "HideAtStart") == if present[10] then Some(XmlUnescape(texts[10])) else None
  {
    ElementLookup(ANIMATION_NAMES, present, texts, ["Name", "DualMode", "Interval", "Loops", "IDJoin", "StartAnimationAtRomStart", "LightAtStart", "LightAtEnd", "AnimationStopBehaviour", "LockAtLastStep"], "HideAtStart", ["BringToFront", "RandomStart", "RandomQuality"]);
  }

  lemma AnimationLookupBringToFront(attrs: seq<Attribute>, present: seq<bool>, texts: seq<string>)
    requires Layout(ANIMATION_NAMES, present, texts) && attrs == Present(Slots(ANIMATION_NAMES, present, texts))
    ensures GetAttribute(attrs, "BringToFront") == if present[11] then Some(XmlUnescape(texts[11])) else None
  {
    ElementLookup(ANIMATION_NAMES, present, texts, ["Name", "DualMode", "Interval", "Loops", "IDJoin", "StartAnimationAtRomStart", "LightAtStart", "LightAtEnd", "AnimationStopBehaviour", "LockAtLastStep", "HideAtStart"], "BringToFront", ["RandomStart", "RandomQuality"]);
  }

  lemma AnimationLookupRandomStart(attrs: seq<Attribute>, present: seq<bool>, texts: seq<string>)
    requires Layout(ANIMATION_NAMES, present, texts) && attrs == Present(Slots(ANIMATION_NAMES, present, texts))
    ensures GetAttribute(attrs, "RandomStart") == if present[12] then Some(XmlUnescape(texts[12])) else None
  {
    ElementLookup(ANIMATION_NAMES, present, texts, ["Name", "DualMode", "Interval", "Loops", "IDJoin", "StartAnimationAtRomStart", "LightAtStart", "LightAtEnd", "AnimationStopBehaviour", "LockAtLastStep", "HideAtStart", "BringToFront"], "RandomStart", ["RandomQuality"]);
  }

  lemma AnimationLookupRandomQuality(attrs: seq<Attribute>, present: seq<bool>, texts: seq<string>)
    requires Layout(ANIMATION_NAMES, present, texts) && attrs == Present(Slots(ANIMATION_NAMES, present, texts))
    ensures GetAttribute(attrs, "RandomQuality") == if present[13] then Some(XmlUnescape(texts[13])) else None
  {
    ElementLookup(ANIMATION_NAMES, present, texts, ["Name", "DualMode", "Interval", "Loops", "IDJoin", "StartAnimationAtRomStart", "LightAtStart", "LightAtEnd", "AnimationStopBehaviour", "LockAtLastStep", "HideAtStart", "BringToFront", "RandomStart"], "RandomQuality", []);
  }

  /** `ReadAnimation` on attributes holding an animation's texts as the writer formats them. */
  lemma ReadAnimationWritten(attrs: seq<Attribute>, steps: seq<seq<Attribute>>, a: Animation)
    requires a.randomQuality >= 0 && ReadSteps(steps) == Some(a.steps)
    requires GetAttribute(attrs, "Name") == Some(XmlUnescape(EscapeXml(a.name)))
    requires GetAttribute(attrs, "DualMode") == Some(XmlUnescape(DualModeToValue(a.dualMode)))
    requires GetAttribute(attrs, "Interval") == Some(XmlUnescape(IntToString(a.interval)))
    requires GetAttribute(attrs, "Loops") == Some(XmlUnescape(IntToString(a.loops)))
    requires GetAttribute(attrs, "IDJoin") == Some(XmlUnescape(EscapeXml(a.idJoin)))
    requires GetAttribute(attrs, "StartAnimationAtRomStart") ==
      if a.startAnimationAtRomStart then Some(XmlUnescape("True")) else None
    requires GetAttribute(attrs, "LightAtStart") ==
      if a.lightAtStart != LightOff then Some(XmlUnescape(LightStateToValue(a.lightAtStart))) else None
    requires GetAttribute(attrs, "LightAtEnd") ==
      if a.lightAtEnd != LightOff then Some(XmlUnescape(LightStateToValue(a.lightAtEnd))) else None
    requires GetAttribute(attrs, "AnimationStopBehaviour") ==
      if a.animationStopBehaviour != Immediate then Some(XmlUnescape(StopBehaviourToValue(a.animationStopBehaviour))) else None
    requires GetAttribute(attrs, "LockAtLastStep") == if a.lockAtLastStep then Some(XmlUnescape("True")) else None
    requires GetAttribute(attrs, "HideAtStart") == if a.hideAtStart then Some(XmlUnescape("True")) else None
    requires GetAttribute(attrs, "BringToFront") == if a.bringToFront then Some(XmlUnescape("True")) else None
    requires GetAttribute(attrs, "RandomStart") == if a.randomStart then Some(XmlUnescape("True")) else None
    requires GetAttribute(attrs, "RandomQuality") ==
      if a.randomQuality > 0 then Some(XmlUnescape(IntToString(a.randomQuality))) else None
    ensures ReadAnimation(attrs, steps) == Some(a)
  {
    AnimationTextsWritten(attrs, a);
    AnimationNumbersWritten(attrs, a);
    AnimationFlagsWritten(attrs, a);
    AnimationStatesWritten(attrs, a);
    ReadAnimationFrom(attrs, steps, a);
  }

  lemma AnimationTextsWritten(attrs: seq<Attribute>, a: Animation)
    requires GetAttribute(attrs, "Name") == Some(XmlUnescape(EscapeXml(a.name)))
    requires GetAttribute(attrs, "DualMode") == Some(XmlUnescape(DualModeToValue(a.dualMode)))
    requires GetAttribute(attrs, "IDJoin") == Some(XmlUnescape(EscapeXml(a.idJoin)))
    ensures GetAttribute(attrs, "Name") == Some(a.name)
    ensures GetAttribute(attrs, "IDJoin") == Some(a.idJoin)
    ensures ParseDualMode(GetAttribute(attrs, "DualMode")) == a.dualMode
  {
    TextOf(attrs, "Name", a.name);
    TextOf(attrs, "IDJoin", a.idJoin);
    DualModeOf(attrs, "DualMode", a.dualMode);
  }

  lemma AnimationNumbersWritten(attrs: seq<Attribute>, a: Animation)
    requires a.randomQuality >= 0
    requires GetAttribute(attrs, "Interval") == Some(XmlUnescape(IntToString(a.interval)))
    requires GetAttribute(attrs, "Loops") == Some(XmlUnescape(IntToString(a.loops)))
    requires GetAttribute(attrs, "RandomQuality") ==
      if a.randomQuality > 0 then Some(XmlUnescape(IntToString(a.randomQuality))) else None
    ensures NumberAttr(attrs, "Interval", "100") == Some(a.interval)
    ensures NumberAttr(attrs, "Loops", "0") == Some(a.loops)
    ensures NumberAttr(attrs, "RandomQuality", "0") == Some(a.randomQuality)
  {
    NumberOf(attrs, "Interval", a.interval, "100");
    NumberOf(attrs, "Loops", a.loops, "0");
    NumberOrZero(attrs, "RandomQuality", a.randomQuality);
  }

  lemma AnimationFlagsWritten(attrs: seq<Attribute>, a: Animation)
    requires GetAttribute(attrs, "StartAnimationAtRomStart") ==
      if a.startAnimationAtRomStart then Some(XmlUnescape("True")) else None
    requires GetAttribute(attrs, "LockAtLastStep") == if a.lockAtLastStep then Some(XmlUnescape("True")) else None
    requires GetAttribute(attrs, "HideAtStart") == if a.hideAtStart then Some(XmlUnescape("True")) else None
    requires GetAttribute(attrs, "BringToFront") == if a.bringToFront then Some(XmlUnescape("True")) else None
    requires GetAttribute(attrs, "RandomStart") == if a.randomStart then Some(XmlUnescape("True")) else None
    ensures ParseTrueFlag(GetAttribute(attrs, "StartAnimationAtRomStart")) == a.startAnimationAtRomStart
    ensures ParseTrueFlag(GetAttribute(attrs, "LockAtLastStep")) == a.lockAtLastStep
    ensures ParseTrueFlag(GetAttribute(attrs, "HideAtStart")) == a.hideAtStart
    ensures ParseTrueFlag(GetAttribute(attrs, "BringToFront")) == a.bringToFront
    ensures ParseTrueFlag(GetAttribute(attrs, "RandomStart")) == a.randomStart
  {
    FlagOf(attrs, "StartAnimationAtRomStart", a.startAnimationAtRomStart);
    FlagOf(attrs, "LockAtLastStep", a.lockAtLastStep);
    FlagOf(attrs, "HideAtStart", a.hideAtStart);
    FlagOf(attrs, "BringToFront", a.bringToFront);
    FlagOf(attrs, "RandomStart", a.randomStart);
  }

  lemma AnimationStatesWritten(attrs: seq<Attribute>, a: Animation)
    requires GetAttribute(attrs, "LightAtStart") ==
      if a.lightAtStart != LightOff then Some(XmlUnescape(LightStateToValue(a.lightAtStart))) else None
    requires GetAttribute(attrs, "LightAtEnd") ==
      if a.lightAtEnd != LightOff then Some(XmlUnescape(LightStateToValue(a.lightAtEnd))) else None
    requires GetAttribute(attrs, "AnimationStopBehaviour") ==
      if a.animationStopBehaviour != Immediate then Some(XmlUnescape(StopBehaviourToValue(a.animationStopBehaviour))) else None
    ensures ParseLightState(GetAttribute(attrs, "LightAtStart")) == a.lightAtStart
    ensures ParseLightState(GetAttribute(attrs, "LightAtEnd")) == a.lightAtEnd
    ensures ParseStopBehaviour(GetAttribute(attrs, "AnimationStopBehaviour")) == a.animationStopBehaviour
  {
    LightOf(attrs, "LightAtStart", a.lightAtStart);
    LightOf(attrs, "LightAtEnd", a.lightAtEnd);
    StopOf(attrs, "AnimationStopBehaviour", a.animationStopBehaviour);
  }

  /** `ReadAnimation` on any element whose attributes read as an animation's values. */
  lemma ReadAnimationFrom(attrs: seq<Attribute>, steps: seq<seq<Attribute>>, a: Animation)
    requires ReadSteps(steps) == Some(a.steps)
    requires GetAttribute(attrs, "Name") == Some(a.name)
    requires GetAttribute(attrs, "IDJoin") == Some(a.idJoin)
    requires ParseDualMode(GetAttribute(attrs, "DualMode")) == a.dualMode
    requires NumberAttr(attrs, "Interval", "100") == Some(a.interval)
    requires NumberAttr(attrs, "Loops", "0") == Some(a.loops)
    requires NumberAttr(attrs, "RandomQuality", "0") == Some(a.randomQuality)
    requires ParseTrueFlag(GetAttribute(attrs, "StartAnimationAtRomStart")) == a.startAnimationAtRomStart
    requires ParseLightState(GetAttribute(attrs, "LightAtStart")) == a.lightAtStart
    requires ParseLightState(GetAttribute(attrs, "LightAtEnd")) == a.lightAtEnd
    requires ParseStopBehaviour(GetAttribute(attrs, "AnimationStopBehaviour")) == a.animationStopBehaviour
    requires ParseTrueFlag(GetAttribute(attrs, "LockAtLastStep")) == a.lockAtLastStep
    requires ParseTrueFlag(GetAttribute(attrs, "HideAtStart")) == a.hideAtStart
    requires ParseTrueFlag(GetAttribute(attrs, "BringToFront")) == a.bringToFront
    requires ParseTrueFlag(GetAttribute(attrs, "RandomStart")) == a.randomStart
    ensures ReadAnimation(attrs, steps) == Some(a)
  {
  }

  // ---------------------------------------------------------------------
  // The document header.  The root's children that carry a `Value`
  // attribute are modelled as (element name, written value text) pairs, in
  // writing order, reusing `Attribute`.

  /** What the XML parser gives for the root's children: the decoded `Value` of each, the first of a name winning. */
  function ValueMap(children: seq<Attribute>): (m: map<string, string>)
    ensures forall n :: n in m <==> GetAttribute(children, n).Some?
    ensures forall n :: n in m ==> Some(m[n]) == GetAttribute(children, n)
  {
    if children == [] then map[]
    else ValueMap(children[1..])[children[0].name := XmlUnescape(children[0].text)]
  }

  /** `getAttrValue` on such a root: the child's decoded value, or "". */
  lemma ValueOfChildren(root: Root, children: seq<Attribute>, name: string)
    requires root.values == ValueMap(children)
    ensures ValueOf(root, name) == OrElse(GetAttribute(children, name), "")
  {
  }

  const HEADER_NAMES: seq<string> :=
    ["Name", "TableType", "DMDType", "DMDCopyAreaX", "DMDCopyAreaY", "DMDCopyAreaWidth",
     "DMDCopyAreaHeight", "GrillHeight", "ProjectGUID", "AssemblyGUID", "VSName", "DualBackglass",
     "Author", "Artwork", "GameName", "AddEMDefaults", "CommType", "DestType", "NumberOfPlayers"]

  /** The copy area of the DMD is written only when it has a positive width and height. */
  predicate CopyAreaWritten(h: Header)
  {
    h.dmdCopyAreaWidth > 0 && h.dmdCopyAreaHeight > 0
  }

  /** The header's children with a `Value` attribute, as `writeDirectB2S` writes them. */
  function HeaderSlots(h: Header): seq<Slot>
  {
    Slots(HEADER_NAMES, HeaderPresent(h), HeaderTexts(HeaderValues(h)))
  }

  /** Every child is written except the copy area, which only when `CopyAreaWritten`. */
  function HeaderPresent(h: Header): (r: seq<bool>)
    ensures |r| == |HEADER_NAMES|
    ensures forall k :: 0 <= k < |r| ==> (r[k] <==> !(3 <= k <= 6) || CopyAreaWritten(h))
  {
    var c := CopyAreaWritten(h);
    seq(19, k => !(3 <= k <= 6) || c)
  }

  /** The value of each child before escaping, in writing order. */
  function HeaderValues(h: Header): (r: seq<string>)
    ensures |r| == |HEADER_NAMES|
  {
    [h.name, TableTypeToValue(h.tableType), DmdTypeToValue(h.dmdType),
     IntToString(h.dmdCopyAreaX), IntToString(h.dmdCopyAreaY),
     IntToString(h.dmdCopyAreaWidth), IntToString(h.dmdCopyAreaHeight),
     IntToString(h.grillHeight), h.projectGuid, h.assemblyGuid, h.vsName,
     FlagToValue(h.dualBackglass), h.author, h.artwork, h.gameName,
     FlagToValue(h.addEMDefaults), CommTypeToValue(h.commType),
     DestTypeToValue(h.destType), IntToString(h.numberOfPlayers)]
  }

  /** The position of `GrillHeight` among the header's children. */
  const GRILL_HEIGHT_INDEX := 7

  /**
   * `writeElement` escapes its value; the `GrillHeight` element is pushed
   * as a literal line with its number unescaped.
   */
  function HeaderTexts(values: seq<string>): (r: seq<string>)
    ensures |r| == |values|
  {
    seq(|values|, k requires 0 <= k < |values| => if k == GRILL_HEIGHT_INDEX then values[k] else EscapeXml(values[k]))
  }

  /** The `DMDDefaultLocation` element's attributes. */
  function LocationAttributes(h: Header): seq<Attribute>
  {
    [Attribute("LocX", IntToString(h.dmdDefaultLocationX)), Attribute("LocY", IntToString(h.dmdDefaultLocationY))]
  }

  /** The `GrillHeight` element's attributes: `Small` only when positive. */
  function GrillAttributes(h: Header): seq<Attribute>
  {
    [Attribute("Value", IntToString(h.grillHeight))]
      + if h.smallGrillHeight > 0 then [Attribute("Small", IntToString(h.smallGrillHeight))] else []
  }

  /** The root element of a written document, as the XML parser sees it. */
  function WrittenRoot(h: Header): Root
  {
    Root(Some(XmlUnescape(EscapeXml(h.version))), ValueMap(Present(HeaderSlots(h))),
      Some(LocationAttributes(h)), Some(GrillAttributes(h)))
  }

  /**
   * What the reader makes of a written header: the header itself, except
   * that an empty version reads as "1.27", a zero player count as 4, a copy
   * area that is not written as zeros and a small grill height that is not
   * positive as 0.
   */
  function ReadBack(h: Header): Header
  {
    var c := CopyAreaWritten(h);
    h.(version := if h.version == "" then "1.27" else h.version,
       dmdCopyAreaX := if c then h.dmdCopyAreaX else 0,
       dmdCopyAreaY := if c then h.dmdCopyAreaY else 0,
       dmdCopyAreaWidth := if c then h.dmdCopyAreaWidth else 0,
       dmdCopyAreaHeight := if c then h.dmdCopyAreaHeight else 0,
       smallGrillHeight := if h.smallGrillHeight > 0 then h.smallGrillHeight else 0,
       numberOfPlayers := if h.numberOfPlayers == 0 then 4 else h.numberOfPlayers)
  }

  /** Parsing a written document gives back the header as `ReadBack` describes it. */
  lemma HeaderReadBack(h: Header)
    ensures ReadRoot(WrittenRoot(h)) == ReadBack(h)
  {
    var children := Present(HeaderSlots(h));
    HeaderChildrenFound(children, h);
    UnescapeEscapeXml(h.version);
    ReadWrittenRoot(WrittenRoot(h), children, h);
  }

  /**
   * Reading back a written header gives the header, when its version is
   * not empty, its player count is not zero, its small grill height is not
   * negative and its copy area is either written or all zero.
   */
  lemma HeaderRoundTrip(h: Header)
    requires h.version != "" && h.numberOfPlayers != 0 && h.smallGrillHeight >= 0
    requires CopyAreaWritten(h) ||
      (h.dmdCopyAreaX == 0 && h.dmdCopyAreaY == 0 && h.dmdCopyAreaWidth == 0 && h.dmdCopyAreaHeight == 0)
    ensures ReadRoot(WrittenRoot(h)) == h
  {
    HeaderReadBack(h);
  }

  /** A read-back header is written and read back unchanged. */
  lemma ReadBackStable(h: Header)
    ensures ReadRoot(WrittenRoot(ReadBack(h))) == ReadBack(h)
  {
    HeaderReadBack(h);
    HeaderRoundTrip(ReadBack(h));
  }

  /** `ReadRoot` on a root made of the header's version, children, location and grill. */
  lemma ReadWrittenRoot(root: Root, children: seq<Attribute>, h: Header)
    requires root == Root(Some(h.version), ValueMap(children), Some(LocationAttributes(h)), Some(GrillAttributes(h)))
    requires HeaderChildrenHold(children, h)
    ensures ReadRoot(root) == ReadBack(h)
  {
    HeaderChildrenWritten(root, children, h);
    LocationWritten(h);
    GrillWritten(h);
    ReadRootFrom(root, ReadBack(h));
  }

  /** The free-text children are found with their values. */
  lemma HeaderTextsFound(children: seq<Attribute>, present: seq<bool>, texts: seq<string>, values: seq<string>)
    requires Layout(HEADER_NAMES, present, texts) && children == Present(Slots(HEADER_NAMES, present, texts))
    requires |values| == |HEADER_NAMES|
    requires XmlUnescape(texts[0]) == values[0]
    requires XmlUnescape(texts[8]) == values[8]
    requires XmlUnescape(texts[9]) == values[9]
    requires XmlUnescape(texts[10]) == values[10]
    requires XmlUnescape(texts[12]) == values[12]
    requires XmlUnescape(texts[13]) == values[13]
    requires XmlUnescape(texts[14]) == values[14]
    requires present[0] && present[8] && present[9] && present[10] && present[12] && present[13] && present[14]
    ensures GetAttribute(children, "Name") == Some(values[0])
    ensures GetAttribute(children, "ProjectGUID") == Some(values[8])
    ensures GetAttribute(children, "AssemblyGUID") == Some(values[9])
    ensures GetAttribute(children, "VSName") == Some(values[10])
    ensures GetAttribute(children, "Author") == Some(values[12])
    ensures GetAttribute(children, "Artwork") == Some(values[13])
    ensures GetAttribute(children, "GameName") == Some(values[14])
  {
    HeaderLookupName(children, present, texts);
    HeaderLookupProjectGUID(children, present, texts);
    HeaderLookupAssemblyGUID(children, present, texts);
    HeaderLookupVSName(children, present, texts);
    HeaderLookupAuthor(children, present, texts);
    HeaderLookupArtwork(children, present, texts);
    HeaderLookupGameName(children, present, texts);
  }

  /** The coded children are found with their codes. */
  lemma HeaderCodesFound(children: seq<Attribute>, present: seq<bool>, texts: seq<string>, values: seq<string>)
    requires Layout(HEADER_NAMES, present, texts) && children == Present(Slots(HEADER_NAMES, present, texts))
    requires |values| == |HEADER_NAMES|
    requires XmlUnescape(texts[1]) == values[1]
    requires XmlUnescape(texts[2]) == values[2]
    requires XmlUnescape(texts[11]) == values[11]
    requires XmlUnescape(texts[15]) == values[15]
    requires XmlUnescape(texts[16]) == values[16]
    requires XmlUnescape(texts[17]) == values[17]
    requires XmlUnescape(texts[18]) == values[18]
    requires present[1] && present[2] && present[11] && present[15] && present[16] && present[17] && present[18]
    ensures GetAttribute(children, "TableType") == Some(values[1])
    ensures GetAttribute(children, "DMDType") == Some(values[2])
    ensures GetAttribute(children, "DualBackglass") == Some(values[11])
    ensures GetAttribute(children, "AddEMDefaults") == Some(values[15])
    ensures GetAttribute(children, "CommType") == Some(values[16])
    ensures GetAttribute(children, "DestType") == Some(values[17])
    ensures GetAttribute(children, "NumberOfPlayers") == Some(values[18])
  {
    HeaderLookupTableType(children, present, texts);
    HeaderLookupDMDType(children, present, texts);
    HeaderLookupDualBackglass(children, present, texts);
    HeaderLookupAddEMDefaults(children, present, texts);
    HeaderLookupCommType(children, present, texts);
    HeaderLookupDestType(children, present, texts);
    HeaderLookupNumberOfPlayers(children, present, texts);
  }

  /** The copy area's children are found exactly when they are written. */
  lemma CopyAreaFound(children: seq<Attribute>, present: seq<bool>, texts: seq<string>, values: seq<string>)
    requires Layout(HEADER_NAMES, present, texts) && children == Present(Slots(HEADER_NAMES, present, texts))
    requires |values| == |HEADER_NAMES|
    requires XmlUnescape(texts[3]) == values[3]
    requires XmlUnescape(texts[4]) == values[4]
    requires XmlUnescape(texts[5]) == values[5]
    requires XmlUnescape(texts[6]) == values[6]
    ensures GetAttribute(children, "DMDCopyAreaX") == if present[3] then Some(values[3]) else None
    ensures GetAttribute(children, "DMDCopyAreaY") == if present[4] then Some(values[4]) else None
    ensures GetAttribute(children, "DMDCopyAreaWidth") == if present[5] then Some(values[5]) else None
    ensures GetAttribute(children, "DMDCopyAreaHeight") == if present[6] then Some(values[6]) else None
  {
    HeaderLookupDMDCopyAreaX(children, present, texts);
    HeaderLookupDMDCopyAreaY(children, present, texts);
    HeaderLookupDMDCopyAreaWidth(children, present, texts);
    HeaderLookupDMDCopyAreaHeight(children, present, texts);
  }

  /** Every escaped child reads back as its value; `GrillHeight` is not read from here. */
  lemma HeaderTextsDecode(values: seq<string>)
    requires |values| == |HEADER_NAMES|
    ensures forall k :: 0 <= k < |values| && k != GRILL_HEIGHT_INDEX ==> XmlUnescape(HeaderTexts(values)[k]) == values[k]
  {
    forall k | 0 <= k < |values| && k != GRILL_HEIGHT_INDEX
      ensures XmlUnescape(HeaderTexts(values)[k]) == values[k]
    {
      UnescapeEscapeXml(values[k]);
    }
  }

  /** Each child the reader looks up holds the header's value, unescaped; the copy area only when written. */
  predicate HeaderChildrenHold(children: seq<Attribute>, h: Header)
  {
    && GetAttribute(children, "Name") == Some(h.name)
    && GetAttribute(children, "ProjectGUID") == Some(h.projectGuid)
    && GetAttribute(children, "AssemblyGUID") == Some(h.assemblyGuid)
    && GetAttribute(children, "VSName") == Some(h.vsName)
    && GetAttribute(children, "Author") == Some(h.author)
    && GetAttribute(children, "Artwork") == Some(h.artwork)
    && GetAttribute(children, "GameName") == Some(h.gameName)
    && GetAttribute(children, "TableType") == Some(TableTypeToValue(h.tableType))
    && GetAttribute(children, "DMDType") == Some(DmdTypeToValue(h.dmdType))
    && GetAttribute(children, "DualBackglass") == Some(FlagToValue(h.dualBackglass))
    && GetAttribute(children, "AddEMDefaults") == Some(FlagToValue(h.addEMDefaults))
    && GetAttribute(children, "CommType") == Some(CommTypeToValue(h.commType))
    && GetAttribute(children, "DestType") == Some(DestTypeToValue(h.destType))
    && GetAttribute(children, "NumberOfPlayers") == Some(IntToString(h.numberOfPlayers))
    && GetAttribute(children, "DMDCopyAreaX") == (if CopyAreaWritten(h) then Some(IntToString(h.dmdCopyAreaX)) else None)
    && GetAttribute(children, "DMDCopyAreaY") == (if CopyAreaWritten(h) then Some(IntToString(h.dmdCopyAreaY)) else None)
    && GetAttribute(children, "DMDCopyAreaWidth") == (if CopyAreaWritten(h) then Some(IntToString(h.dmdCopyAreaWidth)) else None)
    && GetAttribute(children, "DMDCopyAreaHeight") == (if CopyAreaWritten(h) then Some(IntToString(h.dmdCopyAreaHeight)) else None)
  }

  /** What the reader finds among the written header's children, for each name it looks up. */
  lemma HeaderChildrenFound(children: seq<Attribute>, h: Header)
    requires children == Present(HeaderSlots(h))
    ensures HeaderChildrenHold(children, h)
  {
    var present, values := HeaderPresent(h), HeaderValues(h);
    var texts := HeaderTexts(values);
    HeaderTextsDecode(values);
    HeaderTextsFound(children, present, texts, values);
    HeaderCodesFound(children, present, texts, values);
    CopyAreaFound(children, present, texts, values);
  }

  lemma CopyAreaAbsent(root: Root, children: seq<Attribute>)
    requires root.values == ValueMap(children)
    requires GetAttribute(children, "DMDCopyAreaX").None? && GetAttribute(children, "DMDCopyAreaY").None?
    requires GetAttribute(children, "DMDCopyAreaWidth").None? && GetAttribute(children, "DMDCopyAreaHeight").None?
    ensures IntValueOf(root, "DMDCopyAreaX") == 0 && IntValueOf(root, "DMDCopyAreaY") == 0
    ensures IntValueOf(root, "DMDCopyAreaWidth") == 0 && IntValueOf(root, "DMDCopyAreaHeight") == 0
  {
    ValueOfChildren(root, children, "DMDCopyAreaX");
    ValueOfChildren(root, children, "DMDCopyAreaY");
    ValueOfChildren(root, children, "DMDCopyAreaWidth");
    ValueOfChildren(root, children, "DMDCopyAreaHeight");
    assert ParseInt("") == None;
  }

  /** The `DMDDefaultLocation` attributes read back. */
  lemma LocationWritten(h: Header)
    ensures ChildInt(LocationAttributes(h), "LocX") == h.dmdDefaultLocationX
    ensures ChildInt(LocationAttributes(h), "LocY") == h.dmdDefaultLocationY
  {
    var attrs := LocationAttributes(h);
    LocationLookups(IntToString(h.dmdDefaultLocationX), IntToString(h.dmdDefaultLocationY));
    NumberOf(attrs, "LocX", h.dmdDefaultLocationX, "0");
    NumberOf(attrs, "LocY", h.dmdDefaultLocationY, "0");
  }

  lemma LocationLookups(x: string, y: string)
    ensures GetAttribute([Attribute("LocX", x), Attribute("LocY", y)], "LocX") == Some(XmlUnescape(x))
    ensures GetAttribute([Attribute("LocX", x), Attribute("LocY", y)], "LocY") == Some(XmlUnescape(y))
  {
    assert [Attribute("LocX", x), Attribute("LocY", y)][1..] == [Attribute("LocY", y)];
  }

  /** The `GrillHeight` attributes read back; a missing `Small` reads as 0. */
  lemma GrillWritten(h: Header)
    ensures ChildInt(GrillAttributes(h), "Value") == h.grillHeight
    ensures ChildInt(GrillAttributes(h), "Small") == if h.smallGrillHeight > 0 then h.smallGrillHeight else 0
  {
    var value := Attribute("Value", IntToString(h.grillHeight));
    ReadBackInt(h.grillHeight);
    if h.smallGrillHeight > 0 {
      var small := Attribute("Small", IntToString(h.smallGrillHeight));
      assert GrillAttributes(h) == [value, small];
      ReadBackInt(h.smallGrillHeight);
      assert GetAttribute([value, small], "Small") == GetAttribute([small], "Small") by {
        assert [value, small][1..] == [small];
      }
      ChildIntPresent([value, small], "Value", h.grillHeight);
      ChildIntPresent([value, small], "Small", h.smallGrillHeight);
    } else {
      assert GrillAttributes(h) == [value];
      assert GetAttribute([value], "Small") == None by {
        assert [value][1..] == [];
      }
      ChildIntPresent([value], "Value", h.grillHeight);
      ChildIntMissing([value], "Small");
    }
  }

  /** A child attribute holding a written integer reads back as that integer. */
  lemma ChildIntPresent(attrs: seq<Attribute>, name: string, i: int)
    requires GetAttribute(attrs, name) == Some(IntToString(i))
    ensures ChildInt(attrs, name) == i
  {
    ReadBackInt(i);
  }

  /** A missing child attribute reads as 0. */
  lemma ChildIntMissing(attrs: seq<Attribute>, name: string)
    requires GetAttribute(attrs, name).None?
    ensures ChildInt(attrs, name) == 0
  {
    ReadBackInt(0);
    SmallInts();
  }

  /** The header's children read back as the header's fields. */
  lemma HeaderChildrenWritten(root: Root, children: seq<Attribute>, h: Header)
    requires root.values == ValueMap(children)
    requires HeaderChildrenHold(children, h)
    ensures ValueOf(root, "Name") == h.name
    ensures ValueOf(root, "ProjectGUID") == h.projectGuid
    ensures ValueOf(root, "AssemblyGUID") == h.assemblyGuid
    ensures ValueOf(root, "VSName") == h.vsName
    ensures ValueOf(root, "Author") == h.author
    ensures ValueOf(root, "Artwork") == h.artwork
    ensures ValueOf(root, "GameName") == h.gameName
    ensures ParseTableType(IntValueOf(root, "TableType")) == h.tableType
    ensures ParseDmdType(IntValueOf(root, "DMDType")) == h.dmdType
    ensures (IntValueOf(root, "DualBackglass") == 1) == h.dualBackglass
    ensures (IntValueOf(root, "AddEMDefaults") == 1) == h.addEMDefaults
    ensures ParseCommType(IntValueOf(root, "CommType")) == h.commType
    ensures ParseDestType(IntValueOf(root, "DestType")) == h.destType
    ensures IntValueOf(root, "NumberOfPlayers") == h.numberOfPlayers
    ensures CopyAreaWritten(h) ==> IntValueOf(root, "DMDCopyAreaX") == h.dmdCopyAreaX
    ensures CopyAreaWritten(h) ==> IntValueOf(root, "DMDCopyAreaY") == h.dmdCopyAreaY
    ensures CopyAreaWritten(h) ==> IntValueOf(root, "DMDCopyAreaWidth") == h.dmdCopyAreaWidth
    ensures CopyAreaWritten(h) ==> IntValueOf(root, "DMDCopyAreaHeight") == h.dmdCopyAreaHeight
    ensures !CopyAreaWritten(h) ==>
      IntValueOf(root, "DMDCopyAreaX") == 0 && IntValueOf(root, "DMDCopyAreaY") == 0 &&
      IntValueOf(root, "DMDCopyAreaWidth") == 0 && IntValueOf(root, "DMDCopyAreaHeight") == 0
  {
    HeaderTextValues(root, children, h);
    HeaderCodeValues(root, children, h);
    IntValue(root, children, "NumberOfPlayers", h.numberOfPlayers);
    if CopyAreaWritten(h) {
      CopyAreaValues(root, children, h);
    } else {
      CopyAreaAbsent(root, children);
    }
  }

  lemma HeaderTextValues(root: Root, children: seq<Attribute>, h: Header)
    requires root.values == ValueMap(children)
    requires GetAttribute(children, "Name") == Some(h.name)
    requires GetAttribute(children, "ProjectGUID") == Some(h.projectGuid)
    requires GetAttribute(children, "AssemblyGUID") == Some(h.assemblyGuid)
    requires GetAttribute(children, "VSName") == Some(h.vsName)
    requires GetAttribute(children, "Author") == Some(h.author)
    requires GetAttribute(children, "Artwork") == Some(h.artwork)
    requires GetAttribute(children, "GameName") == Some(h.gameName)
    ensures ValueOf(root, "Name") == h.name
    ensures ValueOf(root, "ProjectGUID") == h.projectGuid
    ensures ValueOf(root, "AssemblyGUID") == h.assemblyGuid
    ensures ValueOf(root, "VSName") == h.vsName
    ensures ValueOf(root, "Author") == h.author
    ensures ValueOf(root, "Artwork") == h.artwork
    ensures ValueOf(root, "GameName") == h.gameName
  {
    ValueOfChildren(root, children, "Name");
    ValueOfChildren(root, children, "ProjectGUID");
    ValueOfChildren(root, children, "AssemblyGUID");
    ValueOfChildren(root, children, "VSName");
    ValueOfChildren(root, children, "Author");
    ValueOfChildren(root, children, "Artwork");
    ValueOfChildren(root, children, "GameName");
  }

  lemma HeaderCodeValues(root: Root, children: seq<Attribute>, h: Header)
    requires root.values == ValueMap(children)
    requires GetAttribute(children, "TableType") == Some(TableTypeToValue(h.tableType))
    requires GetAttribute(children, "DMDType") == Some(DmdTypeToValue(h.dmdType))
    requires GetAttribute(children, "DualBackglass") == Some(FlagToValue(h.dualBackglass))
    requires GetAttribute(children, "AddEMDefaults") == Some(FlagToValue(h.addEMDefaults))
    requires GetAttribute(children, "CommType") == Some(CommTypeToValue(h.commType))
    requires GetAttribute(children, "DestType") == Some(DestTypeToValue(h.destType))
    ensures ParseTableType(IntValueOf(root, "TableType")) == h.tableType
    ensures ParseDmdType(IntValueOf(root, "DMDType")) == h.dmdType
    ensures (IntValueOf(root, "DualBackglass") == 1) == h.dualBackglass
    ensures (IntValueOf(root, "AddEMDefaults") == 1) == h.addEMDefaults
    ensures ParseCommType(IntValueOf(root, "CommType")) == h.commType
    ensures ParseDestType(IntValueOf(root, "DestType")) == h.destType
  {
    ValueOfChildren(root, children, "TableType");
    ValueOfChildren(root, children, "DMDType");
    ValueOfChildren(root, children, "DualBackglass");
    ValueOfChildren(root, children, "AddEMDefaults");
    ValueOfChildren(root, children, "CommType");
    ValueOfChildren(root, children, "DestType");
    NumberEnumsRoundTrip(h.tableType, h.dmdType, h.commType, h.destType, h.dualBackglass);
    NumberEnumsRoundTrip(h.tableType, h.dmdType, h.commType, h.destType, h.addEMDefaults);
  }

  lemma CopyAreaValues(root: Root, children: seq<Attribute>, h: Header)
    requires root.values == ValueMap(children)
    requires GetAttribute(children, "DMDCopyAreaX") == Some(IntToString(h.dmdCopyAreaX))
    requires GetAttribute(children, "DMDCopyAreaY") == Some(IntToString(h.dmdCopyAreaY))
    requires GetAttribute(children, "DMDCopyAreaWidth") == Some(IntToString(h.dmdCopyAreaWidth))
    requires GetAttribute(children, "DMDCopyAreaHeight") == Some(IntToString(h.dmdCopyAreaHeight))
    ensures IntValueOf(root, "DMDCopyAreaX") == h.dmdCopyAreaX
    ensures IntValueOf(root, "DMDCopyAreaY") == h.dmdCopyAreaY
    ensures IntValueOf(root, "DMDCopyAreaWidth") == h.dmdCopyAreaWidth
    ensures IntValueOf(root, "DMDCopyAreaHeight") == h.dmdCopyAreaHeight
  {
    IntValue(root, children, "DMDCopyAreaX", h.dmdCopyAreaX);
    IntValue(root, children, "DMDCopyAreaY", h.dmdCopyAreaY);
    IntValue(root, children, "DMDCopyAreaWidth", h.dmdCopyAreaWidth);
    IntValue(root, children, "DMDCopyAreaHeight", h.dmdCopyAreaHeight);
  }

  /** A written integer reads back through `getAttrValueInt`. */
  lemma IntValue(root: Root, children: seq<Attribute>, name: string, v: int)
    requires root.values == ValueMap(children)
    requires GetAttribute(children, name) == Some(IntToString(v))
    ensures IntValueOf(root, name) == v
  {
    ValueOfChildren(root, children, name);
    ReadBackInt(v);
  }

  /** `ReadRoot` on any root whose parts read as the header's fields. */
  lemma ReadRootFrom(root: Root, h: Header)
    requires Version(root) == h.version
    requires root.dmdLocation.Some? && root.grill.Some?
    requires ChildInt(root.dmdLocation.value, "LocX") == h.dmdDefaultLocationX
    requires ChildInt(root.dmdLocation.value, "LocY") == h.dmdDefaultLocationY
    requires ChildInt(root.grill.value, "Value") == h.grillHeight
    requires ChildInt(root.grill.value, "Small") == h.smallGrillHeight
    requires ValueOf(root, "Name") == h.name
    requires ValueOf(root, "ProjectGUID") == h.projectGuid
    requires ValueOf(root, "AssemblyGUID") == h.assemblyGuid
    requires ValueOf(root, "VSName") == h.vsName
    requires ValueOf(root, "Author") == h.author
    requires ValueOf(root, "Artwork") == h.artwork
    requires ValueOf(root, "GameName") == h.gameName
    requires ParseTableType(IntValueOf(root, "TableType")) == h.tableType
    requires ParseDmdType(IntValueOf(root, "DMDType")) == h.dmdType
    requires (IntValueOf(root, "DualBackglass") == 1) == h.dualBackglass
    requires (IntValueOf(root, "AddEMDefaults") == 1) == h.addEMDefaults
    requires ParseCommType(IntValueOf(root, "CommType")) == h.commType
    requires ParseDestType(IntValueOf(root, "DestType")) == h.destType
    requires Players(root) == h.numberOfPlayers
    requires IntValueOf(root, "DMDCopyAreaX") == h.dmdCopyAreaX
    requires IntValueOf(root, "DMDCopyAreaY") == h.dmdCopyAreaY
    requires IntValueOf(root, "DMDCopyAreaWidth") == h.dmdCopyAreaWidth
    requires IntValueOf(root, "DMDCopyAreaHeight") == h.dmdCopyAreaHeight
    ensures ReadRoot(root) == h
  {
  }

  lemma HeaderLookupName(children: seq<Attribute>, present: seq<bool>, texts: seq<string>)
    requires Layout(HEADER_NAMES, present, texts) && children == Present(Slots(HEADER_NAMES, present, texts))
    ensures present[0] ==> GetAttribute(children, "Name") == Some(XmlUnescape(texts[0]))
  {
    if present[0] {
      ElementLookup(HEADER_NAMES, present, texts, [], "Name", []);
    }
  }

  lemma HeaderLookupTableType(children: seq<Attribute>, present: seq<bool>, texts: seq<string>)
    requires Layout(HEADER_NAMES, present, texts) && children == Present(Slots(HEADER_NAMES, present, texts))
    ensures present[1] ==> GetAttribute(children, "TableType") == Some(XmlUnescape(texts[1]))
  {
    if present[1] {
      ElementLookup(HEADER_NAMES, present, texts, ["Name"], "TableType", []);
    }
  }

  lemma HeaderLookupDMDType(children: seq<Attribute>, present: seq<bool>, texts: seq<string>)
    requires Layout(HEADER_NAMES, present, texts) && children == Present(Slots(HEADER_NAMES, present, texts))
    ensures present[2] ==> GetAttribute(children, "DMDType") == Some(XmlUnescape(texts[2]))
  {
    if present[2] {
      ElementLookup(HEADER_NAMES, present, texts, ["Name", "TableType"], "DMDType", []);
    }
  }

  lemma HeaderLookupDMDCopyAreaX(children: seq<Attribute>, present: seq<bool>, texts: seq<string>)
    requires Layout(HEADER_NAMES, present, texts) && children == Present(Slots(HEADER_NAMES, present, texts))
    ensures GetAttribute(children, "DMDCopyAreaX") == if present[3] then Some(XmlUnescape(texts[3])) else None
  {
    ElementLookup(HEADER_NAMES, present, texts, ["Name", "TableType", "DMDType"], "DMDCopyAreaX", ["DMDCopyAreaY", "DMDCopyAreaWidth", "DMDCopyAreaHeight", "GrillHeight", "ProjectGUID", "AssemblyGUID", "VSName", "DualBackglass", "Author", "Artwork", "GameName", "AddEMDefaults", "CommType", "DestType", "NumberOfPlayers"]);
  }

  lemma HeaderLookupDMDCopyAreaY(children: seq<Attribute>, present: seq<bool>, texts: seq<string>)
    requires Layout(HEADER_NAMES, present, texts) && children == Present(Slots(HEADER_NAMES, present, texts))
    ensures GetAttribute(children, "DMDCopyAreaY") == if present[4] then Some(XmlUnescape(texts[4])) else None
  {
    ElementLookup(HEADER_NAMES, present, texts, ["Name", "TableType", "DMDType", "DMDCopyAreaX"], "DMDCopyAreaY", ["DMDCopyAreaWidth", "DMDCopyAreaHeight", "GrillHeight", "ProjectGUID", "AssemblyGUID", "VSName", "DualBackglass", "Author", "Artwork", "GameName", "AddEMDefaults", "CommType", "DestType", "NumberOfPlayers"]);
  }

  lemma HeaderLookupDMDCopyAreaWidth(children: seq<Attribute>, present: seq<bool>, texts: seq<string>)
    requires Layout(HEADER_NAMES, present, texts) && children == Present(Slots(HEADER_NAMES, present, texts))
    ensures GetAttribute(children, "DMDCopyAreaWidth") == if present[5] then Some(XmlUnescape(texts[5])) else None
  {
    ElementLookup(HEADER_NAMES, present, texts, ["Name", "TableType", "DMDType", "DMDCopyAreaX", "DMDCopyAreaY"], "DMDCopyAreaWidth", ["DMDCopyAreaHeight", "GrillHeight", "ProjectGUID", "AssemblyGUID", "VSName", "DualBackglass", "Author", "Artwork", "GameName", "AddEMDefaults", "CommType", "DestType", "NumberOfPlayers"]);
  }

  lemma HeaderLookupDMDCopyAreaHeight(children: seq<Attribute>, present: seq<bool>, texts: seq<string>)
    requires Layout(HEADER_NAMES, present, texts) && children == Present(Slots(HEADER_NAMES, present, texts))
    ensures GetAttribute(children, "DMDCopyAreaHeight") == if present[6] then Some(XmlUnescape(texts[6])) else None
  {
    ElementLookup(HEADER_NAMES, present, texts, ["Name", "TableType", "DMDType", "DMDCopyAreaX", "DMDCopyAreaY", "DMDCopyAreaWidth"], "DMDCopyAreaHeight", ["GrillHeight", "ProjectGUID", "AssemblyGUID", "VSName", "DualBackglass", "Author", "Artwork", "GameName", "AddEMDefaults", "CommType", "DestType", "NumberOfPlayers"]);
  }

  lemma HeaderLookupProjectGUID(children: seq<Attribute>, present: seq<bool>, texts: seq<string>)
    requires Layout(HEADER_NAMES, present, texts) && children == Present(Slots(HEADER_NAMES, present, texts))
    ensures present[8] ==> GetAttribute(children, "ProjectGUID") == Some(XmlUnescape(texts[8]))
  {
    if present[8] {
      ElementLookup(HEADER_NAMES, present, texts, ["Name", "TableType", "DMDType", "DMDCopyAreaX", "DMDCopyAreaY", "DMDCopyAreaWidth", "DMDCopyAreaHeight", "GrillHeight"], "ProjectGUID", []);
    }
  }

  lemma HeaderLookupAssemblyGUID(children: seq<Attribute>, present: seq<bool>, texts: seq<string>)
    requires Layout(HEADER_NAMES, present, texts) && children == Present(Slots(HEADER_NAMES, present, texts))
    ensures present[9] ==> GetAttribute(children, "AssemblyGUID") == Some(XmlUnescape(texts[9]))
  {
    if present[9] {
      ElementLookup(HEADER_NAMES, present, texts, ["Name", "TableType", "DMDType", "DMDCopyAreaX", "DMDCopyAreaY", "DMDCopyAreaWidth", "DMDCopyAreaHeight", "GrillHeight", "ProjectGUID"], "AssemblyGUID", []);
    }
  }

  lemma HeaderLookupVSName(children: seq<Attribute>, present: seq<bool>, texts: seq<string>)
    requires Layout(HEADER_NAMES, present, texts) && children == Present(Slots(HEADER_NAMES, present, texts))
    ensures present[10] ==> GetAttribute(children, "VSName") == Some(XmlUnescape(texts[10]))
  {
    if present[10] {
      ElementLookup(HEADER_NAMES, present, texts, ["Name", "TableType", "DMDType", "DMDCopyAreaX", "DMDCopyAreaY", "DMDCopyAreaWidth", "DMDCopyAreaHeight", "GrillHeight", "ProjectGUID", "AssemblyGUID"], "VSName", []);
    }
  }

  lemma HeaderLookupDualBackglass(children: seq<Attribute>, present: seq<bool>, texts: seq<string>)
    requires Layout(HEADER_NAMES, present, texts) && children == Present(Slots(HEADER_NAMES, present, texts))
    ensures present[11] ==> GetAttribute(children, "DualBackglass") == Some(XmlUnescape(texts[11]))
  {
    if present[11] {
      ElementLookup(HEADER_NAMES, present, texts, ["Name", "TableType", "DMDType", "DMDCopyAreaX", "DMDCopyAreaY", "DMDCopyAreaWidth", "DMDCopyAreaHeight", "GrillHeight", "ProjectGUID", "AssemblyGUID", "VSName"], "DualBackglass", []);
    }
  }

  lemma HeaderLookupAuthor(children: seq<Attribute>, present: seq<bool>, texts: seq<string>)
    requires Layout(HEADER_NAMES, present, texts) && children == Present(Slots(HEADER_NAMES, present, texts))
    ensures present[12] ==> GetAttribute(children, "Author") == Some(XmlUnescape(texts[12]))
  {
    if present[12] {
      ElementLookup(HEADER_NAMES, present, texts, ["Name", "TableType", "DMDType", "DMDCopyAreaX", "DMDCopyAreaY", "DMDCopyAreaWidth", "DMDCopyAreaHeight", "GrillHeight", "ProjectGUID", "AssemblyGUID", "VSName", "DualBackglass"], "Author", []);
    }
  }

  lemma HeaderLookupArtwork(children: seq<Attribute>, present: seq<bool>, texts: seq<string>)
    requires Layout(HEADER_NAMES, present, texts) && children == Present(Slots(HEADER_NAMES, present, texts))
    ensures present[13] ==> GetAttribute(children, "Artwork") == Some(XmlUnescape(texts[13]))
  {
    if present[13] {
      ElementLookup(HEADER_NAMES, present, texts, ["Name", "TableType", "DMDType", "DMDCopyAreaX", "DMDCopyAreaY", "DMDCopyAreaWidth", "DMDCopyAreaHeight", "GrillHeight", "ProjectGUID", "AssemblyGUID", "VSName", "DualBackglass", "Author"], "Artwork", []);
    }
  }

  lemma HeaderLookupGameName(children: seq<Attribute>, present: seq<bool>, texts: seq<string>)
    requires Layout(HEADER_NAMES, present, texts) && children == Present(Slots(HEADER_NAMES, present, texts))
    ensures present[14] ==> GetAttribute(children, "GameName") == Some(XmlUnescape(texts[14]))
  {
    if present[14] {
      ElementLookup(HEADER_NAMES, present, texts, ["Name", "TableType", "DMDType", "DMDCopyAreaX", "DMDCopyAreaY", "DMDCopyAreaWidth", "DMDCopyAreaHeight", "GrillHeight", "ProjectGUID", "AssemblyGUID", "VSName", "DualBackglass", "Author", "Artwork"], "GameName", []);
    }
  }

  lemma HeaderLookupAddEMDefaults(children: seq<Attribute>, present: seq<bool>, texts: seq<string>)
    requires Layout(HEADER_NAMES, present, texts) && children == Present(Slots(HEADER_NAMES, present, texts))
    ensures present[15] ==> GetAttribute(children, "AddEMDefaults") == Some(XmlUnescape(texts[15]))
  {
    if present[15] {
      ElementLookup(HEADER_NAMES, present, texts, ["Name", "TableType", "DMDType", "DMDCopyAreaX", "DMDCopyAreaY", "DMDCopyAreaWidth", "DMDCopyAreaHeight", "GrillHeight", "ProjectGUID", "AssemblyGUID", "VSName", "DualBackglass", "Author", "Artwork", "GameName"], "AddEMDefaults", []);
    }
  }

  lemma HeaderLookupCommType(children: seq<Attribute>, present: seq<bool>, texts: seq<string>)
    requires Layout(HEADER_NAMES, present, texts) && children == Present(Slots(HEADER_NAMES, present, texts))
    ensures present[16] ==> GetAttribute(children, "CommType") == Some(XmlUnescape(texts[16]))
  {
    if present[16] {
      ElementLookup(HEADER_NAMES, present, texts, ["Name", "TableType", "DMDType", "DMDCopyAreaX", "DMDCopyAreaY", "DMDCopyAreaWidth", "DMDCopyAreaHeight", "GrillHeight", "ProjectGUID", "AssemblyGUID", "VSName", "DualBackglass", "Author", "Artwork", "GameName", "AddEMDefaults"], "CommType", []);
    }
  }

  lemma HeaderLookupDestType(children: seq<Attribute>, present: seq<bool>, texts: seq<string>)
    requires Layout(HEADER_NAMES, present, texts) && children == Present(Slots(HEADER_NAMES, present, texts))
    ensures present[17] ==> GetAttribute(children, "DestType") == Some(XmlUnescape(texts[17]))
  {
    if present[17] {
      ElementLookup(HEADER_NAMES, present, texts, ["Name", "TableType", "DMDType", "DMDCopyAreaX", "DMDCopyAreaY", "DMDCopyAreaWidth", "DMDCopyAreaHeight", "GrillHeight", "ProjectGUID", "AssemblyGUID", "VSName", "DualBackglass", "Author", "Artwork", "GameName", "AddEMDefaults", "CommType"], "DestType", []);
    }
  }

  lemma HeaderLookupNumberOfPlayers(children: seq<Attribute>, present: seq<bool>, texts: seq<string>)
    requires Layout(HEADER_NAMES, present, texts) && children == Present(Slots(HEADER_NAMES, present, texts))
    ensures present[18] ==> GetAttribute(children, "NumberOfPlayers") == Some(XmlUnescape(texts[18]))
  {
    if present[18] {
      ElementLookup(HEADER_NAMES, present, texts, ["Name", "TableType", "DMDType", "DMDCopyAreaX", "DMDCopyAreaY", "DMDCopyAreaWidth", "DMDCopyAreaHeight", "GrillHeight", "ProjectGUID", "AssemblyGUID", "VSName", "DualBackglass", "Author", "Artwork", "GameName", "AddEMDefaults", "CommType", "DestType"], "NumberOfPlayers", []);
    }
  }

  /** A flag written as "True" only when set reads back as the flag. */
  lemma FlagOf(attrs: seq<Attribute>, name: string, b: bool)
    requires GetAttribute(attrs, name) == if b then Some(XmlUnescape("True")) else None
    ensures ParseTrueFlag(GetAttribute(attrs, name)) == b
  {
  }

  /** A dual mode reads back as written. */
  lemma DualModeOf(attrs: seq<Attribute>, name: string, m: DualMode)
    requires GetAttribute(attrs, name) == Some(XmlUnescape(DualModeToValue(m)))
    ensures ParseDualMode(GetAttribute(attrs, name)) == m
  {
    AttributeEnumsRoundTrip(m, LightOff, Immediate, Lamp, NoRotation, InitiallyOff);
  }

  /** A light state written only when not `Off` reads back as the state. */
  lemma LightOf(attrs: seq<Attribute>, name: string, l: LightState)
    requires GetAttribute(attrs, name) == if l != LightOff then Some(XmlUnescape(LightStateToValue(l))) else None
    ensures ParseLightState(GetAttribute(attrs, name)) == l
  {
    AttributeEnumsRoundTrip(Both, l, Immediate, Lamp, NoRotation, InitiallyOff);
  }

  /** A stop behaviour written only when not `Immediate` reads back as the behaviour. */
  lemma StopOf(attrs: seq<Attribute>, name: string, b: StopBehaviour)
    requires GetAttribute(attrs, name) == if b != Immediate then Some(XmlUnescape(StopBehaviourToValue(b))) else None
    ensures ParseStopBehaviour(GetAttribute(attrs, name)) == b
  {
    AttributeEnumsRoundTrip(Both, LightOff, b, Lamp, NoRotation, InitiallyOff);
  }

  /** A written integer reads back through `parseInt`, whatever the fallback. */
  lemma NumberOf(attrs: seq<Attribute>, name: string, v: int, fallback: string)
    requires GetAttribute(attrs, name) == Some(XmlUnescape(IntToString(v)))
    ensures NumberAttr(attrs, name, fallback) == Some(v)
  {
    ReadBackInt(v);
  }

  /** A count written only when positive reads back, through the fallback "0" when absent. */
  lemma NumberOrZero(attrs: seq<Attribute>, name: string, v: int)
    requires v >= 0
    requires GetAttribute(attrs, name) == if v > 0 then Some(XmlUnescape(IntToString(v))) else None
    ensures NumberAttr(attrs, name, "0") == Some(v)
  {
    ReadBackInt(v);
    SmallInts();
  }

  /** An escaped text reads back through `getAttribute`. */
  lemma TextOf(attrs: seq<Attribute>, name: string, v: string)
    requires GetAttribute(attrs, name) == Some(XmlUnescape(EscapeXml(v)))
    ensures GetAttribute(attrs, name) == Some(v)
  {
    UnescapeEscapeXml(v);
  }
}
