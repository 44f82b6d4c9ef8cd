/**
 * The menu schema is one tree of items for both platforms.  Before a menu
 * is shown it is filtered for the platform, and each item is evaluated
 * against the current menu state: is it visible, enabled, checked, and
 * what is its label.
 */
module MenuEvaluator {
  import opened Wrappers

  /** The flags of the menu state, one per key. */
  datatype StateKey =
    | HasFile | HasSelection | HasClipboard | CanUndo | CanRedo | IsDirty
    | ConsoleVisible | InDMD | DialogOpen | ShowScoreFrames | ShowScoring
    | ShowIlluminationFrames | ShowIllumination | ShowIlluminationIntensity
    | IsTranslucent | SetGrillHeight | SetSmallGrillHeight
    | CopyDmdFromBackglass | SetDmdDefaultLocation

  /** The menu state gives every key a value. */
  type MenuState = StateKey -> bool

  /** The item type; an item with no type behaves as `Normal` everywhere here. */
  datatype ItemKind = Normal | Separator | Submenu | Checkbox

  datatype Platform = Electron | Web

  datatype Context = Context(platform: Platform, isMac: bool)

  /**
   * A schema item.  A missing `requires` or `disabledWhen` list is the
   * empty list: both are only iterated over.  `hasSubmenu` says whether
   * the item has a `submenu` list at all (an empty one still counts).
   */
  datatype MenuItem = MenuItem(
    id: string,
    labelText: Option<string>,
    kind: ItemKind,
    accelerator: Option<string>,
    hasSubmenu: bool,
    submenu: seq<MenuItem>,
    requiresKeys: seq<StateKey>,
    disabledWhen: seq<StateKey>,
    checkedWhen: Option<StateKey>,
    macOnly: bool,
    electronOnly: bool,
    webOnly: bool)

  datatype ItemState = ItemState(enabled: bool, checked: bool, visible: bool, labelText: string)

  /** The platform rule shared by evaluation and filtering. */
  predicate PlatformAllows(item: MenuItem, ctx: Context)
  {
    && !(item.macOnly && !ctx.isMac)
    && !(item.electronOnly && ctx.platform != Electron)
    && !(item.webOnly && ctx.platform != Web)
  }

  /**
   * `evaluateMenuItem`.  Visible unless a platform constraint fails;
   * enabled iff every `requires` key holds and no `disabledWhen` key does;
   * checked iff there is a `checkedWhen` key and it holds; the label
   * defaults to "".
   */
  method EvaluateMenuItem(item: MenuItem, state: MenuState, ctx: Context) returns (s: ItemState)
    ensures !s.visible <==>
      || (item.macOnly && !ctx.isMac)
      || (item.electronOnly && ctx.platform != Electron)
      || (item.webOnly && ctx.platform != Web)
    ensures s.enabled <==>
      && (forall k :: k in item.requiresKeys ==> state(k))
      && (forall k :: k in item.disabledWhen ==> !state(k))
    ensures s.checked <==> item.checkedWhen.Some? && state(item.checkedWhen.value)
    ensures s.labelText == item.labelText.GetOr("")
  {
    var visible := true;
    if item.macOnly && !ctx.isMac { visible := false; }
    if item.electronOnly && ctx.platform != Electron { visible := false; }
    if item.webOnly && ctx.platform != Web { visible := false; }

    var enabled := true;
    var i := 0;
    while i < |item.requiresKeys|
      invariant 0 <= i <= |item.requiresKeys|
      invariant enabled
      invariant forall j :: 0 <= j < i ==> state(item.requiresKeys[j])
    {
      if !state(item.requiresKeys[i]) {
        enabled := false;
        break;
      }
      i := i + 1;
    }

    if enabled {
      i := 0;
      while i < |item.disabledWhen|
        invariant 0 <= i <= |item.disabledWhen|
        invariant enabled
        invariant forall j :: 0 <= j < i ==> !state(item.disabledWhen[j])
      {
        if state(item.disabledWhen[i]) {
          enabled := false;
          break;
        }
        i := i + 1;
      }
    }

    var checked := false;
    if item.checkedWhen.Some? {
      checked := state(item.checkedWhen.value);
    }

    s := ItemState(enabled, checked, visible, item.labelText.GetOr(""));
  }

  // ---------------------------------------------------------------------
  // Filtering the schema for a platform

  /** The ids of the top-level items the platform rule keeps, in order. */
  function AllowedIds(schema: seq<MenuItem>, ctx: Context): seq<string>
  {
    if schema == [] then []
    else (if PlatformAllows(schema[0], ctx) then [schema[0].id] else []) + AllowedIds(schema[1..], ctx)
  }

  function Ids(items: seq<MenuItem>): seq<string>
  {
    if items == [] then [] else [items[0].id] + Ids(items[1..])
  }

  /** Every item of the tree, at every depth, passes the platform rule. */
  predicate DeepAllowed(items: seq<MenuItem>, ctx: Context)
    decreases items
  {
    forall i :: 0 <= i < |items| ==> ItemDeepAllowed(items[i], ctx)
  }

  predicate ItemDeepAllowed(item: MenuItem, ctx: Context)
    decreases item
  {
    && PlatformAllows(item, ctx)
    && (item.hasSubmenu ==> DeepAllowed(item.submenu, ctx))
  }

  /**
   * `filterMenuForPlatform`: the items the platform rule keeps, in their
   * order, each with its submenu filtered the same way.
   */
  function FilterMenu(schema: seq<MenuItem>, ctx: Context): (r: seq<MenuItem>)
    ensures DeepAllowed(r, ctx)
    ensures Ids(r) == AllowedIds(schema, ctx)
    decreases schema
  {
    if schema == [] then []
    else
      var rest := FilterMenu(schema[1..], ctx);
      if PlatformAllows(schema[0], ctx) then [FilterItem(schema[0], ctx)] + rest else rest
  }

  /** One kept item: only its submenu changes. */
  function FilterItem(item: MenuItem, ctx: Context): (r: MenuItem)
    requires PlatformAllows(item, ctx)
    ensures ItemDeepAllowed(r, ctx)
    ensures r.(submenu := item.submenu) == item
    ensures !item.hasSubmenu ==> r == item
    decreases item
  {
    if item.hasSubmenu then item.(submenu := FilterMenu(item.submenu, ctx)) else item
  }

  /** A tree that already passes the rule everywhere is left as it is. */
  lemma {:induction false} FilterKeepsAllowed(schema: seq<MenuItem>, ctx: Context)
    requires DeepAllowed(schema, ctx)
    ensures FilterMenu(schema, ctx) == schema
    decreases schema
  {
    if schema != [] {
      FilterKeepsAllowed(schema[1..], ctx);
      var item := schema[0];
      assert ItemDeepAllowed(item, ctx);
      if item.hasSubmenu {
        FilterKeepsAllowed(item.submenu, ctx);
      }
      assert schema == [item] + schema[1..];
    }
  }

  /** Filtering twice is filtering once. */
  lemma FilterIdempotent(schema: seq<MenuItem>, ctx: Context)
    ensures FilterMenu(FilterMenu(schema, ctx), ctx) == FilterMenu(schema, ctx)
  {
    FilterKeepsAllowed(FilterMenu(schema, ctx), ctx);
  }

  /** A single item is dropped exactly when the platform rule, which also decides visibility, rejects it. */
  lemma DroppedIffNotAllowed(item: MenuItem, ctx: Context)
    ensures FilterMenu([item], ctx) == [] <==> !PlatformAllows(item, ctx)
  {
    assert [item][1..] == [];
  }
}

/**
 * The web menu bar's pure helpers: accelerator text and whether a menu
 * needs a checkbox column.
 */
module MenuRendering {
  import opened Wrappers
  import opened Text
  import opened MenuEvaluator

  /** The modifier and key names, replaced in this order, first occurrence only. */
  function ModifierSymbols(accel: string, isMac: bool): string
  {
    var r := ReplaceFirst(accel, "CmdOrCtrl", if isMac then "⌘" else "Ctrl");
    var r := ReplaceFirst(r, "Cmd", "⌘");
    var r := ReplaceFirst(r, "Ctrl", if isMac then "⌃" else "Ctrl");
    var r := ReplaceFirst(r, "Alt", if isMac then "⌥" else "Alt");
    var r := ReplaceFirst(r, "Shift", if isMac then "⇧" else "Shift");
    ReplaceFirst(r, "Delete", if isMac then "⌫" else "Del")
  }

  /** The key names "Plus" and "Minus" become the characters they name. */
  function KeySymbols(s: string): string
  {
    ReplaceFirst(ReplaceFirst(s, "Plus", "+"), "Minus", "-")
  }

  /**
   * `formatAccelerator` as written: on a Mac every "+" is stripped after
   * "Plus" has become "+", so the key itself disappears too.
   */
  function FormatAcceleratorAsWritten(accel: string, isMac: bool): (r: string)
    ensures isMac ==> '+' !in r
    ensures !isMac ==> r == KeySymbols(ModifierSymbols(accel, false))
  {
    var r := KeySymbols(ModifierSymbols(accel, isMac));
    if isMac then ReplaceChar(r, '+', "") else r
  }

  /**
   * `formatAccelerator` as evidently intended: on a Mac the "+" separators
   * are stripped before "Plus" becomes "+", so the Plus key survives.
   */
  function FormatAccelerator(accel: string, isMac: bool): (r: string)
    ensures isMac ==>
      var stripped := ReplaceChar(ModifierSymbols(accel, true), '+', "");
      ('+' in r <==> IndexOf(stripped, "Plus").Some?)
    ensures !isMac ==> r == FormatAcceleratorAsWritten(accel, false)
  {
    if isMac then
      var stripped := ReplaceChar(ModifierSymbols(accel, true), '+', "");
      KeySymbolsPlus(stripped);
      KeySymbols(stripped)
    else KeySymbols(ModifierSymbols(accel, false))
  }

  /** With no "+" to start from, "+" appears exactly when "Plus" occurs. */
  lemma KeySymbolsPlus(s: string)
    requires '+' !in s
    ensures '+' in KeySymbols(s) <==> IndexOf(s, "Plus").Some?
  {
    var t := ReplaceFirst(s, "Plus", "+");
    match IndexOf(s, "Plus")
    case None =>
      NoNewChar(t, "Minus", "-", '+');
    case Some(i) =>
      assert t == s[..i] + "+" + s[i + 4..];
      assert t[i] == '+';
      KeepsChar(t, "Minus", "-", '+');
  }

  /** A character that is neither in `s` nor in `rep` is not in the result. */
  lemma NoNewChar(s: string, pat: string, rep: string, c: char)
    requires c !in s && c !in rep
    ensures c !in ReplaceFirst(s, pat, rep)
  {
    match IndexOf(s, pat)
    case None =>
    case Some(i) =>
      assert forall x :: x in s[..i] ==> x in s;
      assert forall x :: x in s[i + |pat|..] ==> x in s;
  }

  /** A character of `s` that `pat` does not hold survives the replacement. */
  lemma KeepsChar(s: string, pat: string, rep: string, c: char)
    requires c in s && c !in pat
    ensures c in ReplaceFirst(s, pat, rep)
  {
    match IndexOf(s, pat)
    case None =>
    case Some(i) =>
      var k :| 0 <= k < |s| && s[k] == c;
      if k < i {
        assert s[..i][k] == c;
      } else if k >= i + |pat| {
        assert s[i + |pat|..][k - i - |pat|] == c;
      }
  }

  /** A pattern whose first character is not in `s` does not occur, so it leaves `s` as it is. */
  lemma NotOccurring(s: string, pat: string)
    requires |pat| > 0 && pat[0] !in s
    ensures IndexOf(s, pat) == None
    ensures forall rep :: ReplaceFirst(s, pat, rep) == s
  {
  }

  /**
   * Whenever an accelerator names the Plus key, the written version shows
   * no "+" on a Mac and the intended one does.
   */
  lemma PlusKeyLostOnMac(accel: string)
    requires IndexOf(ReplaceChar(ModifierSymbols(accel, true), '+', ""), "Plus").Some?
    ensures '+' !in FormatAcceleratorAsWritten(accel, true)
    ensures '+' in FormatAccelerator(accel, true)
  {
  }

  /** A pattern found at position `|pre|`, and not starting anywhere in `pre`, is replaced there. */
  lemma ReplaceAfter(pre: string, pat: string, rep: string, post: string)
    requires |pat| > 0 && pat[0] !in pre
    ensures ReplaceFirst(pre + pat + post, pat, rep) == pre + rep + post
  {
    var s := pre + pat + post;
    assert OccursAt(s, pat, |pre|);
    match IndexOf(s, pat)
    case None =>
    case Some(i) =>
      assert s[..i] == pre && s[i + |pat|..] == post;
  }

  /** The Zoom In accelerator after the modifier step on a Mac. */
  lemma ZoomInModifiersOnMac(accel: string)
    requires accel == "CmdOrCtrl+Plus"
    ensures ModifierSymbols(accel, true) == "⌘+Plus"
  {
    var m := "⌘+Plus";
    ReplaceAfter("", "CmdOrCtrl", "⌘", "+Plus");
    assert "" + "CmdOrCtrl" + "+Plus" == accel;
    var r1 := ReplaceFirst(accel, "CmdOrCtrl", "⌘");
    assert r1 == m;
    NotOccurring(m, "Cmd");
    var r2 := ReplaceFirst(r1, "Cmd", "⌘");
    assert r2 == m;
    NotOccurring(m, "Ctrl");
    var r3 := ReplaceFirst(r2, "Ctrl", "⌃");
    assert r3 == m;
    NotOccurring(m, "Alt");
    var r4 := ReplaceFirst(r3, "Alt", "⌥");
    assert r4 == m;
    NotOccurring(m, "Shift");
    var r5 := ReplaceFirst(r4, "Shift", "⇧");
    assert r5 == m;
    NotOccurring(m, "Delete");
    var r6 := ReplaceFirst(r5, "Delete", "⌫");
    assert r6 == m;
  }

  lemma ZoomInKeySymbols()
    ensures KeySymbols("⌘+Plus") == "⌘++"
  {
    KeySymbolsPlusLast("⌘+");
    assert "⌘+" + "Plus" == "⌘+Plus";
    assert "⌘+" + "+" == "⌘++";
  }

  /** A trailing "Plus" after text without "P" or "M" becomes "+". */
  lemma KeySymbolsPlusLast(pre: string)
    requires 'P' !in pre && 'M' !in pre
    ensures KeySymbols(pre + "Plus") == pre + "+"
  {
    ReplaceAfter(pre, "Plus", "+", "");
    assert pre + "Plus" + "" == pre + "Plus";
    assert pre + "+" + "" == pre + "+";
    NotOccurring(pre + "+", "Minus");
  }

  /** As written, "CmdOrCtrl+Plus" (Zoom In) shows as a bare "⌘" on a Mac. */
  lemma ZoomInWrittenOnMac(accel: string)
    requires accel == "CmdOrCtrl+Plus"
    ensures FormatAcceleratorAsWritten(accel, true) == "⌘"
  {
    ZoomInModifiersOnMac(accel);
    ZoomInKeySymbols();
  }

  /** As intended, "CmdOrCtrl+Plus" (Zoom In) keeps its "+" on a Mac. */
  lemma ZoomInIntendedOnMac(accel: string)
    requires accel == "CmdOrCtrl+Plus"
    ensures '+' in FormatAccelerator(accel, true)
  {
    ZoomInModifiersOnMac(accel);
    ZoomInStrippedOnMac();
  }

  lemma ZoomInStrippedOnMac()
    ensures IndexOf(ReplaceChar("⌘+Plus", '+', ""), "Plus").Some?
  {
    StripPlus("⌘", "Plus");
    assert "⌘" + "+" + "Plus" == "⌘+Plus";
    assert "⌘" + "Plus" == "⌘Plus";
    PlusFound();
  }

  /** Removing every "+" drops a lone one between two parts that have none. */
  lemma StripPlus(a: string, b: string)
    requires '+' !in a && '+' !in b
    ensures ReplaceChar(a + "+" + b, '+', "") == a + b
  {
    ReplaceCharConcat(a, "+", '+', "");
    ReplaceLonePlus();
    assert ReplaceChar(a + "+", '+', "") == a;
    ReplaceCharConcat(a + "+", b, '+', "");
  }

  lemma ReplaceLonePlus()
    ensures ReplaceChar("+", '+', "") == ""
  {
  }

  lemma PlusFound()
    ensures IndexOf("⌘Plus", "Plus").Some?
  {
    assert OccursAt("⌘Plus", "Plus", 1);
  }

  /** A pattern that does not start inside the prefix `p` of `s` leaves `p` in place. */
  lemma ReplaceKeepsPrefix(s: string, p: string, pat: string, rep: string)
    requires StartsWith(s, p)
    requires forall i :: 0 <= i < |p| ==> !OccursAt(s, pat, i)
    ensures StartsWith(ReplaceFirst(s, pat, rep), p)
  {
    match IndexOf(s, pat)
    case None =>
    case Some(i) =>
      assert s[..i][..|p|] == p;
  }

  /** Replacing a pattern by itself changes nothing. */
  lemma ReplaceBySelf(s: string, pat: string)
    ensures ReplaceFirst(s, pat, pat) == s
  {
    match IndexOf(s, pat)
    case None =>
    case Some(i) =>
      assert s == s[..i] + s[i..i + |pat|] + s[i + |pat|..];
  }

  /** When `pat` starts with a character that `p` lacks, replacing it keeps the prefix `p`. */
  lemma ReplaceStep(s: string, p: string, pat: string, rep: string)
    requires StartsWith(s, p) && |pat| > 0 && pat[0] !in p
    ensures StartsWith(ReplaceFirst(s, pat, rep), p)
  {
    ReplaceKeepsPrefix(s, p, pat, rep);
  }

  /** Stripping "+" keeps a first character that is not "+". */
  lemma StripKeepsPrefix(s: string, p: string)
    requires StartsWith(s, p) && |p| == 1 && p[0] != '+'
    ensures StartsWith(ReplaceChar(s, '+', ""), p)
  {
  }

  /** "Plus" and "Minus" cannot start inside a prefix without "P" and "M". */
  lemma KeySymbolsKeepPrefix(s: string, p: string)
    requires StartsWith(s, p) && 'P' !in p && 'M' !in p
    ensures StartsWith(KeySymbols(s), p)
  {
    ReplaceStep(s, p, "Plus", "+");
    ReplaceStep(ReplaceFirst(s, "Plus", "+"), p, "Minus", "-");
  }

  /** On a Mac "CmdOrCtrl" at the start becomes "⌘", and no later step touches it. */
  lemma ModifiersOnMac(accel: string)
    requires StartsWith(accel, "CmdOrCtrl")
    ensures StartsWith(ModifierSymbols(accel, true), "⌘")
  {
    var p := "⌘";
    assert accel == "" + "CmdOrCtrl" + accel[9..];
    ReplaceAfter("", "CmdOrCtrl", p, accel[9..]);
    var r1 := ReplaceFirst(accel, "CmdOrCtrl", p);
    ReplaceStep(r1, p, "Cmd", "⌘");
    var r2 := ReplaceFirst(r1, "Cmd", "⌘");
    ReplaceStep(r2, p, "Ctrl", "⌃");
    var r3 := ReplaceFirst(r2, "Ctrl", "⌃");
    ReplaceStep(r3, p, "Alt", "⌥");
    var r4 := ReplaceFirst(r3, "Alt", "⌥");
    ReplaceStep(r4, p, "Shift", "⇧");
    var r5 := ReplaceFirst(r4, "Shift", "⇧");
    ReplaceStep(r5, p, "Delete", "⌫");
  }

  /** Elsewhere "CmdOrCtrl" at the start becomes "Ctrl", and no later step touches it. */
  lemma ModifiersElsewhere(accel: string)
    requires StartsWith(accel, "CmdOrCtrl")
    ensures StartsWith(ModifierSymbols(accel, false), "Ctrl")
  {
    CmdOrCtrlBecomesCtrl(accel);
    var r2 := ReplaceFirst(ReplaceFirst(accel, "CmdOrCtrl", "Ctrl"), "Cmd", "⌘");
    LaterNamesKeepCtrl(r2);
  }

  /** Elsewhere "CmdOrCtrl" at the start becomes "Ctrl", which holds no "Cmd" to replace. */
  lemma CmdOrCtrlBecomesCtrl(accel: string)
    requires StartsWith(accel, "CmdOrCtrl")
    ensures StartsWith(ReplaceFirst(ReplaceFirst(accel, "CmdOrCtrl", "Ctrl"), "Cmd", "⌘"), "Ctrl")
  {
    var p := "Ctrl";
    assert accel == "" + "CmdOrCtrl" + accel[9..];
    ReplaceAfter("", "CmdOrCtrl", p, accel[9..]);
    var r1 := ReplaceFirst(accel, "CmdOrCtrl", p);
    forall i | 0 <= i < |p|
      ensures !OccursAt(r1, "Cmd", i)
    {
      assert r1[..4] == p;
      assert r1[i] == p[i];
      if i == 0 {
        assert r1[1] == 't';
      }
    }
    ReplaceKeepsPrefix(r1, p, "Cmd", "⌘");
  }

  /** The steps after "Cmd" keep a leading "Ctrl" when not on a Mac. */
  lemma LaterNamesKeepCtrl(r2: string)
    requires StartsWith(r2, "Ctrl")
    ensures var r := ReplaceFirst(r2, "Ctrl", "Ctrl");
      var r := ReplaceFirst(r, "Alt", "Alt");
      var r := ReplaceFirst(r, "Shift", "Shift");
      StartsWith(ReplaceFirst(r, "Delete", "Del"), "Ctrl")
  {
    var p := "Ctrl";
    ReplaceBySelf(r2, "Ctrl");
    ReplaceStep(r2, p, "Alt", "Alt");
    var r4 := ReplaceFirst(r2, "Alt", "Alt");
    ReplaceStep(r4, p, "Shift", "Shift");
    var r5 := ReplaceFirst(r4, "Shift", "Shift");
    ReplaceStep(r5, p, "Delete", "Del");
  }

  /** "CmdOrCtrl" at the start shows as "⌘" on a Mac and as "Ctrl" elsewhere. */
  lemma CmdOrCtrlShown(accel: string, isMac: bool)
    requires StartsWith(accel, "CmdOrCtrl")
    ensures StartsWith(FormatAccelerator(accel, isMac), if isMac then "⌘" else "Ctrl")
    ensures StartsWith(FormatAcceleratorAsWritten(accel, isMac), if isMac then "⌘" else "Ctrl")
  {
    if isMac {
      CmdOrCtrlShownOnMac(accel);
    } else {
      CmdOrCtrlShownElsewhere(accel);
    }
  }

  lemma CmdOrCtrlShownOnMac(accel: string)
    requires StartsWith(accel, "CmdOrCtrl")
    ensures StartsWith(FormatAccelerator(accel, true), "⌘")
    ensures StartsWith(FormatAcceleratorAsWritten(accel, true), "⌘")
  {
    ModifiersOnMac(accel);
    MacPrefixSurvives(ModifierSymbols(accel, true));
  }

  lemma CmdOrCtrlShownElsewhere(accel: string)
    requires StartsWith(accel, "CmdOrCtrl")
    ensures StartsWith(FormatAccelerator(accel, false), "Ctrl")
    ensures StartsWith(FormatAcceleratorAsWritten(accel, false), "Ctrl")
  {
    KeysElsewhere(accel);
  }

  /** Elsewhere the "Ctrl" that "CmdOrCtrl" became survives the key renaming. */
  lemma KeysElsewhere(accel: string)
    requires StartsWith(accel, "CmdOrCtrl")
    ensures StartsWith(KeySymbols(ModifierSymbols(accel, false)), "Ctrl")
  {
    ModifiersElsewhere(accel);
    KeySymbolsKeepPrefix(ModifierSymbols(accel, false), "Ctrl");
  }

  /** A leading "⌘" survives both the key renaming and the stripping of "+", in either order. */
  lemma MacPrefixSurvives(m: string)
    requires StartsWith(m, "⌘")
    ensures StartsWith(ReplaceChar(KeySymbols(m), '+', ""), "⌘")
    ensures StartsWith(KeySymbols(ReplaceChar(m, '+', "")), "⌘")
  {
    KeySymbolsKeepPrefix(m, "⌘");
    StripKeepsPrefix(KeySymbols(m), "⌘");
    StripKeepsPrefix(m, "⌘");
    KeySymbolsKeepPrefix(ReplaceChar(m, '+', ""), "⌘");
  }

  /** `menuHasCheckbox`: some item of the menu is a checkbox. */
  function MenuHasCheckbox(items: seq<MenuItem>): (r: bool)
    ensures r <==> exists i :: 0 <= i < |items| && items[i].kind == Checkbox
  {
    if items == [] then false
    else items[0].kind == Checkbox || MenuHasCheckbox(items[1..])
  }
}
