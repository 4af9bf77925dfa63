/** From a base class name (the class without its `prefix:`) to the rules it
    generates: `RuleSpec`, `rules_for_spacing`, `rules_for_space_between`,
    `rules_for_divide` and the first-match-wins dispatch `base_rules`. */
module Rules {
  import opened Wrappers
  import opened PyStr
  import opened Values
  import opened Tables

  /** One CSS rule before its selector is known: the text that follows the
      class selector (and pseudo-class) and the declarations. */
  datatype RuleSpec = RuleSpec(selectorSuffix: string, declarations: seq<string>)

  /** The selector suffix of the `space-` and `divide-` utilities: every
      visible child after the first. */
  const Sibling: string := " > :not([hidden]) ~ :not([hidden])"

  /** The suffix of `placeholder-gray-400`. */
  const Placeholder: string := "::placeholder"

  /** The keyframes `animate-spin` adds to `EXTRA_RULES`. */
  const SpinKeyframes: string :=
    "@keyframes tailwind-spin { from { transform: rotate(0deg); } to { transform: rotate(360deg); } }"

  /** The declaration `prop: value`. */
  function Decl(prop: string, value: string): string
  {
    prop + ": " + value
  }

  /** A single rule with an empty suffix. */
  function Single(declarations: seq<string>): (r: seq<RuleSpec>)
    ensures |r| == 1 && r[0] == RuleSpec("", declarations)
    ensures declarations != [] ==> Shaped(r)
  {
    [RuleSpec("", declarations)]
  }

  /** `if value: specs.append(RuleSpec(suffix, [f"{prop}: {value}"]))`: a
      rule when the value is present and not empty, nothing otherwise. */
  function WhenTruthy(suffix: string, prop: string, value: Option<string>): (r: seq<RuleSpec>)
    ensures |r| <= 1
    ensures r != [] <==> value.Some? && value.value != ""
    ensures r != [] ==> r[0] == RuleSpec(suffix, [Decl(prop, value.value)])
  {
    if value.Some? && value.value != "" then [RuleSpec(suffix, [Decl(prop, value.value)])] else []
  }

  /** A colour rule: whatever `resolve_color` raises propagates; otherwise
      a rule when it gives a non-empty colour. */
  function ColorRules(suffix: string, prop: string, color: Result<Option<string>>): (r: Result<seq<RuleSpec>>)
    ensures r.Failure? <==> color.Failure?
    ensures r.Ok? ==> r.value == WhenTruthy(suffix, prop, color.value)
  {
    match color
    case Failure(e) => Failure(e)
    case Ok(c) => Ok(WhenTruthy(suffix, prop, c))
  }

  /** Well-formed rules: each has at least one declaration and one of the
      three suffixes the generator uses. */
  predicate Shaped(specs: seq<RuleSpec>)
  {
    forall i :: 0 <= i < |specs| ==>
      specs[i].declarations != [] && specs[i].selectorSuffix in {"", Sibling, Placeholder}
  }

  /** One `prop: value` declaration per property, in order. */
  function Decls(props: seq<string>, value: string): (r: seq<string>)
    ensures |r| == |props|
    ensures forall i :: 0 <= i < |props| ==> r[i] == Decl(props[i], value)
  {
    if props == [] then [] else [Decl(props[0], value)] + Decls(props[1..], value)
  }

  // ------------------------------------------------------------ rules_for_spacing

  /** The value `rules_for_spacing` uses: `auto` stands for itself, any
      other token goes through `spacing_value`. */
  function SpacingOrAuto(token: string): (r: Option<string>)
    ensures token == "auto" ==> r == Some("auto")
    ensures token != "auto" ==> r == SpacingValue(token)
  {
    if token == "auto" then Some("auto") else SpacingValue(token)
  }

  /** `rules_for_spacing(prefix, token)`: nothing when the value does not
      resolve (`is None`; an empty value still gives a rule), otherwise one
      rule with an empty suffix setting every property of the prefix to the
      same value. */
  function RulesForSpacing(prefix: string, token: string): (r: seq<RuleSpec>)
    requires prefix in SpacingProps
    ensures r == [] <==> SpacingOrAuto(token).None?
    ensures r != [] ==>
      |r| == 1 && r[0].selectorSuffix == ""
      && |r[0].declarations| == |SpacingProps[prefix]|
      && forall i :: 0 <= i < |SpacingProps[prefix]| ==>
           r[0].declarations[i] == Decl(SpacingProps[prefix][i], SpacingOrAuto(token).value)
    ensures Shaped(r)
  {
    SpacingPropsShape(prefix);
    var props := SpacingProps[prefix];
    var value := SpacingOrAuto(token);
    if value.None? then [] else [RuleSpec("", Decls(props, value.value))]
  }

  /** Every spacing prefix sets one or two properties. */
  lemma SpacingPropsShape(prefix: string)
    requires prefix in SpacingProps
    ensures 1 <= |SpacingProps[prefix]| <= 2
  {
  }

  // ------------------------------------------------------ rules_for_space_between

  /** `rules_for_space_between(base)`: the spacing value after the second `-`
      as a top margin (`space-y…`) or a left margin (anything else) on every
      visible child after the first. Fewer than two `-` raise IndexError. */
  function RulesForSpaceBetween(base: string): (r: Result<seq<RuleSpec>>)
    ensures r.Ok? ==> |r.value| <= 1 && Shaped(r.value)
  {
    var direction := if StartsWith(base, "space-y") then "margin-top" else "margin-left";
    match AfterSecond(base, '-')
    case None => Failure("IndexError")
    case Some(token) => Ok(WhenTruthy(Sibling, direction, SpacingValue(token)))
  }

  /** `space-x-T` and `space-y-T` (where `T` may itself contain `-`) set the
      left or the top margin of the later children to the spacing value of
      `T`, when it resolves to a non-empty value. */
  lemma SpaceBetweenAxis(axis: char, token: string)
    requires axis == 'x' || axis == 'y'
    ensures RulesForSpaceBetween("space-" + [axis] + "-" + token) ==
      Ok(WhenTruthy(Sibling, if axis == 'y' then "margin-top" else "margin-left", SpacingValue(token)))
  {
    var base := "space-" + [axis] + "-" + token;
    assert base == "space" + ['-'] + ([axis] + "-" + token);
    SplitFirstAt("space", '-', [axis] + "-" + token);
    assert [axis] + "-" + token == [axis] + ['-'] + token;
    SplitFirstAt([axis], '-', token);
    assert base[6] == axis;
    if axis == 'y' {
      assert base[..7] == "space-y";
      assert StartsWith(base, "space-y");
    } else {
      assert "space-y"[6] != base[6];
    }
  }

  /** `space-x` alone has a single `-` and raises IndexError. */
  lemma SpaceWithoutValueRaises()
    ensures RulesForSpaceBetween("space-x").Failure?
  {
    assert "space-x" == "space" + ['-'] + "x";
    SplitFirstAt("space", '-', "x");
  }

  // ------------------------------------------------------------ rules_for_divide

  /** `rules_for_divide(base)`: `divide-y` draws a 1px top border between
      children; `divide-C` colours those borders with the colour `C`. */
  function RulesForDivide(base: string, num: Numerics): (r: Result<seq<RuleSpec>>)
    requires StartsWith(base, "divide-")
    ensures r.Ok? ==> |r.value| <= 1 && Shaped(r.value)
    ensures base == "divide-y" ==> r == Ok([RuleSpec(Sibling, ["border-top-width: 1px", "border-style: solid"])])
  {
    if base == "divide-y" then Ok([RuleSpec(Sibling, ["border-top-width: 1px", "border-style: solid"])])
    // `base.split("-", 1)[1]`: "divide" has no `-`, so this is the text after "divide-".
    else ColorRules(Sibling, "border-color", ResolveColor(base[7..], num))
  }

  /** Any other `divide-C` gives the border colour `C` resolves to. */
  lemma DivideColor(token: string, num: Numerics)
    requires token != "y"
    ensures RulesForDivide("divide-" + token, num) ==
      ColorRules(Sibling, "border-color", ResolveColor(token, num))
  {
    var base := "divide-" + token;
    assert base[7..] == token;
    assert base != "divide-y" by {
      assert base[7..] == token != "y";
    }
  }

  // ------------------------------------------------------------ base_rules

  /** The font-size declarations: the size, then the line height unless the
      table gives "1". */
  function FontSizeDecls(size: string, lineHeight: string): (r: seq<string>)
    ensures |r| == (if lineHeight == "1" then 1 else 2)
    ensures r[0] == Decl("font-size", size)
    ensures lineHeight != "1" ==> r[1] == Decl("line-height", lineHeight)
  {
    [Decl("font-size", size)] + (if lineHeight != "1" then [Decl("line-height", lineHeight)] else [])
  }

  /** The `text-` branch: an alignment, or else a colour. */
  function TextRules(base: string, num: Numerics): (r: Result<seq<RuleSpec>>)
    requires StartsWith(base, "text-")
    ensures r.Ok? ==> |r.value| <= 1 && Shaped(r.value)
  {
    if base in TextAlignments then Ok(Single([Decl("text-align", TextAlignments[base])]))
    else ColorRules("", "color", ResolveColor(base[5..], num))
  }

  /** The `bg-` branch: `cover`, `center`, or a background colour. */
  function BackgroundRules(base: string, num: Numerics): (r: Result<seq<RuleSpec>>)
    requires StartsWith(base, "bg-")
    ensures r.Ok? ==> |r.value| <= 1 && Shaped(r.value)
  {
    var token := base[3..];
    if token == "cover" then Ok(Single(["background-size: cover"]))
    else if token == "center" then Ok(Single(["background-position: center"]))
    else ColorRules("", "background-color", ResolveColor(token, num))
  }

  /** The `border-` branch: widths, `border-none`, single edges, the border
      opacity (whose `float` may raise ValueError), or a border colour. */
  function BorderRules(base: string, num: Numerics): (r: Result<seq<RuleSpec>>)
    requires StartsWith(base, "border-")
    ensures r.Ok? ==> |r.value| <= 1 && Shaped(r.value)
  {
    if base in BorderWidths then Ok(Single([Decl("border-width", BorderWidths[base]), "border-style: solid"]))
    else if base == "border-none" then Ok(Single(["border: none"]))
    else if base in BorderEdges then
      var width := if EndsWith(base, "-4") then "4px" else "1px";
      Ok(Single([Decl(BorderEdges[base], width), "border-style: solid"]))
    else if StartsWith(base, "border-opacity-") then
      match num.floatPercent(LastField(base, '-'))
      case None => Failure("ValueError")
      case Some(opacity) => Ok(Single([Decl("--tw-border-opacity", opacity)]))
    // `base.split("-", 1)[1]`: the text after "border-".
    else ColorRules("", "border-color", ResolveColor(base[7..], num))
  }

  /** Lower-case letters and `-`, at least one: the `prefix` group of
      `ARBITRARY_VALUE_RE`. */
  predicate LowerOrDash(s: string)
  {
    s != [] && forall i :: 0 <= i < |s| ==> 'a' <= s[i] <= 'z' || s[i] == '-'
  }

  /** The `value` group of a match of `ARBITRARY_VALUE_RE`
      (`prefix-[value]`, where the prefix is lower-case letters and `-` and
      the value is non-empty without `]`), or None when it does not match.
      As with Python's `$`, one newline may follow the closing bracket. */
  function ArbitraryValue(s: string): (r: Option<string>)
    ensures r.Some? ==> r.value != [] && ']' !in r.value
  {
    match SplitFirst(s, '[')
    case None => None
    case Some(parts) =>
      var (head, rest) := parts;
      if |head| < 2 || head[|head| - 1] != '-' || !LowerOrDash(head[..|head| - 1]) then None
      else
        var value :=
          if EndsWith(rest, "]\n") then Some(rest[..|rest| - 2])
          else if EndsWith(rest, "]") then Some(rest[..|rest| - 1])
          else None;
        if value.Some? && value.value != [] && ']' !in value.value then value else None
  }

  /** `shadow-[v]` matches with value `v` whenever `v` is non-empty and has no `]`. */
  lemma ArbitraryShadow(v: string)
    requires v != [] && ']' !in v
    ensures ArbitraryValue("shadow-[" + v + "]") == Some(v)
  {
    var s := "shadow-[" + v + "]";
    assert s == "shadow-" + ['['] + (v + "]");
    SplitFirstAt("shadow-", '[', v + "]");
    var rest := v + "]";
    assert !EndsWith(rest, "]\n") by {
      assert rest[|rest| - 1] == ']';
    }
    assert EndsWith(rest, "]") && rest[..|rest| - 1] == v by {
      assert rest[|rest| - 1..] == "]";
    }
    assert "shadow-"[..6] == "shadow";
  }

  /** The `shadow` branch: a named shadow or an arbitrary `shadow-[v]`. */
  function ShadowRules(base: string): (r: seq<RuleSpec>)
    ensures |r| <= 1 && Shaped(r)
  {
    if base in Shadows then Single([Decl("box-shadow", Shadows[base])])
    else if StartsWith(base, "shadow-[") then
      match ArbitraryValue(base)
      case Some(value) => Single([Decl("box-shadow", value)])
      case None => []
    else []
  }

  /** The `ring` branch: `ring-2`, `ring-offset-2`, or a ring colour after
      the first `-` (a base without `-`, such as `ring`, raises IndexError). */
  function RingRules(base: string, num: Numerics): (r: Result<seq<RuleSpec>>)
    ensures r.Ok? ==> |r.value| <= 1 && Shaped(r.value)
  {
    if base == "ring-2" then Ok(Single(["box-shadow: 0 0 0 2px currentColor"]))
    else if base == "ring-offset-2" then Ok(Single(["outline-offset: 2px"]))
    else
      match AfterFirst(base, '-')
      case None => Failure("IndexError")
      case Some(token) =>
        match ResolveColor(token, num)
        case Failure(e) => Failure(e)
        case Ok(color) =>
          Ok(if color.Some? && color.value != "" then Single(["box-shadow: 0 0 0 2px " + color.value]) else [])
  }

  /** The first spacing prefix `p` (in the order `p`, `px`, …, `mr`) such
      that the base starts with `p-`, looking from position `i` on. */
  function SpacingPrefixFrom(base: string, i: nat): (r: Option<string>)
    requires i <= |SpacingPrefixes|
    ensures r.Some? ==> r.value in SpacingProps && StartsWith(base, r.value + "-")
    ensures r.None? ==> forall j :: i <= j < |SpacingPrefixes| ==> !StartsWith(base, SpacingPrefixes[j] + "-")
    decreases |SpacingPrefixes| - i
  {
    if i == |SpacingPrefixes| then None
    else if StartsWith(base, SpacingPrefixes[i] + "-") then Some(SpacingPrefixes[i])
    else SpacingPrefixFrom(base, i + 1)
  }

  /** `base_rules(base)`: the rules of a base class name. The families are
      tried in the order of the source and the first that applies decides;
      a name no family recognises gives Ok([]), and Failure stands for the
      exceptions the source lets escape. The chain continues in `BoxRules`. */
  function BaseRules(base: string, num: Numerics): (r: Result<seq<RuleSpec>>)
    ensures r.Ok? ==> |r.value| <= 2 && Shaped(r.value)
    ensures r.Ok? && |r.value| == 2 ==> base == "self-start"
    ensures r.Failure? ==>
      StartsWith(base, "text-") || StartsWith(base, "bg-") || StartsWith(base, "border-")
      || StartsWith(base, "ring") || StartsWith(base, "space-") || StartsWith(base, "divide-")
      || StartsWith(base, "gap") || StartsWith(base, "opacity-")
  {
    if base in FontSizes then Ok(Single(FontSizeDecls(FontSizes[base].0, FontSizes[base].1)))
    else if base in FontWeights then Ok(Single([Decl("font-weight", FontWeights[base])]))
    else if StartsWith(base, "text-") then TextRules(base, num)
    else if StartsWith(base, "bg-") then BackgroundRules(base, num)
    else if base == "border" then Ok(Single(["border-width: 1px", "border-style: solid"]))
    else if StartsWith(base, "border-") then BorderRules(base, num)
    else BoxRules(base, num)
  }

  /** `base_rules`, from the border radii to the spacing utilities. */
  function BoxRules(base: string, num: Numerics): (r: Result<seq<RuleSpec>>)
    ensures r.Ok? ==> |r.value| <= 2 && Shaped(r.value)
    ensures r.Ok? && |r.value| == 2 ==> base == "self-start"
    ensures r.Failure? ==>
      StartsWith(base, "ring") || StartsWith(base, "space-") || StartsWith(base, "divide-")
      || StartsWith(base, "gap") || StartsWith(base, "opacity-")
  {
    if base in BorderRadius then Ok(Single([Decl("border-radius", BorderRadius[base])]))
    else if base == "rounded-t-xl" then
      Ok(Single(["border-top-left-radius: 0.75rem", "border-top-right-radius: 0.75rem"]))
    else if StartsWith(base, "shadow") then Ok(ShadowRules(base))
    else if StartsWith(base, "ring") then RingRules(base, num)
    else
      match SpacingPrefixFrom(base, 0)
      // `base.split("-", 1)[1]`: a spacing prefix has no `-`, so this is the
      // text after `prefix-`.
      case Some(prefix) => Ok(RulesForSpacing(prefix, base[|prefix| + 1..]))
      case None => SizeRules(base, num)
  }

  /** `base_rules`, from `space-` to `max-h-`. */
  function SizeRules(base: string, num: Numerics): (r: Result<seq<RuleSpec>>)
    ensures r.Ok? ==> |r.value| <= 2 && Shaped(r.value)
    ensures r.Ok? && |r.value| == 2 ==> base == "self-start"
    ensures r.Failure? ==>
      StartsWith(base, "space-") || StartsWith(base, "divide-") || StartsWith(base, "gap")
      || StartsWith(base, "opacity-")
  {
    if StartsWith(base, "space-") then RulesForSpaceBetween(base)
    else if StartsWith(base, "divide-") then RulesForDivide(base, num)
    else if StartsWith(base, "gap") then GapRules(base)
    else if StartsWith(base, "w-") then Ok(WhenTruthy("", "width", Lookup(WidthMap, base[2..])))
    else if StartsWith(base, "h-") then Ok(WhenTruthy("", "height", Lookup(HeightMap, base[2..])))
    else if StartsWith(base, "min-w-") then
      var token := base[6..];
      Ok(if token == "full" then Single(["min-width: 100%"])
         else if token == "0" then Single(["min-width: 0"])
         else if StartsWith(token, "[") then Single([Decl("min-width", Inner(token))])
         else [])
    else if StartsWith(base, "min-h-") then
      var token := base[6..];
      Ok(if token == "screen" then Single(["min-height: 100vh"])
         else if StartsWith(token, "[") then Single([Decl("min-height", Inner(token))])
         else [])
    else if StartsWith(base, "max-w-") then
      var token := base[6..];
      Ok(if StartsWith(token, "[") then Single([Decl("max-width", Inner(token))])
         else WhenTruthy("", "max-width", Lookup(MaxWidthMap, token)))
    else if StartsWith(base, "max-h-") then
      var token := base[6..];
      Ok(if StartsWith(token, "[") then Single([Decl("max-height", Inner(token))])
         else if token in SpacingScale then Single([Decl("max-height", SpacingScale[token])])
         else [])
    else PlacementRules(base, num)
  }

  /** `base_rules`, from `grid-cols-` to `opacity-`. */
  function PlacementRules(base: string, num: Numerics): (r: Result<seq<RuleSpec>>)
    ensures r.Ok? ==> |r.value| <= 2 && Shaped(r.value)
    ensures r.Ok? && |r.value| == 2 ==> base == "self-start"
    ensures r.Failure? ==> StartsWith(base, "opacity-")
  {
    if StartsWith(base, "grid-cols-") then
      var token := base[10..];
      Ok(if StartsWith(token, "[") then Single([Decl("grid-template-columns", Inner(token))])
         else Single([Decl("grid-template-columns", "repeat(" + token + ", minmax(0, 1fr))")]))
    else if StartsWith(base, "col-span-") then
      var token := base[9..];
      Ok(if token == "full" then Single(["grid-column: 1 / -1"])
         else Single([Decl("grid-column", "span " + token + " / span " + token)]))
    else if base in DisplayMap then Ok(Single([Decl("display", DisplayMap[base])]))
    else if base in Positions then Ok(Single([Decl("position", base)]))
    else if base == "inset-0" then Ok(Single(["top: 0", "right: 0", "bottom: 0", "left: 0"]))
    else if StartsWith(base, "top-") || StartsWith(base, "bottom-") || StartsWith(base, "left-") then
      var (prop, token) := Partition(base, '-');
      var value := if token == "0" then Some("0") else if token == "1/2" then Some("50%") else SpacingValue(token);
      Ok(WhenTruthy("", prop, value))
    else if StartsWith(base, "-mt-") then
      var value := SpacingValue(base[4..]);
      Ok(if value.Some? && value.value != "" then Single([Decl("margin-top", "-" + value.value)]) else [])
    else if StartsWith(base, "-translate-y-") then
      Ok(if base[13..] == "1/2" then Single(["transform: translateY(-50%)"]) else [])
    else if StartsWith(base, "scale-") then
      var token := base[6..];
      // `float(token)` raising ValueError is caught and gives no value.
      var value := if StartsWith(token, "[") then Some(Inner(token)) else num.floatPercent(token);
      Ok(if value.Some? && value.value != "" then Single([Decl("transform", "scale(" + value.value + ")")]) else [])
    else if StartsWith(base, "opacity-") then
      // `base.split("-")[1]`: the text after "opacity-" up to the next `-`;
      // `int` of it may raise ValueError.
      match num.intPercent(Partition(base[8..], '-').0)
      case None => Failure("ValueError")
      case Some(value) => Ok(Single([Decl("opacity", value)]))
    else Ok(TypeRules(base))
  }

  /** `mapping.get(token)` */
  function Lookup(m: map<string, string>, token: string): (r: Option<string>)
    ensures r.Some? <==> token in m
    ensures r.Some? ==> r.value == m[token]
  {
    if token in m then Some(m[token]) else None
  }

  /** The `gap` branch: column gap (`gap-x-`), row gap (`gap-y-`), or both
      (`gap-`; a base without `-`, such as `gap`, raises IndexError). */
  function GapRules(base: string): (r: Result<seq<RuleSpec>>)
    ensures r.Ok? ==> |r.value| <= 1 && Shaped(r.value)
  {
    // `base.split("-", 2)[2]` for a base starting with `gap-x-` or `gap-y-`
    // is the text after that prefix.
    if StartsWith(base, "gap-x-") then Ok(WhenTruthy("", "column-gap", SpacingValue(base[6..])))
    else if StartsWith(base, "gap-y-") then Ok(WhenTruthy("", "row-gap", SpacingValue(base[6..])))
    else
      match AfterFirst(base, '-')
      case None => Failure("IndexError")
      case Some(token) => Ok(WhenTruthy("", "gap", SpacingValue(token)))
  }

  /** `base_rules`, from `leading-` to `items-`. */
  function TypeRules(base: string): (r: seq<RuleSpec>)
    ensures |r| <= 2 && Shaped(r)
    ensures |r| == 2 ==> base == "self-start"
  {
    // `base.split("-", 1)[1]` for the `leading-`, `justify-` and `items-`
    // families is the text after that prefix.
    if StartsWith(base, "leading-") then WhenTruthy("", "line-height", Lookup(Leading, base[8..]))
    else if StartsWith(base, "tracking-") then
      if base in LetterSpacing then Single([Decl("letter-spacing", LetterSpacing[base])])
      else if StartsWith(base, "tracking-[") then Single([Decl("letter-spacing", DropLast(base[10..]))])
      else []
    else if base in TextTransforms then Single([Decl("text-transform", base)])
    else if StartsWith(base, "justify-") then WhenTruthy("", "justify-content", Lookup(Justify, base[8..]))
    else if StartsWith(base, "items-") then WhenTruthy("", "align-items", Lookup(Items, base[6..]))
    else FlexRules(base)
  }

  /** `base_rules`, from `flex-row` to `self-start`. */
  function FlexRules(base: string): (r: seq<RuleSpec>)
    ensures |r| <= 2 && Shaped(r)
    ensures |r| == 2 ==> base == "self-start"
  {
    if base == "flex-row" then Single(["flex-direction: row"])
    else if base == "flex-col" then Single(["flex-direction: column"])
    else if base == "flex-nowrap" then Single(["flex-wrap: nowrap"])
    else if base == "flex-wrap" then Single(["flex-wrap: wrap"])
    else if base == "flex-1" then Single(["flex: 1 1 0%"])
    else if base == "flex-grow" then Single(["flex-grow: 1"])
    else if base == "flex-shrink-0" then Single(["flex-shrink: 0"])
    else if base == "self-center" then Single(["align-self: center"])
    else if base == "self-start" then [RuleSpec("", ["align-self: flex-start"]), RuleSpec("", ["flex-shrink: 0"])]
    else OverflowRules(base)
  }

  /** `base_rules`, from `overflow-hidden` to `whitespace-nowrap`. */
  function OverflowRules(base: string): (r: seq<RuleSpec>)
    ensures |r| <= 1 && Shaped(r)
  {
    if base == "overflow-hidden" then Single(["overflow: hidden"])
    else if base == "overflow-x-auto" then Single(["overflow-x: auto"])
    else if base == "overflow-y-auto" then Single(["overflow-y: auto"])
    else if base == "truncate" then Single(["overflow: hidden", "text-overflow: ellipsis", "white-space: nowrap"])
    else if base == "whitespace-nowrap" then Single(["white-space: nowrap"])
    else MotionRules(base)
  }

  /** `base_rules`, the `transition` and `duration-` families. */
  function MotionRules(base: string): (r: seq<RuleSpec>)
    ensures |r| <= 1 && Shaped(r)
  {
    if StartsWith(base, "transition") then
      if base == "transition" then
        Single(["transition-property: all", "transition-duration: 150ms",
                "transition-timing-function: cubic-bezier(0.4, 0, 0.2, 1)"])
      else if base == "transition-all" then Single(["transition-property: all"])
      else if base == "transition-colors" then
        Single(["transition-property: color, background-color, border-color, text-decoration-color, fill, stroke"])
      else if base == "transition-transform" then Single(["transition-property: transform"])
      else []
    // `base.split('-', 1)[1]`: the text after "duration-".
    else if StartsWith(base, "duration-") then Single([Decl("transition-duration", base[9..] + "ms")])
    else DecorationRules(base)
  }

  /** `base_rules`, from `ease-in-out` to `z-`. */
  function DecorationRules(base: string): (r: seq<RuleSpec>)
    ensures |r| <= 1 && Shaped(r)
  {
    if base == "ease-in-out" then Single(["transition-timing-function: cubic-bezier(0.4, 0, 0.2, 1)"])
    else if base == "cursor-pointer" then Single(["cursor: pointer"])
    else if base == "cursor-not-allowed" then Single(["cursor: not-allowed"])
    else if base == "underline" then Single(["text-decoration: underline"])
    else if base == "italic" then Single(["font-style: italic"])
    else if base == "font-mono" then Single(["font-family: 'IBM Plex Mono', 'Courier New', monospace"])
    else if base == "font-title" then Single(["font-family: 'Bebas Neue', sans-serif"])
    else if base == "text-[10px]" then Single(["font-size: 10px"])
    else if base == "pt-[100px]" then Single(["padding-top: 100px"])
    else if StartsWith(base, "tracking-[") then Single([Decl("letter-spacing", DropLast(base[10..]))])
    else if StartsWith(base, "z-") then
      var token := base[2..];
      Single([Decl("z-index", if StartsWith(token, "[") then Inner(token) else token)])
    else WidgetRules(base)
  }

  /** `base_rules`, from `backdrop-blur-sm` to `drop-shadow`. */
  function WidgetRules(base: string): (r: seq<RuleSpec>)
    ensures |r| <= 1 && Shaped(r)
  {
    if base == "backdrop-blur-sm" then Single(["backdrop-filter: blur(4px)"])
    else if base == "appearance-none" then Single(["appearance: none"])
    else if base == "outline-none" then Single(["outline: none"])
    else if base == "select-all" then Single(["user-select: all"])
    else if base == "object-cover" then Single(["object-fit: cover"])
    else if base == "object-contain" then Single(["object-fit: contain"])
    else if base == "placeholder-gray-400" then [RuleSpec(Placeholder, ["color: #9ca3af"])]
    else if base in DropShadows then Single([Decl("filter", DropShadows[base])])
    else EffectRules(base)
  }

  /** `base_rules`, from `animate-spin` to the end. */
  function EffectRules(base: string): (r: seq<RuleSpec>)
    ensures |r| <= 1 && Shaped(r)
  {
    if base == "animate-spin" then Single(["animation: tailwind-spin 1s linear infinite"])
    else if base == "form-checkbox" then
      Single(["appearance: none", "width: 1rem", "height: 1rem", "border: 1px solid #d1d5db", "border-radius: 0.25rem"])
    else if base == "form-radio" then
      Single(["appearance: none", "width: 1rem", "height: 1rem", "border: 1px solid #d1d5db", "border-radius: 9999px"])
    else if base == "container" then
      Single(["width: 100%", "max-width: 1200px", "margin-left: auto", "margin-right: auto",
              "padding-left: 1rem", "padding-right: 1rem"])
    else if base == "transform" then Single(["transform: translateZ(0)"])
    else if StartsWith(base, "grid-cols-[") then Single([Decl("grid-template-columns", DropLast(base[11..]))])
    else []
  }

  /** What `base_rules(base)` appends to `EXTRA_RULES`: the spin keyframes
      for `animate-spin` (the only branch that touches it), nothing otherwise. */
  function ExtraRulesOf(base: string): seq<string>
  {
    if base == "animate-spin" then [SpinKeyframes] else []
  }

  /** A base appends to `EXTRA_RULES` exactly when it is `animate-spin`, and
      then one copy of the spin keyframes and nothing else. */
  lemma OnlySpinAppends(base: string)
    ensures ExtraRulesOf(base) != [] <==> base == "animate-spin"
    ensures |ExtraRulesOf(base)| <= 1 && forall i :: 0 <= i < |ExtraRulesOf(base)| ==> ExtraRulesOf(base)[i] == SpinKeyframes
  {
  }

  // ------------------------------------------------------------ properties of base_rules
  // Each property below first establishes, in a lemma that does not mention
  // `BaseRules`, which of the earlier branches do not apply.

  /** A font-size class gives one rule: the size, and the line height
      unless the table gives "1" (as for `text-5xl` to `text-8xl`). */
  lemma FontSizeRule(base: string, num: Numerics)
    requires base in FontSizes
    ensures var (size, lineHeight) := FontSizes[base];
      BaseRules(base, num) == Ok(Single(
        [Decl("font-size", size)] + (if lineHeight == "1" then [] else [Decl("line-height", lineHeight)])))
  {
  }

  lemma FontWeightNames(base: string)
    requires base in FontWeights
    ensures base !in FontSizes
  {
  }

  /** A font-weight class sets `font-weight` to the table's value. */
  lemma FontWeightRule(base: string, num: Numerics)
    requires base in FontWeights
    ensures BaseRules(base, num) == Ok(Single([Decl("font-weight", FontWeights[base])]))
  {
    FontWeightNames(base);
  }

  lemma BareBorderNames(base: string)
    requires base == "border"
    ensures base !in FontSizes && base !in FontWeights && !StartsWith(base, "text-") && !StartsWith(base, "bg-")
  {
    assert base[0] == 'b' && base[1] == 'o' && |base| == 6;
  }

  /** A bare `border` is a solid 1px border. */
  lemma BareBorderRule(num: Numerics)
    ensures BaseRules("border", num) == Ok(Single(["border-width: 1px", "border-style: solid"]))
  {
    BareBorderNames("border");
  }

  lemma AlignmentNames(base: string)
    requires base in TextAlignments
    ensures base !in FontSizes && base !in FontWeights && StartsWith(base, "text-")
  {
  }

  /** The alignments are not colours: `text-left`, `text-center` and
      `text-right` give `text-align`. */
  lemma TextAlignment(base: string, num: Numerics)
    requires base in TextAlignments
    ensures BaseRules(base, num) == Ok(Single([Decl("text-align", TextAlignments[base])]))
  {
    AlignmentNames(base);
  }

  lemma TextNames(token: string)
    ensures var base := "text-" + token;
      base !in FontWeights && StartsWith(base, "text-") && base[5..] == token
  {
    var base := "text-" + token;
    assert base[0] == 't';
    assert base[..5] == "text-";
  }

  /** Any other `text-T` that is not a font size is a colour: the rule is
      `color:` of whatever `T` resolves to. */
  lemma TextColor(token: string, num: Numerics)
    requires "text-" + token !in FontSizes && "text-" + token !in TextAlignments
    ensures BaseRules("text-" + token, num) == ColorRules("", "color", ResolveColor(token, num))
  {
    TextNames(token);
  }

  /** Every `text-` class is decided by the font sizes or the `text-` branch,
      so no `text-` class reaches a later branch (such as the one for
      `text-[10px]`). */
  lemma TextFamilyDecides(base: string, num: Numerics)
    requires StartsWith(base, "text-")
    ensures BaseRules(base, num) ==
      if base in FontSizes then Ok(Single(FontSizeDecls(FontSizes[base].0, FontSizes[base].1)))
      else TextRules(base, num)
  {
    TextNotWeight(base);
  }

  lemma TextNotWeight(base: string)
    requires StartsWith(base, "text-")
    ensures base !in FontWeights
  {
    assert base[0] == "text-"[0] == 't';
  }

  lemma BracketedTextNames(v: string)
    ensures var base := "text-[" + v + "]";
      base == "text-" + ("[" + v + "]") && base !in FontSizes && base !in TextAlignments
  {
    var base := "text-[" + v + "]";
    assert base[5] == '[';
  }

  /** `text-[v]` is always a colour, whatever `v` holds: `text-[10px]` gives
      `color: 10px`, not the `font-size: 10px` of the later `text-[10px]`
      branch, which never decides anything. */
  lemma TextArbitraryIsColor(v: string, num: Numerics)
    requires v != ""
    ensures BaseRules("text-[" + v + "]", num) == Ok(Single([Decl("color", v)]))
  {
    BracketedTextNames(v);
    TextColor("[" + v + "]", num);
    ResolveArbitrary(v, num);
  }

  /** Spacing prefixes have no `-`, so a base `prefix-token` starts with
      `q-` for no other spacing prefix `q`. */
  lemma SpacingPrefixUnique(prefix: string, q: string, token: string)
    requires prefix in SpacingProps && q in SpacingProps
    requires StartsWith(prefix + "-" + token, q + "-")
    ensures q == prefix
  {
    var base := prefix + "-" + token;
    assert '-' !in prefix && '-' !in q;
    assert base[|prefix|] == '-';
    assert base[..|q| + 1] == q + "-";
    assert base[|q|] == '-';
    assert forall k :: 0 <= k < |prefix| ==> base[k] == prefix[k];
    assert forall k :: 0 <= k < |q| ==> base[k] == q[k];
    assert |q| == |prefix|;
    assert q == base[..|q|] == prefix;
  }

  /** The spacing loop picks the prefix of `prefix-token`. */
  lemma SpacingPrefixOf(prefix: string, token: string)
    requires prefix in SpacingProps
    ensures SpacingPrefixFrom(prefix + "-" + token, 0) == Some(prefix)
  {
    var base := prefix + "-" + token;
    assert StartsWith(base, prefix + "-") by {
      assert base == (prefix + "-") + token;
    }
    match SpacingPrefixFrom(base, 0)
    case Some(q) =>
      SpacingPrefixUnique(prefix, q, token);
    case None =>
  }

  lemma SpacingNames(prefix: string, token: string)
    requires prefix in SpacingProps
    ensures var base := prefix + "-" + token;
      && base[|prefix| + 1..] == token
      && base !in FontSizes && base !in FontWeights && base !in BorderRadius
      && !StartsWith(base, "text-") && !StartsWith(base, "bg-") && !StartsWith(base, "border")
      && !StartsWith(base, "shadow") && !StartsWith(base, "ring") && base != "rounded-t-xl"
  {
    var base := prefix + "-" + token;
    assert base[0] == prefix[0];
    assert prefix[0] == 'p' || prefix[0] == 'm';
  }

  /** A spacing utility `prefix-token` (with `prefix` one of `p`, `px`, …,
      `mr`) is decided by the spacing branch: its rules are those of
      `rules_for_spacing(prefix, token)`. */
  lemma SpacingDispatch(prefix: string, token: string, num: Numerics)
    requires prefix in SpacingProps
    ensures BaseRules(prefix + "-" + token, num) == Ok(RulesForSpacing(prefix, token))
  {
    SpacingHead(prefix, token, num);
    SpacingBox(prefix, token, num);
  }

  lemma SpacingHead(prefix: string, token: string, num: Numerics)
    requires prefix in SpacingProps
    ensures BaseRules(prefix + "-" + token, num) == BoxRules(prefix + "-" + token, num)
  {
    SpacingNames(prefix, token);
  }

  lemma SpacingBox(prefix: string, token: string, num: Numerics)
    requires prefix in SpacingProps
    ensures BoxRules(prefix + "-" + token, num) == Ok(RulesForSpacing(prefix, token))
  {
    SpacingPrefixOf(prefix, token);
    SpacingNames(prefix, token);
  }

  /** `px-4` sets the left and right padding to `1rem`. */
  lemma PaddingX4()
    ensures RulesForSpacing("px", "4") == Single(["padding-left: 1rem", "padding-right: 1rem"])
  {
    assert !Bracketed("4") && "4" in SpacingScale && SpacingScale["4"] == "1rem";
    assert SpacingOrAuto("4") == Some("1rem");
    assert Decl("padding-left", "1rem") == "padding-left: 1rem";
    assert Decl("padding-right", "1rem") == "padding-right: 1rem";
    var r := RulesForSpacing("px", "4");
    assert r[0].declarations == ["padding-left: 1rem", "padding-right: 1rem"];
  }

  /** `pt-[v]` sets the top padding to `v`: for `pt-[100px]` the spacing
      branch gives what the later `pt-[100px]` branch would have given. */
  lemma PaddingTopArbitrary(v: string)
    ensures RulesForSpacing("pt", "[" + v + "]") == Single([Decl("padding-top", v)])
  {
    SpacingValueArbitrary(v);
    var r := RulesForSpacing("pt", "[" + v + "]");
    assert r[0].declarations == [Decl("padding-top", v)];
  }

  lemma DashlessTables(base: string)
    requires |base| >= 2 && (base[0] == 'r' || base[0] == 'g') && (base[1] == 'i' || base[1] == 'a')
    ensures base !in FontSizes && base !in FontWeights && base !in BorderRadius
  {
  }

  lemma DashlessNames(base: string)
    requires '-' !in base && (StartsWith(base, "ring") || StartsWith(base, "gap"))
    ensures base !in FontSizes && base !in FontWeights && base !in BorderRadius
    ensures !StartsWith(base, "text-") && !StartsWith(base, "bg-") && base != "border"
    ensures !StartsWith(base, "border-") && base != "rounded-t-xl" && !StartsWith(base, "shadow")
    ensures SpacingPrefixFrom(base, 0).None? && AfterFirst(base, '-').None?
  {
    assert base[0] == 'r' || base[0] == 'g';
    assert base[1] == 'i' || base[1] == 'a';
    DashlessTables(base);
    DashlessSpacing(base);
  }

  lemma DashlessSpacing(base: string)
    requires '-' !in base
    ensures SpacingPrefixFrom(base, 0).None?
  {
    forall p: string
      ensures !StartsWith(base, p + "-")
    {
      NoDashNoPrefix(base, p);
    }
  }

  /** A name without `-` starts with no `p-`. */
  lemma NoDashNoPrefix(base: string, p: string)
    requires '-' !in base
    ensures !StartsWith(base, p + "-")
  {
    if |p| + 1 <= |base| {
      assert base[..|p| + 1][|p|] == base[|p|];
      assert (p + "-")[|p|] == '-';
    }
  }

  /** A `ring` class without a `-` (such as `ring` itself) raises
      IndexError, which stops the build. */
  lemma DashlessRingRaises(base: string, num: Numerics)
    requires '-' !in base && StartsWith(base, "ring")
    ensures BaseRules(base, num).Failure?
  {
    DashlessNames(base);
    assert base != "ring-2" && base != "ring-offset-2" by {
      assert "ring-2"[4] == '-' && "ring-offset-2"[4] == '-';
    }
  }

  /** A `gap` class without a `-` (such as `gap` itself) raises IndexError. */
  lemma DashlessGapRaises(base: string, num: Numerics)
    requires '-' !in base && StartsWith(base, "gap")
    ensures BaseRules(base, num).Failure?
  {
    DashlessNames(base);
    assert !StartsWith(base, "space-") && !StartsWith(base, "divide-") && !StartsWith(base, "ring");
    assert !StartsWith(base, "gap-x-") && !StartsWith(base, "gap-y-") by {
      assert "gap-x-"[3] == '-' && "gap-y-"[3] == '-';
    }
  }

  // ------------------------------------------------------------ falling through base_rules
  // `PastHead` … `PastDecoration` say that no branch of one stretch of
  // `base_rules` applies; a base that passes a stretch reaches the next.

  predicate PastHead(base: string)
  {
    base !in FontSizes && base !in FontWeights && !StartsWith(base, "text-") && !StartsWith(base, "bg-")
    && base != "border" && !StartsWith(base, "border-")
  }

  predicate PastBox(base: string)
  {
    base !in BorderRadius && base != "rounded-t-xl" && !StartsWith(base, "shadow") && !StartsWith(base, "ring")
    && SpacingPrefixFrom(base, 0).None?
  }

  predicate PastSize(base: string)
  {
    !StartsWith(base, "space-") && !StartsWith(base, "divide-") && !StartsWith(base, "gap")
    && !StartsWith(base, "w-") && !StartsWith(base, "h-") && !StartsWith(base, "min-w-")
    && !StartsWith(base, "min-h-") && !StartsWith(base, "max-w-") && !StartsWith(base, "max-h-")
  }

  predicate PastPlacement(base: string)
  {
    !StartsWith(base, "grid-cols-") && !StartsWith(base, "col-span-") && base !in DisplayMap
    && base !in Positions && base != "inset-0" && !StartsWith(base, "top-") && !StartsWith(base, "bottom-")
    && !StartsWith(base, "left-") && !StartsWith(base, "-mt-") && !StartsWith(base, "-translate-y-")
    && !StartsWith(base, "scale-") && !StartsWith(base, "opacity-")
  }

  predicate PastType(base: string)
  {
    !StartsWith(base, "leading-") && !StartsWith(base, "tracking-") && base !in TextTransforms
    && !StartsWith(base, "justify-") && !StartsWith(base, "items-")
    && base != "flex-row" && base != "flex-col" && base != "flex-nowrap" && base != "flex-wrap"
    && base != "flex-1" && base != "flex-grow" && base != "flex-shrink-0"
    && base != "self-center" && base != "self-start"
  }

  predicate PastOverflow(base: string)
  {
    base != "overflow-hidden" && base != "overflow-x-auto" && base != "overflow-y-auto"
    && base != "truncate" && base != "whitespace-nowrap"
    && !StartsWith(base, "transition") && !StartsWith(base, "duration-")
  }

  predicate PastDecoration(base: string)
  {
    base != "ease-in-out" && base != "cursor-pointer" && base != "cursor-not-allowed"
    && base != "underline" && base != "italic" && base != "font-mono" && base != "font-title"
    && base != "text-[10px]" && base != "pt-[100px]" && !StartsWith(base, "tracking-[") && !StartsWith(base, "z-")
    && base != "backdrop-blur-sm" && base != "appearance-none" && base != "outline-none"
    && base != "select-all" && base != "object-cover" && base != "object-contain"
    && base != "placeholder-gray-400" && base !in DropShadows
  }

  lemma HeadPasses(base: string, num: Numerics)
    requires PastHead(base)
    ensures BaseRules(base, num) == BoxRules(base, num)
  {
  }

  lemma BoxPasses(base: string, num: Numerics)
    requires PastBox(base)
    ensures BoxRules(base, num) == SizeRules(base, num)
  {
  }

  lemma SizePasses(base: string, num: Numerics)
    requires PastSize(base)
    ensures SizeRules(base, num) == PlacementRules(base, num)
  {
  }

  lemma PlacementPasses(base: string, num: Numerics)
    requires PastPlacement(base)
    ensures PlacementRules(base, num) == Ok(TypeRules(base))
  {
  }

  lemma TypePasses(base: string)
    requires PastType(base)
    ensures TypeRules(base) == OverflowRules(base)
  {
  }

  lemma OverflowPasses(base: string)
    requires PastOverflow(base)
    ensures OverflowRules(base) == DecorationRules(base)
  {
  }

  lemma DecorationPasses(base: string)
    requires PastDecoration(base)
    ensures DecorationRules(base) == EffectRules(base)
  {
  }

  /** A base whose first character is neither `p` nor `m` starts with no
      spacing prefix. */
  lemma SpacingInitial(base: string)
    requires base == [] || (base[0] != 'p' && base[0] != 'm')
    ensures SpacingPrefixFrom(base, 0).None?
  {
  }

  // The stretches a base passes because of its first one or two characters.

  lemma HeadByInitial(base: string)
    requires base == [] || (base[0] != 'b' && base[0] != 'f' && (base[0] == 't' ==> |base| >= 2 && base[1] != 'e'))
    ensures PastHead(base)
  {
  }

  lemma BoxByInitial(base: string)
    requires base == [] || (base[0] != 'p' && base[0] != 'm' && base[0] != 'r'
                            && (base[0] == 's' ==> |base| >= 2 && base[1] != 'h'))
    ensures PastBox(base)
  {
    SpacingInitial(base);
  }

  lemma SizeByInitial(base: string)
    requires base == [] || (base[0] != 's' && base[0] != 'd' && base[0] != 'w' && base[0] != 'h' && base[0] != 'm'
                            && (base[0] == 'g' ==> |base| >= 2 && base[1] != 'a'))
    ensures PastSize(base)
  {
  }

  lemma PlacementByInitial(base: string)
    requires base !in Positions
    requires base == [] || (base[0] != 'g' && base[0] != 'c' && base[0] != 'b' && base[0] != 'i' && base[0] != 'f'
                            && base[0] != 'h' && base[0] != 'l' && base[0] != 's' && base[0] != 'o' && base[0] != '-'
                            && (base[0] == 't' ==> |base| >= 2 && base[1] != 'o'))
    ensures PastPlacement(base)
  {
  }

  // ------------------------------------------------------------ families decided early

  lemma BackgroundNames(token: string)
    ensures var base := "bg-" + token;
      && base !in FontSizes && base !in FontWeights && !StartsWith(base, "text-")
      && StartsWith(base, "bg-") && base[3..] == token
  {
    var base := "bg-" + token;
    assert base[0] == 'b' && base[1] == 'g';
    assert base[..3] == "bg-";
  }

  /** Every `bg-T` is decided by the `bg-` branch: `cover`, `center`, or the
      background colour `T` resolves to (whose exception propagates). */
  lemma BackgroundDispatch(token: string, num: Numerics)
    ensures BaseRules("bg-" + token, num) ==
      if token == "cover" then Ok(Single(["background-size: cover"]))
      else if token == "center" then Ok(Single(["background-position: center"]))
      else ColorRules("", "background-color", ResolveColor(token, num))
  {
    BackgroundNames(token);
  }

  lemma BorderNames(base: string)
    requires StartsWith(base, "border-")
    ensures base !in FontSizes && base !in FontWeights && !StartsWith(base, "text-")
    ensures !StartsWith(base, "bg-") && base != "border"
  {
    assert base[0] == 'b' && base[1] == 'o' && |base| >= 7;
  }

  /** Every `border-…` class is decided by the `border-` branch. */
  lemma BorderDispatch(base: string, num: Numerics)
    requires StartsWith(base, "border-")
    ensures BaseRules(base, num) == BorderRules(base, num)
  {
    BorderNames(base);
  }

  /** `border-opacity-A` (with no `-` in `A`) sets `--tw-border-opacity` to
      the text of `float(A) / 100`, and raises ValueError when `float(A)` does. */
  lemma BorderOpacity(token: string, num: Numerics)
    requires '-' !in token
    ensures BorderRules("border-opacity-" + token, num) ==
      match num.floatPercent(token)
      case None => Failure("ValueError")
      case Some(opacity) => Ok(Single([Decl("--tw-border-opacity", opacity)]))
  {
    var base := "border-opacity-" + token;
    assert base[..7] == "border-" && base[..15] == "border-opacity-";
    assert base[7] == 'o';
    assert base == "border-opacity" + ['-'] + token;
    LastFieldAfter("border-opacity", '-', token);
  }

  lemma BorderColorNames(token: string)
    requires token !in {"2", "4", "none", "b", "t", "b-4", "t-4", "l-4"} && !StartsWith(token, "opacity-")
    ensures var base := "border-" + token;
      && base !in BorderWidths && base != "border-none" && base !in BorderEdges
      && !StartsWith(base, "border-opacity-") && base[7..] == token
  {
    var base := "border-" + token;
    assert base[7..] == token;
  }

  /** `border-2` and `border-4` are solid borders of that width, and
      `border-none` removes the border. */
  lemma BorderWidthRules(num: Numerics)
    ensures BorderRules("border-2", num) == Ok(Single(["border-width: 2px", "border-style: solid"]))
    ensures BorderRules("border-4", num) == Ok(Single(["border-width: 4px", "border-style: solid"]))
    ensures BorderRules("border-none", num) == Ok(Single(["border: none"]))
  {
    assert "border-2" in BorderWidths && BorderWidths["border-2"] == "2px";
    assert "border-4" in BorderWidths && BorderWidths["border-4"] == "4px";
    assert "border-none" !in BorderWidths;
    assert Decl("border-width", "2px") == "border-width: 2px";
    assert Decl("border-width", "4px") == "border-width: 4px";
  }

  /** `border-b` and `border-t` set one side's width to 1px, with a solid style. */
  lemma BorderEdgeRules(num: Numerics)
    ensures BorderRules("border-b", num) == Ok(Single(["border-bottom-width: 1px", "border-style: solid"]))
    ensures BorderRules("border-t", num) == Ok(Single(["border-top-width: 1px", "border-style: solid"]))
  {
    BorderEdgeNames("border-b");
    BorderEdgeNames("border-t");
    assert Decl("border-bottom-width", "1px") == "border-bottom-width: 1px";
    assert Decl("border-top-width", "1px") == "border-top-width: 1px";
  }

  /** The edge names ending in `-4` set one side's width to 4px, with a solid style. */
  lemma BorderThickEdgeRules(num: Numerics)
    ensures BorderRules("border-b-4", num) == Ok(Single(["border-bottom-width: 4px", "border-style: solid"]))
    ensures BorderRules("border-t-4", num) == Ok(Single(["border-top-width: 4px", "border-style: solid"]))
    ensures BorderRules("border-l-4", num) == Ok(Single(["border-left-width: 4px", "border-style: solid"]))
  {
    BorderEdgeNames("border-b-4");
    BorderEdgeNames("border-t-4");
    BorderEdgeNames("border-l-4");
    assert Decl("border-bottom-width", "4px") == "border-bottom-width: 4px";
    assert Decl("border-top-width", "4px") == "border-top-width: 4px";
    assert Decl("border-left-width", "4px") == "border-left-width: 4px";
  }

  lemma BorderEdgeNames(base: string)
    requires base in BorderEdges
    ensures StartsWith(base, "border-") && base !in BorderWidths && base != "border-none"
    ensures EndsWith(base, "-4") <==> base[|base| - 1] == '4'
  {
  }

  /** Any other `border-C` is the border colour `C` resolves to. */
  lemma BorderColor(token: string, num: Numerics)
    requires token !in {"2", "4", "none", "b", "t", "b-4", "t-4", "l-4"} && !StartsWith(token, "opacity-")
    ensures BorderRules("border-" + token, num) == ColorRules("", "border-color", ResolveColor(token, num))
  {
    BorderColorNames(token);
  }

  lemma RingNames(base: string)
    requires StartsWith(base, "ring")
    ensures base !in BorderRadius && base != "rounded-t-xl" && !StartsWith(base, "shadow")
  {
    assert base[0] == 'r' && base[1] == 'i';
  }

  /** Every `ring…` class is decided by the `ring` branch. */
  lemma RingDispatch(base: string, num: Numerics)
    requires StartsWith(base, "ring")
    ensures BaseRules(base, num) == RingRules(base, num)
  {
    assert base[0] == 'r' && base[1] == 'i';
    HeadByInitial(base);
    RingNames(base);
    HeadPasses(base, num);
  }

  /** `ring-2` is a 2px ring in the current colour and `ring-offset-2` a
      2px outline offset; neither resolves a colour, so neither raises. */
  lemma RingFixedRules(num: Numerics)
    ensures RingRules("ring-2", num) == Ok(Single(["box-shadow: 0 0 0 2px currentColor"]))
    ensures RingRules("ring-offset-2", num) == Ok(Single(["outline-offset: 2px"]))
  {
  }

  /** `ring-C` other than `ring-2` and `ring-offset-2` is a 2px ring in the
      colour `C` resolves to, or nothing when it resolves to nothing. */
  lemma RingColor(token: string, num: Numerics)
    requires token != "2" && token != "offset-2"
    ensures RingRules("ring-" + token, num) ==
      match ResolveColor(token, num)
      case Failure(e) => Failure(e)
      case Ok(color) =>
        Ok(if color.Some? && color.value != "" then Single(["box-shadow: 0 0 0 2px " + color.value]) else [])
  {
    var base := "ring-" + token;
    assert base[5..] == token;
    assert base != "ring-2" && base != "ring-offset-2" by {
      assert "ring-2"[5..] == "2" && "ring-offset-2"[5..] == "offset-2";
    }
    assert base == "ring" + ['-'] + token;
    SplitFirstAt("ring", '-', token);
  }

  /** Every `gap…` class is decided by the `gap` branch. */
  lemma GapDispatch(base: string, num: Numerics)
    requires StartsWith(base, "gap")
    ensures BaseRules(base, num) == GapRules(base)
  {
    assert base[0] == 'g' && base[1] == 'a';
    HeadByInitial(base);
    BoxByInitial(base);
    HeadPasses(base, num);
    BoxPasses(base, num);
  }

  /** `gap-x-T` sets the column gap and `gap-y-T` the row gap to the spacing
      value of `T`, when it is non-empty. */
  lemma GapAxis(axis: char, token: string)
    requires axis == 'x' || axis == 'y'
    ensures GapRules("gap-" + [axis] + "-" + token) ==
      Ok(WhenTruthy("", if axis == 'x' then "column-gap" else "row-gap", SpacingValue(token)))
  {
    var base := "gap-" + [axis] + "-" + token;
    assert base[6..] == token;
    if axis == 'x' {
      assert base[..6] == "gap-x-";
    } else {
      assert base[..6] == "gap-y-";
      assert base[4] != "gap-x-"[4];
    }
  }

  /** Any other `gap-T` sets both gaps to the spacing value of `T`. */
  lemma GapBoth(token: string)
    requires !StartsWith(token, "x-") && !StartsWith(token, "y-")
    ensures GapRules("gap-" + token) == Ok(WhenTruthy("", "gap", SpacingValue(token)))
  {
    var base := "gap-" + token;
    assert base[4..] == token;
    assert base == "gap" + ['-'] + token;
    SplitFirstAt("gap", '-', token);
  }

  /** Every `space-…` class is decided by `rules_for_space_between`. */
  lemma SpaceDispatch(base: string, num: Numerics)
    requires StartsWith(base, "space-")
    ensures BaseRules(base, num) == RulesForSpaceBetween(base)
  {
    assert base[0] == 's' && base[1] == 'p';
    HeadByInitial(base);
    BoxByInitial(base);
    HeadPasses(base, num);
    BoxPasses(base, num);
  }

  /** Every `divide-…` class is decided by `rules_for_divide`. */
  lemma DivideDispatch(base: string, num: Numerics)
    requires StartsWith(base, "divide-")
    ensures BaseRules(base, num) == RulesForDivide(base, num)
  {
    assert base[0] == 'd' && base[1] == 'i';
    HeadByInitial(base);
    BoxByInitial(base);
    HeadPasses(base, num);
    BoxPasses(base, num);
  }

  lemma OpacityNames(token: string)
    ensures var base := "opacity-" + token;
      && !StartsWith(base, "grid-cols-") && !StartsWith(base, "col-span-") && base !in DisplayMap
      && base !in Positions && base != "inset-0" && !StartsWith(base, "top-") && !StartsWith(base, "bottom-")
      && !StartsWith(base, "left-") && !StartsWith(base, "-mt-") && !StartsWith(base, "-translate-y-")
      && !StartsWith(base, "scale-") && StartsWith(base, "opacity-") && base[8..] == token
  {
    var base := "opacity-" + token;
    assert base[0] == 'o' && base[..8] == "opacity-";
  }

  lemma OpacityPlacement(token: string, num: Numerics)
    requires '-' !in token
    ensures PlacementRules("opacity-" + token, num) ==
      match num.intPercent(token)
      case None => Failure("ValueError")
      case Some(value) => Ok(Single([Decl("opacity", value)]))
  {
    OpacityNames(token);
  }

  /** `opacity-N` (with no `-` in `N`) sets `opacity` to the text of
      `int(N) / 100`, and raises ValueError when `int(N)` does. */
  lemma OpacityRule(token: string, num: Numerics)
    requires '-' !in token
    ensures BaseRules("opacity-" + token, num) ==
      match num.intPercent(token)
      case None => Failure("ValueError")
      case Some(value) => Ok(Single([Decl("opacity", value)]))
  {
    var base := "opacity-" + token;
    assert base[0] == 'o';
    HeadByInitial(base);
    BoxByInitial(base);
    SizeByInitial(base);
    HeadPasses(base, num);
    BoxPasses(base, num);
    SizePasses(base, num);
    OpacityPlacement(token, num);
  }

  lemma TrackingHead(v: string, num: Numerics)
    ensures BaseRules("tracking-[" + v + "]", num) == SizeRules("tracking-[" + v + "]", num)
  {
    var base := "tracking-[" + v + "]";
    assert base[0] == 't' && base[1] == 'r';
    HeadByInitial(base);
    BoxByInitial(base);
    HeadPasses(base, num);
    BoxPasses(base, num);
  }

  lemma TrackingPlacement(v: string, num: Numerics)
    ensures SizeRules("tracking-[" + v + "]", num) == Ok(TypeRules("tracking-[" + v + "]"))
  {
    var base := "tracking-[" + v + "]";
    assert base[0] == 't' && base[1] == 'r';
    SizeByInitial(base);
    PlacementByInitial(base);
    SizePasses(base, num);
    PlacementPasses(base, num);
  }

  lemma TrackingType(v: string)
    ensures TypeRules("tracking-[" + v + "]") == Single([Decl("letter-spacing", v)])
  {
    var base := "tracking-[" + v + "]";
    assert base[0] == 't' && base[9] == '[';
    assert base[..9] == "tracking-" && base[..10] == "tracking-[";
    assert base[10..] == v + "]";
  }

  /** `tracking-[v]` is decided by the `tracking-` branch (line 578), which
      gives `letter-spacing: v`; the later `tracking-[` branch (line 682)
      never decides anything. */
  lemma TrackingArbitraryDecidedEarly(v: string, num: Numerics)
    ensures BaseRules("tracking-[" + v + "]", num) == Ok(Single([Decl("letter-spacing", v)]))
  {
    TrackingHead(v, num);
    TrackingPlacement(v, num);
    TrackingType(v);
  }

  lemma GridColsPlacement(v: string, num: Numerics)
    ensures PlacementRules("grid-cols-[" + v + "]", num) == Ok(Single([Decl("grid-template-columns", v)]))
  {
    var base := "grid-cols-[" + v + "]";
    assert base[..10] == "grid-cols-" && base[10..] == "[" + v + "]";
    assert Inner("[" + v + "]") == v;
  }

  /** `grid-cols-[v]` is decided by the `grid-cols-` branch (line 503),
      which gives `grid-template-columns: v`; the later `grid-cols-[` branch
      (line 730) never decides anything. */
  lemma GridColsArbitraryDecidedEarly(v: string, num: Numerics)
    ensures BaseRules("grid-cols-[" + v + "]", num) == Ok(Single([Decl("grid-template-columns", v)]))
  {
    var base := "grid-cols-[" + v + "]";
    assert base[0] == 'g' && base[1] == 'r';
    HeadByInitial(base);
    BoxByInitial(base);
    SizeByInitial(base);
    HeadPasses(base, num);
    BoxPasses(base, num);
    SizePasses(base, num);
    GridColsPlacement(v, num);
  }

  // ------------------------------------------------------------ unrecognised names

  /** A first character that starts none of the prefixes and none of the
      names `base_rules` recognises, except the three names that start with
      `a` (`absolute`, `appearance-none`, `animate-spin`). */
  predicate QuietInitial(c: char)
  {
    c != '-' && c != 'b' && c != 'c' && c != 'd' && c != 'e' && c != 'f' && c != 'g' && c != 'h'
    && c != 'i' && c != 'j' && c != 'l' && c != 'm' && c != 'o' && c != 'p' && c != 'r'
    && c != 's' && c != 't' && c != 'u' && c != 'w' && c != 'z'
  }

  predicate Quiet(base: string)
  {
    base == [] || QuietInitial(base[0])
  }

  /** `s` starts with a `prefix` whose first character is not quiet. */
  lemma QuietNoPrefix(base: string, prefix: string)
    requires Quiet(base) && prefix != [] && !QuietInitial(prefix[0])
    ensures !StartsWith(base, prefix)
  {
  }

  lemma QuietTypeNames(base: string)
    requires Quiet(base)
    ensures PastType(base)
  {
    QuietNoPrefix(base, "leading-");
    QuietNoPrefix(base, "tracking-");
    QuietNoPrefix(base, "justify-");
    QuietNoPrefix(base, "items-");
    QuietNoPrefix(base, "flex-");
    QuietNoPrefix(base, "self-");
  }

  lemma QuietOverflowNames(base: string)
    requires Quiet(base)
    ensures PastOverflow(base)
  {
    QuietNoPrefix(base, "overflow-");
    QuietNoPrefix(base, "truncate");
    QuietNoPrefix(base, "whitespace-nowrap");
    QuietNoPrefix(base, "transition");
    QuietNoPrefix(base, "duration-");
  }

  lemma QuietDecorationNames(base: string)
    requires Quiet(base) && base != "appearance-none"
    ensures PastDecoration(base)
  {
    QuietNoPrefix(base, "ease-in-out");
    QuietNoPrefix(base, "cursor-");
    QuietNoPrefix(base, "underline");
    QuietNoPrefix(base, "italic");
    QuietNoPrefix(base, "font-");
    QuietNoPrefix(base, "text-[10px]");
    QuietNoPrefix(base, "pt-[100px]");
    QuietNoPrefix(base, "tracking-[");
    QuietNoPrefix(base, "z-");
    QuietNoPrefix(base, "backdrop-blur-sm");
    QuietNoPrefix(base, "outline-none");
    QuietNoPrefix(base, "select-all");
    QuietNoPrefix(base, "object-");
    QuietNoPrefix(base, "placeholder-gray-400");
    QuietNoPrefix(base, "drop-shadow");
  }

  /** A quiet base (other than the names starting with `a`) falls through
      every stretch of `base_rules` down to `EffectRules`. */
  lemma QuietFallsThrough(base: string, num: Numerics)
    requires Quiet(base) && base !in Positions && base != "appearance-none"
    ensures BaseRules(base, num) == Ok(EffectRules(base))
  {
    HeadByInitial(base);
    HeadPasses(base, num);
    BoxByInitial(base);
    BoxPasses(base, num);
    SizeByInitial(base);
    SizePasses(base, num);
    PlacementByInitial(base);
    PlacementPasses(base, num);
    QuietTypeNames(base);
    TypePasses(base);
    QuietOverflowNames(base);
    OverflowPasses(base);
    QuietDecorationNames(base);
    DecorationPasses(base);
  }

  lemma QuietEffectNames(base: string)
    requires Quiet(base)
    ensures base != "form-checkbox" && base != "form-radio" && base != "container" && base != "transform"
    ensures !StartsWith(base, "grid-cols-[")
  {
    QuietNoPrefix(base, "form-");
    QuietNoPrefix(base, "container");
    QuietNoPrefix(base, "transform");
    QuietNoPrefix(base, "grid-cols-[");
  }

  /** A base whose first character starts no utility (such as `nav-item`,
      `x-cloak` or `key`), or the empty base, gives no rules and appends
      nothing to `EXTRA_RULES`. */
  lemma UnrecognisedGivesNothing(base: string, num: Numerics)
    requires base == [] || (QuietInitial(base[0]) && base[0] != 'a')
    ensures BaseRules(base, num) == Ok([]) && ExtraRulesOf(base) == []
  {
    assert base !in Positions && base != "appearance-none" && base != "animate-spin" by {
      if base != [] {
        assert "absolute"[0] == "appearance-none"[0] == "animate-spin"[0] == 'a';
      }
    }
    QuietFallsThrough(base, num);
    QuietEffectNames(base);
  }

  /** `animate-spin` reaches its own branch: one rule, the spin animation,
      and (in `ExtraRulesOf`) the keyframes it appends to `EXTRA_RULES`. */
  lemma AnimateSpinRule(base: string, num: Numerics)
    requires base == "animate-spin"
    ensures BaseRules(base, num) == Ok(Single(["animation: tailwind-spin 1s linear infinite"]))
    ensures ExtraRulesOf(base) == [SpinKeyframes]
  {
    assert Quiet(base) by {
      assert base[0] == 'a';
    }
    assert base !in Positions && base != "appearance-none" by {
      assert base[1] == 'n';
    }
    QuietFallsThrough(base, num);
  }
}
