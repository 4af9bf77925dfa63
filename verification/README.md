# A verified model of the local Tailwind CSS generator

`scripts/build_local_tailwind.py` builds a small Tailwind-style stylesheet. It
collects the class names used in the site's `class="…"` attributes. It maps
each name to CSS rules through a table-driven, first-match-wins dispatch
(`base_rules`). It then writes the rules of all classes, in sorted class
order, followed by the extra rules that `base_rules` appended to the global
`EXTRA_RULES` list.

This project models that pipeline in Dafny and proves what it promises:

- `tables.dfy` (module `Tables`): the lookup tables, transcribed as `map`
  and `set` constants.
- `wrappers.dfy` (`Wrappers`): `Option` and `Result`. `Result.Failure`
  stands for an exception the source lets escape, such as IndexError from
  `split(...)[k]` or ValueError from `int(...)`.
- `pystr.dfy` (`PyStr`): the Python string operations used, such as
  `startswith`, `split(c, 1)`, `partition`, `join` and whitespace splitting.
- `escape.dfy` (`Escape`): `escape_class`, its replace loop as a method,
  and the per-character specification it meets.
- `values.dfy` (`Values`): `spacing_value`, `with_alpha` and
  `resolve_color`, over `SPACING_SCALE` and `COLOR_PALETTE`.
- `rules.dfy` (`Rules`): `RuleSpec`, `rules_for_spacing`,
  `rules_for_space_between`, `rules_for_divide` and `base_rules`.
  - `base_rules` is written as a chain of functions, one per stretch of the
    source. Each family is tried in source order.
  - A name that no family recognises gives `Ok([])`.
  - `ExtraRulesOf` is what a base appends to `EXTRA_RULES`.
- `tokens.dfy` (`ClassTokens`): the token part of `parse_class_tokens`.
  It keeps the valid tokens in a set and sorts them with an insertion
  method. The result is proved strictly increasing and to hold exactly the
  valid tokens.
- `build.dfy` (`Build`): the loop of `build_css`, in class `Generator`.
  - The class's field `extraRules` is `EXTRA_RULES`.
  - The methods split each class at its first `:`, apply `base_rules` with
    its side effect, skip classes without rules, and render each `RuleSpec`
    as a selector, declarations and an optional media query.
  - The output is related to the specification functions `Generated`
    (the rules of the classes in order) and `Extras` (what the classes
    append).

Python's floating-point parsing and formatting is not computed. A value of
type `Values.Numerics` stands for it:

- `floatPercent(t)` is the text of `float(t) / 100`, or None when `float`
  raises;
- `intPercent(t)` is the text of `int(t) / 100`, or None when `int` raises.

Every operation that needs these values takes `Numerics` as a parameter.

Four branches of `base_rules` can never decide anything, because an
earlier branch decides every name they would match. The model proves it
for all four:

- The `text-[10px]` branch (line 676) is shadowed by the earlier `text-`
  branch, so `text-[10px]` gives `color: 10px` (`Rules.TextArbitraryIsColor`).
- The `pt-[100px]` branch (line 679) is shadowed by the spacing loop
  (`Rules.SpacingDispatch`, `Rules.PaddingTopArbitrary`).
- The `tracking-[` branch (line 682) is shadowed by the `tracking-` branch
  at line 575, which gives the same `letter-spacing: v`
  (`Rules.TrackingArbitraryDecidedEarly`).
- The `grid-cols-[` branch (line 730) is shadowed by the `grid-cols-`
  branch at line 503, which gives the same `grid-template-columns: v`
  (`Rules.GridColsArbitraryDecidedEarly`).

All four are modelled as written.

## Model

| member | source | states |
|---|---|---|
| Escape.ReplacementsTable | scripts/build_local_tailwind.py:209-221 | Each replacement is two backslashes followed by its own target. No target is a backslash, and no target appears twice. The eleven targets are exactly the special characters. |
| Escape.ReplaceStep | scripts/build_local_tailwind.py:222-224 | One `str.replace` on a name whose earlier targets are already escaped equals escaping one more character. No replacement text holds a later target, so the sequential loop equals a per-character map. |
| Escape.EscapeClass | scripts/build_local_tailwind.py:208-225 | The replace loop returns `Escaped(name)`: each special character becomes two backslashes and itself, and every other character is kept. |
| Escape.EscapedLength | scripts/build_local_tailwind.py:208-225 | The escaped length is the name's length plus twice its number of special characters. |
| Escape.EscapedAppend | scripts/build_local_tailwind.py:208-225 | Escaping a concatenation is the concatenation of the escapes. |
| Escape.UnescapeEscaped | scripts/build_local_tailwind.py:208-225 | For a name without a backslash, removing the inserted backslash pairs gives the name back. |
| Escape.EscapedInjective | scripts/build_local_tailwind.py:208-225 | Distinct names without backslashes get distinct selectors. |
| Values.SpacingValue | scripts/build_local_tailwind.py:268-273 | `[v]` gives `v` and `px` gives `1px`. Any other token gives its `SPACING_SCALE` entry, and nothing exactly when it has none. |
| Values.SpacingValueArbitrary | scripts/build_local_tailwind.py:269-270 | An arbitrary `[v]` always gives `v`. |
| Values.StripHashes | scripts/build_local_tailwind.py:229 | `lstrip("#")` removes exactly the leading run of `#`: the input is some number of `#` followed by the result, and the result does not start with `#`. |
| Values.Expand | scripts/build_local_tailwind.py:230-231 | A 3-digit hex has each digit doubled; any other length is unchanged. |
| Values.ParseHex | scripts/build_local_tailwind.py:232-234 | `int(t, 16)` succeeds exactly on non-empty hex-digit text, and a value of at most two digits is below 256. |
| Values.HexPairValue | scripts/build_local_tailwind.py:232-234 | Reading back the two-digit hex of any byte gives that byte. |
| Values.Channels | scripts/build_local_tailwind.py:228-234 | Each of the three channels lies in 0..255. |
| Values.ChannelsRoundTrip | scripts/build_local_tailwind.py:228-234 | `#rrggbb` built from three bytes parses to exactly those bytes. |
| Values.ShortHexChannels | scripts/build_local_tailwind.py:230-234 | `#xyz` reads the same channels as `#xxyyzz`, namely 17 times each digit. |
| Values.Rgba | scripts/build_local_tailwind.py:235 | The text starts with `rgba(` and the red channel in decimal, and ends with the blue channel, the alpha text as given and `)`. |
| Values.RgbaText | scripts/build_local_tailwind.py:235 | The whole text: `rgba(` followed by the red, green and blue channels in decimal and the alpha text as given, joined by `, `, then `)`. |
| Values.WithAlpha | scripts/build_local_tailwind.py:228-235 | `with_alpha` raises ValueError exactly when the channels cannot be read. |
| Values.ShadeOrBase | scripts/build_local_tailwind.py:262 | `palette.get(shade) or palette.get("base")`: the shade when it is present and non-empty, else the `base` entry, and nothing exactly when neither is available. Any result is a value of the palette. |
| Values.PaletteColor | scripts/build_local_tailwind.py:249-262 | A palette name with a `base` entry gives that entry. Any colour found is a value of some palette in `COLOR_PALETTE`. |
| Values.ResolveColor | scripts/build_local_tailwind.py:238-265 | A token without `/` never raises. Raising needs a `/` in a token that is not bracketed. |
| Values.ResolveArbitrary | scripts/build_local_tailwind.py:239-240 | `[v]` resolves to `v`. |
| Values.ResolveKeyword | scripts/build_local_tailwind.py:241-242 | `transparent` and `current` resolve to themselves. |
| Values.ResolvePaletteBase | scripts/build_local_tailwind.py:249-250 | A palette name with a `base` entry resolves to that entry. |
| Values.ResolveShade | scripts/build_local_tailwind.py:251-262 | `name-shade` resolves to the shade's colour. Failing that it falls back to the palette's `base`, and with neither it resolves to nothing. |
| Values.ResolveUnknown | scripts/build_local_tailwind.py:251-258 | A token whose palette name is unknown resolves to nothing. |
| Values.ResolveNoAlpha | scripts/build_local_tailwind.py:243-265 | Without an alpha part, the result is the palette colour when it exists and is non-empty, and nothing otherwise. |
| Values.ResolveAlpha | scripts/build_local_tailwind.py:243-264 | With a parsable alpha, the palette colour goes through `with_alpha`, and its ValueError propagates. |
| Values.PaletteNonEmpty | scripts/build_local_tailwind.py:108-139 | Every palette entry is non-empty. |
| Values.RedShade | scripts/build_local_tailwind.py:251-258 | `red-500` resolves to `#ef4444`. |
| Values.ResolveWithAlpha | scripts/build_local_tailwind.py:238-265 | `red-500/50` gives `rgba(239, 68, 68, α)`, where α is the text of `float("50") / 100`. |
| Values.TransparentWithAlphaRaises | scripts/build_local_tailwind.py:238-265 | `transparent/50` raises ValueError, because `with_alpha` reads `tr` as hex. |
| Rules.SpacingOrAuto | scripts/build_local_tailwind.py:313-316 | `auto` stands for itself and every other token goes through `spacing_value`. |
| Rules.RulesForSpacing | scripts/build_local_tailwind.py:295-319 | The result is empty exactly when the value (`auto`, or `spacing_value`) is missing. Otherwise it is one rule with an empty suffix, holding one `prop: value` declaration per property of the prefix, in order. |
| Rules.SpacingPropsShape | scripts/build_local_tailwind.py:296-311 | Every spacing prefix sets one or two properties. |
| Rules.PaddingX4 | scripts/build_local_tailwind.py:295-319 | `px-4` gives `padding-left: 1rem` and `padding-right: 1rem`. |
| Rules.RulesForSpaceBetween | scripts/build_local_tailwind.py:322-328 | At most one rule, with declarations and a known suffix. |
| Rules.SpaceBetweenAxis | scripts/build_local_tailwind.py:322-328 | `space-y-t` sets `margin-top` and `space-x-t` sets `margin-left`, to `spacing_value(t)`, on the sibling selector. |
| Rules.SpaceWithoutValueRaises | scripts/build_local_tailwind.py:324 | `space-x` raises IndexError. |
| Rules.RulesForDivide | scripts/build_local_tailwind.py:331-341 | At most one rule. `divide-y` gives the top-border rule on the sibling selector. |
| Rules.DivideColor | scripts/build_local_tailwind.py:336-340 | Any other `divide-t` is a `border-color` rule when `t` resolves to a colour. |
| Rules.FontSizeDecls | scripts/build_local_tailwind.py:347-350 | The font size comes first, then the line height, which is omitted when it is `"1"`. |
| Rules.FontSizeRule | scripts/build_local_tailwind.py:346-352 | A font-size class gives exactly that one rule. |
| Rules.FontWeightRule | scripts/build_local_tailwind.py:353-355 | A font-weight class sets `font-weight` to the table's value. |
| Rules.TextAlignment | scripts/build_local_tailwind.py:356-360 | `text-left`, `text-center` and `text-right` give `text-align`, taking precedence over colour. |
| Rules.TextColor | scripts/build_local_tailwind.py:356-364 | Any other `text-t` (not a size) is a `color` rule for `resolve_color(t)`. |
| Rules.TextFamilyDecides | scripts/build_local_tailwind.py:346-364 | Every `text-` class is decided by the font-size table or by the `text-` branch, so no later branch sees it. |
| Rules.TextArbitraryIsColor | scripts/build_local_tailwind.py:356-364 | `text-[v]` gives `color: v`, so the `text-[10px]` branch at line 676 is dead. |
| Rules.TextRules | scripts/build_local_tailwind.py:356-364 | At most one well-formed rule. |
| Rules.BackgroundRules | scripts/build_local_tailwind.py:365-375 | At most one well-formed rule. |
| Rules.BackgroundDispatch | scripts/build_local_tailwind.py:365-375 | Every `bg-t` reaches the `bg-` branch. `cover` and `center` give their rules. Any other `t` gives `background-color` of `resolve_color(t)`, whose exception propagates. |
| Rules.BorderRules | scripts/build_local_tailwind.py:379-405 | At most one well-formed rule. |
| Rules.BareBorderRule | scripts/build_local_tailwind.py:376-378 | A bare `border` is a solid 1px border. |
| Rules.BorderDispatch | scripts/build_local_tailwind.py:376-405 | Every `border-` class reaches the `border-` branch. |
| Rules.BorderWidthRules | scripts/build_local_tailwind.py:380-386 | `border-2` and `border-4` are solid borders of 2px and 4px, and `border-none` gives `border: none`. |
| Rules.BorderEdgeRules | scripts/build_local_tailwind.py:387-397 | `border-b` and `border-t` set the bottom and top width to 1px, with a solid style. |
| Rules.BorderThickEdgeRules | scripts/build_local_tailwind.py:387-397 | `border-b-4`, `border-t-4` and `border-l-4` set that side's width to 4px, with a solid style. |
| Rules.BorderOpacity | scripts/build_local_tailwind.py:398-401 | `border-opacity-a` (no `-` in `a`) sets `--tw-border-opacity` to the text of `float(a) / 100`, and raises ValueError when `float(a)` does. |
| Rules.BorderColor | scripts/build_local_tailwind.py:402-405 | Any `border-c` that is not a width, `none`, an edge or an opacity gives `border-color` of `resolve_color(c)`. |
| Rules.ArbitraryValue | scripts/build_local_tailwind.py:192 | A match of `ARBITRARY_VALUE_RE` has a non-empty value without `]`. |
| Rules.ArbitraryShadow | scripts/build_local_tailwind.py:415-418 | `shadow-[v]` matches with value `v`. |
| Rules.ShadowRules | scripts/build_local_tailwind.py:412-419 | At most one well-formed rule. |
| Rules.RingRules | scripts/build_local_tailwind.py:420-430 | At most one well-formed rule when it does not raise. |
| Rules.RingDispatch | scripts/build_local_tailwind.py:420-430 | Every `ring` class reaches the `ring` branch. |
| Rules.RingFixedRules | scripts/build_local_tailwind.py:421-424 | `ring-2` is a 2px ring in `currentColor` and `ring-offset-2` a 2px outline offset; neither raises. |
| Rules.RingColor | scripts/build_local_tailwind.py:425-429 | `ring-c`, other than `ring-2` and `ring-offset-2`, is a 2px `box-shadow` ring in the colour `resolve_color(c)`. It gives nothing when there is no colour, and the exception propagates. |
| Rules.SpacingPrefixFrom | scripts/build_local_tailwind.py:431-432 | The loop finds a prefix `p` with the base starting `p-`. When it finds none, no later prefix matches. |
| Rules.SpacingDispatch | scripts/build_local_tailwind.py:431-435 | `prefix-token` is decided by the spacing branch, with `rules_for_spacing(prefix, token)`. |
| Rules.PaddingTopArbitrary | scripts/build_local_tailwind.py:679-681 | `pt-[v]` already gives `padding-top: v` in the spacing branch, so the `pt-[100px]` branch is dead. |
| Rules.SpaceDispatch | scripts/build_local_tailwind.py:436-438 | Every `space-` class reaches `rules_for_space_between`, so `SpaceBetweenAxis` and `SpaceWithoutValueRaises` give its output. |
| Rules.DivideDispatch | scripts/build_local_tailwind.py:439-441 | Every `divide-` class reaches `rules_for_divide`, so `divide-y` and `DivideColor` give its output. |
| Rules.GapDispatch | scripts/build_local_tailwind.py:442-458 | Every `gap` class reaches the `gap` branch. |
| Rules.GapAxis | scripts/build_local_tailwind.py:443-452 | `gap-x-t` sets `column-gap` and `gap-y-t` sets `row-gap` to `spacing_value(t)`, when that is non-empty. |
| Rules.GapBoth | scripts/build_local_tailwind.py:453-457 | Any other `gap-t` sets `gap` to `spacing_value(t)`, when that is non-empty. |
| Rules.GapRules | scripts/build_local_tailwind.py:442-458 | At most one well-formed rule when it does not raise. |
| Rules.BaseRules | scripts/build_local_tailwind.py:344-733 | At most two rules, each with declarations and a known suffix. Two rules come only from `self-start`. Only the `text-`, `bg-`, `border-`, `ring`, `space-`, `divide-`, `gap` and `opacity-` families can raise. |
| Rules.BoxRules | scripts/build_local_tailwind.py:406-435 | The same bounds, for the branches from the border radii on. |
| Rules.SizeRules | scripts/build_local_tailwind.py:436-502 | The same bounds, for the branches from `space-` on. |
| Rules.PlacementRules | scripts/build_local_tailwind.py:503-567 | The same bounds, for the branches from `grid-cols-` on. Only `opacity-` can raise. |
| Rules.TypeRules | scripts/build_local_tailwind.py:568-597 | At most two well-formed rules, two only for `self-start`. |
| Rules.FlexRules | scripts/build_local_tailwind.py:598-625 | At most two well-formed rules, two only for `self-start`. |
| Rules.OverflowRules | scripts/build_local_tailwind.py:626-640 | At most one well-formed rule. |
| Rules.MotionRules | scripts/build_local_tailwind.py:641-654 | At most one well-formed rule. |
| Rules.DecorationRules | scripts/build_local_tailwind.py:655-689 | At most one well-formed rule. |
| Rules.WidgetRules | scripts/build_local_tailwind.py:690-713 | At most one well-formed rule. |
| Rules.EffectRules | scripts/build_local_tailwind.py:714-733 | At most one well-formed rule. |
| Rules.OpacityRule | scripts/build_local_tailwind.py:564-567 | `opacity-n` (no `-` in `n`) sets `opacity` to the text of `int(n) / 100`, and raises ValueError when `int(n)` does. |
| Rules.TrackingArbitraryDecidedEarly | scripts/build_local_tailwind.py:575-580 | `tracking-[v]` gives `letter-spacing: v` from the `tracking-` branch, so the later `tracking-[` branch (line 682) is dead. |
| Rules.GridColsArbitraryDecidedEarly | scripts/build_local_tailwind.py:503-509 | `grid-cols-[v]` gives `grid-template-columns: v` from the `grid-cols-` branch, so the later `grid-cols-[` branch (line 730) is dead. |
| Rules.DashlessRingRaises | scripts/build_local_tailwind.py:420-430 | A `ring` class without `-`, such as `ring`, raises IndexError. |
| Rules.DashlessGapRaises | scripts/build_local_tailwind.py:442-458 | A `gap` class without `-` raises IndexError. |
| Rules.UnrecognisedGivesNothing | scripts/build_local_tailwind.py:344-733 | A name whose first character starts no recognised name or prefix yields no rules and appends nothing to `EXTRA_RULES`. |
| Rules.OnlySpinAppends | scripts/build_local_tailwind.py:714-717 | A base appends to `EXTRA_RULES` exactly when it is `animate-spin`, and then only the spin keyframes. |
| Rules.AnimateSpinRule | scripts/build_local_tailwind.py:714-717 | `animate-spin` gives the spin animation rule and appends the keyframes to `EXTRA_RULES`. |
| ClassTokens.ValidClassPlain | scripts/build_local_tailwind.py:15 | A valid class holds no backslash and no whitespace. |
| PyStr.Words | scripts/build_local_tailwind.py:288 | The tokens of an attribute are non-empty and free of whitespace. Together they are exactly its non-whitespace characters, in order. |
| PyStr.WordsJoin | scripts/build_local_tailwind.py:288 | Non-empty whitespace-free words joined by single spaces split back into exactly those words, so each token is a maximal run, not a finer piece. |
| ClassTokens.Kept | scripts/build_local_tailwind.py:288-290 | A token is kept exactly when it is non-empty and valid. |
| ClassTokens.ClassSetMembers | scripts/build_local_tailwind.py:276-291 | A name is collected exactly when it is valid and is a whitespace-separated token of some attribute. |
| ClassTokens.StrLessTotal | scripts/build_local_tailwind.py:292 | Python's string order is total. |
| ClassTokens.StrLessTransitive | scripts/build_local_tailwind.py:292 | Python's string order is transitive. |
| ClassTokens.SortedUnique | scripts/build_local_tailwind.py:292 | Two strictly increasing lists of the same names are equal, so `sorted` of a set has one result. |
| ClassTokens.Insert | scripts/build_local_tailwind.py:292 | Inserting a new name keeps the list strictly increasing and adds exactly that name. |
| ClassTokens.Sorted | scripts/build_local_tailwind.py:292 | The result is strictly increasing and holds exactly the names of the set. |
| ClassTokens.ParseClassTokens | scripts/build_local_tailwind.py:276-292 | The classes are strictly increasing (sorted, no duplicates). They are exactly the collected set, and all are valid. |
| Build.SplitClass | scripts/build_local_tailwind.py:740-743 | Without `:` the prefix is None and the base is the class. Otherwise the split is at the first `:` only. |
| Build.SplitAtFirstColon | scripts/build_local_tailwind.py:741 | `p:b` with no `:` in `p` splits into `p` and `b`, even when `b` holds more `:`. |
| Build.PseudoOf | scripts/build_local_tailwind.py:747 | The pseudo-class of a known pseudo prefix, and nothing for any other prefix. |
| Build.MediaOf | scripts/build_local_tailwind.py:748 | A width exactly for breakpoint prefixes. |
| Build.BreakpointWidths | scripts/build_local_tailwind.py:17-23 | Every breakpoint width is non-empty, so `if media` holds exactly for breakpoints. |
| Build.MediaIffBreakpoint | scripts/build_local_tailwind.py:748-755 | A rule is wrapped in `@media (min-width: W) {…}` exactly when the prefix is a breakpoint. Otherwise it is the plain rule. |
| Build.UnknownPrefix | scripts/build_local_tailwind.py:747-755 | An unknown prefix adds neither a pseudo-class nor a media wrapper. |
| Build.PseudoPrefix | scripts/build_local_tailwind.py:747-753 | A pseudo prefix adds its pseudo-class right after the escaped selector. |
| Build.PlainRule | scripts/build_local_tailwind.py:749-753 | The rule starts with `.`, the escaped class, the pseudo-class, the suffix and ` {`. |
| Build.RuleText | scripts/build_local_tailwind.py:749-755 | Without a breakpoint prefix, the rule is the plain rule. |
| Build.ClassRules | scripts/build_local_tailwind.py:750-756 | There is exactly one rule per `RuleSpec`, the k-th rule being the text of the k-th spec. |
| Build.ExtrasAreSpin | scripts/build_local_tailwind.py:714-717 | The extra rules are copies of the spin keyframes. They are present exactly when some class has the base `animate-spin`. |
| Build.GeneratedAppend | scripts/build_local_tailwind.py:739-756 | The output of two class lists is the first's output followed by the second's, and the first exception wins. |
| Build.GeneratedInClassOrder | scripts/build_local_tailwind.py:739-756 | In a successful run, a class's rules come after those of the classes before it and before those of the classes after it. |
| Build.SkippedClass | scripts/build_local_tailwind.py:744-746 | A class whose base yields no rules contributes nothing. |
| Build.Advance | scripts/build_local_tailwind.py:739-756 | One loop step extends the output with the class's rules. When the class raises, that exception is the whole result. |
| Build.FailureStops | scripts/build_local_tailwind.py:744 | Once a class raises, no later class changes the result. |
| PyStr.LastFieldAfter | scripts/build_local_tailwind.py:399 | `split("-")[-1]` of a text ending in `-t`, with no `-` in `t`, is `t`. |
| Build.Generator.constructor | scripts/build_local_tailwind.py:199 | `EXTRA_RULES` starts empty. |
| Build.Generator.ApplyBaseRules | scripts/build_local_tailwind.py:714-717 | Returns `base_rules(base)` and appends to `EXTRA_RULES` exactly what that base appends. |
| Build.Generator.RenderClass | scripts/build_local_tailwind.py:747-756 | The inner loop produces `ClassRules`, one rule text per spec in order. |
| Build.Generator.AddClass | scripts/build_local_tailwind.py:740-756 | One class's contribution, or its exception, together with its effect on `EXTRA_RULES`. |
| Build.Generator.GenerateAll | scripts/build_local_tailwind.py:739-758 | The result is the rules of all classes in order followed by `EXTRA_RULES`, or the first exception. `EXTRA_RULES` grows by what the classes append. |
| Build.Generator.BuildCss | scripts/build_local_tailwind.py:736-758 | The classes are the sorted, duplicate-free valid tokens. The output is their rules in that order followed by the extra rules, or the first exception. |

## Left out

- The raffle reservation, payment, webhook and referral logic is not part of this model; no source for it is present.
- File input is left out: the glob over `**/*.html`, the `EXCLUDE_PARTS` filter, `read_text` and the `class="([^"]+)"` regex (lines 279-287). `ParseClassTokens` takes the attribute texts as a parameter.
- File output is left out: `mkdir`, `write_text` and the closing `print` (lines 757, 759-760). `BuildCss` returns the list of rule strings instead of writing them joined by newlines.
- Floating-point parsing and formatting is not computed. This covers the alpha in `resolve_color`/`with_alpha`, `border-opacity-`, `scale-` and `opacity-`. They appear through the `Numerics` parameter, whose `None` is the ValueError.
- Values.ParseHex: `int(t, 16)` is modelled on plain hex-digit text only. Python's acceptance of signs, surrounding whitespace, underscores and a `0x` prefix is not modelled; no palette value holds any of them.
- The regular expressions are modelled as predicates. `VALID_CLASS` is a character-set predicate. `ARBITRARY_VALUE_RE` is a check for a lower-case prefix and a bracketed value, including the newline that `$` allows.
- Build.Generator.BuildCss: `base_rules` is passed as a ghost function `rulesOf` that agrees with `Rules.BaseRules`, so that the output can be stated in terms of it. The method itself calls `Rules.BaseRules`.
- Rules.UnrecognisedGivesNothing: proved only for names whose first character starts no recognised name or prefix. An unrecognised name that shares a first character with a recognised one (such as `text-` names that resolve to no colour, or `w-` names outside `WIDTH_MAP`) has no lemma of its own.
- Rules.BaseRules: its contract bounds the shape of the result and which families can raise. Lemmas give the exact output through `base_rules` for these families only: font sizes, font weights, `text-` (alignments, colours, `text-[v]`), `bg-`, bare `border`, `border-` (widths, `none`, edges, opacity, colours), `ring` (`ring-2`, `ring-offset-2`, colours, and names without `-`), the spacing prefixes, `space-`, `divide-`, `gap` (and `gap` without `-`), `opacity-`, `tracking-[v]`, `grid-cols-[v]`, `animate-spin`, and names with a quiet first character. All other families are covered only by the shape bounds of the chain functions, listed one by one below.
- Rules.BorderRules: its own contract bounds only the shape. The exact output of every case is stated by `BorderWidthRules`, `BorderEdgeRules`, `BorderThickEdgeRules`, `BorderOpacity` and `BorderColor`.
- Rules.RingRules: its own contract bounds only the shape. The exact output of every case is stated by `RingFixedRules`, `RingColor` and `DashlessRingRaises`.
- Rules.ShadowRules: the named shadows (`SHADOWS`) have no output lemma; only `shadow-[v]` is covered, through `ArbitraryShadow`.
- Rules.BoxRules: shape only for the border radii, `rounded-t-xl` and named shadows; the rings and spacing prefixes have output lemmas.
- Rules.SizeRules: shape only for `w-`, `h-`, `min-w-`, `min-h-`, `max-w-` and `max-h-`; `space-`, `divide-` and `gap` have output lemmas.
- Rules.PlacementRules: shape only for named `grid-cols-`, `col-span-`, the display and position names, `inset-0`, `top-`/`bottom-`/`left-`, `-mt-`, `-translate-y-` and `scale-`; `grid-cols-[v]` and `opacity-` have output lemmas.
- Rules.TypeRules: shape only for `leading-`, named `tracking-`, the text transforms, `justify-` and `items-`; `tracking-[v]` has an output lemma.
- Rules.FlexRules: shape only for the `flex-` and `self-` names.
- Rules.OverflowRules: shape only for the `overflow` names, `truncate` and `whitespace-nowrap`.
- Rules.MotionRules: shape only for `transition` and `duration-`.
- Rules.DecorationRules: shape only for `ease-in-out`, the cursors, `underline`, `italic`, the two font families and `z-`; its dead `text-[10px]`, `pt-[100px]` and `tracking-[` branches are covered by `TextArbitraryIsColor`, `PaddingTopArbitrary` and `TrackingArbitraryDecidedEarly`.
- Rules.WidgetRules: shape only for `backdrop-blur-sm`, `appearance-none`, `outline-none`, `select-all`, the `object-` names, `placeholder-gray-400` and the drop shadows.
- Rules.EffectRules: shape only for `form-checkbox`, `form-radio`, `container` and `transform`; `animate-spin` has an output lemma, and the dead `grid-cols-[` branch is covered by `GridColsArbitraryDecidedEarly`.
