/** The generator's lookup tables: utility name (or value token) to CSS value. */
module Tables {

  /** `FONT_SIZES`: class to (font size, line height). */
  const FontSizes: map<string, (string, string)> := map[
    "text-xs" := ("0.75rem", "1rem"),
    "text-sm" := ("0.875rem", "1.25rem"),
    "text-base" := ("1rem", "1.5rem"),
    "text-lg" := ("1.125rem", "1.75rem"),
    "text-xl" := ("1.25rem", "1.75rem"),
    "text-2xl" := ("1.5rem", "2rem"),
    "text-3xl" := ("1.875rem", "2.25rem"),
    "text-4xl" := ("2.25rem", "2.5rem"),
    "text-5xl" := ("3rem", "1"),
    "text-6xl" := ("3.75rem", "1"),
    "text-7xl" := ("4.5rem", "1"),
    "text-8xl" := ("6rem", "1")]

  /** `FONT_WEIGHTS` */
  const FontWeights: map<string, string> := map[
    "font-thin" := "100",
    "font-extralight" := "200",
    "font-light" := "300",
    "font-normal" := "400",
    "font-medium" := "500",
    "font-semibold" := "600",
    "font-bold" := "700",
    "font-extrabold" := "800",
    "font-black" := "900"]

  /** `BORDER_RADIUS` */
  const BorderRadius: map<string, string> := map[
    "rounded" := "0.25rem",
    "rounded-sm" := "0.125rem",
    "rounded-md" := "0.375rem",
    "rounded-lg" := "0.5rem",
    "rounded-xl" := "0.75rem",
    "rounded-2xl" := "1rem",
    "rounded-3xl" := "1.5rem",
    "rounded-full" := "9999px"]

  /** `SHADOWS` */
  const Shadows: map<string, string> := map[
    "shadow-sm" := "0 1px 2px 0 rgba(0,0,0,0.05)",
    "shadow" := "0 1px 3px 0 rgba(0,0,0,0.1),0 1px 2px 0 rgba(0,0,0,0.06)",
    "shadow-md" := "0 4px 6px -1px rgba(0,0,0,0.1),0 2px 4px -1px rgba(0,0,0,0.06)",
    "shadow-lg" := "0 10px 15px -3px rgba(0,0,0,0.1),0 4px 6px -2px rgba(0,0,0,0.05)",
    "shadow-xl" := "0 20px 25px -5px rgba(0,0,0,0.1),0 10px 10px -5px rgba(0,0,0,0.04)",
    "shadow-2xl" := "0 25px 50px -12px rgba(0,0,0,0.25)",
    "shadow-inner" := "inset 0 2px 4px 0 rgba(0,0,0,0.06)"]

  /** `LETTER_SPACING` */
  const LetterSpacing: map<string, string> := map[
    "tracking-tight" := "-0.05em",
    "tracking-normal" := "0em",
    "tracking-wide" := "0.05em",
    "tracking-wider" := "0.1em"]

  /** `WIDTH_MAP` */
  const WidthMap: map<string, string> := map[
    "full" := "100%",
    "auto" := "auto",
    "1/2" := "50%",
    "1/3" := "33.333333%",
    "4" := "1rem",
    "5" := "1.25rem",
    "8" := "2rem",
    "10" := "2.5rem",
    "12" := "3rem",
    "14" := "3.5rem",
    "16" := "4rem",
    "60" := "15rem"]

  /** `HEIGHT_MAP` */
  const HeightMap: map<string, string> := map[
    "full" := "100%",
    "auto" := "auto",
    "screen" := "100vh",
    "4" := "1rem",
    "5" := "1.25rem",
    "8" := "2rem",
    "10" := "2.5rem",
    "12" := "3rem",
    "14" := "3.5rem",
    "16" := "4rem",
    "20" := "5rem",
    "40" := "10rem"]

  /** `MAX_WIDTH_MAP` */
  const MaxWidthMap: map<string, string> := map[
    "xs" := "20rem",
    "sm" := "24rem",
    "md" := "28rem",
    "lg" := "32rem",
    "xl" := "36rem",
    "2xl" := "42rem",
    "3xl" := "48rem",
    "4xl" := "56rem",
    "5xl" := "64rem",
    "6xl" := "72rem",
    "7xl" := "80rem"]

  /** `DROP_SHADOWS` */
  const DropShadows: map<string, string> := map[
    "drop-shadow" := "drop-shadow(0 1px 1px rgba(0,0,0,0.05))",
    "drop-shadow-md" := "drop-shadow(0 4px 3px rgba(0,0,0,0.1))",
    "drop-shadow-lg" := "drop-shadow(0 10px 8px rgba(0,0,0,0.1))",
    "drop-shadow-xl" := "drop-shadow(0 25px 25px rgba(0,0,0,0.15))"]

  /** `RESPONSIVE_BREAKPOINTS`: variant prefix to minimum viewport width. */
  const Breakpoints: map<string, string> := map[
    "sm" := "640px",
    "md" := "768px",
    "lg" := "1024px",
    "xl" := "1280px",
    "2xl" := "1536px"]

  /** `PSEUDO_PREFIXES`: variant prefix to pseudo-class. */
  const PseudoPrefixes: map<string, string> := map[
    "hover" := ":hover",
    "focus" := ":focus",
    "active" := ":active",
    "disabled" := ":disabled"]

  /** The `props_map` of `rules_for_spacing`: spacing prefix to the CSS
      properties it sets. */
  const SpacingProps: map<string, seq<string>> := map[
    "p" := ["padding"],
    "px" := ["padding-left", "padding-right"],
    "py" := ["padding-top", "padding-bottom"],
    "pt" := ["padding-top"],
    "pb" := ["padding-bottom"],
    "pl" := ["padding-left"],
    "pr" := ["padding-right"],
    "m" := ["margin"],
    "mx" := ["margin-left", "margin-right"],
    "my" := ["margin-top", "margin-bottom"],
    "mt" := ["margin-top"],
    "mb" := ["margin-bottom"],
    "ml" := ["margin-left"],
    "mr" := ["margin-right"]]

  /** The spacing prefixes in the order `base_rules` tries them. */
  const SpacingPrefixes: seq<string> :=
    ["p", "px", "py", "pt", "pb", "pl", "pr", "m", "mx", "my", "mt", "mb", "ml", "mr"]

  /** The `alignments` of the `text-` branch. */
  const TextAlignments: map<string, string> := map[
    "text-left" := "left", "text-center" := "center", "text-right" := "right"]

  /** The `simple` widths of the `border-` branch. */
  const BorderWidths: map<string, string> := map[
    "border" := "1px", "border-2" := "2px", "border-4" := "4px"]

  /** The `edges` of the `border-` branch. */
  const BorderEdges: map<string, string> := map[
    "border-b" := "border-bottom-width",
    "border-t" := "border-top-width",
    "border-b-4" := "border-bottom-width",
    "border-t-4" := "border-top-width",
    "border-l-4" := "border-left-width"]

  /** The `display_map` of `base_rules`. */
  const DisplayMap: map<string, string> := map[
    "block" := "block",
    "inline-block" := "inline-block",
    "inline" := "inline",
    "flex" := "flex",
    "inline-flex" := "inline-flex",
    "grid" := "grid",
    "hidden" := "none"]

  /** The position utilities. */
  const Positions: set<string> := {"absolute", "relative", "fixed", "sticky"}

  /** The `values` of the `leading-` branch. */
  const Leading: map<string, string> := map["none" := "1", "tight" := "1.25", "relaxed" := "1.625"]

  /** The text-transform utilities. */
  const TextTransforms: set<string> := {"uppercase", "lowercase", "capitalize"}

  /** The `mapping` of the `justify-` branch. */
  const Justify: map<string, string> := map[
    "center" := "center", "between" := "space-between", "start" := "flex-start", "end" := "flex-end"]

  /** The `mapping` of the `items-` branch. */
  const Items: map<string, string> := map["center" := "center", "start" := "flex-start", "end" := "flex-end"]
}
