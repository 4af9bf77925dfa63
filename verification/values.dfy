/** Turning the value part of a utility class into a CSS value:
    `spacing_value`, `with_alpha` and `resolve_color`, over the
    `SPACING_SCALE` and `COLOR_PALETTE` tables. */
module Values {
  import opened Wrappers
  import opened PyStr

  /** Python's floating-point text, which the model does not compute:
      `floatPercent(t)` is the text of `float(t) / 100` (None when `float(t)`
      raises ValueError), `intPercent(t)` the text of `int(t) / 100` (None
      when `int(t)` raises ValueError). */
  datatype Numerics = Numerics(floatPercent: string -> Option<string>, intPercent: string -> Option<string>)

  /** `SPACING_SCALE` */
  const SpacingScale: map<string, string> := map[
    "0" := "0rem", "0.5" := "0.125rem", "1" := "0.25rem", "1.5" := "0.375rem", "2" := "0.5rem",
    "2.5" := "0.625rem", "3" := "0.75rem", "3.5" := "0.875rem", "4" := "1rem", "5" := "1.25rem",
    "6" := "1.5rem", "7" := "1.75rem", "8" := "2rem", "9" := "2.25rem", "10" := "2.5rem",
    "11" := "2.75rem", "12" := "3rem", "14" := "3.5rem", "16" := "4rem", "20" := "5rem",
    "24" := "6rem", "28" := "7rem", "32" := "8rem", "40" := "10rem", "60" := "15rem"]

  /** `COLOR_PALETTE`: palette name to shade to colour. */
  const Palette: map<string, map<string, string>> := map[
    "black" := map["base" := "#000000"],
    "white" := map["base" := "#ffffff"],
    "transparent" := map["base" := "transparent"],
    "blue" := map["400" := "#60a5fa", "500" := "#3b82f6", "600" := "#2563eb", "700" := "#1d4ed8", "900" := "#1e3a8a"],
    "emerald" := map["300" := "#6ee7b7", "400" := "#34d399"],
    "gray" := map["50" := "#f9fafb", "100" := "#f3f4f6", "200" := "#e5e7eb", "300" := "#d1d5db", "400" := "#9ca3af",
                  "500" := "#6b7280", "600" := "#4b5563", "700" := "#374151", "800" := "#1f2937", "900" := "#111827"],
    "green" := map["400" := "#4ade80", "500" := "#22c55e", "600" := "#16a34a", "700" := "#15803d", "900" := "#14532d"],
    "indigo" := map["400" := "#818cf8", "500" := "#6366f1", "600" := "#4f46e5", "700" := "#4338ca", "900" := "#312e81"],
    "orange" := map["50" := "#fff7ed", "600" := "#ea580c"],
    "purple" := map["400" := "#c084fc", "500" := "#a855f7", "600" := "#9333ea", "700" := "#7e22ce", "900" := "#581c87"],
    "red" := map["100" := "#fee2e2", "200" := "#fecaca", "300" := "#fca5a5", "400" := "#f87171", "500" := "#ef4444",
                 "600" := "#dc2626", "700" := "#b91c1c", "900" := "#7f1d1d"],
    "slate" := map["100" := "#e2e8f0", "200" := "#cbd5f5", "300" := "#94a3b8", "400" := "#94a3b8", "600" := "#475569",
                   "700" := "#334155", "800" := "#1e293b", "900" := "#0f172a", "950" := "#020617"],
    "yellow" := map["200" := "#fef08a", "300" := "#fde047", "400" := "#facc15", "500" := "#eab308", "600" := "#ca8a04",
                    "700" := "#a16207", "900" := "#713f12"],
    "cyan" := map["200" := "#a5f3fc", "400" := "#22d3ee"],
    "accent-yellow" := map["base" := "#facc15"],
    "card-dark" := map["base" := "#1f2937"],
    "secondary-green" := map["base" := "#10b981"],
    "danger-red" := map["base" := "#ef4444"]]

  // ---------------------------------------------------------------- spacing

  /** `spacing_value`: an arbitrary `[v]` gives `v`, `px` gives `1px`, any
      other token its `SPACING_SCALE` entry, or nothing. */
  function SpacingValue(token: string): (r: Option<string>)
    ensures Bracketed(token) ==> r == Some(Inner(token))
    ensures !Bracketed(token) && token == "px" ==> r == Some("1px")
    ensures !Bracketed(token) && token != "px" ==>
      (r.Some? <==> token in SpacingScale) && (r.Some? ==> r.value == SpacingScale[token])
  {
    if Bracketed(token) then Some(Inner(token))
    else if token == "px" then Some("1px")
    else if token in SpacingScale then Some(SpacingScale[token])
    else None
  }

  /** Wrapping any value in brackets and resolving it gives the value back. */
  lemma SpacingValueArbitrary(v: string)
    ensures SpacingValue("[" + v + "]") == Some(v)
  {
    var t := "[" + v + "]";
    assert Bracketed(t) by {
      assert t[|t| - 1..] == "]";
    }
    assert Inner(t) == v;
  }

  // ---------------------------------------------------------------- with_alpha

  predicate IsHexDigit(c: char)
  {
    '0' <= c <= '9' || 'a' <= c <= 'f' || 'A' <= c <= 'F'
  }

  function HexDigit(c: char): (d: nat)
    requires IsHexDigit(c)
    ensures d < 16
  {
    if '0' <= c <= '9' then (c - '0') as nat
    else if 'a' <= c <= 'f' then (c - 'a') as nat + 10
    else (c - 'A') as nat + 10
  }

  predicate AllHex(t: string)
  {
    forall i :: 0 <= i < |t| ==> IsHexDigit(t[i])
  }

  /** The value of a string of hex digits, most significant first. */
  function HexValue(t: string): nat
    requires AllHex(t)
  {
    if t == [] then 0 else 16 * HexValue(t[..|t| - 1]) + HexDigit(t[|t| - 1])
  }

  lemma HexValuePair(a: char, b: char)
    requires IsHexDigit(a) && IsHexDigit(b)
    ensures AllHex([a, b]) && HexValue([a, b]) == 16 * HexDigit(a) + HexDigit(b)
  {
    assert [a, b][..1] == [a];
    assert [a][..0] == [];
    assert HexValue([a]) == HexDigit(a);
    assert HexValue([a, b]) == 16 * HexValue([a]) + HexDigit(b);
  }

  /** `int(t, 16)` on the texts `with_alpha` can slice out of a palette
      colour; None stands for the ValueError (an empty text or a non-hex
      character). At most two digits give at most 255. */
  function ParseHex(t: string): (r: Option<nat>)
    ensures r.Some? <==> t != [] && AllHex(t)
    ensures r.Some? && |t| <= 2 ==> r.value < 256
  {
    if t != [] && AllHex(t) then
      assert |t| <= 2 ==> HexValue(t) < 256 by {
        if |t| == 2 {
          assert t == [t[0], t[1]];
          HexValuePair(t[0], t[1]);
        }
      }
      Some(HexValue(t))
    else None
  }

  /** `n` copies of `#`. */
  function Hashes(n: nat): (r: string)
    ensures |r| == n
  {
    if n == 0 then [] else ['#'] + Hashes(n - 1)
  }

  lemma HashesCons(n: nat, r: string)
    ensures ['#'] + (Hashes(n) + r) == Hashes(n + 1) + r
  {
  }

  /** `s.lstrip("#")`: `s` without its leading run of `#`. */
  function StripHashes(s: string): (r: string)
    ensures r == [] || r[0] != '#'
    ensures |r| <= |s| && s == Hashes(|s| - |r|) + r
  {
    if s != [] && s[0] == '#' then
      var r := StripHashes(s[1..]);
      HashesCons(|s| - 1 - |r|, r);
      assert s == ['#'] + s[1..];
      r
    else
      assert Hashes(0) + s == s;
      s
  }

  /** A three-digit colour with each digit doubled; any other text unchanged. */
  function Expand(h: string): (r: string)
    ensures |h| == 3 ==> r == [h[0], h[0], h[1], h[1], h[2], h[2]]
    ensures |h| != 3 ==> r == h
  {
    if |h| == 3 then [h[0], h[0], h[1], h[1], h[2], h[2]] else h
  }

  /** `s[i:j]` (clamped to the string, as Python slicing is). */
  function Slice(s: string, i: nat, j: nat): string
  {
    var hi := if j <= |s| then j else |s|;
    var lo := if i <= hi then i else hi;
    s[lo..hi]
  }

  /** The red, green and blue channels `with_alpha` reads from consecutive
      hex pairs, or None where one of its `int(..., 16)` calls raises. */
  function Channels(hex: string): (r: Option<(nat, nat, nat)>)
    ensures r.Some? ==> r.value.0 < 256 && r.value.1 < 256 && r.value.2 < 256
  {
    var h := Expand(StripHashes(hex));
    var red, green, blue := ParseHex(Slice(h, 0, 2)), ParseHex(Slice(h, 2, 4)), ParseHex(Slice(h, 4, 6));
    if red.Some? && green.Some? && blue.Some? then Some((red.value, green.value, blue.value)) else None
  }

  /** `with_alpha(hex_value, alpha)`, with the alpha given as its text. */
  function WithAlpha(hex: string, alpha: string): (r: Result<string>)
    ensures r.Failure? <==> Channels(hex).None?
  {
    match Channels(hex)
    case None => Failure("ValueError")
    case Some(c) => Ok(Rgba(c, alpha))
  }

  /** The text `rgba(r, g, b, alpha)` `with_alpha` returns: the three
      channels in decimal, then the alpha text as given. */
  function Rgba(c: (nat, nat, nat), alpha: string): (r: string)
    ensures StartsWith(r, "rgba(" + Decimal(c.0) + ", ")
    ensures EndsWith(r, ", " + Decimal(c.2) + ", " + alpha + ")")
  {
    "rgba(" + Decimal(c.0) + ", " + Decimal(c.1) + ", " + Decimal(c.2) + ", " + alpha + ")"
  }

  /** The whole `rgba` text: the three channels in decimal and the alpha,
      joined by `, ` inside `rgba(…)`. */
  lemma RgbaText(c: (nat, nat, nat), alpha: string)
    ensures Rgba(c, alpha) == "rgba(" + Join([Decimal(c.0), Decimal(c.1), Decimal(c.2), alpha], ", ") + ")"
  {
    JoinFour(Decimal(c.0), Decimal(c.1), Decimal(c.2), alpha, ", ");
  }

  /** A hex digit for a value below 16. */
  function HexChar(d: nat): (c: char)
    requires d < 16
    ensures IsHexDigit(c) && HexDigit(c) == d
  {
    if d < 10 then '0' + d as char else 'a' + (d - 10) as char
  }

  /** The two-digit hex text of a channel. */
  function HexPair(n: nat): string
    requires n < 256
  {
    [HexChar(n / 16), HexChar(n % 16)]
  }

  lemma HexPairValue(n: nat)
    requires n < 256
    ensures ParseHex(HexPair(n)) == Some(n)
  {
    HexValuePair(HexChar(n / 16), HexChar(n % 16));
  }

  /** One leading `#` before text that does not start with one is removed. */
  lemma StripOneHash(h: string)
    requires h == [] || h[0] != '#'
    ensures StripHashes("#" + h) == h
  {
    assert ("#" + h)[1..] == h;
  }

  /** Writing three channels as `#rrggbb` and reading them back gives the
      same channels. */
  lemma ChannelsRoundTrip(red: nat, green: nat, blue: nat)
    requires red < 256 && green < 256 && blue < 256
    ensures Channels("#" + HexPair(red) + HexPair(green) + HexPair(blue)) == Some((red, green, blue))
  {
    var h := HexPair(red) + HexPair(green) + HexPair(blue);
    var s := "#" + h;
    assert "#" + HexPair(red) + HexPair(green) + HexPair(blue) == s;
    assert |h| == 6 && Expand(h) == h;
    StripOneHash(h);
    assert Slice(h, 0, 2) == HexPair(red);
    assert Slice(h, 2, 4) == HexPair(green);
    assert Slice(h, 4, 6) == HexPair(blue);
    HexPairValue(red);
    HexPairValue(green);
    HexPairValue(blue);
  }

  /** A three-digit colour `#xyz` reads as `#xxyyzz`: each channel is its
      digit doubled, that is seventeen times the digit. */
  lemma ShortHexChannels(x: char, y: char, z: char)
    requires IsHexDigit(x) && IsHexDigit(y) && IsHexDigit(z)
    ensures Channels("#" + [x, y, z]) == Channels("#" + [x, x, y, y, z, z])
    ensures Channels("#" + [x, y, z]) == Some((17 * HexDigit(x), 17 * HexDigit(y), 17 * HexDigit(z)))
  {
    var short, long := [x, y, z], [x, x, y, y, z, z];
    assert ("#" + short)[1..] == short;
    assert ("#" + long)[1..] == long;
    assert StripHashes("#" + short) == short;
    assert StripHashes("#" + long) == long;
    assert Expand(short) == long;
    assert Slice(long, 0, 2) == [x, x];
    assert Slice(long, 2, 4) == [y, y];
    assert Slice(long, 4, 6) == [z, z];
    HexValuePair(x, x);
    HexValuePair(y, y);
    HexValuePair(z, z);
  }

  // ---------------------------------------------------------------- resolve_color

  /** `palette.get(shade) or palette.get("base")`: the shade, falling back to
      `base` when the shade is missing (or empty). */
  function ShadeOrBase(palette: map<string, string>, shade: string): (r: Option<string>)
    ensures r.Some? ==> r.value in palette.Values
    ensures shade in palette && palette[shade] != "" ==> r == Some(palette[shade])
    ensures !(shade in palette && palette[shade] != "") && "base" in palette ==> r == Some(palette["base"])
    ensures r.None? <==> !(shade in palette && palette[shade] != "") && "base" !in palette
  {
    if shade in palette && palette[shade] != "" then Some(palette[shade])
    else if "base" in palette then Some(palette["base"])
    else None
  }

  /** The palette lookup of `resolve_color`: a palette name that has a `base`
      entry gives it; otherwise the text is split at its first `-` into a
      palette name and a shade (`base` when there is no `-`). */
  function PaletteColor(colorPart: string): (r: Option<string>)
    ensures colorPart in Palette && "base" in Palette[colorPart] ==> r == Some(Palette[colorPart]["base"])
    ensures r.Some? ==> exists name :: name in Palette && r.value in Palette[name].Values
  {
    if colorPart in Palette && "base" in Palette[colorPart] then Some(Palette[colorPart]["base"])
    else
      var (name, shade) :=
        match SplitFirst(colorPart, '-')
        case Some(parts) => parts
        case None => (colorPart, "base");
      if name !in Palette || |Palette[name]| == 0 then None
      else ShadeOrBase(Palette[name], shade)
  }

  /** `resolve_color(token)`: Ok(None) where the source returns None, a
      Failure where `with_alpha` raises (a non-hex colour with an alpha). */
  function ResolveColor(token: string, num: Numerics): (r: Result<Option<string>>)
    ensures '/' !in token ==> r.Ok?
    ensures r.Failure? ==> '/' in token && !Bracketed(token)
  {
    if Bracketed(token) then Ok(Some(Inner(token)))
    else if token == "transparent" || token == "current" then Ok(Some(token))
    else
      var (colorPart, alphaPart) := Partition(token, '/');
      var alpha := if alphaPart != "" then num.floatPercent(alphaPart) else None;
      var baseColor := PaletteColor(colorPart);
      if baseColor.None? || baseColor.value == "" then Ok(None)
      else if alpha.Some? then
        match WithAlpha(baseColor.value, alpha.value)
        case Ok(c) => Ok(Some(c))
        case Failure(e) => Failure(e)
      else Ok(Some(baseColor.value))
  }

  /** Every colour in the palette is non-empty. */
  lemma PaletteNonEmpty(name: string, shade: string)
    requires name in Palette && shade in Palette[name]
    ensures Palette[name][shade] != ""
  {
  }

  /** Without an alpha, a token that is neither bracketed nor a keyword
      resolves to its palette colour. */
  lemma ResolveNoAlpha(token: string, num: Numerics)
    requires '/' !in token && !Bracketed(token) && token != "transparent" && token != "current"
    ensures ResolveColor(token, num) ==
      Ok(if PaletteColor(token).Some? && PaletteColor(token).value != "" then PaletteColor(token) else None)
  {
    assert Partition(token, '/') == (token, "");
  }

  /** Palette names start with a lower-case letter and hold no `/`. */
  lemma PaletteName(name: string)
    requires name in Palette
    ensures name != [] && 'a' <= name[0] <= 'z' && '/' !in name
  {
  }

  /** An arbitrary colour `[v]` resolves to `v`, with or without a `/`. */
  lemma ResolveArbitrary(v: string, num: Numerics)
    ensures ResolveColor("[" + v + "]", num) == Ok(Some(v))
  {
    var t := "[" + v + "]";
    assert Bracketed(t) by {
      assert t[|t| - 1..] == "]";
    }
    assert Inner(t) == v;
  }

  /** `transparent` and `current` are returned verbatim. */
  lemma ResolveKeyword(token: string, num: Numerics)
    requires token == "transparent" || token == "current"
    ensures ResolveColor(token, num) == Ok(Some(token))
  {
  }

  /** Without an alpha, a palette name with a `base` entry resolves to it. */
  lemma ResolvePaletteBase(name: string, num: Numerics)
    requires name in Palette && "base" in Palette[name]
    ensures ResolveColor(name, num) == Ok(Some(Palette[name]["base"]))
  {
    PaletteName(name);
    PaletteNonEmpty(name, "base");
    if name != "transparent" {
      ResolveNoAlpha(name, num);
    }
  }

  /** Without an alpha, `name-shade` (where `name` has no `-` and
      `name-shade` is not itself a palette name with a `base`) resolves to
      the shade, falling back to the palette's `base`, and to nothing when
      the palette has neither. */
  lemma ResolveShade(name: string, shade: string, num: Numerics)
    requires name in Palette && '-' !in name && '/' !in shade
    requires var t := name + "-" + shade; !(t in Palette && "base" in Palette[t])
    ensures var r := ResolveColor(name + "-" + shade, num);
      && (shade in Palette[name] ==> r == Ok(Some(Palette[name][shade])))
      && (shade !in Palette[name] && "base" in Palette[name] ==> r == Ok(Some(Palette[name]["base"])))
      && (shade !in Palette[name] && "base" !in Palette[name] ==> r == Ok(None))
  {
    var t := name + "-" + shade;
    PaletteName(name);
    assert t[0] != '[' by {
      assert t[0] == name[0];
    }
    assert '/' !in t;
    assert t != "transparent" && t != "current" by {
      assert t[|name|] == '-';
      assert '-' !in name;
    }
    ResolveNoAlpha(t, num);
    SplitFirstAt(name, '-', shade);
    assert PaletteColor(t) == (if |Palette[name]| == 0 then None else ShadeOrBase(Palette[name], shade));
    if shade in Palette[name] {
      PaletteNonEmpty(name, shade);
    }
    if "base" in Palette[name] {
      PaletteNonEmpty(name, "base");
    }
  }

  /** Without an alpha, a token that is not bracketed, not a keyword and not
      a palette name with a `base`, and whose part before the first `-` names
      no palette, resolves to nothing. */
  lemma ResolveUnknown(token: string, num: Numerics)
    requires '/' !in token && !Bracketed(token) && token != "transparent" && token != "current"
    requires !(token in Palette && "base" in Palette[token])
    requires (match SplitFirst(token, '-') case Some(parts) => parts.0 case None => token) !in Palette
    ensures ResolveColor(token, num) == Ok(None)
  {
    assert Partition(token, '/') == (token, "");
  }

  /** With an alpha `a` that parses, a colour resolves to `with_alpha` of its
      palette colour. */
  lemma ResolveAlpha(color: string, alpha: string, num: Numerics)
    requires '/' !in color && color != [] && color[0] != '[' && alpha != ""
    requires num.floatPercent(alpha).Some?
    ensures var base := PaletteColor(color);
      ResolveColor(color + "/" + alpha, num) ==
        if base.None? || base.value == "" then Ok(None)
        else match WithAlpha(base.value, num.floatPercent(alpha).value)
          case Ok(c) => Ok(Some(c))
          case Failure(e) => Failure(e)
  {
    var t := color + "/" + alpha;
    assert t[0] == color[0];
    assert t != "transparent" && t != "current" by {
      assert t[|color|] == '/';
    }
    SplitFirstAt(color, '/', alpha);
    assert color + "/" + alpha == color + ['/'] + alpha;
  }

  lemma RedShade()
    ensures PaletteColor("red-500") == Some("#ef4444")
  {
    RedShadeNotAName();
    SplitFirstAt("red", '-', "500");
    assert "red-500" == "red" + ['-'] + "500";
    RedPalette();
  }

  lemma RedShadeNotAName()
    ensures "red-500" !in Palette
  {
  }

  lemma RedPalette()
    ensures "red" in Palette && "500" in Palette["red"] && Palette["red"]["500"] == "#ef4444"
  {
  }

  lemma RedChannels()
    ensures Channels("#ef4444") == Some((239, 68, 68))
  {
    var h := "ef4444";
    assert StripHashes("#ef4444") == h by {
      assert "#ef4444"[1..] == h;
    }
    assert Slice(h, 0, 2) == ['e', 'f'] && Slice(h, 2, 4) == ['4', '4'] && Slice(h, 4, 6) == ['4', '4'];
    HexValuePair('e', 'f');
    HexValuePair('4', '4');
  }

  /** A palette shade with an alpha becomes `rgba(...)` of its channels:
      `red-500/50` gives `rgba(239, 68, 68, 0.5)`. */
  lemma ResolveWithAlpha(num: Numerics)
    requires num.floatPercent("50").Some?
    ensures ResolveColor("red-500/50", num) == Ok(Some(Rgba((239, 68, 68), num.floatPercent("50").value)))
  {
    assert "red-500" + "/" + "50" == "red-500/50";
    ResolveAlpha("red-500", "50", num);
    RedShade();
    RedChannels();
  }

  /** `transparent` with an alpha raises: its palette entry is not a hex colour,
      so `with_alpha` cannot read its channels (the class `bg-transparent/50`
      stops the build). */
  lemma TransparentWithAlphaRaises(num: Numerics)
    requires num.floatPercent("50").Some?
    ensures ResolveColor("transparent/50", num).Failure?
  {
    assert "transparent" + "/" + "50" == "transparent/50";
    ResolveAlpha("transparent", "50", num);
    TransparentEntry();
  }

  lemma TransparentEntry()
    ensures PaletteColor("transparent") == Some("transparent")
    ensures Channels("transparent").None?
  {
    assert StripHashes("transparent") == "transparent";
    assert Slice("transparent", 0, 2) == ['t', 'r'];
    assert !IsHexDigit('t');
  }
}
