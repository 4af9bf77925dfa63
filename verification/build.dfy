/** `build_css`: every class becomes the CSS rules of its base, each rule
    carrying the class's escaped selector, its pseudo-class and, for a
    breakpoint prefix, a media query; the rules of all classes in order are
    followed by the extra rules (`EXTRA_RULES`). */
module Build {
  import opened Wrappers
  import opened PyStr
  import opened Escape
  import opened Values
  import opened Tables
  import opened Rules
  import opened ClassTokens

  // ------------------------------------------------------------ one class

  /** `cls.split(':', 1)`, or `(None, cls)` when the class has no `:`: the
      variant prefix and the base, split at the first `:` only. */
  function SplitClass(cls: string): (r: (Option<string>, string))
    ensures ':' !in cls ==> r == (None, cls)
    ensures ':' in cls ==> r.0.Some? && cls == r.0.value + ":" + r.1 && ':' !in r.0.value
  {
    match SplitFirst(cls, ':')
    case None => (None, cls)
    case Some(parts) => (Some(parts.0), parts.1)
  }

  /** A class `p:b` with no `:` in `p` has prefix `p` and base `b`, even when
      `b` holds more `:`. */
  lemma SplitAtFirstColon(p: string, b: string)
    requires ':' !in p
    ensures SplitClass(p + ":" + b) == (Some(p), b)
  {
    assert p + ":" + b == p + [':'] + b;
    SplitFirstAt(p, ':', b);
  }

  /** `PSEUDO_PREFIXES.get(prefix)`, `''` standing for None. */
  function PseudoOf(prefix: Option<string>): (r: string)
    ensures prefix.Some? && prefix.value in PseudoPrefixes ==> r == PseudoPrefixes[prefix.value]
    ensures !(prefix.Some? && prefix.value in PseudoPrefixes) ==> r == ""
  {
    if prefix.Some? && prefix.value in PseudoPrefixes then PseudoPrefixes[prefix.value] else ""
  }

  /** `RESPONSIVE_BREAKPOINTS.get(prefix)` */
  function MediaOf(prefix: Option<string>): (r: Option<string>)
    ensures r.Some? <==> prefix.Some? && prefix.value in Breakpoints
    ensures r.Some? ==> r.value == Breakpoints[prefix.value]
  {
    if prefix.Some? && prefix.value in Breakpoints then Some(Breakpoints[prefix.value]) else None
  }

  /** The rule text without a media query:
      `.ESCAPED` + pseudo-class + suffix + ` {` + declarations joined by `; ` + `}`. */
  function PlainRule(cls: string, pseudo: string, spec: RuleSpec): (r: string)
    ensures StartsWith(r, "." + Escaped(cls) + pseudo + spec.selectorSuffix + " {")
  {
    "." + Escaped(cls) + pseudo + spec.selectorSuffix + " {" + Join(spec.declarations, "; ") + "}"
  }

  /** The text of the rule one `RuleSpec` of class `cls` (with variant
      `prefix`) becomes: the plain rule, wrapped in
      `@media (min-width: W) {…}` when the media width is non-empty. */
  function RuleText(cls: string, prefix: Option<string>, spec: RuleSpec): (r: string)
    ensures !(prefix.Some? && prefix.value in Breakpoints) ==> r == PlainRule(cls, PseudoOf(prefix), spec)
  {
    var rule := PlainRule(cls, PseudoOf(prefix), spec);
    var media := MediaOf(prefix);
    if media.Some? && media.value != "" then "@media (min-width: " + media.value + ") {" + rule + "}"
    else rule
  }

  /** The rules one class contributes when its base yields `specs`: exactly
      one rule per `RuleSpec`, the `k`-th rule being the text of the `k`-th
      spec under the class's variant prefix. */
  function ClassRules(cls: string, specs: seq<RuleSpec>): (r: seq<string>)
    ensures |r| == |specs|
    ensures forall k :: 0 <= k < |specs| ==> r[k] == RuleText(cls, SplitClass(cls).0, specs[k])
  {
    if specs == [] then []
    else
      var init := specs[..|specs| - 1];
      var r := ClassRules(cls, init) + [RuleText(cls, SplitClass(cls).0, specs[|specs| - 1])];
      assert forall k :: 0 <= k < |init| ==> init[k] == specs[k];
      r
  }

  /** The breakpoint widths are non-empty. */
  lemma BreakpointWidths(p: string)
    requires p in Breakpoints
    ensures Breakpoints[p] != ""
  {
  }

  /** A rule is wrapped in a media query exactly when the class's prefix is
      a responsive breakpoint; the plain rule starts with `.`. */
  lemma MediaIffBreakpoint(cls: string, prefix: Option<string>, spec: RuleSpec)
    ensures var text := RuleText(cls, prefix, spec);
      (StartsWith(text, "@media (min-width: ") <==> prefix.Some? && prefix.value in Breakpoints)
      && (prefix.Some? && prefix.value in Breakpoints ==>
            text == "@media (min-width: " + Breakpoints[prefix.value] + ") {"
                    + PlainRule(cls, PseudoOf(prefix), spec) + "}")
      && (!(prefix.Some? && prefix.value in Breakpoints) ==> text == PlainRule(cls, PseudoOf(prefix), spec))
  {
    var plain := PlainRule(cls, PseudoOf(prefix), spec);
    var text := RuleText(cls, prefix, spec);
    assert plain[0] == '.';
    if prefix.Some? && prefix.value in Breakpoints {
      BreakpointWidths(prefix.value);
      var w := Breakpoints[prefix.value];
      assert text == "@media (min-width: " + (w + ") {" + plain + "}");
    } else {
      assert text == plain;
      assert "@media (min-width: "[0] == '@';
    }
  }

  /** A class whose prefix is neither a pseudo-class nor a breakpoint (an
      unknown variant such as `print:`) gets the plain rule of its escaped
      name, with no pseudo-class and no media query. */
  lemma UnknownPrefix(cls: string, p: string, spec: RuleSpec)
    requires p !in PseudoPrefixes && p !in Breakpoints
    ensures RuleText(cls, Some(p), spec) ==
      "." + Escaped(cls) + spec.selectorSuffix + " {" + Join(spec.declarations, "; ") + "}"
  {
    assert "." + Escaped(cls) + "" == "." + Escaped(cls);
  }

  /** A pseudo-class prefix (`hover:` and the like) adds the pseudo-class
      right after the escaped name, and no media query. */
  lemma PseudoPrefix(cls: string, p: string, spec: RuleSpec)
    requires p in PseudoPrefixes
    ensures RuleText(cls, Some(p), spec) ==
      "." + Escaped(cls) + PseudoPrefixes[p] + spec.selectorSuffix + " {" + Join(spec.declarations, "; ") + "}"
  {
    assert p !in Breakpoints;
  }

  // ------------------------------------------------------------ all classes

  /** `base_rules` as a function of the base, for a fixed numeric parser. */
  function BaseRulesOf(num: Numerics): string -> Result<seq<RuleSpec>>
  {
    base => BaseRules(base, num)
  }

  /** One class's contribution: one rule per `RuleSpec` of its base, or the
      exception its base raises. */
  function ClassOutput(cls: string, rulesOf: string -> Result<seq<RuleSpec>>): Result<seq<string>>
  {
    match rulesOf(SplitClass(cls).1)
    case Failure(e) => Failure(e)
    case Ok(specs) => Ok(ClassRules(cls, specs))
  }

  /** `ClassOutput` as a function of the class. */
  function ClassOutputs(rulesOf: string -> Result<seq<RuleSpec>>): string -> Result<seq<string>>
  {
    cls => ClassOutput(cls, rulesOf)
  }

  /** The output so far followed by what comes next; an exception, once
      raised, is what the whole computation yields. */
  function Combine(first: Result<seq<string>>, next: Result<seq<string>>): (r: Result<seq<string>>)
    ensures r.Ok? <==> first.Ok? && next.Ok?
    ensures r.Ok? ==> r.value == first.value + next.value
    ensures first.Failure? ==> r == first
  {
    match first
    case Failure(e) => Failure(e)
    case Ok(rules) =>
      match next
      case Failure(e) => Failure(e)
      case Ok(more) => Ok(rules + more)
  }

  /** `rulesOf` is `base_rules` under the numeric parser `num`. The fact is
      only drawn out for bases `base_rules` is already applied to. */
  ghost predicate AgreesWithBaseRules(rulesOf: string -> Result<seq<RuleSpec>>, num: Numerics)
  {
    forall base {:trigger BaseRules(base, num)} :: rulesOf(base) == BaseRules(base, num)
  }

  /** `BaseRulesOf(num)` is such a function. */
  lemma BaseRulesOfAgrees(num: Numerics)
    ensures AgreesWithBaseRules(BaseRulesOf(num), num)
  {
  }

  /** The rules of a list of classes in order, `out` giving each class's
      contribution; the first exception stops the output. */
  function Generated(classes: seq<string>, out: string -> Result<seq<string>>): Result<seq<string>>
  {
    if classes == [] then Ok([])
    else Combine(Generated(classes[..|classes| - 1], out), out(classes[|classes| - 1]))
  }

  /** What the classes append to `EXTRA_RULES`, in order. */
  function Extras(classes: seq<string>): seq<string>
  {
    if classes == [] then [] else Extras(classes[..|classes| - 1]) + ExtraRulesOf(SplitClass(classes[|classes| - 1]).1)
  }

  /** The extra rules are copies of the spin keyframes, present exactly when
      some class has the base `animate-spin` (once per such class, so
      `animate-spin` together with `hover:animate-spin` gives two copies). */
  lemma {:induction false} ExtrasAreSpin(classes: seq<string>)
    ensures forall r :: r in Extras(classes) ==> r == SpinKeyframes
    ensures SpinKeyframes in Extras(classes) <==> exists c :: c in classes && SplitClass(c).1 == "animate-spin"
  {
    if classes != [] {
      var init := classes[..|classes| - 1];
      var last := classes[|classes| - 1];
      ExtrasAreSpin(init);
      assert classes == init + [last];
      if exists c :: c in classes && SplitClass(c).1 == "animate-spin" {
        var c :| c in classes && SplitClass(c).1 == "animate-spin";
        if c != last {
          assert c in init;
        }
      }
    }
  }

  /** `Combine` is associative. */
  lemma CombineAssociative(x: Result<seq<string>>, y: Result<seq<string>>, z: Result<seq<string>>)
    ensures Combine(Combine(x, y), z) == Combine(x, Combine(y, z))
  {
    if x.Ok? && y.Ok? && z.Ok? {
      assert x.value + y.value + z.value == x.value + (y.value + z.value);
    }
  }

  /** The output of two lists of classes is the output of the first followed
      by that of the second; it fails with the first list's exception, or
      else with the second's. */
  lemma {:induction false} GeneratedAppend(a: seq<string>, b: seq<string>, out: string -> Result<seq<string>>)
    ensures Generated(a + b, out) == Combine(Generated(a, out), Generated(b, out))
  {
    if b == [] {
      assert a + b == a;
      assert Generated(a, out).Ok? ==> Generated(a, out).value + [] == Generated(a, out).value;
    } else {
      var init := b[..|b| - 1];
      var last := b[|b| - 1];
      assert (a + b)[..|a + b| - 1] == a + init;
      assert (a + b)[|a + b| - 1] == last;
      GeneratedAppend(a, init, out);
      CombineAssociative(Generated(a, out), Generated(init, out), out(last));
    }
  }

  /** One class alone gives its own contribution. */
  lemma GeneratedSingle(cls: string, out: string -> Result<seq<string>>)
    ensures Generated([cls], out) == out(cls)
  {
    assert [cls][..0] == [];
    var r := out(cls);
    assert r.Ok? ==> [] + r.value == r.value;
  }

  /** The output is ordered by class: for classes `a + [c] + b` that all
      generate rules, the rules of `c` come after those of `a` and before
      those of `b`. */
  lemma GeneratedInClassOrder(a: seq<string>, c: string, b: seq<string>, out: string -> Result<seq<string>>)
    requires Generated(a + [c] + b, out).Ok?
    ensures Generated(a, out).Ok? && out(c).Ok? && Generated(b, out).Ok?
    ensures Generated(a + [c] + b, out).value ==
      Generated(a, out).value + out(c).value + Generated(b, out).value
  {
    GeneratedAppend(a + [c], b, out);
    GeneratedAppend(a, [c], out);
    GeneratedSingle(c, out);
  }

  /** A list is its prefix up to `i` followed by the rest. */
  lemma SplitList(s: seq<string>, i: nat)
    requires i <= |s|
    ensures s[..i] + s[i..] == s
  {
  }

  /** The prefix up to `i + 1` is the prefix up to `i` and the `i`-th item. */
  lemma LongerPrefix(s: seq<string>, i: nat)
    requires i < |s|
    ensures s[..i + 1][..i] == s[..i] && s[..i + 1][|s[..i + 1]| - 1] == s[i]
  {
  }

  /** One step of `build_css`'s loop: the next class's contribution extends
      the output of the classes before it, or its exception is the whole
      list's result. */
  lemma Advance(classes: seq<string>, i: nat, out: string -> Result<seq<string>>,
                rules: seq<string>, next: Result<seq<string>>)
    requires i < |classes| && Generated(classes[..i], out) == Ok(rules)
    requires next == out(classes[i])
    ensures next.Ok? ==> Generated(classes[..i + 1], out) == Ok(rules + next.value)
    ensures next.Failure? ==> Generated(classes, out) == Failure(next.error)
  {
    GeneratedStep(classes, i, out);
    if next.Failure? {
      FailureStops(classes, i + 1, out);
    }
  }

  /** The output up to class `i + 1` combines that up to `i` with class `i`'s. */
  lemma GeneratedStep(classes: seq<string>, i: nat, out: string -> Result<seq<string>>)
    requires i < |classes|
    ensures Generated(classes[..i + 1], out) == Combine(Generated(classes[..i], out), out(classes[i]))
  {
    LongerPrefix(classes, i);
  }

  /** The extra rules up to class `i + 1` extend those up to `i` by class `i`'s. */
  lemma ExtrasStep(classes: seq<string>, i: nat)
    requires i < |classes|
    ensures Extras(classes[..i + 1]) == Extras(classes[..i]) + ExtraRulesOf(SplitClass(classes[i]).1)
  {
    LongerPrefix(classes, i);
  }

  /** Once a prefix of the classes fails, the whole list fails the same way. */
  lemma FailureStops(classes: seq<string>, i: nat, out: string -> Result<seq<string>>)
    requires i <= |classes| && Generated(classes[..i], out).Failure?
    ensures Generated(classes, out) == Generated(classes[..i], out)
  {
    GeneratedAppend(classes[..i], classes[i..], out);
    SplitList(classes, i);
  }

  /** A class whose base yields no rules contributes nothing. */
  lemma SkippedClass(a: seq<string>, cls: string, rulesOf: string -> Result<seq<RuleSpec>>)
    requires rulesOf(SplitClass(cls).1) == Ok([])
    ensures Generated(a + [cls], ClassOutputs(rulesOf)) == Generated(a, ClassOutputs(rulesOf))
  {
    assert (a + [cls])[..|a|] == a;
    if Generated(a, ClassOutputs(rulesOf)).Ok? {
      assert Generated(a, ClassOutputs(rulesOf)).value + [] == Generated(a, ClassOutputs(rulesOf)).value;
    }
  }

  // ------------------------------------------------------------ the generator

  /** The generator's state: the module-level `EXTRA_RULES` list, which
      `base_rules` extends as a side effect. */
  class Generator {
    var extraRules: seq<string>

    /** At start-up `EXTRA_RULES` is empty. */
    constructor ()
      ensures extraRules == []
    {
      extraRules := [];
    }

    /** `base_rules(base)` with its effect on `EXTRA_RULES`. */
    method ApplyBaseRules(base: string, num: Numerics) returns (specs: Result<seq<RuleSpec>>)
      modifies this
      ensures specs == BaseRules(base, num)
      ensures extraRules == old(extraRules) + ExtraRulesOf(base)
    {
      specs := BaseRules(base, num);
      if base == "animate-spin" {
        extraRules := extraRules + [SpinKeyframes];
      }
    }

    /** The inner loop of `build_css`: the rule text of each `RuleSpec` of
        class `cls`, in order. */
    static method RenderClass(cls: string, prefix: Option<string>, specs: seq<RuleSpec>) returns (rules: seq<string>)
      requires prefix == SplitClass(cls).0
      ensures rules == ClassRules(cls, specs)
    {
      var pseudo := PseudoOf(prefix);
      var media := MediaOf(prefix);
      var escaped := EscapeClass(cls);
      var selectorBase := "." + escaped;
      rules := [];
      for j := 0 to |specs|
        invariant rules == ClassRules(cls, specs[..j])
      {
        var spec := specs[j];
        var selector := selectorBase + pseudo + spec.selectorSuffix;
        var ruleBody := Join(spec.declarations, "; ");
        var rule := selector + " {" + ruleBody + "}";
        if media.Some? && media.value != "" {
          rule := "@media (min-width: " + media.value + ") {" + rule + "}";
        }
        assert specs[..j + 1][..j] == specs[..j];
        rules := rules + [rule];
      }
      assert specs[..|specs|] == specs;
    }

    /** The body of `build_css`'s loop for one class: split it, apply
        `base_rules` to its base (with the effect on `EXTRA_RULES`) and, when
        that yields rules, render them. */
    method AddClass(cls: string, num: Numerics, ghost rulesOf: string -> Result<seq<RuleSpec>>)
      returns (rules: Result<seq<string>>)
      requires AgreesWithBaseRules(rulesOf, num)
      modifies this
      ensures rules == ClassOutput(cls, rulesOf)
      ensures extraRules == old(extraRules) + ExtraRulesOf(SplitClass(cls).1)
    {
      var (prefix, base) := SplitClass(cls);
      var specs := ApplyBaseRules(base, num);
      if specs.Failure? {
        return Failure(specs.error);
      }
      if specs.value == [] {
        return Ok([]);
      }
      var rendered := RenderClass(cls, prefix, specs.value);
      rules := Ok(rendered);
    }

    /** The loop of `build_css` over the sorted class names: the rules of
        each class in order, then `EXTRA_RULES`, or the first exception. */
    method GenerateAll(classes: seq<string>, num: Numerics, ghost rulesOf: string -> Result<seq<RuleSpec>>)
      returns (css: Result<seq<string>>)
      requires AgreesWithBaseRules(rulesOf, num)
      modifies this
      ensures css == Combine(Generated(classes, ClassOutputs(rulesOf)), Ok(extraRules))
      ensures css.Ok? ==> extraRules == old(extraRules) + Extras(classes)
    {
      var cssRules: seq<string> := [];
      for i := 0 to |classes|
        invariant Generated(classes[..i], ClassOutputs(rulesOf)) == Ok(cssRules)
        invariant extraRules == old(extraRules) + Extras(classes[..i])
      {
        var rules := AddClass(classes[i], num, rulesOf);
        Advance(classes, i, ClassOutputs(rulesOf), cssRules, rules);
        ExtrasStep(classes, i);
        if rules.Failure? {
          return Failure(rules.error);
        }
        cssRules := cssRules + rules.value;
      }
      assert classes[..|classes|] == classes;
      css := Ok(cssRules + extraRules);
    }

    /** `build_css`: the valid class names of the attributes, sorted, then
        the rules of each class in that order (a class whose base yields
        nothing being skipped), then `EXTRA_RULES`; the first exception a
        base raises ends it. The names are returned with the output.
        `rulesOf` is `base_rules`, named so the output can be stated. */
    method BuildCss(attrs: seq<string>, num: Numerics, ghost rulesOf: string -> Result<seq<RuleSpec>>)
      returns (classes: seq<string>, css: Result<seq<string>>)
      requires AgreesWithBaseRules(rulesOf, num)
      modifies this
      ensures StrictlySorted(classes) && forall t :: t in classes <==> t in ClassSet(attrs)
      ensures css.Failure? ==> css == Generated(classes, ClassOutputs(rulesOf))
      ensures css.Ok? ==> Generated(classes, ClassOutputs(rulesOf)).Ok?
      ensures css.Ok? ==> extraRules == old(extraRules) + Extras(classes)
      ensures css.Ok? ==> css.value == Generated(classes, ClassOutputs(rulesOf)).value + extraRules
    {
      classes := ParseClassTokens(attrs);
      css := GenerateAll(classes, num, rulesOf);
      assert css.Ok? ==> Generated(classes, ClassOutputs(rulesOf)).Ok?;
    }
  }
}
