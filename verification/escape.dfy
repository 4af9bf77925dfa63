/** `escape_class`: turning a class name into the text of a CSS class
    selector by putting two backslashes before each special character. */
module Escape {

  /** The `replacements` table of `escape_class`, in the order the loop
      visits it: each of the eleven special characters and the text that
      replaces it (two backslashes followed by the character itself). */
  const Replacements: seq<(char, string)> := [
    (':', "\\\\:"), ('/', "\\\\/"), ('.', "\\\\."), ('%', "\\\\%"),
    ('#', "\\\\#"), ('[', "\\\\["), (']', "\\\\]"), ('(', "\\\\("),
    (')', "\\\\)"), (',', "\\\\,"), (' ', "\\\\ ")]

  /** The characters `escape_class` escapes. */
  const Specials: set<char> := {':', '/', '.', '%', '#', '[', ']', '(', ')', ',', ' '}

  /** A special character preceded by two backslashes. */
  function Backslashed(c: char): string
  {
    ['\\', '\\', c]
  }

  /** `s.replace(target, repl)` for a one-character target: every
      occurrence of `target` replaced, left to right. */
  function Replace(s: string, target: char, repl: string): (r: string)
    ensures target !in s ==> r == s
  {
    if s == [] then []
    else (if s[0] == target then repl else [s[0]]) + Replace(s[1..], target, repl)
  }

  /** `s` with every character that is in `chars` preceded by two backslashes. */
  function EscapeChars(s: string, chars: set<char>): string
  {
    if s == [] then []
    else (if s[0] in chars then Backslashed(s[0]) else [s[0]]) + EscapeChars(s[1..], chars)
  }

  /** What `escape_class` computes, stated as a per-character map. */
  function Escaped(s: string): string
  {
    EscapeChars(s, Specials)
  }

  /** The number of special characters in `s`. */
  function SpecialCount(s: string): nat
  {
    if s == [] then 0 else (if s[0] in Specials then 1 else 0) + SpecialCount(s[1..])
  }

  /** The set of targets among the first `i` entries of the table. */
  function Done(i: nat): set<char>
    requires i <= |Replacements|
  {
    if i == 0 then {} else Done(i - 1) + {Replacements[i - 1].0}
  }

  /** The table replaces each target by two backslashes and the target,
      its targets are distinct, none is a backslash, and together they are
      the special characters. */
  lemma ReplacementsTable()
    ensures forall i :: 0 <= i < |Replacements| ==>
      Replacements[i].1 == Backslashed(Replacements[i].0) && Replacements[i].0 != '\\'
      && Replacements[i].0 !in Done(i)
    ensures Done(|Replacements|) == Specials
  {
    assert Done(11) == Specials;
  }

  lemma {:induction false} ReplaceAppend(a: string, b: string, t: char, repl: string)
    ensures Replace(a + b, t, repl) == Replace(a, t, repl) + Replace(b, t, repl)
  {
    if a == [] {
      assert a + b == b;
    } else {
      assert (a + b)[1..] == a[1..] + b;
      ReplaceAppend(a[1..], b, t, repl);
    }
  }

  lemma {:induction false} EscapeNothing(s: string)
    ensures EscapeChars(s, {}) == s
  {
    if s != [] {
      EscapeNothing(s[1..]);
    }
  }

  /** One turn of the loop: replacing a new target (not a backslash) in a
      text whose earlier targets are already escaped escapes that target too,
      because no earlier replacement text contains it. */
  lemma {:induction false} ReplaceStep(s: string, done: set<char>, t: char)
    requires t !in done && t != '\\'
    ensures Replace(EscapeChars(s, done), t, Backslashed(t)) == EscapeChars(s, done + {t})
  {
    if s != [] {
      var head := if s[0] in done then Backslashed(s[0]) else [s[0]];
      ReplaceAppend(head, EscapeChars(s[1..], done), t, Backslashed(t));
      ReplaceStep(s[1..], done, t);
      if s[0] in done {
        assert Replace(head, t, Backslashed(t)) == head by {
          assert t !in head;
        }
      } else if s[0] == t {
        assert Replace(head, t, Backslashed(t)) == Backslashed(t);
      } else {
        assert Replace(head, t, Backslashed(t)) == head;
      }
    }
  }

  /** `escape_class`: the `replace` loop over the table. Its result is the
      per-character map `Escaped`. */
  method EscapeClass(name: string) returns (escaped: string)
    ensures escaped == Escaped(name)
  {
    ReplacementsTable();
    EscapeNothing(name);
    escaped := name;
    for i := 0 to |Replacements|
      invariant escaped == EscapeChars(name, Done(i))
    {
      var (target, repl) := Replacements[i];
      ReplaceStep(name, Done(i), target);
      escaped := Replace(escaped, target, repl);
    }
  }

  lemma {:induction false} EscapeCharsAppend(a: string, b: string, chars: set<char>)
    ensures EscapeChars(a + b, chars) == EscapeChars(a, chars) + EscapeChars(b, chars)
  {
    if a == [] {
      assert a + b == b;
    } else {
      assert (a + b)[1..] == a[1..] + b;
      EscapeCharsAppend(a[1..], b, chars);
    }
  }

  /** Escaping works character by character: the escape of a concatenation
      is the concatenation of the escapes. */
  lemma EscapedAppend(a: string, b: string)
    ensures Escaped(a + b) == Escaped(a) + Escaped(b)
  {
    EscapeCharsAppend(a, b, Specials);
  }

  /** The escaped name is longer than the name by two characters per
      special character. */
  lemma {:induction false} EscapedLength(s: string)
    ensures |Escaped(s)| == |s| + 2 * SpecialCount(s)
  {
    if s != [] {
      EscapedLength(s[1..]);
    }
  }

  /** Undoing the escape: a doubled backslash and the character after it
      stand for that character. */
  function Unescape(t: string): string
  {
    if |t| >= 3 && t[0] == '\\' && t[1] == '\\' then [t[2]] + Unescape(t[3..])
    else if t == [] then []
    else [t[0]] + Unescape(t[1..])
  }

  /** For a name without backslashes (every valid class name), unescaping
      the escaped name gives the name back. */
  lemma {:induction false} UnescapeEscaped(s: string)
    requires '\\' !in s
    ensures Unescape(Escaped(s)) == s
  {
    if s != [] {
      var rest := Escaped(s[1..]);
      UnescapeEscaped(s[1..]);
      if s[0] in Specials {
        assert Escaped(s) == Backslashed(s[0]) + rest;
        assert (Backslashed(s[0]) + rest)[3..] == rest;
      } else {
        assert Escaped(s) == [s[0]] + rest;
        assert ([s[0]] + rest)[1..] == rest;
      }
    }
  }

  /** Two backslash-free names with the same escaped text are the same name,
      so no two classes share a selector. */
  lemma EscapedInjective(a: string, b: string)
    requires '\\' !in a && '\\' !in b
    requires Escaped(a) == Escaped(b)
    ensures a == b
  {
    UnescapeEscaped(a);
    UnescapeEscaped(b);
  }
}
