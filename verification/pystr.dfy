/** The Python `str` operations the generator relies on, with Python's
    semantics written out (slices that never fail, `split` with a limit,
    `partition`, `join`, the whitespace of `\s` and `str.strip`). */
module PyStr {
  import opened Wrappers

  /** `s.startswith(p)` */
  predicate StartsWith(s: string, p: string) { p <= s }

  /** `s.endswith(p)` */
  predicate EndsWith(s: string, p: string) { |p| <= |s| && s[|s| - |p|..] == p }

  /** `s.startswith("[") and s.endswith("]")`: an arbitrary value such as `[10px]`. */
  predicate Bracketed(s: string) { StartsWith(s, "[") && EndsWith(s, "]") }

  /** `s[1:-1]`; Python slicing never fails, a string shorter than two gives "". */
  function Inner(s: string): (r: string)
    ensures |s| >= 2 ==> s == [s[0]] + r + [s[|s| - 1]]
    ensures |s| < 2 ==> r == ""
  {
    if |s| >= 2 then s[1..|s| - 1] else ""
  }

  /** `s[:-1]` */
  function DropLast(s: string): (r: string)
    ensures s != [] ==> s == r + [s[|s| - 1]]
    ensures s == [] ==> r == []
  {
    if s == [] then [] else s[..|s| - 1]
  }

  /** `s.split(c, 1)` for a one-character separator: the text before and
      after the first `c`, or None when `c` does not occur (then the list
      has one element and indexing it at 1 raises IndexError). */
  function SplitFirst(s: string, c: char): (r: Option<(string, string)>)
    ensures r.None? <==> c !in s
    ensures r.Some? ==> s == r.value.0 + [c] + r.value.1 && c !in r.value.0
  {
    if s == [] then None
    else if s[0] == c then Some(([], s[1..]))
    else
      match SplitFirst(s[1..], c)
      case None => None
      case Some(parts) => Some(([s[0]] + parts.0, parts.1))
  }

  /** Splitting at the first `c` of `a + [c] + b`, where `a` has no `c`,
      gives `a` and `b`, whatever `b` holds. */
  lemma {:induction false} SplitFirstAt(a: string, c: char, b: string)
    requires c !in a
    ensures SplitFirst(a + [c] + b, c) == Some((a, b))
  {
    if a == [] {
      assert a + [c] + b == [c] + b;
    } else {
      assert (a + [c] + b)[1..] == a[1..] + [c] + b;
      SplitFirstAt(a[1..], c, b);
      assert [a[0]] + a[1..] == a;
    }
  }

  /** `s.split(c, 1)[1]`; None stands for the IndexError. */
  function AfterFirst(s: string, c: char): (r: Option<string>)
    ensures r.None? <==> c !in s
    ensures r.Some? ==> exists a :: s == a + [c] + r.value && c !in a
  {
    match SplitFirst(s, c)
    case None => None
    case Some(parts) => Some(parts.1)
  }

  /** `s.split(c, 2)[2]`: the text after the second `c`; None stands for the IndexError. */
  function AfterSecond(s: string, c: char): (r: Option<string>)
  {
    match AfterFirst(s, c)
    case None => None
    case Some(rest) => AfterFirst(rest, c)
  }

  /** `s.split(c)[-1]`: the text after the last `c`, or all of `s`. */
  function LastField(s: string, c: char): (r: string)
    ensures c !in r
    ensures exists a :: s == a + r
    decreases |s|
  {
    match AfterFirst(s, c)
    case None => assert s == [] + s; s
    case Some(rest) =>
      var a :| s == a + [c] + rest;
      var r := LastField(rest, c);
      var b :| rest == b + r;
      assert s == (a + [c] + b) + r;
      r
  }

  /** The last field of `a + [c] + t`, where `t` has no `c`, is `t`. */
  lemma {:induction false} LastFieldAfter(a: string, c: char, t: string)
    requires c !in t
    ensures LastField(a + [c] + t, c) == t
    decreases |a|
  {
    match SplitFirst(a, c)
    case None =>
      SplitFirstAt(a, c, t);
      assert AfterFirst(t, c).None?;
    case Some(parts) =>
      var (a1, a2) := parts;
      assert a + [c] + t == a1 + [c] + (a2 + [c] + t);
      SplitFirstAt(a1, c, a2 + [c] + t);
      LastFieldAfter(a2, c, t);
  }

  /** `s.partition(c)` without the separator: the text before the first
      `c` and the text after it ("" when there is no `c`). */
  function Partition(s: string, c: char): (r: (string, string))
    ensures c !in s ==> r == (s, "")
    ensures c in s ==> s == r.0 + [c] + r.1 && c !in r.0
  {
    match SplitFirst(s, c)
    case None => (s, "")
    case Some(parts) => parts
  }

  /** `sep.join(parts)` */
  function Join(parts: seq<string>, sep: string): string
  {
    if |parts| == 0 then ""
    else if |parts| == 1 then parts[0]
    else parts[0] + sep + Join(parts[1..], sep)
  }

  /** Joining four parts puts the separator between each pair of neighbours. */
  lemma JoinFour(a: string, b: string, c: string, d: string, sep: string)
    ensures Join([a, b, c, d], sep) == a + sep + b + sep + c + sep + d
  {
    assert [c, d][1..] == [d];
    assert Join([c, d], sep) == c + sep + d;
    assert [b, c, d][1..] == [c, d];
    assert Join([b, c, d], sep) == b + sep + (c + sep + d);
    assert [a, b, c, d][1..] == [b, c, d];
  }

  /** The decimal text of a natural number, as `f"{n}"` prints it. */
  function Decimal(n: nat): (r: string)
    ensures |r| >= 1 && forall i :: 0 <= i < |r| ==> '0' <= r[i] <= '9'
  {
    var d := ['0' + (n % 10) as char];
    if n < 10 then d else Decimal(n / 10) + d
  }

  /** The characters Python's `\s` and `str.strip()` treat as whitespace
      (those for which `str.isspace()` holds). */
  predicate IsSpace(c: char)
  {
    c == ' ' || '\t' <= c <= '\r' || '\U{1c}' <= c <= '\U{1f}' || c == '\U{85}' || c == '\U{a0}'
    || c == '\U{1680}' || '\U{2000}' <= c <= '\U{200a}' || c == '\U{2028}' || c == '\U{2029}'
    || c == '\U{202f}' || c == '\U{205f}' || c == '\U{3000}'
  }

  /** `re.split(r"\s+", s.strip())` with the empty tokens dropped: the
      maximal runs of non-whitespace characters of `s`, in order. `word`
      is the run read so far. */
  function WordsFrom(s: string, word: string): seq<string>
    decreases |s|
  {
    if s == [] then (if word == [] then [] else [word])
    else if IsSpace(s[0]) then (if word == [] then [] else [word]) + WordsFrom(s[1..], [])
    else WordsFrom(s[1..], word + [s[0]])
  }

  /** The tokens of a `class` attribute are non-empty and free of whitespace,
      and together they are exactly the attribute's non-whitespace characters,
      in order. */
  function Words(s: string): (r: seq<string>)
    ensures forall w :: w in r ==> w != [] && NoSpace(w)
    ensures Concat(r) == NonSpace(s)
  {
    WordsFromShape(s, []);
    WordsFrom(s, [])
  }

  /** The concatenation of a list of strings. */
  function Concat(ws: seq<string>): string
  {
    if ws == [] then [] else ws[0] + Concat(ws[1..])
  }

  /** `s` without its whitespace characters. */
  function NonSpace(s: string): (r: string)
  {
    if s == [] then [] else (if IsSpace(s[0]) then [] else [s[0]]) + NonSpace(s[1..])
  }

  predicate NoSpace(w: string)
  {
    forall i :: 0 <= i < |w| ==> !IsSpace(w[i])
  }

  lemma {:induction false} ConcatAppend(a: seq<string>, b: seq<string>)
    ensures Concat(a + b) == Concat(a) + Concat(b)
  {
    if a != [] {
      assert (a + b)[1..] == a[1..] + b;
      ConcatAppend(a[1..], b);
    } else {
      assert a + b == b;
    }
  }

  lemma {:induction false} WordsFromShape(s: string, word: string)
    requires NoSpace(word)
    ensures forall w :: w in WordsFrom(s, word) ==> w != [] && NoSpace(w)
    ensures Concat(WordsFrom(s, word)) == word + NonSpace(s)
    decreases |s|
  {
    if s == [] {
    } else if IsSpace(s[0]) {
      var head: seq<string> := if word == [] then [] else [word];
      WordsFromShape(s[1..], []);
      ConcatAppend(head, WordsFrom(s[1..], []));
      assert NonSpace(s) == NonSpace(s[1..]);
    } else {
      WordsFromShape(s[1..], word + [s[0]]);
      assert NonSpace(s) == [s[0]] + NonSpace(s[1..]);
    }
  }

  /** Reading a run of non-whitespace characters only extends the current word. */
  lemma {:induction false} WordsFromRun(w: string, rest: string, word: string)
    requires NoSpace(w)
    ensures WordsFrom(w + rest, word) == WordsFrom(rest, word + w)
    decreases |w|
  {
    if w == [] {
      assert w + rest == rest && word + w == word;
    } else {
      assert (w + rest)[1..] == w[1..] + rest;
      assert word + [w[0]] + w[1..] == word + w;
      WordsFromRun(w[1..], rest, word + [w[0]]);
    }
  }

  /** Words joined by single spaces split back into the same words: the
      tokens are the maximal whitespace-free runs, not any finer split. */
  lemma {:induction false} WordsJoin(ws: seq<string>)
    requires forall i :: 0 <= i < |ws| ==> ws[i] != [] && NoSpace(ws[i])
    ensures Words(Join(ws, " ")) == ws
  {
    if ws != [] {
      WordsFromJoin(ws);
    }
  }

  lemma {:induction false} WordsFromJoin(ws: seq<string>)
    requires ws != []
    requires forall i :: 0 <= i < |ws| ==> ws[i] != [] && NoSpace(ws[i])
    ensures WordsFrom(Join(ws, " "), []) == ws
    decreases |ws|
  {
    var w := ws[0];
    if |ws| == 1 {
      WordsFromRun(w, [], []);
      assert w + [] == w && [] + w == w;
    } else {
      var tail := Join(ws[1..], " ");
      assert Join(ws, " ") == w + (" " + tail);
      WordsFromRun(w, " " + tail, []);
      assert [] + w == w;
      assert (" " + tail)[1..] == tail;
      WordsFromJoin(ws[1..]);
      assert ws == [w] + ws[1..];
    }
  }
}
