/** The token part of `parse_class_tokens`: from the text of `class="…"`
    attributes to the sorted list of distinct valid class names. */
module ClassTokens {
  import opened PyStr

  // ------------------------------------------------------------ VALID_CLASS

  /** A character of the `VALID_CLASS` set: letters, digits and `_:-/[]().,%`. */
  predicate ValidClassChar(c: char)
  {
    'A' <= c <= 'Z' || 'a' <= c <= 'z' || '0' <= c <= '9'
    || c == '_' || c == ':' || c == '-' || c == '/' || c == '[' || c == ']'
    || c == '(' || c == ')' || c == '.' || c == ',' || c == '%'
  }

  /** `VALID_CLASS.match(token)` for a token without whitespace: one or more
      characters, all from the set. */
  predicate ValidClass(token: string)
  {
    token != [] && forall i :: 0 <= i < |token| ==> ValidClassChar(token[i])
  }

  /** A valid class has no backslash (so its escape can be undone) and no
      whitespace. */
  lemma ValidClassPlain(token: string)
    requires ValidClass(token)
    ensures '\\' !in token && NoSpace(token)
  {
    assert forall i :: 0 <= i < |token| ==> token[i] != '\\' && !IsSpace(token[i]) by {
      forall i | 0 <= i < |token|
        ensures token[i] != '\\' && !IsSpace(token[i])
      {
        assert ValidClassChar(token[i]);
      }
    }
  }

  // ------------------------------------------------------------ the class set

  /** The tokens of one attribute that `parse_class_tokens` keeps: those that
      are non-empty and valid. */
  function Kept(tokens: seq<string>): (r: set<string>)
    ensures forall t :: t in r <==> t in tokens && t != "" && ValidClass(t)
  {
    if tokens == [] then {}
    else
      var t := tokens[|tokens| - 1];
      Kept(tokens[..|tokens| - 1]) + (if t != "" && ValidClass(t) then {t} else {})
  }

  /** The set `parse_class_tokens` accumulates from a list of attribute texts. */
  function ClassSet(attrs: seq<string>): set<string>
  {
    if attrs == [] then {} else ClassSet(attrs[..|attrs| - 1]) + Kept(Words(attrs[|attrs| - 1]))
  }

  /** A name is in the class set exactly when it is a valid token of one of
      the attributes. */
  lemma {:induction false} ClassSetMembers(attrs: seq<string>, t: string)
    ensures t in ClassSet(attrs) <==> ValidClass(t) && exists i :: 0 <= i < |attrs| && t in Words(attrs[i])
  {
    if attrs != [] {
      var init := attrs[..|attrs| - 1];
      ClassSetMembers(init, t);
      if t in ClassSet(attrs) && t !in ClassSet(init) {
        assert t in Words(attrs[|attrs| - 1]);
      }
      if ValidClass(t) && exists i :: 0 <= i < |attrs| && t in Words(attrs[i]) {
        var i :| 0 <= i < |attrs| && t in Words(attrs[i]);
        if i < |attrs| - 1 {
          assert init[i] == attrs[i];
        }
      }
    }
  }

  // ------------------------------------------------------------ ordering

  /** Python's `<` on strings: lexicographic by code point, a proper prefix
      before the longer string. */
  predicate StrLess(a: string, b: string)
  {
    if a == [] then b != []
    else if b == [] then false
    else a[0] < b[0] || (a[0] == b[0] && StrLess(a[1..], b[1..]))
  }

  lemma {:induction false} StrLessIrreflexive(a: string)
    ensures !StrLess(a, a)
  {
    if a != [] {
      StrLessIrreflexive(a[1..]);
    }
  }

  lemma {:induction false} StrLessTransitive(a: string, b: string, c: string)
    requires StrLess(a, b) && StrLess(b, c)
    ensures StrLess(a, c)
  {
    if a != [] && b != [] && c != [] && a[0] == b[0] == c[0] {
      StrLessTransitive(a[1..], b[1..], c[1..]);
    }
  }

  lemma {:induction false} StrLessTotal(a: string, b: string)
    requires a != b
    ensures StrLess(a, b) || StrLess(b, a)
  {
    if a != [] && b != [] && a[0] == b[0] {
      assert a[1..] != b[1..] by {
        assert a == [a[0]] + a[1..] && b == [b[0]] + b[1..];
      }
      StrLessTotal(a[1..], b[1..]);
    }
  }

  /** Strictly increasing: sorted and free of duplicates. */
  predicate StrictlySorted(s: seq<string>)
  {
    forall i, j :: 0 <= i < j < |s| ==> StrLess(s[i], s[j])
  }

  /** Strictly increasing lists of the same names are the same list:
      `sorted` of a set has exactly one possible result. */
  lemma {:induction false} SortedUnique(s: seq<string>, t: seq<string>)
    requires StrictlySorted(s) && StrictlySorted(t)
    requires forall x :: x in s <==> x in t
    ensures s == t
  {
    if s != [] {
      assert s[0] in t;
    }
    if t != [] {
      assert t[0] in s;
    }
    if s != [] && t != [] {
      assert s[0] == t[0] by {
        if s[0] != t[0] {
          HeadIsLeast(s, t[0]);
          HeadIsLeast(t, s[0]);
          StrLessTransitive(s[0], t[0], s[0]);
          StrLessIrreflexive(s[0]);
        }
      }
      forall x
        ensures x in s[1..] <==> x in t[1..]
      {
        if x in s[1..] {
          MemberOfTail(s, t, x);
        }
        if x in t[1..] {
          MemberOfTail(t, s, x);
        }
      }
      SortedUnique(s[1..], t[1..]);
      assert s == [s[0]] + s[1..] && t == [t[0]] + t[1..];
    }
  }

  /** The head of a strictly increasing list is below its other names. */
  lemma HeadIsLeast(s: seq<string>, x: string)
    requires StrictlySorted(s) && x in s && x != s[0]
    ensures StrLess(s[0], x)
  {
    var j :| 0 <= j < |s| && s[j] == x;
  }

  /** A later element of one strictly increasing list is a later element of
      any other with the same names and the same first element. */
  lemma MemberOfTail(s: seq<string>, t: seq<string>, x: string)
    requires StrictlySorted(s) && StrictlySorted(t) && s != [] && t != [] && s[0] == t[0]
    requires forall y :: y in s <==> y in t
    requires x in s[1..]
    ensures x in t[1..]
  {
    var j :| 0 <= j < |s| - 1 && s[1..][j] == x;
    assert s[j + 1] == x;
    StrLessIrreflexive(x);
    assert x in t;
    var k :| 0 <= k < |t| && t[k] == x;
    assert k != 0;
    assert t[1..][k - 1] == x;
  }

  // ------------------------------------------------------------ parse_class_tokens

  /** Inserting `x` into a strictly increasing list that does not hold it. */
  method Insert(sorted: seq<string>, x: string) returns (r: seq<string>)
    requires StrictlySorted(sorted) && x !in sorted
    ensures StrictlySorted(r)
    ensures forall y :: y in r <==> y in sorted || y == x
  {
    var k := 0;
    while k < |sorted| && StrLess(sorted[k], x)
      invariant 0 <= k <= |sorted|
      invariant forall i :: 0 <= i < k ==> StrLess(sorted[i], x)
    {
      k := k + 1;
    }
    r := sorted[..k] + [x] + sorted[k..];
    forall i, j | 0 <= i < j < |r|
      ensures StrLess(r[i], r[j])
    {
      if j == k {
        assert r[i] == sorted[i];
      } else if i == k {
        assert r[j] == sorted[j - 1];
        assert x != sorted[k];
        StrLessTotal(x, sorted[k]);
        if j - 1 > k {
          StrLessTransitive(x, sorted[k], sorted[j - 1]);
        }
      } else if i < k && j > k {
        assert r[i] == sorted[i] && r[j] == sorted[j - 1];
      } else if i > k {
        assert r[i] == sorted[i - 1] && r[j] == sorted[j - 1];
      } else {
        assert r[i] == sorted[i] && r[j] == sorted[j];
      }
    }
    assert forall y :: y in r <==> y in sorted[..k] || y == x || y in sorted[k..];
    assert sorted == sorted[..k] + sorted[k..];
  }

  /** `sorted(names)`: the names of a set in increasing order. */
  method Sorted(names: set<string>) returns (r: seq<string>)
    ensures StrictlySorted(r)
    ensures forall y :: y in r <==> y in names
  {
    r := [];
    var rest := names;
    while rest != {}
      invariant rest <= names
      invariant StrictlySorted(r)
      invariant forall y :: y in r <==> y in names && y !in rest
      decreases |rest|
    {
      var x :| x in rest;
      r := Insert(r, x);
      rest := rest - {x};
    }
  }

  /** `parse_class_tokens` over the text of the `class="…"` attributes: the
      whitespace-separated tokens that are non-empty and valid, gathered in
      a set and returned sorted. */
  method ParseClassTokens(attrs: seq<string>) returns (classes: seq<string>)
    ensures StrictlySorted(classes)
    ensures forall t :: t in classes <==> t in ClassSet(attrs)
    ensures forall t :: t in classes ==> ValidClass(t)
  {
    var found: set<string> := {};
    for i := 0 to |attrs|
      invariant found == ClassSet(attrs[..i])
    {
      // `re.split(r"\s+", text.strip())`, the empty tokens then being dropped
      // by `if token`: the maximal runs of non-whitespace characters.
      var tokens := Words(attrs[i]);
      ghost var before := found;
      for j := 0 to |tokens|
        invariant found == before + Kept(tokens[..j])
      {
        var token := tokens[j];
        if token != "" && ValidClass(token) {
          found := found + {token};
        }
        assert tokens[..j + 1][..j] == tokens[..j];
      }
      assert tokens[..|tokens|] == tokens;
      assert attrs[..i + 1][..i] == attrs[..i];
    }
    assert attrs[..|attrs|] == attrs;
    forall t | t in found
      ensures ValidClass(t)
    {
      ClassSetMembers(attrs, t);
    }
    classes := Sorted(found);
  }
}
