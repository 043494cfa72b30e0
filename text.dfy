/** Character-level helpers shared by the token classifiers and the reports:
    Python's notion of whitespace and `str.strip`, ASCII case folding,
    decimal digits, and Python's code-point ordering of strings together
    with `sorted` over a set of strings or integers. */
module Text {

  /** `str.isspace()` for one character, as CPython defines it. */
  predicate IsSpace(c: char) {
    c == ' ' || ('\t' <= c <= '\r') || ('\U{1c}' <= c <= '\U{1f}')
    || c == '\U{85}' || c == '\U{a0}' || c == '\U{1680}'
    || ('\U{2000}' <= c <= '\U{200a}') || c == '\U{2028}' || c == '\U{2029}'
    || c == '\U{202f}' || c == '\U{205f}' || c == '\U{3000}'
  }

  predicate AllSpace(s: string) {
    forall i :: 0 <= i < |s| ==> IsSpace(s[i])
  }

  function TrimLeft(s: string): (r: string)
    ensures |r| <= |s|
    ensures r == [] || !IsSpace(r[0])
    ensures AllSpace(s[..|s| - |r|])
  {
    if s == [] || !IsSpace(s[0]) then s
    else
      var r := TrimLeft(s[1..]);
      assert s[1..][..|s| - 1 - |r|] == s[1..|s| - |r|];
      r
  }

  function TrimRight(s: string): (r: string)
    ensures |r| <= |s|
    ensures r == [] || !IsSpace(r[|r| - 1])
    ensures AllSpace(s[|r|..])
  {
    if s == [] || !IsSpace(s[|s| - 1]) then s
    else
      var r := TrimRight(s[..|s| - 1]);
      assert s[|r|..] == s[..|s| - 1][|r|..] + [s[|s| - 1]];
      r
  }

  /** What is left after trimming on the left is a suffix of the input
      (stated apart from `TrimLeft` to keep its unfolding cheap). */
  lemma {:induction false} TrimLeftSuffix(s: string)
    ensures TrimLeft(s) == s[|s| - |TrimLeft(s)|..]
    decreases |s|
  {
    if s != [] && IsSpace(s[0]) {
      TrimLeftSuffix(s[1..]);
    }
  }

  lemma {:induction false} TrimRightPrefix(s: string)
    ensures TrimRight(s) == s[..|TrimRight(s)|]
    decreases |s|
  {
    if s != [] && IsSpace(s[|s| - 1]) {
      TrimRightPrefix(s[..|s| - 1]);
    }
  }

  /** Python's `str.strip()` with no argument. */
  function Strip(s: string): (r: string)
  {
    TrimRight(TrimLeft(s))
  }

  lemma {:induction false} TrimLeftPadded(p: string, s: string)
    requires AllSpace(p)
    ensures TrimLeft(p + s) == TrimLeft(s)
    decreases |p|
  {
    if p != [] {
      assert (p + s)[1..] == p[1..] + s;
      TrimLeftPadded(p[1..], s);
    } else {
      assert p + s == s;
    }
  }

  lemma {:induction false} TrimRightPadded(s: string, q: string)
    requires AllSpace(q)
    ensures TrimRight(s + q) == TrimRight(s)
    decreases |q|
  {
    if q != [] {
      assert (s + q)[..|s + q| - 1] == s + q[..|q| - 1];
      TrimRightPadded(s, q[..|q| - 1]);
    } else {
      assert s + q == s;
    }
  }

  /** Appending whitespace after a string that still has content once
      trimmed on the left only lengthens the left-trimmed form. */
  lemma {:induction false} TrimLeftAppend(s: string, q: string)
    ensures TrimLeft(s) != [] ==> TrimLeft(s + q) == TrimLeft(s) + q
    ensures TrimLeft(s) == [] ==> TrimLeft(s + q) == TrimLeft(q)
    decreases |s|
  {
    if s == [] {
      assert s + q == q;
    } else if !IsSpace(s[0]) {
    } else {
      assert (s + q)[1..] == s[1..] + q;
      TrimLeftAppend(s[1..], q);
    }
  }

  /** Surrounding whitespace never changes what `strip` returns: every
      classifier that strips its token therefore ignores padding. */
  lemma StripPadded(p: string, s: string, q: string)
    requires AllSpace(p) && AllSpace(q)
    ensures Strip(p + s + q) == Strip(s)
  {
    assert p + s + q == p + (s + q);
    TrimLeftPadded(p, s + q);
    TrimLeftAppend(s, q);
    if TrimLeft(s) != [] {
      TrimRightPadded(TrimLeft(s), q);
    } else {
      TrimLeftPadded(q, []);
      assert q + [] == q;
    }
  }

  // ---------------------------------------------------------------------
  // ASCII case folding

  function LowerChar(c: char): char {
    if 'A' <= c <= 'Z' then (c as int + 32) as char else c
  }

  /** Lower-casing; only ASCII letters are folded (see README). */
  function Lower(s: string): (r: string)
    ensures |r| == |s|
    ensures forall i :: 0 <= i < |s| ==> r[i] == LowerChar(s[i])
  {
    if s == [] then [] else [LowerChar(s[0])] + Lower(s[1..])
  }

  lemma LowerAppend(a: string, b: string)
    ensures Lower(a + b) == Lower(a) + Lower(b)
  {
    assert forall i :: 0 <= i < |a + b| ==> Lower(a + b)[i] == (Lower(a) + Lower(b))[i];
  }

  lemma LowerIdempotent(s: string)
    ensures Lower(Lower(s)) == Lower(s)
  {
  }

  lemma {:induction false} TrimLeftLower(s: string)
    ensures TrimLeft(Lower(s)) == Lower(TrimLeft(s))
    decreases |s|
  {
    if s != [] {
      var l := Lower(s);
      assert l[0] == LowerChar(s[0]) && l[1..] == Lower(s[1..]);
      if IsSpace(s[0]) {
        assert IsSpace(l[0]);
        calc {
          TrimLeft(l);
          TrimLeft(l[1..]);
          { TrimLeftLower(s[1..]); }
          Lower(TrimLeft(s[1..]));
          Lower(TrimLeft(s));
        }
      } else {
        assert !IsSpace(l[0]);
      }
    }
  }

  /** No whitespace character is an ASCII letter. */
  lemma SpaceLowerChar(c: char)
    ensures IsSpace(LowerChar(c)) == IsSpace(c)
  {
    if 'A' <= c <= 'Z' {
      assert 'a' <= LowerChar(c) <= 'z';
    }
  }

  lemma LowerInit(s: string)
    requires s != []
    ensures Lower(s)[..|s| - 1] == Lower(s[..|s| - 1])
    ensures IsSpace(Lower(s)[|s| - 1]) == IsSpace(s[|s| - 1])
  {
    SpaceLowerChar(s[|s| - 1]);
  }

  lemma {:induction false} TrimRightLower(s: string)
    ensures TrimRight(Lower(s)) == Lower(TrimRight(s))
    decreases |s|
  {
    if s != [] {
      var l := Lower(s);
      var init := s[..|s| - 1];
      LowerInit(s);
      if IsSpace(s[|s| - 1]) {
        calc {
          TrimRight(l);
          TrimRight(l[..|l| - 1]);
          { TrimRightLower(init); }
          Lower(TrimRight(init));
          Lower(TrimRight(s));
        }
      }
    }
  }

  /** Folding case and stripping commute, since no whitespace character
      is an ASCII letter. */
  lemma StripLower(s: string)
    ensures Strip(Lower(s)) == Lower(Strip(s))
  {
    TrimLeftLower(s);
    TrimRightLower(TrimLeft(s));
  }

  // ---------------------------------------------------------------------
  // Decimal digits

  predicate IsDigit(c: char) {
    '0' <= c <= '9'
  }

  predicate AllDigits(s: string) {
    forall i :: 0 <= i < |s| ==> IsDigit(s[i])
  }

  /** The value of a run of decimal digits, most significant first. */
  function DigitsValue(s: string): (n: nat)
    requires AllDigits(s)
  {
    if s == [] then 0
    else DigitsValue(s[..|s| - 1]) * 10 + (s[|s| - 1] as int - '0' as int)
  }

  // ---------------------------------------------------------------------
  // Python's ordering of strings: lexicographic by code point, and a
  // proper prefix sorts first.

  predicate LexLess(a: string, b: string)
    decreases |a|
  {
    if a == [] then b != []
    else if b == [] then false
    else a[0] < b[0] || (a[0] == b[0] && LexLess(a[1..], b[1..]))
  }

  lemma {:induction false} LexIrreflexive(a: string)
    ensures !LexLess(a, a)
    decreases |a|
  {
    if a != [] {
      LexIrreflexive(a[1..]);
    }
  }

  lemma {:induction false} LexAsymmetric(a: string, b: string)
    ensures LexLess(a, b) ==> !LexLess(b, a)
    decreases |a|
  {
    if a != [] && b != [] {
      LexAsymmetric(a[1..], b[1..]);
    }
  }

  lemma {:induction false} LexTransitive(a: string, b: string, c: string)
    requires LexLess(a, b) && LexLess(b, c)
    ensures LexLess(a, c)
    decreases |a|
  {
    if a != [] && a[0] == b[0] && b[0] == c[0] {
      LexTransitive(a[1..], b[1..], c[1..]);
    }
  }

  lemma {:induction false} LexTotal(a: string, b: string)
    requires a != b
    ensures LexLess(a, b) || LexLess(b, a)
    decreases |a|
  {
    if a != [] && b != [] && a[0] == b[0] {
      assert a == [a[0]] + a[1..] && b == [b[0]] + b[1..];
      LexTotal(a[1..], b[1..]);
    }
  }

  predicate IsLeastString(m: string, s: set<string>) {
    m in s && forall y :: y in s && y != m ==> LexLess(m, y)
  }

  lemma {:induction false} LeastStringExists(s: set<string>)
    requires s != {}
    ensures exists m :: IsLeastString(m, s)
    decreases |s|
  {
    var x :| x in s;
    if s != {x} {
      LeastStringExists(s - {x});
      var m :| IsLeastString(m, s - {x});
      LexTotal(x, m);
      if LexLess(x, m) {
        forall y | y in s && y != x ensures LexLess(x, y) {
          if y != m { LexTransitive(x, m, y); }
        }
        assert IsLeastString(x, s);
      } else {
        assert IsLeastString(m, s);
      }
    } else {
      assert IsLeastString(x, s);
    }
  }

  lemma LeastStringUnique(s: set<string>)
    ensures forall m, n :: IsLeastString(m, s) && IsLeastString(n, s) ==> m == n
  {
    forall m, n | IsLeastString(m, s) && IsLeastString(n, s) ensures m == n {
      LexAsymmetric(m, n);
    }
  }

  predicate StrictlySortedStrings(r: seq<string>) {
    forall i, j :: 0 <= i < j < |r| ==> LexLess(r[i], r[j])
  }

  /** Python's `sorted(list(s))` for a set of strings. */
  function SortedStrings(s: set<string>): (r: seq<string>)
    ensures |r| == |s|
    ensures forall x :: x in r <==> x in s
    decreases |s|
  {
    if s == {} then []
    else
      LeastStringExists(s);
      LeastStringUnique(s);
      var m :| IsLeastString(m, s);
      [m] + SortedStrings(s - {m})
  }

  /** The order is ascending with no repetition (kept apart from the
      function's contract, which every caller would otherwise carry). */
  lemma {:induction false} SortedStringsSorted(s: set<string>)
    ensures StrictlySortedStrings(SortedStrings(s))
    decreases |s|
  {
    if s != {} {
      LeastStringExists(s);
      LeastStringUnique(s);
      var m :| IsLeastString(m, s);
      var tail := SortedStrings(s - {m});
      var r := SortedStrings(s);
      assert r == [m] + tail;
      SortedStringsSorted(s - {m});
      assert forall j :: 0 <= j < |tail| ==> tail[j] in s - {m};
      forall i, j | 0 <= i < j < |r| ensures LexLess(r[i], r[j]) {
        assert r[j] == tail[j - 1];
        if i > 0 {
          assert r[i] == tail[i - 1];
        }
      }
    }
  }

  // ---------------------------------------------------------------------
  // `sorted` over a set of integers

  /** Some element of a non-empty set. */
  lemma Pick<T>(s: set<T>) returns (x: T)
    requires s != {}
    ensures x in s
  {
    x :| x in s;
  }

  predicate IsLeastInt(m: int, s: set<int>) {
    m in s && forall y :: y in s ==> m <= y
  }

  lemma {:induction false} LeastIntExists(s: set<int>)
    requires s != {}
    ensures exists m :: IsLeastInt(m, s)
    decreases |s|
  {
    var x := Pick(s);
    if s != {x} {
      LeastIntExists(s - {x});
      var m :| IsLeastInt(m, s - {x});
      if x <= m {
        forall y | y in s ensures x <= y {
          if y != x { assert y in s - {x}; }
        }
        assert IsLeastInt(x, s);
      } else {
        forall y | y in s ensures m <= y {
          if y != x { assert y in s - {x}; }
        }
        assert IsLeastInt(m, s);
      }
    } else {
      assert IsLeastInt(x, s);
    }
  }

  predicate StrictlyIncreasing(r: seq<int>) {
    forall i, j :: 0 <= i < j < |r| ==> r[i] < r[j]
  }

  /** `unique().sort()`: the distinct values, ascending. */
  function SortedInts(s: set<int>): (r: seq<int>)
    ensures |r| == |s|
    ensures forall x :: x in r <==> x in s
    decreases |s|
  {
    if s == {} then []
    else
      LeastIntExists(s);
      var m :| IsLeastInt(m, s);
      [m] + SortedInts(s - {m})
  }

  lemma {:induction false} SortedIntsSorted(s: set<int>)
    ensures StrictlyIncreasing(SortedInts(s))
    decreases |s|
  {
    if s != {} {
      LeastIntExists(s);
      var m :| IsLeastInt(m, s);
      var rest := s - {m};
      var tail := SortedInts(rest);
      var r := SortedInts(s);
      assert r == [m] + tail;
      SortedIntsSorted(rest);
      forall j | 0 <= j < |tail| ensures m < tail[j] {
        assert tail[j] in rest;
      }
      forall i, j | 0 <= i < j < |r| ensures r[i] < r[j] {
        assert r[j] == tail[j - 1];
        if i > 0 {
          assert r[i] == tail[i - 1];
        }
      }
    }
  }
}
