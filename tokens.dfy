/** Type-token classifiers: whether one raw value, before any parsing into
    a typed column, has the literal form of its declared semantic type.
    Each classifier accepts `None`: absence is never a type violation. */
module Tokens {
  import opened Text
  import opened Values
  import R = Registry

  // ---------------------------------------------------------------------
  // Integer tokens: `^[+-]?\d+$`

  /** A token with no whitespace at either end is its own stripped form. */
  lemma StripUnpadded(s: string)
    requires s == [] || (!IsSpace(s[0]) && !IsSpace(s[|s| - 1]))
    ensures Strip(s) == s
  {
  }

  predicate IsSign(c: char) {
    c == '+' || c == '-'
  }

  /** The token without its optional leading sign. */
  function DropSign(s: string): (r: string)
    ensures r == s || (|s| > 0 && IsSign(s[0]) && r == s[1..])
  {
    if |s| > 0 && IsSign(s[0]) then s[1..] else s
  }

  predicate IntToken(s: string) {
    var d := DropSign(s);
    |d| > 0 && AllDigits(d)
  }

  /** An integer token is exactly an optional sign followed by one or
      more digits. */
  lemma IntTokenIff(s: string)
    ensures IntToken(s) <==>
      exists sign: string, digits: string ::
        sign in {"", "+", "-"} && |digits| > 0 && AllDigits(digits) && s == sign + digits
  {
    if IntToken(s) {
      var d := DropSign(s);
      var sign := s[..|s| - |d|];
      assert sign == "" || sign == [s[0]];
      assert sign in {"", "+", "-"};
      assert s == sign + d;
      assert sign in {"", "+", "-"} && |d| > 0 && AllDigits(d) && s == sign + d;
    }
    if exists sign: string, digits: string ::
         sign in {"", "+", "-"} && |digits| > 0 && AllDigits(digits) && s == sign + digits
    {
      var sign: string, digits: string :|
        sign in {"", "+", "-"} && |digits| > 0 && AllDigits(digits) && s == sign + digits;
      IntTokenFrom(sign, digits);
    }
  }

  lemma IntTokenFrom(sign: string, digits: string)
    requires sign in {"", "+", "-"} && |digits| > 0 && AllDigits(digits)
    ensures IntToken(sign + digits)
  {
    var s := sign + digits;
    if sign == "" {
      assert s == digits && !IsSign(s[0]);
    } else {
      assert s[0] == sign[0] && s[1..] == digits;
    }
  }

  // ---------------------------------------------------------------------
  // Floating-point tokens: `^[+-]?((\d+(\.\d*)?)|(\.\d+))([eE][+-]?\d+)?$`

  predicate IsExpMark(c: char) {
    c == 'e' || c == 'E'
  }

  /** `(\d+(\.\d*)?)|(\.\d+)`: digits with at most one decimal point and
      at least one digit. */
  predicate Mantissa(m: string) {
    (|m| > 0 && AllDigits(m))
    || (|m| > 1 && exists k :: 0 <= k < |m| && m[k] == '.' && AllDigits(m[..k]) && AllDigits(m[k + 1..]))
  }

  /** `([eE][+-]?\d+)?` */
  predicate Exponent(e: string) {
    e == [] || (IsExpMark(e[0]) && IntToken(e[1..]))
  }

  /** Index of the first exponent mark, or the length when there is none. */
  function ExpIndex(t: string): (j: nat)
    ensures j <= |t|
    ensures j < |t| ==> IsExpMark(t[j])
    ensures forall i :: 0 <= i < j ==> !IsExpMark(t[i])
  {
    if t == [] || IsExpMark(t[0]) then 0 else 1 + ExpIndex(t[1..])
  }

  predicate FloatToken(s: string) {
    var t := DropSign(s);
    var j := ExpIndex(t);
    Mantissa(t[..j]) && Exponent(t[j..])
  }

  lemma MantissaHasNoMarks(m: string)
    requires Mantissa(m)
    ensures forall i :: 0 <= i < |m| ==> !IsExpMark(m[i]) && !IsSign(m[i])
  {
    if !(|m| > 0 && AllDigits(m)) {
      var k :| 0 <= k < |m| && m[k] == '.' && AllDigits(m[..k]) && AllDigits(m[k + 1..]);
      forall i | 0 <= i < |m| ensures !IsExpMark(m[i]) && !IsSign(m[i]) {
        if i < k { assert m[..k][i] == m[i]; }
        else if i > k { assert m[k + 1..][i - k - 1] == m[i]; }
      }
    }
  }

  /** A float token is an optional sign, a mantissa and an optional
      exponent: the scanner above accepts exactly the regular expression's
      language. */
  lemma FloatTokenIff(s: string)
    ensures FloatToken(s) <==>
      exists sign: string, mant: string, exp: string ::
        sign in {"", "+", "-"} && Mantissa(mant) && Exponent(exp) && s == sign + mant + exp
  {
    var t := DropSign(s);
    var j := ExpIndex(t);
    if FloatToken(s) {
      var sign := s[..|s| - |t|];
      assert sign == "" || sign == [s[0]];
      assert sign in {"", "+", "-"};
      assert s == sign + t[..j] + t[j..];
      assert sign in {"", "+", "-"} && Mantissa(t[..j]) && Exponent(t[j..]) && s == sign + t[..j] + t[j..];
    }
    if exists sign: string, mant: string, exp: string ::
         sign in {"", "+", "-"} && Mantissa(mant) && Exponent(exp) && s == sign + mant + exp
    {
      var sign: string, mant: string, exp: string :|
        sign in {"", "+", "-"} && Mantissa(mant) && Exponent(exp) && s == sign + mant + exp;
      FloatTokenFrom(sign, mant, exp);
    }
  }

  lemma FloatTokenFrom(sign: string, mant: string, exp: string)
    requires sign in {"", "+", "-"} && Mantissa(mant) && Exponent(exp)
    ensures FloatToken(sign + mant + exp)
  {
    var s := sign + mant + exp;
    MantissaHasNoMarks(mant);
    var t := DropSign(s);
    assert t == mant + exp by {
      assert |mant| > 0;
      if sign == "" {
        assert s == mant + exp && s[0] == mant[0];
      } else {
        assert s[0] == sign[0] && s[1..] == mant + exp;
      }
    }
    ExpIndexSplit(mant, exp);
    assert t[..|mant|] == mant && t[|mant|..] == exp;
  }

  lemma ExpIndexSplit(m: string, e: string)
    requires forall i :: 0 <= i < |m| ==> !IsExpMark(m[i])
    requires Exponent(e)
    ensures ExpIndex(m + e) == |m|
  {
    if |e| > 0 {
      assert (m + e)[|m|] == e[0];
    }
    forall i | 0 <= i < |m| ensures !IsExpMark((m + e)[i]) {
      assert (m + e)[i] == m[i];
    }
  }

  /** Every integer token is also a float token. */
  lemma IntTokenIsFloatToken(s: string)
    requires IntToken(s)
    ensures FloatToken(s)
  {
    var t := DropSign(s);
    ExpIndexSplit(t, []);
    assert t + [] == t;
  }

  // ---------------------------------------------------------------------
  // Boolean tokens

  const BoolWords: set<string> := {"true", "false", "1", "0", "t", "f", "yes", "no"}

  // ---------------------------------------------------------------------
  // Dates and date-times: the extended ISO 8601 profile read by
  // `datetime.fromisoformat` (a calendar date YYYY-MM-DD, section 4.1.2.2
  // of ISO 8601:2004, optionally followed by one separator character, a
  // time of day HH[:MM[:SS[.fff|.ffffff]]] and a UTC offset +HH:MM or
  // -HH:MM, section 4.3.2).

  predicate IsLeapYear(y: int) {
    y % 4 == 0 && (y % 100 != 0 || y % 400 == 0)
  }

  function DaysInMonth(y: int, m: int): (d: int)
    requires 1 <= m <= 12
    ensures 28 <= d <= 31
    ensures m == 2 ==> (d == 29 <==> IsLeapYear(y))
  {
    if m == 2 then (if IsLeapYear(y) then 29 else 28)
    else if m == 4 || m == 6 || m == 9 || m == 11 then 30
    else 31
  }

  /** Two digits at `i` whose value is below `bound`. */
  predicate Field2(x: string, i: nat, bound: nat) {
    i + 2 <= |x| && AllDigits(x[i..i + 2]) && DigitsValue(x[i..i + 2]) < bound
  }

  predicate IsoDate(d: string) {
    |d| == 10 && d[4] == '-' && d[7] == '-'
    && AllDigits(d[..4]) && AllDigits(d[5..7]) && AllDigits(d[8..])
    && 1 <= DigitsValue(d[..4])
    && 1 <= DigitsValue(d[5..7]) <= 12
    && 1 <= DigitsValue(d[8..]) <= DaysInMonth(DigitsValue(d[..4]), DigitsValue(d[5..7]))
  }

  /** HH, HH:MM, HH:MM:SS, HH:MM:SS.fff or HH:MM:SS.ffffff */
  predicate IsoClock(x: string) {
    Field2(x, 0, 24)
    && (|x| == 2
        || (|x| >= 5 && x[2] == ':' && Field2(x, 3, 60)
            && (|x| == 5
                || (|x| >= 8 && x[5] == ':' && Field2(x, 6, 60)
                    && (|x| == 8
                        || ((|x| == 12 || |x| == 15) && x[8] == '.' && AllDigits(x[9..])))))))
  }

  /** +HH:MM or -HH:MM */
  predicate IsoOffset(z: string) {
    |z| == 6 && IsSign(z[0]) && Field2(z, 1, 24) && z[3] == ':' && Field2(z, 4, 60)
  }

  /** Index of the first '+' or '-', or the length when there is none. */
  function SignIndex(t: string): (k: nat)
    ensures k <= |t|
    ensures k < |t| ==> IsSign(t[k])
    ensures forall i :: 0 <= i < k ==> !IsSign(t[i])
  {
    if t == [] || IsSign(t[0]) then 0 else 1 + SignIndex(t[1..])
  }

  predicate IsoTime(t: string) {
    var k := SignIndex(t);
    IsoClock(t[..k]) && (k == |t| || IsoOffset(t[k..]))
  }

  /** `datetime.fromisoformat` succeeds. */
  predicate IsoDateTime(s: string) {
    |s| >= 10 && IsoDate(s[..10]) && (|s| == 10 || IsoTime(s[11..]))
  }

  /** `s.replace("Z", "+00:00")` */
  function ReplaceZ(s: string): (r: string)
    ensures 'Z' !in r
    ensures 'Z' !in s ==> r == s
    ensures s == "Z" ==> r == "+00:00"
    ensures |r| >= |s|
  {
    if s == [] then []
    else (if s[0] == 'Z' then "+00:00" else [s[0]]) + ReplaceZ(s[1..])
  }

  // ---------------------------------------------------------------------
  // The classifiers, over any value

  predicate IsIntLike(x: Value) {
    match x
    case Null => true
    case Bool(_) => true   // Python's bool is a subclass of int
    case Int(_) => true
    case Str(s) => IntToken(Strip(s))
    case _ => false
  }

  predicate IsFloatLike(x: Value) {
    match x
    case Null => true
    case Bool(_) => true
    case Int(_) => true
    case Float(_) => true
    case Str(s) => FloatToken(Strip(s))
    case _ => false
  }

  predicate IsBoolLike(x: Value) {
    match x
    case Null => true
    case Bool(_) => true
    case Str(s) => Lower(Strip(s)) in BoolWords
    case Int(i) => i == 0 || i == 1
    case Float(f) => f == 0.0 || f == 1.0
    case _ => false
  }

  predicate IsDateLike(x: Value) {
    match x
    case Null => true
    case DateTime => true
    case Str(s) => DateToken(Strip(s))
    case _ => false
  }

  /** A stripped date token: with a 'T', every 'Z' is first rewritten to
      the offset +00:00. */
  predicate DateToken(t: string) {
    if 'T' in t then IsoDateTime(ReplaceZ(t)) else IsoDateTime(t)
  }

  /** The per-type dispatch of the event-log token check: integer, float,
      boolean and temporal columns are classified, every other declared
      type accepts any value. */
  predicate Conforms(t: R.DType, v: Value) {
    match t
    case Int => IsIntLike(v)
    case Float => IsFloatLike(v)
    case Boolean => IsBoolLike(v)
    case Date => IsDateLike(v)
    case Datetime => IsDateLike(v)
    case _ => true
  }

  // ---------------------------------------------------------------------
  // Properties of the classifiers

  /** Absence is never a type violation. */
  lemma NullConforms(t: R.DType)
    ensures Conforms(t, Null)
    ensures IsIntLike(Null) && IsFloatLike(Null) && IsBoolLike(Null) && IsDateLike(Null)
  {
  }

  /** Whatever the integer classifier accepts, the float classifier accepts. */
  lemma IntLikeIsFloatLike(x: Value)
    requires IsIntLike(x)
    ensures IsFloatLike(x)
  {
    if x.Str? {
      IntTokenIsFloatToken(Strip(x.s));
    }
  }

  /** A string is integer-like exactly when, stripped of surrounding
      whitespace, it is an optional sign followed by digits. */
  lemma IntLikeString(s: string)
    ensures IsIntLike(Str(s)) <==>
      exists sign: string, digits: string ::
        sign in {"", "+", "-"} && |digits| > 0 && AllDigits(digits) && Strip(s) == sign + digits
  {
    IntTokenIff(Strip(s));
  }

  /** Only the non-string values 0 and 1 (and booleans) are boolean-like. */
  lemma BoolLikeNumbers(i: int, f: real)
    ensures IsBoolLike(Int(i)) <==> i in {0, 1}
    ensures IsBoolLike(Float(f)) <==> f in {0.0, 1.0}
  {
  }

  /** Every classifier ignores whitespace around a string token. */
  lemma IntLikeIgnoresPadding(p: string, s: string, q: string)
    requires AllSpace(p) && AllSpace(q)
    ensures IsIntLike(Str(p + s + q)) == IsIntLike(Str(s))
  {
    StripPadded(p, s, q);
  }

  lemma FloatLikeIgnoresPadding(p: string, s: string, q: string)
    requires AllSpace(p) && AllSpace(q)
    ensures IsFloatLike(Str(p + s + q)) == IsFloatLike(Str(s))
  {
    StripPadded(p, s, q);
  }

  lemma BoolLikeIgnoresPadding(p: string, s: string, q: string)
    requires AllSpace(p) && AllSpace(q)
    ensures IsBoolLike(Str(p + s + q)) == IsBoolLike(Str(s))
  {
    StripPadded(p, s, q);
  }

  lemma DateLikeIgnoresPadding(p: string, s: string, q: string)
    requires AllSpace(p) && AllSpace(q)
    ensures IsDateLike(Str(p + s + q)) == IsDateLike(Str(s))
  {
    StripPadded(p, s, q);
  }

  /** The boolean classifier does not look at the case of ASCII letters. */
  lemma BoolLikeIgnoresCase(a: string, b: string)
    requires Lower(a) == Lower(b)
    ensures IsBoolLike(Str(a)) == IsBoolLike(Str(b))
  {
    StripLower(a);
    StripLower(b);
  }

  /** The replacement works one character at a time. */
  lemma {:induction false} ReplaceZAppend(a: string, b: string)
    ensures ReplaceZ(a + b) == ReplaceZ(a) + ReplaceZ(b)
  {
    if a != [] {
      assert (a + b)[1..] == a[1..] + b;
      ReplaceZAppend(a[1..], b);
    } else {
      assert a + b == b;
    }
  }

  predicate DateChar(c: char) {
    IsDigit(c) || c == '-'
  }

  /** A prefix made of digits and dashes cannot come from a rewritten 'Z'. */
  lemma {:induction false} ReplaceZKeepsDatePrefix(t: string, n: nat)
    requires n <= |ReplaceZ(t)|
    requires forall i :: 0 <= i < n ==> DateChar(ReplaceZ(t)[i])
    ensures n <= |t| && ReplaceZ(t)[..n] == t[..n]
    decreases n
  {
    if n > 0 {
      assert t != [];
      assert ReplaceZ(t)[0] == (if t[0] == 'Z' then '+' else t[0]);
      var rest := ReplaceZ(t[1..]);
      assert ReplaceZ(t) == [t[0]] + rest;
      forall i | 0 <= i < n - 1 ensures DateChar(rest[i]) {
        assert rest[i] == ReplaceZ(t)[i + 1];
      }
      ReplaceZKeepsDatePrefix(t[1..], n - 1);
      assert ReplaceZ(t)[..n] == [t[0]] + rest[..n - 1];
    }
  }

  /** Every accepted date token starts, after stripping, with a valid
      calendar date YYYY-MM-DD: the 'Z' rewrite never produces the date. */
  lemma DateLikeStartsWithDate(s: string)
    requires IsDateLike(Str(s))
    ensures |Strip(s)| >= 10 && IsoDate(Strip(s)[..10])
  {
    var t := Strip(s);
    if 'T' in t {
      var u := ReplaceZ(t);
      assert IsoDate(u[..10]);
      forall i | 0 <= i < 10 ensures DateChar(u[i]) {
        assert u[..10][i] == u[i];
        assert AllDigits(u[..10][..4]) && AllDigits(u[..10][5..7]) && AllDigits(u[..10][8..]);
        if i < 4 { assert u[..10][..4][i] == u[i]; }
        else if 5 <= i < 7 { assert u[..10][5..7][i - 5] == u[i]; }
        else if 8 <= i { assert u[..10][8..][i - 8] == u[i]; }
      }
      ReplaceZKeepsDatePrefix(t, 10);
    }
  }

  // ---------------------------------------------------------------------
  // Cases the classifiers are known to decide. Each fact about a literal
  // token is proved on its own, so that the solver never unfolds the
  // classifiers and the token grammar over a literal at the same time.

  lemma StripExample()
    ensures Strip("  +42 ") == "+42"
  {
    var p, q := "  ", " ";
    assert AllSpace(p) && AllSpace(q);
    assert p + "+42" + q == "  +42 ";
    StripPadded(p, "+42", q);
    StripUnpadded("+42");
  }

  lemma IntTokenExamples()
    ensures IntToken("+42") && IntToken("-7") && !IntToken("abc")
  {
    assert DropSign("+42") == "42";
    assert DropSign("-7") == "7";
    assert !IsDigit("abc"[0]);
  }

  /** Padding is stripped before the integer pattern is applied, and the
      pattern itself admits no space. */
  lemma PaddedIntExamples()
    ensures IsIntLike(Str(" 1")) && !IntToken(" 1")
  {
    var p, q := " ", "";
    assert AllSpace(p) && AllSpace(q);
    assert p + "1" + q == " 1";
    StripPadded(p, "1", q);
    StripUnpadded("1");
    assert DropSign(" 1") == " 1" && !IsDigit(" 1"[0]);
  }

  lemma IntLikeExample()
    ensures IsIntLike(Str("  +42 "))
  {
    StripExample();
    IntTokenExamples();
  }

  lemma FloatTokenExamples()
    ensures FloatToken("2.5") && FloatToken(".5")
  {
    FloatTokenFrom("", "2.5", "") by {
      assert "2.5"[1] == '.' && "2.5"[..1] == "2" && "2.5"[2..] == "5";
    }
    FloatTokenFrom("", ".5", "") by {
      assert ".5"[0] == '.' && ".5"[..0] == "" && ".5"[1..] == "5";
    }
    assert "" + "2.5" + "" == "2.5" && "" + ".5" + "" == ".5";
  }

  lemma FloatTokenTrailingPoint()
    ensures FloatToken("5.")
  {
    FloatTokenFrom("", "5.", "") by {
      assert "5."[1] == '.' && "5."[..1] == "5" && "5."[2..] == "";
    }
    assert "" + "5." + "" == "5.";
  }

  lemma FloatTokenExponents()
    ensures FloatToken("1e5") && FloatToken("1e-3")
  {
    FloatTokenFrom("", "1", "e5") by {
      assert "e5"[1..] == "5";
    }
    FloatTokenFrom("", "1", "e-3") by {
      assert "e-3"[1..] == "-3" && DropSign("-3") == "3";
    }
    assert "" + "1" + "e5" == "1e5" && "" + "1" + "e-3" == "1e-3";
  }

  lemma FloatTokenRejects()
    ensures !FloatToken("xx") && !FloatToken("1.2.3")
  {
    assert ExpIndex("xx") == 2 && "xx"[..2] == "xx";
    assert !IsDigit("xx"[0]) && "xx"[0] != '.' && "xx"[1] != '.';
    var t := "1.2.3";
    assert ExpIndex(t) == 5 && t[..5] == t;
    assert !IsDigit(t[1]);
    forall k | 0 <= k < 5 && t[k] == '.' ensures !(AllDigits(t[..k]) && AllDigits(t[k + 1..])) {
      if k == 1 { assert t[k + 1..][1] == '.'; } else { assert t[..k][1] == '.'; }
    }
  }

  lemma FloatLikeExample()
    ensures IsFloatLike(Str("1e-3"))
  {
    StripUnpadded("1e-3");
    FloatTokenExponents();
  }

  lemma LowerExamples()
    ensures Lower("true") == "true" && Lower("No") == "no" && Lower("T") == "t"
    ensures Lower("YES") == "yes" && Lower("maybe") !in BoolWords
  {
    var y := Lower("YES");
    assert y[0] == 'y' && y[1] == 'e' && y[2] == 's';
    var n := Lower("No");
    assert n[0] == 'n' && n[1] == 'o';
    var t := Lower("true");
    assert t[0] == 't' && t[1] == 'r' && t[2] == 'u' && t[3] == 'e';
    var m := Lower("maybe");
    assert |m| == 5 && m[0] == 'm';
  }

  lemma BoolLikeExample()
    ensures IsBoolLike(Str("YES"))
  {
    StripUnpadded("YES");
    LowerExamples();
  }

  lemma DigitsValueSnoc(s: string, c: char)
    requires AllDigits(s) && IsDigit(c)
    ensures AllDigits(s + [c]) && DigitsValue(s + [c]) == DigitsValue(s) * 10 + (c as int - '0' as int)
  {
    assert (s + [c])[..|s|] == s;
  }

  lemma DigitsValueExamples()
    ensures DigitsValue("2020") == 2020 && DigitsValue("01") == 1
  {
    DigitsValueSnoc("", '2');
    assert "" + ['2'] == "2";
    DigitsValueSnoc("2", '0');
    assert "2" + ['0'] == "20";
    DigitsValueSnoc("20", '2');
    assert "20" + ['2'] == "202";
    DigitsValueSnoc("202", '0');
    assert "202" + ['0'] == "2020";
    DigitsValueSnoc("", '0');
    assert "" + ['0'] == "0";
    DigitsValueSnoc("0", '1');
    assert "0" + ['1'] == "01";
  }

  lemma IsoDateExample()
    ensures IsoDate("2020-01-01")
  {
    var d := "2020-01-01";
    assert d[..4] == "2020" && d[5..7] == "01" && d[8..] == "01";
    DigitsValueExamples();
  }

  lemma DateLikeExample()
    ensures IsDateLike(Str("2020-01-01"))
  {
    var d := "2020-01-01";
    StripUnpadded(d);
    IsoDateExample();
    assert d[..10] == d;
    assert 'T' !in d;
  }
}
