/** String and option helpers shared by the backend (Python) and frontend (TypeScript) models.

    Whitespace follows each language: Python's `str.isspace` for `strip()`, the smaller set
    Python's `int()` skips around a literal, and JavaScript's WhiteSpace and LineTerminator
    characters for `trim()` and `\s`. Case mapping is ASCII only. */
module Common {

  datatype Option<+T> = None | Some(value: T)

  /** Whose whitespace a trim removes: Python's `str.strip()`, Python's `int()`, or
      JavaScript's `trim()`. */
  datatype Dialect = Python | PythonInt | JavaScript

  /** Whitespace beyond ASCII that both languages share: no-break space, ogham space mark, en
      quad to hair space, line and paragraph separators, narrow no-break space, medium
      mathematical space and ideographic space. */
  predicate IsWideSpace(c: char) {
    var n := c as int;
    n == 0xA0 || n == 0x1680 || 0x2000 <= n <= 0x200A || n == 0x2028 || n == 0x2029
    || n == 0x202F || n == 0x205F || n == 0x3000
  }

  /** Tab, line feed, vertical tab, form feed, carriage return, space and the shared wide
      spaces in every dialect. Python's `str.isspace` adds the four information separators
      28-31 and next line (0x85). Python's `int()` skips next line but not the separators:
      below 128 it only skips the C-locale spaces. JavaScript adds the byte order mark
      (0xFEFF). */
  predicate IsSpace(c: char, d: Dialect) {
    var n := c as int;
    9 <= n <= 13 || n == 32 || IsWideSpace(c)
    || (d == Python && 28 <= n <= 31)
    || (d != JavaScript && n == 0x85)
    || (d == JavaScript && n == 0xFEFF)
  }

  /** Every character is whitespace (the empty string included). */
  predicate AllSpace(s: string, d: Dialect) {
    forall i :: 0 <= i < |s| ==> IsSpace(s[i], d)
  }

  function TrimStart(s: string, d: Dialect): (r: string)
    ensures |r| <= |s| && r == s[|s| - |r|..]
    ensures r == [] || !IsSpace(r[0], d)
    ensures AllSpace(s[..|s| - |r|], d)
  {
    if s != [] && IsSpace(s[0], d) then
      var r := TrimStart(s[1..], d);
      assert AllSpace(s[..|s| - |r|], d) by {
        var dropped, droppedLater := s[..|s| - |r|], s[1..][..|s| - 1 - |r|];
        assert AllSpace(droppedLater, d);
        forall i | 0 <= i < |dropped| ensures IsSpace(dropped[i], d) {
          if i == 0 {
            assert dropped[0] == s[0];
          } else {
            assert dropped[i] == droppedLater[i - 1];
          }
        }
      }
      r
    else s
  }

  function TrimEnd(s: string, d: Dialect): (r: string)
    ensures |r| <= |s| && r == s[..|r|]
    ensures r == [] || !IsSpace(r[|r| - 1], d)
    ensures AllSpace(s[|r|..], d)
  {
    if s != [] && IsSpace(s[|s| - 1], d) then
      var r := TrimEnd(s[..|s| - 1], d);
      assert AllSpace(s[|r|..], d) by {
        var dropped, droppedEarlier := s[|r|..], s[..|s| - 1][|r|..];
        assert AllSpace(droppedEarlier, d);
        forall i | 0 <= i < |dropped| ensures IsSpace(dropped[i], d) {
          if i == |dropped| - 1 {
            assert dropped[i] == s[|s| - 1];
          } else {
            assert dropped[i] == droppedEarlier[i];
          }
        }
      }
      r
    else s
  }

  /** Python `s.strip()` (with `Python`) and JavaScript `s.trim()` (with `JavaScript`). */
  function Trim(s: string, d: Dialect): string {
    TrimEnd(TrimStart(s, d), d)
  }

  /** `not s.strip()` in Python, `!s.trim()` in JavaScript. */
  predicate IsBlank(s: string, d: Dialect) {
    Trim(s, d) == ""
  }

  /** A string trims to nothing exactly when it is all whitespace. */
  lemma BlankIffAllSpace(s: string, d: Dialect)
    ensures IsBlank(s, d) <==> AllSpace(s, d)
  {
    var t := TrimStart(s, d);
    if !AllSpace(s, d) {
      var k :| 0 <= k < |s| && !IsSpace(s[k], d);
      assert s[..|s| - |t|] == s[..|s| - |t|];
      assert t != [];
    }
  }

  /** The trimmed string starts and ends with a non-space character. */
  lemma TrimmedEnds(s: string, d: Dialect)
    ensures Trim(s, d) == [] || (!IsSpace(Trim(s, d)[0], d) && !IsSpace(Trim(s, d)[|Trim(s, d)| - 1], d))
  {
    var t := TrimStart(s, d);
    var r := TrimEnd(t, d);
    if r != [] {
      assert r[0] == t[0];
    }
  }

  /** The two trims differ: Python strips an information separator that JavaScript keeps, and
      JavaScript strips a byte order mark that Python keeps. */
  lemma DialectsDiffer()
    ensures Trim([28 as char], Python) == "" && Trim([28 as char], JavaScript) == [28 as char]
    ensures Trim([0xFEFF as char], JavaScript) == "" && Trim([0xFEFF as char], Python) == [0xFEFF as char]
  {
    var fs, bom := [28 as char], [0xFEFF as char];
    assert IsSpace(28 as char, Python) && !IsSpace(28 as char, JavaScript);
    assert IsSpace(0xFEFF as char, JavaScript) && !IsSpace(0xFEFF as char, Python);
    assert fs + [] == fs && bom + [] == bom;
    TrimStartSkips(fs, [], Python);
    TrimStartKeeps(fs, JavaScript);
    TrimStartSkips(bom, [], JavaScript);
    TrimStartKeeps(bom, Python);
  }

  /** ASCII `toLowerCase` on one character. */
  function LowerChar(c: char): char {
    if 'A' <= c <= 'Z' then (c as int + 32) as char else c
  }

  /** ASCII `toUpperCase` on one character. */
  function UpperChar(c: char): char {
    if 'a' <= c <= 'z' then (c as int - 32) as char else c
  }

  function ToLower(s: string): (r: string)
    ensures |r| == |s| && forall i :: 0 <= i < |s| ==> r[i] == LowerChar(s[i])
  {
    seq(|s|, i requires 0 <= i < |s| => LowerChar(s[i]))
  }

  function ToUpper(s: string): (r: string)
    ensures |r| == |s| && forall i :: 0 <= i < |s| ==> r[i] == UpperChar(s[i])
  {
    seq(|s|, i requires 0 <= i < |s| => UpperChar(s[i]))
  }

  predicate StartsWith(s: string, prefix: string) {
    |prefix| <= |s| && s[..|prefix|] == prefix
  }

  predicate EndsWith(s: string, suffix: string) {
    |suffix| <= |s| && s[|s| - |suffix|..] == suffix
  }

  /** The substring relation, as JavaScript `s.includes(sub)` and Python `sub in s`. */
  predicate Contains(s: string, sub: string) {
    exists i | 0 <= i <= |s| - |sub| :: OccursAt(s, sub, i)
  }

  predicate OccursAt(s: string, sub: string, i: int) {
    0 <= i && i + |sub| <= |s| && s[i..i + |sub|] == sub
  }

  /** Every string contains the empty string (an empty search query matches everything). */
  lemma ContainsEmpty(s: string)
    ensures Contains(s, "")
  {
    assert OccursAt(s, "", 0);
  }

  // ---------------------------------------------------------------- decimal numbers

  predicate IsDigit(c: char) {
    '0' <= c <= '9'
  }

  predicate AllDigits(s: string) {
    forall i :: 0 <= i < |s| ==> IsDigit(s[i])
  }

  function DigitChar(d: nat): (c: char)
    requires d < 10
    ensures IsDigit(c) && c as int - '0' as int == d
  {
    ('0' as int + d) as char
  }

  /** Python `str(n)` / JavaScript `String(n)` / `n.toString()` for a non-negative integer. */
  function NatToDecimal(n: nat): (r: string)
    ensures |r| >= 1 && AllDigits(r)
    ensures r[0] == '0' ==> n == 0
    decreases n
  {
    if n < 10 then [DigitChar(n)] else NatToDecimal(n / 10) + [DigitChar(n % 10)]
  }

  /** The value of a string of decimal digits. */
  function DecimalValue(s: string): nat
    requires AllDigits(s)
  {
    if s == [] then 0 else DecimalValue(s[..|s| - 1]) * 10 + (s[|s| - 1] as int - '0' as int)
  }

  lemma {:induction false} DecimalRoundTrip(n: nat)
    ensures DecimalValue(NatToDecimal(n)) == n
    decreases n
  {
    if n >= 10 {
      var r := NatToDecimal(n);
      assert r[..|r| - 1] == NatToDecimal(n / 10);
      DecimalRoundTrip(n / 10);
    }
  }

  /** Distinct numbers print differently. */
  lemma NatToDecimalInjective(a: nat, b: nat)
    requires NatToDecimal(a) == NatToDecimal(b)
    ensures a == b
  {
    DecimalRoundTrip(a);
    DecimalRoundTrip(b);
  }

  /** `t` is the sign `sign` (none, `+` or `-`) followed by the non-empty run of decimal digits
      `digits`: the literals Python's `int()` accepts once whitespace is stripped. */
  predicate SignedDigits(t: string, sign: string, digits: string) {
    (sign == "" || sign == "+" || sign == "-") && digits != [] && AllDigits(digits) && t == sign + digits
  }

  /** The value of a signed literal. */
  function SignedValue(sign: string, digits: string): int
    requires AllDigits(digits)
  {
    var v: int := DecimalValue(digits);
    if sign == "-" then -v else v
  }

  /** Python `int(s)` on a string: surrounding whitespace (the `PythonInt` set), an optional
      sign, then at least one decimal digit. `None` stands for the `ValueError` Python raises
      otherwise. */
  function ParseInt(s: string): (r: Option<int>)
    ensures r.Some? ==> Trim(s, PythonInt) != []
  {
    ParseTrimmed(Trim(s, PythonInt))
  }

  /** `int(s)` succeeds exactly on a sign and digits inside whitespace, and then gives their
      signed value. */
  lemma ParseIntMeaning(s: string)
    ensures ParseInt(s).Some? <==> exists sign, digits :: SignedDigits(Trim(s, PythonInt), sign, digits)
    ensures forall sign, digits :: SignedDigits(Trim(s, PythonInt), sign, digits) ==>
      ParseInt(s) == Some(SignedValue(sign, digits))
  {
    ParseTrimmedMeaning(Trim(s, PythonInt));
  }

  /** `int(s)` once surrounding whitespace is gone. */
  function ParseTrimmed(t: string): (r: Option<int>)
    ensures r.Some? ==> t != []
  {
    if t == [] then None
    else if (t[0] == '-' || t[0] == '+') && |t| >= 2 && AllDigits(t[1..]) then
      var v: int := DecimalValue(t[1..]);
      Some(if t[0] == '-' then -v else v)
    else if AllDigits(t) then Some(DecimalValue(t))
    else None
  }

  /** Stripped text parses exactly when it is a sign and digits, to their signed value. */
  lemma ParseTrimmedMeaning(t: string)
    ensures ParseTrimmed(t).Some? <==> exists sign, digits :: SignedDigits(t, sign, digits)
    ensures forall sign, digits :: SignedDigits(t, sign, digits) ==>
      ParseTrimmed(t) == Some(SignedValue(sign, digits))
  {
    LiteralShape(t);
    if t == [] {
    } else if (t[0] == '-' || t[0] == '+') && |t| >= 2 && AllDigits(t[1..]) {
      assert SignedDigits(t, [t[0]], t[1..]);
      SignedLiteralUnique(t, [t[0]], t[1..]);
    } else if AllDigits(t) {
      assert SignedDigits(t, "", t);
      SignedLiteralUnique(t, "", t);
    }
  }

  /** A literal is a sign followed by digits, or digits alone. */
  lemma LiteralShape(t: string)
    ensures forall sign, digits :: SignedDigits(t, sign, digits) ==>
      || (t != [] && (t[0] == '-' || t[0] == '+') && |t| >= 2 && AllDigits(t[1..]))
      || (t != [] && AllDigits(t))
  {
    forall sign, digits | SignedDigits(t, sign, digits)
      ensures || (t != [] && (t[0] == '-' || t[0] == '+') && |t| >= 2 && AllDigits(t[1..]))
              || (t != [] && AllDigits(t))
    {
      if sign == "" {
        assert t == digits;
      } else {
        assert t[0] == sign[0] && t[1..] == digits;
      }
    }
  }

  /** A literal splits into its sign and digits in one way only. */
  lemma SignedLiteralUnique(t: string, sign: string, digits: string)
    requires SignedDigits(t, sign, digits)
    ensures forall sign', digits' :: SignedDigits(t, sign', digits') ==> sign' == sign && digits' == digits
  {
    forall sign', digits' | SignedDigits(t, sign', digits') ensures sign' == sign && digits' == digits {
      assert IsDigit(t[0]) <==> sign == "" by {
        if sign == "" { assert t[0] == digits[0]; } else { assert t[0] == sign[0]; }
      }
      assert IsDigit(t[0]) <==> sign' == "" by {
        if sign' == "" { assert t[0] == digits'[0]; } else { assert t[0] == sign'[0]; }
      }
      assert t[..|sign|] == sign && t[..|sign'|] == sign';
      assert t[|sign|..] == digits && t[|sign'|..] == digits';
    }
  }

  /** `int()` refuses any stripped text holding a character that is not a digit, except for a
      leading sign: letters, inner spaces, a second sign. */
  lemma ParseRefusesNonDigit(s: string, i: nat)
    requires i < |Trim(s, PythonInt)| && !IsDigit(Trim(s, PythonInt)[i])
    requires i == 0 ==> Trim(s, PythonInt)[0] != '+' && Trim(s, PythonInt)[0] != '-'
    ensures ParseInt(s).None?
  {
    var t := Trim(s, PythonInt);
    assert !AllDigits(t);
    if i > 0 {
      assert t[1..][i - 1] == t[i];
      assert !AllDigits(t[1..]);
    }
  }

  /** `int()` refuses a bare sign. */
  lemma ParseRefusesBareSign()
    ensures ParseInt("+").None?
  {
    TrimStartKeeps("+", PythonInt);
  }

  /** A negative literal inside whitespace is read with its sign: `int(" -7\n") == -7`. */
  lemma ParseSignedInSpace(pre: string, digits: string, post: string)
    requires AllSpace(pre, PythonInt) && AllSpace(post, PythonInt)
    requires digits != [] && AllDigits(digits)
    ensures var v: int := DecimalValue(digits); ParseInt(pre + "-" + digits + post) == Some(-v)
  {
    var body := "-" + digits;
    assert pre + "-" + digits + post == pre + body + post;
    assert body[0] == '-' && body[1..] == digits && body[|body| - 1] == digits[|digits| - 1];
    DigitsHaveNoSpace(digits);
    TrimAround(pre, body, post, PythonInt);
  }

  /** Leading whitespace is dropped one character at a time. */
  lemma TrimStartStep(s: string, d: Dialect)
    requires s != [] && IsSpace(s[0], d)
    ensures TrimStart(s, d) == TrimStart(s[1..], d)
  {
  }

  /** Trailing whitespace is dropped one character at a time. */
  lemma TrimEndStep(s: string, d: Dialect)
    requires s != [] && IsSpace(s[|s| - 1], d)
    ensures TrimEnd(s, d) == TrimEnd(s[..|s| - 1], d)
  {
  }

  /** Leading whitespace is removed up to the first other character. */
  lemma {:induction false} TrimStartSkips(pre: string, rest: string, d: Dialect)
    requires AllSpace(pre, d) && (rest == [] || !IsSpace(rest[0], d))
    ensures TrimStart(pre + rest, d) == rest
    decreases |pre|
  {
    var s := pre + rest;
    if pre == [] {
      assert s == rest;
    } else {
      assert s[0] == pre[0] && IsSpace(pre[0], d);
      assert s[1..] == pre[1..] + rest;
      assert AllSpace(pre[1..], d) by {
        var kept := pre[1..];
        forall i | 0 <= i < |kept| ensures IsSpace(kept[i], d) {
          assert kept[i] == pre[i + 1];
        }
      }
      TrimStartStep(s, d);
      TrimStartSkips(pre[1..], rest, d);
    }
  }

  /** Trailing whitespace is removed back to the last other character. */
  lemma {:induction false} TrimEndSkips(rest: string, post: string, d: Dialect)
    requires AllSpace(post, d) && (rest == [] || !IsSpace(rest[|rest| - 1], d))
    ensures TrimEnd(rest + post, d) == rest
    decreases |post|
  {
    var s := rest + post;
    if post == [] {
      assert s == rest;
    } else {
      assert s[|s| - 1] == post[|post| - 1] && IsSpace(post[|post| - 1], d);
      assert s[..|s| - 1] == rest + post[..|post| - 1];
      assert AllSpace(post[..|post| - 1], d) by {
        var kept := post[..|post| - 1];
        forall i | 0 <= i < |kept| ensures IsSpace(kept[i], d) {
          assert kept[i] == post[i];
        }
      }
      TrimEndStep(s, d);
      TrimEndSkips(rest, post[..|post| - 1], d);
    }
  }

  /** Stripping removes exactly the whitespace around a text that neither starts nor ends with
      whitespace. */
  lemma TrimAround(pre: string, body: string, post: string, d: Dialect)
    requires AllSpace(pre, d) && AllSpace(post, d)
    requires body != [] && !IsSpace(body[0], d) && !IsSpace(body[|body| - 1], d)
    ensures Trim(pre + body + post, d) == body
  {
    assert pre + body + post == pre + (body + post);
    assert (body + post)[0] == body[0];
    TrimStartSkips(pre, body + post, d);
    TrimEndSkips(body, post, d);
  }

  /** `int()` does not skip the information separators that `strip()` removes:
      `"\x1f5".strip()` is `"5"`, yet `int("\x1f5")` raises. */
  lemma ParseRefusesSeparator()
    ensures Trim([0x1F as char, '5'], Python) == "5"
    ensures ParseInt([0x1F as char, '5']).None?
  {
    StripRemovesSeparator([0x1F as char, '5']);
    IntKeepsSeparator([0x1F as char, '5']);
  }

  /** `int()` does not skip a leading unit separator, and a separator is not a digit. */
  lemma IntKeepsSeparator(s: string)
    requires s == [0x1F as char, '5']
    ensures ParseInt(s).None?
  {
    assert !IsSpace(s[0], PythonInt) && !IsSpace(s[|s| - 1], PythonInt);
    TrimStartKeeps(s, PythonInt);
    var t := Trim(s, PythonInt);
    assert t == s;
    assert !IsDigit(t[0]) && t[0] != '+' && t[0] != '-';
    assert !AllDigits(t);
  }

  /** `strip()` removes a leading unit separator. */
  lemma StripRemovesSeparator(s: string)
    requires s == [0x1F as char, '5']
    ensures Trim(s, Python) == "5"
  {
    assert s == [0x1F as char] + "5" + "";
    assert IsSpace(0x1F as char, Python) && !IsSpace('5', Python);
    TrimAround([0x1F as char], "5", "", Python);
  }

  /** A string whose ends are not whitespace is its own trim. */
  lemma TrimStartKeeps(s: string, d: Dialect)
    requires s != [] && !IsSpace(s[0], d) && !IsSpace(s[|s| - 1], d)
    ensures TrimStart(s, d) == s && TrimEnd(s, d) == s && Trim(s, d) == s
  {
  }

  /** A string with no whitespace is its own trim. */
  lemma TrimNoSpace(s: string, d: Dialect)
    requires forall i :: 0 <= i < |s| ==> !IsSpace(s[i], d)
    ensures Trim(s, d) == s
  {
    if s != [] {
      assert !IsSpace(s[0], d) && !IsSpace(s[|s| - 1], d);
      assert TrimStart(s, d) == s;
    }
  }

  /** A non-empty run of digits parses to its decimal value. */
  lemma ParseDigits(t: string)
    requires t != [] && AllDigits(t)
    ensures ParseInt(t) == Some(DecimalValue(t))
  {
    DigitsHaveNoSpace(t);
    TrimNoSpace(t, PythonInt);
    ParseTrimmedDigits(t);
  }

  /** Without a sign, `int` of a trimmed run of digits is its decimal value. */
  lemma ParseTrimmedDigits(t: string)
    requires t != [] && AllDigits(t)
    ensures ParseTrimmed(t) == Some(DecimalValue(t))
  {
    assert IsDigit(t[0]);
  }

  /** Digits are whitespace in neither language. */
  lemma DigitsHaveNoSpace(t: string)
    requires AllDigits(t)
    ensures forall i, d :: 0 <= i < |t| ==> !IsSpace(t[i], d)
  {
    forall i, d | 0 <= i < |t| ensures !IsSpace(t[i], d) { assert IsDigit(t[i]); }
  }

  /** Parsing what `str(n)` printed gives `n` back. */
  lemma ParseDecimalRoundTrip(n: nat)
    ensures ParseInt(NatToDecimal(n)) == Some(n)
  {
    ParseDigits(NatToDecimal(n));
    DecimalRoundTrip(n);
  }

  // ---------------------------------------------------------------- splitting and joining

  /** JavaScript `s.split(sep)` for a one-character separator: always at least one piece;
      adjacent, leading or trailing separators give empty pieces. */
  function Split(s: string, sep: char): (r: seq<string>)
    ensures |r| >= 1
    ensures forall k :: 0 <= k < |r| ==> sep !in r[k]
  {
    if s == [] then [""]
    else
      var rest := Split(s[1..], sep);
      if s[0] == sep then [""] + rest else [[s[0]] + rest[0]] + rest[1..]
  }

  /** JavaScript `pieces.join(sep)`. */
  function Join(pieces: seq<string>, sep: char): string
    requires |pieces| >= 1
  {
    if |pieces| == 1 then pieces[0] else pieces[0] + [sep] + Join(pieces[1..], sep)
  }

  /** Splitting and joining again gives the original string back. */
  lemma {:induction false} JoinSplit(s: string, sep: char)
    ensures Join(Split(s, sep), sep) == s
  {
    if s != [] {
      var rest := Split(s[1..], sep);
      JoinSplit(s[1..], sep);
      if s[0] != sep {
        var r := Split(s, sep);
        assert r[1..] == rest[1..];
        if |rest| == 1 {
          assert Join(r, sep) == [s[0]] + rest[0];
        } else {
          assert Join(rest, sep) == rest[0] + [sep] + Join(rest[1..], sep);
          assert Join(r, sep) == ([s[0]] + rest[0]) + [sep] + Join(rest[1..], sep);
        }
      }
    }
  }

  /** Splitting at a separator splits the pieces: the pieces of `x + [sep] + y` are those of
      `x` followed by those of `y`. */
  lemma {:induction false} SplitAppend(x: string, sep: char, y: string)
    ensures Split(x + [sep] + y, sep) == Split(x, sep) + Split(y, sep)
  {
    if x == [] {
      assert x + [sep] + y == [sep] + y;
      assert ([sep] + y)[1..] == y;
    } else {
      assert (x + [sep] + y)[1..] == x[1..] + [sep] + y;
      SplitAppend(x[1..], sep, y);
    }
  }

  /** `xs.map(f)`. */
  function Map<A, B>(xs: seq<A>, f: A -> B): (r: seq<B>)
    ensures |r| == |xs| && forall i :: 0 <= i < |xs| ==> r[i] == f(xs[i])
  {
    seq(|xs|, i requires 0 <= i < |xs| => f(xs[i]))
  }

  lemma MapAppend<A, B>(xs: seq<A>, ys: seq<A>, f: A -> B)
    ensures Map(xs + ys, f) == Map(xs, f) + Map(ys, f)
  {
  }

  /** Concatenation of a list of strings (`pieces.join('')`). */
  function Concat(pieces: seq<string>): string {
    if pieces == [] then "" else pieces[0] + Concat(pieces[1..])
  }

  /** The first `n` elements (`xs.slice(0, n)`). */
  function Take<T>(xs: seq<T>, n: nat): (r: seq<T>)
    ensures |r| == if |xs| < n then |xs| else n
    ensures r == xs[..|r|]
  {
    if |xs| <= n then xs else xs[..n]
  }

  lemma {:induction false} ConcatAppend(xs: seq<string>, ys: seq<string>)
    ensures Concat(xs + ys) == Concat(xs) + Concat(ys)
  {
    if xs != [] {
      assert (xs + ys)[1..] == xs[1..] + ys;
      ConcatAppend(xs[1..], ys);
    } else {
      assert xs + ys == ys;
    }
  }

  /** Upper-casing a concatenation upper-cases each piece. */
  lemma {:induction false} ToUpperConcat(pieces: seq<string>)
    ensures ToUpper(Concat(pieces)) == Concat(Map(pieces, ToUpper))
  {
    if pieces != [] {
      ToUpperConcat(pieces[1..]);
      assert Map(pieces, ToUpper) == [ToUpper(pieces[0])] + Map(pieces[1..], ToUpper);
      assert ToUpper(pieces[0] + Concat(pieces[1..])) == ToUpper(pieces[0]) + ToUpper(Concat(pieces[1..]));
    }
  }

  /** A concatenation of one-character pieces lists their characters. */
  lemma {:induction false} ConcatSingles(pieces: seq<string>)
    requires forall k :: 0 <= k < |pieces| ==> |pieces[k]| == 1
    ensures |Concat(pieces)| == |pieces|
    ensures forall k :: 0 <= k < |pieces| ==> Concat(pieces)[k] == pieces[k][0]
  {
    if pieces != [] {
      ConcatSingles(pieces[1..]);
    }
  }
}
