/**
 * The JavaScript string operations the backend relies on:
 * `toLowerCase` (ASCII letters only), `trim`, `split('.').pop()`,
 * `endsWith`-style suffix tests and UTF-16 length.
 */
module JsString {

  /** `toLowerCase` on one character; only ASCII letters are folded. */
  function LowerChar(c: char): char
  {
    if 'A' <= c <= 'Z' then (c as int + 32) as char else c
  }

  predicate IsUpper(c: char)
  {
    'A' <= c <= 'Z'
  }

  /** `s.toLowerCase()` */
  function Lower(s: string): (r: string)
    ensures |r| == |s|
  {
    seq(|s|, i requires 0 <= i < |s| => LowerChar(s[i]))
  }

  /** Lower-casing works character by character: letters A-Z move to a-z, all else stays. */
  lemma LowerCharwise(s: string)
    ensures forall i :: 0 <= i < |s| ==> Lower(s)[i] == LowerChar(s[i])
    ensures forall i :: 0 <= i < |s| ==> !IsUpper(Lower(s)[i])
    ensures forall i :: 0 <= i < |s| && !IsUpper(s[i]) ==> Lower(s)[i] == s[i]
  {
  }

  lemma LowerOfLowerCase(s: string)
    requires forall i :: 0 <= i < |s| ==> !IsUpper(s[i])
    ensures Lower(s) == s
  {
    assert forall i :: 0 <= i < |s| ==> Lower(s)[i] == s[i];
  }

  lemma LowerIdempotent(s: string)
    ensures Lower(Lower(s)) == Lower(s)
  {
    var l := Lower(s);
    assert forall i :: 0 <= i < |l| ==> Lower(l)[i] == l[i];
  }

  lemma LowerAppend(a: string, b: string)
    ensures Lower(a + b) == Lower(a) + Lower(b)
  {
    assert forall i :: 0 <= i < |a + b| ==> Lower(a + b)[i] == (Lower(a) + Lower(b))[i];
  }

  /** The characters `String.prototype.trim` strips: ECMAScript WhiteSpace and LineTerminator. */
  predicate IsJsWhite(c: char)
  {
    var n := c as int;
    n == 0x09 || n == 0x0B || n == 0x0C || n == 0x20 || n == 0xA0 || n == 0xFEFF
    || n == 0x0A || n == 0x0D || n == 0x2028 || n == 0x2029
    || n == 0x1680 || (0x2000 <= n <= 0x200A) || n == 0x202F || n == 0x205F || n == 0x3000
  }

  /** Drops the leading whitespace. */
  function TrimStart(s: string): (r: string)
    ensures |r| <= |s| && r == s[|s| - |r|..]
    ensures forall i :: 0 <= i < |s| - |r| ==> IsJsWhite(s[i])
    ensures r == [] || !IsJsWhite(r[0])
  {
    if s != [] && IsJsWhite(s[0]) then TrimStart(s[1..]) else s
  }

  /** Drops the trailing whitespace. */
  function TrimEnd(s: string): (r: string)
    ensures |r| <= |s| && r == s[..|r|]
    ensures forall i :: |r| <= i < |s| ==> IsJsWhite(s[i])
    ensures r == [] || !IsJsWhite(r[|r| - 1])
  {
    if s != [] && IsJsWhite(s[|s| - 1]) then TrimEnd(s[..|s| - 1]) else s
  }

  /** `s.trim()`: the slice of `s` between its leading and trailing whitespace. */
  function Trim(s: string): (r: string)
    ensures |r| <= |s|
    ensures r == [] || (!IsJsWhite(r[0]) && !IsJsWhite(r[|r| - 1]))
  {
    TrimEnd(TrimStart(s))
  }

  /**
   * `s.split('.').pop()`: the text after the last '.', or the whole
   * string when it has no '.'.
   */
  function AfterLastDot(s: string): (r: string)
    ensures '.' !in r
    ensures |r| <= |s| && r == s[|s| - |r|..]
    ensures r == s || s[|s| - |r| - 1] == '.'
  {
    if s == [] then []
    else if s[|s| - 1] == '.' then []
    else
      var init := s[..|s| - 1];
      var r' := AfterLastDot(init);
      assert init[|init| - |r'|..] + [s[|s| - 1]] == s[|s| - |r'| - 1..];
      r' + [s[|s| - 1]]
  }

  /** `AfterLastDot` only looks at what follows the last '.'. */
  lemma {:induction false} AfterLastDotOfSuffix(p: string, q: string)
    requires '.' !in q
    ensures AfterLastDot(p + "." + q) == q
  {
    var s := p + "." + q;
    var r := AfterLastDot(s);
    assert s[|s| - |q|..] == q;
    assert s[|s| - |q| - 1] == '.';
    // a longer result would contain the '.' before q; a shorter one would
    // be preceded by a '.' inside q
    if |r| != |q| {
      assert false;
    }
  }

  /** The text after the last '.' is a given dot-free `ext` exactly when `s` is `ext` or ends in '.' and `ext`. */
  lemma AfterLastDotIs(s: string, ext: string)
    requires '.' !in ext
    ensures AfterLastDot(s) == ext <==> s == ext || EndsWith(s, "." + ext)
  {
    AfterLastDotShape(s);
    if s == ext {
      AfterLastDotNoDot(s);
    } else if EndsWith(s, "." + ext) {
      AfterLastDotOfEnding(s, ext);
    }
  }

  /** `s` is either its own text after the last '.', or ends in '.' and that text. */
  lemma AfterLastDotShape(s: string)
    ensures AfterLastDot(s) == s || EndsWith(s, "." + AfterLastDot(s))
  {
    var r := AfterLastDot(s);
    if r != s {
      assert s[|s| - |r| - 1..] == "." + r;
    }
  }

  lemma AfterLastDotOfEnding(s: string, ext: string)
    requires '.' !in ext && EndsWith(s, "." + ext)
    ensures AfterLastDot(s) == ext
  {
    var p := s[..|s| - |ext| - 1];
    assert s == p + "." + ext;
    AfterLastDotOfSuffix(p, ext);
  }

  /** A string without '.' is its own text after the last '.'. */
  lemma {:induction false} AfterLastDotNoDot(s: string)
    requires '.' !in s
    ensures AfterLastDot(s) == s
  {
    if s != [] {
      var init := s[..|s| - 1];
      forall i | 0 <= i < |init|
        ensures init[i] != '.'
      {
        assert init[i] == s[i] && s[i] in s;
      }
      AfterLastDotNoDot(init);
    }
  }

  predicate EndsWith(s: string, suffix: string)
  {
    |suffix| <= |s| && s[|s| - |suffix|..] == suffix
  }

  predicate StartsWith(s: string, prefix: string)
  {
    |prefix| <= |s| && s[..|prefix|] == prefix
  }

  lemma StartsWithConcat(prefix: string, rest: string)
    ensures StartsWith(prefix + rest, prefix)
  {
    assert (prefix + rest)[..|prefix|] == prefix;
  }

  /** Number of UTF-16 code units JavaScript counts for `s` (its `length`). */
  function Utf16Length(s: string): nat
  {
    if s == [] then 0 else (if s[0] as int >= 0x10000 then 2 else 1) + Utf16Length(s[1..])
  }

  lemma {:induction false} Utf16LengthAppend(a: string, b: string)
    ensures Utf16Length(a + b) == Utf16Length(a) + Utf16Length(b)
  {
    if a != [] {
      assert (a + b)[0] == a[0] && (a + b)[1..] == a[1..] + b;
      Utf16LengthAppend(a[1..], b);
    } else {
      assert a + b == b;
    }
  }

  /** A string without leading or trailing whitespace is its own trim. */
  lemma TrimUnpadded(s: string)
    requires s == [] || (!IsJsWhite(s[0]) && !IsJsWhite(s[|s| - 1]))
    ensures Trim(s) == s
  {
    assert TrimStart(s) == s;
    assert TrimEnd(s) == s;
  }

  /** Number-to-string conversion of a template literal, for a non-negative integer. */
  function DecimalString(n: nat): (r: string)
    ensures r != []
    ensures forall i :: 0 <= i < |r| ==> '0' <= r[i] <= '9'
  {
    if n < 10 then [('0' as int + n) as char]
    else DecimalString(n / 10) + [('0' as int + n % 10) as char]
  }

  /** The number a string of decimal digits denotes. */
  function DigitsValue(s: string): nat
    requires forall i :: 0 <= i < |s| ==> '0' <= s[i] <= '9'
  {
    if s == [] then 0
    else 10 * DigitsValue(s[..|s| - 1]) + (s[|s| - 1] as int - '0' as int)
  }

  /** The decimal rendering denotes the number it was made from. */
  lemma {:induction false} DecimalStringValue(n: nat)
    ensures DigitsValue(DecimalString(n)) == n
  {
    var r := DecimalString(n);
    if n >= 10 {
      DecimalStringValue(n / 10);
      assert r[..|r| - 1] == DecimalString(n / 10);
    }
  }
}
