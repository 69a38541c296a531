/** The JavaScript built-ins the storefront logic relies on, stated over Dafny values:
    `Array.prototype.find`/`filter`, `String.prototype.trim`/`toLowerCase`/`includes`,
    the global `parseInt` (without a radix argument) and the decimal rendering of an integer
    that a template literal such as `${p.id}` produces. */
module Builtins {
  import opened Wrappers

  // ---------------------------------------------------------------- arrays

  /** Index of the first element satisfying `p`, as `find` visits them; None when no element does. */
  function FindIndex<T>(s: seq<T>, p: T -> bool): (r: Option<nat>)
    ensures r.Some? ==> r.value < |s| && p(s[r.value])
    ensures r.Some? ==> forall k :: 0 <= k < r.value ==> !p(s[k])
    ensures r.None? <==> forall k :: 0 <= k < |s| ==> !p(s[k])
  {
    if s == [] then None
    else if p(s[0]) then Some(0)
    else match FindIndex(s[1..], p)
      case None => None
      case Some(i) => Some(i + 1)
  }

  /** The elements of `s` that satisfy `p`, in their original order. */
  function Filter<T(==,!new)>(s: seq<T>, p: T -> bool): (r: seq<T>)
    ensures forall x :: x in r <==> x in s && p(x)
    ensures |r| <= |s|
  {
    if s == [] then []
    else (if p(s[0]) then [s[0]] else []) + Filter(s[1..], p)
  }

  /** Filtering a concatenation filters each part: the kept elements keep their relative order. */
  lemma {:induction false} FilterAppend<T(!new)>(a: seq<T>, b: seq<T>, p: T -> bool)
    ensures Filter(a + b, p) == Filter(a, p) + Filter(b, p)
  {
    if a == [] {
      assert a + b == b;
    } else {
      assert (a + b)[0] == a[0];
      assert (a + b)[1..] == a[1..] + b;
      FilterAppend(a[1..], b, p);
    }
  }

  /** When every element passes, `filter` returns the sequence itself. */
  lemma {:induction false} FilterAllPass<T(!new)>(s: seq<T>, p: T -> bool)
    requires forall k :: 0 <= k < |s| ==> p(s[k])
    ensures Filter(s, p) == s
  {
    if s != [] {
      FilterAllPass(s[1..], p);
    }
  }

  /** Filtering twice by the same predicate filters once. */
  lemma FilterIdempotent<T(!new)>(s: seq<T>, p: T -> bool)
    ensures Filter(Filter(s, p), p) == Filter(s, p)
  {
    var r := Filter(s, p);
    forall k | 0 <= k < |r| ensures p(r[k]) {
      assert r[k] in r;
    }
    FilterAllPass(r, p);
  }

  // ---------------------------------------------------------------- white space and trim

  /** ECMAScript's StrWhiteSpaceChar: WhiteSpace (TAB, VT, FF, ZWNBSP and every Zs character)
      and LineTerminator (LF, CR, LS, PS). `trim` and `parseInt` strip exactly these. */
  predicate IsWhiteSpace(c: char) {
    c in WhiteSpaceChars
  }

  const WhiteSpaceChars: set<char> := {
    '\t', '\n', '\U{000B}', '\U{000C}', '\r', ' ', '\U{00A0}', '\U{1680}',
    '\U{2000}', '\U{2001}', '\U{2002}', '\U{2003}', '\U{2004}', '\U{2005}', '\U{2006}',
    '\U{2007}', '\U{2008}', '\U{2009}', '\U{200A}',
    '\U{2028}', '\U{2029}', '\U{202F}', '\U{205F}', '\U{3000}', '\U{FEFF}'
  }

  /** `s` with its leading white space removed. */
  function TrimStart(s: string): (r: string)
    ensures |r| <= |s| && r == s[|s| - |r|..]
    ensures r == [] || !IsWhiteSpace(r[0])
    ensures forall k :: 0 <= k < |s| - |r| ==> IsWhiteSpace(s[k])
  {
    if |s| > 0 && IsWhiteSpace(s[0]) then TrimStart(s[1..]) else s
  }

  /** `s` with its trailing white space removed. */
  function TrimEnd(s: string): (r: string)
    ensures |r| <= |s| && r == s[..|r|]
    ensures r == [] || !IsWhiteSpace(r[|r| - 1])
    ensures forall k :: |r| <= k < |s| ==> IsWhiteSpace(s[k])
  {
    if |s| > 0 && IsWhiteSpace(s[|s| - 1]) then TrimEnd(s[..|s| - 1]) else s
  }

  /** `String.prototype.trim`: a piece of `s` that neither starts nor ends with white space. */
  function Trim(s: string): (r: string)
    ensures |r| <= |s|
    ensures r == [] || (!IsWhiteSpace(r[0]) && !IsWhiteSpace(r[|r| - 1]))
  {
    var u := TrimStart(s);
    var r := TrimEnd(u);
    assert r == [] || r[0] == u[0];
    r
  }

  /** Trimming a trimmed string changes nothing. */
  lemma TrimIdempotent(s: string)
    ensures Trim(Trim(s)) == Trim(s)
  {
    var u := TrimStart(s);
    var t := TrimEnd(u);
    if t != [] {
      assert t[0] == u[0];
    }
    assert TrimStart(t) == t;
    assert TrimEnd(t) == t;
  }

  /** `trim` removes white space only: the result is the piece of `s` starting at some `i`,
      and everything before and after that piece is white space. */
  lemma TrimIsPiece(s: string) returns (i: nat)
    ensures i + |Trim(s)| <= |s| && Trim(s) == s[i..i + |Trim(s)|]
    ensures forall k :: 0 <= k < i ==> IsWhiteSpace(s[k])
    ensures forall k :: i + |Trim(s)| <= k < |s| ==> IsWhiteSpace(s[k])
  {
    var u := TrimStart(s);
    var r := TrimEnd(u);
    i := |s| - |u|;
    assert u == s[i..];
    assert r == u[..|r|];
    forall k | i + |r| <= k < |s|
      ensures IsWhiteSpace(s[k])
    {
      assert s[k] == u[k - i];
    }
  }

  /** A field is blank for `trim` exactly when it is made of white space alone. */
  lemma TrimBlank(s: string)
    ensures Trim(s) == [] <==> forall k :: 0 <= k < |s| ==> IsWhiteSpace(s[k])
  {
    var i := TrimIsPiece(s);
  }

  // ---------------------------------------------------------------- case and substrings

  /** `toLowerCase` on one character, for the ASCII letters the catalog is written in. */
  function LowerChar(c: char): (r: char)
    ensures !('A' <= r <= 'Z')
    ensures !('A' <= c <= 'Z') ==> r == c
    ensures 'A' <= c <= 'Z' ==> r as int == c as int + 32
  {
    if 'A' <= c <= 'Z' then (c as int - 'A' as int + 'a' as int) as char else c
  }

  /** `toLowerCase` on a string of ASCII text. */
  function Lower(s: string): (r: string)
    ensures |r| == |s|
    ensures forall k :: 0 <= k < |s| ==> r[k] == LowerChar(s[k])
  {
    seq(|s|, k requires 0 <= k < |s| => LowerChar(s[k]))
  }

  /** `sub` occurs in `s` starting at position `i`. */
  ghost predicate OccursAt(s: string, sub: string, i: int) {
    0 <= i <= |s| - |sub| && s[i..i + |sub|] == sub
  }

  /** `s.includes(sub)`: `sub` occurs in `s` at some position. */
  function Includes(s: string, sub: string): (r: bool)
    ensures r <==> exists i :: OccursAt(s, sub, i)
  {
    if sub <= s then
      assert OccursAt(s, sub, 0);
      true
    else if s == [] then
      assert forall i :: !OccursAt(s, sub, i);
      false
    else
      var r := Includes(s[1..], sub);
      IncludesStep(s, sub);
      r
  }

  /** An occurrence past the first position of `s` is an occurrence in `s[1..]`. */
  lemma IncludesStep(s: string, sub: string)
    requires s != [] && !(sub <= s)
    ensures (exists i :: OccursAt(s, sub, i)) <==> (exists i :: OccursAt(s[1..], sub, i))
  {
    if exists i :: OccursAt(s, sub, i) {
      var i :| OccursAt(s, sub, i);
      assert i != 0;
      assert s[1..][i - 1..i - 1 + |sub|] == s[i..i + |sub|];
      assert OccursAt(s[1..], sub, i - 1);
    }
    if exists i :: OccursAt(s[1..], sub, i) {
      var j :| OccursAt(s[1..], sub, j);
      assert s[j + 1..j + 1 + |sub|] == s[1..][j..j + |sub|];
      assert OccursAt(s, sub, j + 1);
    }
  }

  // ---------------------------------------------------------------- integers and their text

  predicate IsDigit(c: char, radix: int) {
    ('0' <= c <= '9') || (radix == 16 && (('a' <= c <= 'f') || ('A' <= c <= 'F')))
  }

  function DigitValue(c: char): (d: nat)
    ensures IsDigit(c, 16) ==> d < 16
    ensures IsDigit(c, 10) ==> d < 10
  {
    if '0' <= c <= '9' then c as int - '0' as int
    else if 'a' <= c <= 'f' then c as int - 'a' as int + 10
    else if 'A' <= c <= 'F' then c as int - 'A' as int + 10
    else 0
  }

  /** The longest prefix of `s` made of digits of the given radix. */
  function DigitPrefix(s: string, radix: int): (z: string)
    ensures z <= s
    ensures forall k :: 0 <= k < |z| ==> IsDigit(z[k], radix)
    ensures |z| < |s| ==> !IsDigit(s[|z|], radix)
  {
    if s != [] && IsDigit(s[0], radix) then [s[0]] + DigitPrefix(s[1..], radix) else []
  }

  /** The value of a digit string, most significant digit first. */
  function DigitsValue(z: string, radix: nat): nat {
    if z == [] then 0 else DigitsValue(z[..|z| - 1], radix) * radix + DigitValue(z[|z| - 1])
  }

  /** The sign `parseInt` reads in front of the digits, and the text after it. */
  function Sign(t: string): (bool, string) {
    if t != [] && (t[0] == '-' || t[0] == '+') then (t[0] == '-', t[1..]) else (false, t)
  }

  /** The digits after the sign: base 16 after a `0x`/`0X` prefix, base 10 otherwise;
      None when no digit follows. */
  function ParseMagnitude(u: string): Option<nat> {
    var hex := |u| >= 2 && u[0] == '0' && (u[1] == 'x' || u[1] == 'X');
    var radix := if hex then 16 else 10;
    var z := DigitPrefix(if hex then u[2..] else u, radix);
    if z == [] then None else Some(DigitsValue(z, radix))
  }

  /** What `parseInt` reads once leading white space is gone: an optional sign, then the magnitude. */
  function ParseSigned(t: string): Option<int> {
    var (negative, u) := Sign(t);
    match ParseMagnitude(u)
    case None => None
    case Some(m) => Some(if negative then -(m as int) else m as int)
  }

  /** The global `parseInt(s)` with no radix: skip leading white space, read an optional sign,
      then the magnitude, stopping at the first character that is not a digit. None is NaN,
      the result when no digit was read. */
  function ParseInt(s: string): (r: Option<int>)
    ensures TrimStart(s) == [] || !(TrimStart(s)[0] == '-' || TrimStart(s)[0] == '+' || IsDigit(TrimStart(s)[0], 10)) ==> r.None?
  {
    var t := TrimStart(s);
    assert t == [] || !(t[0] == '-' || t[0] == '+' || IsDigit(t[0], 10)) ==> Sign(t) == (false, t) && DigitPrefix(t, 10) == [];
    ParseSigned(t)
  }

  function DigitChar(d: nat): (c: char)
    requires d < 10
    ensures IsDigit(c, 10) && DigitValue(c) == d
  {
    ('0' as int + d) as char
  }

  /** The decimal digits of a natural number, without leading zeros. */
  function Digits(n: nat): (z: string)
    ensures z != []
    ensures forall k :: 0 <= k < |z| ==> IsDigit(z[k], 10)
    ensures |z| > 1 ==> z[0] != '0'
  {
    if n < 10 then [DigitChar(n)] else Digits(n / 10) + [DigitChar(n % 10)]
  }

  /** How JavaScript writes an integer as text (`String(n)`, `${n}` in a template). */
  function Decimal(n: int): (z: string)
    ensures z != [] && (z[0] == '-' <==> n < 0)
    ensures forall k :: (if n < 0 then 1 else 0) <= k < |z| ==> IsDigit(z[k], 10)
    ensures n < 0 ==> |z| >= 2 && (|z| > 2 ==> z[1] != '0')
    ensures n >= 0 ==> (|z| > 1 ==> z[0] != '0')
  {
    if n < 0 then "-" + Digits(-n) else Digits(n)
  }

  lemma {:induction false} DigitsValueOfDigits(n: nat)
    ensures DigitsValue(Digits(n), 10) == n
  {
    var z := Digits(n);
    if n >= 10 {
      assert z[..|z| - 1] == Digits(n / 10);
      DigitsValueOfDigits(n / 10);
    }
  }

  lemma {:induction false} DigitPrefixOfDigits(z: string, radix: int)
    requires forall k :: 0 <= k < |z| ==> IsDigit(z[k], radix)
    ensures DigitPrefix(z, radix) == z
  {
    if z != [] {
      DigitPrefixOfDigits(z[1..], radix);
    }
  }

  lemma MagnitudeOfDigits(n: nat)
    ensures ParseMagnitude(Digits(n)) == Some(n)
  {
    var d := Digits(n);
    assert !(|d| >= 2 && d[0] == '0');
    DigitPrefixOfDigits(d, 10);
    DigitsValueOfDigits(n);
  }

  /** Reading back the text of an integer gives the integer: `parseInt(String(n)) === n`. */
  lemma ParseIntDecimal(n: int)
    ensures ParseInt(Decimal(n)) == Some(n)
  {
    var s := Decimal(n);
    assert s[0] == '-' || IsDigit(s[0], 10);
    SignOrDigitIsNotWhiteSpace(s[0]);
    assert TrimStart(s) == s;
    SignedDecimal(n);
  }

  /** The sign and the digits of an integer's text read back as that integer. */
  lemma SignedDecimal(n: int)
    ensures ParseSigned(Decimal(n)) == Some(n)
  {
    var d := Digits(if n < 0 then -n else n);
    if n < 0 {
      assert Sign(Decimal(n)) == (true, d);
    } else {
      assert Sign(Decimal(n)) == (false, d);
    }
    MagnitudeOfDigits(if n < 0 then -n else n);
  }

  /** A sign or a decimal digit is not white space, so `parseInt` starts reading at it. */
  lemma SignOrDigitIsNotWhiteSpace(c: char)
    requires c == '-' || c == '+' || IsDigit(c, 10)
    ensures !IsWhiteSpace(c)
  {
    assert c < '\t' || ' ' < c < '\U{00A0}';
  }

  /** White space in front of a number does not change what `parseInt` reads. */
  lemma ParseIntSkipsWhiteSpace(c: char, s: string)
    requires IsWhiteSpace(c)
    ensures ParseInt([c] + s) == ParseInt(s)
  {
    assert ([c] + s)[1..] == s;
    assert TrimStart([c] + s) == TrimStart(s);
  }
}
