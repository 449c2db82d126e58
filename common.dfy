/** Small values and string helpers shared by the rest of the model: an optional
    value, JavaScript truthiness of optional strings, ASCII character classes and
    decimal rendering and reading of natural numbers. */
module Common {

  /** A value that may be absent (`undefined` or `null` in the site's code). */
  datatype Option<+T> = None | Some(value: T) {
    function GetOr(default: T): T {
      match this
      case Some(v) => v
      case None => default
    }
  }

  /** JavaScript truthiness of an optional string: present and non-empty. */
  predicate Truthy(s: Option<string>) {
    s.Some? && s.value != ""
  }

  /** `s || fallback` for an optional string. */
  function OrElse(s: Option<string>, fallback: string): (r: string)
    ensures Truthy(s) ==> r == s.value
    ensures !Truthy(s) ==> r == fallback
  {
    match s
    case Some(v) => if v != "" then v else fallback
    case None => fallback
  }

  /** The characters matched by the regular-expression class `\s`, restricted to ASCII. */
  predicate IsWhitespace(c: char) {
    c == ' ' || c == '\t' || c == '\n' || c == '\r' || c == '\U{000B}' || c == '\U{000C}'
  }

  predicate NoWhitespace(s: string) {
    forall i :: 0 <= i < |s| ==> !IsWhitespace(s[i])
  }

  predicate IsUpper(c: char) {
    'A' <= c <= 'Z'
  }

  predicate IsDigit(c: char) {
    '0' <= c <= '9'
  }

  predicate AllDigits(s: string) {
    forall i :: 0 <= i < |s| ==> IsDigit(s[i])
  }

  function DigitValue(c: char): (d: nat)
    requires IsDigit(c)
    ensures d < 10
  {
    c as int - '0' as int
  }

  function DigitChar(d: nat): (c: char)
    requires d < 10
    ensures IsDigit(c) && DigitValue(c) == d
  {
    ('0' as int + d) as char
  }

  /** The number a non-empty string of decimal digits denotes, most significant first;
      the empty string denotes 0. */
  function DecimalValue(ds: string): nat
    requires AllDigits(ds)
  {
    if ds == [] then 0
    else 10 * DecimalValue(ds[..|ds| - 1]) + DigitValue(ds[|ds| - 1])
  }

  /** The decimal rendering of `n`, as JavaScript's template strings print a non-negative integer. */
  function ShowNat(n: nat): (s: string)
    ensures |s| > 0 && AllDigits(s)
  {
    if n < 10 then [DigitChar(n)] else ShowNat(n / 10) + [DigitChar(n % 10)]
  }

  /** The decimal rendering of an integer, with a leading `-` when it is negative. */
  function ShowInt(i: int): (s: string)
    ensures |s| > 0 && IsDigit(s[|s| - 1])
  {
    if i < 0 then "-" + ShowNat(-i) else ShowNat(i)
  }

  /** Reading back a rendered number gives the number. */
  lemma {:induction false} DecimalValueOfShowNat(n: nat)
    ensures DecimalValue(ShowNat(n)) == n
  {
    if n >= 10 {
      var s := ShowNat(n);
      assert s[..|s| - 1] == ShowNat(n / 10);
      DecimalValueOfShowNat(n / 10);
    }
  }

  /** Different numbers render differently. */
  lemma ShowIntInjective(a: int, b: int)
    requires a != b
    ensures ShowInt(a) != ShowInt(b)
  {
    if a >= 0 && b >= 0 {
      DecimalValueOfShowNat(a);
      DecimalValueOfShowNat(b);
      assert ShowNat(a) != ShowNat(b);
    } else if a < 0 && b < 0 {
      DecimalValueOfShowNat(-a);
      DecimalValueOfShowNat(-b);
      assert ShowNat(-a) != ShowNat(-b);
      assert ("-" + ShowNat(-a))[1..] == ShowNat(-a);
      assert ("-" + ShowNat(-b))[1..] == ShowNat(-b);
    } else {
      var n := if a >= 0 then a else b;
      assert IsDigit(ShowNat(n)[0]);
      assert ShowInt(a)[0] != ShowInt(b)[0];
    }
  }

  // ---------------------------------------------------------------------------
  // Lengths as JavaScript measures them

  /** The UTF-16 code units of one character: two for a character outside the Basic
      Multilingual Plane (a surrogate pair), one otherwise. */
  function CodeUnits(c: char): (u: nat)
    ensures u == 1 || u == 2
  {
    if c as int > 0xFFFF then 2 else 1
  }

  /** Every character of `s` lies in the Basic Multilingual Plane (one code unit each). */
  predicate InBmp(s: string) {
    forall i :: 0 <= i < |s| ==> s[i] as int <= 0xFFFF
  }

  /** JavaScript's `s.length`: the number of UTF-16 code units of `s`. */
  function Utf16Length(s: string): (n: nat)
    ensures |s| <= n <= 2 * |s|
    ensures InBmp(s) ==> n == |s|
  {
    if s == [] then 0 else CodeUnits(s[0]) + Utf16Length(s[1..])
  }

  /** `s.slice(0, n)` on whole characters: the longest prefix of `s` that fits in `n` code
      units. Where `slice` would cut a surrogate pair in two, the character is dropped. */
  function Utf16Prefix(s: string, n: nat): (r: string)
    ensures r <= s && Utf16Length(r) <= n
    ensures r == s || Utf16Length(r) + CodeUnits(s[|r|]) > n
    ensures Utf16Length(s) <= n ==> r == s
  {
    if s == [] || CodeUnits(s[0]) > n then []
    else
      var rest := Utf16Prefix(s[1..], n - CodeUnits(s[0]));
      assert ([s[0]] + rest)[1..] == rest;
      [s[0]] + rest
  }

  /** A prefix of a string in the Basic Multilingual Plane is in it too. */
  lemma InBmpPrefix(s: string, r: string)
    requires InBmp(s) && r <= s
    ensures InBmp(r)
  {
    forall i | 0 <= i < |r| ensures r[i] as int <= 0xFFFF {
      assert r[i] == s[i];
    }
  }

  /** Inside the Basic Multilingual Plane, `slice(0, n)` keeps the first `n` characters. */
  lemma Utf16PrefixInBmp(s: string, n: nat)
    requires InBmp(s)
    ensures Utf16Prefix(s, n) == s[..if |s| < n then |s| else n]
  {
    var r := Utf16Prefix(s, n);
    InBmpPrefix(s, r);
    assert Utf16Length(r) == |r| <= n;
    if r != s {
      assert CodeUnits(s[|r|]) == 1;
      assert |r| >= n;
    }
    assert r == s[..|r|];
  }

  /** Number of occurrences of `c` in `s`. */
  function CountChar(s: string, c: char): nat {
    if s == [] then 0 else (if s[0] == c then 1 else 0) + CountChar(s[1..], c)
  }

  lemma {:induction false} CountCharAppend(a: string, b: string, c: char)
    ensures CountChar(a + b, c) == CountChar(a, c) + CountChar(b, c)
  {
    if a == [] {
      assert a + b == b;
    } else {
      assert (a + b)[1..] == a[1..] + b;
      CountCharAppend(a[1..], b, c);
    }
  }

  lemma {:induction false} CountCharAbsent(s: string, c: char)
    ensures CountChar(s, c) == 0 <==> forall i :: 0 <= i < |s| ==> s[i] != c
  {
    if s != [] {
      CountCharAbsent(s[1..], c);
      assert forall i :: 1 <= i < |s| ==> s[i] == s[1..][i - 1];
    }
  }

  /** `parts` joined with `sep` between neighbours, like JavaScript's `Array.prototype.join`. */
  function Join(parts: seq<string>, sep: string): string {
    if |parts| == 0 then ""
    else if |parts| == 1 then parts[0]
    else parts[0] + sep + Join(parts[1..], sep)
  }
}
