/**
 * The JavaScript built-ins the chat core leans on, stated exactly enough to
 * reason about: String.prototype.trim, String.prototype.toLowerCase (ASCII),
 * String.prototype.includes, the default comparator of Array.prototype.sort
 * on strings, and the global parseInt with no radix.
 */
module JsBuiltins {
  import opened Wrappers
  import opened Sequences

  // ---------------------------------------------------------------------------
  // Whitespace and trim
  // ---------------------------------------------------------------------------

  /** ECMAScript WhiteSpace and LineTerminator code points: what trim removes
    * and what parseInt skips at the front. */
  predicate IsSpace(c: char) {
    c == '\t' || c == '\n' || c == '\U{000B}' || c == '\U{000C}' || c == '\r' || c == ' '
    || c == '\U{00A0}' || c == '\U{1680}' || ('\U{2000}' <= c <= '\U{200A}')
    || c == '\U{2028}' || c == '\U{2029}' || c == '\U{202F}' || c == '\U{205F}'
    || c == '\U{3000}' || c == '\U{FEFF}'
  }

  /** Drops leading whitespace. */
  function TrimStart(s: string): (r: string)
    ensures |r| <= |s| && r == s[|s| - |r|..]
    ensures forall i :: 0 <= i < |s| - |r| ==> IsSpace(s[i])
    ensures r == [] || !IsSpace(r[0])
  {
    if s != [] && IsSpace(s[0]) then TrimStart(s[1..]) else s
  }

  /** Drops trailing whitespace. */
  function TrimEnd(s: string): (r: string)
    ensures |r| <= |s| && r == s[..|r|]
    ensures forall i :: |r| <= i < |s| ==> IsSpace(s[i])
    ensures r == [] || !IsSpace(r[|r| - 1])
  {
    if s != [] && IsSpace(s[|s| - 1]) then TrimEnd(s[..|s| - 1]) else s
  }

  /** Everything of `s` before `i` and from `j` on is whitespace. */
  predicate OnlySpaceOutside(s: string, i: int, j: int) {
    0 <= i <= j <= |s| && (forall k :: 0 <= k < i ==> IsSpace(s[k])) && (forall k :: j <= k < |s| ==> IsSpace(s[k]))
  }

  /** `r` is `s` with its surrounding whitespace cut off: a middle of `s`
    * with only whitespace outside it, neither starting nor ending with
    * whitespace, and empty exactly when `s` is all whitespace. */
  ghost predicate TrimmedFrom(s: string, r: string) {
    && (exists i, j :: OnlySpaceOutside(s, i, j) && r == s[i..j])
    && (r == [] || (!IsSpace(r[0]) && !IsSpace(r[|r| - 1])))
    && (r == [] <==> forall i :: 0 <= i < |s| ==> IsSpace(s[i]))
  }

  /** String.prototype.trim. */
  function Trim(s: string): (r: string)
    ensures TrimmedFrom(s, r)
  {
    TrimCutsSpace(s);
    TrimEnd(TrimStart(s))
  }

  /** Cutting leading and then trailing whitespace is a trim. */
  lemma TrimCutsSpace(s: string)
    ensures TrimmedFrom(s, TrimEnd(TrimStart(s)))
  {
    var t := TrimStart(s);
    var r := TrimEnd(t);
    var i := |s| - |t|;
    SpaceOutsideMiddle(s, i, t, r);
    if r != [] {
      assert s[i] == r[0];
    }
  }

  /** A prefix `r` of the suffix `t` of `s`, with only whitespace before `t` and after `r`, is a middle with only whitespace outside it. */
  lemma SpaceOutsideMiddle(s: string, i: nat, t: string, r: string)
    requires i <= |s| && t == s[i..] && |r| <= |t| && r == t[..|r|]
    requires forall k :: 0 <= k < i ==> IsSpace(s[k])
    requires forall k :: |r| <= k < |t| ==> IsSpace(t[k])
    ensures OnlySpaceOutside(s, i, i + |r|) && r == s[i..i + |r|]
  {
    forall k | i + |r| <= k < |s| ensures IsSpace(s[k]) {
      assert s[k] == t[k - i];
    }
  }

  /** Trimming twice is trimming once. */
  lemma TrimIdempotent(s: string)
    ensures Trim(Trim(s)) == Trim(s)
  {
    var r := Trim(s);
    if r != [] {
      assert TrimStart(r) == r;
      assert TrimEnd(r) == r;
    }
  }

  // ---------------------------------------------------------------------------
  // Lower case and substring search
  // ---------------------------------------------------------------------------

  /** toLowerCase on one character (ASCII letters only). */
  function LowerChar(c: char): char {
    if 'A' <= c <= 'Z' then (c as int - 'A' as int + 'a' as int) as char else c
  }

  /** String.prototype.toLowerCase, restricted to the ASCII letters. */
  function ToLower(s: string): (r: string)
    ensures |r| == |s|
    ensures forall i :: 0 <= i < |s| ==> r[i] == LowerChar(s[i]) && !('A' <= r[i] <= 'Z')
  {
    seq(|s|, i requires 0 <= i < |s| => LowerChar(s[i]))
  }

  /** `p` occurs in `s` starting at index `i`. */
  predicate OccursAt(s: string, p: string, i: int) {
    0 <= i && i + |p| <= |s| && s[i..i + |p|] == p
  }

  /** String.prototype.includes. */
  predicate Includes(s: string, p: string) {
    (|p| <= |s| && s[..|p|] == p) || (s != [] && Includes(s[1..], p))
  }

  /** `includes` holds exactly when the pattern occurs at some index. */
  lemma {:induction false} IncludesIff(s: string, p: string)
    ensures Includes(s, p) <==> exists i :: OccursAt(s, p, i)
  {
    if |p| <= |s| && s[..|p|] == p {
      assert OccursAt(s, p, 0);
    } else if s == [] {
    } else {
      IncludesIff(s[1..], p);
      if Includes(s[1..], p) {
        var i :| OccursAt(s[1..], p, i);
        OccursAfterFirst(s, p, i);
      }
      if exists i :: OccursAt(s, p, i) {
        var i :| OccursAt(s, p, i);
        assert i != 0;
        OccursInRest(s, p, i);
      }
    }
  }

  /** An occurrence in the rest of `s` is an occurrence in `s`, one place later. */
  lemma OccursAfterFirst(s: string, p: string, i: int)
    requires s != [] && OccursAt(s[1..], p, i)
    ensures OccursAt(s, p, i + 1)
  {
    assert s[i + 1..i + 1 + |p|] == s[1..][i..i + |p|];
  }

  /** An occurrence past the first place of `s` is an occurrence in the rest, one place earlier. */
  lemma OccursInRest(s: string, p: string, i: int)
    requires OccursAt(s, p, i) && i > 0
    ensures OccursAt(s[1..], p, i - 1)
  {
    assert s[1..][i - 1..i - 1 + |p|] == s[i..i + |p|];
  }

  // ---------------------------------------------------------------------------
  // The default comparator of Array.prototype.sort on strings
  // ---------------------------------------------------------------------------

  /** `a` sorts strictly before `b`: lexicographic by character code. */
  predicate Below(a: string, b: string) {
    if a == [] then b != []
    else b != [] && (a[0] < b[0] || (a[0] == b[0] && Below(a[1..], b[1..])))
  }

  predicate NotAfter(a: string, b: string) {
    a == b || Below(a, b)
  }

  lemma {:induction false} BelowIrreflexive(a: string)
    ensures !Below(a, a)
  {
    if a != [] {
      BelowIrreflexive(a[1..]);
    }
  }

  lemma {:induction false} BelowAsymmetric(a: string, b: string)
    ensures !(Below(a, b) && Below(b, a))
  {
    if a != [] && b != [] && a[0] == b[0] {
      BelowAsymmetric(a[1..], b[1..]);
    }
  }

  lemma {:induction false} BelowTransitive(a: string, b: string, c: string)
    requires Below(a, b) && Below(b, c)
    ensures Below(a, c)
  {
    if a != [] && a[0] == b[0] && b[0] == c[0] {
      BelowTransitive(a[1..], b[1..], c[1..]);
    }
  }

  lemma {:induction false} BelowTotal(a: string, b: string)
    ensures a == b || Below(a, b) || Below(b, a)
  {
    if a != [] && b != [] && a[0] == b[0] {
      BelowTotal(a[1..], b[1..]);
      if a[1..] == b[1..] {
        assert a == [a[0]] + a[1..] && b == [b[0]] + b[1..];
      }
    }
  }

  predicate Sorted(s: seq<string>) {
    forall i, j :: 0 <= i < j < |s| ==> NotAfter(s[i], s[j])
  }

  predicate StrictlySorted(s: seq<string>) {
    forall i, j :: 0 <= i < j < |s| ==> Below(s[i], s[j])
  }

  /** Inserts `x` in front of the first element it does not sort after. */
  function Insert(x: string, s: seq<string>): (r: seq<string>)
    ensures multiset(r) == multiset(s) + multiset{x}
  {
    if s == [] then [x]
    else if Below(s[0], x) then assert s == [s[0]] + s[1..]; [s[0]] + Insert(x, s[1..])
    else [x] + s
  }

  /** Array.prototype.sort() with the default comparator, on strings. */
  function SortStrings(xs: seq<string>): (r: seq<string>)
    ensures multiset(r) == multiset(xs)
  {
    if xs == [] then [] else assert xs == [xs[0]] + xs[1..]; Insert(xs[0], SortStrings(xs[1..]))
  }

  lemma {:induction false} InsertSorted(x: string, s: seq<string>)
    requires Sorted(s)
    ensures Sorted(Insert(x, s))
  {
    if s != [] {
      if Below(s[0], x) {
        InsertSorted(x, s[1..]);
        var r := Insert(x, s);
        assert r == [s[0]] + Insert(x, s[1..]);
        forall j | 0 < j < |r| ensures NotAfter(r[0], r[j]) {
          assert r[j] in multiset(Insert(x, s[1..]));
          assert r[j] in multiset(s[1..]) + multiset{x};
          if r[j] != x {
            var k :| 0 <= k < |s[1..]| && s[1..][k] == r[j];
            assert NotAfter(s[0], s[k + 1]);
          }
        }
      } else {
        var r := [x] + s;
        forall j | 0 < j < |r| ensures NotAfter(x, r[j]) {
          BelowTotal(x, s[0]);
          if j > 1 && x != s[0] && s[0] != s[j - 1] {
            assert NotAfter(s[0], s[j - 1]);
            BelowTransitive(x, s[0], s[j - 1]);
          }
        }
      }
    }
  }

  /** The default sort yields an ascending arrangement of its input. */
  lemma {:induction false} SortStringsSorted(xs: seq<string>)
    ensures Sorted(SortStrings(xs))
  {
    if xs != [] {
      SortStringsSorted(xs[1..]);
      InsertSorted(xs[0], SortStrings(xs[1..]));
    }
  }

  /** Sorting a duplicate-free list yields a strictly ascending one. */
  lemma SortStringsStrict(xs: seq<string>)
    requires Distinct(xs)
    ensures StrictlySorted(SortStrings(xs))
  {
    SortStringsSorted(xs);
    PermutationKeepsDistinct(xs, SortStrings(xs));
  }

  /** Two strictly ascending lists over the same elements are the same list. */
  lemma {:induction false} StrictlySortedUnique(a: seq<string>, b: seq<string>)
    requires StrictlySorted(a) && StrictlySorted(b)
    requires forall x :: x in a <==> x in b
    ensures a == b
  {
    assert a != [] ==> a[0] in a;
    assert b != [] ==> b[0] in b;
    if a != [] {
      assert a[0] in b;
      var k := IndexOf(b, a[0]);
      var m := IndexOf(a, b[0]);
      if k > 0 {
        if m > 0 {
          BelowAsymmetric(a[0], b[0]);
        } else {
          BelowIrreflexive(a[0]);
        }
      }
      assert a[0] == b[0];
      forall x | x in a[1..] ensures x in b[1..] {
        var j := IndexOf(b, x);
        if j == 0 {
          BelowIrreflexive(x);
        }
      }
      forall x | x in b[1..] ensures x in a[1..] {
        var j := IndexOf(a, x);
        if j == 0 {
          BelowIrreflexive(x);
        }
      }
      StrictlySortedUnique(a[1..], b[1..]);
      assert a == [a[0]] + a[1..] && b == [b[0]] + b[1..];
    }
  }

  // ---------------------------------------------------------------------------
  // parseInt(s) with no radix
  // ---------------------------------------------------------------------------

  /** The value of `c` as a base-36 digit, or 36 when `c` is no digit. */
  function DigitValue(c: char): nat {
    if '0' <= c <= '9' then c as int - '0' as int
    else if 'a' <= c <= 'z' then c as int - 'a' as int + 10
    else if 'A' <= c <= 'Z' then c as int - 'A' as int + 10
    else 36
  }

  predicate IsDigit(c: char, radix: nat) {
    DigitValue(c) < radix
  }

  /** The longest prefix of `s` made of digits of `radix`. */
  function DigitRun(s: string, radix: nat): (r: string)
    ensures |r| <= |s| && r == s[..|r|]
    ensures forall i :: 0 <= i < |r| ==> IsDigit(r[i], radix)
    ensures |r| < |s| ==> !IsDigit(s[|r|], radix)
  {
    if s != [] && IsDigit(s[0], radix) then [s[0]] + DigitRun(s[1..], radix) else []
  }

  /** The number a digit string denotes in `radix`. */
  function DigitsValue(z: string, radix: nat): nat {
    if z == [] then 0 else DigitsValue(z[..|z| - 1], radix) * radix + DigitValue(z[|z| - 1])
  }

  /**
   * parseInt(s): skip leading whitespace, take one optional sign, read a
   * "0x"/"0X" prefix as base 16 and otherwise base 10, then convert the
   * longest run of digits; None stands for NaN (no digit at all).
   */
  function ParseInt(s: string): Option<int> {
    var z := DigitRun(UnsignedBody(s), RadixOf(s));
    if z == [] then None else Some(SignOf(s) * DigitsValue(z, RadixOf(s)))
  }

  /** What follows the whitespace and the sign. */
  function Unsigned(s: string): string {
    var t := TrimStart(s);
    if t != [] && (t[0] == '-' || t[0] == '+') then t[1..] else t
  }

  function SignOf(s: string): int {
    var t := TrimStart(s);
    if t != [] && t[0] == '-' then -1 else 1
  }

  predicate HasHexPrefix(u: string) {
    |u| >= 2 && u[0] == '0' && (u[1] == 'x' || u[1] == 'X')
  }

  function RadixOf(s: string): nat {
    if HasHexPrefix(Unsigned(s)) then 16 else 10
  }

  /** The digits part: what follows the sign and any hex prefix. */
  function UnsignedBody(s: string): string {
    var u := Unsigned(s);
    if HasHexPrefix(u) then u[2..] else u
  }

  function DigitChar(d: nat): char
    requires d < 10
  {
    ('0' as int + d) as char
  }

  /** The decimal spelling of a natural number, as Number.prototype.toString gives it. */
  function DecimalString(n: nat): (r: string)
    ensures r != [] && forall i :: 0 <= i < |r| ==> IsDigit(r[i], 10)
    decreases n
  {
    if n < 10 then [DigitChar(n)] else DecimalString(n / 10) + [DigitChar(n % 10)]
  }

  lemma {:induction false} DecimalValue(n: nat)
    ensures DigitsValue(DecimalString(n), 10) == n
    decreases n
  {
    var r := DecimalString(n);
    if n >= 10 {
      DecimalValue(n / 10);
      assert r[..|r| - 1] == DecimalString(n / 10);
    }
  }

  lemma {:induction false} DigitRunOfDigits(z: string, rest: string, radix: nat)
    requires forall i :: 0 <= i < |z| ==> IsDigit(z[i], radix)
    requires rest == [] || !IsDigit(rest[0], radix)
    ensures DigitRun(z + rest, radix) == z
  {
    if z != [] {
      assert (z + rest)[1..] == z[1..] + rest;
      DigitRunOfDigits(z[1..], rest, radix);
    }
  }

  lemma TrimStartNoSpace(s: string)
    requires s != [] && !IsSpace(s[0])
    ensures TrimStart(s) == s
  {
  }

  /** A digit string that does not start "0x" or "0X", whatever follows it. */
  lemma NoHexPrefix(d: string, rest: string)
    requires d != [] && IsDigit(d[0], 10)
    requires rest == [] || (rest[0] != 'x' && rest[0] != 'X')
    requires |d| >= 2 ==> d[0] != '0'
    ensures !HasHexPrefix(d + rest)
  {
    var u := d + rest;
    assert u[0] == d[0];
    if |d| == 1 && rest != [] {
      assert u[1] == rest[0];
    } else if |d| >= 2 {
      assert u[1] == d[1];
    }
  }

  /** After a minus sign, a string starting with a digit is what parseInt reads on, negated. */
  lemma NegativeDigits(u: string)
    requires u != [] && IsDigit(u[0], 10)
    ensures Unsigned("-" + u) == u && SignOf("-" + u) == -1
  {
    var s := "-" + u;
    TrimStartNoSpace(s);
    assert s[1..] == u;
  }

  /** A string starting with a digit is what parseInt reads on. */
  lemma PositiveDigits(u: string)
    requires u != [] && IsDigit(u[0], 10)
    ensures Unsigned(u) == u && SignOf(u) == 1
  {
    assert '0' <= u[0] <= '9';
    TrimStartNoSpace(u);
  }

  /** A decimal spelling, signed or not, is read in base 10 from its first digit on. */
  lemma SpelledBody(d: string, rest: string, negative: bool)
    requires d != [] && forall i :: 0 <= i < |d| ==> IsDigit(d[i], 10)
    requires rest == [] || (rest[0] != 'x' && rest[0] != 'X')
    requires |d| >= 2 ==> d[0] != '0'
    ensures var s := (if negative then "-" else "") + d + rest;
      UnsignedBody(s) == d + rest && RadixOf(s) == 10
      && SignOf(s) == if negative then -1 else 1
  {
    var u := d + rest;
    assert u[0] == d[0];
    NoHexPrefix(d, rest);
    if negative {
      assert "-" + d + rest == "-" + u;
      NegativeDigits(u);
    } else {
      assert "" + d + rest == u;
      PositiveDigits(u);
    }
  }

  lemma DecimalLeading(n: nat)
    ensures |DecimalString(n)| >= 2 ==> DecimalString(n)[0] != '0'
  {
    if n >= 10 {
      DecimalLeading(n / 10);
      DecimalValue(n / 10);
      var d := DecimalString(n / 10);
      assert |d| == 1 ==> DigitsValue(d, 10) == DigitValue(d[0]);
      assert DecimalString(n)[0] == d[0];
    }
  }

  /** parseInt reads a signed digit string without a leading zero as its value, ignoring a non-digit tail. */
  lemma ParseIntDigits(d: string, n: nat, negative: bool, rest: string)
    requires d != [] && forall i :: 0 <= i < |d| ==> IsDigit(d[i], 10)
    requires |d| >= 2 ==> d[0] != '0'
    requires DigitsValue(d, 10) == n
    requires rest == [] || (!IsDigit(rest[0], 10) && rest[0] != 'x' && rest[0] != 'X')
    ensures ParseInt((if negative then "-" else "") + d + rest) == Some(if negative then -(n as int) else n as int)
  {
    SpelledBody(d, rest, negative);
    DigitRunOfDigits(d, rest, 10);
    ReadsSigned((if negative then "-" else "") + d + rest, d, n, negative);
  }

  /** Once the digit run, the base and the sign of `s` are known, parseInt is the signed value of the run. */
  lemma ReadsSigned(s: string, z: string, n: nat, negative: bool)
    requires z != [] && DigitRun(UnsignedBody(s), RadixOf(s)) == z && RadixOf(s) == 10
    requires DigitsValue(z, 10) == n && SignOf(s) == if negative then -1 else 1
    ensures ParseInt(s) == Some(if negative then -(n as int) else n as int)
  {
    SignTimes(SignOf(s), n, negative);
  }

  /** A sign of -1 or 1 applied to a magnitude. */
  lemma SignTimes(sign: int, n: nat, negative: bool)
    requires sign == if negative then -1 else 1
    ensures sign * n == if negative then -(n as int) else n as int
  {
  }


  /**
   * parseInt reads back the decimal spelling of a natural number, with or
   * without a minus sign, and ignores whatever non-digit text follows it.
   */
  lemma ParseIntDecimal(n: nat, negative: bool, rest: string)
    requires rest == [] || (!IsDigit(rest[0], 10) && rest[0] != 'x' && rest[0] != 'X')
    ensures ParseInt((if negative then "-" else "") + DecimalString(n) + rest)
         == Some(if negative then -(n as int) else n as int)
  {
    DecimalLeading(n);
    DecimalValue(n);
    ParseIntDigits(DecimalString(n), n, negative, rest);
  }

}
