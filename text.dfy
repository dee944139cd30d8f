/**
 * The JavaScript string operations the sources rely on, restricted to what the
 * model needs: ASCII case mapping, `trim`, `includes`, number-to-text in base 10
 * and 16, `parseInt(_, 16)` on a hexadecimal prefix, `padStart`, and a global
 * replace of a literal token.
 */
module Text {
  import opened Common

  /** The characters JavaScript's `\s` class and `String.prototype.trim` treat as white space. */
  predicate IsJsSpace(c: char) {
    var n := c as int;
    n == 0x09 || n == 0x0A || n == 0x0B || n == 0x0C || n == 0x0D || n == 0x20
    || n == 0xA0 || n == 0x1680 || (0x2000 <= n <= 0x200A) || n == 0x2028
    || n == 0x2029 || n == 0x202F || n == 0x205F || n == 0x3000 || n == 0xFEFF
  }

  predicate IsAsciiUpper(c: char) { 'A' <= c <= 'Z' }

  function LowerChar(c: char): (d: char)
    ensures !IsAsciiUpper(d)
    ensures IsAsciiUpper(c) || d == c
  {
    if IsAsciiUpper(c) then (c as int + 32) as char else c
  }

  /** `toLowerCase`, on the ASCII letters. */
  function Lower(s: string): (r: string)
    ensures |r| == |s|
    ensures forall i :: 0 <= i < |s| ==> r[i] == LowerChar(s[i])
  {
    seq(|s|, i requires 0 <= i < |s| => LowerChar(s[i]))
  }

  lemma LowerIdempotent(s: string)
    ensures Lower(Lower(s)) == Lower(s)
  {
  }

  /**
   * `s.length`: the number of UTF-16 code units, one for a character up to
   * U+FFFF and two (a surrogate pair) for a character beyond it.
   */
  function Utf16Length(s: string): (n: nat)
    ensures |s| <= n <= 2 * |s|
    ensures (forall i :: 0 <= i < |s| ==> s[i] as int < 0x1_0000) ==> n == |s|
    decreases |s|
  {
    if s == [] then 0
    else (if s[0] as int < 0x1_0000 then 1 else 2) + Utf16Length(s[1..])
  }

  // ---------------------------------------------------------------------------
  // trim

  function TrimStart(s: string): (r: string)
    ensures |r| <= |s| && r == s[|s| - |r|..]
    ensures r == [] || !IsJsSpace(r[0])
    ensures forall i :: 0 <= i < |s| - |r| ==> IsJsSpace(s[i])
    decreases |s|
  {
    if |s| > 0 && IsJsSpace(s[0]) then TrimStart(s[1..]) else s
  }

  function TrimEnd(s: string): (r: string)
    ensures |r| <= |s| && r == s[..|r|]
    ensures r == [] || !IsJsSpace(r[|r| - 1])
    ensures forall i :: |r| <= i < |s| ==> IsJsSpace(s[i])
    decreases |s|
  {
    if |s| > 0 && IsJsSpace(s[|s| - 1]) then TrimEnd(s[..|s| - 1]) else s
  }

  /** `r` is `s[i..j]`, and everything of `s` outside `i..j` is white space. */
  predicate StripsTo(s: string, r: string, i: int, j: int) {
    && 0 <= i <= j <= |s| && r == s[i..j]
    && (forall k :: 0 <= k < i ==> IsJsSpace(s[k]))
    && (forall k :: j <= k < |s| ==> IsJsSpace(s[k]))
  }

  /**
   * `String.prototype.trim`: the text between the leading and the trailing white
   * space, which itself neither starts nor ends with white space.
   */
  function Trim(s: string): (r: string)
    ensures r == [] <==> forall i :: 0 <= i < |s| ==> IsJsSpace(s[i])
    ensures |r| > 0 ==> !IsJsSpace(r[0]) && !IsJsSpace(r[|r| - 1])
    ensures exists i, j :: StripsTo(s, r, i, j)
  {
    var t := TrimStart(s);
    var r := TrimEnd(t);
    StripsBetween(s, t, r);
    TrimBlank(s);
    r
  }

  lemma TrimBlank(s: string)
    ensures var r := TrimEnd(TrimStart(s));
      && (r == [] <==> forall i :: 0 <= i < |s| ==> IsJsSpace(s[i]))
      && (|r| > 0 ==> !IsJsSpace(r[0]) && !IsJsSpace(r[|r| - 1]))
  {
    var t := TrimStart(s);
    var r := TrimEnd(t);
    if r == [] {
      assert t == [];
    } else {
      assert r[0] == t[0];
      assert r[0] == s[|s| - |t|];
    }
  }

  /** Dropping white space from the front and then from the back leaves a slice with white space around it. */
  lemma StripsBetween(s: string, t: string, r: string)
    requires |t| <= |s| && t == s[|s| - |t|..]
    requires forall k :: 0 <= k < |s| - |t| ==> IsJsSpace(s[k])
    requires |r| <= |t| && r == t[..|r|]
    requires forall k :: |r| <= k < |t| ==> IsJsSpace(t[k])
    ensures StripsTo(s, r, |s| - |t|, |s| - |t| + |r|)
  {
    var i, j := |s| - |t|, |s| - |t| + |r|;
    PrefixOfSuffix(s, i, |r|);
    forall k | j <= k < |s| ensures IsJsSpace(s[k]) {
      assert s[k] == t[k - i];
    }
  }

  lemma PrefixOfSuffix(s: string, i: nat, n: nat)
    requires i + n <= |s|
    ensures s[i..][..n] == s[i..i + n]
  {
  }

  // ---------------------------------------------------------------------------
  // includes

  predicate IsPrefix(p: string, s: string) {
    |p| <= |s| && s[..|p|] == p
  }

  /** `s.includes(w)`: `w` occurs in `s` at some position. */
  predicate Contains(s: string, w: string)
    decreases |s|
  {
    IsPrefix(w, s) || (|s| > 0 && Contains(s[1..], w))
  }

  /** `w` occurs in `s` starting at position `i`. */
  predicate OccursAt(s: string, w: string, i: int) {
    0 <= i <= |s| - |w| && s[i..i + |w|] == w
  }

  /** A slice of the tail is the slice of the text one position further on. */
  lemma TailSlice(s: string, i: nat, n: nat)
    requires 1 + i + n <= |s|
    ensures s[1..][i..i + n] == s[i + 1..i + 1 + n]
  {
  }

  /** `Contains` holds exactly when there is a position at which `w` occurs. */
  lemma {:induction false} ContainsAt(s: string, w: string)
    ensures Contains(s, w) <==> exists i :: OccursAt(s, w, i)
    decreases |s|
  {
    if IsPrefix(w, s) {
      assert OccursAt(s, w, 0);
    } else if |s| > 0 {
      ContainsAt(s[1..], w);
      if Contains(s[1..], w) {
        var i :| OccursAt(s[1..], w, i);
        TailSlice(s, i, |w|);
        assert OccursAt(s, w, i + 1);
      } else if exists i :: OccursAt(s, w, i) {
        var i :| OccursAt(s, w, i);
        assert i != 0;
        TailSlice(s, i - 1, |w|);
        assert OccursAt(s[1..], w, i - 1);
      }
    }
  }

  // ---------------------------------------------------------------------------
  // numbers as text

  /** The lower-case digit for `d` (what `Number.prototype.toString(radix)` writes). */
  function DigitChar(d: nat): (c: char)
    requires d < 16
  {
    if d < 10 then ('0' as int + d) as char else ('a' as int + d - 10) as char
  }

  /** The value of a digit in any radix up to 16, either case; 16 for a non-digit. */
  function DigitValue(c: char): (v: nat)
    ensures v <= 16
  {
    if '0' <= c <= '9' then c as int - '0' as int
    else if 'a' <= c <= 'f' then c as int - 'a' as int + 10
    else if 'A' <= c <= 'F' then c as int - 'A' as int + 10
    else 16
  }

  predicate AllDigits(s: string, radix: nat) {
    forall i :: 0 <= i < |s| ==> DigitValue(s[i]) < radix
  }

  predicate IsLowerHexDigit(c: char) { '0' <= c <= '9' || 'a' <= c <= 'f' }

  /** `n.toString(radix)` for a non-negative integer: no leading zeros, lower-case digits. */
  function NatToRadix(n: nat, radix: nat): (r: string)
    requires 2 <= radix <= 16
    ensures |r| >= 1
    ensures forall i :: 0 <= i < |r| ==> DigitValue(r[i]) < radix && IsLowerHexDigit(r[i])
    ensures |r| > 1 ==> r[0] != '0'
    decreases n
  {
    if n < radix then [DigitChar(n)]
    else
      DivStep(n, radix);
      var p := NatToRadix(n / radix, radix);
      p + [DigitChar(n % radix)]
  }

  lemma DivStep(n: nat, radix: nat)
    requires 2 <= radix <= n
    ensures 1 <= n / radix < n && n % radix < radix
    ensures n == (n / radix) * radix + n % radix
  {
  }

  /** The number a string of digits denotes in `radix` (the inverse of `NatToRadix`). */
  function RadixValue(s: string, radix: nat): nat
    requires 2 <= radix <= 16 && AllDigits(s, radix)
    decreases |s|
  {
    if s == [] then 0
    else RadixValue(s[..|s| - 1], radix) * radix + DigitValue(s[|s| - 1])
  }

  /** Reading back what `NatToRadix` wrote gives the number. */
  lemma {:induction false} RadixRoundTrip(n: nat, radix: nat)
    requires 2 <= radix <= 16
    ensures RadixValue(NatToRadix(n, radix), radix) == n
    decreases n
  {
    var r := NatToRadix(n, radix);
    if n >= radix {
      DivStep(n, radix);
      RadixRoundTrip(n / radix, radix);
      assert r[..|r| - 1] == NatToRadix(n / radix, radix);
    }
  }

  function Pow(b: nat, k: nat): (r: nat)
    ensures b >= 1 ==> r >= 1
  {
    if k == 0 then 1 else b * Pow(b, k - 1)
  }

  lemma AllDigitsAppend(a: string, b: string, radix: nat)
    requires AllDigits(a, radix) && AllDigits(b, radix)
    ensures AllDigits(a + b, radix)
  {
    forall i | 0 <= i < |a + b| ensures DigitValue((a + b)[i]) < radix {
      if i >= |a| {
        assert (a + b)[i] == b[i - |a|];
      }
    }
  }

  lemma ShiftStep(x: int, p: int, y: int, d: int, radix: int)
    ensures (x * p + y) * radix + d == x * (radix * p) + (y * radix + d)
  {
  }

  /** The digits of `a` shifted left by the length of `b`, plus the digits of `b`. */
  lemma {:induction false} RadixValueAppend(a: string, b: string, radix: nat)
    requires 2 <= radix <= 16 && AllDigits(a, radix) && AllDigits(b, radix)
    ensures AllDigits(a + b, radix)
    ensures RadixValue(a + b, radix) == RadixValue(a, radix) * Pow(radix, |b|) + RadixValue(b, radix)
    decreases |b|
  {
    AllDigitsAppend(a, b, radix);
    if b == [] {
      assert a + b == a;
    } else {
      var init := b[..|b| - 1];
      var ab := a + b;
      assert ab[..|ab| - 1] == a + init;
      assert ab[|ab| - 1] == b[|b| - 1];
      RadixValueAppend(a, init, radix);
      var ra, ri, d := RadixValue(a, radix), RadixValue(init, radix), DigitValue(b[|b| - 1]);
      assert RadixValue(ab, radix) == RadixValue(a + init, radix) * radix + d;
      assert RadixValue(b, radix) == ri * radix + d;
      ShiftStep(ra, Pow(radix, |init|), ri, d, radix);
    }
  }

  lemma BoundStep(v: nat, d: nat, radix: nat, p: nat)
    requires v < p && d < radix
    ensures v * radix + d < radix * p
  {
    assert (v + 1) * radix <= p * radix;
  }

  /** A string of `k` digits denotes less than `radix` to the `k`. */
  lemma {:induction false} RadixValueBound(s: string, radix: nat)
    requires 2 <= radix <= 16 && AllDigits(s, radix)
    ensures RadixValue(s, radix) < Pow(radix, |s|)
    decreases |s|
  {
    if s != [] {
      var init := s[..|s| - 1];
      RadixValueBound(init, radix);
      BoundStep(RadixValue(init, radix), DigitValue(s[|s| - 1]), radix, Pow(radix, |init|));
    }
  }

  lemma QuotientBound(n: nat, radix: nat, p: nat)
    requires 2 <= radix && n < radix * p
    ensures n / radix < p
  {
    MulStrict(p, 0, n / radix, radix);
  }

  /** A number below `radix` to the `k` is written with at most `k` digits, for `k` at least 1. */
  lemma {:induction false} NatToRadixLength(n: nat, radix: nat, k: nat)
    requires 2 <= radix <= 16 && 1 <= k && n < Pow(radix, k)
    ensures |NatToRadix(n, radix)| <= k
    decreases n
  {
    if n >= radix {
      DivStep(n, radix);
      QuotientBound(n, radix, Pow(radix, k - 1));
      NatToRadixLength(n / radix, radix, k - 1);
    }
  }

  /** Leading zeros do not change the value. */
  lemma LeadingZeros(s: string, width: nat, radix: nat)
    requires 2 <= radix <= 16 && AllDigits(s, radix)
    ensures AllDigits(PadStart(s, width, '0'), radix)
    ensures RadixValue(PadStart(s, width, '0'), radix) == RadixValue(s, radix)
  {
    if |s| < width {
      var zeros := seq(width - |s|, _ => '0');
      ZerosValue(zeros, radix);
      RadixValueAppend(zeros, s, radix);
    }
  }

  lemma {:induction false} ZerosValue(z: string, radix: nat)
    requires 2 <= radix <= 16 && forall i :: 0 <= i < |z| ==> z[i] == '0'
    ensures AllDigits(z, radix) && RadixValue(z, radix) == 0
    decreases |z|
  {
    if z != [] {
      ZerosValue(z[..|z| - 1], radix);
    }
  }

  /** Two lower-case digit strings of the same length and value are the same string. */
  lemma {:induction false} RadixInjective(a: string, b: string, radix: nat)
    requires 2 <= radix <= 16 && |a| == |b| && AllDigits(a, radix) && AllDigits(b, radix)
    requires forall i :: 0 <= i < |a| ==> IsLowerHexDigit(a[i]) && IsLowerHexDigit(b[i])
    requires RadixValue(a, radix) == RadixValue(b, radix)
    ensures a == b
    decreases |a|
  {
    if a != [] {
      var n := |a| - 1;
      LastDigitEqual(a, b, radix);
      RadixInjective(a[..n], b[..n], radix);
      assert a == a[..n] + [a[n]] && b == b[..n] + [b[n]];
    }
  }

  /** Equal values of equally long strings have equal last digits and equal values before them. */
  lemma LastDigitEqual(a: string, b: string, radix: nat)
    requires 2 <= radix <= 16 && |a| == |b| > 0 && AllDigits(a, radix) && AllDigits(b, radix)
    requires IsLowerHexDigit(a[|a| - 1]) && IsLowerHexDigit(b[|b| - 1])
    requires RadixValue(a, radix) == RadixValue(b, radix)
    ensures a[|a| - 1] == b[|b| - 1]
    ensures RadixValue(a[..|a| - 1], radix) == RadixValue(b[..|b| - 1], radix)
  {
    var n := |a| - 1;
    DivModUnique(RadixValue(a[..n], radix), DigitValue(a[n]), RadixValue(b[..n], radix), DigitValue(b[n]), radix);
    LowerHexDigitsUnique(a[n], b[n]);
  }

  /** A lower-case hexadecimal digit is determined by its value. */
  lemma LowerHexDigitsUnique(c: char, d: char)
    requires IsLowerHexDigit(c) && IsLowerHexDigit(d) && DigitValue(c) == DigitValue(d)
    ensures c == d
  {
  }

  lemma DivModUnique(q1: nat, r1: nat, q2: nat, r2: nat, d: nat)
    requires 0 < d && r1 < d && r2 < d && q1 * d + r1 == q2 * d + r2
    ensures q1 == q2 && r1 == r2
  {
    MulStrict(q1, r1, q2, d);
    MulStrict(q2, r2, q1, d);
  }

  /** A smaller quotient, whatever its remainder, stays below a larger multiple. */
  lemma MulStrict(q1: nat, r1: nat, q2: nat, d: nat)
    requires r1 < d
    ensures q1 < q2 ==> q1 * d + r1 < q2 * d
  {
    if q1 < q2 {
      assert (q1 + 1) * d <= q2 * d;
    }
  }

  /** Decimal text of a non-negative integer. */
  function NatToString(n: nat): (r: string)
    ensures |r| >= 1 && AllDigits(r, 10)
  {
    NatToRadix(n, 10)
  }

  /** `n.toString()` for an integer: a minus sign, then the decimal digits of `|n|`. */
  function IntToString(n: int): (r: string)
    ensures n >= 0 ==> r == NatToString(n)
    ensures n < 0 ==> r == "-" + NatToString(-n)
  {
    if n < 0 then "-" + NatToString(-n) else NatToString(n)
  }

  /** The longest prefix of `s` made of hexadecimal digits. */
  function HexPrefix(s: string): (r: string)
    ensures IsPrefix(r, s) && AllDigits(r, 16)
    ensures |r| < |s| ==> DigitValue(s[|r|]) >= 16
    decreases |s|
  {
    if |s| > 0 && DigitValue(s[0]) < 16 then [s[0]] + HexPrefix(s[1..]) else []
  }

  /**
   * `parseInt(s, 16)` on text that starts with its digits: the value of the leading
   * hexadecimal digits, or `None` (JavaScript's `NaN`) when there are none.
   */
  function ParseHex(s: string): (r: Option<nat>)
    ensures r.None? <==> (s == [] || DigitValue(s[0]) >= 16)
    ensures r.Some? ==> r.value == RadixValue(HexPrefix(s), 16)
  {
    var p := HexPrefix(s);
    if p == [] then None else Some(RadixValue(p, 16))
  }

  /** `s.padStart(width, c)`. */
  function PadStart(s: string, width: nat, c: char): (r: string)
    ensures |r| == if |s| >= width then |s| else width
    ensures forall i :: 0 <= i < |r| - |s| ==> r[i] == c
    ensures r[|r| - |s|..] == s
  {
    if |s| >= width then s else seq(width - |s|, _ => c) + s
  }

  // ---------------------------------------------------------------------------
  // replace(/token/g, replacement)

  /**
   * `s.replace(/token/g, rep)` for a token without special characters and a
   * replacement without `$`: scans from the left, replacing each occurrence and
   * resuming after it.
   */
  function ReplaceAll(s: string, token: string, rep: string): string
    requires |token| > 0
    decreases |s|
  {
    if |s| < |token| then s
    else if s[..|token|] == token then rep + ReplaceAll(s[|token|..], token, rep)
    else [s[0]] + ReplaceAll(s[1..], token, rep)
  }

  /** Text without the token is left as it is. */
  lemma {:induction false} ReplaceAllAbsent(s: string, token: string, rep: string)
    requires |token| > 0 && !Contains(s, token)
    ensures ReplaceAll(s, token, rep) == s
    decreases |s|
  {
    if |s| >= |token| {
      assert s == [s[0]] + s[1..];
      ReplaceAllAbsent(s[1..], token, rep);
    }
  }

  /** Text that begins with the token has it replaced there. */
  lemma ReplaceAllLeading(token: string, rest: string, rep: string)
    requires |token| > 0
    ensures ReplaceAll(token + rest, token, rep) == rep + ReplaceAll(rest, token, rep)
  {
    assert (token + rest)[..|token|] == token;
    assert (token + rest)[|token|..] == rest;
  }

  /**
   * Up to the first occurrence of the token the text is kept; that occurrence
   * becomes `rep`, and the scan resumes right after it.
   */
  lemma {:induction false} ReplaceAllFirst(s: string, token: string, rep: string, i: nat)
    requires |token| > 0 && OccursAt(s, token, i)
    requires forall j :: 0 <= j < i ==> !OccursAt(s, token, j)
    ensures ReplaceAll(s, token, rep) == s[..i] + rep + ReplaceAll(s[i + |token|..], token, rep)
    decreases i
  {
    if i == 0 {
      ReplaceAllAtStart(s, token, rep);
    } else {
      assert !OccursAt(s, token, 0);
      FirstOccurrenceInTail(s, token, i);
      ReplaceAllFirst(s[1..], token, rep, i - 1);
      ReplaceAllCons(s, token, rep, i);
    }
  }

  /** A token at the start is replaced, and the scan resumes after it. */
  lemma ReplaceAllAtStart(s: string, token: string, rep: string)
    requires |token| > 0 && OccursAt(s, token, 0)
    ensures ReplaceAll(s, token, rep) == s[..0] + rep + ReplaceAll(s[0 + |token|..], token, rep)
  {
    assert s[..|token|] == token;
    assert s[..0] + rep == rep;
  }

  /** One step of `ReplaceAllFirst`: the head is kept in front of the tail's result. */
  lemma ReplaceAllCons(s: string, token: string, rep: string, i: nat)
    requires |token| > 0 && 0 < i && i + |token| <= |s| && !OccursAt(s, token, 0)
    requires ReplaceAll(s[1..], token, rep)
          == s[1..][..i - 1] + rep + ReplaceAll(s[1..][i - 1 + |token|..], token, rep)
    ensures ReplaceAll(s, token, rep) == s[..i] + rep + ReplaceAll(s[i + |token|..], token, rep)
  {
    ReplaceAllSkipsHead(s, token, rep);
    assert s[1..][i - 1 + |token|..] == s[i + |token|..];
    ConsPrefix(s, i, rep, ReplaceAll(s[i + |token|..], token, rep));
  }

  lemma ConsPrefix(s: string, i: nat, rep: string, tail: string)
    requires 0 < i <= |s|
    ensures [s[0]] + (s[1..][..i - 1] + rep + tail) == s[..i] + rep + tail
  {
    assert s[..i] == [s[0]] + s[1..][..i - 1];
  }

  /** Where the token does not start the text, its first character is kept. */
  lemma ReplaceAllSkipsHead(s: string, token: string, rep: string)
    requires |token| > 0 && |s| >= |token| && !OccursAt(s, token, 0)
    ensures ReplaceAll(s, token, rep) == [s[0]] + ReplaceAll(s[1..], token, rep)
  {
    assert s[..|token|] != token;
  }

  /** A first occurrence after the head is the tail's first occurrence, one position earlier. */
  lemma FirstOccurrenceInTail(s: string, token: string, i: nat)
    requires 0 < i && OccursAt(s, token, i)
    requires forall j :: 0 <= j < i ==> !OccursAt(s, token, j)
    ensures OccursAt(s[1..], token, i - 1)
    ensures forall j :: 0 <= j < i - 1 ==> !OccursAt(s[1..], token, j)
  {
    var t := s[1..];
    assert t[i - 1..i - 1 + |token|] == s[i..i + |token|];
    forall j | 0 <= j < i - 1
      ensures !OccursAt(t, token, j)
    {
      assert !OccursAt(s, token, j + 1);
      assert t[j..j + |token|] == s[j + 1..j + 1 + |token|];
    }
  }

  /**
   * A replacement that shares no character with the token leaves the text
   * unchanged on any prefix of the result made of token characters.
   */
  lemma {:induction false} ReplaceAllTokenCharPrefix(s: string, token: string, rep: string, m: nat)
    requires |token| > 0 && |rep| > 0
    requires forall k :: 0 <= k < |rep| ==> rep[k] !in token
    requires m <= |ReplaceAll(s, token, rep)|
    ensures (forall k :: 0 <= k < m ==> ReplaceAll(s, token, rep)[k] in token)
            ==> m <= |s| && ReplaceAll(s, token, rep)[..m] == s[..m]
    decreases |s|
  {
    var r := ReplaceAll(s, token, rep);
    if |s| < |token| {
      assert r == s;
    } else if s[..|token|] == token {
      if m > 0 {
        assert r[0] == rep[0];
        assert r[0] !in token;
      }
    } else if m > 0 {
      var r1 := ReplaceAll(s[1..], token, rep);
      assert r == [s[0]] + r1;
      if forall k :: 0 <= k < m ==> r[k] in token {
        assert forall k :: 0 <= k < m - 1 ==> r1[k] == r[k + 1];
        ReplaceAllTokenCharPrefix(s[1..], token, rep, m - 1);
        assert r[..m] == [s[0]] + r1[..m - 1];
        assert s[..m] == [s[0]] + s[1..][..m - 1];
      }
    }
  }

  /** A slice that lies inside the second part of a concatenation is a slice of that part. */
  lemma SliceOfConcat(a: string, b: string, j: int, n: nat)
    requires |a| <= j && j + n <= |a| + |b|
    ensures (a + b)[j..j + n] == b[j - |a|..j - |a| + n]
  {
  }

  /** A replacement free of token characters followed by a token-free text holds no token. */
  lemma NoTokenAfterRep(rep: string, rest: string, token: string, j: int)
    requires |token| > 0 && |rep| > 0
    requires forall k :: 0 <= k < |rep| ==> rep[k] !in token
    requires j >= |rep| ==> !OccursAt(rest, token, j - |rep|)
    ensures !OccursAt(rep + rest, token, j)
  {
    var r := rep + rest;
    if 0 <= j < |rep| && j + |token| <= |r| {
      assert r[j..j + |token|][0] == rep[j];
      assert token[0] in token;
    } else if j >= |rep| && j + |token| <= |r| {
      SliceOfConcat(rep, rest, j, |token|);
    }
  }

  /** One character before a text adds no token after that character. */
  lemma NoTokenAfterHead(c: char, rest: string, token: string, j: int)
    requires j > 0 && !OccursAt(rest, token, j - 1)
    ensures !OccursAt([c] + rest, token, j)
  {
    if j + |token| <= 1 + |rest| {
      SliceOfConcat([c], rest, j, |token|);
    }
  }

  /**
   * With a non-empty replacement that shares no character with the token, the
   * token occurs nowhere in the result.
   */
  lemma {:induction false} ReplaceAllNoTokenAt(s: string, token: string, rep: string, j: int)
    requires |token| > 0 && |rep| > 0
    requires forall k :: 0 <= k < |rep| ==> rep[k] !in token
    ensures !OccursAt(ReplaceAll(s, token, rep), token, j)
    decreases |s|
  {
    var r := ReplaceAll(s, token, rep);
    if |s| < |token| {
      assert r == s;
    } else if s[..|token|] == token {
      var rest := ReplaceAll(s[|token|..], token, rep);
      assert r == rep + rest;
      if j >= |rep| {
        ReplaceAllNoTokenAt(s[|token|..], token, rep, j - |rep|);
      }
      NoTokenAfterRep(rep, rest, token, j);
    } else {
      var rest := ReplaceAll(s[1..], token, rep);
      assert r == [s[0]] + rest;
      if j > 0 {
        ReplaceAllNoTokenAt(s[1..], token, rep, j - 1);
        NoTokenAfterHead(s[0], rest, token, j);
      } else if j == 0 && |token| <= |r| {
        NoTokenAtStart(s, token, rep);
      }
    }
  }

  /** When the text does not start with the token, neither does the result. */
  lemma NoTokenAtStart(s: string, token: string, rep: string)
    requires |token| > 0 && |rep| > 0
    requires forall k :: 0 <= k < |rep| ==> rep[k] !in token
    requires |token| <= |s| && s[..|token|] != token
    requires |token| <= |ReplaceAll(s, token, rep)|
    ensures !OccursAt(ReplaceAll(s, token, rep), token, 0)
  {
    var r := ReplaceAll(s, token, rep);
    ReplaceAllTokenCharPrefix(s, token, rep, |token|);
    if forall k :: 0 <= k < |token| ==> r[k] in token {
      assert r[..|token|] == s[..|token|];
    } else {
      var k :| 0 <= k < |token| && r[k] !in token;
      assert r[..|token|][k] != token[k];
    }
  }

  /** The replaced text no longer contains the token. */
  lemma ReplaceAllRemovesToken(s: string, token: string, rep: string)
    requires |token| > 0 && |rep| > 0
    requires forall k :: 0 <= k < |rep| ==> rep[k] !in token
    ensures !Contains(ReplaceAll(s, token, rep), token)
  {
    var r := ReplaceAll(s, token, rep);
    forall j ensures !OccursAt(r, token, j) {
      ReplaceAllNoTokenAt(s, token, rep, j);
    }
    ContainsAt(r, token);
  }
}
