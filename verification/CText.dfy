/**
 The C text routines the configuration file is read and written with: strtok,
 strtol, strtod, sscanf conversions, and the printf conversions %d, %04x, %.3f.
 */
module CText {

  import opened Basics

  // ---- scanning ------------------------------------------------------------

  predicate IsSpace(c: char) { c == ' ' || '\t' <= c <= '\r' }

  // the separators given to strtok
  predicate IsSep(c: char) { c == ' ' || c == '=' || c == '\n' || c == '\t' || c == '\r' }

  // the character classes the scanners run over
  datatype Class = Space | Indent | Sep | NonSep | Digit(base: nat) | Other(c: char)

  predicate Matches(k: Class, c: char) {
    match k
    case Space => IsSpace(c)
    case Indent => c == ' ' || c == '\t'
    case Sep => IsSep(c)
    case NonSep => !IsSep(c)
    case Digit(base) => IsDigit(c, base)
    case Other(d) => c != d
  }

  /** The length of the longest prefix of s made of characters of class k. */
  function Span(s: string, k: Class): (n: nat)
    ensures n <= |s| && (forall i :: 0 <= i < n ==> Matches(k, s[i])) && (n < |s| ==> !Matches(k, s[n]))
  {
    if s == "" || !Matches(k, s[0]) then 0 else 1 + Span(s[1..], k)
  }

  lemma {:induction false} SpanIs(s: string, k: Class, n: nat)
    requires n <= |s| && (forall i :: 0 <= i < n ==> Matches(k, s[i])) && (n < |s| ==> !Matches(k, s[n]))
    ensures Span(s, k) == n
  {
    if n > 0 { SpanIs(s[1..], k, n - 1); }
  }

  predicate SepFree(s: string) { forall i :: 0 <= i < |s| ==> !IsSep(s[i]) }

  /** strtok: the next run of non-separators, and what is left after it. */
  function Strtok(s: string): (r: Option<(string, string)>)
    ensures r.Some? ==> r.value.0 != "" && SepFree(r.value.0)
  {
    var t := s[Span(s, Sep)..];
    if t == "" then None
    else var n := Span(t, NonSep); Some((t[..n], t[n..]))
  }

  lemma StrtokIs(pre: string, tok: string, rest: string)
    requires forall i :: 0 <= i < |pre| ==> IsSep(pre[i])
    requires tok != "" && SepFree(tok) && (rest != "" ==> IsSep(rest[0]))
    ensures Strtok(pre + tok + rest) == Some((tok, rest))
  {
    var s := pre + tok + rest;
    SpanIs(s, Sep, |pre|);
    assert s[|pre|..] == tok + rest;
    SpanIs(tok + rest, NonSep, |tok|);
  }

  function IndexOf(s: string, c: char): (r: Option<nat>)
    ensures r.Some? ==> r.value < |s| && s[r.value] == c && c !in s[..r.value]
    ensures r.None? ==> c !in s
  {
    var n := Span(s, Other(c));
    if n < |s| then Some(n) else None
  }

  // ---- digits --------------------------------------------------------------

  function DigitVal(c: char): (d: int)
    ensures -1 <= d < 16
  {
    if '0' <= c <= '9' then c as int - '0' as int
    else if 'a' <= c <= 'f' then c as int - 'a' as int + 10
    else if 'A' <= c <= 'F' then c as int - 'A' as int + 10
    else -1
  }

  function DigitChar(d: nat): (c: char)
    requires d < 16
    ensures DigitVal(c) == d
  {
    if d < 10 then '0' + d as char else 'a' + (d - 10) as char
  }

  predicate IsDigit(c: char, base: int) { 0 <= DigitVal(c) < base }

  predicate AllDigits(s: string, base: int) { forall i :: 0 <= i < |s| ==> IsDigit(s[i], base) }

  /** The digits s begins with. */
  function DigitRun(s: string, base: nat): (ds: string)
    ensures ds <= s && AllDigits(ds, base)
  {
    s[..Span(s, Digit(base))]
  }

  lemma DigitRunIs(ds: string, rest: string, base: nat)
    requires AllDigits(ds, base) && (rest != "" ==> !IsDigit(rest[0], base))
    ensures DigitRun(ds + rest, base) == ds && (ds + rest)[|ds|..] == rest
  {
    SpanIs(ds + rest, Digit(base), |ds|);
  }

  function Value(ds: string, base: nat): (v: nat)
    requires AllDigits(ds, base)
  {
    if ds == "" then 0
    else Value(ds[..|ds| - 1], base) * base + DigitVal(ds[|ds| - 1])
  }

  function Digits(n: nat, base: nat): (s: string)
    requires 2 <= base <= 16
    ensures s != "" && AllDigits(s, base)
  {
    if n < base then [DigitChar(n)] else Digits(n / base, base) + [DigitChar(n % base)]
  }

  lemma ValueOfSnoc(ds: string, d: nat, base: nat)
    requires AllDigits(ds, base) && d < base <= 16
    ensures AllDigits(ds + [DigitChar(d)], base)
    ensures Value(ds + [DigitChar(d)], base) == Value(ds, base) * base + d
  {
    var s := ds + [DigitChar(d)];
    assert s[..|s| - 1] == ds;
  }

  lemma DivMod(n: nat, base: nat)
    requires base > 0
    ensures n == n / base * base + n % base
  {
  }

  lemma DivSmaller(n: nat, base: nat)
    requires 2 <= base <= n
    ensures n / base < n
  {
    DivMod(n, base);
    MulMono(n / base, 2, base);
  }

  lemma {:induction false} ValueOfDigits(n: nat, base: nat)
    requires 2 <= base <= 16
    ensures Value(Digits(n, base), base) == n
  {
    if n < base {
      ValueOfSnoc("", n, base);
      assert "" + [DigitChar(n)] == Digits(n, base);
    } else {
      hide Value, DigitChar, AllDigits;
      DivMod(n, base);
      DivSmaller(n, base);
      var q, r := n / base, n % base;
      ValueOfDigits(q, base);
      ValueOfSnoc(Digits(q, base), r, base);
      assert Digits(n, base) == Digits(q, base) + [DigitChar(r)];
    }
  }

  lemma {:induction false} ValueOfPadded(k: nat, s: string, base: nat)
    requires 2 <= base <= 16 && AllDigits(s, base)
    ensures AllDigits(Zeros(k) + s, base) && Value(Zeros(k) + s, base) == Value(s, base)
  {
    var t := Zeros(k) + s;
    if s != "" {
      ValueOfPadded(k, s[..|s| - 1], base);
      assert t[..|t| - 1] == Zeros(k) + s[..|s| - 1];
    } else if k > 0 {
      ValueOfPadded(k - 1, s, base);
      assert t[..|t| - 1] == Zeros(k - 1) + s;
    }
  }

  function Zeros(k: nat): (s: string)
    ensures |s| == k && forall i :: 0 <= i < k ==> s[i] == '0'
  {
    seq(k, _ => '0')
  }

  function Pow10(k: nat): (p: int)
    ensures p >= 1
  {
    if k == 0 then 1 else 10 * Pow10(k - 1)
  }

  lemma {:induction false} DigitsLength(n: nat, base: nat, k: nat)
    requires 10 <= base <= 16 && n < Pow10(k) && k > 0
    ensures |Digits(n, base)| <= k
  {
    if n >= base {
      DivBound(n, base, Pow10(k - 1));
      DigitsLength(n / base, base, k - 1);
    }
  }

  lemma DivBound(n: nat, base: nat, m: nat)
    requires base >= 10 && n < 10 * m
    ensures n / base < m
  {
    if n / base >= m {
      assert n >= base * (n / base);
      assert base * (n / base) >= base * m by { MulMono(base, m, n / base); }
      assert base * m >= 10 * m by { MulMono(m, 10, base); }
    }
  }

  // ---- numbers -------------------------------------------------------------

  // strtol clamps to the 64-bit long range before the result is stored in an int
  function ClampLong(n: int): int {
    if n < -0x8000_0000_0000_0000 then -0x8000_0000_0000_0000
    else if n > 0x7fff_ffff_ffff_ffff then 0x7fff_ffff_ffff_ffff
    else n
  }

  datatype Signed = Signed(negative: bool, rest: string)

  // leading white space and sign, skipped by every numeric conversion
  function SkipSign(s: string): Signed {
    var t := s[Span(s, Space)..];
    if t != "" && (t[0] == '-' || t[0] == '+') then Signed(t[0] == '-', t[1..]) else Signed(false, t)
  }

  lemma SkipSignOfDigits(neg: bool, s: string)
    requires s != "" && IsDigit(s[0], 16)
    ensures SkipSign((if neg then "-" else "") + s) == Signed(neg, s)
  {
    var t := (if neg then "-" else "") + s;
    SpanIs(t, Space, 0);
    assert neg ==> t[1..] == s;
    assert !neg ==> t == s;
  }

  function Negate(neg: bool, n: int): int { if neg then -n else n }

  /** strtol(s, &endp, 10) into an int; None when no digit was consumed. */
  function ScanInt(s: string): Option<int> {
    var g := SkipSign(s);
    var ds := DigitRun(g.rest, 10);
    if ds == "" then None else Some(ToInt(ClampLong(Negate(g.negative, Value(ds, 10)))))
  }

  /** printf("%d") */
  function Dec(n: int): (s: string)
    ensures s != "" && SepFree(s)
  {
    if n < 0 then "-" + Digits(-n, 10) else Digits(n, 10)
  }

  // a printed number is clamped and cut to an int
  lemma ScanOfLong(n: int)
    ensures ScanInt(Dec(n)) == Some(ToInt(ClampLong(n)))
  {
    hide ToInt, ClampLong, Value, DigitRun, SkipSign;
    var ds := Digits(if n < 0 then -n else n, 10);
    SkipSignOfDigits(n < 0, ds);
    assert "" + ds == ds == ds + "";
    DigitRunIs(ds, "", 10);
    ValueOfDigits(if n < 0 then -n else n, 10);
  }

  lemma ScanOfDec(n: int)
    requires IsInt(n)
    ensures ScanInt(Dec(n)) == Some(n)
  {
    hide ScanInt, Dec;
    ScanOfLong(n);
  }

  lemma DecLength(n: int)
    requires IsInt(n)
    ensures |Dec(n)| <= 11
  {
    assert Pow10(10) == 10_000_000_000 by {
      assert Pow10(5) == 100_000;
    }
    DigitsLength(if n < 0 then -n else n, 10, 10);
  }

  /** A decimal fraction as mantissa and number of decimals; None when no digit was consumed. */
  function ScanDecimal(s: string): Option<(int, nat)> {
    var g := SkipSign(s);
    var ds := DigitRun(g.rest, 10);
    var t := g.rest[|ds|..];
    var frac := if t != "" && t[0] == '.' then DigitRun(t[1..], 10) else "";
    if ds + frac == "" then None
    else Some((Negate(g.negative, Value(ds + frac, 10)), |frac|))
  }

  // x / 10^k
  function Shift(x: real, k: nat): real
    decreases k
  {
    if k == 0 then x else Shift(x / 10.0, k - 1)
  }

  /** strtod on a decimal fraction. */
  function ScanReal(s: string): Option<real> {
    match ScanDecimal(s)
    case None => None
    case Some((mantissa, decimals)) => Some(Shift(mantissa as real, decimals))
  }

  // the three digits after the point
  function Milli(r: nat): (s: string)
    requires r < 1000
    ensures |s| == 3 && AllDigits(s, 10)
  {
    [DigitChar(r / 100), DigitChar(r / 10 % 10), DigitChar(r % 10)]
  }

  // x to the nearest thousandth
  function Thousandths(x: real): int { (x * 1000.0 + 0.5).Floor }

  /** printf("%.3f") of t thousandths */
  function Fixed3(t: int): (s: string)
    ensures s != "" && SepFree(s)
  {
    var a := if t < 0 then -t else t;
    (if t < 0 then "-" else "") + (Digits(a / 1000, 10) + "." + Milli(a % 1000))
  }

  lemma ThreeDigits(v: nat, r: nat)
    requires r < 1000
    ensures ((v * 10 + r / 100) * 10 + r / 10 % 10) * 10 + r % 10 == v * 1000 + r
  {
  }

  lemma ValueOfMilli(ds: string, r: nat)
    requires AllDigits(ds, 10) && r < 1000
    ensures Value(ds + Milli(r), 10) == Value(ds, 10) * 1000 + r
  {
    var a, b, c := r / 100, r / 10 % 10, r % 10;
    ValueOfSnoc(ds, a, 10);
    ValueOfSnoc(ds + [DigitChar(a)], b, 10);
    ValueOfSnoc(ds + [DigitChar(a)] + [DigitChar(b)], c, 10);
    assert ds + [DigitChar(a)] + [DigitChar(b)] + [DigitChar(c)] == ds + Milli(r);
    ThreeDigits(Value(ds, 10), r);
  }

  // integer digits, point, decimals
  lemma SplitFraction(q: string, m: string)
    requires AllDigits(q, 10) && AllDigits(m, 10)
    ensures q + "." + m == q + ("." + m)
    ensures DigitRun(q + ("." + m), 10) == q && (q + ("." + m))[|q|..] == "." + m
    ensures ("." + m)[1..] == m && DigitRun(m, 10) == m
  {
    DigitRunIs(q, "." + m, 10);
    assert m == m + "";
    DigitRunIs(m, "", 10);
  }

  lemma ScanDecimalIs(s: string, neg: bool, q: string, m: string)
    requires q != "" && AllDigits(q, 10) && AllDigits(m, 10)
    requires SkipSign(s) == Signed(neg, q + "." + m)
    ensures ScanDecimal(s) == Some((Negate(neg, Value(q + m, 10)), |m|))
  {
    SplitFraction(q, m);
  }

  lemma ShiftBy3(x: real)
    ensures Shift(x, 3) == x / 1000.0
  {
    assert Shift(x / 10.0, 2) == Shift(x / 100.0, 1) == Shift(x / 1000.0, 0);
  }

  lemma ScanDecimalOfFixed3(t: int)
    ensures ScanDecimal(Fixed3(t)) == Some((t, 3))
  {
    hide Digits, Milli, ScanDecimal, SkipSign, Value;
    var a := if t < 0 then -t else t;
    var q, m := Digits(a / 1000, 10), Milli(a % 1000);
    SkipSignOfDigits(t < 0, q + "." + m);
    ScanDecimalIs(Fixed3(t), t < 0, q, m);
    ValueOfFraction(a);
  }

  lemma ScanOfFixed3(t: int)
    ensures ScanReal(Fixed3(t)) == Some(t as real / 1000.0)
  {
    hide ScanDecimal, Fixed3, Shift;
    ScanDecimalOfFixed3(t);
    ShiftBy3(t as real);
  }

  lemma ValueOfFraction(a: nat)
    ensures Value(Digits(a / 1000, 10) + Milli(a % 1000), 10) == a
  {
    ValueOfDigits(a / 1000, 10);
    ValueOfMilli(Digits(a / 1000, 10), a % 1000);
  }

  lemma Fixed3Length(t: int)
    requires -Pow10(42) < t < Pow10(42)
    ensures |Fixed3(t)| <= 50
  {
    var a := if t < 0 then -t else t;
    DigitsLength(a / 1000, 10, 42);
  }

  // ---- "%04x:%04x" and its sscanf --------------------------------------------

  function Hex4(n: nat): (s: string)
    ensures s != "" && AllDigits(s, 16) && SepFree(s)
  {
    var h := Digits(n, 16);
    if |h| < 4 then Zeros(4 - |h|) + h else h
  }

  lemma ValueOfHex4(n: nat)
    ensures Value(Hex4(n), 16) == n
  {
    var h := Digits(n, 16);
    ValueOfDigits(n, 16);
    if |h| < 4 { ValueOfPadded(4 - |h|, h, 16); }
  }

  // a 0x in front of a hexadecimal digit is part of the number
  function SkipHexPrefix(s: string): string {
    if |s| > 2 && s[0] == '0' && (s[1] == 'x' || s[1] == 'X') && IsDigit(s[2], 16) then s[2..] else s
  }

  /** "%x": optional sign and 0x prefix, then hexadecimal digits, into an unsigned int. */
  function ScanHex(s: string): Option<(nat, string)> {
    var g := SkipSign(s);
    var t := SkipHexPrefix(g.rest);
    var ds := DigitRun(t, 16);
    if ds == "" then None else Some((ToUint(Negate(g.negative, Value(ds, 16))), t[|ds|..]))
  }

  /** sscanf(s, "%x:%x") == 2 */
  function ScanDevId(s: string): Option<(nat, nat)> {
    match ScanHex(s)
    case None => None
    case Some((v, rest)) =>
      if rest == "" || rest[0] != ':' then None
      else
        match ScanHex(rest[1..])
        case None => None
        case Some((p, _)) => Some((v, p))
  }

  // the device id as printf("%04x:%04x") shows it
  function DevIdText(vid: int, pid: int): (s: string)
    ensures s != "" && SepFree(s)
  {
    Hex4(ToUint(vid)) + ":" + Hex4(ToUint(pid))
  }

  lemma SkipHexPrefixIs(h: string, rest: string)
    requires h != "" && AllDigits(h, 16)
    requires rest != "" ==> !IsDigit(rest[0], 16) && rest[0] != 'x' && rest[0] != 'X'
    ensures SkipHexPrefix(h + rest) == h + rest
  {
    assert |h| > 1 ==> IsDigit((h + rest)[1], 16);
  }

  lemma SkipSignIs(pre: string, h: string, rest: string)
    requires pre == "" || pre == " "
    requires h != "" && AllDigits(h, 16)
    ensures SkipSign(pre + h + rest) == Signed(false, h + rest)
  {
    var s := pre + h + rest;
    assert IsDigit(s[|pre|], 16);
    SpanIs(s, Space, |pre|);
    assert s[|pre|..] == h + rest;
  }

  lemma ScanHexIs(h: string, pre: string, rest: string)
    requires pre == "" || pre == " "
    requires h != "" && AllDigits(h, 16)
    requires rest != "" ==> !IsDigit(rest[0], 16) && rest[0] != 'x' && rest[0] != 'X'
    ensures ScanHex(pre + h + rest) == Some((ToUint(Value(h, 16)), rest))
  {
    SkipSignIs(pre, h, rest);
    SkipHexPrefixIs(h, rest);
    DigitRunIs(h, rest, 16);
  }

  lemma ScanDevIdIs(s: string, v: nat, p: nat, rest: string)
    requires ScanHex(s) == Some((v, ":" + rest)) && ScanHex(rest) == Some((p, ""))
    ensures ScanDevId(s) == Some((v, p))
  {
    assert (":" + rest)[1..] == rest;
  }

  // the part before the colon, and the part after it
  lemma ScanVendor(v: string, p: string, pre: string)
    requires pre == "" || pre == " "
    requires v != "" && AllDigits(v, 16) && Value(v, 16) < UINT_LIMIT
    ensures ScanHex(pre + (v + ":" + p)) == Some((Value(v, 16), ":" + p))
  {
    assert pre + (v + ":" + p) == pre + v + (":" + p);
    ScanHexIs(v, pre, ":" + p);
  }

  lemma ScanProduct(p: string)
    requires p != "" && AllDigits(p, 16) && Value(p, 16) < UINT_LIMIT
    ensures ScanHex(p) == Some((Value(p, 16), ""))
  {
    assert p == "" + p + "";
    ScanHexIs(p, "", "");
  }

  lemma ScanOfDevId(vid: int, pid: int, pre: string)
    requires pre == "" || pre == " "
    ensures ScanDevId(pre + DevIdText(vid, pid)) == Some((ToUint(vid), ToUint(pid)))
  {
    var v, p := Hex4(ToUint(vid)), Hex4(ToUint(pid));
    ValueOfHex4(ToUint(vid));
    ValueOfHex4(ToUint(pid));
    ScanVendor(v, p, pre);
    ScanProduct(p);
    ScanDevIdIs(pre + DevIdText(vid, pid), ToUint(vid), ToUint(pid), p);
  }
}
