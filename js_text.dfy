/**
 * The few JavaScript string and number primitives the components rely on:
 * `String.prototype.trim`, `parseInt(s, 10)` and `Number.prototype.toString`
 * on integer values (ECMA-262, sections 22.1.3.32, 19.2.5 and 21.1.3.6).
 */
module JsText {
  import opened Wrappers

  /** WhiteSpace and LineTerminator code points (ECMA-262, sections 12.2 and 12.3). */
  predicate IsWhiteSpace(c: char) {
    || c == '\t' || c == '\n' || c == '\U{000B}' || c == '\U{000C}' || c == '\r'
    || c == ' ' || c == '\U{00A0}' || c == '\U{1680}'
    || ('\U{2000}' <= c <= '\U{200A}')
    || c == '\U{2028}' || c == '\U{2029}' || c == '\U{202F}' || c == '\U{205F}'
    || c == '\U{3000}' || c == '\U{FEFF}'
  }

  predicate AllWhiteSpace(s: string) {
    forall i :: 0 <= i < |s| ==> IsWhiteSpace(s[i])
  }

  /** `s` is `r` with white space added in front and at the end, `k` characters in front. */
  predicate WhiteSpaceAt(s: string, r: string, k: int) {
    0 <= k <= |s| - |r| && r == s[k..k + |r|] && AllWhiteSpace(s[..k]) && AllWhiteSpace(s[k + |r|..])
  }

  /** `s` is `r` with white space (possibly none) added in front and at the end. */
  ghost predicate IsWhiteSpacePadding(s: string, r: string) {
    exists k :: WhiteSpaceAt(s, r, k)
  }

  /** `s` neither starts nor ends with white space. */
  predicate IsTrimmed(s: string) {
    s == [] || (!IsWhiteSpace(s[0]) && !IsWhiteSpace(s[|s| - 1]))
  }

  /** Drops the white space in front of `s`. */
  function TrimStart(s: string): string
    decreases |s|
  {
    if |s| > 0 && IsWhiteSpace(s[0]) then TrimStart(s[1..]) else s
  }

  /** What `TrimStart` leaves is a suffix of `s` that does not start with white space, and all it drops is white space. */
  lemma {:induction false} TrimStartSuffix(s: string)
    ensures var r := TrimStart(s);
      && |r| <= |s| && r == s[|s| - |r|..]
      && (r == [] || !IsWhiteSpace(r[0]))
      && AllWhiteSpace(s[..|s| - |r|])
    decreases |s|
  {
    if |s| > 0 && IsWhiteSpace(s[0]) {
      TrimStartSuffix(s[1..]);
      var r := TrimStart(s);
      assert s[..|s| - |r|] == [s[0]] + s[1..][..|s| - 1 - |r|];
    }
  }

  /** Drops the white space at the end of `s`. */
  function TrimEnd(s: string): string
    decreases |s|
  {
    if |s| > 0 && IsWhiteSpace(s[|s| - 1]) then TrimEnd(s[..|s| - 1]) else s
  }

  /** What `TrimEnd` leaves is a prefix of `s` that does not end with white space, and all it drops is white space. */
  lemma {:induction false} TrimEndPrefix(s: string)
    ensures var r := TrimEnd(s);
      && |r| <= |s| && r == s[..|r|]
      && (r == [] || !IsWhiteSpace(r[|r| - 1]))
      && AllWhiteSpace(s[|r|..])
    decreases |s|
  {
    if |s| > 0 && IsWhiteSpace(s[|s| - 1]) {
      TrimEndPrefix(s[..|s| - 1]);
      var r := TrimEnd(s);
      assert s[|r|..] == s[..|s| - 1][|r|..] + [s[|s| - 1]];
    }
  }

  /**
   * `s.trim()`: the result is the slice of `s` left after removing white space
   * at both ends; it is empty exactly when `s` is all white space.
   */
  function Trim(s: string): (r: string)
    ensures IsTrimmed(r)
    ensures IsWhiteSpacePadding(s, r)
    ensures r == [] <==> AllWhiteSpace(s)
  {
    TrimParts(s);
    TrimEnd(TrimStart(s))
  }

  /** The facts behind `Trim`'s contract, for the composition of the two halves. */
  lemma TrimParts(s: string)
    ensures IsTrimmed(TrimEnd(TrimStart(s)))
    ensures IsWhiteSpacePadding(s, TrimEnd(TrimStart(s)))
    ensures TrimEnd(TrimStart(s)) == [] <==> AllWhiteSpace(s)
  {
    var t := TrimStart(s);
    var r := TrimEnd(t);
    var k := |s| - |t|;
    TrimStartSuffix(s);
    TrimEndPrefix(t);
    SliceOfTrim(s, t, r, k);
    assert WhiteSpaceAt(s, r, k);
    if r != [] { assert r[0] == t[0]; }
    EmptyIffAllWhiteSpace(s);
  }

  lemma SliceOfTrim(s: string, t: string, r: string, k: nat)
    requires t == TrimStart(s) && r == TrimEnd(t) && k == |s| - |t|
    ensures WhiteSpaceAt(s, r, k)
  {
    TrimStartSuffix(s);
    TrimEndPrefix(t);
    assert s[k..k + |r|] == t[..|r|];
    assert s[k + |r|..] == t[|r|..];
  }

  lemma EmptyIffAllWhiteSpace(s: string)
    ensures TrimEnd(TrimStart(s)) == [] <==> AllWhiteSpace(s)
  {
    var t := TrimStart(s);
    var k := |s| - |t|;
    TrimStartSuffix(s);
    TrimEndPrefix(t);
    if TrimEnd(t) == [] {
      assert t[0..] == t;
      assert t == [];
      assert s[..k] == s;
    } else {
      assert TrimEnd(t)[0] == t[0] == s[k];
    }
  }

  /** A string that is already trimmed is left as it is. */
  lemma {:induction false} TrimOfTrimmed(s: string)
    requires IsTrimmed(s)
    ensures Trim(s) == s
  {
    assert TrimStart(s) == s;
    assert TrimEnd(s) == s;
  }

  /** Trimming twice gives what trimming once gives. */
  lemma TrimIdempotent(s: string)
    ensures Trim(Trim(s)) == Trim(s)
  {
    TrimOfTrimmed(Trim(s));
  }

  predicate IsDigit(c: char) {
    '0' <= c <= '9'
  }

  predicate AllDigits(s: string) {
    forall i :: 0 <= i < |s| ==> IsDigit(s[i])
  }

  function DigitValue(c: char): (d: nat)
    requires IsDigit(c)
    ensures d < 10
  {
    (c as int) - ('0' as int)
  }

  function DigitChar(d: nat): (c: char)
    requires d < 10
    ensures IsDigit(c) && DigitValue(c) == d
  {
    ((('0' as int) + d) as char)
  }

  /** The longest prefix of `s` made of decimal digits. */
  function LeadingDigits(s: string): string
  {
    if |s| > 0 && IsDigit(s[0]) then [s[0]] + LeadingDigits(s[1..]) else []
  }

  /** `LeadingDigits` is a prefix of digits that no further digit follows. */
  lemma {:induction false} LeadingDigitsPrefix(s: string)
    ensures var r := LeadingDigits(s);
      && |r| <= |s| && r == s[..|r|] && AllDigits(r)
      && (|r| == |s| || !IsDigit(s[|r|]))
  {
    if |s| > 0 && IsDigit(s[0]) {
      LeadingDigitsPrefix(s[1..]);
    }
  }

  /** The number a string of decimal digits denotes, most significant digit first. */
  function DecimalValue(ds: string): nat
    requires AllDigits(ds)
  {
    if ds == [] then 0 else DecimalValue(ds[..|ds| - 1]) * 10 + DigitValue(ds[|ds| - 1])
  }

  /**
   * `parseInt(s, 10)`: leading white space is skipped, one optional sign is
   * read, then the longest run of decimal digits; `None` stands for `NaN`,
   * which is what an empty run gives.
   */
  function ParseInt(s: string): Option<int>
  {
    var t := TrimStart(s);
    var ds := LeadingDigits(UnsignedPart(t));
    LeadingDigitsPrefix(UnsignedPart(t));
    if ds == [] then None
    else if |t| > 0 && t[0] == '-' then Some(-(DecimalValue(ds) as int))
    else Some(DecimalValue(ds) as int)
  }

  /** `t` without its sign character: one leading `+` or `-` is always dropped, and nothing else. */
  function UnsignedPart(t: string): (r: string)
    ensures |t| > 0 && (t[0] == '-' || t[0] == '+') ==> r == t[1..]
    ensures !(|t| > 0 && (t[0] == '-' || t[0] == '+')) ==> r == t
  {
    if |t| > 0 && (t[0] == '-' || t[0] == '+') then t[1..] else t
  }

  /** Decimal digits of `n` without leading zeros. */
  function NatToString(n: nat): (r: string)
    ensures |r| > 0 && AllDigits(r)
    ensures |r| > 1 ==> r[0] != '0'
  {
    if n < 10 then [DigitChar(n)] else NatToString(n / 10) + [DigitChar(n % 10)]
  }

  /** `n.toString()` for an integer value: an optional minus sign, then the digits. */
  function IntToString(n: int): (r: string)
    ensures |r| > 0
    ensures forall i :: 0 <= i < |r| ==> IsDigit(r[i]) || r[i] == '-'
  {
    if n < 0 then "-" + NatToString(-n) else NatToString(n)
  }

  lemma {:induction false} DecimalValueOfNatToString(n: nat)
    ensures DecimalValue(NatToString(n)) == n
  {
    var r := NatToString(n);
    if n >= 10 {
      DecimalValueOfNatToString(n / 10);
      assert r[..|r| - 1] == NatToString(n / 10);
    }
  }

  /** `parseInt` gives `NaN` exactly when no digit follows the leading white space and the optional sign. */
  lemma ParseIntNaN(s: string)
    ensures var u := UnsignedPart(TrimStart(s));
      ParseInt(s).None? <==> (u == [] || !IsDigit(u[0]))
  {
  }

  /** `parseInt` skips any white space in front of the number. */
  lemma ParseIntSkipsWhiteSpace(w: string, s: string)
    requires AllWhiteSpace(w)
    ensures ParseInt(w + s) == ParseInt(s)
  {
    TrimStartOfWhiteSpace(w, s);
  }

  lemma {:induction false} TrimStartOfWhiteSpace(w: string, s: string)
    requires AllWhiteSpace(w)
    ensures TrimStart(w + s) == TrimStart(s)
    decreases |w|
  {
    if w != [] {
      assert (w + s)[0] == w[0];
      assert (w + s)[1..] == w[1..] + s;
      TrimStartOfWhiteSpace(w[1..], s);
    } else {
      assert w + s == s;
    }
  }

  /** A run of digits followed by a non-digit is read up to that non-digit. */
  lemma {:induction false} LeadingDigitsOfDigits(ds: string, rest: string)
    requires AllDigits(ds)
    requires rest == [] || !IsDigit(rest[0])
    ensures LeadingDigits(ds + rest) == ds
  {
    if ds == [] {
      assert ds + rest == rest;
    } else {
      assert (ds + rest)[0] == ds[0];
      assert (ds + rest)[1..] == ds[1..] + rest;
      LeadingDigitsOfDigits(ds[1..], rest);
      assert [ds[0]] + ds[1..] == ds;
    }
  }

  /**
   * Reading back what `toString` wrote gives the number that was written, and
   * whatever follows the number stops the reading if it does not start with a digit.
   */
  lemma ParseIntOfNumberText(n: int, rest: string)
    requires rest == [] || !IsDigit(rest[0])
    ensures ParseInt(IntToString(n) + rest) == Some(n)
  {
    var s := IntToString(n) + rest;
    var m: nat := if n < 0 then -n else n;
    var ds := NatToString(m);
    assert s[0] == IntToString(n)[0];
    assert TrimStart(s) == s;
    if n < 0 {
      assert s[1..] == ds + rest;
    }
    assert UnsignedPart(s) == ds + rest;
    LeadingDigitsOfDigits(ds, rest);
    DecimalValueOfNatToString(m);
  }

  /** Reading back what `toString` wrote gives the number that was written. */
  lemma ParseIntOfIntToString(n: int)
    ensures ParseInt(IntToString(n)) == Some(n)
  {
    ParseIntOfNumberText(n, []);
    assert IntToString(n) + [] == IntToString(n);
  }

  /** `toString` is injective on integers. */
  lemma IntToStringInjective(a: int, b: int)
    ensures IntToString(a) == IntToString(b) <==> a == b
  {
    ParseIntOfIntToString(a);
    ParseIntOfIntToString(b);
  }
}
