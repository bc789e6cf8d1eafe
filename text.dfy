/** Character and string primitives: the whitespace sets of JavaScript's
    `String.prototype.trim` and Python's `str.strip`, ASCII case mapping,
    substring search (`includes`) and the decimal rendering of integers
    used by template strings. */
module Text {
  import opened Seqs

  /** JavaScript WhiteSpace and LineTerminator code points (what `trim` removes). */
  predicate JsIsSpace(c: char) {
    ('\t' <= c <= '\r') || c == ' ' || c == '\U{00A0}' || c == '\U{1680}'
    || ('\U{2000}' <= c <= '\U{200A}') || c == '\U{2028}' || c == '\U{2029}'
    || c == '\U{202F}' || c == '\U{205F}' || c == '\U{3000}' || c == '\U{FEFF}'
  }

  /** Python `str.isspace` code points (what `str.strip()` removes). */
  predicate PyIsSpace(c: char) {
    ('\t' <= c <= '\r') || ('\U{001C}' <= c <= '\U{001F}') || c == ' '
    || c == '\U{0085}' || c == '\U{00A0}' || c == '\U{1680}'
    || ('\U{2000}' <= c <= '\U{200A}') || c == '\U{2028}' || c == '\U{2029}'
    || c == '\U{202F}' || c == '\U{205F}' || c == '\U{3000}'
  }

  /** Drops the leading characters that satisfy `ws`. */
  function TrimStart(s: string, ws: char -> bool): (r: string)
    ensures |r| <= |s| && r == s[|s| - |r|..]
    ensures r != [] ==> !ws(r[0])
    ensures forall i :: 0 <= i < |s| - |r| ==> ws(s[i])
  {
    if s != [] && ws(s[0]) then TrimStart(s[1..], ws) else s
  }

  /** Drops the trailing characters that satisfy `ws`. */
  function TrimEnd(s: string, ws: char -> bool): (r: string)
    ensures |r| <= |s| && r == s[..|r|]
    ensures r != [] ==> !ws(r[|r| - 1])
    ensures forall i :: |r| <= i < |s| ==> ws(s[i])
  {
    if s != [] && ws(s[|s| - 1]) then TrimEnd(s[..|s| - 1], ws) else s
  }

  /** Both ends trimmed: `trim()` with `JsIsSpace`, `strip()` with `PyIsSpace`. */
  function Trim(s: string, ws: char -> bool): string {
    TrimEnd(TrimStart(s, ws), ws)
  }

  /** The trimmed string is the slice of `s` between a whitespace-only prefix
      and a whitespace-only suffix, and it neither starts nor ends with whitespace. */
  lemma TrimIsCore(s: string, ws: char -> bool)
    ensures var r := Trim(s, ws);
      exists i, j :: 0 <= i <= j <= |s| && r == s[i..j]
        && (forall k :: 0 <= k < i ==> ws(s[k]))
        && (forall k :: j <= k < |s| ==> ws(s[k]))
    ensures Trim(s, ws) != [] ==> !ws(Trim(s, ws)[0]) && !ws(Trim(s, ws)[|Trim(s, ws)| - 1])
  {
    var t := TrimStart(s, ws);
    var r := TrimEnd(t, ws);
    var i := |s| - |t|;
    var j := i + |r|;
    assert r == s[i..j] by {
      assert t == s[i..];
      assert r == t[..|r|];
    }
    assert forall k :: j <= k < |s| ==> ws(s[k]) by {
      forall k | j <= k < |s| ensures ws(s[k]) {
        assert s[k] == t[k - i];
      }
    }
    assert forall k :: 0 <= k < i ==> ws(s[k]);
    TrimEnds(s, ws);
  }

  /** The trimmed string neither starts nor ends with whitespace. */
  lemma TrimEnds(s: string, ws: char -> bool)
    ensures Trim(s, ws) != [] ==> !ws(Trim(s, ws)[0]) && !ws(Trim(s, ws)[|Trim(s, ws)| - 1])
  {
    var t := TrimStart(s, ws);
    var r := TrimEnd(t, ws);
    if r != [] {
      assert r[0] == t[0];
    }
  }

  /** Trimming twice is trimming once. */
  lemma TrimIdempotent(s: string, ws: char -> bool)
    ensures Trim(Trim(s, ws), ws) == Trim(s, ws)
  {
    TrimIsCore(s, ws);
  }

  /** Every character of the trimmed string occurs in `s`. */
  lemma TrimChars(s: string, ws: char -> bool)
    ensures forall c :: c in Trim(s, ws) ==> c in s
  {
    TrimIsCore(s, ws);
  }

  /** A string made only of whitespace trims to the empty string. */
  lemma {:induction false} TrimAllSpace(s: string, ws: char -> bool)
    requires forall k :: 0 <= k < |s| ==> ws(s[k])
    ensures Trim(s, ws) == ""
  {
    if s != [] {
      TrimAllSpace(s[1..], ws);
    }
  }

  predicate IsAsciiUpper(c: char) { 'A' <= c <= 'Z' }
  predicate IsAsciiLower(c: char) { 'a' <= c <= 'z' }

  /** `toLowerCase` on one character: ASCII letters only. */
  function LowerChar(c: char): char {
    if IsAsciiUpper(c) then (c as int + 32) as char else c
  }

  /** `toUpperCase` on one character: ASCII letters only. */
  function UpperChar(c: char): char {
    if IsAsciiLower(c) then (c as int - 32) as char else c
  }

  function Lower(s: string): (r: string)
    ensures |r| == |s|
    ensures forall i :: 0 <= i < |s| ==> r[i] == LowerChar(s[i])
  {
    seq(|s|, i requires 0 <= i < |s| => LowerChar(s[i]))
  }

  /** Lower-casing leaves no ASCII capital and is idempotent. */
  lemma LowerProperties(s: string)
    ensures forall c :: c in Lower(s) ==> !IsAsciiUpper(c)
    ensures Lower(Lower(s)) == Lower(s)
  {
  }

  lemma LowerAppend(a: string, b: string)
    ensures Lower(a + b) == Lower(a) + Lower(b)
  {
  }

  /** `sub` occurs in `s` starting at index `i`. */
  predicate OccursAt(s: string, sub: string, i: nat) {
    i + |sub| <= |s| && s[i..i + |sub|] == sub
  }

  /** `s.includes(sub)`: true exactly when `sub` occurs somewhere in `s`. */
  function Contains(s: string, sub: string): (b: bool)
    ensures b <==> exists i: nat :: OccursAt(s, sub, i)
    decreases |s|
  {
    if |sub| > |s| then false
    else if s[..|sub|] == sub then (assert OccursAt(s, sub, 0); true)
    else (ShiftOccurs(s, sub); Contains(s[1..], sub))
  }

  lemma ShiftOccurs(s: string, sub: string)
    requires |sub| <= |s| && s[..|sub|] != sub
    ensures (exists i: nat :: OccursAt(s, sub, i)) <==> (exists i: nat :: OccursAt(s[1..], sub, i))
  {
    if exists i: nat :: OccursAt(s, sub, i) {
      var i: nat :| OccursAt(s, sub, i);
      assert i != 0;
      assert s[1..][i - 1..i - 1 + |sub|] == s[i..i + |sub|];
      assert OccursAt(s[1..], sub, i - 1);
    }
    if exists i: nat :: OccursAt(s[1..], sub, i) {
      var i: nat :| OccursAt(s[1..], sub, i);
      assert s[1..][i..i + |sub|] == s[i + 1..i + 1 + |sub|];
      assert OccursAt(s, sub, i + 1);
    }
  }

  /** Every string contains the empty string, and itself. */
  lemma ContainsTrivial(s: string)
    ensures Contains(s, "") && Contains(s, s)
  {
    assert OccursAt(s, "", 0);
    assert OccursAt(s, s, 0);
  }

  function DigitChar(d: nat): (c: char)
    requires d < 10
  {
    ['0', '1', '2', '3', '4', '5', '6', '7', '8', '9'][d]
  }

  predicate IsDigit(c: char) { '0' <= c <= '9' }

  function DigitValue(c: char): (d: nat)
    requires IsDigit(c)
    ensures d < 10
  {
    c as int - '0' as int
  }

  /** Decimal digits of `n`, most significant first, without leading zeros. */
  function NatToString(n: nat): (r: string)
    ensures r != []
    ensures forall c :: c in r ==> IsDigit(c)
    decreases n
  {
    if n < 10 then [DigitChar(n)] else NatToString(n / 10) + [DigitChar(n % 10)]
  }

  /** JavaScript's `String(n)` for an integer `n` below 10^21 in magnitude,
      the range in which it prints plain decimal digits. */
  function IntToString(n: int): (r: string)
  {
    if n < 0 then "-" + NatToString(-n) else NatToString(n)
  }

  /** The value of a string of decimal digits. */
  function DigitsValue(s: string): nat
    requires forall c :: c in s ==> IsDigit(c)
  {
    if s == [] then 0 else DigitsValue(s[..|s| - 1]) * 10 + DigitValue(s[|s| - 1])
  }

  /** Reads back an integer written by `IntToString`; `None` for anything else
      that is not an optional minus sign followed by digits. */
  function ParseInt(s: string): Option<int> {
    if s != [] && s[0] == '-' && |s| > 1 && (forall c :: c in s[1..] ==> IsDigit(c))
    then Some(0 - DigitsValue(s[1..]) as int)
    else if s != [] && forall c :: c in s ==> IsDigit(c) then Some(DigitsValue(s))
    else None
  }

  lemma {:induction false} DigitsOfNat(n: nat)
    ensures DigitsValue(NatToString(n)) == n
    decreases n
  {
    if n >= 10 {
      DigitsOfNat(n / 10);
      var r := NatToString(n);
      assert r[..|r| - 1] == NatToString(n / 10);
    }
  }

  lemma ParseDigits(s: string)
    requires s != [] && forall c :: c in s ==> IsDigit(c)
    ensures ParseInt(s) == Some(DigitsValue(s))
  {
    assert s[0] in s;
  }

  lemma ParseNegative(s: string)
    requires s != [] && forall c :: c in s ==> IsDigit(c)
    ensures ParseInt("-" + s) == Some(0 - DigitsValue(s) as int)
  {
    assert ("-" + s)[1..] == s;
  }

  /** Printing an integer and parsing it back gives the integer. */
  lemma IntRoundTrip(n: int)
    ensures ParseInt(IntToString(n)) == Some(n)
  {
    if n < 0 {
      var s := NatToString(-n);
      assert IntToString(n) == "-" + s;
      DigitsOfNat(-n);
      ParseNegative(s);
    } else {
      var s := NatToString(n);
      assert IntToString(n) == s;
      DigitsOfNat(n);
      ParseDigits(s);
    }
  }
}
