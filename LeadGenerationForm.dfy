/** The search form (components/LeadGenerationForm.tsx): the only logic in it
    is how the "Number of Leads" input becomes a count,
    `Math.max(1, parseInt(value, 10) || 1)`. `parseInt` with radix 10 follows
    section 19.2.5 of ECMA-262. */
module LeadGenerationForm {
  import opened Outcomes
  import opened JsStrings

  predicate IsDigit(c: char) {
    '0' <= c <= '9'
  }

  predicate AllDigits(s: string) {
    forall i :: 0 <= i < |s| ==> IsDigit(s[i])
  }

  /** A sign `parseInt` accepts in front of the digits, or none. */
  predicate IsSign(sign: string) {
    sign == "" || sign == "+" || sign == "-"
  }

  /** The number a string of decimal digits denotes, most significant first. */
  function DecimalValue(digits: string): nat
    requires AllDigits(digits)
    decreases |digits|
  {
    if digits == [] then 0
    else DecimalValue(digits[..|digits| - 1]) * 10 + (digits[|digits| - 1] as int - '0' as int)
  }

  /** The longest run of decimal digits at the start of `s`. */
  function DigitPrefix(s: string): (r: string)
    ensures |r| <= |s| && r == s[..|r|]
    ensures AllDigits(r)
    ensures |r| < |s| ==> !IsDigit(s[|r|])
  {
    if s != [] && IsDigit(s[0]) then [s[0]] + DigitPrefix(s[1..]) else []
  }

  /** `parseInt(s, 10)`: skip leading white space, take an optional sign, then
      read the longest run of decimal digits; `None` is NaN. A negative zero
      is 0 here: both are falsy and `Math.max(1, _)` treats them alike. */
  function ParseInt(s: string): Option<int> {
    ParseSigned(s[SkipWhiteSpace(s, 0)..])
  }

  /** `parseInt` once the white space is skipped. */
  function ParseSigned(t: string): Option<int> {
    var digits := DigitPrefix(Unsigned(t));
    if digits == [] then None
    else
      var magnitude: int := DecimalValue(digits);
      Some(if StartsNegative(t) then -magnitude else magnitude)
  }

  predicate StartsNegative(t: string) {
    t != [] && t[0] == '-'
  }

  /** `t` without its sign, if it has one. */
  function Unsigned(t: string): string {
    if t != [] && (t[0] == '-' || t[0] == '+') then t[1..] else t
  }

  /** The digits at the front of `digits + rest`, when `rest` does not start
      with a digit, are exactly `digits`. */
  lemma {:induction false} DigitPrefixOf(digits: string, rest: string)
    requires AllDigits(digits)
    requires rest == [] || !IsDigit(rest[0])
    ensures DigitPrefix(digits + rest) == digits
  {
    if digits != [] {
      assert (digits + rest)[1..] == digits[1..] + rest;
      DigitPrefixOf(digits[1..], rest);
    }
  }

  /** The white space `parseInt` skips is exactly the run in front. */
  lemma SkipsLeadingWhiteSpace(ws: string, tail: string)
    requires forall i :: 0 <= i < |ws| ==> IsWhiteSpace(ws[i])
    requires tail == [] || !IsWhiteSpace(tail[0])
    ensures SkipWhiteSpace(ws + tail, 0) == |ws|
  {
    var s := ws + tail;
    assert forall k :: 0 <= k < |ws| ==> s[k] == ws[k];
    if tail != [] {
      assert s[|ws|] == tail[0];
    }
    SkipsTo(s, |ws|, 0);
  }

  /** `SkipWhiteSpace` from `i` stops at `n` when only white space lies
      between them and none is at `n`. */
  lemma {:induction false} SkipsTo(s: string, n: nat, i: nat)
    requires i <= n <= |s|
    requires forall k :: i <= k < n ==> IsWhiteSpace(s[k])
    requires n < |s| ==> !IsWhiteSpace(s[n])
    ensures SkipWhiteSpace(s, i) == n
    decreases n - i
  {
    if i < n {
      SkipsTo(s, n, i + 1);
    }
  }

  /** The sign `parseInt` reads in front of digits and a tail, and what it
      leaves after it. */
  lemma SignOf(sign: string, digits: string, rest: string)
    requires IsSign(sign)
    requires AllDigits(digits)
    requires sign == "" && digits == [] && rest != [] ==> rest[0] != '+' && rest[0] != '-'
    ensures Unsigned(sign + digits + rest) == digits + rest
    ensures StartsNegative(sign + digits + rest) <==> sign == "-"
  {
    var t := sign + digits + rest;
    if sign != "" {
      assert t[0] == sign[0];
      assert t[1..] == digits + rest;
    } else {
      assert t == digits + rest;
      if digits != [] {
        assert t[0] == digits[0];
      }
    }
  }

  /** What `parseInt` makes of a sign, digits and a tail that does not
      continue the digits, once the white space is skipped. */
  lemma ParseSignedOf(sign: string, digits: string, rest: string)
    requires IsSign(sign)
    requires AllDigits(digits)
    requires rest == [] || !IsDigit(rest[0])
    requires sign == "" && digits == [] && rest != [] ==> rest[0] != '+' && rest[0] != '-'
    ensures ParseSigned(sign + digits + rest)
         == if digits == [] then None
            else Some(if sign == "-" then -(DecimalValue(digits) as int) else DecimalValue(digits))
  {
    SignOf(sign, digits, rest);
    DigitPrefixOf(digits, rest);
  }

  /** What `parseInt` makes of white space, a sign, digits and a tail that
      does not continue the digits: NaN without digits, otherwise the signed
      value of the digits, whatever follows them. */
  lemma ParseIntOf(ws: string, sign: string, digits: string, rest: string)
    requires forall i :: 0 <= i < |ws| ==> IsWhiteSpace(ws[i])
    requires IsSign(sign)
    requires AllDigits(digits)
    requires rest == [] || !IsDigit(rest[0])
    requires sign == "" && digits == [] && rest != [] ==>
      !IsWhiteSpace(rest[0]) && rest[0] != '+' && rest[0] != '-'
    ensures ParseInt(ws + sign + digits + rest)
         == if digits == [] then None
            else Some(if sign == "-" then -(DecimalValue(digits) as int) else DecimalValue(digits))
  {
    var tail := sign + digits + rest;
    assert ws + sign + digits + rest == ws + tail;
    SkipsLeadingWhiteSpace(ws, tail);
    assert (ws + tail)[|ws|..] == tail;
    ParseSignedOf(sign, digits, rest);
  }

  /** `Math.max(1, parseInt(value, 10) || 1)`: NaN and 0 are falsy and give
      1, and anything below 1 is raised to 1. */
  function Clamp(value: string): (r: int)
    ensures r >= 1
    ensures ParseInt(value).Some? && ParseInt(value).value >= 1 ==> r == ParseInt(value).value
    ensures ParseInt(value).None? || ParseInt(value).value < 1 ==> r == 1
  {
    var parsed := ParseInt(value);
    var orOne := if parsed.None? || parsed.value == 0 then 1 else parsed.value;
    if orOne > 1 then orOne else 1
  }

  /** An input without leading digits (after white space and a sign) gives 1. */
  lemma NotANumberGivesOne(ws: string, sign: string, rest: string)
    requires forall i :: 0 <= i < |ws| ==> IsWhiteSpace(ws[i])
    requires IsSign(sign)
    requires rest == [] || !IsDigit(rest[0])
    requires sign == "" && rest != [] ==> !IsWhiteSpace(rest[0]) && rest[0] != '+' && rest[0] != '-'
    ensures Clamp(ws + sign + rest) == 1
  {
    ParseIntOf(ws, sign, [], rest);
    assert ws + sign + [] + rest == ws + sign + rest;
  }

  /** Digits denoting zero give 1, since 0 is falsy. */
  lemma ZeroGivesOne(ws: string, sign: string, digits: string, rest: string)
    requires forall i :: 0 <= i < |ws| ==> IsWhiteSpace(ws[i])
    requires IsSign(sign)
    requires digits != [] && AllDigits(digits) && DecimalValue(digits) == 0
    requires rest == [] || !IsDigit(rest[0])
    ensures Clamp(ws + sign + digits + rest) == 1
  {
    ParseIntOf(ws, sign, digits, rest);
  }

  /** A negative number gives 1. */
  lemma NegativeGivesOne(ws: string, digits: string, rest: string)
    requires forall i :: 0 <= i < |ws| ==> IsWhiteSpace(ws[i])
    requires digits != [] && AllDigits(digits)
    requires rest == [] || !IsDigit(rest[0])
    ensures Clamp(ws + "-" + digits + rest) == 1
  {
    ParseIntOf(ws, "-", digits, rest);
  }

  /** Leading digits denoting n >= 1 give n; what follows them is ignored. */
  lemma DigitsGiveTheirValue(ws: string, sign: string, digits: string, rest: string)
    requires forall i :: 0 <= i < |ws| ==> IsWhiteSpace(ws[i])
    requires sign == "" || sign == "+"
    requires AllDigits(digits) && DecimalValue(digits) >= 1
    requires rest == [] || !IsDigit(rest[0])
    ensures Clamp(ws + sign + digits + rest) == DecimalValue(digits)
  {
    ParseIntOf(ws, sign, digits, rest);
  }

  /** "12abc" gives 12. */
  lemma TrailingTextIgnored()
    ensures Clamp("12abc") == 12
  {
    assert "12abc" == "" + "" + "12" + "abc";
    assert DecimalValue("12") == 12 by {
      assert "12"[..1] == "1";
      assert "1"[..0] == "";
    }
    DigitsGiveTheirValue("", "", "12", "abc");
  }

  /** The decimal rendering of a natural number, as the input shows a count. */
  function DecimalString(n: nat): (r: string)
    ensures r != [] && AllDigits(r)
    ensures DecimalValue(r) == n
  {
    var last := ('0' as int + n % 10) as char;
    if n < 10 then
      assert [last][..0] == [];
      [last]
    else
      var r := DecimalString(n / 10) + [last];
      assert r[..|r| - 1] == DecimalString(n / 10);
      r
  }

  /** Re-entering the count the input shows gives the same count. */
  lemma ClampRoundTrip(value: string)
    ensures Clamp(DecimalString(Clamp(value))) == Clamp(value)
  {
    var d := DecimalString(Clamp(value));
    assert d == "" + "" + d + "";
    DigitsGiveTheirValue("", "", d, "");
  }
}
