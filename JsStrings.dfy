/** The few JavaScript string operations the client relies on, over Dafny
    strings. JavaScript strings are sequences of UTF-16 code units; here a
    character is a Unicode scalar value, which agrees with them on every
    character of the Basic Multilingual Plane except the surrogates: a
    supplementary character is two code units there, and an unpaired
    surrogate code unit has no `char` here. */
module JsStrings {

  /** The WhiteSpace and LineTerminator code points of ECMA-262 (sections 12.2
      and 12.3): what the RegExp class `\s` matches and what `parseInt` skips
      before the number. */
  predicate IsWhiteSpace(c: char) {
    c == '\t' || c == '\n' || c == '\U{B}' || c == '\U{C}' || c == '\r' || c == ' '
    || c == '\U{A0}' || c == '\U{1680}' || ('\U{2000}' <= c <= '\U{200A}')
    || c == '\U{2028}' || c == '\U{2029}' || c == '\U{202F}' || c == '\U{205F}'
    || c == '\U{3000}' || c == '\U{FEFF}'
  }

  /** Where the run of white space starting at `i` ends: how far a greedy
      `\s*` reaches, and where `parseInt` starts reading. */
  function SkipWhiteSpace(s: string, i: nat): (j: nat)
    requires i <= |s|
    ensures i <= j <= |s|
    ensures forall k :: i <= k < j ==> IsWhiteSpace(s[k])
    ensures j < |s| ==> !IsWhiteSpace(s[j])
    decreases |s| - i
  {
    if i < |s| && IsWhiteSpace(s[i]) then SkipWhiteSpace(s, i + 1) else i
  }

  /** `pat` occurs in `s` starting at index `i`. */
  predicate StartsAt(s: string, i: nat, pat: string) {
    i + |pat| <= |s| && s[i..i + |pat|] == pat
  }

  /** `String.prototype.startsWith` */
  predicate StartsWith(s: string, prefix: string) {
    StartsAt(s, 0, prefix)
  }

  /** `s` ends with `suffix`. */
  predicate EndsWith(s: string, suffix: string) {
    |suffix| <= |s| && s[|s| - |suffix|..] == suffix
  }

  /** `String.prototype.includes`: `sub` occurs somewhere in `s`. */
  function Includes(s: string, sub: string): (r: bool)
    ensures r <==> exists i :: 0 <= i <= |s| && StartsAt(s, i, sub)
  {
    if StartsAt(s, 0, sub) then true
    else if s == [] then false
    else
      var rest := Includes(s[1..], sub);
      assert forall i :: 1 <= i <= |s| ==> (StartsAt(s[1..], i - 1, sub) <==> StartsAt(s, i, sub)) by {
        forall i | 1 <= i <= |s| ensures StartsAt(s[1..], i - 1, sub) <==> StartsAt(s, i, sub) {
          if i + |sub| <= |s| {
            assert s[1..][i - 1..i - 1 + |sub|] == s[i..i + |sub|];
          }
        }
      }
      if rest then
        var j :| 0 <= j <= |s[1..]| && StartsAt(s[1..], j, sub);
        assert StartsAt(s, j + 1, sub);
        true
      else
        false
  }

  /** A string that lacks one of the characters of `sub` cannot include it. */
  lemma MissingCharNotIncluded(s: string, sub: string, c: char)
    requires c in sub && c !in s
    ensures !Includes(s, sub)
  {
  }

  /** ASCII case folding of one character: the part of `toLowerCase` this
      model keeps. */
  function LowerChar(c: char): (r: char)
    ensures !('A' <= r <= 'Z')
    ensures !('A' <= c <= 'Z') ==> r == c
    ensures 'A' <= c <= 'Z' ==> r as int == c as int + 32
  {
    if 'A' <= c <= 'Z' then (c as int - 'A' as int + 'a' as int) as char else c
  }

  /** `String.prototype.toLowerCase`, on ASCII letters. */
  function Lower(s: string): (r: string)
    ensures |r| == |s|
    ensures forall i :: 0 <= i < |r| ==> !('A' <= r[i] <= 'Z')
    ensures forall i :: 0 <= i < |s| ==> r[i] == LowerChar(s[i])
  {
    seq(|s|, i requires 0 <= i < |s| => LowerChar(s[i]))
  }

  /** Lowering twice is lowering once. */
  lemma LowerIdempotent(s: string)
    ensures Lower(Lower(s)) == Lower(s)
  {
    var once := Lower(s);
    assert forall i :: 0 <= i < |once| ==> Lower(once)[i] == once[i];
  }
}
