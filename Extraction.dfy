/** `extractJsonFromString` (services/geminiService.ts) and the whole-text
    fallback around it: how the client finds and parses the JSON array in the
    model's free-text answer.

    The search uses one regular expression with two alternatives (ECMA-262
    section 22.2):
      1. a fenced block: the tag "```json", white space, a lazily matched body,
         white space, and a closing "```";
      2. a bracket span: a "[", then a greedy run of any characters, then "]".
    `String.prototype.match` without the `g` flag returns the match that starts
    leftmost; at one position the first alternative is tried first, though the
    two can never both start at the same index (one needs "`", the other "[").

    Working the backtracking order through gives the characterisation used
    below. The fenced alternative matches at `p` exactly when "```json" starts
    at `p` and a "```" starts anywhere after it; its capture runs from the end
    of the white space that follows the tag to the FIRST closing fence after
    it, with the white space before that fence dropped. The bracket
    alternative matches at `p` exactly when `p` holds a "[" and the text has a
    "]" after it; its capture runs from that "[" to the LAST "]" of the text. */
module Extraction {
  import opened Outcomes
  import opened JsStrings
  import opened Json

  const FenceOpen: string := "```json"
  const Fence: string := "```"

  const NoJsonArrayMessage: string := "Could not find a valid JSON " + "array in the AI's response."
  const NotValidJsonMessage: string := "The AI returned a response, " + "but it was not valid JSON."
  const InvalidFormatMessage: string := "The AI returned an invalid " + "response format. Please try again."

  /** What `JSON.parse(undefined)` parses: ECMA-262 section 25.5.1 converts its
      argument with ToString first, and ToString(undefined) is this text,
      which is not a JSON text under RFC 8259. */
  const UndefinedText: string := "undefined"

  /** The alternative that found the JSON, with where it starts in the text
      and what its capture group holds. */
  datatype RegexMatch =
    | FencedBlock(index: nat, body: string)
    | BracketSpan(index: nat, span: string)

  /** The fenced alternative can match starting at `p`. */
  ghost predicate FenceAlternativeAt(s: string, p: nat) {
    StartsAt(s, p, FenceOpen) && exists t :: p + |FenceOpen| <= t && StartsAt(s, t, Fence)
  }

  /** The bracket alternative can match starting at `p`. */
  ghost predicate BracketAlternativeAt(s: string, p: nat) {
    p < |s| && s[p] == '[' && exists j :: p < j < |s| && s[j] == ']'
  }

  /** The pattern matches starting at `p`. */
  ghost predicate MatchesAt(s: string, p: nat) {
    FenceAlternativeAt(s, p) || BracketAlternativeAt(s, p)
  }

  /** For a fenced block opened at `p`: `s[a..b]` is the captured body and the
      closing fence starts at `t`. The white space after the tag is all
      skipped, the body neither starts nor ends with white space, only white
      space lies between body and fence, and no fence starts earlier. */
  ghost predicate FencedBodyAt(s: string, p: nat, a: nat, b: nat, t: nat) {
    && p + |FenceOpen| <= a <= b <= t
    && StartsAt(s, t, Fence)
    && (forall k :: p + |FenceOpen| <= k < a ==> IsWhiteSpace(s[k]))
    && !IsWhiteSpace(s[a])
    && (forall k :: b <= k < t ==> IsWhiteSpace(s[k]))
    && (a < b ==> !IsWhiteSpace(s[b - 1]))
    && (forall k :: p + |FenceOpen| <= k < t ==> !StartsAt(s, k, Fence))
  }

  /** What a match found at its index means. */
  ghost predicate Describes(s: string, m: RegexMatch) {
    match m
    case FencedBlock(p, body) =>
      && FenceAlternativeAt(s, p)
      && exists a: nat, b: nat, t: nat :: FencedBodyAt(s, p, a, b, t) && body == s[a..b]
    case BracketSpan(p, span) =>
      && BracketAlternativeAt(s, p)
      && p + |span| <= |s| && s[p..p + |span|] == span
      && |span| >= 2 && span[0] == '[' && span[|span| - 1] == ']'
      && forall k :: p + |span| <= k < |s| ==> s[k] != ']'
  }

  /** The first index at or after `i` where a closing fence starts. */
  function FirstFence(s: string, i: nat): (t: Option<nat>)
    ensures t.Some? ==> i <= t.value && StartsAt(s, t.value, Fence)
    ensures forall k :: i <= k && (t.None? || k < t.value) ==> !StartsAt(s, k, Fence)
    decreases |s| - i
  {
    if i + |Fence| > |s| then None
    else if StartsAt(s, i, Fence) then Some(i)
    else FirstFence(s, i + 1)
  }

  /** `hi` moved back over the white space just before it, but not below `lo`:
      where the lazy body stops when the closing `\s*` takes that white space. */
  function TrimEnd(s: string, lo: nat, hi: nat): (r: nat)
    requires lo <= hi <= |s|
    ensures lo <= r <= hi
    ensures forall k :: r <= k < hi ==> IsWhiteSpace(s[k])
    ensures lo < r ==> !IsWhiteSpace(s[r - 1])
    decreases hi
  {
    if lo < hi && IsWhiteSpace(s[hi - 1]) then TrimEnd(s, lo, hi - 1) else hi
  }

  /** The index of the last `c` in `s`. */
  function LastIndexOf(s: string, c: char): (j: Option<nat>)
    ensures j.Some? ==> j.value < |s| && s[j.value] == c
    ensures forall k :: 0 <= k < |s| && (j.None? || j.value < k) ==> s[k] != c
    decreases |s|
  {
    if s == [] then None
    else if s[|s| - 1] == c then Some(|s| - 1)
    else LastIndexOf(s[..|s| - 1], c)
  }

  /** No fence starts at a character other than "`", white space included. */
  lemma NoFenceAt(s: string, k: nat)
    requires k < |s| && s[k] != '`'
    ensures !StartsAt(s, k, Fence)
  {
  }

  /** The match of the pattern that starts exactly at `p`, if any. */
  function MatchAt(s: string, p: nat): (m: Option<RegexMatch>)
    requires p < |s|
    ensures m.Some? <==> MatchesAt(s, p)
    ensures m.Some? ==> m.value.index == p && Describes(s, m.value)
  {
    if StartsAt(s, p, FenceOpen) then
      assert s[p] == s[p..p + |FenceOpen|][0] == '`';
      var a := SkipWhiteSpace(s, p + |FenceOpen|);
      match FirstFence(s, a)
      case None =>
        assert !FenceAlternativeAt(s, p) by {
          forall t | p + |FenceOpen| <= t && t < a ensures !StartsAt(s, t, Fence) {
            NoFenceAt(s, t);
          }
        }
        None
      case Some(t) =>
        var b := TrimEnd(s, a, t);
        assert FencedBodyAt(s, p, a, b, t) by {
          forall k | p + |FenceOpen| <= k < a ensures !StartsAt(s, k, Fence) {
            NoFenceAt(s, k);
          }
        }
        Some(FencedBlock(p, s[a..b]))
    else if s[p] == '[' then
      match LastIndexOf(s, ']')
      case None => None
      case Some(j) =>
        if p < j then
          var span := s[p..j + 1];
          assert s[p..p + |span|] == span;
          Some(BracketSpan(p, span))
        else None
    else None
  }

  /** The leftmost match starting at or after `p`. */
  function SearchFrom(s: string, p: nat): (m: Option<RegexMatch>)
    requires p <= |s|
    ensures m.None? ==> forall q :: p <= q ==> !MatchesAt(s, q)
    ensures m.Some? ==> p <= m.value.index && MatchesAt(s, m.value.index) && Describes(s, m.value)
    ensures m.Some? ==> forall q :: p <= q < m.value.index ==> !MatchesAt(s, q)
    decreases |s| - p
  {
    if p == |s| then None
    else
      match MatchAt(s, p)
      case Some(found) => Some(found)
      case None => SearchFrom(s, p + 1)
  }

  /** `text.match(pattern)` for the pattern of this module, without the `g`
      flag: the match that starts leftmost, or `None` (JavaScript `null`). */
  function Match(s: string): (m: Option<RegexMatch>)
    ensures m.None? <==> forall q :: !MatchesAt(s, q)
    ensures m.Some? ==> MatchesAt(s, m.value.index) && Describes(s, m.value)
    ensures m.Some? ==> forall q: nat :: q < m.value.index ==> !MatchesAt(s, q)
  {
    SearchFrom(s, 0)
  }

  /** `match[1] || match[2]`: the fenced body when it is non-empty; an empty
      body is falsy, so the absent second group is used, and `JSON.parse`
      receives `undefined`. */
  function JsonText(m: RegexMatch): string {
    match m
    case FencedBlock(_, body) => if body != "" then body else UndefinedText
    case BracketSpan(_, span) => span
  }

  /** `extractJsonFromString(text)`: parse what the pattern selected. `parse`
      stands for `JSON.parse`, `None` for the SyntaxError it throws. */
  function ExtractJsonFromString(text: string, parse: string -> Option<Json>): (r: Result<Json, Thrown>)
    ensures r == Err(ErrorObject(NoJsonArrayMessage)) <==> forall q :: !MatchesAt(text, q)
    ensures r.Err? ==> r.error in {ErrorObject(NoJsonArrayMessage), ErrorObject(NotValidJsonMessage)}
    ensures r.Ok? ==> exists m :: Describes(text, m) && parse(JsonText(m)) == Some(r.value)
    ensures Match(text).Some? ==> (r.Ok? <==> parse(JsonText(Match(text).value)).Some?)
    ensures Match(text).Some? && r.Ok? ==> Some(r.value) == parse(JsonText(Match(text).value))
    ensures Match(text).Some? && r.Err? ==> r.error == ErrorObject(NotValidJsonMessage)
  {
    match Match(text)
    case None => Err(ErrorObject(NoJsonArrayMessage))
    case Some(m) =>
      match parse(JsonText(m))
      case Some(v) => Ok(v)
      case None => Err(ErrorObject(NotValidJsonMessage))
  }

  /** The `leadsData` step of `generateLeads`: extraction first, and when it
      throws for any reason, the whole text handed to `JSON.parse`; only when
      that fails too does the invalid-format error arise. */
  function LeadsData(text: string, parse: string -> Option<Json>): (r: Result<Json, Thrown>)
    ensures r.Err? <==> ExtractJsonFromString(text, parse).Err? && parse(text).None?
    ensures r.Err? ==> r.error == ErrorObject(InvalidFormatMessage)
    ensures ExtractJsonFromString(text, parse).Ok? ==> r == ExtractJsonFromString(text, parse)
    ensures ExtractJsonFromString(text, parse).Err? && r.Ok? ==> parse(text) == Some(r.value)
  {
    match ExtractJsonFromString(text, parse)
    case Ok(v) => Ok(v)
    case Err(_) =>
      match parse(text)
      case Some(v) => Ok(v)
      case None => Err(ErrorObject(InvalidFormatMessage))
  }

  /** A character that is neither "`" nor "[" starts no match. */
  lemma NoMatchAtPlainChar(s: string, q: nat)
    requires q < |s| && s[q] != '`' && s[q] != '['
    ensures !MatchesAt(s, q)
  {
  }

  /** No match starts inside a prefix holding neither "`" nor "[". */
  lemma NoMatchInPrefix(text: string, prose: string)
    requires |prose| <= |text| && text[..|prose|] == prose && '`' !in prose && '[' !in prose
    ensures forall q: nat :: q < |prose| ==> !MatchesAt(text, q)
  {
    forall q: nat | q < |prose| ensures !MatchesAt(text, q) {
      assert text[q] == prose[q];
      NoMatchAtPlainChar(text, q);
    }
  }

  /** Every character of a slice made only of white space is white space. */
  lemma WhiteSpaceSlice(text: string, i: nat, j: nat, ws: string)
    requires i <= j <= |text| && text[i..j] == ws
    requires forall k :: 0 <= k < |ws| ==> IsWhiteSpace(ws[k])
    ensures forall k :: i <= k < j ==> IsWhiteSpace(text[k])
  {
    forall k | i <= k < j ensures IsWhiteSpace(text[k]) {
      assert text[k] == ws[k - i];
    }
  }

  /** An answer made of prose without "`" or "[", the "```json" tag, white
      space, a body, white space, the closing fence and anything at all after
      it yields exactly the body, and a body that parses is what the leads are
      read from. */
  lemma {:induction false} FencedBlockExtracted(
    prose: string, ws1: string, body: string, ws2: string, rest: string, parse: string -> Option<Json>)
    requires '`' !in prose && '[' !in prose
    requires forall i :: 0 <= i < |ws1| ==> IsWhiteSpace(ws1[i])
    requires forall i :: 0 <= i < |ws2| ==> IsWhiteSpace(ws2[i])
    requires body != [] && !IsWhiteSpace(body[0]) && !IsWhiteSpace(body[|body| - 1]) && '`' !in body
    ensures Match(prose + FenceOpen + ws1 + body + ws2 + Fence + rest) == Some(FencedBlock(|prose|, body))
    ensures parse(body).Some? ==>
      LeadsData(prose + FenceOpen + ws1 + body + ws2 + Fence + rest, parse) == Ok(parse(body).value)
  {
    var text := prose + FenceOpen + ws1 + body + ws2 + Fence + rest;
    FencedBlockMatched(prose, ws1, body, ws2, rest);
    if parse(body).Some? {
      CaptureParsed(text, parse);
    }
  }

  /** The match part of `FencedBlockExtracted`. */
  lemma {:induction false} FencedBlockMatched(prose: string, ws1: string, body: string, ws2: string, rest: string)
    requires '`' !in prose && '[' !in prose
    requires forall i :: 0 <= i < |ws1| ==> IsWhiteSpace(ws1[i])
    requires forall i :: 0 <= i < |ws2| ==> IsWhiteSpace(ws2[i])
    requires body != [] && !IsWhiteSpace(body[0]) && !IsWhiteSpace(body[|body| - 1]) && '`' !in body
    ensures Match(prose + FenceOpen + ws1 + body + ws2 + Fence + rest) == Some(FencedBlock(|prose|, body))
  {
    var text := prose + FenceOpen + ws1 + body + ws2 + Fence + rest;
    var p := |prose|;
    var a := p + |FenceOpen| + |ws1|;
    var b := a + |body|;
    var t := b + |ws2|;
    FencedSlices(prose, ws1, body, ws2, rest);
    NoMatchInPrefix(text, prose);
    WhiteSpaceSlice(text, p + |FenceOpen|, a, ws1);
    WhiteSpaceSlice(text, b, t, ws2);
    assert text[a..b] == body;
    assert text[a] == body[0] && text[b - 1] == body[|body| - 1];
    FencedBodyFromSlices(text, p, a, b, t);
    FencedMatchAt(text, p, a, b, t);
  }

  /** A capture that parses is what `leadsData` becomes. */
  lemma CaptureParsed(text: string, parse: string -> Option<Json>)
    requires Match(text).Some? && parse(JsonText(Match(text).value)).Some?
    ensures LeadsData(text, parse) == Ok(parse(JsonText(Match(text).value)).value)
  {
  }

  /** The match starts at the first position where the pattern matches. */
  lemma MatchStartsAt(text: string, p: nat)
    requires MatchesAt(text, p)
    requires forall q: nat :: q < p ==> !MatchesAt(text, q)
    ensures Match(text).Some? && Match(text).value.index == p
  {
  }

  /** A fenced block opened at `p`, with no match starting earlier, is the
      match, and its capture is the body it lays out. */
  lemma FencedMatchAt(text: string, p: nat, a: nat, b: nat, t: nat)
    requires StartsAt(text, p, FenceOpen)
    requires FencedBodyAt(text, p, a, b, t)
    requires forall q: nat :: q < p ==> !MatchesAt(text, q)
    ensures Match(text) == Some(FencedBlock(p, text[a..b]))
  {
    MatchStartsAt(text, p);
    var m := Match(text).value;
    match m
    case FencedBlock(_, found) =>
      var a': nat, b': nat, t': nat :| FencedBodyAt(text, p, a', b', t') && found == text[a'..b'];
      FencedBodyUnique(text, p, a, b, t, a', b', t');
    case BracketSpan(_, _) =>
      assert false;
  }

  /** Where the parts of a fenced answer lie in the text. */
  lemma FencedSlices(prose: string, ws1: string, body: string, ws2: string, rest: string)
    ensures var text := prose + FenceOpen + ws1 + body + ws2 + Fence + rest;
      var p := |prose|;
      var a := p + |FenceOpen| + |ws1|;
      var b := a + |body|;
      var t := b + |ws2|;
      && text[..p] == prose && text[p..p + |FenceOpen|] == FenceOpen && text[p + |FenceOpen|..a] == ws1
      && text[a..b] == body && text[b..t] == ws2 && text[t..t + |Fence|] == Fence
  {
    var text := prose + FenceOpen + ws1 + body + ws2 + Fence + rest;
    var p := |prose|;
    var a := p + |FenceOpen| + |ws1|;
    var b := a + |body|;
    var t := b + |ws2|;
    assert text[..p] == prose;
    assert text[p..p + |FenceOpen|] == FenceOpen;
    assert text[p + |FenceOpen|..a] == ws1;
    assert text[a..b] == body;
    assert text[b..t] == ws2;
    assert text[t..t + |Fence|] == Fence;
  }

  /** White space, a body without "`" that neither starts nor ends with white
      space, white space and a fence, laid out after the tag at `p`, form the
      description of a fenced match. */
  lemma FencedBodyFromSlices(text: string, p: nat, a: nat, b: nat, t: nat)
    requires p + |FenceOpen| <= a < b <= t && t + |Fence| <= |text|
    requires forall k :: p + |FenceOpen| <= k < a ==> IsWhiteSpace(text[k])
    requires forall k :: b <= k < t ==> IsWhiteSpace(text[k])
    requires '`' !in text[a..b] && !IsWhiteSpace(text[a]) && !IsWhiteSpace(text[b - 1])
    requires text[t..t + |Fence|] == Fence
    ensures FencedBodyAt(text, p, a, b, t)
  {
    forall k | p + |FenceOpen| <= k < t ensures !StartsAt(text, k, Fence) {
      if a <= k < b {
        assert text[k] == text[a..b][k - a];
      }
      NoFenceAt(text, k);
    }
  }

  /** The description of a fenced match fixes its capture: two descriptions
      of the block opened at `p` agree on body and closing fence. */
  lemma FencedBodyUnique(s: string, p: nat, a: nat, b: nat, t: nat, a': nat, b': nat, t': nat)
    requires FencedBodyAt(s, p, a, b, t) && FencedBodyAt(s, p, a', b', t')
    ensures a == a' && b == b' && t == t'
  {
  }


  /** An answer that is a bare array, starting with "[" and ending with "]",
      is taken whole: the leads are read from the entire text, and when it
      does not parse neither does the fallback, so the invalid-format error
      results. */
  lemma BareArrayExtracted(text: string, parse: string -> Option<Json>)
    requires |text| >= 2 && text[0] == '[' && text[|text| - 1] == ']'
    ensures Match(text) == Some(BracketSpan(0, text))
    ensures LeadsData(text, parse) ==
      if parse(text).Some? then Ok(parse(text).value) else Err(ErrorObject(InvalidFormatMessage))
  {
    assert MatchesAt(text, 0);
    MatchStartsAt(text, 0);
    var m := Match(text).value;
    match m
    case BracketSpan(_, span) =>
      assert text[|span| - 1] == ']';
      assert |span| == |text|;
      assert span == text[0..|text|] == text;
    case FencedBlock(_, _) =>
      assert false;
  }

  /** A fenced block with nothing inside it has a falsy capture, so
      `JSON.parse(undefined)` runs and fails; the answer is then parsed whole. */
  lemma EmptyFenceNotValidJson(ws: string, parse: string -> Option<Json>)
    requires forall i :: 0 <= i < |ws| ==> IsWhiteSpace(ws[i])
    requires parse(UndefinedText).None?
    ensures ExtractJsonFromString(FenceOpen + ws + Fence, parse) == Err(ErrorObject(NotValidJsonMessage))
    ensures LeadsData(FenceOpen + ws + Fence, parse) ==
      if parse(FenceOpen + ws + Fence).Some? then Ok(parse(FenceOpen + ws + Fence).value)
      else Err(ErrorObject(InvalidFormatMessage))
  {
    var text := FenceOpen + ws + Fence;
    var t := |FenceOpen| + |ws|;
    assert text[..|FenceOpen|] == FenceOpen;
    assert text[|FenceOpen|..t] == ws;
    assert text[t..] == Fence;
    forall k | |FenceOpen| <= k < t ensures IsWhiteSpace(text[k]) && !StartsAt(text, k, Fence) {
      assert text[k] == text[|FenceOpen|..t][k - |FenceOpen|];
      NoFenceAt(text, k);
    }
    assert text[t] == text[t..][0];
    assert FencedBodyAt(text, 0, t, t, t);
    FencedMatchAt(text, 0, t, t, t);
    assert text[t..t] == "";
  }


  /** The leftmost match wins, whichever alternative it is: a "[" that comes
      before any "`" or other "[", with a "]" somewhere after it, starts the
      match even when a fenced block follows, and the span then reaches the
      last "]" of the text, fence markers included. */
  lemma BracketBeforeFenceWins(s: string, p: nat)
    requires p < |s| && s[p] == '['
    requires exists j :: p < j < |s| && s[j] == ']'
    requires forall q :: 0 <= q < p ==> s[q] != '`' && s[q] != '['
    ensures Match(s).Some? && Match(s).value.BracketSpan? && Match(s).value.index == p
    ensures forall k :: p + |Match(s).value.span| <= k < |s| ==> s[k] != ']'
  {
    forall q: nat | q < p ensures !MatchesAt(s, q) {
      NoMatchAtPlainChar(s, q);
    }
    assert MatchesAt(s, p);
    MatchStartsAt(s, p);
    var m := Match(s).value;
    DescribedStart(s, m);
  }

  /** The first character of a match tells its alternative: "`" for a
      fenced block, "[" for a bracket span. */
  lemma DescribedStart(s: string, m: RegexMatch)
    requires Describes(s, m)
    ensures m.index < |s|
    ensures m.FencedBlock? ==> s[m.index] == '`'
    ensures m.BracketSpan? ==> s[m.index] == '['
  {
    if m.FencedBlock? {
      assert s[m.index] == s[m.index..m.index + |FenceOpen|][0];
    }
  }
}
