/**
 * The secret redactor of the report builder (n8n/report/report-generator.js:8-54):
 * the two global text substitutions of `sanitizeText`, the key test of
 * `sanitizeObjectValues`, and the array helper `sanitizeArray`.
 *
 * Both regular expressions are hand-written scanners here. A regular
 * expression without anchors or look-behind matches at position p of s exactly
 * when it matches at the start of s[p..], so every matcher below looks at the
 * start of a suffix and `ReplaceAll` walks the suffixes left to right, resuming
 * after each match as a global `replace` does.
 */
module Redaction {
  import opened Js

  /** The alternatives of the sensitive-key alternation, in the order the
      patterns list them, with each `[_-]?` spelled out (`_` or `-` first,
      as the greedy `?` tries them, then the empty choice). Both patterns carry
      the `i` flag, so the upper-case spelling of the second one names the same
      words. */
  const Vocabulary: seq<string> := [
    "password", "pass", "pwd", "secret", "token",
    "api_key", "api-key", "apikey",
    "authorization",
    "private_key", "private-key", "privatekey",
    "client_secret",
    "access_token", "access-token", "accesstoken",
    "refresh_token", "refresh-token", "refreshtoken"
  ]

  /** The replacement text. */
  const Redacted: string := "[REDACTED]"

  /** The characters the vocabulary is spelled with. */
  predicate WordChar(c: char) {
    ('a' <= c <= 'z') || c == '_' || c == '-'
  }

  predicate IsWord(w: string) {
    |w| > 0 && forall k :: 0 <= k < |w| ==> WordChar(w[k])
  }

  /** `w` occurs at position p of t, ASCII case ignored, as under the `i` flag. */
  predicate WordAt(t: string, p: nat, w: string) {
    p + |w| <= |t| && forall k :: 0 <= k < |w| ==> LowerChar(t[p + k]) == w[k]
  }

  predicate AnyWordAt(t: string, p: nat) {
    exists w :: w in Vocabulary && WordAt(t, p, w)
  }

  /** Some vocabulary word occurs in s, in any case. */
  predicate MentionsVocabulary(s: string) {
    exists p :: 0 <= p < |s| && AnyWordAt(s, p)
  }

  /** `SENSITIVE_KEY_PATTERN.test(key) || ENV_SENSITIVE_KEY_PATTERN.test(key)`:
      the two patterns are the same alternation under the `i` flag, and
      neither is anchored, so the test is a case-insensitive substring test. */
  predicate SensitiveKey(key: string) {
    MentionsVocabulary(key)
  }

  // ---------------------------------------------------------------------------
  // The two substitution patterns

  /** Pattern (a), line 20: `"?KEY"?\s*[:=]\s*("?)[^"\s,;]+("?)`.
      Pattern (b), line 25: `KEY\s*=\s*([^\s]+)`. */
  datatype Pattern = KeyValue | EnvAssignment

  /** A match at the start of a suffix: the first group `$1` ends at `keep`,
      the whole match at `end`. */
  datatype Span = Span(keep: nat, end: nat)

  /** `[^"\s,;]` */
  predicate IsValueChar(c: char) {
    c != '"' && !IsSpace(c) && c != ',' && c != ';'
  }

  /** The end of the run of white space starting at i. */
  function SkipSpaces(t: string, i: nat): (r: nat)
    requires i <= |t|
    ensures i <= r <= |t|
    ensures forall k :: i <= k < r ==> IsSpace(t[k])
    ensures r < |t| ==> !IsSpace(t[r])
    decreases |t| - i
  {
    if i < |t| && IsSpace(t[i]) then SkipSpaces(t, i + 1) else i
  }

  /** The end of the run of value characters starting at i. */
  function SkipValue(t: string, i: nat): (r: nat)
    requires i <= |t|
    ensures i <= r <= |t|
    ensures forall k :: i <= k < r ==> IsValueChar(t[k])
    ensures r < |t| ==> !IsValueChar(t[r])
    decreases |t| - i
  {
    if i < |t| && IsValueChar(t[i]) then SkipValue(t, i + 1) else i
  }

  /** The end of the run of non-white-space characters starting at i. */
  function SkipNonSpace(t: string, i: nat): (r: nat)
    requires i <= |t|
    ensures i <= r <= |t|
    ensures forall k :: i <= k < r ==> !IsSpace(t[k])
    ensures r < |t| ==> IsSpace(t[r])
    decreases |t| - i
  {
    if i < |t| && !IsSpace(t[i]) then SkipNonSpace(t, i + 1) else i
  }

  /** The rest of a pattern after a key word that ends at j. Each step is
      greedy, and giving characters back never helps: a shorter run of
      white space leaves a white-space character where `[:=]`, `=` or a value
      character is needed, and a skipped quote is not a value character. */
  function AfterWord(pat: Pattern, t: string, j: nat): (r: Option<Span>)
    requires j <= |t|
    ensures r.Some? ==> j < r.value.keep < r.value.end <= |t|
  {
    match pat
    case KeyValue =>
      var j1 := if j < |t| && t[j] == '"' then j + 1 else j;
      var k := SkipSpaces(t, j1);
      if k < |t| && (t[k] == ':' || t[k] == '=') then
        var k2 := SkipSpaces(t, k + 1);
        var q := if k2 < |t| && t[k2] == '"' then k2 + 1 else k2;
        var e := SkipValue(t, q);
        if e > q then Some(Span(k2, if e < |t| && t[e] == '"' then e + 1 else e)) else None
      else None
    case EnvAssignment =>
      var k := SkipSpaces(t, j);
      if k < |t| && t[k] == '=' then
        var k2 := SkipSpaces(t, k + 1);
        var e := SkipNonSpace(t, k2);
        if e > k2 then Some(Span(k2, e)) else None
      else None
  }

  /** The first alternative, in the order of `words`, that occurs at p and is
      followed by the rest of the pattern. */
  function FirstMatch(pat: Pattern, t: string, p: nat, words: seq<string>): (r: Option<Span>)
    requires p <= |t|
    ensures r.Some? ==> p < r.value.keep < r.value.end <= |t|
    decreases |words|
  {
    if |words| == 0 then None
    else if WordAt(t, p, words[0]) then
      match AfterWord(pat, t, p + |words[0]|)
      case Some(sp) => Some(sp)
      case None => FirstMatch(pat, t, p, words[1..])
    else FirstMatch(pat, t, p, words[1..])
  }

  /** A match of the pattern at the start of t. Pattern (a) may open with a
      quote before the key; when it does, the key must follow the quote. */
  function MatchAtStart(pat: Pattern, t: string): (r: Option<Span>)
    ensures r.Some? ==> 0 < r.value.keep < r.value.end <= |t|
  {
    if pat == KeyValue && |t| > 0 && t[0] == '"' then FirstMatch(pat, t, 1, Vocabulary)
    else FirstMatch(pat, t, 0, Vocabulary)
  }

  /** `s.replace(pattern, '$1[REDACTED]')` with the `g` flag. */
  function ReplaceAll(pat: Pattern, s: string): (r: string)
    ensures |s| > 0 ==> |r| > 0
    decreases |s|
  {
    if |s| == 0 then []
    else
      match MatchAtStart(pat, s)
      case Some(sp) => s[..sp.keep] + Redacted + ReplaceAll(pat, s[sp.end..])
      case None => [s[0]] + ReplaceAll(pat, s[1..])
  }

  /** `sanitizeText(text)` (lines 13-30). */
  function SanitizeText(v: Json): (r: string)
    ensures !Truthy(v) ==> |r| == 0
    ensures Truthy(v) && !v.Str? ==> r == ToStr(v)
    ensures |r| == 0 <==> !Truthy(v) || |ToStr(v)| == 0
  {
    if !Truthy(v) then ""
    else if !v.Str? then ToStr(v)
    else ReplaceAll(EnvAssignment, ReplaceAll(KeyValue, v.s))
  }

  // ---------------------------------------------------------------------------
  // Facts about the scanners

  lemma VocabularyIsWords()
    ensures forall w :: w in Vocabulary ==> IsWord(w)
  {
    var v := Vocabulary;
    forall i | 0 <= i < |v| ensures IsWord(v[i]) {
      var w := v[i];
      forall k | 0 <= k < |w| ensures WordChar(w[k]) {
      }
    }
  }

  /** A match needs a vocabulary word at its key position. */
  lemma {:induction false} NoWordNoMatch(pat: Pattern, t: string, p: nat, words: seq<string>)
    requires p <= |t|
    requires forall w :: w in words ==> !WordAt(t, p, w)
    ensures FirstMatch(pat, t, p, words) == None
    decreases |words|
  {
    if |words| > 0 {
      NoWordNoMatch(pat, t, p, words[1..]);
    }
  }

  lemma ShiftWordAt(s: string, p: nat, w: string)
    requires |s| > 0
    ensures WordAt(s[1..], p, w) <==> WordAt(s, p + 1, w)
  {
    if WordAt(s[1..], p, w) {
      forall k | 0 <= k < |w| ensures LowerChar(s[p + 1 + k]) == w[k] {
        assert s[1..][p + k] == s[p + 1 + k];
      }
    }
    if WordAt(s, p + 1, w) {
      forall k | 0 <= k < |w| ensures LowerChar(s[1..][p + k]) == w[k] {
        assert s[1..][p + k] == s[p + 1 + k];
      }
    }
  }

  lemma UnmentionedTail(s: string)
    requires |s| > 0 && !MentionsVocabulary(s)
    ensures !MentionsVocabulary(s[1..])
  {
    forall p, w | 0 <= p < |s| - 1 && w in Vocabulary ensures !WordAt(s[1..], p, w) {
      ShiftWordAt(s, p, w);
      assert WordAt(s[1..], p, w) ==> AnyWordAt(s, p + 1);
    }
  }

  /** Text that mentions no vocabulary word, in any case, passes through
      either substitution unchanged. */
  lemma {:induction false} UnmentionedUnchanged(pat: Pattern, s: string)
    requires !MentionsVocabulary(s)
    ensures ReplaceAll(pat, s) == s
    decreases |s|
  {
    if |s| > 0 {
      VocabularyIsWords();
      assert !AnyWordAt(s, 0);
      assert 1 < |s| ==> !AnyWordAt(s, 1);
      if pat == KeyValue && s[0] == '"' {
        NoWordNoMatch(pat, s, 1, Vocabulary);
      } else {
        NoWordNoMatch(pat, s, 0, Vocabulary);
      }
      UnmentionedTail(s);
      UnmentionedUnchanged(pat, s[1..]);
    }
  }

  /** The character a pattern needs between key and value. */
  predicate Separator(pat: Pattern, c: char) {
    c == '=' || (pat == KeyValue && c == ':')
  }

  /** What may follow a key word for the rest of a pattern to match: a quote,
      white space or the separator, never another word character. */
  lemma AfterWordNeedsSeparator(pat: Pattern, t: string, j: nat)
    requires j <= |t|
    requires AfterWord(pat, t, j).Some?
    ensures j < |t| && !WordChar(LowerChar(t[j]))
    ensures exists i :: j <= i < |t| && Separator(pat, t[i])
  {
    match pat
    case KeyValue =>
      var j1 := if j < |t| && t[j] == '"' then j + 1 else j;
      var k := SkipSpaces(t, j1);
      assert Separator(pat, t[k]);
      if j1 == j && k > j {
        assert IsSpace(t[j]);
      }
    case EnvAssignment =>
      var k := SkipSpaces(t, j);
      assert Separator(pat, t[k]);
      if k > j {
        assert IsSpace(t[j]);
      }
  }

  /** Two vocabulary words found at the same place and both followed by the
      rest of the pattern have the same length: the shorter one would be
      followed by a word character. */
  lemma SameAlternative(pat: Pattern, t: string, p: nat, u: string, w: string)
    requires IsWord(u) && IsWord(w)
    requires WordAt(t, p, u) && WordAt(t, p, w)
    requires AfterWord(pat, t, p + |u|).Some? && AfterWord(pat, t, p + |w|).Some?
    ensures |u| == |w|
  {
    if |u| < |w| {
      PrefixWordNotFollowed(pat, t, p, u, w);
    } else if |w| < |u| {
      PrefixWordNotFollowed(pat, t, p, w, u);
    }
  }

  /** A word found inside a longer one is followed by a word character, so
      the rest of the pattern does not match after it. */
  lemma PrefixWordNotFollowed(pat: Pattern, t: string, p: nat, u: string, w: string)
    requires IsWord(w) && WordAt(t, p, w) && |u| < |w|
    ensures AfterWord(pat, t, p + |u|).None?
  {
    assert LowerChar(t[p + |u|]) == w[|u|];
    if AfterWord(pat, t, p + |u|).Some? {
      AfterWordNeedsSeparator(pat, t, p + |u|);
    }
  }

  lemma FirstMatchHead(pat: Pattern, t: string, p: nat, words: seq<string>)
    requires p <= |t| && |words| > 0
    requires WordAt(t, p, words[0]) && AfterWord(pat, t, p + |words[0]|).Some?
    ensures FirstMatch(pat, t, p, words) == AfterWord(pat, t, p + |words[0]|)
  {
  }

  lemma FirstMatchTail(pat: Pattern, t: string, p: nat, words: seq<string>)
    requires p <= |t| && |words| > 0
    requires !(WordAt(t, p, words[0]) && AfterWord(pat, t, p + |words[0]|).Some?)
    ensures FirstMatch(pat, t, p, words) == FirstMatch(pat, t, p, words[1..])
  {
  }

  lemma FindsAtHead(pat: Pattern, t: string, p: nat, words: seq<string>, w: string)
    requires p <= |t| && |words| > 0
    requires IsWord(words[0]) && IsWord(w)
    requires WordAt(t, p, words[0]) && AfterWord(pat, t, p + |words[0]|).Some?
    requires WordAt(t, p, w) && AfterWord(pat, t, p + |w|).Some?
    ensures FirstMatch(pat, t, p, words) == AfterWord(pat, t, p + |w|)
  {
    FirstMatchHead(pat, t, p, words);
    SameAlternative(pat, t, p, words[0], w);
  }

  /** Whichever alternative is followed by the rest of the pattern decides the
      match, wherever it stands in the alternation. */
  lemma {:induction false} FirstMatchFinds(pat: Pattern, t: string, p: nat, words: seq<string>, w: string)
    requires p <= |t|
    requires forall u :: u in words ==> IsWord(u)
    requires w in words && WordAt(t, p, w) && AfterWord(pat, t, p + |w|).Some?
    ensures FirstMatch(pat, t, p, words) == AfterWord(pat, t, p + |w|)
    decreases |words|
  {
    if WordAt(t, p, words[0]) && AfterWord(pat, t, p + |words[0]|).Some? {
      FindsAtHead(pat, t, p, words, w);
    } else {
      FirstMatchTail(pat, t, p, words);
      FirstMatchFinds(pat, t, p, words[1..], w);
    }
  }

  /** The order of the alternatives in the regular expression does not matter. */
  lemma MatchIsOrderFree(pat: Pattern, t: string, p: nat, w: string)
    requires p <= |t|
    requires w in Vocabulary && WordAt(t, p, w) && AfterWord(pat, t, p + |w|).Some?
    ensures FirstMatch(pat, t, p, Vocabulary) == AfterWord(pat, t, p + |w|)
  {
    VocabularyIsWords();
    FirstMatchFinds(pat, t, p, Vocabulary, w);
  }

  /** Every match contains the pattern's separator. */
  lemma {:induction false} MatchNeedsSeparator(pat: Pattern, t: string, p: nat, words: seq<string>)
    requires p <= |t|
    requires FirstMatch(pat, t, p, words).Some?
    ensures exists i :: p <= i < |t| && Separator(pat, t[i])
    decreases |words|
  {
    if WordAt(t, p, words[0]) && AfterWord(pat, t, p + |words[0]|).Some? {
      AfterWordNeedsSeparator(pat, t, p + |words[0]|);
    } else {
      MatchNeedsSeparator(pat, t, p, words[1..]);
    }
  }

  /** Text without the separator of a pattern passes through it unchanged. */
  lemma {:induction false} NoSeparatorUnchanged(pat: Pattern, s: string)
    requires forall i :: 0 <= i < |s| ==> !Separator(pat, s[i])
    ensures ReplaceAll(pat, s) == s
    decreases |s|
  {
    if |s| > 0 {
      if MatchAtStart(pat, s).Some? {
        if pat == KeyValue && s[0] == '"' {
          MatchNeedsSeparator(pat, s, 1, Vocabulary);
        } else {
          MatchNeedsSeparator(pat, s, 0, Vocabulary);
        }
      }
      NoSeparatorUnchanged(pat, s[1..]);
    }
  }

  /** Text that mentions no vocabulary word comes out of `sanitizeText` as it
      went in. */
  lemma SanitizeTextKeepsPlainText(s: string)
    requires !MentionsVocabulary(s)
    ensures SanitizeText(Str(s)) == s
  {
    UnmentionedUnchanged(KeyValue, s);
    UnmentionedUnchanged(EnvAssignment, s);
  }

  /** Every vocabulary word holds one of these letters. */
  predicate Telltale(c: char) {
    c == 'p' || c == 's' || c == 't' || c == 'c'
  }

  lemma VocabularyHasTelltale(w: string)
    requires w in Vocabulary
    ensures exists k :: 0 <= k < |w| && Telltale(w[k])
  {
    if Telltale(w[0]) {
    } else if Telltale(w[1]) {
    } else if Telltale(w[2]) {
    } else {
      assert Telltale(w[5]);
    }
  }

  /** Text none of whose letters is a telltale one, in any case, mentions no
      vocabulary word and so is never redacted. */
  lemma NoTelltaleIsPlain(s: string)
    requires forall i :: 0 <= i < |s| ==> !Telltale(LowerChar(s[i]))
    ensures !MentionsVocabulary(s)
  {
    forall p, w | 0 <= p < |s| && w in Vocabulary ensures !WordAt(s, p, w) {
      VocabularyHasTelltale(w);
      var k :| 0 <= k < |w| && Telltale(w[k]);
      if p + k < |s| {
        assert LowerChar(s[p + k]) != w[k];
      }
    }
  }

  /** A key that spells a vocabulary word, in any case. */
  predicate IsKeyWord(k: string) {
    Lower(k) in Vocabulary
  }

  lemma KeyWordFacts(k: string)
    requires IsKeyWord(k)
    ensures IsWord(Lower(k))
  {
    VocabularyIsWords();
  }

  lemma WordKeyFacts(k: string)
    requires IsWord(Lower(k))
    ensures |k| > 0
    ensures forall i :: 0 <= i < |k| ==> WordChar(LowerChar(k[i]))
  {
    forall i | 0 <= i < |k| ensures WordChar(LowerChar(k[i])) {
      assert Lower(k)[i] == LowerChar(k[i]);
    }
  }

  /** A match spanning the whole text leaves its first group and the
      replacement. */
  lemma ReplaceWhole(pat: Pattern, t: string, keep: nat)
    requires MatchAtStart(pat, t) == Some(Span(keep, |t|))
    ensures ReplaceAll(pat, t) == t[..keep] + Redacted
  {
    assert t[|t|..] == [];
  }

  /** `=value` after the key, where the value runs to the end of the text. */
  lemma AfterWordAssignment(pat: Pattern, t: string, j: nat)
    requires j + 1 < |t| && t[j] == '='
    requires forall i :: j < i < |t| ==> IsValueChar(t[i])
    ensures AfterWord(pat, t, j) == Some(Span(j + 1, |t|))
  {
    assert SkipSpaces(t, j) == j;
    assert SkipSpaces(t, j + 1) == j + 1;
    if pat == KeyValue {
      assert SkipValue(t, j + 1) == |t|;
    } else {
      assert SkipNonSpace(t, j + 1) == |t|;
    }
  }

  /** A match found through one alternative that starts at the first
      character. */
  lemma MatchAtStartThrough(pat: Pattern, t: string, w: string, sp: Span)
    requires w in Vocabulary && WordAt(t, 0, w) && AfterWord(pat, t, |w|) == Some(sp)
    requires t[0] != '"'
    ensures MatchAtStart(pat, t) == Some(sp)
  {
    assert MatchAtStart(pat, t) == FirstMatch(pat, t, 0, Vocabulary);
    MatchIsOrderFree(pat, t, 0, w);
  }

  /** The key of `KEY=value` and what follows it, for a key spelled with
      word characters. */
  lemma AssignmentParts(pat: Pattern, k: string, v: string)
    requires IsWord(Lower(k))
    requires |v| > 0 && forall i :: 0 <= i < |v| ==> IsValueChar(v[i])
    ensures var t := k + "=" + v;
      && WordAt(t, 0, Lower(k)) && t[0] != '"'
      && AfterWord(pat, t, |Lower(k)|) == Some(Span(|k| + 1, |t|))
  {
    var t := k + "=" + v;
    var w := Lower(k);
    forall i | 0 <= i < |w| ensures LowerChar(t[i]) == w[i] {
      assert t[i] == k[i];
    }
    forall i | |k| < i < |t| ensures IsValueChar(t[i]) {
      assert t[i] == v[i - |k| - 1];
    }
    AfterWordAssignment(pat, t, |k|);
    assert t[0] == k[0] && LowerChar(k[0]) == w[0];
  }

  /** Either pattern matches all of `KEY=value`. */
  lemma AssignmentMatches(pat: Pattern, k: string, v: string)
    requires IsKeyWord(k)
    requires |v| > 0 && forall i :: 0 <= i < |v| ==> IsValueChar(v[i])
    ensures var t := k + "=" + v; MatchAtStart(pat, t) == Some(Span(|k| + 1, |t|))
  {
    KeyWordFacts(k);
    AssignmentParts(pat, k, v);
    MatchAtStartThrough(pat, k + "=" + v, Lower(k), Span(|k| + 1, |k + "=" + v|));
  }

  lemma RedactedIsValue()
    ensures forall i :: 0 <= i < |Redacted| ==> IsValueChar(Redacted[i])
  {
  }

  /** `sanitizeText` on a non-empty string is the two substitutions in turn. */
  lemma SanitizeTextSteps(s: string, mid: string, out: string)
    requires |s| > 0 && ReplaceAll(KeyValue, s) == mid && ReplaceAll(EnvAssignment, mid) == out
    ensures SanitizeText(Str(s)) == out
  {
  }

  /** Pattern (a) or (b) alone on `KEY=value`. */
  lemma AssignmentReplaced(pat: Pattern, k: string, v: string)
    requires IsKeyWord(k)
    requires |v| > 0 && forall i :: 0 <= i < |v| ==> IsValueChar(v[i])
    ensures ReplaceAll(pat, k + "=" + v) == k + "=" + Redacted
  {
    var t := k + "=" + v;
    AssignmentMatches(pat, k, v);
    ReplaceWhole(pat, t, |k| + 1);
    PrefixOfConcat(k + "=", v);
  }

  /** `KEY=value` loses its value, and only its value, when the key spells a
      vocabulary word and the value holds no quote, white space, comma or
      semicolon: pattern (a) redacts it, and pattern (b) then replaces the
      `[REDACTED]` it finds after the `=` with itself. */
  lemma AssignmentRedacted(k: string, v: string)
    requires IsKeyWord(k)
    requires |v| > 0 && forall i :: 0 <= i < |v| ==> IsValueChar(v[i])
    ensures SanitizeText(Str(k + "=" + v)) == k + "=" + Redacted
  {
    AssignmentReplaced(KeyValue, k, v);
    RedactedIsValue();
    AssignmentReplaced(EnvAssignment, k, Redacted);
    SanitizeTextSteps(k + "=" + v, k + "=" + Redacted, k + "=" + Redacted);
  }

  /** `"s"` */
  function Quoted(s: string): (r: string)
    ensures |r| == |s| + 2 && r[0] == '"' && r[|r| - 1] == '"'
    ensures forall i :: 0 <= i < |s| ==> r[i + 1] == s[i]
  {
    "\"" + s + "\""
  }

  /** `": "value"` after the key, where the closing quote ends the text. */
  lemma AfterWordQuotedPair(t: string, j: nat)
    requires j + 5 < |t| && t[|t| - 1] == '"'
    requires t[j] == '"' && t[j + 1] == ':' && t[j + 2] == ' ' && t[j + 3] == '"'
    requires forall i :: j + 4 <= i < |t| - 1 ==> IsValueChar(t[i])
    ensures AfterWord(KeyValue, t, j) == Some(Span(j + 3, |t|))
  {
    assert SkipSpaces(t, j + 1) == j + 1;
    assert SkipSpaces(t, j + 2) == j + 3;
    assert SkipValue(t, j + 4) == |t| - 1;
  }

  /** The key of `"KEY": "value"` and what follows it, for any key. */
  lemma JsonPairParts(k: string, v: string)
    requires |v| > 0 && forall i :: 0 <= i < |v| ==> IsValueChar(v[i])
    ensures var t := Quoted(k) + ": " + Quoted(v);
      && t[0] == '"' && WordAt(t, 1, Lower(k))
      && AfterWord(KeyValue, t, 1 + |Lower(k)|) == Some(Span(|k| + 4, |t|))
  {
    var t := Quoted(k) + ": " + Quoted(v);
    var n := |k|;
    var w := Lower(k);
    forall i | 0 <= i < |w| ensures LowerChar(t[1 + i]) == w[i] {
      assert t[1 + i] == k[i];
    }
    forall i | n + 5 <= i < |t| - 1 ensures IsValueChar(t[i]) {
      assert t[i] == v[i - n - 5];
    }
    AfterWordQuotedPair(t, n + 1);
  }

  /** A match found through one alternative after an opening quote. */
  lemma MatchAtStartAfterQuote(t: string, w: string, sp: Span)
    requires |t| > 0 && t[0] == '"'
    requires w in Vocabulary && WordAt(t, 1, w) && AfterWord(KeyValue, t, 1 + |w|) == Some(sp)
    ensures MatchAtStart(KeyValue, t) == Some(sp)
  {
    MatchIsOrderFree(KeyValue, t, 1, w);
  }

  /** The match of pattern (a) on `"KEY": "value"`. */
  lemma JsonPairMatches(k: string, v: string)
    requires IsKeyWord(k)
    requires |v| > 0 && forall i :: 0 <= i < |v| ==> IsValueChar(v[i])
    ensures var t := Quoted(k) + ": " + Quoted(v); MatchAtStart(KeyValue, t) == Some(Span(|k| + 4, |t|))
  {
    JsonPairParts(k, v);
    var t := Quoted(k) + ": " + Quoted(v);
    MatchAtStartAfterQuote(t, Lower(k), Span(|k| + 4, |t|));
  }

  /** Pattern (a) on `"KEY": "value"`. */
  lemma JsonPairReplaced(k: string, v: string)
    requires IsKeyWord(k)
    requires |v| > 0 && forall i :: 0 <= i < |v| ==> IsValueChar(v[i])
    ensures ReplaceAll(KeyValue, Quoted(k) + ": " + Quoted(v)) == Quoted(k) + ": " + Redacted
  {
    var t := Quoted(k) + ": " + Quoted(v);
    JsonPairMatches(k, v);
    ReplaceWhole(KeyValue, t, |k| + 4);
    PrefixOfConcat(Quoted(k) + ": ", Quoted(v));
  }

  lemma PrefixOfConcat(a: string, b: string)
    ensures (a + b)[..|a|] == a
  {
  }

  lemma ConcatParts(a: string, b: string, c: string, d: string)
    ensures (a + b + c + d)[..|a|] == a
    ensures (a + b + c + d)[|a| + |b| + |c|..] == d
  {
    assert (a + b + c + d) == a + (b + c + d);
    assert (a + b + c + d) == (a + b + c) + d;
  }

  /** Pattern (b) leaves `"KEY": [REDACTED]` alone: it has no `=`. */
  lemma JsonPairKeptByAssignmentPattern(k: string)
    requires IsWord(Lower(k))
    ensures ReplaceAll(EnvAssignment, Quoted(k) + ": " + Redacted) == Quoted(k) + ": " + Redacted
  {
    WordKeyFacts(k);
    var u := Quoted(k) + ": " + Redacted;
    forall i | 0 <= i < |u| ensures !Separator(EnvAssignment, u[i]) {
      if 1 <= i < |k| + 1 {
        assert u[i] == k[i - 1];
      } else if i >= |k| + 4 {
        assert u[i] == Redacted[i - |k| - 4];
      }
    }
    NoSeparatorUnchanged(EnvAssignment, u);
  }

  /** A JSON pair `"KEY": "value"` becomes `"KEY": [REDACTED]`: the key and
      its quotes stay, the quoted value goes with its quotes. */
  lemma JsonPairRedacted(k: string, v: string)
    requires IsKeyWord(k)
    requires |v| > 0 && forall i :: 0 <= i < |v| ==> IsValueChar(v[i])
    ensures SanitizeText(Str(Quoted(k) + ": " + Quoted(v))) == Quoted(k) + ": " + Redacted
  {
    JsonPairReplaced(k, v);
    KeyWordFacts(k);
    JsonPairKeptByAssignmentPattern(k);
    SanitizeTextSteps(Quoted(k) + ": " + Quoted(v), Quoted(k) + ": " + Redacted, Quoted(k) + ": " + Redacted);
  }

  /** One substitution step of a global replace. */
  lemma ReplaceStep(pat: Pattern, t: string, sp: Span)
    requires MatchAtStart(pat, t) == Some(sp)
    ensures ReplaceAll(pat, t) == t[..sp.keep] + Redacted + ReplaceAll(pat, t[sp.end..])
  {
  }

  /** Pattern (a) after a quoted key: `":` then a value running up to `e`,
      taking a closing quote at `e` along. */
  lemma AfterWordColonValue(t: string, j: nat, e: nat)
    requires j + 2 < e <= |t| && t[j] == '"' && t[j + 1] == ':'
    requires forall i :: j + 2 <= i < e ==> IsValueChar(t[i])
    requires e < |t| ==> !IsValueChar(t[e])
    ensures AfterWord(KeyValue, t, j) == Some(Span(j + 2, if e < |t| && t[e] == '"' then e + 1 else e))
  {
    assert SkipSpaces(t, j + 1) == j + 1;
    assert SkipSpaces(t, j + 2) == j + 2;
    assert SkipValue(t, j + 2) == e;
  }

  /** A tail that neither pattern can touch. */
  predicate PlainTail(y: string) {
    forall i :: 0 <= i < |y| ==> IsValueChar(y[i]) && y[i] != '=' && y[i] != ':'
  }

  /** The match of pattern (a) on `"KEY":value"tail`, found through the key. */
  lemma InnerQuoteParts(k: string, v: string, y: string)
    requires IsWord(Lower(k))
    requires |v| > 0 && forall i :: 0 <= i < |v| ==> IsValueChar(v[i])
    ensures var t := Quoted(k) + ":" + v + "\"" + y;
      && t[0] == '"' && WordAt(t, 1, Lower(k))
      && AfterWord(KeyValue, t, 1 + |Lower(k)|) == Some(Span(|k| + 3, |k| + 4 + |v|))
  {
    var t := Quoted(k) + ":" + v + "\"" + y;
    var n := |k|;
    forall i | 0 <= i < |Lower(k)| ensures LowerChar(t[1 + i]) == Lower(k)[i] {
      assert t[1 + i] == k[i];
    }
    forall i | n + 3 <= i < n + 3 + |v| ensures IsValueChar(t[i]) {
      assert t[i] == v[i - n - 3];
    }
    assert t[n + 3 + |v|] == '"';
    AfterWordColonValue(t, n + 1, n + 3 + |v|);
  }

  /** A pattern on `"KEY":value"tail`, given its first match and a tail
      without its separator. */
  lemma InnerQuoteFirstPattern(pat: Pattern, k: string, v: string, y: string)
    requires forall i :: 0 <= i < |y| ==> !Separator(pat, y[i])
    requires var t := Quoted(k) + ":" + v + "\"" + y;
      MatchAtStart(pat, t) == Some(Span(|k| + 3, |k| + 4 + |v|))
    ensures ReplaceAll(pat, Quoted(k) + ":" + v + "\"" + y) == Quoted(k) + ":" + Redacted + y
  {
    var t := Quoted(k) + ":" + v + "\"" + y;
    var sp := Span(|k| + 3, |k| + 4 + |v|);
    var head, q := Quoted(k) + ":", "\"";
    assert |head| == |k| + 3 && |q| == 1;
    NoSeparatorUnchanged(pat, y);
    ReplaceAfterHead(pat, t, sp, head, v, q, y);
  }

  /** One match that keeps `head` and takes `v` and `q`, then a tail the
      pattern leaves alone. */
  lemma ReplaceAfterHead(pat: Pattern, t: string, sp: Span, head: string, v: string, q: string, y: string)
    requires t == head + v + q + y && sp.keep == |head| && sp.end == |head| + |v| + |q|
    requires MatchAtStart(pat, t) == Some(sp)
    requires ReplaceAll(pat, y) == y
    ensures ReplaceAll(pat, t) == head + Redacted + y
  {
    ConcatParts(head, v, q, y);
    ReplaceStep(pat, t, sp);
  }

  /** Pattern (b) leaves `"KEY":[REDACTED]tail` alone: it has no `=`. */
  lemma RedactedTailKeptByAssignmentPattern(k: string, y: string)
    requires IsWord(Lower(k)) && PlainTail(y)
    ensures ReplaceAll(EnvAssignment, Quoted(k) + ":" + Redacted + y) == Quoted(k) + ":" + Redacted + y
  {
    WordKeyFacts(k);
    var m := Quoted(k) + ":" + Redacted + y;
    var n := |k|;
    forall i | 0 <= i < |m| ensures !Separator(EnvAssignment, m[i]) {
      if 1 <= i < n + 1 {
        assert m[i] == k[i - 1];
      } else if n + 3 <= i < n + 13 {
        assert m[i] == Redacted[i - n - 3];
      } else if n + 13 <= i {
        assert m[i] == y[i - n - 13];
      }
    }
    NoSeparatorUnchanged(EnvAssignment, m);
  }

  /** What pattern (b) then leaves of `"KEY":[REDACTED]tail`. */
  lemma InnerQuoteRest(k: string, t: string, y: string)
    requires IsWord(Lower(k)) && PlainTail(y) && |t| > 0
    requires ReplaceAll(KeyValue, t) == Quoted(k) + ":" + Redacted + y
    ensures SanitizeText(Str(t)) == Quoted(k) + ":" + Redacted + y
  {
    RedactedTailKeptByAssignmentPattern(k, y);
    SanitizeTextSteps(t, Quoted(k) + ":" + Redacted + y, Quoted(k) + ":" + Redacted + y);
  }

  /** The first pass over `"KEY":value"tail`: the value and its closing
      quote go, the tail stays. */
  lemma InnerQuoteOnce(k: string, v: string, y: string)
    requires IsKeyWord(k)
    requires |v| > 0 && forall i :: 0 <= i < |v| ==> IsValueChar(v[i])
    requires PlainTail(y)
    ensures SanitizeText(Str(Quoted(k) + ":" + v + "\"" + y)) == Quoted(k) + ":" + Redacted + y
  {
    KeyWordFacts(k);
    InnerQuoteParts(k, v, y);
    MatchAtStartAfterQuote(Quoted(k) + ":" + v + "\"" + y, Lower(k), Span(|k| + 3, |k| + 4 + |v|));
    InnerQuoteFirstPattern(KeyValue, k, v, y);
    InnerQuoteRest(k, Quoted(k) + ":" + v + "\"" + y, y);
  }

  /** The match of pattern (a) on `"KEY":[REDACTED]tail`: it runs to the end. */
  lemma RedactedTailParts(k: string, y: string)
    requires IsWord(Lower(k)) && PlainTail(y)
    ensures var m := Quoted(k) + ":" + Redacted + y;
      && m[0] == '"' && WordAt(m, 1, Lower(k))
      && AfterWord(KeyValue, m, 1 + |Lower(k)|) == Some(Span(|k| + 3, |m|))
  {
    var m := Quoted(k) + ":" + Redacted + y;
    var n := |k|;
    forall i | 0 <= i < |Lower(k)| ensures LowerChar(m[1 + i]) == Lower(k)[i] {
      assert m[1 + i] == k[i];
    }
    forall i | n + 3 <= i < |m| ensures IsValueChar(m[i]) {
      if i < n + 13 {
        assert m[i] == Redacted[i - n - 3];
      } else {
        assert m[i] == y[i - n - 13];
      }
    }
    AfterWordColonValue(m, n + 1, |m|);
  }

  /** Pattern (b) leaves `"KEY":[REDACTED]` alone: it has no `=`. */
  lemma RedactedKeptByAssignmentPattern(k: string)
    requires IsWord(Lower(k))
    ensures ReplaceAll(EnvAssignment, Quoted(k) + ":" + Redacted) == Quoted(k) + ":" + Redacted
  {
    WordKeyFacts(k);
    var r := Quoted(k) + ":" + Redacted;
    var n := |k|;
    forall i | 0 <= i < |r| ensures !Separator(EnvAssignment, r[i]) {
      if 1 <= i < n + 1 {
        assert r[i] == k[i - 1];
      } else if n + 3 <= i {
        assert r[i] == Redacted[i - n - 3];
      }
    }
    NoSeparatorUnchanged(EnvAssignment, r);
  }

  /** What pattern (b) then leaves of `"KEY":[REDACTED]`. */
  lemma RedactedTailRest(k: string, y: string)
    requires IsWord(Lower(k)) && PlainTail(y)
    requires var m := Quoted(k) + ":" + Redacted + y;
      MatchAtStart(KeyValue, m) == Some(Span(|k| + 3, |m|))
    ensures SanitizeText(Str(Quoted(k) + ":" + Redacted + y)) == Quoted(k) + ":" + Redacted
  {
    var m := Quoted(k) + ":" + Redacted + y;
    var r := Quoted(k) + ":" + Redacted;
    ReplaceWhole(KeyValue, m, |k| + 3);
    assert |Quoted(k) + ":"| == |k| + 3;
    assert m == (Quoted(k) + ":") + (Redacted + y);
    assert m[..|k| + 3] == Quoted(k) + ":";
    assert ReplaceAll(KeyValue, m) == r;
    RedactedKeptByAssignmentPattern(k);
    SanitizeTextSteps(m, r, r);
  }

  /** The second pass over the result: the `[REDACTED]` marker now runs into
      the tail, and both go. */
  lemma InnerQuoteTwice(k: string, y: string)
    requires IsKeyWord(k)
    requires PlainTail(y)
    ensures SanitizeText(Str(Quoted(k) + ":" + Redacted + y)) == Quoted(k) + ":" + Redacted
  {
    KeyWordFacts(k);
    RedactedTailParts(k, y);
    var m := Quoted(k) + ":" + Redacted + y;
    MatchAtStartAfterQuote(m, Lower(k), Span(|k| + 3, |m|));
    RedactedTailRest(k, y);
  }

  /** `sanitizeText` is not idempotent: pattern (a) stops a value at a quote,
      so a value with an inner quote keeps its tail the first time and loses
      it the second time. */
  lemma SanitizeTextNotIdempotent(k: string, v: string, y: string)
    requires IsKeyWord(k)
    requires |v| > 0 && forall i :: 0 <= i < |v| ==> IsValueChar(v[i])
    requires |y| > 0 && PlainTail(y)
    ensures var once := SanitizeText(Str(Quoted(k) + ":" + v + "\"" + y));
      SanitizeText(Str(once)) != once
  {
    InnerQuoteOnce(k, v, y);
    InnerQuoteTwice(k, y);
    assert |Quoted(k) + ":" + Redacted| < |Quoted(k) + ":" + Redacted + y|;
  }

  // ---------------------------------------------------------------------------
  // Which keys are sensitive

  /** The key test is a substring test: `passenger` counts, for its `pass`, */
  lemma PassengerIsSensitive()
    ensures SensitiveKey("passenger")
  {
    WordMakesKeySensitive("passenger", 0, "pass");
  }

  /** as does `bypass`, where the word is not at the start, */
  lemma BypassIsSensitive()
    ensures SensitiveKey("bypass")
  {
    WordMakesKeySensitive("bypass", 2, "pass");
  }

  /** and the test ignores case: `apiKey` matches `api[_-]?key`. */
  lemma ApiKeyIsSensitive()
    ensures SensitiveKey("apiKey")
  {
    WordMakesKeySensitive("apiKey", 0, "apikey");
  }

  lemma WordMakesKeySensitive(key: string, p: nat, w: string)
    requires p < |key| && w in Vocabulary && WordAt(key, p, w)
    ensures SensitiveKey(key)
  {
    assert AnyWordAt(key, p);
  }

  /** Array indices, the keys `Object.entries` gives the elements of an
      array, are never sensitive. */
  lemma IndexKeysNotSensitive(n: nat)
    ensures !SensitiveKey(NatToString(n))
  {
    var s := NatToString(n);
    VocabularyIsWords();
    forall p, w | 0 <= p < |s| && w in Vocabulary ensures !WordAt(s, p, w) {
      assert IsWord(w);
      assert LowerChar(s[p]) != w[0];
    }
  }

  // ---------------------------------------------------------------------------
  // sanitizeArray

  /** `sanitizeArray(value)` (lines 32-35): the texts of the entries of an
      array, without the empty ones; anything else gives the empty list. */
  function SanitizeArray(v: Json): (r: seq<string>)
    ensures !v.Arr? ==> |r| == 0
    ensures v.Arr? ==> |r| <= |v.items|
    ensures forall i :: 0 <= i < |r| ==> |r[i]| > 0
  {
    if v.Arr? then SanitizeEntries(v.items) else []
  }

  /** `items.map(sanitizeText).filter(Boolean)` */
  function SanitizeEntries(items: seq<Json>): (r: seq<string>)
    ensures |r| <= |items|
    ensures forall i :: 0 <= i < |r| ==> |r[i]| > 0
  {
    DropEmpty(Texts(items))
  }

  /** `items.map(sanitizeText)` */
  function Texts(items: seq<Json>): (r: seq<string>)
    ensures |r| == |items|
    ensures forall i :: 0 <= i < |items| ==> r[i] == SanitizeText(items[i])
  {
    seq(|items|, i requires 0 <= i < |items| => SanitizeText(items[i]))
  }

  /** `filter(Boolean)` on texts: the empty string is the only falsy one. */
  function DropEmpty(texts: seq<string>): (r: seq<string>)
    ensures |r| <= |texts|
    ensures forall i :: 0 <= i < |r| ==> |r[i]| > 0
  {
    if |texts| == 0 then [] else Kept(texts[0]) + DropEmpty(texts[1..])
  }

  /** `filter(Boolean)` on one text. */
  function Kept(text: string): (r: seq<string>)
    ensures |text| > 0 ==> r == [text]
    ensures |text| == 0 ==> r == []
  {
    if |text| == 0 then [] else [text]
  }

  lemma {:induction false} DropEmptyAppend(a: seq<string>, b: seq<string>)
    ensures DropEmpty(a + b) == DropEmpty(a) + DropEmpty(b)
    decreases |a|
  {
    if |a| == 0 {
      assert a + b == b;
    } else {
      assert (a + b)[0] == a[0] && (a + b)[1..] == a[1..] + b;
      DropEmptyAppend(a[1..], b);
      Associate(Kept(a[0]), DropEmpty(a[1..]), DropEmpty(b));
    }
  }

  lemma {:induction false} DropEmptyMembers(texts: seq<string>, t: string)
    ensures t in DropEmpty(texts) <==> |t| > 0 && t in texts
    decreases |texts|
  {
    if |texts| > 0 {
      DropEmptyMembers(texts[1..], t);
      assert texts == [texts[0]] + texts[1..];
    }
  }

  lemma {:induction false} DropEmptyKeepsAll(texts: seq<string>)
    requires forall i :: 0 <= i < |texts| ==> |texts[i]| > 0
    ensures DropEmpty(texts) == texts
    decreases |texts|
  {
    if |texts| > 0 {
      DropEmptyKeepsAll(texts[1..]);
      assert texts == [texts[0]] + texts[1..];
    }
  }

  /** One entry is kept, as its text, exactly when its text is not empty. */
  lemma SanitizeEntriesSingle(x: Json)
    ensures |SanitizeText(x)| > 0 ==> SanitizeEntries([x]) == [SanitizeText(x)]
    ensures |SanitizeText(x)| == 0 ==> SanitizeEntries([x]) == []
  {
    var texts := Texts([x]);
    assert texts == [SanitizeText(x)] && texts[1..] == [];
  }

  /** Filtering works entry by entry: the entries of a joined list are the
      entries of its two parts, in order. Together with `SanitizeEntriesSingle`
      this determines the result for every list. */
  lemma SanitizeEntriesAppend(a: seq<Json>, b: seq<Json>)
    ensures SanitizeEntries(a + b) == SanitizeEntries(a) + SanitizeEntries(b)
  {
    var ta, tb, tab := Texts(a), Texts(b), Texts(a + b);
    forall i | 0 <= i < |tab| ensures tab[i] == (ta + tb)[i] {
      if i < |a| {
        assert (a + b)[i] == a[i];
      } else {
        assert (a + b)[i] == b[i - |a|];
      }
    }
    assert tab == ta + tb;
    DropEmptyAppend(ta, tb);
  }

  /** The kept texts are exactly the non-empty texts of the entries. */
  lemma SanitizeEntriesMembers(items: seq<Json>, t: string)
    ensures t in SanitizeEntries(items) <==>
      |t| > 0 && exists i :: 0 <= i < |items| && SanitizeText(items[i]) == t
  {
    var texts := Texts(items);
    DropEmptyMembers(texts, t);
    if t in texts {
      var i :| 0 <= i < |texts| && texts[i] == t;
      assert SanitizeText(items[i]) == t;
    }
  }

  /** Only entries whose text is empty are dropped: a list of non-empty
      strings keeps every entry, in order, each sanitized. */
  lemma SanitizeArrayKeepsNonEmptyStrings(items: seq<Json>)
    requires forall i :: 0 <= i < |items| ==> items[i].Str? && |items[i].s| > 0
    ensures |SanitizeArray(Arr(items))| == |items|
    ensures forall i :: 0 <= i < |items| ==> SanitizeArray(Arr(items))[i] == SanitizeText(items[i])
  {
    var texts := Texts(items);
    forall i | 0 <= i < |items| ensures |texts[i]| > 0 {
      assert Truthy(items[i]);
    }
    DropEmptyKeepsAll(texts);
  }

  /** A string of white space is truthy and survives: `["", "  "]` gives
      `["  "]`, not the empty list. */
  lemma WhitespaceEntrySurvives()
    ensures SanitizeArray(Arr([Str(""), Str("  ")])) == ["  "]
  {
    var blank := "  ";
    NoSeparatorUnchanged(KeyValue, blank);
    NoSeparatorUnchanged(EnvAssignment, blank);
    SanitizeTextSteps(blank, blank, blank);
    assert SanitizeText(Str(blank)) == blank;
    assert SanitizeText(Str("")) == "";
    var texts := Texts([Str(""), Str(blank)]);
    assert texts == ["", blank] && texts[1..] == [blank] && texts[1..][1..] == [];
  }
}
