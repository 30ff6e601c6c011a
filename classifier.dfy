/**
 * The content classifier: `URL_REGEX` with `contains_url`, the `t.me/`
 * substring test `contains_tme_link`, and the first-match keyword search
 * `contains_banned_keyword`. All three are pure and compare case-insensitively
 * (ASCII case folding only).
 */
module Classifier {
  import opened Wrappers
  import opened Text

  // ---------------------------------------------------------------------
  // URL_REGEX
  // ---------------------------------------------------------------------

  /** `lit`, written in lower case, stands at index `i` of `s`, ignoring case. */
  predicate LiteralAt(s: string, i: nat, lit: string) {
    i + |lit| <= |s| && Lower(s[i..i + |lit|]) == lit
  }

  /** The class `[^\s]` matches the character at index `i`. */
  predicate NonSpaceAt(s: string, i: nat) {
    i < |s| && !IsSpace(s[i])
  }

  /** The fourth alternative `[^\s]+\.[a-z]{2,}`, anchored at the last
      character before the dot: a search finds it exactly when some such
      anchor exists, because `[^\s]+` may shrink to that one character and
      `[a-z]{2,}` to two letters. */
  predicate DomainAt(s: string, i: nat) {
    i + 3 < |s| && !IsSpace(s[i]) && s[i + 1] == '.'
    && IsAsciiLetter(s[i + 2]) && IsAsciiLetter(s[i + 3])
  }

  /** One of the four alternatives of `URL_REGEX` matches at index `i`
      (`https?://`, `www\.` and `t\.me/` each followed by one non-whitespace
      character, which is all `[^\s]+` needs). */
  predicate UrlAt(s: string, i: nat) {
    || (LiteralAt(s, i, "http://") && NonSpaceAt(s, i + 7))
    || (LiteralAt(s, i, "https://") && NonSpaceAt(s, i + 8))
    || (LiteralAt(s, i, "www.") && NonSpaceAt(s, i + 4))
    || (LiteralAt(s, i, "t.me/") && NonSpaceAt(s, i + 5))
    || DomainAt(s, i)
  }

  /** `re.search`: tries every start position from `i` on, left to right. */
  function SearchFrom(s: string, i: nat): (found: bool)
    requires i <= |s|
    ensures found <==> exists k :: i <= k < |s| && UrlAt(s, k)
    decreases |s| - i
  {
    i < |s| && (UrlAt(s, i) || SearchFrom(s, i + 1))
  }

  /** `contains_url`: the pattern matches somewhere in the text. */
  function ContainsUrl(text: string): (r: bool)
    ensures r <==> exists k :: 0 <= k < |text| && UrlAt(text, k)
  {
    SearchFrom(text, 0)
  }

  /** `contains_tme_link`: `"t.me/" in text.lower()`. */
  function ContainsTmeLink(text: string): (r: bool)
    ensures r <==> Occurs("t.me/", Lower(text))
  {
    ContainsIsOccurs(Lower(text), "t.me/");
    Contains(Lower(text), "t.me/")
  }

  lemma LowerIsLetter(c: char, d: char)
    requires LowerChar(c) == d && 'a' <= d <= 'z'
    ensures IsAsciiLetter(c) && !IsSpace(c)
  {
  }

  /** Every text with a `t.me/` link is also caught by `URL_REGEX`: the
      `t.me` part alone matches `[^\s]+\.[a-z]{2,}`, so the second test of
      the handler's `contains_url(text) or contains_tme_link(text)` never
      changes its outcome. */
  lemma {:induction false} TmeLinkIsUrl(text: string)
    requires ContainsTmeLink(text)
    ensures ContainsUrl(text)
  {
    var low := Lower(text);
    ContainsIsOccurs(low, "t.me/");
    var p :| OccursAt("t.me/", low, p);
    assert low[p..p + 5][0] == low[p] == 't';
    assert low[p..p + 5][1] == low[p + 1] == '.';
    assert low[p..p + 5][2] == low[p + 2] == 'm';
    assert low[p..p + 5][3] == low[p + 3] == 'e';
    LowerIsLetter(text[p], 't');
    LowerIsLetter(text[p + 2], 'm');
    LowerIsLetter(text[p + 3], 'e');
    assert text[p + 1] == '.';
    assert DomainAt(text, p);
    assert UrlAt(text, p);
  }

  /** A literal written in lower case in the text matches case-insensitively. */
  lemma LowerLiteralAt(s: string, i: nat, lit: string)
    requires i + |lit| <= |s| && s[i..i + |lit|] == lit
    requires forall k :: 0 <= k < |lit| ==> !('A' <= lit[k] <= 'Z')
    ensures LiteralAt(s, i, lit)
  {
    var low := Lower(s[i..i + |lit|]);
    assert forall k :: 0 <= k < |lit| ==> low[k] == LowerChar(lit[k]) == lit[k];
  }

  lemma ExampleParts()
    ensures "http://example.com"[..7] == "http://" && "http://example.com"[7] == 'e'
  {
  }

  /** Any text holding `http://example.com` is flagged as a URL. */
  lemma {:induction false} ExampleUrlDetected(text: string)
    requires Occurs("http://example.com", text)
    ensures ContainsUrl(text)
  {
    var i :| OccursAt("http://example.com", text, i);
    var w := text[i..i + 18];
    assert w == "http://example.com";
    ExampleParts();
    assert text[i..i + 7] == w[..7];
    LowerLiteralAt(text, i, "http://");
    assert text[i + 7] == w[7];
    assert NonSpaceAt(text, i + 7);
    assert UrlAt(text, i);
  }

  /** The pattern is broad on purpose: a file name such as `file.txt` is
      flagged like a domain. */
  lemma FileNameFlagged()
    ensures ContainsUrl("see file.txt")
  {
    assert DomainAt("see file.txt", 7);
  }

  /** A character of a matched literal that is not a letter matches itself. */
  lemma LiteralCharAt(s: string, i: nat, lit: string, j: nat)
    requires LiteralAt(s, i, lit) && j < |lit| && !IsAsciiLetter(lit[j])
    ensures s[i + j] == lit[j]
  {
    assert Lower(s[i..i + |lit|])[j] == LowerChar(s[i + j]);
  }

  lemma NoUrlAt(text: string, k: nat)
    requires '.' !in text && ':' !in text && k < |text|
    ensures !UrlAt(text, k)
  {
    if LiteralAt(text, k, "http://") {
      LiteralCharAt(text, k, "http://", 4);
    }
    if LiteralAt(text, k, "https://") {
      LiteralCharAt(text, k, "https://", 5);
    }
    if LiteralAt(text, k, "www.") {
      LiteralCharAt(text, k, "www.", 3);
    }
    if LiteralAt(text, k, "t.me/") {
      LiteralCharAt(text, k, "t.me/", 1);
    }
  }

  /** Every alternative of the pattern needs a `.` or a `:` in the text, so a
      text with neither is never flagged. */
  lemma {:induction false} UrlNeedsDotOrColon(text: string)
    requires '.' !in text && ':' !in text
    ensures !ContainsUrl(text)
  {
    forall k | 0 <= k < |text| ensures !UrlAt(text, k) {
      NoUrlAt(text, k);
    }
  }

  // ---------------------------------------------------------------------
  // contains_banned_keyword
  // ---------------------------------------------------------------------

  /** `kw.lower() in text.lower()`. */
  ghost predicate Mentions(text: string, kw: string) {
    Occurs(Lower(kw), Lower(text))
  }

  /** The loop of `contains_banned_keyword` from position `from` of the list. */
  function ScanKeywords(text: string, keywords: seq<string>, from: nat): (r: Option<string>)
    requires from <= |keywords|
    ensures r.None? <==> forall j :: from <= j < |keywords| ==> !Mentions(text, keywords[j])
    ensures r.Some? ==> exists k :: from <= k < |keywords| && keywords[k] == r.value
                                    && Mentions(text, keywords[k])
                                    && forall j :: from <= j < k ==> !Mentions(text, keywords[j])
    decreases |keywords| - from
  {
    if from == |keywords| then None
    else
      ContainsIsOccurs(Lower(text), Lower(keywords[from]));
      if Contains(Lower(text), Lower(keywords[from])) then Some(keywords[from])
      else ScanKeywords(text, keywords, from + 1)
  }

  /** `contains_banned_keyword`: the first keyword, in list order and in its
      configured spelling, whose lower-case form occurs in the lower-cased
      text; `None` exactly when no keyword occurs. */
  function FindBannedKeyword(text: string, keywords: seq<string>): (r: Option<string>)
    ensures r.None? <==> forall j :: 0 <= j < |keywords| ==> !Mentions(text, keywords[j])
    ensures r.Some? ==> exists k :: 0 <= k < |keywords| && keywords[k] == r.value
                                    && Mentions(text, keywords[k])
                                    && forall j :: 0 <= j < k ==> !Mentions(text, keywords[j])
  {
    ScanKeywords(text, keywords, 0)
  }
}
