/** Recovering the media URL from the `style` attribute of an item's
    `js-media-image-link` element, as
    `re.match(r'background-image:\s*url\("?(.*?)\?', style).group(1)` does:
    the match is anchored at the start, `\s` is Python's notion of
    whitespace, the quote is optional, and the capture is the shortest run of
    non-newline characters that is followed by a `?`. */
module ImageUrl {
  import opened Wrappers

  const Prefix: string := "background-image:"
  const Opener: string := "url("

  /** Python's `\s` on `str` patterns (the characters for which
      `str.isspace()` holds). */
  predicate IsSpace(c: char)
  {
    var n := c as int;
    (0x09 <= n <= 0x0D) || (0x1C <= n <= 0x20) || n == 0x85 || n == 0xA0 || n == 0x1680
    || (0x2000 <= n <= 0x200A) || n == 0x2028 || n == 0x2029 || n == 0x202F
    || n == 0x205F || n == 0x3000
  }

  /** The ways the pattern can match at the start of `s`: the whitespace of
      `\s*` is s[|Prefix|..a], `url(` sits at a, the optional `"` is
      s[a + 4..b], the capture `(.*?)` is s[b..e] and the `?` is s[e]. */
  predicate MatchesAt(s: string, a: nat, b: nat, e: nat)
  {
    && |Prefix| <= a && a + |Opener| <= b <= e < |s|
    && s[..|Prefix|] == Prefix
    && (forall k :: |Prefix| <= k < a ==> IsSpace(s[k]))
    && s[a..a + |Opener|] == Opener
    && (b == a + |Opener| || (b == a + |Opener| + 1 && s[a + |Opener|] == '"'))
    && (forall k :: b <= k < e ==> s[k] != '\n')
    && s[e] == '?'
  }

  /** `\s*`, greedily: the end of the run of whitespace that starts at i. */
  function SkipSpaces(s: string, i: nat): (j: nat)
    requires i <= |s|
    ensures i <= j <= |s|
    ensures forall k :: i <= k < j ==> IsSpace(s[k])
    ensures j == |s| || !IsSpace(s[j])
    decreases |s| - i
  {
    if i < |s| && IsSpace(s[i]) then SkipSpaces(s, i + 1) else i
  }

  /** `(.*?)\?` from i: the first `?` at or after i, unless a newline (which
      `.` does not match) or the end of the string comes first. */
  function FirstQuestion(s: string, i: nat): (r: Option<nat>)
    requires i <= |s|
    ensures r.Some? ==> i <= r.value < |s| && s[r.value] == '?'
    ensures r.Some? ==> forall k :: i <= k < r.value ==> s[k] != '?' && s[k] != '\n'
    ensures r.None? ==>
              forall j :: i <= j < |s| && s[j] == '?' ==> !(forall k :: i <= k < j ==> s[k] != '\n')
    decreases |s| - i
  {
    if i == |s| || s[i] == '\n' then None
    else if s[i] == '?' then Some(i)
    else FirstQuestion(s, i + 1)
  }

  /** Any match has its `url(` right after the whole run of whitespace. */
  lemma MatchFollowsSpaces(s: string, a: nat, b: nat, e: nat)
    requires MatchesAt(s, a, b, e)
    ensures a == SkipSpaces(s, |Prefix|)
  {
    var a0 := SkipSpaces(s, |Prefix|);
    assert s[a] == s[a..a + |Opener|][0] == 'u';
    assert !IsSpace(s[a]);
    assert a0 < |s| ==> !IsSpace(s[a0]);
  }

  /** A `?` at e reachable from i without crossing a newline is found, or
      an earlier one is. */
  lemma {:induction false} FirstQuestionFinds(s: string, i: nat, e: nat)
    requires i <= e < |s| && s[e] == '?'
    requires forall k :: i <= k < e ==> s[k] != '\n'
    ensures FirstQuestion(s, i).Some? && FirstQuestion(s, i).value <= e
    decreases e - i
  {
    if s[i] != '?' {
      FirstQuestionFinds(s, i + 1, e);
    }
  }

  /** Where the optional `"` leaves the capture to start: after the quote
      when there is one (the greedy choice). */
  function CaptureStart(s: string, a: nat): (b: nat)
  {
    var b0 := a + |Opener|;
    if b0 < |s| && s[b0] == '"' then b0 + 1 else b0
  }

  /** The match Python's backtracking engine reports, as positions (a, b, e)
      in the sense of MatchesAt. It is the first of all matches in the
      engine's order of preference: the greedy `\s*` and `"?` as long as
      possible, the lazy capture as short as possible. */
  function Locate(s: string): (r: Option<(nat, nat, nat)>)
    ensures r.Some? ==> MatchesAt(s, r.value.0, r.value.1, r.value.2)
    ensures r.Some? ==>
              forall a: nat, b: nat, e: nat :: MatchesAt(s, a, b, e) ==>
                a == r.value.0 && b <= r.value.1 && (b == r.value.1 ==> r.value.2 <= e)
  {
    if |s| < |Prefix| || s[..|Prefix|] != Prefix then None
    else
      var a := SkipSpaces(s, |Prefix|);
      if |s| < a + |Opener| || s[a..a + |Opener|] != Opener then None
      else
        var b := CaptureStart(s, a);
        match FirstQuestion(s, b)
        case None => None
        case Some(e) =>
          assert forall a': nat, b': nat, e': nat :: MatchesAt(s, a', b', e') ==>
                   a' == a && b' <= b && (b' == b ==> e <= e') by {
            forall a': nat, b': nat, e': nat | MatchesAt(s, a', b', e')
              ensures a' == a && b' <= b && (b' == b ==> e <= e')
            {
              MatchFollowsSpaces(s, a', b', e');
              if b' == b {
                FirstQuestionFinds(s, b, e');
              }
            }
          }
          Some((a, b, e))
  }

  /** Whenever the pattern can match at all, Locate reports a match: the
      greedy choices never have to be undone, because a `"` is neither a
      `?` nor a newline. */
  lemma LocateComplete(s: string, a: nat, b: nat, e: nat)
    requires MatchesAt(s, a, b, e)
    ensures Locate(s).Some?
  {
    MatchFollowsSpaces(s, a, b, e);
    var bg := CaptureStart(s, a);
    if b < bg {
      assert s[b] == '"';
    }
    FirstQuestionFinds(s, bg, e);
  }

  /** The image URL of a `style` attribute, or None when the pattern does not
      match. A URL found holds neither a `?` nor a newline, and the style
      starts with `background-image:`. */
  function ExtractImageUrl(style: string): (r: Option<string>)
    ensures r.Some? ==> '?' !in r.value && '\n' !in r.value
    ensures r.Some? ==> |style| >= |Prefix| && style[..|Prefix|] == Prefix
  {
    match Locate(style)
    case None => None
    case Some((_, b, e)) => Some(style[b..e])
  }

  /** The extraction succeeds exactly when the pattern matches, and what it
      returns is the capture group of the match the engine prefers. */
  lemma ExtractIsPreferredCapture(style: string, a: nat, b: nat, e: nat)
    requires MatchesAt(style, a, b, e)
    ensures ExtractImageUrl(style).Some?
    ensures exists a0: nat, b0: nat, e0: nat ::
              MatchesAt(style, a0, b0, e0) && style[b0..e0] == ExtractImageUrl(style).value
              && a0 == a && b <= b0 && (b == b0 ==> e0 <= e)
  {
    LocateComplete(style, a, b, e);
    var loc := Locate(style).value;
    assert MatchesAt(style, loc.0, loc.1, loc.2);
  }

  /** Conversely, a result is only ever the capture of some match. */
  lemma ExtractOnlyOnMatch(style: string)
    requires ExtractImageUrl(style).Some?
    ensures exists a: nat, b: nat, e: nat ::
              MatchesAt(style, a, b, e) && style[b..e] == ExtractImageUrl(style).value
  {
    var loc := Locate(style).value;
    assert MatchesAt(style, loc.0, loc.1, loc.2);
  }

  /** The pattern's `(.*?)\?` stops at the `?` at e when none comes
      earlier and no newline is crossed. */
  lemma FirstQuestionIs(s: string, i: nat, e: nat)
    requires i <= e < |s| && s[e] == '?'
    requires forall k :: i <= k < e ==> s[k] != '?' && s[k] != '\n'
    ensures FirstQuestion(s, i) == Some(e)
  {
  }

  /** The attribute shape the scraper meets on a media link,
      `background-image: url("https://x/img.jpg?format=jpg")`: the URL stops
      before its query string. */
  lemma QuotedUrlStopsAtQuery()
    ensures ExtractImageUrl(Prefix + " " + Opener + "\"https://x/img.jpg" + "?format=jpg\")")
            == Some("https://x/img.jpg")
  {
    var url := "\"https://x/img.jpg";
    var s := Prefix + " " + Opener + url + "?format=jpg\")";
    assert s[..|Prefix|] == Prefix;
    assert s[17] == ' ' && s[18] == 'u';
    assert SkipSpaces(s, 17) == 18;
    assert s[18..22] == Opener;
    assert forall k :: 22 <= k < 40 ==> s[k] == url[k - 22];
    assert s[22] == '"' && s[40] == '?';
    FirstQuestionIs(s, 23, 40);
    assert s[23..40] == url[1..];
  }

  /** `background-image:url(https://x/a.png?x)`: without the quote, and with
      no space after the colon, the URL is found the same way. */
  lemma UnquotedUrlStopsAtQuery()
    ensures ExtractImageUrl(Prefix + Opener + "https://x/a.png" + "?x)") == Some("https://x/a.png")
  {
    var url := "https://x/a.png";
    var s := Prefix + Opener + url + "?x)";
    assert s[..|Prefix|] == Prefix;
    assert s[17] == 'u';
    assert SkipSpaces(s, 17) == 17;
    assert s[17..21] == Opener;
    assert forall k :: 21 <= k < 36 ==> s[k] == url[k - 21];
    assert s[21] == 'h' && s[36] == '?';
    FirstQuestionIs(s, 21, 36);
    assert s[21..36] == url;
  }

  /** `background-image: url("https://x/img.jpg")`: a URL with no query
      string does not match at all, so the item gets no image URL. */
  lemma UrlWithoutQueryIsNone()
    ensures ExtractImageUrl(Prefix + " " + Opener + "\"https://x/img.jpg" + "\")") == None
  {
    var url := "\"https://x/img.jpg";
    var s := Prefix + " " + Opener + url + "\")";
    assert forall k :: 0 <= k < 17 ==> s[k] == Prefix[k];
    assert forall k :: 18 <= k < 22 ==> s[k] == Opener[k - 18];
    assert forall k :: 22 <= k < 40 ==> s[k] == url[k - 22];
    assert s[17] == ' ' && s[40] == '"' && s[41] == ')' && |s| == 42;
    assert forall k :: 0 <= k < |s| ==> s[k] != '?';
  }

  /** `width: 1px; background-image: url("https://x/i.jpg?a")`: the match is
      anchored, so text before `background-image:` prevents it. */
  lemma AnchoredAtStart()
    ensures ExtractImageUrl("width: 1px; " + Prefix + " " + Opener + "\"https://x/i.jpg?a\")") == None
  {
    var s := "width: 1px; " + Prefix + " " + Opener + "\"https://x/i.jpg?a\")";
    assert s[0] == 'w';
    assert |s| >= |Prefix| ==> s[..|Prefix|][0] != Prefix[0];
  }
}
