// The result post-processing of the Exa search client
// (app/api/lib/services/exa.ts) and of the academic tool of
// app/api/search/route.ts. The network call is not modelled: the raw
// results it returns are the input. Score, image, favicon, highlights and
// sub-pages are copied through by the source and left out here.

module Exa {
  import opened Opt
  import opened Strings
  import opened Seqs

  /** `s || fallback` for an optional string: a missing or empty value
      gives the fallback. */
  function OrElse(s: Option<string>, fallback: string): (r: string)
    ensures s.Some? && s.value != "" ==> r == s.value
    ensures !(s.Some? && s.value != "") ==> r == fallback
  {
    if s.Some? && s.value != "" then s.value else fallback
  }

  /** A result as the search service returns it; any field may be missing. */
  datatype RawResult = RawResult(id: Option<string>, title: Option<string>, url: Option<string>,
                                 author: Option<string>, text: Option<string>, summary: Option<string>)

  /** A cleaned result. */
  datatype ExaResult = ExaResult(id: string, title: string, url: string, author: Option<string>,
                                 text: string, summary: Option<string>, tweetId: Option<string>)

  // ---------------------------------------------------------------------
  // extractTweetId: /(?:twitter\.com|x\.com)\/\w+\/status\/(\d+)/

  predicate IsWordChar(c: char)
  {
    'a' <= c <= 'z' || 'A' <= c <= 'Z' || '0' <= c <= '9' || c == '_'
  }

  /** The length of the run of `\w` characters `s` starts with. */
  function WordRun(s: string): (n: nat)
    ensures n <= |s|
    decreases |s|
  {
    if |s| > 0 && IsWordChar(s[0]) then 1 + WordRun(s[1..]) else 0
  }

  /** The length of the run of digits `s` starts with. */
  function DigitsRun(s: string): (n: nat)
    ensures n <= |s|
    decreases |s|
  {
    if |s| > 0 && IsDigit(s[0]) then 1 + DigitsRun(s[1..]) else 0
  }

  const TwitterHost := "twitter.com/"
  const XHost := "x.com/"
  const StatusPart := "/status/"

  /** The length of the host alternative `s` starts with, 0 for neither. */
  function HostLength(s: string): nat
  {
    if StartsWith(s, TwitterHost) then |TwitterHost|
    else if StartsWith(s, XHost) then |XHost|
    else 0
  }

  /** The pattern matched at the start of `s`: the host, then the rest of
      the pattern. */
  function MatchHere(s: string): Option<string>
  {
    if HostLength(s) == 0 then None else MatchAfterHostPart(s[HostLength(s)..])
  }

  /** A non-empty word (which cannot give characters back, since '/' is
      not one) and '/status/', then the id. */
  function MatchAfterHostPart(rest: string): Option<string>
  {
    var w := WordRun(rest);
    if w == 0 || !StartsWith(rest[w..], StatusPart) then None
    else MatchDigits(rest[w + |StatusPart|..])
  }

  /** The longest run of at least one digit, which is captured. */
  function MatchDigits(digits: string): Option<string>
  {
    var d := DigitsRun(digits);
    if d == 0 then None else Some(digits[..d])
  }

  /** The capture of the leftmost match, `None` (null) when there is none. */
  function ExtractTweetId(url: string): Option<string>
    decreases |url|
  {
    var here := MatchHere(url);
    if here.Some? then here
    else if url == [] then None
    else ExtractTweetId(url[1..])
  }

  /** The pattern matches at none of the first `k` positions of `url`. */
  predicate NoMatchBefore(url: string, k: int)
    requires k <= |url| + 1
  {
    forall j :: 0 <= j < k ==> MatchHere(url[j..]).None?
  }

  /** The search is the leftmost match: when nothing is found, the pattern
      matches at no position. */
  lemma {:induction false} ExtractTweetIdNone(url: string)
    requires ExtractTweetId(url).None?
    ensures NoMatchBefore(url, |url| + 1)
    decreases |url|
  {
    assert url[0..] == url;
    if url != [] {
      ExtractTweetIdNone(url[1..]);
      NoMatchShift(url, |url|);
    }
  }

  /** The search is the leftmost match: a found id is the capture at the
      first position where the pattern matches. */
  lemma {:induction false} ExtractTweetIdLeftmost(url: string)
    requires ExtractTweetId(url).Some?
    ensures exists k :: 0 <= k <= |url| && MatchHere(url[k..]) == ExtractTweetId(url) && NoMatchBefore(url, k)
    decreases |url|
  {
    assert url[0..] == url;
    if MatchHere(url).Some? {
      assert NoMatchBefore(url, 0);
    } else {
      ExtractTweetIdLeftmost(url[1..]);
      var k :| 0 <= k <= |url[1..]| && MatchHere(url[1..][k..]) == ExtractTweetId(url) && NoMatchBefore(url[1..], k);
      assert url[1..][k..] == url[k + 1..];
      NoMatchShift(url, k);
    }
  }

  lemma NoMatchShift(url: string, k: int)
    requires url != [] && 0 <= k <= |url|
    requires MatchHere(url).None? && NoMatchBefore(url[1..], k)
    ensures NoMatchBefore(url, k + 1)
  {
    assert url[0..] == url;
    forall j | 1 <= j < k + 1
      ensures MatchHere(url[j..]).None?
    {
      assert url[1..][j - 1..] == url[j..];
    }
  }

  /** The canonical status link of a post yields its numeric id. */
  lemma StatusLinkTweetId(host: string, user: string, id: string, tail: string)
    requires host == TwitterHost || host == XHost
    requires |user| > 0 && forall i :: 0 <= i < |user| ==> IsWordChar(user[i])
    requires |id| > 0 && forall i :: 0 <= i < |id| ==> IsDigit(id[i])
    requires tail == [] || !IsDigit(tail[0])
    ensures ExtractTweetId("https://" + host + user + StatusPart + id + tail) == Some(id)
  {
    var s := host + user + StatusPart + id + tail;
    MatchAfterHost(host, user, id, tail);
    MatchFirst(s);
    SchemeSkipped(s);
    PrependRegroup("https://", host, user, StatusPart, id, tail);
  }

  /** A match at the start is the leftmost one. */
  lemma MatchFirst(s: string)
    requires MatchHere(s).Some?
    ensures ExtractTweetId(s) == MatchHere(s)
  {
  }

  /** No match starts inside 'https://'. */
  lemma SchemeSkipped(s: string)
    ensures ExtractTweetId("https://" + s) == ExtractTweetId(s)
  {
    SkipPrefix("https://", s);
  }

  /** Where no match starts, the search moves one character on. */
  lemma SkipOne(t: string)
    requires t != [] && HostLength(t) == 0
    ensures ExtractTweetId(t) == ExtractTweetId(t[1..])
  {
  }

  /** No host alternative starts anywhere in `p`: no 'x', and every 't'
      is followed, inside `p`, by something other than 'w'. */
  predicate NoHostStart(p: string)
    decreases |p|
  {
    p == [] || (p[0] != 'x' && (p[0] == 't' ==> |p| > 1 && p[1] != 'w') && NoHostStart(p[1..]))
  }

  /** A prefix in which no host alternative can start is passed over. */
  lemma {:induction false} SkipPrefix(p: string, s: string)
    requires NoHostStart(p)
    ensures ExtractTweetId(p + s) == ExtractTweetId(s)
    decreases |p|
  {
    if p != [] {
      SkipStep(p, s);
      SkipPrefix(p[1..], s);
    } else {
      assert p + s == s;
    }
  }

  /** One step of `SkipPrefix`. */
  lemma SkipStep(p: string, s: string)
    requires p != [] && p[0] != 'x' && (p[0] == 't' ==> |p| > 1 && p[1] != 'w')
    ensures ExtractTweetId(p + s) == ExtractTweetId(p[1..] + s)
  {
    var t := p + s;
    assert t[0] == p[0];
    NotStartsWith(t, XHost, 0);
    if t[0] == 't' {
      assert t[1] == p[1];
      NotStartsWith(t, TwitterHost, 1);
    } else {
      NotStartsWith(t, TwitterHost, 0);
    }
    SkipOne(t);
    assert t[1..] == p[1..] + s;
  }

  /** The pattern matches at the host and captures the id. */
  lemma MatchAfterHost(host: string, user: string, id: string, tail: string)
    requires host == TwitterHost || host == XHost
    requires |user| > 0 && forall i :: 0 <= i < |user| ==> IsWordChar(user[i])
    requires |id| > 0 && forall i :: 0 <= i < |id| ==> IsDigit(id[i])
    requires tail == [] || !IsDigit(tail[0])
    ensures MatchHere(host + user + StatusPart + id + tail) == Some(id)
  {
    var rest := user + (StatusPart + (id + tail));
    MatchUserPart(user, id, tail);
    HostLengthOf(host, rest);
    assert (host + rest)[|host|..] == rest;
    Regroup(host, user, StatusPart, id, tail);
  }

  /** Concatenation with a prefix, stated on opaque pieces. */
  lemma PrependRegroup<T>(p: seq<T>, a: seq<T>, b: seq<T>, c: seq<T>, d: seq<T>, e: seq<T>)
    ensures p + a + b + c + d + e == p + (a + b + c + d + e)
  {
  }

  /** Concatenation regrouped to the right, stated on opaque pieces so the
      solver need not look inside literals. */
  lemma Regroup<T>(a: seq<T>, b: seq<T>, c: seq<T>, d: seq<T>, e: seq<T>)
    ensures a + b + c + d + e == a + (b + (c + (d + e)))
  {
  }

  lemma MatchUserPart(user: string, id: string, tail: string)
    requires |user| > 0 && forall i :: 0 <= i < |user| ==> IsWordChar(user[i])
    requires |id| > 0 && forall i :: 0 <= i < |id| ==> IsDigit(id[i])
    requires tail == [] || !IsDigit(tail[0])
    ensures MatchAfterHostPart(user + (StatusPart + (id + tail))) == Some(id)
  {
    var after := StatusPart + (id + tail);
    var rest := user + after;
    WordRunStops(user, after);
    assert rest[|user|..] == after;
    assert after[..|StatusPart|] == StatusPart;
    assert rest[|user| + |StatusPart|..] == id + tail;
    MatchIdPart(id, tail);
  }

  lemma MatchIdPart(id: string, tail: string)
    requires |id| > 0 && forall i :: 0 <= i < |id| ==> IsDigit(id[i])
    requires tail == [] || !IsDigit(tail[0])
    ensures MatchDigits(id + tail) == Some(id)
  {
    DigitsRunStops(id, tail);
    assert (id + tail)[..|id|] == id;
  }

  lemma NotStartsWith(s: string, p: string, i: int)
    requires 0 <= i < |p| && i < |s| && s[i] != p[i]
    ensures !StartsWith(s, p)
  {
  }

  lemma HostLengthOf(host: string, rest: string)
    requires host == TwitterHost || host == XHost
    ensures HostLength(host + rest) == |host|
  {
    var s := host + rest;
    assert s[..|host|] == host;
    if host == XHost {
      assert s[0] == host[0];
      NotStartsWith(s, TwitterHost, 0);
    }
  }

  lemma {:induction false} WordRunStops(w: string, rest: string)
    requires forall i :: 0 <= i < |w| ==> IsWordChar(w[i])
    requires rest == [] || !IsWordChar(rest[0])
    ensures WordRun(w + rest) == |w|
  {
    if w != [] {
      assert (w + rest)[1..] == w[1..] + rest;
      WordRunStops(w[1..], rest);
    }
  }

  lemma {:induction false} DigitsRunStops(d: string, rest: string)
    requires forall i :: 0 <= i < |d| ==> IsDigit(d[i])
    requires rest == [] || !IsDigit(rest[0])
    ensures DigitsRun(d + rest) == |d|
  {
    if d != [] {
      assert (d + rest)[1..] == d[1..] + rest;
      DigitsRunStops(d[1..], rest);
    }
  }

  lemma {:induction false} DigitsRunAreDigits(s: string)
    ensures forall i :: 0 <= i < DigitsRun(s) ==> IsDigit(s[i])
    decreases |s|
  {
    if |s| > 0 && IsDigit(s[0]) {
      DigitsRunAreDigits(s[1..]);
      assert forall i :: 1 <= i < DigitsRun(s) ==> s[i] == s[1..][i - 1];
    }
  }

  /** Whatever the url, an extracted id is a non-empty run of digits. */
  lemma {:induction false} TweetIdIsNumeric(url: string)
    ensures var r := ExtractTweetId(url);
            r.Some? ==> |r.value| > 0 && forall i :: 0 <= i < |r.value| ==> IsDigit(r.value[i])
    decreases |url|
  {
    if MatchHere(url).Some? {
      var rest := url[HostLength(url)..];
      DigitsRunAreDigits(rest[WordRun(rest) + |StatusPart|..]);
    } else if url != [] {
      TweetIdIsNumeric(url[1..]);
    }
  }

  // ---------------------------------------------------------------------
  // Summary and title cleaning

  const SummaryLabel := "summary:"

  /** `s.replace(/^Summary:\s*\/i, '')`: a leading 'Summary:' in any
      letter case, and the white space after it, are removed. The /i flag
      without /u only folds ASCII letters here. */
  function StripSummaryLabel(s: string): (r: string)
    ensures !(|s| >= 8 && Lower(s[..8]) == SummaryLabel) ==> r == s
    ensures |s| >= 8 && Lower(s[..8]) == SummaryLabel ==>
              |r| <= |s| - 8 && s == s[..|s| - |r|] + r && (r == [] || !IsJsWhitespace(r[0]))
  {
    if |s| >= 8 && Lower(s[..8]) == SummaryLabel then TrimStart(s[8..]) else s
  }

  /** A labelled summary gives back the text after the label and its
      spacing, whatever the label's letter case. */
  lemma SummaryLabelRemoved(tag: string, space: string, text: string)
    requires |tag| == 8 && Lower(tag) == SummaryLabel
    requires AllWhitespace(space)
    requires text == [] || !IsJsWhitespace(text[0])
    ensures StripSummaryLabel(tag + space + text) == text
  {
    var s := tag + (space + text);
    assert s[..8] == tag;
    assert s[8..] == space + text;
    LeadingSpaceOf(space, text);
    assert tag + space + text == s;
  }

  lemma {:induction false} LeadingSpaceOf(space: string, text: string)
    requires AllWhitespace(space)
    requires text == [] || !IsJsWhitespace(text[0])
    ensures LeadingSpace(space + text) == |space|
    ensures (space + text)[|space|..] == text
  {
    if space != [] {
      assert (space + text)[1..] == space[1..] + text;
      LeadingSpaceOf(space[1..], text);
    }
  }

  predicate IsLineTerminator(c: char)
  {
    c == '\n' || c == '\r' || c == '\U{2028}' || c == '\U{2029}'
  }

  /** `/\s\[.*?\]$/` matches at index `i` of `t`: white space, '[', then
      anything but a line terminator up to a ']' that ends the title. */
  predicate BracketSuffixAt(t: string, i: int)
  {
    0 <= i && i + 2 < |t| && IsJsWhitespace(t[i]) && t[i + 1] == '[' && t[|t| - 1] == ']'
    && forall k :: i + 2 <= k < |t| - 1 ==> !IsLineTerminator(t[k])
  }

  /** The leftmost index from `i` on where the suffix pattern matches. */
  function FirstBracketSuffix(t: string, i: nat): (r: Option<nat>)
    ensures r.Some? ==> i <= r.value && BracketSuffixAt(t, r.value)
                        && forall k :: i <= k < r.value ==> !BracketSuffixAt(t, k)
    ensures r.None? ==> forall k :: i <= k < |t| ==> !BracketSuffixAt(t, k)
    decreases |t| - i
  {
    if i >= |t| then None
    else if BracketSuffixAt(t, i) then Some(i)
    else FirstBracketSuffix(t, i + 1)
  }

  /** `title.replace(/\s\[.*?\]$/, '')`: the leftmost match and everything
      after it are removed. */
  function StripBracketSuffix(t: string): (r: string)
    ensures StartsWith(t, r)
    ensures r == t <==> forall k :: 0 <= k < |t| ==> !BracketSuffixAt(t, k)
  {
    match FirstBracketSuffix(t, 0)
    case None => t
    case Some(i) => t[..i]
  }

  /** A title followed by a bracketed tag loses exactly the tag. */
  lemma BracketTagRemoved(title: string, sp: char, tag: string)
    requires Lacks(title, '[') && IsJsWhitespace(sp)
    requires forall k :: 0 <= k < |tag| ==> !IsLineTerminator(tag[k])
    ensures StripBracketSuffix(title + [sp, '['] + tag + "]") == title
  {
    var t := title + [sp, '['] + tag + "]";
    assert BracketSuffixAt(t, |title|) by {
      forall k | |title| + 2 <= k < |t| - 1
        ensures !IsLineTerminator(t[k])
      {
        assert t[k] == tag[k - |title| - 2];
      }
    }
    forall k | 0 <= k < |title|
      ensures !BracketSuffixAt(t, k)
    {
      if k + 1 < |title| {
        assert t[k + 1] == title[k + 1];
      } else {
        assert t[k + 1] == sp;
      }
    }
    assert t[..|title|] == title;
  }

  // ---------------------------------------------------------------------
  // processAcademicResults

  /** The url a cleaned paper keeps: `paper.url || ''`. */
  function CleanUrl(p: RawResult): string
  {
    OrElse(p.url, "")
  }

  /** One cleaned paper: missing strings become '', the title loses its
      bracketed suffix and the summary its label. */
  function CleanPaper(p: RawResult): (r: ExaResult)
    ensures r.url == CleanUrl(p)
  {
    ExaResult(OrElse(p.id, ""),
              if p.title.Some? then StripBracketSuffix(p.title.value) else "",
              CleanUrl(p), p.author, OrElse(p.text, ""),
              Some(if p.summary.Some? then StripSummaryLabel(p.summary.value) else ""),
              None)
  }

  /** A cleaned paper always has a summary, empty when the paper had none,
      and its title is a prefix of the original one. */
  lemma CleanPaperFields(p: RawResult)
    ensures var r := CleanPaper(p);
            r.author == p.author && r.tweetId == None && r.summary.Some?
            && (p.summary.None? ==> r.summary == Some(""))
            && (p.title.Some? ==> StartsWith(p.title.value, r.title))
            && (p.title.None? ==> r.title == "")
  {
  }

  /** `acc.some((p) => p.url === paper.url)`: a cleaned url equals the raw
      one, which a missing url never does. */
  predicate UrlTaken(acc: seq<ExaResult>, url: Option<string>)
  {
    exists k | 0 <= k < |acc| :: Some(acc[k].url) == url
  }

  /** One step of the reduce. */
  function AcademicStep(acc: seq<ExaResult>, paper: RawResult): seq<ExaResult>
  {
    if UrlTaken(acc, paper.url) then acc else acc + [CleanPaper(paper)]
  }

  function FoldAcademic(acc: seq<ExaResult>, rs: seq<RawResult>): seq<ExaResult>
    decreases |rs|
  {
    if rs == [] then acc else FoldAcademic(AcademicStep(acc, rs[0]), rs[1..])
  }

  /** `processAcademicResults`: it keeps, in order, the first paper for
      each url, cleaned. */
  function ProcessAcademicResults(rs: seq<RawResult>): (r: seq<ExaResult>)
    ensures r == FirstPerUrl(rs)
  {
    FoldAcademicFromReference([], rs);
    assert [] + rs == rs;
    FoldAcademic([], rs)
  }

  /** Paper `i` is the first with its url: no earlier paper's cleaned url
      equals it. */
  predicate FirstForUrl(rs: seq<RawResult>, i: int)
    requires 0 <= i < |rs|
  {
    forall j :: 0 <= j < i ==> Some(CleanUrl(rs[j])) != rs[i].url
  }

  /** The reference: the cleaned papers that are first for their url, in
      input order. */
  function FirstPerUrl(rs: seq<RawResult>): seq<ExaResult>
    decreases |rs|
  {
    if rs == [] then []
    else
      var n := |rs| - 1;
      FirstPerUrl(rs[..n]) + (if FirstForUrl(rs, n) then [CleanPaper(rs[n])] else [])
  }

  function OutUrls(acc: seq<ExaResult>): set<string>
  {
    set k | 0 <= k < |acc| :: acc[k].url
  }

  function InUrls(rs: seq<RawResult>): set<string>
  {
    set j | 0 <= j < |rs| :: CleanUrl(rs[j])
  }

  /** The reference grows by the last paper exactly when it is first for
      its url. */
  lemma FirstPerUrlSnoc(p: seq<RawResult>, x: RawResult)
    ensures FirstPerUrl(p + [x]) ==
            FirstPerUrl(p) + (if FirstForUrl(p + [x], |p|) then [CleanPaper(x)] else [])
  {
    assert (p + [x])[..|p|] == p;
  }

  lemma OutUrlsConcat(f: seq<ExaResult>, g: seq<ExaResult>)
    ensures OutUrls(f + g) == OutUrls(f) + OutUrls(g)
  {
    forall u | u in OutUrls(f + g)
      ensures u in OutUrls(f) + OutUrls(g)
    {
      var k :| 0 <= k < |f + g| && (f + g)[k].url == u;
      if k >= |f| {
        assert g[k - |f|].url == u;
      }
    }
    forall u | u in OutUrls(f) + OutUrls(g)
      ensures u in OutUrls(f + g)
    {
      if u in OutUrls(f) {
        var k :| 0 <= k < |f| && f[k].url == u;
        assert (f + g)[k].url == u;
      } else {
        var k :| 0 <= k < |g| && g[k].url == u;
        assert (f + g)[|f| + k].url == u;
      }
    }
  }

  lemma InUrlsSnoc(p: seq<RawResult>, x: RawResult)
    ensures InUrls(p + [x]) == InUrls(p) + {CleanUrl(x)}
  {
    var q := p + [x];
    forall u | u in InUrls(q)
      ensures u in InUrls(p) + {CleanUrl(x)}
    {
      var j :| 0 <= j < |q| && CleanUrl(q[j]) == u;
      if j < |p| {
        assert p[j] == q[j];
      }
    }
    forall u | u in InUrls(p)
      ensures u in InUrls(q)
    {
      var j :| 0 <= j < |p| && CleanUrl(p[j]) == u;
      assert q[j] == p[j];
    }
    assert CleanUrl(q[|p|]) in InUrls(q);
  }

  /** The reference keeps one paper for every cleaned url. */
  lemma {:induction false} FirstPerUrlUrls(rs: seq<RawResult>)
    ensures OutUrls(FirstPerUrl(rs)) == InUrls(rs)
    decreases |rs|
  {
    if rs != [] {
      var n := |rs| - 1;
      var p := rs[..n];
      assert rs == p + [rs[n]];
      FirstPerUrlUrls(p);
      FirstPerUrlUrlsStep(p, rs[n]);
    }
  }

  lemma OutUrlsSingle(e: ExaResult)
    ensures OutUrls([e]) == {e.url}
  {
    assert [e][0].url in OutUrls([e]);
  }

  lemma FirstPerUrlUrlsStep(p: seq<RawResult>, x: RawResult)
    requires OutUrls(FirstPerUrl(p)) == InUrls(p)
    ensures OutUrls(FirstPerUrl(p + [x])) == InUrls(p + [x])
  {
    FirstPerUrlSnoc(p, x);
    InUrlsSnoc(p, x);
    if FirstForUrl(p + [x], |p|) {
      OutUrlsConcat(FirstPerUrl(p), [CleanPaper(x)]);
      OutUrlsSingle(CleanPaper(x));
    } else {
      var j :| 0 <= j < |p| && Some(CleanUrl((p + [x])[j])) == x.url;
      assert (p + [x])[j] == p[j];
      assert CleanUrl(x) in InUrls(p);
      assert FirstPerUrl(p) + [] == FirstPerUrl(p);
    }
  }

  /** Against the reference, the reduce's `some` test is "an earlier paper
      has this url". */
  lemma TakenIffNotFirst(p: seq<RawResult>, x: RawResult)
    ensures UrlTaken(FirstPerUrl(p), x.url) <==> !FirstForUrl(p + [x], |p|)
  {
    var f := FirstPerUrl(p);
    FirstPerUrlUrls(p);
    if UrlTaken(f, x.url) {
      var k :| 0 <= k < |f| && Some(f[k].url) == x.url;
      assert f[k].url in InUrls(p);
      var j :| 0 <= j < |p| && CleanUrl(p[j]) == f[k].url;
      assert (p + [x])[j] == p[j];
    }
    if !FirstForUrl(p + [x], |p|) {
      var j :| 0 <= j < |p| && Some(CleanUrl((p + [x])[j])) == (p + [x])[|p|].url;
      assert (p + [x])[j] == p[j];
      assert CleanUrl(p[j]) in OutUrls(f);
      var k :| 0 <= k < |f| && f[k].url == CleanUrl(p[j]);
      assert Some(f[k].url) == x.url;
    }
  }

  lemma {:induction false} FoldAcademicFromReference(p: seq<RawResult>, rest: seq<RawResult>)
    ensures FoldAcademic(FirstPerUrl(p), rest) == FirstPerUrl(p + rest)
    decreases |rest|
  {
    if rest == [] {
      assert p + rest == p;
    } else {
      var x, tail := rest[0], rest[1..];
      var q := p + [x];
      assert p + rest == q + tail;
      var a := FirstPerUrl(p);
      assert FoldAcademic(a, rest) == FoldAcademic(AcademicStep(a, x), tail);
      AcademicStepReference(p, x);
      FoldAcademicFromReference(q, tail);
    }
  }

  lemma AcademicStepReference(p: seq<RawResult>, x: RawResult)
    ensures AcademicStep(FirstPerUrl(p), x) == FirstPerUrl(p + [x])
  {
    TakenIffNotFirst(p, x);
    FirstPerUrlSnoc(p, x);
  }

  /** Every url of the input survives, and when every paper has a url no
      url appears twice in the output. */
  lemma {:induction false} AcademicUrlsUnique(rs: seq<RawResult>)
    requires forall i :: 0 <= i < |rs| ==> rs[i].url.Some?
    ensures OutUrls(ProcessAcademicResults(rs)) == InUrls(rs)
    ensures var r := ProcessAcademicResults(rs);
            forall i, j :: 0 <= i < j < |r| ==> r[i].url != r[j].url
    decreases |rs|
  {
    FirstPerUrlUrls(rs);
    if rs != [] {
      var n := |rs| - 1;
      var p := rs[..n];
      AcademicUrlsUnique(p);
      FirstPerUrlUrls(p);
      var f := FirstPerUrl(p);
      if FirstForUrl(rs, n) {
        var x := rs[n];
        assert rs == p + [x];
        FirstPerUrlSnoc(p, x);
        assert CleanUrl(x) !in InUrls(p) by {
          forall j | 0 <= j < |p|
            ensures CleanUrl(p[j]) != CleanUrl(x)
          {
            assert p[j] == rs[j];
          }
        }
        forall i | 0 <= i < |f|
          ensures f[i].url != CleanUrl(x)
        {
          assert f[i].url in OutUrls(f);
        }
      }
    }
  }

  /** A paper lacking a summary is kept with an empty one: unlike the
      route's academic tool, this one does not drop it. */
  lemma SummaryNotRequired(paper: RawResult)
    requires paper.summary.None?
    ensures ProcessAcademicResults([paper]) == [CleanPaper(paper)]
    ensures CleanPaper(paper).summary == Some("")
  {
    assert AcademicStep([], paper) == [CleanPaper(paper)];
    assert [paper][1..] == [];
    assert FoldAcademic([CleanPaper(paper)], []) == [CleanPaper(paper)];
  }

  // ---------------------------------------------------------------------
  // processSocialResults

  /** One social result: kept only when its url holds a tweet id. The id
      falls back to the tweet id, the title to the author and then to
      'Tweet'. */
  function SocialCandidate(r: RawResult): (c: Option<ExaResult>)
    requires r.url.Some?
  {
    var tweetId := ExtractTweetId(r.url.value);
    if tweetId.None? || tweetId.value == "" then None
    else Some(ExaResult(OrElse(r.id, tweetId.value), OrElse(r.title, OrElse(r.author, "Tweet")),
                        r.url.value, r.author, OrElse(r.text, ""), r.summary, tweetId))
  }

  function SocialFrom(rs: seq<RawResult>): (r: seq<ExaResult>)
    requires forall i :: 0 <= i < |rs| ==> rs[i].url.Some?
    ensures |r| <= |rs|
    decreases |rs|
  {
    if rs == [] then []
    else
      var c := SocialCandidate(rs[0]);
      (if c.Some? then [c.value] else []) + SocialFrom(rs[1..])
  }

  /** `processSocialResults`; `None` stands for the TypeError thrown when
      some result has no url to match. */
  function ProcessSocialResults(rs: seq<RawResult>): (r: Option<seq<ExaResult>>)
    ensures r.None? <==> exists i :: 0 <= i < |rs| && rs[i].url.None?
    ensures r.Some? ==> |r.value| <= |rs|
  {
    if forall i :: 0 <= i < |rs| ==> rs[i].url.Some? then Some(SocialFrom(rs)) else None
  }

  predicate HasTweetLink(r: RawResult)
  {
    r.url.Some? && ExtractTweetId(r.url.value).Some?
  }

  /** Every kept result carries the numeric tweet id of its own url, a
      non-empty id and a non-empty title; exactly the results whose url
      holds a tweet id are kept. */
  lemma {:induction false} SocialResultsAreTweets(rs: seq<RawResult>)
    requires forall i :: 0 <= i < |rs| ==> rs[i].url.Some?
    ensures var r := SocialFrom(rs);
            |r| == Count(HasTweetLink, rs) && forall k :: 0 <= k < |r| ==> IsTweetResult(r[k])
    decreases |rs|
  {
    if rs != [] {
      SocialResultsAreTweets(rs[1..]);
      CandidateIsTweet(rs[0]);
      var c, tail := SocialCandidate(rs[0]), SocialFrom(rs[1..]);
      var head := if c.Some? then [c.value] else [];
      assert SocialFrom(rs) == head + tail;
      forall k | 0 <= k < |head + tail|
        ensures IsTweetResult((head + tail)[k])
      {
        if k >= |head| {
          assert (head + tail)[k] == tail[k - |head|];
        }
      }
    }
  }

  /** A kept social result: its tweet id is the one its url holds, a
      non-empty run of digits, and its id and title are not empty. */
  predicate IsTweetResult(c: ExaResult)
  {
    c.tweetId == ExtractTweetId(c.url) && c.tweetId.Some?
    && |c.tweetId.value| > 0
    && (forall i :: 0 <= i < |c.tweetId.value| ==> IsDigit(c.tweetId.value[i]))
    && c.id != "" && c.title != ""
  }

  /** One result is kept exactly when its url holds a tweet id, and what
      is kept is a tweet. */
  lemma CandidateIsTweet(r: RawResult)
    requires r.url.Some?
    ensures SocialCandidate(r).Some? <==> HasTweetLink(r)
    ensures SocialCandidate(r).Some? ==> IsTweetResult(SocialCandidate(r).value)
  {
    TweetIdIsNumeric(r.url.value);
  }

  /** A result linking a post by its canonical status url is kept, with
      that post's id. */
  lemma StatusLinkKept(r: RawResult, host: string, user: string, id: string, tail: string)
    requires host == TwitterHost || host == XHost
    requires |user| > 0 && forall i :: 0 <= i < |user| ==> IsWordChar(user[i])
    requires |id| > 0 && forall i :: 0 <= i < |id| ==> IsDigit(id[i])
    requires tail == [] || !IsDigit(tail[0])
    requires r.url == Some("https://" + host + user + StatusPart + id + tail)
    ensures ProcessSocialResults([r]).Some?
    ensures var out := ProcessSocialResults([r]).value;
            |out| == 1 && out[0].tweetId == Some(id) && out[0].id == OrElse(r.id, id)
  {
    StatusLinkTweetId(host, user, id, tail);
    assert SocialFrom([r]) == [SocialCandidate(r).value] + SocialFrom([]);
  }

  // ---------------------------------------------------------------------
  // processGeneralResults

  /** One general result: missing strings become '', the rest is copied. */
  function CleanGeneral(r: RawResult): (c: ExaResult)
  {
    ExaResult(OrElse(r.id, ""), OrElse(r.title, ""), OrElse(r.url, ""), r.author,
              OrElse(r.text, ""), r.summary, None)
  }

  /** `processGeneralResults`: the results correspond one to one, in
      order, with the input; present fields keep their values and the
      summary is copied as it is. */
  function ProcessGeneralResults(rs: seq<RawResult>): (r: seq<ExaResult>)
    ensures |r| == |rs|
    ensures forall i :: 0 <= i < |rs| ==>
              r[i].summary == rs[i].summary && r[i].author == rs[i].author && r[i].tweetId.None?
              && (rs[i].url.Some? ==> r[i].url == rs[i].url.value)
              && (rs[i].title.Some? ==> r[i].title == rs[i].title.value)
              && (rs[i].id.Some? ==> r[i].id == rs[i].id.value)
  {
    Map(CleanGeneral, rs)
  }

  // ---------------------------------------------------------------------
  // The requests sent to the search service

  /** The summary part of a request: none, `summary: true`, or a summary
      guided by a query. */
  datatype SummaryRequest = NoSummary | SummaryOn | SummaryQuery(query: string)

  /** A `searchAndContents` request; a flag that is false is absent from
      the source's object. */
  datatype Request = Request(searchType: string, numResults: int, category: Option<string>,
                             includeDomains: Option<seq<string>>, useAutoprompt: bool,
                             text: bool, highlights: bool, summary: SummaryRequest)

  const AbstractQuery := "Abstract of the Paper"
  const ResearchPaper := "research paper"

  /** `searchAcademic`'s request: destructuring defaults (20 results, with
      summary) apply only to absent options. */
  function AcademicRequest(numResults: Option<int>, summary: Option<bool>): (r: Request)
    ensures r.numResults == numResults.GetOr(20)
    ensures r.summary == (if summary.GetOr(true) then SummaryQuery(AbstractQuery) else NoSummary)
    ensures r.searchType == "auto" && r.category == Some(ResearchPaper)
    ensures r.includeDomains.None? && !r.text && !r.highlights && !r.useAutoprompt
  {
    Request("auto", numResults.GetOr(20), Some(ResearchPaper), None, false, false, false,
            if summary.GetOr(true) then SummaryQuery(AbstractQuery) else NoSummary)
  }

  /** `searchSocial`'s request: five results by default, neural search on
      the two post domains with text and highlights. */
  function SocialRequest(numResults: Option<int>): (r: Request)
    ensures r.numResults == numResults.GetOr(5)
    ensures r.searchType == "neural" && r.useAutoprompt && r.text && r.highlights
    ensures r.includeDomains == Some(["twitter.com", "x.com"]) && r.summary == NoSummary
  {
    Request("neural", numResults.GetOr(5), None, Some(["twitter.com", "x.com"]), true, true, true, NoSummary)
  }

  /** `search`'s request: `||` defaults, so an empty type and a zero count
      are replaced too; optional parts are sent only when truthy. */
  function GeneralRequest(searchType: Option<string>, numResults: Option<int>, category: Option<string>,
                          includeDomains: Option<seq<string>>, text: Option<bool>,
                          highlights: Option<bool>, summary: Option<bool>): (r: Request)
    ensures r.searchType == (if searchType.Some? && searchType.value != "" then searchType.value else "auto")
    ensures r.numResults == (if numResults.Some? && numResults.value != 0 then numResults.value else 10)
    ensures r.category.Some? <==> category.Some? && category.value != ""
    ensures r.category.Some? ==> r.category == category
    ensures r.includeDomains == includeDomains
    ensures r.text == (text == Some(true)) && r.highlights == (highlights == Some(true))
    ensures r.summary == (if summary == Some(true) then SummaryOn else NoSummary)
    ensures !r.useAutoprompt
  {
    Request(OrElse(searchType, "auto"),
            if numResults.Some? && numResults.value != 0 then numResults.value else 10,
            if category.Some? && category.value != "" then category else None,
            includeDomains, false, text == Some(true), highlights == Some(true),
            if summary == Some(true) then SummaryOn else NoSummary)
  }

  /** Destructuring defaults and `||` defaults differ on zero: academic
      search asks for zero results, general search for ten. */
  lemma ZeroCountDefaults()
    ensures AcademicRequest(Some(0), None).numResults == 0
    ensures GeneralRequest(None, Some(0), None, None, None, None, None).numResults == 10
    ensures AcademicRequest(None, None).numResults == 20
    ensures SocialRequest(None).numResults == 5
  {
  }
}
