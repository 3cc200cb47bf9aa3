// The image proxy of app/api/media/proxy/route.ts and
// app/api/media/proxy/proxy-image/route.ts, which are the same code: the
// host filter that keeps requests away from local and private networks,
// the order of the GET handler's decisions, the 5 MiB streaming limit, and
// HEAD as GET in validate-only mode. DNS answers, the allow-list setting
// and the upstream response are parameters; the fetch itself, its timeout
// and the stream plumbing are not modelled.

module Proxy {
  import opened Opt
  import opened Strings
  import Seqs

  // ---------------------------------------------------------------------
  // Host filter

  /** Host names refused before anything else, compared lower-cased. */
  const BlockedNames: seq<string> := ["localhost", "127.0.0.1", "0.0.0.0", "::1"]

  predicate IsBlockedName(hostname: string)
  {
    Lower(hostname) in BlockedNames
  }

  /** One to three decimal digits, as `\d{1,3}`. */
  predicate IsOctetText(s: string)
  {
    1 <= |s| <= 3 && forall i :: 0 <= i < |s| ==> IsDigit(s[i])
  }

  /** The four numbers of a dotted quad, as the pattern
      `^(\d{1,3})\.(\d{1,3})\.(\d{1,3})\.(\d{1,3})$` reads them; the
      numbers are not checked against 255. */
  function ParseIpv4(s: string): (r: Option<(nat, nat, nat, nat)>)
    ensures r.Some? <==> |Split(s, '.')| == 4 && forall k :: 0 <= k < 4 ==> IsOctetText(Split(s, '.')[k])
    ensures r.Some? ==> r.value.0 < 1000 && r.value.1 < 1000 && r.value.2 < 1000 && r.value.3 < 1000
  {
    var parts := Split(s, '.');
    if |parts| == 4 && IsOctetText(parts[0]) && IsOctetText(parts[1]) && IsOctetText(parts[2]) && IsOctetText(parts[3]) then
      OctetBound(parts[0]);
      OctetBound(parts[1]);
      OctetBound(parts[2]);
      OctetBound(parts[3]);
      Some((ParseDigits(parts[0]), ParseDigits(parts[1]), ParseDigits(parts[2]), ParseDigits(parts[3])))
    else None
  }

  lemma OctetBound(s: string)
    requires IsOctetText(s)
    ensures ParseDigits(s) < 1000
  {
    DigitsBound(s);
  }

  function Pow10(n: nat): nat
  {
    if n == 0 then 1 else 10 * Pow10(n - 1)
  }

  lemma {:induction false} DigitsBound(s: string)
    requires forall i :: 0 <= i < |s| ==> IsDigit(s[i])
    ensures ParseDigits(s) < Pow10(|s|)
  {
    if |s| > 0 {
      DigitsBound(s[..|s| - 1]);
    }
  }

  /** 10/8, 172.16/12 and 192.168/16 (section 3 of RFC 1918), 169.254/16
      and 127/8, judged by the first two numbers. */
  predicate IsPrivateRange(a: nat, b: nat)
  {
    a == 10 || (a == 172 && 16 <= b <= 31) || (a == 192 && b == 168) || (a == 169 && b == 254) || a == 127
  }

  predicate IsPrivateAddress(s: string)
  {
    var q := ParseIpv4(s);
    q.Some? && IsPrivateRange(q.value.0, q.value.1)
  }

  /** The allow-list: the comma-separated entries, trimmed and lower-cased. */
  function AllowList(setting: string): (r: seq<string>)
    ensures var parts := Split(setting, ',');
            |r| == |parts| && forall i :: 0 <= i < |r| ==> r[i] == Lower(Trim(parts[i]))
  {
    var parts := Split(setting, ',');
    seq(|parts|, i requires 0 <= i < |parts| => Lower(Trim(parts[i])))
  }

  /** Some resolved address lies in a refused range. */
  predicate AnyPrivate(addresses: seq<string>)
  {
    exists i | 0 <= i < |addresses| :: IsPrivateAddress(addresses[i])
  }

  /** `isPublicHostname`. `lookup` is the list of addresses the name
      resolves to, or `None` when the lookup fails; `allowedHosts` is the
      allow-list setting. */
  function IsPublicHostname(hostname: string, lookup: Option<seq<string>>, allowedHosts: Option<string>): (r: bool)
    ensures IsBlockedName(hostname) ==> !r
    ensures IsPrivateAddress(hostname) ==> !r
    ensures lookup.None? ==> !r
    ensures lookup.Some? && AnyPrivate(lookup.value) ==> !r
    ensures r && allowedHosts.Some? && allowedHosts.value != "" ==> Lower(hostname) in AllowList(allowedHosts.value)
    ensures !IsBlockedName(hostname) && !IsPrivateAddress(hostname) && lookup.Some?
            && !AnyPrivate(lookup.value)
            && (allowedHosts.None? || allowedHosts.value == "" || Lower(hostname) in AllowList(allowedHosts.value))
            ==> r
  {
    if IsBlockedName(hostname) then false
    else if IsPrivateAddress(hostname) then false
    else if lookup.None? then false
    else if AnyPrivate(lookup.value) then false
    else if allowedHosts.Some? && allowedHosts.value != "" then Lower(hostname) in AllowList(allowedHosts.value)
    else true
  }

  /** `x.rest`. */
  function DotJoin(x: string, rest: string): string
  {
    x + "." + rest
  }

  /** The text of a dotted quad, 'a.b.c.d'. */
  function Dotted(a: nat, b: nat, c: nat, d: nat): string
  {
    DotJoin(NatToString(a), DotJoin(NatToString(b), DotJoin(NatToString(c), NatToString(d))))
  }

  lemma {:induction false} NatToStringShort(n: nat, k: nat)
    requires 1 <= k && n < Pow10(k)
    ensures |NatToString(n)| <= k
  {
    if n >= 10 {
      assert Pow10(1) == 10;
      NatToStringShort(n / 10, k - 1);
    }
  }

  /** `IndexOf` finds the first occurrence. */
  lemma {:induction false} IndexOfFirst(s: string, c: char, k: nat)
    requires k < |s| && s[k] == c && forall j :: 0 <= j < k ==> s[j] != c
    ensures IndexOf(s, c) == k
  {
    if k > 0 {
      IndexOfFirst(s[1..], c, k - 1);
    }
  }

  lemma SplitAtFirst(x: string, rest: string)
    requires Lacks(x, '.')
    ensures Split(DotJoin(x, rest), '.') == [x] + Split(rest, '.')
  {
    var s := x + "." + rest;
    assert s[..|x|] == x;
    IndexOfFirst(s, '.', |x|);
    assert s[|x| + 1..] == rest;
  }

  lemma SplitWhole(x: string)
    requires Lacks(x, '.')
    ensures Split(x, '.') == [x]
  {
  }

  lemma DigitsHaveNoDot(n: nat)
    ensures Lacks(NatToString(n), '.')
  {
    var s := NatToString(n);
    forall i | 0 <= i < |s|
      ensures s[i] != '.'
    {
      assert IsDigit(s[i]);
    }
  }

  lemma SplitTwo(C: string, D: string)
    requires Lacks(C, '.') && Lacks(D, '.')
    ensures Split(DotJoin(C, D), '.') == [C, D]
  {
    SplitAtFirst(C, D);
    SplitWhole(D);
  }

  lemma SplitThree(B: string, C: string, D: string)
    requires Lacks(B, '.') && Lacks(C, '.') && Lacks(D, '.')
    ensures Split(DotJoin(B, DotJoin(C, D)), '.') == [B, C, D]
  {
    SplitAtFirst(B, DotJoin(C, D));
    SplitTwo(C, D);
  }

  lemma SplitFour(A: string, B: string, C: string, D: string)
    requires Lacks(A, '.') && Lacks(B, '.') && Lacks(C, '.') && Lacks(D, '.')
    ensures Split(DotJoin(A, DotJoin(B, DotJoin(C, D))), '.') == [A, B, C, D]
  {
    SplitAtFirst(A, DotJoin(B, DotJoin(C, D)));
    SplitThree(B, C, D);
    Seqs.ConsFour(A, B, C, D);
  }

  /** The pattern reads back the four numbers of any dotted quad whose
      numbers have at most three digits, 255 or not. */
  lemma Ipv4RoundTrip(a: nat, b: nat, c: nat, d: nat)
    requires a < 1000 && b < 1000 && c < 1000 && d < 1000
    ensures ParseIpv4(Dotted(a, b, c, d)) == Some((a, b, c, d))
  {
    OctetRoundTrip(a); OctetRoundTrip(b); OctetRoundTrip(c); OctetRoundTrip(d);
    SplitFour(NatToString(a), NatToString(b), NatToString(c), NatToString(d));
  }

  /** The decimal text of a number below 1000 is octet text without a dot,
      and reads back as the number. */
  lemma OctetRoundTrip(x: nat)
    requires x < 1000
    ensures IsOctetText(NatToString(x)) && Lacks(NatToString(x), '.')
    ensures ParseDigits(NatToString(x)) == x
  {
    DigitsHaveNoDot(x);
    assert Pow10(3) == 1000;
    NatToStringShort(x, 3);
    ParseNatToString(x);
  }

  /** A literal address in a private, link-local or loopback range is
      refused whatever the DNS answer and the allow-list. */
  lemma PrivateLiteralRefused(a: nat, b: nat, c: nat, d: nat, lookup: Option<seq<string>>, allowedHosts: Option<string>)
    requires a < 1000 && b < 1000 && c < 1000 && d < 1000
    requires IsPrivateRange(a, b)
    ensures !IsPublicHostname(Dotted(a, b, c, d), lookup, allowedHosts)
  {
    Ipv4RoundTrip(a, b, c, d);
  }

  // ---------------------------------------------------------------------
  // Streaming with a size limit

  /** The streaming limit: 5 MiB. */
  const SizeLimit: nat := 5 * 1024 * 1024

  /** Total length of the given chunks. */
  function Sum(chunks: seq<nat>): nat
  {
    if |chunks| == 0 then 0 else Sum(chunks[..|chunks| - 1]) + chunks[|chunks| - 1]
  }

  lemma {:induction false} SumPrefixMonotone(chunks: seq<nat>, k: nat)
    requires k <= |chunks|
    ensures Sum(chunks[..k]) <= Sum(chunks)
    decreases |chunks| - k
  {
    if k < |chunks| {
      SumPrefixMonotone(chunks, k + 1);
      assert chunks[..k + 1][..k] == chunks[..k];
    } else {
      assert chunks[..k] == chunks;
    }
  }

  /** `streamWithLimit`: chunks (by their lengths) are written while the
      running total stays within the limit; the chunk that takes it past
      the limit is not written and the stream is aborted. */
  method StreamWithLimit(chunks: seq<nat>) returns (written: seq<nat>, aborted: bool)
    ensures |written| <= |chunks| && written == chunks[..|written|]
    ensures Sum(written) <= SizeLimit
    ensures aborted <==> Sum(chunks) > SizeLimit
    ensures !aborted ==> written == chunks
    ensures aborted ==> |written| < |chunks| && Sum(written) + chunks[|written|] > SizeLimit
  {
    var transferred := 0;
    written := [];
    var i := 0;
    while i < |chunks|
      invariant 0 <= i <= |chunks|
      invariant written == chunks[..i]
      invariant transferred == Sum(written) <= SizeLimit
    {
      transferred := transferred + chunks[i];
      if transferred > SizeLimit {
        assert chunks[..i + 1][..i] == chunks[..i];
        SumPrefixMonotone(chunks, i + 1);
        return written, true;
      }
      assert chunks[..i + 1][..i] == chunks[..i];
      written := written + [chunks[i]];
      i := i + 1;
    }
    assert chunks[..i] == chunks;
    aborted := false;
  }

  // ---------------------------------------------------------------------
  // The GET and HEAD handlers

  /** The error messages, and the media type of a response without one. */
  const UrlRequired := "URL parameter is required"
  const BlockedHost := "Blocked host"
  const FetchFailed := "Failed to fetch image"
  const NoBody := "No response body"
  const TooLarge := "Image too large"
  const DefaultMediaType := "application/octet-stream"

  /** What the upstream fetch answered; `hasBody` is false when the
      response has no readable body, and `chunks` are the lengths of the
      body's pieces. */
  datatype Upstream = Upstream(
    ok: bool,
    status: int,
    contentType: Option<string>,
    redirected: bool,
    responseUrl: string,
    hasBody: bool,
    chunks: seq<nat>)

  datatype ProxyResponse =
    | ErrorResponse(status: int, error: string)
    | Validation(valid: bool, status: int, contentType: Option<string>, redirected: bool, finalUrl: string)
      /** A 200 response whose body is the stream of the upstream body. */
    | Streaming(mediaType: string, finalUrl: string, redirected: bool)
      /** The handler threw outside its try block; the framework answers
          with a bare 500. */
    | Unhandled

  /** `GET`: 400 without a url and for a refused host (before any fetch),
      500 when the url does not parse or the fetch fails; then, in
      validate-only mode, the validation report; otherwise the upstream
      status when it is not ok, 500 without a body, and else a streaming
      response. `hostname` is the host of the parsed url, `None` when the
      url does not parse; `upstream` is `None` when the fetch throws. */
  function Get(url: Option<string>, hostname: Option<string>, validateOnly: bool,
               lookup: Option<seq<string>>, allowedHosts: Option<string>,
               upstream: Option<Upstream>): (r: ProxyResponse)
    ensures url.None? || url.value == "" ==> r == ErrorResponse(400, UrlRequired)
    ensures url.Some? && url.value != "" && hostname.Some? && !IsPublicHostname(hostname.value, lookup, allowedHosts) ==>
              r == ErrorResponse(400, BlockedHost)
    ensures !r.ErrorResponse? ==> url.Some? && hostname.Some? && IsPublicHostname(hostname.value, lookup, allowedHosts) && upstream.Some?
    ensures r.Validation? ==> validateOnly && r.valid == (upstream.value.ok && upstream.value.contentType.Some? && StartsWith(upstream.value.contentType.value, "image/"))
    ensures r.Validation? || r.Streaming? ==> r.finalUrl == if upstream.value.redirected then upstream.value.responseUrl else url.value
    ensures r.Streaming? ==> !validateOnly && upstream.value.ok && upstream.value.hasBody
    ensures validateOnly ==> !r.Streaming?
    ensures !r.Unhandled?
  {
    if url.None? || url.value == "" then ErrorResponse(400, UrlRequired)
    else if hostname.None? then ErrorResponse(500, FetchFailed)
    else if !IsPublicHostname(hostname.value, lookup, allowedHosts) then ErrorResponse(400, BlockedHost)
    else if upstream.None? then ErrorResponse(500, FetchFailed)
    else
      var u := upstream.value;
      var finalUrl := if u.redirected then u.responseUrl else url.value;
      if validateOnly then
        Validation(u.ok && u.contentType.Some? && StartsWith(u.contentType.value, "image/"),
                   u.status, u.contentType, u.redirected, finalUrl)
      else if !u.ok then ErrorResponse(u.status, FetchFailed)
      else if !u.hasBody then ErrorResponse(500, NoBody)
      else
        var contentType := if u.contentType.Some? && u.contentType.value != "" then u.contentType.value
                           else DefaultMediaType;
        Streaming(contentType, finalUrl, u.redirected)
  }

  /** What the handlers read from a request: `nextUrl`, holding the url
      query parameter, is `None` on a plain `Request`, which lacks the
      property; `validateOnly` is the x-validate-only header being 'true'. */
  datatype Request = Request(nextUrl: Option<Option<string>>, validateOnly: bool)

  /** `GET` on a request object: reading `request.nextUrl.searchParams`
      throws when the object has no `nextUrl`, before the handler's try
      block; otherwise the handler runs on the url parameter. */
  function GetRequest(req: Request, hostname: Option<string>,
                      lookup: Option<seq<string>>, allowedHosts: Option<string>,
                      upstream: Option<Upstream>): (r: ProxyResponse)
    ensures r.Unhandled? <==> req.nextUrl.None?
    ensures req.nextUrl.Some? ==> r == Get(req.nextUrl.value, hostname, req.validateOnly, lookup, allowedHosts, upstream)
  {
    match req.nextUrl
    case None => Unhandled
    case Some(url) => Get(url, hostname, req.validateOnly, lookup, allowedHosts, upstream)
  }

  /** `HEAD` as written: the headers are copied with x-validate-only set,
      but the request is rebuilt as a plain `Request` from the url text,
      which carries no `nextUrl`, and handed to `GET`. */
  function HeadAsWritten(req: Request, hostname: Option<string>,
                         lookup: Option<seq<string>>, allowedHosts: Option<string>,
                         upstream: Option<Upstream>): (r: ProxyResponse)
    ensures r.Unhandled?
  {
    GetRequest(Request(None, true), hostname, lookup, allowedHosts, upstream)
  }

  /** As written, HEAD never reports on an image: even for a public host
      whose image the GET handler validates, it fails with a bare 500. */
  lemma HeadAsWrittenNeverValidates(url: string, host: string, upstream: Upstream)
    requires url != "" && IsPublicHostname(host, Some([]), None)
    ensures GetRequest(Request(Some(Some(url)), true), Some(host), Some([]), None, Some(upstream)).Validation?
    ensures HeadAsWritten(Request(Some(Some(url)), false), Some(host), Some([]), None, Some(upstream)) == Unhandled
  {
  }

  /** `HEAD` as intended: the GET handler with the x-validate-only header
      forced on, on the same url. */
  function Head(url: Option<string>, hostname: Option<string>,
                lookup: Option<seq<string>>, allowedHosts: Option<string>,
                upstream: Option<Upstream>): (r: ProxyResponse)
    ensures !r.Streaming?
    ensures r.Validation? ==> upstream.Some? && r.valid == (upstream.value.ok && upstream.value.contentType.Some? && StartsWith(upstream.value.contentType.value, "image/"))
  {
    Get(url, hostname, true, lookup, allowedHosts, upstream)
  }

  /** The intended HEAD answers every request the GET handler accepts with
      the validation report of the upstream response, never with a bare
      500, and agrees with GET in validate-only mode on any request object
      that has `nextUrl`. */
  lemma HeadReports(req: Request, hostname: Option<string>,
                    lookup: Option<seq<string>>, allowedHosts: Option<string>,
                    upstream: Option<Upstream>)
    requires req.nextUrl.Some?
    ensures Head(req.nextUrl.value, hostname, lookup, allowedHosts, upstream)
            == GetRequest(req.(validateOnly := true), hostname, lookup, allowedHosts, upstream)
    ensures !Head(req.nextUrl.value, hostname, lookup, allowedHosts, upstream).Unhandled?
    ensures req.nextUrl.value.Some? && req.nextUrl.value.value != "" && hostname.Some?
            && IsPublicHostname(hostname.value, lookup, allowedHosts) && upstream.Some?
            ==> Head(req.nextUrl.value, hostname, lookup, allowedHosts, upstream).Validation?
  {
  }

  /** The documentation of the handler promises 413 for an image above
      5 MiB, but the size is only counted while the body streams, after the
      200 response has been returned; the 413 branch of the handler is
      never reached. An upstream 6 MiB PNG is answered with a stream that
      is then aborted. */
  lemma OversizeImageIsStreamed(url: string, host: string)
    requires url != "" && IsPublicHostname(host, Some([]), None)
    ensures var big := Upstream(true, 200, Some("image/png"), false, url, true, [6 * 1024 * 1024]);
            Get(Some(url), Some(host), false, Some([]), None, Some(big)) == Streaming("image/png", url, false)
            && Sum(big.chunks) > SizeLimit
  {
    var big := Upstream(true, 200, Some("image/png"), false, url, true, [6 * 1024 * 1024]);
    assert big.chunks[..0] == [];
  }

  /** The handler as its documentation describes it: an upstream body above
      the limit is answered with 413 'Image too large'. */
  function GetWithSizeCheck(url: Option<string>, hostname: Option<string>, validateOnly: bool,
                            lookup: Option<seq<string>>, allowedHosts: Option<string>,
                            upstream: Option<Upstream>): (r: ProxyResponse)
    ensures r.Streaming? ==> upstream.Some? && Sum(upstream.value.chunks) <= SizeLimit
    ensures Get(url, hostname, validateOnly, lookup, allowedHosts, upstream).Streaming? && Sum(upstream.value.chunks) > SizeLimit
            ==> r == ErrorResponse(413, TooLarge)
    ensures !(Get(url, hostname, validateOnly, lookup, allowedHosts, upstream).Streaming? && Sum(upstream.value.chunks) > SizeLimit)
            ==> r == Get(url, hostname, validateOnly, lookup, allowedHosts, upstream)
  {
    var r := Get(url, hostname, validateOnly, lookup, allowedHosts, upstream);
    if r.Streaming? && Sum(upstream.value.chunks) > SizeLimit then ErrorResponse(413, TooLarge)
    else r
  }
}
