/**
 * new_version/scanner.py: cleaning a list of URLs down to host names, and fetching
 * one host over https with a fall-back to http. The HTTP request is an oracle that
 * either answers or fails; the clock reading is a parameter; reading a `.txt` file of
 * URLs is a function from the file name to its lines.
 */
module Scanner {
  import opened Common
  import opened UrlParse

  /** The argument of `clean_urls`: one string, or a list of URLs. */
  datatype UrlInput = Single(text: string) | Many(urls: seq<string>)

  /** The URLs an input stands for: a `.txt` name is read line by line, any other
      string is a list of one. */
  function InputUrls(input: UrlInput, readLines: string -> seq<string>): (urls: seq<string>)
    ensures input.Many? ==> urls == input.urls
    ensures input.Single? && !EndsWith(input.text, ".txt") ==> urls == [input.text]
    ensures input.Single? && EndsWith(input.text, ".txt") ==> urls == readLines(input.text)
  {
    match input
    case Single(text) => if EndsWith(text, ".txt") then readLines(text) else [text]
    case Many(urls) => urls
  }

  /** `path.split('/')[0]`. */
  function FirstSegment(path: string): (r: string)
    ensures '/' !in r
    ensures StartsWith(path, r)
    ensures |r| < |path| ==> path[|r|] == '/'
  {
    path[..Find(path, '/')]
  }

  /** One cleaned entry: the network location, or else the path up to its first '/';
      None when parsing raises ValueError. */
  function CleanUrl(url: string): (r: Option<string>)
    ensures r.Some? ==> '/' !in r.value
    ensures r.None? <==> Urlparse(url).None?
  {
    match Urlparse(url)
    case None => None
    case Some(p) => Some(if p.netloc != "" then p.netloc else FirstSegment(p.path))
  }

  /** `clean_urls`: one entry per input URL, in order; an error in any URL is an error
      of the whole call. */
  method CleanUrls(input: UrlInput, readLines: string -> seq<string>) returns (cleaned: Option<seq<string>>)
    ensures var urls := InputUrls(input, readLines);
      cleaned.Some? <==> forall i :: 0 <= i < |urls| ==> CleanUrl(urls[i]).Some?
    ensures var urls := InputUrls(input, readLines);
      cleaned.Some? ==> (|cleaned.value| == |urls| &&
                         forall i :: 0 <= i < |urls| ==> CleanUrl(urls[i]) == Some(cleaned.value[i]))
  {
    cleaned := CleanEach(InputUrls(input, readLines), CleanUrl);
  }

  /** The loop of `clean_urls`, given the clean-up of one URL: the cleaned entries in
      order, or None at the first URL whose clean-up raises. */
  method CleanEach(urls: seq<string>, clean: string -> Option<string>) returns (cleaned: Option<seq<string>>)
    ensures cleaned.Some? <==> forall i :: 0 <= i < |urls| ==> clean(urls[i]).Some?
    ensures cleaned.Some? ==> (|cleaned.value| == |urls| &&
                               forall i :: 0 <= i < |urls| ==> clean(urls[i]) == Some(cleaned.value[i]))
  {
    var acc: seq<string> := [];
    for i := 0 to |urls|
      invariant |acc| == i
      invariant forall k :: 0 <= k < i ==> clean(urls[k]) == Some(acc[k])
    {
      var c := clean(urls[i]);
      if c.None? {
        return None;
      }
      acc := acc + [c.value];
    }
    cleaned := Some(acc);
  }

  /** A URL with an http(s) scheme cleans to its host. */
  lemma CleanSchemeUrl(scheme: string, host: string, rest: string)
    requires scheme == "https" || scheme == "http"
    requires host != ""
    requires forall c :: c in host ==> c !in "/?#[]"
    requires rest == "" || rest[0] in "/?#"
    ensures CleanUrl(scheme + "://" + host + rest) == Some(host)
  {
    ParseHostUrl(scheme, host, rest);
  }

  /** A URL without a scheme cleans to the text before its first '/'. */
  lemma CleanBareUrl(host: string, rest: string)
    requires host != ""
    requires forall c :: c in host ==> c !in "/?#;:"
    requires rest == "" || rest[0] == '/'
    requires forall c :: c in rest ==> c !in "?#;:"
    ensures CleanUrl(host + rest) == Some(host)
  {
    var url := host + rest;
    assert url[0] == host[0] && host[0] in host;
    ParseBareUrl(url);
    var f := Find(url, '/');
    assert forall k :: 0 <= k < |host| ==> url[k] != '/' by {
      forall k | 0 <= k < |host| ensures url[k] != '/' {
        assert url[k] == host[k] && host[k] in host;
      }
    }
    assert |host| < |url| ==> url[|host|] == '/';
    assert f == |host|;
    assert url[..f] == host;
  }

  /** The examples of the clean-up: "https://a.b/c" and "a.b/c" both become "a.b". */
  lemma CleanSchemeUrlExample()
    ensures CleanUrl("https://a.b/c") == Some("a.b")
  {
    var host := "a.b";
    assert "https://a.b/c" == "https" + "://" + host + "/c";
    CleanSchemeUrl("https", host, "/c");
  }

  lemma CleanBareUrlExample()
    ensures CleanUrl("a.b/c") == Some("a.b")
  {
    var host := "a.b";
    assert "a.b/c" == host + "/c";
    CleanBareUrl(host, "/c");
  }

  /** What one request returns: the final URL after redirects, the status and the
      headers. */
  datatype Response = Response(url: string, statusCode: int, headers: map<string, string>)

  datatype FetchResult = FetchResult(finalUrl: string, statusCode: int, protocol: string,
                                     headers: map<string, string>, timestamp: string)

  const Protocols: seq<string> := ["https://", "http://"]

  /** `s.rstrip(chars)`: trailing characters drawn from `chars` removed. */
  function RStrip(s: string, chars: string): (r: string)
    ensures StartsWith(s, r)
    ensures r == [] || r[|r| - 1] !in chars
    ensures forall k :: |r| <= k < |s| ==> s[k] in chars
  {
    if s == [] || s[|s| - 1] !in chars then s else RStrip(s[..|s| - 1], chars)
  }

  lemma ProtocolNames()
    ensures RStrip("https://", "://") == "https"
    ensures RStrip("http://", "://") == "http"
  {
    assert "https://"[..7] == "https:/";
    assert "https:/"[..6] == "https:";
    assert "https:"[..5] == "https";
    assert "http://"[..6] == "http:/";
    assert "http:/"[..5] == "http:";
    assert "http:"[..4] == "http";
  }

  function Answered(response: Response, protocol: string, now: string): FetchResult {
    FetchResult(response.url, response.statusCode, RStrip(protocol, "://"), response.headers, now)
  }

  /** The result of fetching one URL: the first of https and http that answers, or
      the input URL with status 0, no protocol and no headers. */
  function Fetched(url: string, request: string -> Option<Response>, now: string): FetchResult {
    match request("https://" + url)
    case Some(response) => FetchResult(response.url, response.statusCode, "https", response.headers, now)
    case None =>
      match request("http://" + url)
      case Some(response) => FetchResult(response.url, response.statusCode, "http", response.headers, now)
      case None => FetchResult(url, 0, "", map[], now)
  }

  /** `fetch_single_url`: https first, then http; the first request that answers gives
      the result, and when both fail the result names the input URL with status 0, no
      protocol and no headers. */
  method FetchSingleUrl(url: string, request: string -> Option<Response>, now: string) returns (r: FetchResult)
    ensures request("https://" + url).Some? ==>
      r == FetchResult(request("https://" + url).value.url, request("https://" + url).value.statusCode,
                       "https", request("https://" + url).value.headers, now)
    ensures request("https://" + url).None? && request("http://" + url).Some? ==>
      r == FetchResult(request("http://" + url).value.url, request("http://" + url).value.statusCode,
                       "http", request("http://" + url).value.headers, now)
    ensures request("https://" + url).None? && request("http://" + url).None? ==>
      r == FetchResult(url, 0, "", map[], now)
    ensures r == Fetched(url, request, now)
  {
    ProtocolNames();
    for i := 0 to |Protocols|
      invariant forall k :: 0 <= k < i ==> request(Protocols[k] + url).None?
    {
      var response := request(Protocols[i] + url);
      if response.Some? {
        assert i == 1 ==> request("https://" + url).None? by {
          if i == 1 {
            assert Protocols[0] == "https://";
          }
        }
        return Answered(response.value, Protocols[i], now);
      }
    }
    assert request(Protocols[0] + url).None? && request(Protocols[1] + url).None?;
    r := FetchResult(url, 0, "", map[], now);
  }

  /** `fetch_headers` without its printing: the results of fetching each cleaned URL,
      in order. `clock(i)` is the time `datetime.now()` reads during the i-th fetch. */
  method FetchHeaders(input: UrlInput, readLines: string -> seq<string>,
                      request: string -> Option<Response>, clock: nat -> string)
    returns (results: Option<seq<FetchResult>>)
    ensures results.Some? <==> (var urls := InputUrls(input, readLines);
                                forall i :: 0 <= i < |urls| ==> CleanUrl(urls[i]).Some?)
    ensures results.Some? ==> |results.value| == |InputUrls(input, readLines)|
    ensures results.Some? ==> forall i :: 0 <= i < |results.value| ==>
              results.value[i] == Fetched(CleanUrl(InputUrls(input, readLines)[i]).value, request, clock(i))
  {
    var cleaned := CleanUrls(input, readLines);
    if cleaned.None? {
      return None;
    }
    var urls := InputUrls(input, readLines);
    var fetched := FetchEach(cleaned.value, request, clock);
    forall k | 0 <= k < |fetched|
      ensures fetched[k] == Fetched(CleanUrl(urls[k]).value, request, clock(k))
    {
      assert CleanUrl(urls[k]) == Some(cleaned.value[k]);
    }
    results := Some(fetched);
  }

  /** The loop of `fetch_headers`: one fetch per cleaned URL, in order. */
  method FetchEach(urls: seq<string>, request: string -> Option<Response>, clock: nat -> string)
    returns (fetched: seq<FetchResult>)
    ensures |fetched| == |urls|
    ensures forall k :: 0 <= k < |urls| ==> fetched[k] == Fetched(urls[k], request, clock(k))
  {
    fetched := [];
    for i := 0 to |urls|
      invariant |fetched| == i
      invariant forall k :: 0 <= k < i ==> fetched[k] == Fetched(urls[k], request, clock(k))
    {
      var result := FetchSingleUrl(urls[i], request, clock(i));
      fetched := fetched + [result];
    }
  }
}
