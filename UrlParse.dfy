/**
 * The part of Python's `urllib.parse.urlparse` that new_version/scanner.py and
 * Container/evaluator.py rely on (the CPython 3.9+ algorithm): the scheme, the
 * network location after "//", and the path with query, fragment and `;params`
 * split off. A netloc with an unmatched '[' or ']' raises ValueError, modelled as
 * None.
 */
module UrlParse {
  import opened Common

  datatype ParsedUrl = ParsedUrl(scheme: string, netloc: string, path: string, params: string,
                                 query: string, fragment: string)

  predicate IsAsciiLetter(c: char) {
    ('a' <= c <= 'z') || ('A' <= c <= 'Z')
  }

  /** Characters allowed in a scheme: letters, digits, '+', '-' and '.'. */
  predicate SchemeChar(c: char) {
    IsAsciiLetter(c) || ('0' <= c <= '9') || c == '+' || c == '-' || c == '.'
  }

  function LowerChar(c: char): char {
    if 'A' <= c <= 'Z' then (c as int + 32) as char else c
  }

  function Lower(s: string): (r: string)
    ensures |r| == |s|
    ensures forall i :: 0 <= i < |s| ==> r[i] == LowerChar(s[i])
  {
    seq(|s|, i requires 0 <= i < |s| => LowerChar(s[i]))
  }

  /** `s.find(c)`: the first position of `c`, or |s| when there is none. */
  function Find(s: string, c: char): (i: nat)
    ensures i <= |s|
    ensures i < |s| ==> s[i] == c
    ensures forall k :: 0 <= k < i ==> s[k] != c
  {
    if s == [] then 0
    else if s[0] == c then 0
    else 1 + Find(s[1..], c)
  }

  /** The first position holding any of '/', '?', '#', or |s|. */
  function NetlocEnd(s: string): (i: nat)
    ensures i <= |s|
    ensures i < |s| ==> s[i] in "/?#"
    ensures forall k :: 0 <= k < i ==> s[k] !in "/?#"
  {
    if s == [] then 0
    else if s[0] in "/?#" then 0
    else 1 + NetlocEnd(s[1..])
  }

  /** The schemes whose path has `;params` split off ("" included). */
  const UsesParams: seq<string> :=
    ["", "ftp", "hdl", "prospero", "http", "imap", "https", "shttp", "rtsp", "rtsps",
     "rtspu", "sip", "sips", "mms", "sftp", "tel"]

  /** Text before the first ':' is a scheme when it is non-empty, starts with a letter
      and holds only scheme characters. */
  function SplitScheme(url: string): (r: (string, string))
    ensures var i := Find(url, ':');
      (0 < i < |url| && IsAsciiLetter(url[0]) && forall k :: 0 <= k < i ==> SchemeChar(url[k])) ==>
        r == (Lower(url[..i]), url[i + 1..])
    ensures r.0 == "" ==> r.1 == url
  {
    var i := Find(url, ':');
    if 0 < i < |url| && IsAsciiLetter(url[0]) && forall k :: 0 <= k < i ==> SchemeChar(url[k]) then
      (Lower(url[..i]), url[i + 1..])
    else ("", url)
  }

  /** After "//", the network location runs up to the first '/', '?' or '#'. */
  function SplitNetloc(rest: string): (r: (string, string))
    ensures r.0 + r.1 == (if StartsWith(rest, "//") then rest[2..] else rest)
    ensures forall c :: c in r.0 ==> c !in "/?#"
    ensures !StartsWith(rest, "//") ==> r.0 == ""
  {
    if StartsWith(rest, "//") then
      var e := 2 + NetlocEnd(rest[2..]);
      assert rest[2..e] + rest[e..] == rest[2..];
      (rest[2..e], rest[e..])
    else ("", rest)
  }

  /** `url.split(c, 1)` when `c` occurs, else (url, ""). */
  function SplitAt(url: string, c: char): (r: (string, string))
    ensures c !in r.0
    ensures c in url ==> r.0 + [c] + r.1 == url
    ensures c !in url ==> r == (url, "")
  {
    var i := Find(url, c);
    if i < |url| then
      assert url[..i] + [c] + url[i + 1..] == url;
      (url[..i], url[i + 1..])
    else (url, "")
  }

  /** Python's `_splitparams`: the `;` in the last path segment (or anywhere when there
      is no '/'). */
  function SplitParams(path: string): (string, string) {
    var slash := LastSlash(path);
    var i := if slash < |path| then slash + Find(path[slash..], ';') else Find(path, ';');
    if i < |path| then (path[..i], path[i + 1..]) else (path, "")
  }

  /** The position of the last '/', or |s| when there is none. */
  function LastSlash(s: string): (i: nat)
    ensures i <= |s|
    ensures i < |s| ==> s[i] == '/' && forall k :: i < k < |s| ==> s[k] != '/'
    ensures i == |s| ==> forall k :: 0 <= k < |s| ==> s[k] != '/'
  {
    if s == [] then 0
    else if s[|s| - 1] == '/' then |s| - 1
    else
      var j := LastSlash(s[..|s| - 1]);
      if j < |s| - 1 then j else |s|
  }

  predicate UnbalancedBrackets(netloc: string) {
    ('[' in netloc && ']' !in netloc) || (']' in netloc && '[' !in netloc)
  }

  function Urlparse(url: string): (p: Option<ParsedUrl>)
    ensures p.Some? ==> forall c :: c in p.value.netloc ==> c !in "/?#"
  {
    var schemeSplit := SplitScheme(url);
    var netlocSplit := SplitNetloc(schemeSplit.1);
    if UnbalancedBrackets(netlocSplit.0) then None
    else Some(SplitPath(schemeSplit.0, netlocSplit.0, netlocSplit.1))
  }

  /** What follows the network location: fragment, then query, then `;params`. */
  function SplitPath(scheme: string, netloc: string, rest: string): ParsedUrl {
    var (beforeFragment, fragment) := SplitAt(rest, '#');
    var (beforeQuery, query) := SplitAt(beforeFragment, '?');
    var (path, params) := if scheme in UsesParams && ';' in beforeQuery then SplitParams(beforeQuery) else (beforeQuery, "");
    ParsedUrl(scheme, netloc, path, params, query, fragment)
  }

  /** An http(s) url with a plain host: the scheme and the host are read back. */
  lemma ParseHostUrl(scheme: string, host: string, rest: string)
    requires scheme == "https" || scheme == "http"
    requires forall c :: c in host ==> c !in "/?#[]"
    requires rest == "" || rest[0] in "/?#"
    ensures Urlparse(scheme + "://" + host + rest).Some?
    ensures Urlparse(scheme + "://" + host + rest).value.scheme == scheme
    ensures Urlparse(scheme + "://" + host + rest).value.netloc == host
  {
    var url := scheme + "://" + host + rest;
    SchemeOfHostUrl(scheme, "//" + host + rest);
    assert url == scheme + ":" + ("//" + host + rest);
    NetlocOfHost(host, rest);
    assert !UnbalancedBrackets(host);
    assert Urlparse(url) == Some(SplitPath(scheme, host, rest));
  }

  /** "http:" or "https:" in front of a text is read as that scheme. */
  lemma SchemeOfHostUrl(scheme: string, after: string)
    requires scheme == "https" || scheme == "http"
    ensures SplitScheme(scheme + ":" + after) == (scheme, after)
  {
    var url := scheme + ":" + after;
    var n := |scheme|;
    assert url[n] == ':';
    assert Find(url, ':') == n by {
      forall k | 0 <= k < n ensures url[k] != ':' {
        assert url[k] == scheme[k];
      }
    }
    assert forall k :: 0 <= k < n ==> SchemeChar(url[k]) by {
      forall k | 0 <= k < n ensures SchemeChar(url[k]) {
        assert url[k] == scheme[k];
      }
    }
    assert url[..n] == scheme;
    assert Lower(scheme) == scheme;
    assert url[n + 1..] == after;
  }

  /** After "//", a host free of '/', '?' and '#' is the whole network location. */
  lemma NetlocOfHost(host: string, rest: string)
    requires forall c :: c in host ==> c !in "/?#"
    requires rest == "" || rest[0] in "/?#"
    ensures SplitNetloc("//" + host + rest) == (host, rest)
  {
    var after := "//" + host + rest;
    assert StartsWith(after, "//");
    assert after[2..] == host + rest;
    NetlocEndOfHost(host, rest);
    assert after[2..2 + |host|] == host;
    assert after[2 + |host|..] == rest;
  }

  /** A url without ':', '?', '#' or ';' that does not start with '/' is all path. */
  lemma ParseBareUrl(url: string)
    requires url != [] && url[0] != '/'
    requires forall c :: c in url ==> c !in ":?#;"
    ensures Urlparse(url) == Some(ParsedUrl("", "", url, "", "", ""))
  {
    assert ':' !in url;
    assert Find(url, ':') == |url|;
    assert SplitScheme(url) == ("", url);
    assert !StartsWith(url, "//") by {
      if |url| >= 2 {
        assert url[..2][0] == url[0];
      }
    }
    assert '#' !in url && '?' !in url && ';' !in url;
  }

  lemma {:induction false} NetlocEndOfHost(host: string, rest: string)
    requires forall c :: c in host ==> c !in "/?#"
    requires rest == "" || rest[0] in "/?#"
    ensures NetlocEnd(host + rest) == |host|
  {
    if host != [] {
      assert (host + rest)[1..] == host[1..] + rest;
      NetlocEndOfHost(host[1..], rest);
    } else {
      assert host + rest == rest;
    }
  }
}
