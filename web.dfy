/** What the preview code sees of the browser: a parsed HTML document reduced to what
    `querySelector` returns for each selector, the preview record shown on a card,
    and the URL parser, which is foreign code and so enters the model as an oracle. */
module Web {
  import opened Text

  /** An element found by a selector, reduced to the three properties the code reads:
      the `content` attribute of a `<meta>`, the `href` of a `<link>` and the
      `textContent` of `<title>`. A missing attribute reads as "". */
  datatype Element = Element(content: string, href: string, text: string)

  /** A parsed document: which element, if any, `querySelector` returns per selector. */
  type Document = map<string, Element>

  /** `doc.querySelector(selector)` */
  function Query(doc: Document, selector: string): Option<Element> {
    if selector in doc then Some(doc[selector]) else None
  }

  /** The preview a card renders. `None` stands for JavaScript's `null`. */
  datatype Preview = Preview(
    title: string,
    description: Option<string>,
    image: Option<string>,
    siteName: string,
    favicon: Option<string>)

  /** The foreign code the preview pipeline calls:
      - `parseHtml`: `new DOMParser().parseFromString(html, 'text/html')`;
      - `resolve(ref, base)`: `new URL(ref, base).href`, `None` when it throws;
      - `hostname(link)`: `new URL(link).hostname`, `None` when it throws. */
  datatype Browser = Browser(
    parseHtml: string -> Document,
    resolve: (string, string) -> Option<string>,
    hostname: string -> Option<string>)

  /** The favicon service URL used whenever a page names no icon. */
  function FaviconService(hostname: string): (r: string)
    ensures StartsWith(r, "https://www.google.com/s2/favicons?domain=")
  {
    "https://www.google.com/s2/favicons?domain=" + hostname + "&sz=32"
  }

  /** The parts of an absolute URL the code uses: `protocol` (with its colon), `host`
      (with a port, if any) and `hostname`. */
  datatype Url = Url(protocol: string, host: string, hostname: string)

  predicate IsSchemeChar(c: char) {
    IsAlphaNum(c) || c == '+' || c == '-' || c == '.'
  }

  predicate EndsAuthority(c: char) { c == '/' || c == '?' || c == '#' || c == '\\' }

  /** Length of the longest prefix of `s` with no character ending the authority. */
  function AuthorityLength(s: string): (n: nat)
    ensures n <= |s|
    ensures forall i | 0 <= i < n :: !EndsAuthority(s[i])
    ensures n < |s| ==> EndsAuthority(s[n])
  {
    if s == [] || EndsAuthority(s[0]) then 0 else 1 + AuthorityLength(s[1..])
  }

  /** Drops userinfo: everything up to and including the last `@`. */
  function AfterAt(s: string): (r: string)
    ensures '@' !in r && |r| <= |s|
    decreases |s|
  {
    if '@' in s then AfterAt(s[IndexOf(s, '@') + 1..]) else s
  }

  predicate ValidScheme(scheme: string) {
    scheme != [] && IsAsciiLetter(scheme[0]) && forall i | 0 <= i < |scheme| :: IsSchemeChar(scheme[i])
  }

  /** The host named by what follows `//`: the authority without userinfo, lowercased. */
  function HostOf(afterSlashes: string): string {
    ToLower(AfterAt(afterSlashes[..AuthorityLength(afterSlashes)]))
  }

  predicate AllDigits(s: string) {
    forall i | 0 <= i < |s| :: IsDigit(s[i])
  }

  /** A host split into its hostname and the digits of its port ("" for none): a
      bracketed IPv6 literal runs to its `]`, any other hostname to the first `:`, and
      what follows must be nothing, or `:` and digits. `None` when it is neither. */
  function SplitHost(host: string): (r: Option<(string, string)>)
    ensures r.Some? ==> AllDigits(r.value.1)
    ensures r.Some? ==> host == r.value.0 || host == r.value.0 + ":" + r.value.1
    ensures r.Some? && host != [] && host[0] == '[' ==> ']' in r.value.0 && ']' == r.value.0[|r.value.0| - 1]
    ensures r.Some? && (host == [] || host[0] != '[') ==> ':' !in r.value.0
  {
    if host != [] && host[0] == '[' && ']' !in host then None
    else
      var n := if host != [] && host[0] == '[' then IndexOf(host, ']') + 1
               else if ':' in host then IndexOf(host, ':') else |host|;
      var rest := host[n..];
      assert host == host[..n] + rest;
      if rest == [] then Some((host, ""))
      else if rest[0] == ':' && AllDigits(rest[1..]) then
        assert rest == ":" + rest[1..];
        Some((host[..n], rest[1..]))
      else None
  }

  /** The decimal value of a string of digits. */
  function DigitsValue(d: string): nat
    requires AllDigits(d)
  {
    if d == [] then 0 else 10 * DigitsValue(d[..|d| - 1]) + (d[|d| - 1] as int - '0' as int)
  }

  /** The digits of a port as the URL serializer writes them: without leading zeros. */
  function DropZeros(d: string): (r: string)
    ensures |r| <= |d| && (d != [] ==> r != []) && r == d[|d| - |r|..]
  {
    if |d| > 1 && d[0] == '0' then DropZeros(d[1..]) else d
  }

  /** The default port of a special scheme, "" for the others. */
  function DefaultPort(scheme: string): string {
    if scheme == "http" || scheme == "ws" then "80"
    else if scheme == "https" || scheme == "wss" then "443"
    else if scheme == "ftp" then "21"
    else ""
  }

  lemma HttpsDefaultPort()
    ensures DefaultPort("https") == "443"
  {
    assert |"https"| == 5 && |"http"| == 4 && |"ws"| == 2;
  }

  predicate ValidHostname(hostname: string) {
    hostname != [] && forall i | 0 <= i < |hostname| :: !IsSpace(hostname[i])
  }

  /** The parts of a URL with the lowercased `scheme` whose authority, without its
      userinfo, is `authority`: the hostname is the authority without its port, and
      the host keeps the port only when it is not the scheme's default. A port above
      65535 is refused. */
  function UrlOf(scheme: string, authority: string): (r: Option<Url>)
    ensures r.Some? ==> r.value.hostname != "" && r.value.protocol == scheme + ":"
    ensures r.Some? ==> StartsWith(r.value.host, r.value.hostname)
  {
    match SplitHost(authority)
    case None => None
    case Some((hostname, digits)) =>
      if !ValidHostname(hostname) || DigitsValue(digits) > 65535 then None
      else
        var port := DropZeros(digits);
        var host := if port == [] || port == DefaultPort(scheme) then hostname else hostname + ":" + port;
        assert host[..|hostname|] == hostname;
        Some(Url(scheme + ":", host, hostname))
  }

  /** A hierarchical URL `scheme://authority...`, the only form the card code feeds to
      `new URL(link)` on the paths that matter. The scheme and the host are lowercased. */
  function ParseUrl(s: string): (r: Option<Url>)
    ensures r.Some? ==> r.value.hostname != "" && |r.value.protocol| >= 2 && r.value.protocol[|r.value.protocol| - 1] == ':'
    ensures r.Some? ==> StartsWith(r.value.host, r.value.hostname)
  {
    if ':' !in s then None
    else
      var k := IndexOf(s, ':');
      if !ValidScheme(s[..k]) || !StartsWith(s[k + 1..], "//") then None
      else UrlOf(ToLower(s[..k]), HostOf(s[k + 3..]))
  }

  /** The explicit normalizer of an earlier card version: a candidate starting with
      `http` is kept, `//x` becomes `https://x`, `/p` is put after the page's
      `protocol//host`, anything else after `protocol//host/`. It is `None` only when
      the page URL has to be parsed and cannot be. */
  function NormalizeExplicit(candidate: string, link: string): (r: Option<string>)
    ensures StartsWith(candidate, "http") ==> r == Some(candidate)
    ensures !StartsWith(candidate, "http") && StartsWith(candidate, "//") ==> r == Some("https:" + candidate)
    ensures !StartsWith(candidate, "http") && !StartsWith(candidate, "/") ==>
      r == (match ParseUrl(link) case None => None case Some(u) => Some(u.protocol + "//" + u.host + "/" + candidate))
    ensures !StartsWith(candidate, "http") && !StartsWith(candidate, "//") && StartsWith(candidate, "/") ==>
      r == (match ParseUrl(link) case None => None case Some(u) => Some(u.protocol + "//" + u.host + candidate))
  {
    if StartsWith(candidate, "http") then Some(candidate)
    else if StartsWith(candidate, "//") then Some("https:" + candidate)
    else
      match ParseUrl(link)
      case None => None
      case Some(u) => Some(Rebase(candidate, u))
  }

  /** A relative candidate put after the page's `protocol//host`, with a slash between
      unless it starts with one. */
  function Rebase(candidate: string, u: Url): string {
    if StartsWith(candidate, "/") then u.protocol + "//" + u.host + candidate
    else u.protocol + "//" + u.host + "/" + candidate
  }

  /** Has the form `http...` or `<scheme>://...`. */
  predicate LooksAbsolute(u: string) {
    StartsWith(u, "http") || exists i | 0 < i < |u| - 2 :: u[i] == ':' && u[i + 1] == '/' && u[i + 2] == '/'
  }

  /** Every URL the explicit normalizer produces is absolute in the sense above. */
  lemma NormalizeExplicitAbsolute(candidate: string, link: string)
    ensures NormalizeExplicit(candidate, link).Some? ==> LooksAbsolute(NormalizeExplicit(candidate, link).value)
  {
    if StartsWith(candidate, "http") {
    } else if StartsWith(candidate, "//") {
      assert ("https:" + candidate)[..4] == "http";
    } else if ParseUrl(link).Some? {
      RebaseAbsolute(candidate, ParseUrl(link).value);
    }
  }

  lemma RebaseAbsolute(candidate: string, u: Url)
    requires |u.protocol| >= 2 && u.protocol[|u.protocol| - 1] == ':'
    ensures LooksAbsolute(Rebase(candidate, u))
  {
    if StartsWith(candidate, "/") {
      assert Rebase(candidate, u) == u.protocol + "//" + (u.host + candidate);
      OriginAbsolute(u.protocol, u.host + candidate);
    } else {
      assert Rebase(candidate, u) == u.protocol + "//" + (u.host + "/" + candidate);
      OriginAbsolute(u.protocol, u.host + "/" + candidate);
    }
  }

  /** `protocol//rest` is absolute when the protocol ends in a colon after a name. */
  lemma OriginAbsolute(protocol: string, rest: string)
    requires |protocol| >= 2 && protocol[|protocol| - 1] == ':'
    ensures LooksAbsolute(protocol + "//" + rest)
  {
    var s := protocol + "//" + rest;
    var i := |protocol| - 1;
    assert s[i] == ':' && s[i + 1] == '/' && s[i + 2] == '/';
  }

  /** The origin `protocol//host` of `https://host/path` for a plain lower-case host. */
  lemma HttpsOrigin(host: string, path: string)
    requires host != [] && NoUpper(host) && host[0] != '['
    requires forall i | 0 <= i < |host| :: !EndsAuthority(host[i]) && host[i] != '@' && host[i] != ':' && !IsSpace(host[i])
    requires path != [] && path[0] == '/'
    ensures ParseUrl("https://" + host + path).Some?
    ensures ParseUrl("https://" + host + path).value.protocol + "//" + ParseUrl("https://" + host + path).value.host == "https://" + host
  {
    ParseHttps(host, path);
    var u := ParseUrl("https://" + host + path).value;
    assert u == Url("https:", host, host);
    HttpsPrefix(host);
  }

  lemma HttpsColon()
    ensures "https" + ":" == "https:"
  {
    assert ("https" + ":")[5] == ':';
  }

  lemma HttpsPrefix(host: string)
    ensures "https:" + "//" + host == "https://" + host
  {
    assert "https:" + "//" == "https://";
  }

  /** On an `https` page with a plain host, a root-relative candidate is put after the
      page's origin. */
  lemma RootRelativeOnHttpsPage(host: string, path: string, candidate: string)
    requires host != [] && NoUpper(host) && host[0] != '['
    requires forall i | 0 <= i < |host| :: !EndsAuthority(host[i]) && host[i] != '@' && host[i] != ':' && !IsSpace(host[i])
    requires path != [] && path[0] == '/'
    requires !StartsWith(candidate, "http") && !StartsWith(candidate, "//") && StartsWith(candidate, "/")
    ensures NormalizeExplicit(candidate, "https://" + host + path) == Some("https://" + host + candidate)
  {
    HttpsOrigin(host, path);
  }

  /** On an `https` page with a plain host, a bare relative candidate is put after the
      page's origin and a slash. */
  lemma RelativeOnHttpsPage(host: string, path: string, candidate: string)
    requires host != [] && NoUpper(host) && host[0] != '['
    requires forall i | 0 <= i < |host| :: !EndsAuthority(host[i]) && host[i] != '@' && host[i] != ':' && !IsSpace(host[i])
    requires path != [] && path[0] == '/'
    requires !StartsWith(candidate, "http") && !StartsWith(candidate, "/")
    ensures NormalizeExplicit(candidate, "https://" + host + path) == Some("https://" + host + "/" + candidate)
  {
    HttpsOrigin(host, path);
  }

  /** Writing the default port `:443`, with or without leading zeros, in the page
      address changes nothing the normalizer produces. */
  lemma DefaultPortIgnored(host: string, digits: string, path: string, candidate: string)
    requires host != [] && NoUpper(host) && host[0] != '['
    requires forall i | 0 <= i < |host| :: !EndsAuthority(host[i]) && host[i] != '@' && host[i] != ':' && !IsSpace(host[i])
    requires AllDigits(digits) && DropZeros(digits) == "443" && DigitsValue(digits) <= 65535
    requires path != [] && path[0] == '/'
    ensures NormalizeExplicit(candidate, "https://" + host + ":" + digits + path) ==
            NormalizeExplicit(candidate, "https://" + host + path)
  {
    ParseHttps(host, path);
    ParseHttpsDefaultPort(host, digits, path);
  }

  /** A protocol-relative candidate gets `https:` in front. */
  lemma ProtocolRelativeExample()
    ensures NormalizeExplicit("//cdn.ex.com/a.png", "https://ex.com/x") == Some("https://cdn.ex.com/a.png")
  {
    var d := "//cdn.ex.com/a.png";
    assert !StartsWith(d, "http") by { assert d[0] != 'h'; }
    assert StartsWith(d, "//");
    assert "https:" + d == "https://cdn.ex.com/a.png";
  }

  /** The authority of `a + path` is `a` when `a` has no character ending an
      authority, no `@` and no capital. */
  lemma AuthorityOf(a: string, path: string)
    requires NoUpper(a) && forall i | 0 <= i < |a| :: !EndsAuthority(a[i]) && a[i] != '@'
    requires path != [] && path[0] == '/'
    ensures HostOf(a + path) == a
  {
    AuthorityLengthAt(a + path, |a|);
    assert (a + path)[..|a|] == a;
    assert '@' !in a;
    ToLowerProperties(a);
  }

  /** The authority of `host + path` is the plain host, which is its own hostname. */
  lemma PlainHost(host: string, path: string)
    requires host != [] && NoUpper(host)
    requires forall i | 0 <= i < |host| :: !EndsAuthority(host[i]) && host[i] != '@' && host[i] != ':' && !IsSpace(host[i])
    requires path != [] && path[0] == '/'
    ensures HostOf(host + path) == host && ':' !in host && ValidHostname(host)
  {
    AuthorityOf(host, path);
    assert ':' !in host;
  }

  /** The authority of `host + ":" + digits + path` is the host with its port. */
  lemma PortHost(host: string, digits: string, path: string)
    requires host != [] && NoUpper(host)
    requires forall i | 0 <= i < |host| :: !EndsAuthority(host[i]) && host[i] != '@' && host[i] != ':' && !IsSpace(host[i])
    requires AllDigits(digits) && path != [] && path[0] == '/'
    ensures HostOf(host + ":" + digits + path) == host + ":" + digits && ':' !in host && ValidHostname(host)
  {
    var a := host + ":" + digits;
    forall i | 0 <= i < |a| ensures !EndsAuthority(a[i]) && a[i] != '@' && !('A' <= a[i] <= 'Z') {
      if i < |host| {
        assert a[i] == host[i];
      } else if i > |host| {
        assert a[i] == digits[i - |host| - 1];
      }
    }
    assert a + path == host + ":" + digits + path;
    AuthorityOf(a, path);
    assert ':' !in host;
  }

  /** A host without a colon is its own hostname, with no port. */
  lemma SplitPlain(host: string)
    requires host != [] && host[0] != '[' && ':' !in host
    ensures SplitHost(host) == Some((host, ""))
  {
    assert host[|host|..] == [];
  }

  /** Without a port, the host is its own hostname. */
  lemma UrlPlain(scheme: string, host: string)
    requires host != [] && host[0] != '[' && ':' !in host && ValidHostname(host)
    ensures UrlOf(scheme, host) == Some(Url(scheme + ":", host, host))
  {
    SplitPlain(host);
  }

  /** A host without a colon followed by `:` and digits splits at that colon. */
  lemma SplitPort(host: string, digits: string)
    requires host != [] && host[0] != '[' && ':' !in host && AllDigits(digits)
    ensures SplitHost(host + ":" + digits) == Some((host, digits))
  {
    var a := host + ":" + digits;
    assert a[|host|] == ':' && a[..|host|] == host;
    IndexOfUnique(a, ':', |host|);
    assert a[|host|..] == ":" + digits;
    assert a[|host|..][1..] == digits;
  }

  /** With a port, the host keeps it unless it is the scheme's default; the hostname
      never has it. */
  lemma UrlWithPort(scheme: string, host: string, digits: string)
    requires host != [] && host[0] != '[' && ':' !in host && ValidHostname(host)
    requires AllDigits(digits) && DigitsValue(digits) <= 65535
    ensures DropZeros(digits) == [] || DropZeros(digits) == DefaultPort(scheme) ==>
      UrlOf(scheme, host + ":" + digits) == Some(Url(scheme + ":", host, host))
    ensures DropZeros(digits) != [] && DropZeros(digits) != DefaultPort(scheme) ==>
      UrlOf(scheme, host + ":" + digits) == Some(Url(scheme + ":", host + ":" + DropZeros(digits), host))
  {
    SplitPort(host, digits);
  }

  /** `https://` followed by more text parses as the authority of that text. */
  lemma HttpsScheme(rest: string)
    ensures ParseUrl("https://" + rest) == UrlOf("https", HostOf(rest))
  {
    var s := "https://" + rest;
    assert s[..5] == "https";
    IndexOfUnique(s, ':', 5);
    assert ValidScheme("https");
    assert StartsWith(s[6..], "//");
    assert s[8..] == rest;
    ToLowerProperties("https");
    assert ToLower(s[..5]) == "https";
  }

  /** Parsing `https://host/path` for a plain lower-case host. */
  lemma ParseHttps(host: string, path: string)
    requires host != [] && NoUpper(host) && host[0] != '['
    requires forall i | 0 <= i < |host| :: !EndsAuthority(host[i]) && host[i] != '@' && host[i] != ':' && !IsSpace(host[i])
    requires path != [] && path[0] == '/'
    ensures ParseUrl("https://" + host + path) == Some(Url("https:", host, host))
  {
    assert "https://" + host + path == "https://" + (host + path);
    HttpsScheme(host + path);
    PlainHost(host, path);
    UrlPlain("https", host);
    HttpsColon();
  }

  /** `https://host:digits/path` parses as the authority `host:digits`. */
  lemma HttpsPortAuthority(host: string, digits: string, path: string)
    requires host != [] && NoUpper(host) && host[0] != '['
    requires forall i | 0 <= i < |host| :: !EndsAuthority(host[i]) && host[i] != '@' && host[i] != ':' && !IsSpace(host[i])
    requires AllDigits(digits) && path != [] && path[0] == '/'
    ensures ParseUrl("https://" + host + ":" + digits + path) == UrlOf("https", host + ":" + digits)
    ensures ':' !in host && ValidHostname(host)
  {
    var rest := host + ":" + digits + path;
    assert "https://" + host + ":" + digits + path == "https://" + rest;
    HttpsScheme(rest);
    PortHost(host, digits, path);
  }

  /** Parsing `https://host:port/path` with the default port 443, with or without
      leading zeros: the port is dropped from the host. */
  lemma ParseHttpsDefaultPort(host: string, digits: string, path: string)
    requires host != [] && NoUpper(host) && host[0] != '['
    requires forall i | 0 <= i < |host| :: !EndsAuthority(host[i]) && host[i] != '@' && host[i] != ':' && !IsSpace(host[i])
    requires AllDigits(digits) && DigitsValue(digits) <= 65535 && DropZeros(digits) == "443"
    requires path != [] && path[0] == '/'
    ensures ParseUrl("https://" + host + ":" + digits + path) == Some(Url("https:", host, host))
  {
    HttpsPortAuthority(host, digits, path);
    HttpsDefaultPort();
    UrlWithPort("https", host, digits);
    HttpsColon();
  }

  /** Parsing `https://host:port/path` with any other port: the host keeps the port,
      written without leading zeros, and the hostname does not. */
  lemma ParseHttpsOtherPort(host: string, digits: string, path: string)
    requires host != [] && NoUpper(host) && host[0] != '['
    requires forall i | 0 <= i < |host| :: !EndsAuthority(host[i]) && host[i] != '@' && host[i] != ':' && !IsSpace(host[i])
    requires AllDigits(digits) && DigitsValue(digits) <= 65535 && DropZeros(digits) != [] && DropZeros(digits) != "443"
    requires path != [] && path[0] == '/'
    ensures ParseUrl("https://" + host + ":" + digits + path) == Some(Url("https:", host + ":" + DropZeros(digits), host))
  {
    HttpsPortAuthority(host, digits, path);
    HttpsDefaultPort();
    UrlWithPort("https", host, digits);
    HttpsColon();
  }

  lemma {:induction false} AuthorityLengthAt(s: string, n: nat)
    requires n <= |s|
    requires forall i | 0 <= i < n :: !EndsAuthority(s[i])
    requires n < |s| ==> EndsAuthority(s[n])
    ensures AuthorityLength(s) == n
  {
    if n > 0 {
      AuthorityLengthAt(s[1..], n - 1);
    }
  }

  /** The browser oracle instantiated with the explicit normalizer and the URL parser above. */
  function ExplicitBrowser(parseHtml: string -> Document): Browser {
    Browser(parseHtml, NormalizeExplicit, (s: string) => match ParseUrl(s) case None => None case Some(u) => Some(u.hostname))
  }
}
