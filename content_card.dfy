/** The second card component: its type styling, the YouTube and Reddit ids it pulls
    out of a link and the single-relay article preview. */
module ContentCard {
  import opened Text
  import opened Web
  import opened Runs

  // ---------------------------------------------------------------------------
  // Type styling

  datatype Icon = YoutubeIcon | TwitterIcon | MessageCircleIcon | FileTextIcon | GlobeIcon

  datatype TypeConfig = TypeConfig(icon: Icon, color: string, bgColor: string, textColor: string)

  const DefaultConfig := TypeConfig(GlobeIcon, "#6B7280", "bg-gray-50", "text-gray-700")

  predicate KnownType(kind: string) {
    kind == "youtube" || kind == "twitter" || kind == "reddit" || kind == "article"
  }

  /** `getTypeConfig(type)`: a fixed style per known type, the Globe/gray default for
      every other type. */
  function GetTypeConfig(kind: string): (r: TypeConfig)
    ensures r == DefaultConfig <==> !KnownType(kind)
    ensures r.icon == GlobeIcon <==> !KnownType(kind)
    ensures kind == "youtube" <==> r.icon == YoutubeIcon
    ensures kind == "twitter" <==> r.icon == TwitterIcon
    ensures kind == "reddit" <==> r.icon == MessageCircleIcon
    ensures kind == "article" <==> r.icon == FileTextIcon
  {
    match kind
    case "youtube" => TypeConfig(YoutubeIcon, "#EF4444", "bg-red-50", "text-red-700")
    case "twitter" => TypeConfig(TwitterIcon, "#1DA1F2", "bg-blue-50", "text-blue-700")
    case "reddit" => TypeConfig(MessageCircleIcon, "#FF4500", "bg-orange-50", "text-orange-700")
    case "article" => TypeConfig(FileTextIcon, "#3B82F6", "bg-indigo-50", "text-indigo-700")
    case _ => DefaultConfig
  }

  // ---------------------------------------------------------------------------
  // The loose YouTube pattern, anchored at the start:
  //   ^.*(youtu.be/|v/|u/\w/|embed/|watch\?v=|&v=)([^#&?]*).*

  /** The length of the marker alternative that matches at `k`, 0 when none does. The
      alternatives start with different characters, so at most one matches. */
  function MarkerLength(s: string, k: nat): (n: nat)
    requires k <= |s|
    ensures n > 0 ==> k + n <= |s|
  {
    var t := s[k..];
    if |t| >= 9 && t[..5] == "youtu" && !IsLineTerminator(t[5]) && t[6..9] == "be/" then 9
    else if StartsWith(t, "v/") then 2
    else if |t| >= 4 && t[..2] == "u/" && IsWordChar(t[2]) && t[3] == '/' then 4
    else if StartsWith(t, "embed/") then 6
    else if StartsWith(t, "watch?v=") then 8
    else if StartsWith(t, "&v=") then 3
    else 0
  }

  /** The marker length at every position of `s`, its end included. */
  function Markers(s: string): (ms: seq<nat>)
    ensures |ms| == |s| + 1 && forall k | 0 <= k <= |s| :: ms[k] == MarkerLength(s, k)
  {
    seq(|s| + 1, k requires 0 <= k <= |s| => MarkerLength(s, k))
  }

  /** The largest `k < hi` with `ns[k] > 0`: over the marker lengths, where the greedy
      `^.*` settles. */
  function LastPositive(ns: seq<nat>, hi: nat): (r: Option<nat>)
    requires hi <= |ns|
    ensures r.Some? ==> r.value < hi && ns[r.value] > 0
    ensures r.Some? ==> forall k | r.value < k < hi :: ns[k] == 0
    ensures r.None? ==> forall k | 0 <= k < hi :: ns[k] == 0
  {
    if hi == 0 then None
    else if ns[hi - 1] > 0 then Some(hi - 1)
    else LastPositive(ns, hi - 1)
  }

  /** End of the longest run of `[^#&?]` starting at `i`. */
  function RunEnd(s: string, i: nat): (e: nat)
    requires i <= |s|
    ensures i <= e <= |s|
    ensures forall j | i <= j < e :: s[j] != '#' && s[j] != '&' && s[j] != '?'
    ensures e < |s| ==> s[e] == '#' || s[e] == '&' || s[e] == '?'
    decreases |s| - i
  {
    if i == |s| || s[i] == '#' || s[i] == '&' || s[i] == '?' then i else RunEnd(s, i + 1)
  }

  /** The second capture group, when the pattern matches at all. */
  function Captured(url: string): (r: Option<string>)
    ensures r.Some? ==> forall j | 0 <= j < |r.value| :: r.value[j] != '#' && r.value[j] != '&' && r.value[j] != '?'
  {
    match LastPositive(Markers(url), LineEnd(url, 0))
    case None => None
    case Some(k) =>
      var start := k + Markers(url)[k];
      Some(url[start..RunEnd(url, start)])
  }

  /** `getYouTubeId(url)`: the captured id only when its `.length` is 11 UTF-16 code
      units. The class `[^#&?]` takes both halves of a surrogate pair, so the capture
      always ends on a whole character. */
  function YouTubeId(url: string): (r: Option<string>)
    ensures r.Some? ==> Utf16Length(r.value) == 11
    ensures r.Some? <==> Captured(url).Some? && Utf16Length(Captured(url).value) == 11
    ensures r.Some? ==> r == Captured(url)
  {
    match Captured(url)
    case Some(id) => if Utf16Length(id) == 11 then Some(id) else None
    case None => None
  }

  /** An embed link whose first line holds no other marker after `embed/` gives the
      id that follows, up to a `#`, `&` or `?`, when that id is 11 code units long. */
  lemma EmbedLinkId(pre: string, id: string, rest: string)
    requires Utf16Length(id) == 11 && forall j | 0 <= j < |id| :: id[j] != '#' && id[j] != '&' && id[j] != '?'
    requires forall j | 0 <= j < |pre| :: !IsLineTerminator(pre[j])
    requires forall j | 0 <= j < |id| :: !IsLineTerminator(id[j])
    requires rest == [] || rest[0] == '#' || rest[0] == '&' || rest[0] == '?'
    requires forall k | |pre| < k <= |pre + "embed/" + id + rest| :: MarkerLength(pre + "embed/" + id + rest, k) == 0
    ensures YouTubeId(pre + "embed/" + id + rest) == Some(id)
    ensures rest == [] ==> YouTubeId(pre + "embed/" + id) == Some(id)
  {
    var s := pre + "embed/" + id + rest;
    var k := |pre|;
    var e := k + 6 + |id|;
    assert s[k..k + 6] == "embed/";
    assert s[k + 6..e] == id;
    forall j | 0 <= j < e ensures !IsLineTerminator(s[j]) {
      if j < k { assert s[j] == pre[j]; }
      else if j < k + 6 { assert s[j] == "embed/"[j - k]; }
      else { assert s[j] == id[j - k - 6]; }
    }
    if e < |s| {
      assert s[e] == rest[0];
    }
    EmbedMatch(s, k, e);
    if rest == [] {
      assert s == pre + "embed/" + id;
    }
  }

  /** `embed/` at `k` starts the last marker of the first line, followed by characters
      outside `#&?` up to `e`, then one of them or the end; the id is what lies
      between, when it is 11 code units long. */
  lemma EmbedMatch(s: string, k: nat, e: nat)
    requires k + 6 <= e <= |s| && s[k..k + 6] == "embed/"
    requires forall j | k + 6 <= j < e :: s[j] != '#' && s[j] != '&' && s[j] != '?'
    requires e == |s| || s[e] == '#' || s[e] == '&' || s[e] == '?'
    requires forall j | 0 <= j < e :: !IsLineTerminator(s[j])
    requires forall q | k < q <= |s| :: MarkerLength(s, q) == 0
    requires Utf16Length(s[k + 6..e]) == 11
    ensures YouTubeId(s) == Some(s[k + 6..e])
  {
    EmbedMarker(s, k);
    var L := LineEnd(s, 0);
    assert L >= e;
    var ms := Markers(s);
    assert ms[k] == 6;
    assert forall q | k < q < L :: ms[q] == 0;
    LastPositiveAt(ms, L, k);
    RunEndAt(s, k + 6, e);
  }

  /** `embed/` is a marker of length 6: the alternatives before it start with other
      characters. */
  lemma EmbedMarker(s: string, k: nat)
    requires k + 6 <= |s| && s[k..k + 6] == "embed/"
    ensures MarkerLength(s, k) == 6
  {
    var t := s[k..];
    assert t[0] == 'e' && t[..6] == "embed/";
  }

  lemma {:induction false} LastPositiveAt(ns: seq<nat>, hi: nat, k: nat)
    requires k < hi <= |ns| && ns[k] > 0
    requires forall j | k < j < hi :: ns[j] == 0
    ensures LastPositive(ns, hi) == Some(k)
    decreases hi
  {
    if hi - 1 > k {
      LastPositiveAt(ns, hi - 1, k);
    }
  }

  lemma {:induction false} RunEndAt(s: string, i: nat, e: nat)
    requires i <= e <= |s|
    requires forall j | i <= j < e :: s[j] != '#' && s[j] != '&' && s[j] != '?'
    requires e < |s| ==> s[e] == '#' || s[e] == '&' || s[e] == '?'
    ensures RunEnd(s, i) == e
    decreases e - i
  {
    if i < e {
      RunEndAt(s, i + 1, e);
    }
  }

  // ---------------------------------------------------------------------------
  // The Reddit id: reddit\.com\/r\/[^\/]+\/comments\/([a-zA-Z0-9]+)

  /** End of the longest run of ASCII letters and digits starting at `i`. */
  function AlnumEnd(s: string, i: nat): (e: nat)
    requires i <= |s|
    ensures i <= e <= |s|
    ensures forall j | i <= j < e :: IsAlphaNum(s[j])
    ensures e < |s| ==> !IsAlphaNum(s[e])
    decreases |s| - i
  {
    if i == |s| || !IsAlphaNum(s[i]) then i else AlnumEnd(s, i + 1)
  }

  /** Where the id starts and ends when the pattern is matched starting at `p`. The
      `[^\/]+` has to stop at a `/`, so it takes the whole non-slash run. */
  function RedditAt(s: string, p: nat): (r: Option<(nat, nat)>)
    requires p <= |s|
    ensures r.Some? ==> r.value.0 < r.value.1 <= |s|
  {
    if !StartsWith(s[p..], "reddit.com/r/") then None
    else
      var m := NonSlashEnd(s, p + 13);
      if m == p + 13 || !StartsWith(s[m..], "/comments/") then None
      else
        var e := AlnumEnd(s, m + 10);
        if e == m + 10 then None else Some((m + 10, e))
  }

  function RedditFrom(s: string, p: nat): (r: Option<string>)
    requires p <= |s|
    ensures r.Some? ==> r.value != [] && forall j | 0 <= j < |r.value| :: IsAlphaNum(r.value[j])
    decreases |s| - p
  {
    match RedditAt(s, p)
    case Some((i, e)) => Some(s[i..e])
    case None => if p == |s| then None else RedditFrom(s, p + 1)
  }

  /** `getRedditId(url)`: the alphanumeric id after `reddit.com/r/<sub>/comments/` at the
      leftmost place it occurs, or `None`. */
  function RedditId(url: string): (r: Option<string>)
    ensures r.Some? ==> r.value != [] && forall j | 0 <= j < |r.value| :: IsAlphaNum(r.value[j])
  {
    RedditFrom(url, 0)
  }

  /** At the first place the pattern can start, the id is the alphanumeric run after
      `/comments/`. */
  lemma RedditPostId(pre: string, sub: string, id: string, rest: string)
    requires sub != [] && '/' !in sub
    requires id != [] && forall j | 0 <= j < |id| :: IsAlphaNum(id[j])
    requires rest == [] || !IsAlphaNum(rest[0])
    requires forall j | 0 <= j < |pre| :: RedditAt(pre + "reddit.com/r/" + sub + "/comments/" + id + rest, j).None?
    ensures RedditId(pre + "reddit.com/r/" + sub + "/comments/" + id + rest) == Some(id)
  {
    var s := pre + "reddit.com/r/" + sub + "/comments/" + id + rest;
    var p := |pre|;
    var m := p + 13 + |sub|;
    var e := m + 10 + |id|;
    assert s[p..p + 13] == "reddit.com/r/";
    assert s[m..m + 10] == "/comments/";
    forall j | p + 13 <= j < m ensures s[j] != '/' {
      assert s[j] == sub[j - p - 13];
    }
    forall j | m + 10 <= j < e ensures IsAlphaNum(s[j]) {
      assert s[j] == id[j - m - 10];
    }
    if e < |s| {
      assert s[e] == rest[0];
    }
    RedditAtMatch(s, p, m, e);
    assert s[m + 10..e] == id;
    RedditSkips(s, 0, p);
  }

  /** The pattern matched at `p`, with the `/` that ends the sub-reddit at `m` and the
      id running up to `e`. */
  lemma RedditAtMatch(s: string, p: nat, m: nat, e: nat)
    requires p + 13 < m && m + 10 < e <= |s|
    requires s[p..p + 13] == "reddit.com/r/" && s[m..m + 10] == "/comments/"
    requires forall j | p + 13 <= j < m :: s[j] != '/'
    requires forall j | m + 10 <= j < e :: IsAlphaNum(s[j])
    requires e < |s| ==> !IsAlphaNum(s[e])
    ensures RedditAt(s, p) == Some((m + 10, e))
  {
    assert s[m] == s[m..m + 10][0];
    NonSlashEndAt(s, p + 13, m);
    AlnumEndAt(s, m + 10, e);
    assert s[p..][..13] == s[p..p + 13];
    assert s[m..][..10] == s[m..m + 10];
  }

  lemma {:induction false} AlnumEndAt(s: string, i: nat, e: nat)
    requires i <= e <= |s|
    requires forall j | i <= j < e :: IsAlphaNum(s[j])
    requires e < |s| ==> !IsAlphaNum(s[e])
    ensures AlnumEnd(s, i) == e
    decreases e - i
  {
    if i < e {
      AlnumEndAt(s, i + 1, e);
    }
  }

  lemma {:induction false} RedditSkips(s: string, from: nat, p: nat)
    requires from <= p <= |s|
    requires forall j | from <= j < p :: RedditAt(s, j).None?
    ensures RedditFrom(s, from) == RedditFrom(s, p)
    decreases p - from
  {
    if from < p {
      RedditSkips(s, from + 1, p);
    }
  }

  // ---------------------------------------------------------------------------
  // The article preview

  /** The one relay's answer: a thrown `fetch` or `response.json()`, or the JSON's
      `contents` ("" when absent or falsy). The response status is not looked at. */
  datatype Reply = Threw | Json(contents: string)

  /** `querySelector(selector)?.content`, untrimmed, "" when there is none. */
  function ContentOf(doc: Document, selector: string): string {
    match Query(doc, selector)
    case None => ""
    case Some(e) => e.content
  }

  /** `querySelector('title')?.textContent`, untrimmed. */
  function TitleTextOf(doc: Document): string {
    match Query(doc, "title")
    case None => ""
    case Some(e) => e.text
  }

  /** The object literal built from a fetched document, `None` when evaluating it throws:
      the favicon always calls `new URL(link)`. */
  function ArticlePreview(doc: Document, link: string, declared: string, web: Browser): (r: Option<Preview>)
    ensures r.None? <==> web.hostname(link).None?
    ensures r.Some? ==> r.value.favicon == Some(FaviconService(web.hostname(link).value))
    ensures r.Some? ==> r.value.description.Some?
  {
    match web.hostname(link)
    case None => None
    case Some(h) =>
      Some(Preview(
        Or([ContentOf(doc, "meta[property=\"og:title\"]"), TitleTextOf(doc)], declared),
        Some(Or([ContentOf(doc, "meta[property=\"og:description\"]"), ContentOf(doc, "meta[name=\"description\"]")], "")),
        FirstNonEmpty([ContentOf(doc, "meta[property=\"og:image\"]"), ContentOf(doc, "meta[name=\"twitter:image\"]")]),
        Or([ContentOf(doc, "meta[property=\"og:site_name\"]")], h),
        Some(FaviconService(h))))
  }

  /** The preview set after a failed fetch, when the link has a hostname. */
  function Fallback(declared: string, hostname: string): Preview {
    Preview(declared, Some(""), None, hostname, Some(FaviconService(hostname)))
  }

  /** The preview `fetchArticlePreview` leaves behind; `None` means it sets nothing. */
  function ArticleOutcome(reply: Reply, link: string, declared: string, web: Browser): Option<Preview> {
    match reply
    case Json(contents) =>
      if contents == [] then None
      else ArticlePreview(web.parseHtml(contents), link, declared, web)
    case Threw =>
      match web.hostname(link)
      case Some(h) => Some(Fallback(declared, h))
      case None => None
  }

  /** Nothing is set unless the link has a hostname; a thrown fetch gives the fallback,
      with the declared title and an empty description; empty contents set nothing. */
  lemma ArticleOutcomeCases(reply: Reply, link: string, declared: string, web: Browser)
    ensures web.hostname(link).None? ==> ArticleOutcome(reply, link, declared, web).None?
    ensures reply.Threw? && web.hostname(link).Some? ==>
      ArticleOutcome(reply, link, declared, web) ==
        Some(Preview(declared, Some(""), None, web.hostname(link).value, Some(FaviconService(web.hostname(link).value))))
    ensures reply == Json("") ==> ArticleOutcome(reply, link, declared, web).None?
    ensures reply.Json? && reply.contents != [] && web.hostname(link).Some? ==>
      ArticleOutcome(reply, link, declared, web).Some? &&
      ArticleOutcome(reply, link, declared, web).value.favicon == Some(FaviconService(web.hostname(link).value))
  {
  }

  /** Title precedence: og:title, then the `<title>` text, then the declared title. */
  lemma ArticleTitlePrecedence(doc: Document, link: string, declared: string, web: Browser)
    requires web.hostname(link).Some?
    ensures var t := ArticlePreview(doc, link, declared, web).value.title;
      (ContentOf(doc, "meta[property=\"og:title\"]") != [] ==> t == ContentOf(doc, "meta[property=\"og:title\"]")) &&
      (ContentOf(doc, "meta[property=\"og:title\"]") == [] && TitleTextOf(doc) != [] ==> t == TitleTextOf(doc)) &&
      (ContentOf(doc, "meta[property=\"og:title\"]") == [] && TitleTextOf(doc) == [] ==> t == declared)
  {
    var vals := [ContentOf(doc, "meta[property=\"og:title\"]"), TitleTextOf(doc)];
    if vals[0] != [] {
      FirstNonEmptyAt(vals, 0);
    } else if vals[1] != [] {
      FirstNonEmptyAt(vals, 1);
    }
  }

  /** Description precedence: og:description, then the description meta, then "". */
  lemma ArticleDescriptionPrecedence(doc: Document, link: string, declared: string, web: Browser)
    requires web.hostname(link).Some?
    ensures var og := ContentOf(doc, "meta[property=\"og:description\"]");
      var meta := ContentOf(doc, "meta[name=\"description\"]");
      ArticlePreview(doc, link, declared, web).value.description ==
        Some(if og != [] then og else if meta != [] then meta else [])
  {
    var vals := [ContentOf(doc, "meta[property=\"og:description\"]"), ContentOf(doc, "meta[name=\"description\"]")];
    if vals[0] != [] {
      FirstNonEmptyAt(vals, 0);
    } else if vals[1] != [] {
      FirstNonEmptyAt(vals, 1);
    }
  }

  /** Image precedence: og:image, then twitter:image, else no image. */
  lemma ArticleImagePrecedence(doc: Document, link: string, declared: string, web: Browser)
    requires web.hostname(link).Some?
    ensures var og := ContentOf(doc, "meta[property=\"og:image\"]");
      var tw := ContentOf(doc, "meta[name=\"twitter:image\"]");
      ArticlePreview(doc, link, declared, web).value.image ==
        (if og != [] then Some(og) else if tw != [] then Some(tw) else None)
  {
    var vals := [ContentOf(doc, "meta[property=\"og:image\"]"), ContentOf(doc, "meta[name=\"twitter:image\"]")];
    if vals[0] != [] {
      FirstNonEmptyAt(vals, 0);
    } else if vals[1] != [] {
      FirstNonEmptyAt(vals, 1);
    }
  }

  /** Site-name precedence: og:site_name, else the link's hostname. */
  lemma ArticleSiteNamePrecedence(doc: Document, link: string, declared: string, web: Browser)
    requires web.hostname(link).Some?
    ensures var og := ContentOf(doc, "meta[property=\"og:site_name\"]");
      ArticlePreview(doc, link, declared, web).value.siteName ==
        (if og != [] then og else web.hostname(link).value)
  {
    var vals := [ContentOf(doc, "meta[property=\"og:site_name\"]")];
    if vals[0] != [] {
      FirstNonEmptyAt(vals, 0);
    }
  }

  class ContentCardView {
    const kind: string
    const link: string
    const title: string
    var preview: Option<Preview>
    var isLoading: bool

    constructor (kind: string, link: string, title: string)
      ensures this.kind == kind && this.link == link && this.title == title
      ensures preview.None? && !isLoading
    {
      this.kind := kind;
      this.link := link;
      this.title := title;
      preview := None;
      isLoading := false;
    }

    /** `fetchArticlePreview()`: only articles and other links are fetched; the loading
        flag ends false, and the preview is replaced exactly when the outcome names one. */
    method FetchArticlePreview(reply: Reply, web: Browser)
      modifies this
      ensures kind != "article" && kind != "other" ==> preview == old(preview) && isLoading == old(isLoading)
      ensures kind == "article" || kind == "other" ==>
        !isLoading &&
        preview == (match ArticleOutcome(reply, link, title, web) case Some(p) => Some(p) case None => old(preview))
    {
      if kind != "article" && kind != "other" {
        return;
      }
      isLoading := true;
      var built: Option<Preview> := None;
      match reply {
        case Json(contents) =>
          if contents != [] {
            built := ArticlePreview(web.parseHtml(contents), link, title, web);
          }
        case Threw =>
      }
      if reply.Threw? || (reply.Json? && reply.contents != [] && built.None?) {
        var hostname := web.hostname(link);
        if hostname.Some? {
          built := Some(Fallback(title, hostname.value));
        }
      }
      if built.Some? {
        preview := built;
      }
      isLoading := false;
    }

    /** `videoId` and `redditId`: each only for its own type. */
    function VideoId(): (r: Option<string>)
      ensures r.Some? ==> kind == "youtube" && Utf16Length(r.value) == 11
    {
      if kind == "youtube" then YouTubeId(link) else None
    }

    function RedditPost(): (r: Option<string>)
      ensures r.Some? ==> kind == "reddit" && r.value != []
    {
      if kind == "reddit" then RedditId(link) else None
    }
  }
}
