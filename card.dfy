/** The live `Card` component: link-preview resolution through an ordered list of
    fetch relays, metadata extraction by ordered selector lists, URL resolution of
    the image and the favicon, the hostname fallback, the type label and the
    YouTube id. */
module CardPreview {
  import opened Text
  import opened Web
  import opened Runs

  const OgTitle := "meta[property=\"og:title\"]"
  const TitleTag := "title"
  const OgSiteName := "meta[property=\"og:site_name\"]"
  const DescriptionSelectors: seq<string> :=
    ["meta[property=\"og:description\"]", "meta[name=\"description\"]", "meta[name=\"twitter:description\"]"]
  const ImageSelectors: seq<string> :=
    ["meta[property=\"og:image\"]", "meta[name=\"twitter:image\"]", "meta[name=\"twitter:image:src\"]"]
  const FaviconSelectors: seq<string> :=
    ["link[rel=\"icon\"]", "link[rel=\"shortcut icon\"]", "link[rel=\"apple-touch-icon\"]"]

  /** `element?.content?.trim()` for the element a selector finds, "" when there is none. */
  function MetaAt(doc: Document, selector: string): string {
    match Query(doc, selector)
    case None => ""
    case Some(e) => Trim(e.content)
  }

  /** `element?.href` for the element a selector finds, "" when there is none. */
  function HrefAt(doc: Document, selector: string): string {
    match Query(doc, selector)
    case None => ""
    case Some(e) => e.href
  }

  function Metas(doc: Document, selectors: seq<string>): (r: seq<string>)
    ensures |r| == |selectors|
  {
    seq(|selectors|, k requires 0 <= k < |selectors| => MetaAt(doc, selectors[k]))
  }

  function Hrefs(doc: Document, selectors: seq<string>): (r: seq<string>)
    ensures |r| == |selectors|
  {
    seq(|selectors|, k requires 0 <= k < |selectors| => HrefAt(doc, selectors[k]))
  }

  /** `getMetaContent(selectors)`: the selectors are tried in order and the first whose
      trimmed content is non-empty gives the result, trimmed; `None` if there is none. */
  method GetMetaContent(doc: Document, selectors: seq<string>) returns (r: Option<string>)
    ensures r == FirstNonEmpty(Metas(doc, selectors))
    ensures r.Some? ==> r.value != [] && Trimmed(r.value)
    ensures r.None? <==> forall k | 0 <= k < |selectors| :: MetaAt(doc, selectors[k]) == []
  {
    for i := 0 to |selectors|
      invariant forall j | 0 <= j < i :: MetaAt(doc, selectors[j]) == []
    {
      var content := MetaAt(doc, selectors[i]);
      if content != [] {
        FirstNonEmptyAt(Metas(doc, selectors), i);
        return Some(content);
      }
    }
    assert forall k | 0 <= k < |selectors| :: Metas(doc, selectors)[k] == [];
    return None;
  }

  // ---------------------------------------------------------------------------
  // The getters

  /** The trimmed text of `<title>`, "" when there is none. */
  function TitleText(doc: Document): string {
    match Query(doc, TitleTag)
    case None => ""
    case Some(e) => Trim(e.text)
  }

  /** `getTitleContent()`: og:title, else the `<title>` text, else the declared title. */
  function TitleOf(doc: Document, declared: string): (r: string)
    ensures MetaAt(doc, OgTitle) != [] ==> r == MetaAt(doc, OgTitle)
    ensures MetaAt(doc, OgTitle) == [] && TitleText(doc) != [] ==> r == TitleText(doc)
    ensures MetaAt(doc, OgTitle) == [] && TitleText(doc) == [] ==> r == declared
  {
    match FirstNonEmpty(Metas(doc, [OgTitle]))
    case Some(t) => t
    case None => if TitleText(doc) != [] then TitleText(doc) else declared
  }

  /** `getImageContent()`: the first image meta, resolved against the link; `None` when
      there is none or it cannot be resolved. */
  function ImageOf(doc: Document, link: string, web: Browser): Option<string> {
    match FirstNonEmpty(Metas(doc, ImageSelectors))
    case None => None
    case Some(u) => web.resolve(u, link)
  }

  method GetImageContent(doc: Document, link: string, web: Browser) returns (r: Option<string>)
    ensures r == ImageOf(doc, link, web)
    ensures r.Some? ==> exists k | 0 <= k < |ImageSelectors| :: r == web.resolve(MetaAt(doc, ImageSelectors[k]), link)
  {
    var imageUrl := GetMetaContent(doc, ImageSelectors);
    if imageUrl.Some? {
      r := web.resolve(imageUrl.value, link);
      assert imageUrl.value in Metas(doc, ImageSelectors);
    } else {
      r := None;
    }
  }

  /** `getSiteName()`: og:site_name, else the link's hostname; `None` stands for the
      exception `new URL(link)` throws, which abandons the whole extraction. */
  function SiteNameOf(doc: Document, link: string, web: Browser): Option<string> {
    match FirstNonEmpty(Metas(doc, [OgSiteName]))
    case Some(s) => Some(s)
    case None => web.hostname(link)
  }

  /** `getFaviconUrl()` as a specification: `None` when the link has no hostname,
      else the resolved href of the first icon link, else the favicon service. */
  function FaviconOf(doc: Document, link: string, web: Browser): Option<string> {
    match web.hostname(link)
    case None => None
    case Some(h) =>
      match FirstNonEmpty(Hrefs(doc, FaviconSelectors))
      case Some(href) => web.resolve(href, link)
      case None => Some(FaviconService(h))
  }

  /** `getFaviconUrl()`, the loop with early return over the icon selectors. */
  method GetFaviconUrl(doc: Document, link: string, web: Browser) returns (r: Option<string>)
    ensures r == FaviconOf(doc, link, web)
  {
    var hostname := web.hostname(link);
    if hostname.None? {
      return None;
    }
    for i := 0 to |FaviconSelectors|
      invariant forall j | 0 <= j < i :: HrefAt(doc, FaviconSelectors[j]) == []
    {
      var href := HrefAt(doc, FaviconSelectors[i]);
      if href != [] {
        FirstNonEmptyAt(Hrefs(doc, FaviconSelectors), i);
        return web.resolve(href, link);
      }
    }
    assert forall k | 0 <= k < |FaviconSelectors| :: Hrefs(doc, FaviconSelectors)[k] == [];
    return Some(FaviconService(hostname.value));
  }

  /** The preview built from a fetched document, `None` when building it throws. */
  function ExtractedPreview(doc: Document, link: string, declared: string, web: Browser): Option<Preview> {
    match SiteNameOf(doc, link, web)
    case None => None
    case Some(site) =>
      Some(Preview(TitleOf(doc, declared), FirstNonEmpty(Metas(doc, DescriptionSelectors)),
                   ImageOf(doc, link, web), site, FaviconOf(doc, link, web)))
  }

  /** Builds the preview object field by field, in the order of the source. */
  method BuildPreview(doc: Document, link: string, declared: string, web: Browser) returns (p: Option<Preview>)
    ensures p == ExtractedPreview(doc, link, declared, web)
    ensures p.None? <==> MetaAt(doc, OgSiteName) == [] && web.hostname(link).None?
  {
    var title := TitleOf(doc, declared);
    var description := GetMetaContent(doc, DescriptionSelectors);
    var image := GetImageContent(doc, link, web);
    var siteName := GetMetaContent(doc, [OgSiteName]);
    if siteName.None? {
      var host := web.hostname(link);
      if host.None? {
        return None;
      }
      siteName := host;
    }
    var favicon := GetFaviconUrl(doc, link, web);
    return Some(Preview(title, description, image, siteName.value, favicon));
  }

  /** The preview synthesized from the hostname when nothing usable was fetched. */
  function Synthesize(declared: string, hostname: string): (p: Preview)
    ensures hostname != [] ==> p.title != []
  {
    Preview(if declared != [] then declared else hostname, Some("Visit " + hostname), None,
            hostname, Some(FaviconService(hostname)))
  }

  // ---------------------------------------------------------------------------
  // The relays

  /** What one relay request came to. For the first relay the payload is the JSON
      `contents` field ("" when it is absent or falsy, or the body is not JSON, which
      throws); for the others it is the response text. */
  datatype Reply = Threw | NotOk | Ok(payload: string)

  /** The relays in the order they are tried: a JSON wrapper, then a raw pass-through. */
  const RelayCount := 2

  /** Relay `i` counts as a success: an ok response, and for the first relay a truthy
      `contents` as well. */
  predicate Succeeds(i: nat, reply: Reply) {
    reply.Ok? && (i == 0 ==> reply.payload != [])
  }

  /** The first relay at or after `i` that succeeds, `|replies|` when none does. */
  function FirstSuccess(replies: seq<Reply>, i: nat): (k: nat)
    requires i <= |replies|
    ensures i <= k <= |replies|
    ensures forall j | i <= j < k :: !Succeeds(j, replies[j])
    ensures k < |replies| ==> Succeeds(k, replies[k])
    decreases |replies| - i
  {
    if i == |replies| then i
    else if Succeeds(i, replies[i]) then i
    else FirstSuccess(replies, i + 1)
  }

  /** The `for` loop over the relays, which stops at the first success. `tried` is the
      number of relays asked. */
  method TryRelays(replies: seq<Reply>) returns (data: Option<string>, tried: nat)
    ensures tried <= |replies|
    ensures var k := FirstSuccess(replies, 0);
      if k < |replies| then data == Some(replies[k].payload) && tried == k + 1
      else data.None? && tried == |replies|
    ensures data.Some? ==> Succeeds(tried - 1, replies[tried - 1])
    ensures forall j | 0 <= j < tried - 1 :: !Succeeds(j, replies[j])
  {
    data := None;
    var success := false;
    var i := 0;
    while i < |replies| && !success
      invariant 0 <= i <= |replies|
      invariant success ==> i >= 1 && Succeeds(i - 1, replies[i - 1]) && data == Some(replies[i - 1].payload)
      invariant !success ==> data.None?
      invariant forall j | 0 <= j < (if success then i - 1 else i) :: !Succeeds(j, replies[j])
      decreases |replies| - i
    {
      match replies[i] {
        case Threw =>
        case NotOk =>
        case Ok(payload) =>
          if i == 0 {
            if payload != [] {
              data := Some(payload);
              success := true;
            }
          } else {
            data := Some(payload);
            success := true;
          }
      }
      i := i + 1;
    }
    tried := i;
    if success {
      FirstSuccessAt(replies, 0, i - 1);
    }
  }

  /** The first success is the success with no success before it. */
  lemma {:induction false} FirstSuccessAt(replies: seq<Reply>, i: nat, k: nat)
    requires i <= k < |replies| && Succeeds(k, replies[k])
    requires forall j | i <= j < k :: !Succeeds(j, replies[j])
    ensures FirstSuccess(replies, i) == k
    decreases k - i
  {
    if i < k {
      FirstSuccessAt(replies, i + 1, k);
    }
  }

  /** What the relays delivered: the payload of the first success, "" when none. */
  function Fetched(replies: seq<Reply>): string {
    var k := FirstSuccess(replies, 0);
    if k < |replies| then replies[k].payload else ""
  }

  /** How a fetch ends: with an extracted preview, with the synthesized fallback, or
      with nothing when even the fallback's `new URL(link)` throws. */
  datatype Resolution = Extracted(preview: Preview) | Synthesized(preview: Preview) | Abandoned

  /** The outcome of `fetchLinkPreview`. */
  function Outcome(link: string, declared: string, replies: seq<Reply>, web: Browser): Resolution {
    var contents := Fetched(replies);
    var extracted := if contents != [] then ExtractedPreview(web.parseHtml(contents), link, declared, web) else None;
    match extracted
    case Some(p) => Resolution.Extracted(p)
    case None =>
      match web.hostname(link)
      case Some(h) => Synthesized(Synthesize(declared, h))
      case None => Abandoned
  }

  // ---------------------------------------------------------------------------
  // Properties of the pipeline

  /** When no relay yields non-empty contents the preview is the hostname fallback. */
  lemma FallbackWhenNothingFetched(link: string, declared: string, replies: seq<Reply>, web: Browser, h: string)
    requires forall i | 0 <= i < |replies| :: !(Succeeds(i, replies[i]) && replies[i].payload != [])
    requires web.hostname(link) == Some(h)
    ensures Outcome(link, declared, replies, web) ==
      Synthesized(Preview(if declared != [] then declared else h, Some("Visit " + h), None, h,
                          Some("https://www.google.com/s2/favicons?domain=" + h + "&sz=32")))
  {
    var k := FirstSuccess(replies, 0);
    assert k < |replies| ==> replies[k].payload == [];
  }

  /** Totality: a link with a hostname always ends with some preview, and only a link
      the URL parser refuses can be abandoned. A synthesized preview is named after the
      hostname, and its title is non-empty when the hostname is; an extracted one takes
      its site name from the fetched document's site name getter. */
  lemma Totality(link: string, declared: string, replies: seq<Reply>, web: Browser)
    ensures web.hostname(link).Some? ==> !Outcome(link, declared, replies, web).Abandoned?
    ensures Outcome(link, declared, replies, web).Abandoned? ==> web.hostname(link).None?
    ensures Outcome(link, declared, replies, web).Synthesized? ==>
      web.hostname(link).Some? && Outcome(link, declared, replies, web).preview.siteName == web.hostname(link).value &&
      (web.hostname(link).value != [] ==> Outcome(link, declared, replies, web).preview.title != [])
    ensures Outcome(link, declared, replies, web).Extracted? ==>
      Fetched(replies) != [] &&
      SiteNameOf(web.parseHtml(Fetched(replies)), link, web) == Some(Outcome(link, declared, replies, web).preview.siteName)
  {
  }

  /** The pipeline run on the explicit normalizer and its URL parser: a link that parser
      accepts is never abandoned, and a synthesized preview is named after its non-empty
      hostname, so its title is never empty. */
  lemma ExplicitPipelineTotal(link: string, declared: string, replies: seq<Reply>, parseHtml: string -> Document)
    requires ParseUrl(link).Some?
    ensures var o := Outcome(link, declared, replies, ExplicitBrowser(parseHtml));
      !o.Abandoned? &&
      (o.Synthesized? ==> o.preview.siteName == ParseUrl(link).value.hostname && o.preview.title != [])
  {
    var web := ExplicitBrowser(parseHtml);
    assert web.hostname(link) == Some(ParseUrl(link).value.hostname);
    Totality(link, declared, replies, web);
  }

  /** Extraction fails on a fetched document only when the page names no site and the
      link has no hostname; with a hostname, every fetched document gives a preview whose
      fields come from the getters. */
  lemma ExtractionOutcome(link: string, declared: string, replies: seq<Reply>, web: Browser)
    requires Fetched(replies) != [] && web.hostname(link).Some?
    ensures var doc := web.parseHtml(Fetched(replies));
      Outcome(link, declared, replies, web) == Resolution.Extracted(Preview(
        TitleOf(doc, declared), FirstNonEmpty(Metas(doc, DescriptionSelectors)), ImageOf(doc, link, web),
        if MetaAt(doc, OgSiteName) != [] then MetaAt(doc, OgSiteName) else web.hostname(link).value,
        FaviconOf(doc, link, web)))
  {
    var doc := web.parseHtml(Fetched(replies));
    if MetaAt(doc, OgSiteName) != [] {
      FirstNonEmptyAt(Metas(doc, [OgSiteName]), 0);
    } else {
      assert Metas(doc, [OgSiteName])[0] == [];
    }
  }

  /** Site name precedence: og:site_name, else the hostname. */
  lemma SiteNamePrecedence(doc: Document, link: string, web: Browser)
    ensures MetaAt(doc, OgSiteName) != [] ==> SiteNameOf(doc, link, web) == Some(MetaAt(doc, OgSiteName))
    ensures MetaAt(doc, OgSiteName) == [] ==> SiteNameOf(doc, link, web) == web.hostname(link)
  {
    if MetaAt(doc, OgSiteName) != [] {
      FirstNonEmptyAt(Metas(doc, [OgSiteName]), 0);
    } else {
      assert Metas(doc, [OgSiteName])[0] == [];
    }
  }

  /** Favicon precedence: no hostname gives `None`; otherwise the first icon link with an
      href, resolved; otherwise the favicon service for the hostname. */
  lemma FaviconPrecedence(doc: Document, link: string, web: Browser, k: nat)
    requires k < |FaviconSelectors|
    ensures web.hostname(link).None? ==> FaviconOf(doc, link, web).None?
    ensures web.hostname(link).Some? && HrefAt(doc, FaviconSelectors[k]) != [] &&
            (forall j | 0 <= j < k :: HrefAt(doc, FaviconSelectors[j]) == []) ==>
      FaviconOf(doc, link, web) == web.resolve(HrefAt(doc, FaviconSelectors[k]), link)
    ensures web.hostname(link).Some? && (forall j | 0 <= j < |FaviconSelectors| :: HrefAt(doc, FaviconSelectors[j]) == []) ==>
      FaviconOf(doc, link, web) == Some(FaviconService(web.hostname(link).value))
  {
    if web.hostname(link).Some? && HrefAt(doc, FaviconSelectors[k]) != [] &&
       (forall j | 0 <= j < k :: HrefAt(doc, FaviconSelectors[j]) == []) {
      FirstNonEmptyAt(Hrefs(doc, FaviconSelectors), k);
    }
    if forall j | 0 <= j < |FaviconSelectors| :: HrefAt(doc, FaviconSelectors[j]) == [] {
      assert forall j | 0 <= j < |FaviconSelectors| :: Hrefs(doc, FaviconSelectors)[j] == [];
    }
  }

  /** Image precedence: the first image meta in list order, resolved against the link. */
  lemma ImagePrecedence(doc: Document, link: string, web: Browser, k: nat)
    requires k < |ImageSelectors| && MetaAt(doc, ImageSelectors[k]) != []
    requires forall j | 0 <= j < k :: MetaAt(doc, ImageSelectors[j]) == []
    ensures ImageOf(doc, link, web) == web.resolve(MetaAt(doc, ImageSelectors[k]), link)
  {
    FirstNonEmptyAt(Metas(doc, ImageSelectors), k);
  }

  // ---------------------------------------------------------------------------
  // The component

  class Card {
    const kind: string
    const link: string
    const title: string
    var linkPreview: Option<Preview>
    var previewLoading: bool
    var previewError: bool

    constructor (kind: string, link: string, title: string)
      ensures this.kind == kind && this.link == link && this.title == title
      ensures linkPreview.None? && !previewLoading && !previewError
    {
      this.kind := kind;
      this.link := link;
      this.title := title;
      linkPreview := None;
      previewLoading := false;
      previewError := false;
    }

    /** The "Preview not available" box. */
    predicate ShowsUnavailable()
      reads this
    {
      previewError && !previewLoading && linkPreview.None?
    }

    /** `fetchLinkPreview()`. The replies are those of the relays, in order. A call made
        while a fetch is running or for an empty link does nothing; every other call ends
        with `previewLoading` false and the state the outcome dictates. */
    method FetchLinkPreview(replies: seq<Reply>, web: Browser) returns (tried: nat)
      requires |replies| == RelayCount
      modifies this
      ensures old(previewLoading) || link == [] ==>
        tried == 0 && linkPreview == old(linkPreview) && previewLoading == old(previewLoading) && previewError == old(previewError)
      ensures !old(previewLoading) && link != [] ==>
        var outcome := Outcome(link, title, replies, web);
        1 <= tried <= RelayCount && !previewLoading &&
        previewError == !outcome.Extracted? &&
        linkPreview == (if outcome.Abandoned? then old(linkPreview) else Some(outcome.preview))
      ensures !old(previewLoading) && link != [] && old(linkPreview).None? ==>
        (ShowsUnavailable() <==> Outcome(link, title, replies, web).Abandoned?)
    {
      if link == [] || previewLoading {
        return 0;
      }
      previewLoading := true;
      previewError := false;
      var data;
      data, tried := TryRelays(replies);
      var built := false;
      if data.Some? && data.value != [] {
        var doc := web.parseHtml(data.value);
        var preview := BuildPreview(doc, link, title, web);
        if preview.Some? {
          linkPreview := preview;
          built := true;
        }
      }
      if !built {
        previewError := true;
        var hostname := web.hostname(link);
        if hostname.Some? {
          linkPreview := Some(Synthesize(title, hostname.value));
        }
      }
      previewLoading := false;
    }

    /** The effect run on mount: previews are fetched only for articles and links. */
    method OnMount(replies: seq<Reply>, web: Browser)
      requires |replies| == RelayCount
      modifies this
      ensures kind != "article" && kind != "link" ==>
        linkPreview == old(linkPreview) && previewLoading == old(previewLoading) && previewError == old(previewError)
      ensures (kind == "article" || kind == "link") && !old(previewLoading) && link != [] ==>
        !previewLoading && previewError == !Outcome(link, title, replies, web).Extracted?
    {
      if kind == "article" || kind == "link" {
        var _ := FetchLinkPreview(replies, web);
      }
    }

    /** `getTypeLabel()` */
    function TypeLabel(): (r: string)
      reads this
      ensures r != []
      ensures kind == "youtube" ==> r == "YouTube"
      ensures kind == "twitter" ==> r == "X (Twitter)"
      ensures kind != "youtube" && kind != "twitter" && linkPreview.Some? && linkPreview.value.siteName != [] ==>
        r == linkPreview.value.siteName
      ensures kind != "youtube" && kind != "twitter" && (linkPreview.None? || linkPreview.value.siteName == []) ==>
        r == "Article"
    {
      match kind
      case "youtube" => "YouTube"
      case "twitter" => "X (Twitter)"
      case _ => if linkPreview.Some? && linkPreview.value.siteName != [] then linkPreview.value.siteName else "Article"
    }

    /** `videoId`: only YouTube cards have one. */
    function VideoId(): (r: Option<string>)
      ensures r.Some? ==> kind == "youtube" && |r.value| == 11
    {
      if kind == "youtube" then YouTubeId(link) else None
    }
  }

  // ---------------------------------------------------------------------------
  // The YouTube id

  /** The regex class `[^"&?\/\s]` of a video id character. */
  predicate IsIdChar(c: char) {
    c != '"' && c != '&' && c != '?' && c != '/' && !IsSpace(c)
  }

  /** Eleven id characters start at `i`. */
  predicate IdAt(s: string, i: nat) {
    i + 11 <= |s| && forall j | i <= j < i + 11 :: IsIdChar(s[j])
  }

  /** The largest `t` in `[lo, hi)` with a `/` at `t` and an id after it: where the
      greedy `.+\/` of the first alternative settles. */
  function LastSlashBeforeId(s: string, lo: nat, hi: nat): (r: Option<nat>)
    requires hi <= |s|
    ensures r.Some? ==> lo <= r.value < hi && s[r.value] == '/' && IdAt(s, r.value + 1)
    ensures r.None? ==> forall t | lo <= t < hi :: !(s[t] == '/' && IdAt(s, t + 1))
    decreases hi
  {
    if hi <= lo then None
    else if s[hi - 1] == '/' && IdAt(s, hi) then Some(hi - 1)
    else LastSlashBeforeId(s, lo, hi - 1)
  }

  /** The largest `t` in `[lo, hi)` with `?v=` or `&v=` at `t` and an id after it: where
      the greedy `.*[?&]v=` of the third alternative settles. */
  function LastQueryBeforeId(s: string, lo: nat, hi: nat): (r: Option<nat>)
    requires hi <= |s|
    ensures r.Some? ==> lo <= r.value < hi && IdAt(s, r.value + 3)
    decreases hi
  {
    if hi <= lo then None
    else if (s[hi - 1] == '?' || s[hi - 1] == '&') && StartsWith(s[hi..], "v=") && IdAt(s, hi + 2) then Some(hi - 1)
    else LastQueryBeforeId(s, lo, hi - 1)
  }

  /** Where the id starts when the regex is matched starting at `p`, by the
      alternatives in their order. */
  function MatchAt(s: string, p: nat): (r: Option<nat>)
    requires p <= |s|
    ensures r.Some? ==> IdAt(s, r.value)
  {
    var youtuBe := if StartsWith(s[p..], "youtu.be/") && IdAt(s, p + 9) then Some(p + 9) else None;
    if !StartsWith(s[p..], "youtube.com/") then youtuBe
    else
      var q := p + 12;
      // [^\/]+\/.+\/
      var m := NonSlashEnd(s, q);
      var slash := if m > q && m < |s| then LastSlashBeforeId(s, m + 2, LineEnd(s, m + 1)) else None;
      if slash.Some? then Some(slash.value + 1)
      // (?:v|e(?:mbed)?)\/
      else if StartsWith(s[q..], "v/") && IdAt(s, q + 2) then Some(q + 2)
      else if StartsWith(s[q..], "embed/") && IdAt(s, q + 6) then Some(q + 6)
      else if StartsWith(s[q..], "e/") && IdAt(s, q + 2) then Some(q + 2)
      // .*[?&]v=
      else
        var query := LastQueryBeforeId(s, q, LineEnd(s, q));
        if query.Some? then Some(query.value + 3)
        else youtuBe
  }

  /** The leftmost match at or after `p`. */
  function SearchFrom(s: string, p: nat): (r: Option<string>)
    requires p <= |s|
    ensures r.Some? ==> |r.value| == 11 && forall k | 0 <= k < 11 :: IsIdChar(r.value[k])
    decreases |s| - p
  {
    match MatchAt(s, p)
    case Some(i) => Some(s[i..i + 11])
    case None => if p == |s| then None else SearchFrom(s, p + 1)
  }

  /** `getYouTubeId(url)`: the eleven id characters the regex captures, or `None`. */
  function YouTubeId(url: string): (r: Option<string>)
    ensures r.Some? ==> |r.value| == 11 && forall k | 0 <= k < 11 :: IsIdChar(r.value[k])
  {
    SearchFrom(url, 0)
  }

  /** A short link gives its id. */
  lemma ShortLinkId(id: string, rest: string)
    requires |id| == 11 && forall k | 0 <= k < 11 :: IsIdChar(id[k])
    ensures YouTubeId("https://youtu.be/" + id + rest) == Some(id)
  {
    var s := "https://youtu.be/" + id + rest;
    var scheme := s[..8];
    assert scheme == "https://";
    assert 'y' !in scheme;
    forall p | 0 <= p < 8
      ensures MatchAt(s, p).None?
    {
      assert s[p] == scheme[p];
      NoMatchBeforeY(s, p);
    }
    assert s[8..17] == "youtu.be/";
    assert StartsWith(s[8..], "youtu.be/");
    assert !StartsWith(s[8..], "youtube.com/") by { assert s[8..][5] == '.'; }
    assert s[17..28] == id;
    assert IdAt(s, 17);
    assert MatchAt(s, 8) == Some(17);
    SearchSkips(s, 0, 8);
  }

  /** Both alternatives begin with `y`, so nothing matches at another character. */
  lemma NoMatchBeforeY(s: string, p: nat)
    requires p < |s| && s[p] != 'y'
    ensures MatchAt(s, p).None?
  {
    assert s[p..][0] == s[p];
    assert !StartsWith(s[p..], "youtu.be/") && !StartsWith(s[p..], "youtube.com/");
  }

  /** At a `youtube.com/` with no later slash, no `v/`, `embed/` or `e/` after it and a
      last `?v=` or `&v=` followed by an id, the query alternative gives the match. */
  lemma WatchMatch(s: string, p: nat, t: nat)
    requires p + 12 <= t && t + 3 <= |s| && s[p..p + 12] == "youtube.com/"
    requires s[p + 12] != 'v' && s[p + 12] != 'e'
    requires forall j | p + 12 <= j < |s| :: s[j] != '/' && !IsLineTerminator(s[j])
    requires (s[t] == '?' || s[t] == '&') && s[t + 1] == 'v' && s[t + 2] == '=' && IdAt(s, t + 3)
    requires forall j | t < j < |s| :: s[j] != '?' && s[j] != '&'
    ensures MatchAt(s, p) == Some(t + 3)
  {
    var q := p + 12;
    assert StartsWith(s[p..], "youtube.com/") by { assert s[p..][..12] == s[p..p + 12]; }
    NonSlashEndAll(s, q);
    assert !StartsWith(s[q..], "v/") && !StartsWith(s[q..], "embed/") && !StartsWith(s[q..], "e/") by {
      assert s[q..][0] == s[q];
    }
    LineEndAll(s, q);
    assert StartsWith(s[t + 1..], "v=") by { assert s[t + 1..][..2] == [s[t + 1], s[t + 2]]; }
    LastQueryAt(s, q, |s|, t);
    MatchAtQuery(s, p, t);
  }

  /** The branch of `MatchAt` taken when only the query alternative applies. */
  lemma MatchAtQuery(s: string, p: nat, t: nat)
    requires p + 12 <= |s| && StartsWith(s[p..], "youtube.com/")
    requires NonSlashEnd(s, p + 12) == |s| && LineEnd(s, p + 12) == |s|
    requires !StartsWith(s[p + 12..], "v/") && !StartsWith(s[p + 12..], "embed/") && !StartsWith(s[p + 12..], "e/")
    requires LastQueryBeforeId(s, p + 12, |s|) == Some(t)
    ensures MatchAt(s, p) == Some(t + 3)
  {
  }

  /** The greedy query alternative settles on the last `?`/`&` position that works. */
  lemma {:induction false} LastQueryAt(s: string, lo: nat, hi: nat, t: nat)
    requires lo <= t < hi <= |s|
    requires (s[t] == '?' || s[t] == '&') && StartsWith(s[t + 1..], "v=") && IdAt(s, t + 3)
    requires forall j | t < j < hi :: s[j] != '?' && s[j] != '&'
    ensures LastQueryBeforeId(s, lo, hi) == Some(t)
    decreases hi
  {
    if hi - 1 > t {
      LastQueryAt(s, lo, hi - 1, t);
    }
  }

  /** A search that finds nothing before `p` goes on from `p`. */
  lemma {:induction false} SearchSkips(s: string, from: nat, p: nat)
    requires from <= p <= |s|
    requires forall j | from <= j < p :: MatchAt(s, j).None?
    ensures SearchFrom(s, from) == SearchFrom(s, p)
    decreases p - from
  {
    if from < p {
      SearchSkips(s, from + 1, p);
    }
  }
}
