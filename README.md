# MYVault in Dafny

MYVault is a personal vault for links and notes. It has a React front end and an Express/Mongo back end. This project models and proves the logic at its core:

- **Link previews.** The live `Card` component tries its fetch relays in order and stops at the first success. It reads the title, description, image, site name and favicon from the fetched page, in the precedence its selector lists give. When nothing usable comes back, it makes a fallback preview from the link's hostname. An older variant of the component rewrites relative URLs with explicit prefix rules.
- **The second card.** `ContentCard` has its type styling, its YouTube and Reddit id extraction and its single-relay article preview.
- **The home page.** This covers the search/tag/type filter, the per-type counts, tag selection, the draft's preview and the create guard.
- **Pagination.** The `Pagination` component chooses a window of page buttons with ellipses, and decides which buttons are disabled.
- **The notes front end.** This covers truncation, the note form (tags as a comma-separated field), the view title, the view change and the auth provider.
- **The notes server.** This covers Bearer-token extraction, the request validators, the duplicate-account report, the login answer, tag and folder normalisation, note creation, the partial-update merge, the list query, its sort order and its pagination numbers.
- **The note schema.** This covers field setters, defaults and constraints, and the trash state kept by `softDelete` and `restore`.
- **The second token middleware.** This covers header precedence, quote and space cleanup, and the error-name-to-message mapping.
- **The sign-up, sign-in and settings pages.** Their ordered checks, payload normalisation, input handlers and the way they map server answers to messages. Settings also has the preference buttons and toggles.

Layout: one module per source file. Three helper modules sit beside them:
- `Text` gives the JavaScript string built-ins used: `trim` over the ECMAScript white-space set, ASCII `toLowerCase`, `split`/`join` on one character, `includes`, `startsWith`, `replace` of the first match, and `a || b || c` on strings.
- `Validation` gives the "first failing check wins" rule shared by the forms.
- `Runs` gives where a greedy `[^\/]*` or `.*` run ends, for the two cards' URL patterns.

Components whose state React updates are classes. Their handlers are methods with `modifies` clauses. Each method is proved against a specification function: `Outcome`, `FormError`, `Merge`, `VisiblePages`, `ArticleOutcome` and others. The properties the source promises are lemmas about those functions.

Calls the model cannot see are inputs:
- the network answers, as `Reply` datatypes;
- the DOM parser and `querySelector`, as a `Document` map from selector to element;
- `new URL`, as the `Browser` record's `resolve` and `hostname` functions, or `urlParses` on the sign-up page;
- `jwt.verify`, as a `Verification`;
- the user lookup, the e-mail validator and the clock.

## Model

| member | source | states |
|---|---|---|
| CardPreview.GetMetaContent | frontend/src/assets/Card.jsx:1452-1460 | The selectors are tried in list order. The result is the trimmed content of the first one whose trimmed content is non-empty, and it is non-empty and trimmed itself. It is `None` exactly when no selector has such content. |
| CardPreview.TitleOf | frontend/src/assets/Card.jsx:1462-1464 | The title is og:title if it is non-empty, else the trimmed `<title>` text if that is non-empty, else the declared title. |
| CardPreview.GetImageContent | frontend/src/assets/Card.jsx:1474-1490 | The loop result equals the image specification. A result is always one of the image metas resolved against the link. |
| CardPreview.GetFaviconUrl | frontend/src/assets/Card.jsx:1492-1514 | The loop with early return equals the favicon specification: no hostname gives `None`, otherwise the first icon href resolved, otherwise the s2 service URL. |
| CardPreview.BuildPreview | frontend/src/assets/Card.jsx:1516-1528 | Building field by field equals the extracted preview. Building throws exactly when og:site_name is empty and the link has no hostname. |
| CardPreview.Synthesize | frontend/src/assets/Card.jsx:1537-1543 | The fallback preview for a non-empty hostname has a non-empty title. |
| CardPreview.FirstSuccess | frontend/src/assets/Card.jsx:1426-1446 | This is the first relay from `i` on that succeeds: every relay before it fails, and it succeeds when it is in range. |
| CardPreview.TryRelays | frontend/src/assets/Card.jsx:1423-1446 | The relay loop asks relays strictly in order and stops at the first success. It returns that relay's payload and the count of relays asked, or nothing after asking all of them. Relay 0 needs an ok answer with truthy `contents`; later relays need only an ok answer. |
| CardPreview.FirstSuccessAt | frontend/src/assets/Card.jsx:1426-1446 | A succeeding relay with no success before it is the one the loop stops at. |
| CardPreview.FallbackWhenNothingFetched | frontend/src/assets/Card.jsx:1529-1543 | When no relay yields non-empty contents, the preview is `{title \|\| hostname, "Visit " + hostname, null, hostname, s2 favicon}`. |
| CardPreview.Totality | frontend/src/assets/Card.jsx:1529-1546 | A link with a hostname always ends with a preview, and only a link without one can be abandoned. A synthesized preview has the hostname as its site name, and a non-empty title when the hostname is non-empty. An extracted preview was built from fetched contents and has the site name the site-name getter gives. |
| CardPreview.ExplicitPipelineTotal | frontend/src/assets/Card.jsx:491-509 | With the explicit normalizer and its URL parser as the browser, a link that parser accepts always ends with a preview, and a synthesized one has the link's hostname as its site name and a non-empty title. |
| CardPreview.ExtractionOutcome | frontend/src/assets/Card.jsx:1448-1528 | For fetched contents and a link with a hostname, the outcome is the extracted preview, whose fields come from the getters. |
| CardPreview.SiteNamePrecedence | frontend/src/assets/Card.jsx:1516-1518 | The site name is og:site_name if it is non-empty, else the link's hostname. |
| CardPreview.FaviconPrecedence | frontend/src/assets/Card.jsx:1492-1514 | No hostname gives `None`. Otherwise the first icon selector with an href wins, and with none the s2 service URL is used. |
| CardPreview.ImagePrecedence | frontend/src/assets/Card.jsx:1474-1490 | The image is the first non-empty image meta in list order (og:image, twitter:image, twitter:image:src), resolved against the link. |
| CardPreview.Card.constructor | frontend/src/assets/Card.jsx:1376-1380 | A card starts with no preview, not loading and no error. |
| CardPreview.Card.FetchLinkPreview | frontend/src/assets/Card.jsx:1411-1549 | A call for an empty link, or one made while loading, changes nothing. Every other call ends not loading, with the error flag set exactly when nothing was extracted, and with the preview the outcome gives. "Preview not available" shows exactly when the outcome is abandoned. |
| CardPreview.Card.OnMount | frontend/src/assets/Card.jsx:1405-1409 | Only article and link cards fetch. Other cards keep their state. |
| CardPreview.Card.TypeLabel | frontend/src/assets/Card.jsx:1632-1641 | The label is never empty. A YouTube card is labelled "YouTube" and a Twitter card "X (Twitter)". Any other card is labelled with its preview's site name when that is non-empty, and "Article" otherwise. |
| CardPreview.Card.VideoId | frontend/src/assets/Card.jsx:1558 | Only YouTube cards have a video id, and it has 11 characters. |
| CardPreview.YouTubeId | frontend/src/assets/Card.jsx:1552-1556 | The capture is 11 characters of the class `[^"&?\/\s]`, or `None`. |
| CardPreview.ShortLinkId | frontend/src/assets/Card.jsx:1552-1556 | `https://youtu.be/<id>...` gives `<id>`. |
| CardPreview.WatchMatch | frontend/src/assets/Card.jsx:1553 | At `youtube.com/`, the greedy `.*[?&]v=` alternative settles on the last `?v=`/`&v=` that is followed by an id. |
| Web.FaviconService | frontend/src/assets/Card.jsx:1510 | The favicon service URL always starts with the s2 prefix. |
| Web.NormalizeExplicit | frontend/src/assets/Card.jsx:491-509 | A candidate starting with `http` is returned unchanged, and `//x` becomes `https://x`. `/p` becomes protocol + `//` + host + `/p`; anything else becomes protocol + `//` + host + `/` + candidate. An unparsable link gives `None`. |
| Web.NormalizeExplicitAbsolute | frontend/src/assets/Card.jsx:491-509 | Every URL the explicit normalizer produces starts with `http` or `<scheme>://`. |
| Web.RelativeOnHttpsPage | frontend/src/assets/Card.jsx:497-503 | On `https://host/...`, a candidate that does not start with `/` or `http` becomes `https://host/` + candidate. |
| Web.RootRelativeOnHttpsPage | frontend/src/assets/Card.jsx:497-500 | On `https://host/...`, a root-relative candidate becomes `https://host` + candidate. |
| Web.DefaultPortIgnored | frontend/src/assets/Card.jsx:497-503 | A page address that spells out the default port `:443`, with or without leading zeros, normalizes every candidate as the address without it does. |
| Web.ProtocolRelativeExample | frontend/src/assets/Card.jsx:495-496 | `//cdn.ex.com/a.png` on an https page becomes `https://cdn.ex.com/a.png`. |
| Web.ParseUrl | frontend/src/assets/Card.jsx:498-502 | A parsed URL has a non-empty hostname, a protocol that ends in `:`, and a host that starts with the hostname. |
| Web.SplitHost | frontend/src/assets/Card.jsx:498-502 | A host splits into a hostname and the digits of its port, the hostname being the whole host or the part before `:digits`. A bracketed IPv6 hostname keeps its brackets, and any other hostname has no colon. |
| Web.UrlOf | frontend/src/assets/Card.jsx:498-502 | The URL built from an authority has a non-empty hostname, the given scheme and `:` as protocol, and a host that starts with the hostname. |
| Web.UrlWithPort | frontend/src/assets/Card.jsx:498-502 | A port that is empty or the scheme's default after dropping leading zeros is left out of the host; any other port is kept, without leading zeros. The hostname never has the port. |
| Web.ParseHttps | frontend/src/assets/Card.jsx:498-502 | `https://host/path` parses to protocol `https:` with host and hostname `host`. |
| Web.ParseHttpsDefaultPort | frontend/src/assets/Card.jsx:498-502 | `https://host:443/path`, with any leading zeros, parses exactly as `https://host/path` does. |
| Web.ParseHttpsOtherPort | frontend/src/assets/Card.jsx:498-502 | `https://host:<p>/path` with any other port keeps `host:<p>` as host, without leading zeros, and `host` as hostname. |
| ContentCard.GetTypeConfig | frontend/src/components/ContentCard.jsx:22-35 | Each of youtube, twitter, reddit and article has its own icon. Every other type, and only those, gets the Globe/gray default. |
| ContentCard.YouTubeId | frontend/src/components/ContentCard.jsx:38-42 | The result is the second capture group when it is exactly 11 UTF-16 code units long (`.length === 11`), otherwise `None`. |
| ContentCard.Captured | frontend/src/components/ContentCard.jsx:39-40 | The capture `([^#&?]*)` after the last marker on the first line contains no `#`, `&` or `?`. |
| ContentCard.EmbedLinkId | frontend/src/components/ContentCard.jsx:38-42 | `...embed/<id>` followed by `#`, `&`, `?` or the end, with an id of 11 UTF-16 code units, gives that id. |
| ContentCard.RedditId | frontend/src/components/ContentCard.jsx:45-49 | The result is a non-empty alphanumeric id, or `None`. |
| ContentCard.RedditPostId | frontend/src/components/ContentCard.jsx:45-49 | At the leftmost `reddit.com/r/<sub>/comments/`, the id is the alphanumeric run that follows. |
| ContentCard.ArticlePreview | frontend/src/components/ContentCard.jsx:66-76 | Building throws exactly when the link has no hostname. The favicon is always the s2 URL for the hostname, and the description is always set. The field precedences are stated by the four `Article…Precedence` lemmas below. |
| ContentCard.ArticleOutcomeCases | frontend/src/components/ContentCard.jsx:62-95 | No hostname sets nothing. A thrown fetch gives the fallback with the declared title and an empty description. Empty contents set nothing. Fetched contents give a preview with the s2 favicon. |
| ContentCard.ArticleTitlePrecedence | frontend/src/components/ContentCard.jsx:67-68 | The title is og:title, then the `<title>` text, then the declared title. |
| ContentCard.ArticleDescriptionPrecedence | frontend/src/components/ContentCard.jsx:69-70 | The description is og:description, then the description meta, then "". |
| ContentCard.ArticleImagePrecedence | frontend/src/components/ContentCard.jsx:71-72 | The image is og:image, then twitter:image, and no image when both are empty. |
| ContentCard.ArticleSiteNamePrecedence | frontend/src/components/ContentCard.jsx:73-74 | The site name is og:site_name, else the link's hostname. |
| ContentCard.ContentCardView.constructor | frontend/src/components/ContentCard.jsx:17-18 | A card starts with no preview and not loading. |
| ContentCard.ContentCardView.FetchArticlePreview | frontend/src/components/ContentCard.jsx:52-103 | Only article and other types fetch. Loading ends false, and the preview is replaced exactly when the outcome names one. |
| ContentCard.ContentCardView.VideoId | frontend/src/components/ContentCard.jsx:107 | Only YouTube cards have a video id, and it is 11 UTF-16 code units long. |
| ContentCard.ContentCardView.RedditPost | frontend/src/components/ContentCard.jsx:108 | Only Reddit cards have a post id, and it is non-empty. |
| HomePage.Filtered | frontend/src/pages/HomePage.jsx:142-153 | Every item kept meets the search, tag and type conditions, and the list never grows. |
| HomePage.FilteredIsSubsequence | frontend/src/pages/HomePage.jsx:142-153 | The filtered list is an order-preserving subsequence of the content. |
| HomePage.FilteredMembership | frontend/src/pages/HomePage.jsx:142-153 | An item is shown if and only if it is in the content and meets all three conditions. |
| HomePage.NoFilterIsIdentity | frontend/src/pages/HomePage.jsx:142-153 | With no search, no selected tag and type `all`, the list is the content. |
| HomePage.GetContentCounts | frontend/src/pages/HomePage.jsx:156-162 | The keys are `all` and the four types. `all` is the content length, and each type's count is the length of that type's filtered list. |
| HomePage.CountKind | frontend/src/pages/HomePage.jsx:159 | A type's count is at most the content length. |
| HomePage.CountIsFilteredLength | frontend/src/pages/HomePage.jsx:159 | Counting a type equals the length of the list the type filter shows. |
| HomePage.CountsAddUp | frontend/src/pages/HomePage.jsx:157-160 | When every item has a listed type, the four counts add up to `all`. |
| HomePage.Without | frontend/src/pages/HomePage.jsx:232 | Filtering out an id removes it and keeps every other member, as an order-preserving subsequence that is strictly shorter when the id was present. |
| HomePage.WithoutCounts | frontend/src/pages/HomePage.jsx:232 | Every other id occurs as often as before. |
| HomePage.Toggle | frontend/src/pages/HomePage.jsx:229-235 | The id is selected afterwards exactly when it was not before, and other ids keep their membership. An absent id is appended at the end. A present id is filtered out, leaving a shorter order-preserving subsequence. A selection without duplicates stays duplicate-free. |
| HomePage.WithoutKeepsNoDuplicates | frontend/src/pages/HomePage.jsx:232 | Filtering keeps a list duplicate-free. |
| HomePage.WithoutAbsent | frontend/src/pages/HomePage.jsx:232 | Filtering out an absent id changes nothing. |
| HomePage.WithoutAppended | frontend/src/pages/HomePage.jsx:232-233 | Removing an id that was just appended gives back the list. |
| HomePage.ToggleTwice | frontend/src/pages/HomePage.jsx:229-235 | Toggling an unselected id twice restores the selection exactly. Toggling any id twice restores membership. |
| HomePage.ToggleDraftTag | frontend/src/pages/HomePage.jsx:238-245 | Only the draft's tags change, by the toggle rule. |
| HomePage.GeneratePreview | frontend/src/pages/HomePage.jsx:248-270 | A YouTube link without an id gives `None`. A YouTube link with an id gives an id of 11 UTF-16 code units and its nocookie embed URL. Twitter gives `{twitter, url}`. Every other type gives `{article, url}`. |
| HomePage.DraftPreview | frontend/src/pages/HomePage.jsx:280-287 | A draft without a link or a type has no preview. A non-YouTube draft with both always has one. |
| HomePage.WithoutTag | frontend/src/pages/HomePage.jsx:220 | No tag with the id is left, every other tag is kept, and the result is an order-preserving subsequence of the tags. |
| HomePage.WithoutTagCounts | frontend/src/pages/HomePage.jsx:220 | Every tag with another id occurs as often as before. |
| HomePage.Home.constructor | frontend/src/pages/HomePage.jsx:54-59 | The page starts with an empty draft of type article and no preview. |
| HomePage.Home.ToggleTag | frontend/src/pages/HomePage.jsx:229-235 | The new selection is the toggle of the old one. Nothing else changes. |
| HomePage.Home.ToggleContentTag | frontend/src/pages/HomePage.jsx:238-245 | The new draft is the old one with its tag toggled. Nothing else changes. |
| HomePage.Home.DeleteTag | frontend/src/pages/HomePage.jsx:211-226 | An ok answer removes the id from both the tag list and the selection. Any other answer changes nothing. |
| HomePage.Home.SetDraft | frontend/src/pages/HomePage.jsx:280-287 | Editing the draft reruns the preview effect. |
| HomePage.Home.CreateContent | frontend/src/pages/HomePage.jsx:290-312 | The draft is sent exactly when its title and link are non-blank. An ok answer resets the draft and closes the modal; otherwise nothing changes. |
| Pagination.Window | frontend/src/ui.jsx:712-716 | The range holds the consecutive pages from max(2, c-2) to min(total-1, c+2). |
| Pagination.GetVisiblePages | frontend/src/ui.jsx:707-733 | The loop and pushes build `VisiblePages`: the first entry is page 1 and the last is `totalPages`. |
| Pagination.VisiblePagesIncreasing | frontend/src/ui.jsx:707-733 | For 1 <= c <= total with total >= 2, the numbers shown are 1, the window and total, strictly increasing and so without duplicates. |
| Pagination.EllipsisPlacement | frontend/src/ui.jsx:718-730 | `...` follows 1 exactly when c-2 > 2, and precedes total exactly when c+2 < total-1. The current page is always shown. |
| Pagination.PagesInRange | frontend/src/ui.jsx:712-730 | Every page button leads to a page in 1..total. |
| Pagination.Click | frontend/src/ui.jsx:760-761 | A button hands its page number to `onPageChange`, and does so exactly when it is not a disabled `...`. |
| Pagination.Buttons | frontend/src/ui.jsx:735-786 | Nothing is rendered exactly when there is at most one page; otherwise there is one button per visible page or ellipsis, plus Previous and Next. |
| Pagination.ButtonsInRange | frontend/src/ui.jsx:747-786 | For a current page in 1..total, every enabled button of the rendered component (Previous, Next and the page buttons) leads to a page in 1..total, and only the ellipses lead nowhere. |
| NotesApp.TruncateContent | frontend/src/App.jsx:457-459 | Content whose `.length` (UTF-16 code units) is within the limit is unchanged. Longer content becomes a proper prefix plus `...`: the longest prefix of at most `maxLength` code units. |
| NotesApp.TruncateBmp | frontend/src/App.jsx:457-459 | For content without astral characters, the result is `content.substring(0, maxLength) + '...'` exactly as JavaScript computes it. |
| NotesApp.TrimAll | frontend/src/App.jsx:557 | Each piece is trimmed in place. |
| NotesApp.TrimmedPieces | frontend/src/App.jsx:557 | Every piece is trimmed and has no comma. |
| NotesApp.ParseTags | frontend/src/App.jsx:557 | No parsed tag is empty or padded, and none contains a comma. |
| NotesApp.ParseTagsJoin | frontend/src/App.jsx:550-557 | Joining well-formed tags with `, ` and parsing the field again gives the same tags. |
| NotesApp.ParseTagsDropsBlanks | frontend/src/App.jsx:557 | No parsed tag is made only of spaces. |
| NotesApp.InitialForm | frontend/src/App.jsx:546-553 | A new note starts as folder `General`, color `#ffffff`, not pinned, with empty fields. An edited note shows its own title, content and pin, its tags joined by `, `, and its folder and color, or `General` and `#ffffff` when those are empty. |
| NotesApp.Submitted | frontend/src/App.jsx:555-561 | The saved note has the form's title, content, folder, color and pin, and the tags the tag field parses to. |
| NotesApp.EditRoundTrip | frontend/src/App.jsx:546-561 | Opening a note whose folder and color are set and whose tags are well formed, then submitting it untouched, saves the same note. |
| NotesApp.ViewTitle | frontend/src/App.jsx:814-821 | Each of the four results happens exactly under its precedence condition: trash, then folder, then first tag, then `All Notes`. The folder and tag titles carry the folder and the first tag. |
| NotesApp.Dashboard.constructor | frontend/src/App.jsx:666-675 | The dashboard starts on `notes` with no filters and the sidebar closed. |
| NotesApp.Dashboard.HandleViewChange | frontend/src/App.jsx:739-743 | The view and filters are set, and the sidebar is always closed. |
| NotesApp.AuthProvider.constructor | frontend/src/App.jsx:116-119 | The token starts as the stored one, with no user, loading. |
| NotesApp.AuthProvider.Login | frontend/src/App.jsx:145-149 | The token is stored and set, and the user is set. |
| NotesApp.AuthProvider.Logout | frontend/src/App.jsx:151-155 | The stored token, the token and the user are all cleared. |
| NotesApp.AuthProvider.CheckSession | frontend/src/App.jsx:121-143 | Loading ends. With no token, or the empty token (falsy in JavaScript), nothing else changes. A non-empty token whose answer has a user sets the user and keeps the token. Any other answer drops the token from state and storage and keeps the user. |
| NotesApi.BearerToken | backend/index.js:27-28 | There is a token exactly when the header has a non-empty second space-separated field, and the token is that field, whatever follows it. |
| NotesApi.BearerTokenOf | backend/index.js:27-28 | `<scheme> <token>` gives the token whatever the scheme word is. |
| NotesApi.NoSpaceNoToken | backend/index.js:27-32 | A header without a space carries no token. |
| NotesApi.AuthenticateToken | backend/index.js:25-53 | No token gives 401, and a request is let through exactly when its token decodes to an existing user. Every refusal is 401 or 500, and 500 only for an error that is neither `JsonWebTokenError` nor `TokenExpiredError`. |
| NotesApi.Check | backend/index.js:56-105 | A check gives its message, and only that message, exactly when it fails. |
| NotesApi.RegisterErrors | backend/index.js:56-70 | There are no errors exactly when the trimmed username has 3-30 characters as `isLength` counts them and only word characters, the e-mail is valid and the password has at least 6. Each of the four messages appears exactly when its check fails, and they appear in declaration order. |
| NotesApi.RegisterChecks | backend/index.js:56-70 | Given the four outcomes, the errors are empty exactly when all pass, each message is present exactly when its check fails, and the messages come in declaration order. |
| NotesApi.CheckInOrder | backend/index.js:56-70 | A check put in front of an ordered list of messages keeps the messages in order. |
| NotesApi.LoginErrors | backend/index.js:72-80 | There are no errors exactly when the e-mail is valid and the password is non-empty. |
| NotesApi.NoteErrors | backend/index.js:82-105 | There are no errors exactly when the trimmed title is non-empty and at most 200 long as `isLength` counts, the content is non-empty, a given folder is at most 50 long once trimmed, and a given color is hex. |
| NotesApi.DuplicateField | backend/index.js:125-133 | The report names `email` exactly when the existing account's e-mail matches, otherwise `username`, which then matches. |
| NotesApi.LoginResponse | backend/index.js:158-188 | A failed check gives 400. The login succeeds exactly when the checks pass, the account exists and the password matches. |
| NotesApi.LoginHidesAccounts | backend/index.js:168-176 | An unknown address and a wrong password give the same answer. |
| NotesApi.NormalizeTags | backend/index.js:363 | Every tag left is non-empty, trimmed and lowercase, and comes from an input tag. Every input tag that is non-empty after normalising is kept, and the result is an order-preserving subsequence of the normalised input. |
| NotesApi.NormalizeTagsCounts | backend/index.js:363 | Each kept tag occurs as often as it occurs among the normalised input tags: nothing is merged or duplicated. |
| NotesApi.NormalizeTagsAppend | backend/index.js:363 | Normalising distributes over concatenation, and a single tag normalises to its normalised form or to nothing when that is empty. |
| NotesApi.SchemaKeepsNormalizedTags | backend/models/Note.js:19-23 | The schema's trim/lowercase setters leave normalised tags alone. |
| NotesApi.NormalizeTagsIdempotent | backend/index.js:363 | Normalising twice changes nothing. |
| NotesApi.NormalizeFolder | backend/index.js:364 | The folder is non-empty and trimmed. It is `General` exactly when the trimmed input is empty or `General`; otherwise it is the trimmed input. |
| NotesApi.NormalizeFolderIdempotent | backend/index.js:364 | Normalising twice changes nothing. |
| NotesApi.SchemaKeepsNormalizedFolder | backend/models/Note.js:24-28 | The schema's trim setter leaves a normalised folder alone. |
| NotesApi.Created | backend/index.js:357-367 | The defaults are tags `[]`, folder `General`, color `#ffffff` and not pinned; tags and folder are normalised and the title trimmed. |
| NotesApi.CreatedValid | backend/models/Note.js:5-9 | For a request that passes validation, the schema accepts the created fields exactly when the trimmed title is at most 200 UTF-16 code units (`maxlength`). |
| NotesApi.CreateNote | backend/index.js:347-379 | A failed check gives 400 and no note. A title the schema refuses gives 500 and no note. Otherwise the answer is 201 with a fresh, valid note outside the trash whose fields are `Created`. |
| NotesApi.Merge | backend/index.js:426-439 | Title and content are always replaced. Tags, folder, color and pin change only when given. |
| NotesApi.MergeKeepsValid | backend/index.js:404-439 | After validation, the merged fields are valid exactly when the trimmed title fits `maxlength` and the color is a given hex color, or a kept one that is hex or empty (the schema's `match` skips `''`). |
| NotesApi.StoredEmptyColorKept | backend/models/Note.js:41-45 | An update without a color to a note stored with an empty color keeps `''`, and saves exactly when the trimmed title fits. |
| NotesApi.MergeRequiredOnly | backend/index.js:426-439 | An update without optional fields changes only title and content. |
| NotesApi.MergeIdempotent | backend/index.js:426-439 | Repeating an update changes nothing more. |
| NotesApi.ApplyUpdate | backend/index.js:426-439 | The handler's assignments leave each field as `Merge` says. The trash fields are left alone. |
| NotesApi.UpdateNote | backend/index.js:404-454 | Invalid input gives 400 and no note 404. Otherwise 200 exactly when the merged fields are valid, and 500 when `save` refuses them. Only a 200 changes the note, to `Merge` of the old fields, and a 200 leaves it valid. |
| NotesApi.BuildQuery | backend/index.js:297-312 | `isDeleted: false` is added exactly when includeDeleted is not `'true'`. The folder filter is added exactly for a non-blank folder, and the tags filter for a tags parameter other than a single empty value (which `if (tags)` reads as false), one value wrapped in a list. |
| NotesApi.OrderOf | backend/index.js:316-323 | The results are ordered by text score exactly for a non-blank search, otherwise pinned first and then most recent. |
| NotesApi.NotAfterTransitive | backend/index.js:322 | The `{isPinned: -1, updatedAt: -1}` order is transitive. |
| NotesApi.SortedPinnedFirst | backend/index.js:322 | In a list sorted that way, every pair is in order and every pinned note comes before every unpinned one. |
| NotesApi.CeilDiv | backend/index.js:335 | `ceil(total/limit)` is the least q with q*limit >= total. |
| NotesApi.Pagination | backend/index.js:325-339 | `currentPage`, `totalNotes` and `totalPages = ceil(total/limit)` as given, `hasNextPage` exactly when skip + returned < total, and `hasPrevPage` exactly when page > 1. |
| NotesApi.NextPageIffNotLast | backend/index.js:325-339 | When the page holds what the count promises, there is a next page exactly when page < totalPages. |
| NoteModel.DefaultColorValid | backend/models/Note.js:41-45 | The default color `#ffffff` matches the color pattern. |
| NoteModel.SchemaTag | backend/models/Note.js:19-23 | A stored tag is trimmed and lowercase. |
| NoteModel.SchemaTags | backend/models/Note.js:19-23 | The setter applies to every tag, in place. |
| NoteModel.SchemaTagsFixed | backend/models/Note.js:19-23 | Tags that are already trimmed and lowercase are left alone. |
| NoteModel.Note.constructor | backend/models/Note.js:3-45 | Title and folder are trimmed and tags normalised. The defaults are folder `General`, color `#ffffff` and not pinned, and a new note is not deleted and has no deletion time. |
| NoteModel.Note.InTrash | backend/models/Note.js:78-80 | `inTrash` always equals `isDeleted`. |
| NoteModel.Note.SoftDelete | backend/models/Note.js:64-68 | The note is deleted, stamped with the given time and in the trash. No other field changes. |
| NoteModel.Note.Restore | backend/models/Note.js:71-75 | The note is not deleted, has no deletion time and is out of the trash. No other field changes. |
| NoteModel.DeleteThenRestore | backend/models/Note.js:29-36 | Restoring right after deleting leaves the trash fields as a new note has them, and nothing else changes. |
| AuthMiddleware.Candidates | backend/middleware.js:16-20 | The five places the token is looked for, in order; the fourth, `header('token')`, reads the same entry as the first. |
| AuthMiddleware.FindToken | backend/middleware.js:16-20 | The token is the first non-empty candidate. There is none exactly when all are empty. |
| AuthMiddleware.TokenHeaderFirst | backend/middleware.js:16 | A non-empty `token` header wins over every other place. |
| AuthMiddleware.BearerSecond | backend/middleware.js:17 | Without a `token` header, `authorization: Bearer <t>` gives `t`. |
| AuthMiddleware.AuthTokenLast | backend/middleware.js:20 | `x-auth-token` is read only when the `token` entry and both authorization headers give nothing. |
| AuthMiddleware.Cleanup | backend/middleware.js:23-25 | The token is trimmed, then one leading and one trailing quote are dropped. The result is fixed for each case: no quote, a quote at the start only, at the end only, at both ends, and a lone quote that becomes "". |
| AuthMiddleware.CleanupQuoted | backend/middleware.js:24 | Any token between two quotes loses exactly those quotes, even when it has white space inside them. |
| AuthMiddleware.VerifyMessage | backend/middleware.js:61-81 | The three named errors each get their fixed message. Every other name gets "Invalid token". |
| AuthMiddleware.Request.constructor | backend/middleware.js:14 | A request starts without a user id or user. |
| AuthMiddleware.UserMiddleware | backend/middleware.js:14-83 | No token gives 401 "Access denied. No token provided.", and `next()` is called exactly when the token decodes. Every answer is 401 with the message for the error. On success `user` is the decoded payload and `userId` its `UserId` claim, which is unset for the `{ userId }` payload the backend signs; otherwise both are untouched. |
| Signup.EmailPatternShape | frontend/src/pages/SignupPage.jsx:59-60 | `^[^\s@]+@[^\s@]+\.[^\s@]+$` holds if and only if the address has no space and exactly one `@`, with something before the `@` and a `.` with something on both sides after it. |
| Signup.Set | frontend/src/pages/SignupPage.jsx:19-24 | The named field takes the value and every other field keeps its own. |
| Signup.SetTwice | frontend/src/pages/SignupPage.jsx:19-24 | Setting a field twice keeps the second value. |
| Signup.Checks | frontend/src/pages/SignupPage.jsx:28-76 | There are eight checks, in source order. |
| Signup.FormError | frontend/src/pages/SignupPage.jsx:28-76 | There is no error exactly when the required fields are present, the username has 3-20 UTF-16 code units, all word characters, the password has 6-20, the e-mail matches, and a non-blank avatar parses as a URL. |
| Signup.FormErrorIsFirstFailure | frontend/src/pages/SignupPage.jsx:28-76 | The error is the message of the first failing check in source order. |
| Signup.BlankAvatarIgnored | frontend/src/pages/SignupPage.jsx:66 | A blank avatar is never handed to the URL parser. |
| Signup.Payload | frontend/src/pages/SignupPage.jsx:90-95 | The username and avatar are the trims of the typed ones and the e-mail the trim of the lowercased one: an infix with only white space cut from each end, itself with none at either end. The password is sent as typed, and nothing grows. |
| Signup.ValidUsernameSentAsTyped | frontend/src/pages/SignupPage.jsx:91 | A username that passed the character check is sent as typed. |
| Signup.PayloadIdempotent | frontend/src/pages/SignupPage.jsx:90-95 | Normalising a normalised payload changes nothing. |
| Signup.RefusalMessage | frontend/src/pages/SignupPage.jsx:187-210 | The 409 and 400 branches and the fallback each pick their message. The message can only be empty for a 400 that carries an error list. |
| Signup.EmptyErrorListShowsNothing | frontend/src/pages/SignupPage.jsx:197-200 | A 400 with an empty `errors` array leaves the message empty. |
| Signup.ServerMessageWins | frontend/src/pages/SignupPage.jsx:194-209 | A non-empty server message is shown unless a sign-in hint or an error list takes precedence. |
| Signup.SignupPage.constructor | frontend/src/pages/SignupPage.jsx:8-17 | The page starts with empty fields, no error, not submitting and no success. |
| Signup.SignupPage.HandleInputChange | frontend/src/pages/SignupPage.jsx:19-26 | Only the named field changes, and the error is cleared. |
| Signup.SignupPage.ValidateForm | frontend/src/pages/SignupPage.jsx:28-76 | The result is true exactly when `FormError` is none. A failure sets the error to that message; nothing else changes. |
| Signup.SignupPage.HandleSubmit | frontend/src/pages/SignupPage.jsx:78-105 | An invalid form sends nothing. A valid one sends `Payload`, ends not submitting, and shows success or the refusal message. |
| Signup.SignupPage.Send | frontend/src/pages/SignupPage.jsx:83-211 | Submitting ends false. An accepted account sets success with no error, and a refusal sets its message. |
| Login.Set | frontend/src/pages/LoginPage.jsx:16-21 | The named field takes the value and the other keeps its own. |
| Login.NormalizedEmail | frontend/src/pages/LoginPage.jsx:47 | The normalised address is the trim of the lowercased typed one, has no capitals and is no longer than the typed one. |
| Login.NormalizedEmailIdempotent | frontend/src/pages/LoginPage.jsx:47 | Normalising twice changes nothing. |
| Login.NormalizedEmailEmpty | frontend/src/pages/LoginPage.jsx:47 | The normalised address is empty exactly when the typed one is blank. |
| Login.MakePayload | frontend/src/pages/LoginPage.jsx:48-53 | Id, username and avatar come from the answer, or none, "" and "". The e-mail is the answer's if non-empty, else the normalised typed one. It is empty exactly when both are. |
| Login.FailureMessage | frontend/src/pages/LoginPage.jsx:72 | The message is the server's if non-empty, else "Login failed"; it is never empty. |
| Login.LoginPage.constructor | frontend/src/pages/LoginPage.jsx:8-14 | The page starts with empty fields, no error, not submitting, and the stored entries given. |
| Login.LoginPage.HandleInputChange | frontend/src/pages/LoginPage.jsx:16-23 | Only the named field changes, and the error is cleared. |
| Login.LoginPage.HandleSubmit | frontend/src/pages/LoginPage.jsx:25-80 | An empty field sets "Please fill in all fields" and sends nothing. A success stores the user record, and the token only when the answer has one. A refusal or a failed request sets its error. Submitting ends false past the guard. |
| Login.TokenlessSuccessKeepsOldToken | frontend/src/pages/LoginPage.jsx:56-59 | A success without a token keeps an earlier stored token while it replaces the user record. |
| Settings.WithTheme | frontend/src/pages/SettingsPage.jsx:338 | Choosing a theme changes only the theme. |
| Settings.WithView | frontend/src/pages/SettingsPage.jsx:366 | Choosing a view changes only the default view. |
| Settings.FlipAutoPreview | frontend/src/pages/SettingsPage.jsx:406 | The auto-preview toggle negates only auto preview. |
| Settings.FlipNotifications | frontend/src/pages/SettingsPage.jsx:425 | The notifications toggle negates only notifications. |
| Settings.FlipTwice | frontend/src/pages/SettingsPage.jsx:406-425 | Toggling either switch twice is the identity. |
| Settings.ChoicesOverride | frontend/src/pages/SettingsPage.jsx:338-366 | A later choice overrides an earlier one, and theme and view choices commute. |
| Settings.AutoPreviewToggles | frontend/src/pages/SettingsPage.jsx:406 | The count is the number of auto-preview clicks in the run, which is at most its length. |
| Settings.ClicksKeepOffered | frontend/src/pages/SettingsPage.jsx:330-366 | Clicking the rendered buttons keeps the theme among light/dark/system and the view among grid/list. |
| Settings.AutoPreviewParity | frontend/src/pages/SettingsPage.jsx:406 | Auto preview ends on exactly when its start value and the parity of its toggles say so. |
| Settings.ClicksFromInitial | frontend/src/pages/SettingsPage.jsx:27-366 | From `{light, grid, true, true}`, the buttons only select offered themes and views. |
| Settings.PasswordError | frontend/src/pages/SettingsPage.jsx:130-138 | There is no alert exactly when the new password equals the confirmation and has at least 6 UTF-16 code units. |
| Settings.MismatchFirst | frontend/src/pages/SettingsPage.jsx:130-133 | A mismatch is reported before the length is looked at. |
| Settings.ShortSecond | frontend/src/pages/SettingsPage.jsx:135-138 | A matching but short password is reported as too short. |
| Settings.ReplyAlert | frontend/src/pages/SettingsPage.jsx:152-161 | The alert is never empty, and a non-empty refusal message is shown as given. |
| Settings.SettingsPage.constructor | frontend/src/pages/SettingsPage.jsx:27-41 | The page starts at `{light, grid, true, true}` with empty password fields and not saving. |
| Settings.SettingsPage.Click | frontend/src/pages/SettingsPage.jsx:338-425 | A click applies its update to the preferences only. |
| Settings.SettingsPage.HandlePasswordChange | frontend/src/pages/SettingsPage.jsx:129-164 | A body is sent exactly when the checks pass; otherwise the first failing check's alert is shown and nothing changes. The body holds only `currentPassword` and `newPassword`. An accepted change empties all three fields, which disables the button. Saving ends false. |
| Validation.FirstFailure | frontend/src/pages/SignupPage.jsx:28-76 | There is no message exactly when every check passes. Otherwise the message is that of a failing check with no failure before it. |
| Validation.FirstFailureAt | frontend/src/pages/SettingsPage.jsx:129-138 | A failing check with only passes before it gives the message. |
| Text.Trim | frontend/src/pages/SignupPage.jsx:91-94 | `trim` leaves no white space at either end and never lengthens the input. |
| Text.TrimOffset | frontend/src/pages/SignupPage.jsx:91-94 | The trimmed string is an infix of the input with only white space before and after it. |
| Text.TrimIdempotent | backend/models/Note.js:7 | Trimming twice is trimming once. |
| Text.TrimEmptyIffAllSpace | frontend/src/pages/SignupPage.jsx:66 | A string trims to empty exactly when it is all white space. |
| Text.TrimIsTrimOf | frontend/src/pages/SignupPage.jsx:91-94 | `trim` gives an infix of the input with only white space cut from each end, and none left at either end. |
| Text.TrimOfUnique | frontend/src/pages/SignupPage.jsx:91-94 | Only one string is such an infix: whatever meets that description is the trim. |
| Text.ToLower | frontend/src/pages/SignupPage.jsx:92 | Lowercasing maps each character and keeps the length. |
| Text.ToLowerProperties | frontend/src/pages/SignupPage.jsx:92 | The result has no capitals, lowercasing is idempotent, and it leaves a lowercase string alone. |
| Text.LowerTrimNoUpper | backend/index.js:363 | Lowercasing then trimming leaves no capital letter. |
| Text.Split | frontend/src/App.jsx:557 | `split` gives at least one piece, and no piece contains the separator. |
| Text.JoinSplit | frontend/src/App.jsx:557 | Joining the pieces of a split with its separator gives back the string. |
| Text.SplitJoin | frontend/src/App.jsx:550-557 | Splitting a `, `-join on `,` gives the first part and the others with a space in front. |
| Text.FirstNonEmpty | frontend/src/assets/Card.jsx:1452-1460 | The result is a non-empty member of the list, and it is none exactly when all members are empty. |
| Text.FirstNonEmptyAt | frontend/src/assets/Card.jsx:1453-1457 | The first non-empty position is the one picked. |
| Text.Or | frontend/src/pages/LoginPage.jsx:72 | `a \|\| b` is an operand, and the last one when all earlier ones are empty. |
| Text.DropEmpty | frontend/src/App.jsx:557 | `filter(tag => tag)` keeps exactly the non-empty pieces, as an order-preserving subsequence. |
| Text.DropEmptyCounts | frontend/src/App.jsx:557 | Every non-empty piece occurs in the result as often as in the input. |
| Text.DropEmptyAppend | frontend/src/App.jsx:557 | Dropping empty pieces distributes over concatenation. |
| Text.DropEmptyNone | backend/index.js:363 | Nothing is dropped when no piece is empty. |
| Text.RemoveFirstPrefix | backend/middleware.js:17 | `replace('Bearer ', '')` on `Bearer <t>` gives `t`. |
| Text.Utf16Length | frontend/src/App.jsx:458 | `.length` counts one code unit per character below U+10000 and two otherwise; it equals the character count exactly when there is no astral character. |
| Text.Utf16Prefix | frontend/src/App.jsx:458 | The longest prefix of at most `n` code units: adding the next character would exceed `n`, and it is the whole string exactly when the whole string fits. |
| Text.Utf16PrefixBmp | frontend/src/App.jsx:458 | Without astral characters that prefix is the first `n` characters, or the whole string. |
| Text.IsLengthCount | backend/index.js:59 | The `isLength` count is at most the character count, which is at most `.length`, and equals the character count when there are no variation selectors. |

## Left out

- Network, DOM, timers and storage are not executed. Server answers, parsed documents, `new URL`, the e-mail validator and normaliser, `jwt.verify`, the user lookup, password hashing and the clock are all inputs.
- The WHATWG URL parser is not modelled in full. For the live card it is an abstract `resolve`/`hostname` pair. `Web.ParseUrl` accepts only hierarchical `scheme://host...` URLs, and it is used only with the explicit normalizer. It drops a scheme's default port, keeps a bracketed IPv6 host whole and refuses a port above 65535. It does not check what is inside IPv6 brackets, and it does no IDNA mapping, percent-decoding or check for forbidden host code points other than white space. Nor does it run the WHATWG IPv4 host parser: in the browser `https://127.1/x` and `https://0x7f.0.0.1/x` get the hostname `127.0.0.1` and `https://1.2.3.999/` is refused, while here such hosts are kept as written. It also does not strip leading and trailing C0 control and space characters, or remove tab, LF and CR inside the address, as the WHATWG parser does first. A page address such as `" https://ex.com"` therefore parses in the browser but is refused here.
- `Text.ToLower` lowercases ASCII letters only. JavaScript's `toLowerCase` also maps non-ASCII capitals.
- The Mongo text search, the sorts themselves, `populate`, `countDocuments` and the database are not modelled. The sort order is stated as the comparison it uses.
- `NotesApi.Pagination` does not model that the total counts the notes without the `$text` filter during a search. `NextPageIffNotLast` assumes the count covers the same notes as the page.
- String parsing of the `page` and `limit` query values and non-array `tags` bodies are not modelled: the values are taken as already parsed, and tags as a list.
- Exceptions thrown by `findById` and `findOne` (500 and CastError answers) are not modelled. A `save` that schema validation refuses is modelled, as the 500 it leads to; other database failures are not.
- `NotesApi.ApplyUpdate` writes the values the handler computes. The schema setters' second trim and lowercase are shown to change nothing (`SchemaKeepsNormalizedTags`, `SchemaKeepsNormalizedFolder`, `Text.TrimIdempotent`) rather than being applied again.
- `req.headers.Authorization` (capital A) is always absent in Node, whose header names are lowercase. `AuthMiddleware.Headers` still carries that candidate so the lookup order is complete.
- The sign-up page's auto sign-in after a timeout, its navigation, and the catch-branch connection messages are not modelled.
- The sign-up `errors` array is modelled as a list of strings. The page joins whatever the server sends, and the backend handler sends objects.
- The sign-up page posts to `/signup` and the sign-in page to `/signin`, while the backend routes are `/api/auth/register` and `/api/auth/login`. The two sides are modelled separately.
- The sign-in catch branch also covers a response body that is not JSON. Both are `Login.Reply.NetworkFailure`.
- The settings page's profile loading and saving, the profile and password input setters, local-storage persistence of the settings, and `alert`/`confirm` are not modelled. The alert text is returned instead.
- The share-vault, tag-creation and content-loading handlers of the home page, and the remaining handlers of the notes dashboard and note card, are not modelled. They only forward requests.
- Rendering (JSX markup, styles, icons) is not modelled apart from the "Preview not available" condition and the pagination buttons with their targets and disabled flags.
- `Settings.FlipTwice` and `Settings.ChoicesOverride` hold by definition. They are stated for completeness.
- NotesApp.TruncateContent: when the cut at `maxLength` code units falls inside a surrogate pair, JavaScript keeps the lone high surrogate, which a Dafny string cannot hold. The model stops before that pair instead. `TruncateBmp` shows the two agree on content without astral characters.
- CardPreview.YouTubeId: the pattern `[^"&?\/\s]{11}` has no `u` flag, so JavaScript counts 11 UTF-16 code units, and the model counts 11 characters. The two agree on ids without astral characters, and a split surrogate pair is not representable here.
