# zcmc-asset core, modelled in Dafny

zcmc-asset scrapes a course site and turns lesson pages into PDFs. The
browser client (`useScraper`) runs the session:

- it fetches a course page;
- it asks the server to split the page into groups of lesson links;
- it asks for each group's lessons and their images;
- the user ticks groups and lessons;
- it downloads each ticked lesson as one PDF.

The server side is a handful of handlers and utilities:

- `parse-groups`, `process-group`, `download` and `proxy-image`;
- the path matcher `parseUrlParams`;
- `sanitizeFolderName`;
- the PDF builder `createImageFromPdf`;
- the `withErrorHandling` wrapper.

The model keeps the decisions these make: which links, entries and
descriptors come out; which pages a PDF gets; which status the client
shows, and when; and which error comes back. The network, the markup
queries, URL parsing, the image library and the PDF library are
parameters (function-typed oracles).

Modules, one per core file or concept:

- `Wrappers`, `Records`, `Strings`, `Entities`: shared values. `Records` holds JavaScript plain objects as insertion-ordered records, and rewriting an existing key keeps its position. `Strings` holds `trim`, `split`, `filter(Boolean)`, `path.basename` and `parseInt`.
- `Selection`: `selectGroup`, `selectItem`, `selectAll` and `getSelectedItems` as functions over `groups` and `selections`.
- `Session`: the client state and what `scrape` and `downloadSelectedContent` do to it, as functions. Every status assignment is recorded, so the whole run can be stated. Lemmas cover the stage order, the progress bounds and the selections that are kept.
- `Scraper`: the client as a class whose fields (`status`, `groups`, `selections`, the abort controller) the methods update in place. Each method is proved to leave the state that `Session` or `Selection` computes. The class invariant `Valid` says the records it holds are well-formed objects; the constructor and `reset` establish it, and the other operations preserve it. That lets the `Selection` lemmas that need well-formed records apply to the object.
- `ParseGroups`, `ProcessGroup`, `ParseParam`, `SanitizeFolderName`, `ProxyImage`, `PdfAssembly`, `ChunkDownload`, `ErrorHandling`: the server handlers and utilities, plus the client's `downloadContent`.

Two behaviours of the code are kept as written:

- With no known titles, `selectItem` sets a group's flag to `true`, because `every` over an empty list is `true`.
- `selectGroup` sets the flag directly, without recomputing the AND.

## Model

| member | source | states |
|---|---|---|
| Session.IsLoading | composables/useScraper.ts:99-106 | loading holds exactly for the stages fetching, parsing, processing and downloading |
| Scraper.Scraper.Loading | composables/useScraper.ts:99-106 | the object's `isLoading` holds exactly for the four busy stages of its current status |
| Scraper.Scraper.constructor | composables/useScraper.ts:32-35 | a new client is idle with "Ready to start", with empty groups and selections and no controller, and its records are well formed (`Valid`) |
| Selection.Ensure | composables/useScraper.ts:126-131 | afterwards the group has an entry: the old one if present, else `{selected: false, items: {}}`; every other group reads as before |
| Selection.AllSelected | composables/useScraper.ts:155-157 | true exactly when every listed title is mapped to `true`, so an empty list gives `true` |
| Selection.SetTitlesGet | composables/useScraper.ts:136-138 | after setting a list of titles to `v`, those titles read `v` and every other title reads as before |
| Selection.SelectGroupEffect | composables/useScraper.ts:123-140 | the entry exists with flag `v`; each title `groups[g]` lists is `v` and every other title is unchanged; every other group is unchanged |
| Selection.SelectItemEffect | composables/useScraper.ts:142-160 | exactly `items[t]` becomes `v`; the flag becomes the AND over the listed titles when `groups[g]` exists, and is unchanged otherwise; other groups are unchanged |
| Selection.SelectAllEffect | composables/useScraper.ts:116-121 | every group of `groups` ends with flag `v` and all its listed titles `v`; entries for names that are not groups are untouched |
| Selection.TrueTitlesExact | composables/useScraper.ts:165-167 | a title is among a group's selected titles exactly when it is mapped to `true` |
| Selection.SelectGroupValid | composables/useScraper.ts:123-140 | `selectGroup` keeps `selections` and every group's `items` well-formed objects: distinct keys, exactly the keys of the map |
| Selection.SelectItemValid | composables/useScraper.ts:142-160 | `selectItem` keeps `selections` and every group's `items` well formed |
| Selection.SelectAllValid | composables/useScraper.ts:116-121 | `selectAll` keeps `selections` and every group's `items` well formed |
| Selection.SelectedItemsPairs | composables/useScraper.ts:162-174 | on well-formed selections, title `t` is listed under group `g` exactly when `selections[g].items[t]` is `true` |
| Selection.SelectedItemsExact | composables/useScraper.ts:162-174 | a group is listed exactly when one of its titles is `true`, mapped to exactly those titles, with groups in `selections` order |
| Selection.SelectedOfValues | composables/useScraper.ts:164-171 | whatever names are visited, each listed group maps to its `true` titles |
| Scraper.Scraper.SelectGroup | composables/useScraper.ts:123-140 | the selections become `Selection.SelectGroup` of the old ones; nothing else changes; the object stays `Valid` |
| Scraper.Scraper.SelectItem | composables/useScraper.ts:142-160 | the selections become `Selection.SelectItem` of the old ones; nothing else changes; the object stays `Valid` |
| Scraper.Scraper.SelectAll | composables/useScraper.ts:116-121 | the loop over the group names leaves `Selection.SelectAll` of the old selections; nothing else changes; the object stays `Valid` |
| Scraper.Scraper.SetGroupTitles | composables/useScraper.ts:136-138 | the `forEach` over a group's entries sets each entry's title in that group's items; nothing else changes |
| Scraper.Scraper.GetSelectedItems | composables/useScraper.ts:162-174 | the loop builds `SelectedItems`: each listed group maps to its non-empty list of `true` titles, and a pair (group, title) is listed exactly when that title is `true` in the object's selections |
| Scraper.Scraper.CancelScraping | composables/useScraper.ts:176-184 | with a controller, it aborts it and shows the cancelled `error` status; without one, nothing changes; the object stays `Valid` |
| Scraper.Scraper.Reset | composables/useScraper.ts:490-501 | the status shows "Ready to start" and groups and selections are emptied; on the client an existing controller is aborted and dropped; the records end well formed (`Valid`) |
| Session.InitGroupsEffect | composables/useScraper.ts:239-246 | every existing entry is kept as it was; each parsed group gets an entry, a blank one only when it had none |
| Session.KeepOrFalseGet | composables/useScraper.ts:283-287 | a listed title that is not `true` becomes `false`, a `true` survives, and other titles are untouched |
| Scraper.Scraper.InitGroupSelections | composables/useScraper.ts:239-246 | the loop leaves `InitGroups` of the old selections; nothing else changes |
| Scraper.Scraper.InitItemSelections | composables/useScraper.ts:283-287 | it fails exactly when there are entries and the group has no selection, and then changes nothing; otherwise each title is set with `KeepOrFalse` |
| Scraper.Scraper.HandleGroup | composables/useScraper.ts:255-292 | one group: the status, the `process-group` request, the group stored and its titles initialised, then `current++`, as `Session.VisitGroup` describes |
| Scraper.Scraper.GroupIteration | composables/useScraper.ts:251-292 | one loop turn, the abort check and then the group, tracks `GroupsLoop` one name further; a throw leaves the state of the whole loop |
| Scraper.Scraper.ProcessGroups | composables/useScraper.ts:248-293 | the group loop leaves the state and statuses of `GroupsLoop` over the parsed names, and the message thrown |
| Scraper.Scraper.ScrapeTry | composables/useScraper.ts:190-299 | the `try` block leaves the state and statuses of `ScrapeRun`, and its message |
| Scraper.Scraper.Scrape | composables/useScraper.ts:186-319 | `scrape` leaves the state and statuses `Session.Scrape` computes, and returns its result; the object stays `Valid` |
| Session.ScrapeKeepsChoices | composables/useScraper.ts:238-288 | a scrape never drops a selection entry or a `true` title and never removes a stored group; after parsing, every parsed group has an entry |
| Session.ScrapeEarlyFailure | composables/useScraper.ts:198-226 | a failed fetch or parse stores no group and no selection; the error is the thrown message, the reply's `error`, or "Failed to parse groups" |
| Session.CancelledBeforeAnyGroup | composables/useScraper.ts:251-253 | an abort seen at the first loop head stores no group and fails with "Process cancelled by user" |
| Session.ScrapeEnds | composables/useScraper.ts:190-318 | the first status is `fetching`; the last is `complete` exactly when the scrape succeeds, else `error` with the message; it is not loading, and the controller is null |
| Session.ScrapeStages | composables/useScraper.ts:193-299 | the stages shown never go back (fetching, parsing, processing, then complete or error); every progress shown has `0 <= current <= total` |
| Session.ScrapeCountsEveryGroup | composables/useScraper.ts:229-292 | after a successful scrape, the status before the last has `current == total ==` the number of parsed groups |
| Session.VisitGroupLog | composables/useScraper.ts:255-292 | one group shows only in-range processing statuses and, when nothing is thrown, advances `current` by exactly one |
| Session.GroupsLoopLog | composables/useScraper.ts:248-293 | the group loop shows only in-range processing statuses and, when nothing is thrown, ends with `current` equal to the number of groups |
| Session.GroupsControllerKept | composables/useScraper.ts:248-293 | the group loop never changes the abort controller |
| Session.Find | composables/useScraper.ts:451-453 | `find` returns the first entry with that title (no earlier entry has it), and nothing exactly when no entry has it |
| Session.ChunkHeadEven | composables/useScraper.ts:423-431 | the abort check runs for exactly the group indices that start a chunk of two, the even ones |
| Session.DownloadEnds | composables/useScraper.ts:403-488 | with nothing selected it fails with "No items selected for download" and posts nothing; otherwise it ends at `complete` exactly when nothing is thrown, else `error` with the message; stages never go back, progress stays in range, and a success counted every selected group |
| Session.DownloadRequestsExact | composables/useScraper.ts:407-466 | a download that neither fails nor is cancelled posts exactly one request for each selected title `find` locates in `groups`, groups in `getSelectedItems` order and titles in order, and nothing else |
| Session.ScrapeValid | composables/useScraper.ts:186-319 | however `scrape` ends, `groups`, `selections` and every group's `items` stay well formed |
| Session.DownloadValid | composables/useScraper.ts:403-488 | `downloadSelectedContent` leaves `groups` and `selections` well formed |
| Session.DownloadRequestsSelected | composables/useScraper.ts:436-466 | only `status` changes; a download is posted only for a title that is `true` and found in `groups`, with that entry's images and the requested quality |
| Session.DownloadsLoopLog | composables/useScraper.ts:426-474 | the chunk loop shows only in-range downloading statuses and, when nothing is thrown, counts each group once |
| Session.TitlesLoopRequests | composables/useScraper.ts:439-466 | the title loop of one group changes only `status`, and posts only for listed titles that are found in the group |
| Scraper.Scraper.DownloadItem | composables/useScraper.ts:439-466 | one title: the status, then `downloadContent` when the entry is found, as `DownloadTitle` describes, with the request and file recorded |
| Scraper.Scraper.DownloadGroup | composables/useScraper.ts:435-472 | one group's titles in turn, then `current++`, as `GroupDownload` describes |
| Scraper.Scraper.DownloadChunk | composables/useScraper.ts:426-474 | one chunk: the abort check at its head, then its at most two groups; a throw leaves the state of the whole loop |
| Scraper.Scraper.DownloadGroups | composables/useScraper.ts:426-474 | the chunk loop leaves the state, statuses, requests and files of `DownloadsLoop`, and the message thrown |
| Scraper.Scraper.DownloadTryBlock | composables/useScraper.ts:406-479 | the `try` block leaves what `Session.DownloadTry` computes |
| Scraper.Scraper.DownloadSelectedContent | composables/useScraper.ts:403-488 | `downloadSelectedContent` leaves the state and statuses `Session.DownloadSelected` computes, and rethrows its message; the object stays `Valid` |
| Session.LessonUrls | composables/useScraper.ts:330-335 | link `k` is the lesson page of id `first + k` |
| Scraper.Batches | composables/useScraper.ts:328-338 | the batches, joined, are the consecutive lesson links from id 1690; every batch holds 1 to `size` links, and all but the last are full |
| Scraper.SingleBatches | composables/useScraper.ts:322-338 | with batches of one link, batch `k` is exactly the `k`-th link |
| Scraper.LongFindBatches | composables/useScraper.ts:320-338 | `scrapeLongFind` builds `2337 - 1699` batches, and batch `k` is the single link of id `1690 + k` |
| ProcessGroup.ImageName | server/api/v1/process-group.post.ts:67 | the image name contains neither `/` nor `?` |
| ProcessGroup.ImageNameOfUrl | server/api/v1/process-group.post.ts:67 | the name of `dir/name?query` (or `dir/name`) is `name` |
| ProcessGroup.SizeOfLength | server/api/v1/process-group.post.ts:76-79 | a missing or empty `content-length` gives size 0; a decimal one is read back exactly |
| ProcessGroup.DescribeImages | server/api/v1/process-group.post.ts:54-95 | the anchor loop leaves the descriptors and HEAD cache of `ImagesFor` |
| ProcessGroup.VisitLink | server/api/v1/process-group.post.ts:27-101 | one link: the page, cached or requested, then its entry, as one `LinkStep`; or the request's error |
| ProcessGroup.ProcessGroup | server/api/v1/process-group.post.ts:9-113 | the handler returns `ProcessGroupSpec`; a body without a truthy `groupName` or an array of `links` is refused with "Group name and links array are required" |
| ProcessGroup.PreviewOneDescriptorPerImage | server/api/v1/process-group.post.ts:56-95 | in preview mode, each anchor that resolves gives exactly one descriptor (success or failure) and every other anchor gives none |
| ProcessGroup.DescriptorsBound | server/api/v1/process-group.post.ts:56-65 | there are at most as many descriptors as resolving anchors, and at most as many as anchors; descriptors are only appended, in anchor order |
| ProcessGroup.DownloadOnlyFailures | server/api/v1/process-group.post.ts:80-94 | in download mode every descriptor is a failure with a non-empty message |
| ProcessGroup.ImageStepAppends | server/api/v1/process-group.post.ts:56-94 | one anchor appends at most one descriptor; a successful one is named after the URL that anchor resolves to |
| ProcessGroup.FetchedDescriptors | server/api/v1/process-group.post.ts:61-86 | every successful descriptor is named after its URL, and that URL is what some anchor resolves to |
| ProcessGroup.HeadFailureRecorded | server/api/v1/process-group.post.ts:88-94 | a failing HEAD request adds one failure descriptor with its message, or "Failed to process image", and the loop goes on with the cache unchanged |
| ProcessGroup.HeadCacheGrows | server/api/v1/process-group.post.ts:71-75 | the HEAD cache only grows, and a cached name keeps its entry |
| ProcessGroup.LinkStepFacts | server/api/v1/process-group.post.ts:27-101 | a successful link step found its page and visits it under the link's id |
| ProcessGroup.VisitCaches | server/api/v1/process-group.post.ts:34-38 | a visit caches the page under the link's id and keeps every other entry of both caches |
| ProcessGroup.VisitResults | server/api/v1/process-group.post.ts:42-100 | a visit appends at most one entry, titled with the page's trimmed title |
| ProcessGroup.VisitEntry | server/api/v1/process-group.post.ts:46-100 | a page adds no entry exactly when it is skipped or has no anchors; otherwise it adds one entry with its title and descriptors |
| ProcessGroup.EntriesBound | server/api/v1/process-group.post.ts:27-102 | entries are only appended, at most one per link |
| ProcessGroup.LinksConcat | server/api/v1/process-group.post.ts:27-102 | the loop over `a + b` is the loop over `b` started where the loop over `a` stopped, and an error stops it |
| ProcessGroup.EntriesInOrder | server/api/v1/process-group.post.ts:27-102 | the entries of earlier links come first, in link order |
| ProcessGroup.PageFailureFailsGroup | server/api/v1/process-group.post.ts:24-113 | a page request that fails fails the whole group with its message, or "Failed to process group" |
| ProcessGroup.MissingSelectionSkipsAll | server/api/v1/process-group.post.ts:46-51 | in download mode, with selections but no entry for the group, every link is skipped |
| ProcessGroup.MissingSelectionEmptyGroup | server/api/v1/process-group.post.ts:46-51 | such a request succeeds only with no entries |
| ProcessGroup.PageCacheGrows | server/api/v1/process-group.post.ts:34-38 | the page cache only grows, and a cached id keeps its page |
| ProcessGroup.SharedIdOneTitle | server/api/v1/process-group.post.ts:29-38 | links with the same id share one cached page, so all their entries carry one title; links that do not match the pattern all have the undefined id |
| ProcessGroup.CachedPageNotRefetched | server/api/v1/process-group.post.ts:34-38 | a link whose id is cached does not depend on the page request at all |
| ProcessGroup.ImagesIgnorePages | server/api/v1/process-group.post.ts:56-95 | the anchor loop makes no page request |
| ParseGroups.CollectLinks | server/api/v1/parse-groups.post.ts:18-36 | the row loop of one heading sets the key to exactly its resolved links, or fails with the resolution error |
| ParseGroups.ParseGroups | server/api/v1/parse-groups.post.ts:2-49 | the handler returns `ParseGroupsSpec`; a missing or empty `html` gives "HTML content is required" |
| ParseGroups.GroupsKeys | server/api/v1/parse-groups.post.ts:16-18 | every heading creates its trimmed text as a key, even without links, and there is no other key |
| ParseGroups.GroupsLastWins | server/api/v1/parse-groups.post.ts:16-37 | a heading text maps to the links of the last heading with that text |
| ParseGroups.LinksSurvive | server/api/v1/parse-groups.post.ts:16-37 | a heading's links stay under its key through later headings with other texts |
| ParseGroups.AnyResolutionErrorAborts | server/api/v1/parse-groups.post.ts:28-48 | a resolution error in any row of any heading fails the whole parse |
| ParseGroups.LinksAppend | server/api/v1/parse-groups.post.ts:23-35 | the links of consecutive rows concatenate, so row order is kept |
| ParseGroups.LinksBound | server/api/v1/parse-groups.post.ts:23-35 | a heading has at most one link per row |
| ParseGroups.LinksPassthrough | server/api/v1/parse-groups.post.ts:28-34 | links starting with `http` are kept verbatim, in order, and nothing is resolved |
| ParseGroups.MissingLinkSkipped | server/api/v1/parse-groups.post.ts:33-35 | a row without `data-link` contributes nothing |
| ParseParam.ParseUrlParams | server/utils/parseParam.ts:7-44 | the matcher returns `ParamsFor` of the pathname; an unparseable URL or a different segment count gives `{}` |
| ParseParam.BindPrefixFails | server/utils/parseParam.ts:34-36 | once a static segment differs, the result is `{}`, whatever was bound before |
| ParseParam.BindSucceedsIff | server/utils/parseParam.ts:24-37 | the match succeeds exactly when every static segment equals the path segment at its index |
| ParseParam.BindKeys | server/utils/parseParam.ts:24-39 | on a match, the keys are exactly the pattern's parameter names |
| ParseParam.BindLastOccurrence | server/utils/parseParam.ts:29-32 | a parameter name is bound to the path segment of its last occurrence in the pattern |
| ParseParam.ParamsEmptyOrComplete | server/utils/parseParam.ts:17-39 | the result is either `{}` or binds exactly the pattern's parameter names |
| ParseParam.ParamsIgnoreExtraSlashes | server/utils/parseParam.ts:13-14 | leading, trailing and doubled slashes in the path do not change the result |
| Strings.SegmentsDoubledSlash | server/utils/parseParam.ts:13-14 | a doubled slash splits into the same segments as a single one |
| SanitizeFolderName.RemoveHazards | server/utils/sanitizeFolderName.ts:2 | no hazard character is left, only input characters remain, and hazard-free text is unchanged |
| SanitizeFolderName.Sanitize | server/utils/sanitizeFolderName.ts:2 | the result has no hazard character and no whitespace at either end |
| SanitizeFolderName.SanitizeIdempotent | server/utils/sanitizeFolderName.ts:2 | sanitising twice is sanitising once |
| SanitizeFolderName.SanitizeClean | server/utils/sanitizeFolderName.ts:2 | a trimmed, hazard-free name is returned unchanged |
| SanitizeFolderName.SanitizeRemovesOnlyHazardsAndOuterSpace | server/utils/sanitizeFolderName.ts:2 | the result is the hazard-free text with only outer whitespace cut off |
| SanitizeFolderName.SanitizeSubsequence | server/utils/sanitizeFolderName.ts:2 | the result is a subsequence of the input, so kept characters keep their order |
| PdfAssembly.PdfDocument.AddPage | server/api/v1/download.post.ts:37 | `addPage` appends one blank page of the given size and returns its index |
| PdfAssembly.PdfDocument.DrawImage | server/api/v1/download.post.ts:38-43 | `drawImage` adds one drawing to that page only |
| PdfAssembly.TierQuality | server/api/v1/download.post.ts:30 | `"120p"` gives 32, `"320p"` gives 75, and anything else 100 |
| PdfAssembly.AddImagePages | server/api/v1/download.post.ts:22-49 | the page loop appends `PagesFor` the URLs: one page per image that embeds, and a failing one adds nothing |
| PdfAssembly.Download | server/api/v1/download.post.ts:9-70 | the handler's reply is `DownloadSpec` |
| PdfAssembly.DownloadOutcome | server/api/v1/download.post.ts:13-68 | the reply is a 500 "No images provided" exactly when `images` is missing or empty; otherwise there is one page per image that embeds |
| PdfAssembly.Embedded | server/api/v1/download.post.ts:22-49 | there are no more embedded images than URLs |
| PdfAssembly.PagesAreEmbeddedImages | server/api/v1/download.post.ts:22-49 | page `k` is the page of the `k`-th image that embeds, so the page count is the success count, in input order |
| PdfAssembly.PagesAppend | server/api/v1/download.post.ts:22-49 | images are handled independently: the pages of `a + b` are those of `a`, then those of `b` |
| PdfAssembly.FailureDropsOnePage | server/api/v1/download.post.ts:44-48 | a failing image drops exactly its own page |
| PdfAssembly.PagesFitImages | server/api/v1/download.post.ts:36-43 | every page is the size of its image, drawn once at the origin at full size |
| PdfAssembly.CreateImagePdf | server/utils/create-image-from-pdf.ts:3-48 | `createImageFromPdf` builds one page per successful image at the tier's quality (default `"320p"`); no URLs give no pages |
| PdfAssembly.TierWidth | server/utils/create-image-from-pdf.ts:17 | passed through `proxy-image`, the tiers `120p`, `320p` and any other give the width bounds 120, 320 and 480 |
| ProxyImage.MaxWidth | server/api/v1/proxy-image.get.ts:22-37 | the width bound is 120 exactly for quality 32, 320 exactly for 75, and 480 otherwise |
| ProxyImage.FittedWidth | server/api/v1/proxy-image.get.ts:23-26 | the resized width is at most the bound and at most the source width (never enlarged), and is one of the two |
| ProxyImage.EncodingFor | server/api/v1/proxy-image.get.ts:40-44 | `jpeg` selects JPEG and `png` selects PNG, both at the given quality; any other format is not re-encoded |
| ProxyImage.Defaults | server/api/v1/proxy-image.get.ts:5-49 | without `quality` and `format`, the plan is width bound 320, JPEG at 75, and content type `image/jpeg` |
| ProxyImage.DefaultQualityIs75 | server/api/v1/proxy-image.get.ts:5-8 | an absent quality reads as 75 |
| ProxyImage.NotANumber | server/api/v1/proxy-image.get.ts:7-8 | a quality that is not a number becomes 1, so the width bound is 480 |
| ProxyImage.DecimalQuality | server/api/v1/proxy-image.get.ts:7-8 | a decimal quality is read back exactly |
| ProxyImage.NotOkFails | server/api/v1/proxy-image.get.ts:11-14 | a reply that is not ok fails with "Failed to fetch image from" and the URL |
| ProxyImage.PlanShape | server/api/v1/proxy-image.get.ts:5-49 | a plan's bound is 120, 320 or 480 as chosen by the quality; its encoding follows the format; its content type is `image/` followed by the format; and the resized width never exceeds 480, while an image at most 120 wide is never resized |
| Strings.ParseIntDecimalString | server/api/v1/proxy-image.get.ts:7 | `parseInt(String(n))` gives back `n`, with or without a radix |
| Strings.ParseIntNaN | server/api/v1/proxy-image.get.ts:7-8 | text that does not start with a digit, after whitespace and a sign, is `NaN` |
| ChunkDownload.ReadAll | utils/download.ts:45-57 | the read loop collects the stream's chunks, and `loaded` is the sum of their lengths |
| ChunkDownload.Concatenate | utils/download.ts:60-66 | the buffer is as long as the chunks together and holds their in-order concatenation |
| ChunkDownload.DownloadContent | utils/download.ts:3-80 | `downloadContent` returns `DownloadSpec`; on the server it posts nothing, otherwise it posts the body with the default quality `"320p"` |
| ChunkDownload.FlattenLength | utils/download.ts:60-61 | the joined buffer is exactly as long as the bytes loaded |
| ChunkDownload.PrefixLength | utils/download.ts:62-66 | the offset of each chunk never passes the total length |
| ChunkDownload.FlattenAppend | utils/download.ts:62-66 | joining is compositional over concatenated chunk lists |
| ChunkDownload.ChunkAtOffset | utils/download.ts:62-66 | chunk `k` sits in the buffer at the offset of the chunks before it |
| ChunkDownload.SavedIffComplete | utils/download.ts:30-74 | a file is saved exactly when the reply is ok, has a Content-Length and a body, and the stream ends normally; its length is the bytes loaded |
| ChunkDownload.SavedNameMatchesHandler | utils/download.ts:73 | the saved file is named `<group>-<lesson>.pdf`, the name the `download` handler announces |
| ErrorHandling.Wrap | server/utils/withErrorHandling.ts:22-67 | the wrapper returns `WrapSpec`; `event.isOnline` is set exactly when the handler runs |
| ErrorHandling.Caught | server/utils/withErrorHandling.ts:58-64 | every caught error gives status `bad`, `online` and `success: false` |
| ErrorHandling.OfflineShortCircuit | server/utils/withErrorHandling.ts:26-34 | offline without the skip option, it returns 503 with the offline message and never runs the handler |
| ErrorHandling.HandlerReplyUnchanged | server/utils/withErrorHandling.ts:39-42 | online, or offline with the skip option, the handler's reply passes through unchanged |
| ErrorHandling.ErrorIs500 | server/utils/withErrorHandling.ts:48-49 | a thrown `Error` keeps its message and is always 500 |
| ErrorHandling.ObjectFallbacks | server/utils/withErrorHandling.ts:52-56 | a thrown object keeps a truthy message and status code; falsy ones fall back to the default message and 500 |
| ErrorHandling.BadReplies | server/utils/withErrorHandling.ts:26-64 | every `bad` reply is either the 503 offline record without `success`, or an online caught error with `success: false`; its status is never 0 |
| Records.Put | composables/useScraper.ts:280 | writing a key keeps its position when present and appends it otherwise; only its value changes |
| Records.PutGet | composables/useScraper.ts:280 | after a write, that key reads the new value and every other key reads as before |

## Left out

- Network and I/O are parameters of the model: every `$fetch`, `fetch`, `axios` call, `readBody`, `setHeaders` and `createError`. `/api/v1/fetch` (`fetch.post.ts`) is not part of this model.
- `useCache` is modelled as two get-or-populate maps threaded through one request, with entries from earlier requests as an input: page responses keyed by the link id, and `HEAD` responses keyed by the image name. The source uses one key space for both (server/api/v1/process-group.post.ts:34 and :71). So in the source, a link id equal to an image name would get back the other kind of cached response, and the model does not capture that collision. The reason is that the cache's source, including how it turns an undefined link id into a key, is not part of this model.
- Time-to-live expiry and single-flight sharing in `useCache` are left out, for the same reason.
- The markup queries (cheerio), `new URL`, `resolveUrl` and `decodeURIComponent` are parameters.
- `sharp` (resizing, encoding, reading the pixel width) and `pdf-lib` (embedding, serialising) are parameters. The proxy's outcome is the plan it hands to `sharp`, and a PDF is its list of pages.
- Concurrency is modelled sequentially. The two groups of a `Promise.all` chunk run one after the other, and interleaved writes to the shared `status` are left out.
- `scrapeLongFind` is modelled up to its batches. `pLimit`, `Promise.allSettled`, the batch requests and `longItems` are left out, because they are concurrent.
- Floating point is left out: the `downloadProgress` percentage and the `onProgress` callback.
- Strings.ParseInt: returns an unbounded integer, while `parseInt` returns an IEEE double. Digit strings above 2^53 lose precision in the source and not in the model. This affects `content-length` in `process-group` and `downloadContent`, and `quality` in `proxy-image`.
- The abort signal in `scrape` is an input naming the first loop turn at which it reads aborted. `downloadSelectedContent` reads the controller field, which is null outside a scrape when runs are sequential.
- A `TypeError` raised by the runtime (reading a missing `selections[g]` or `groups[g]`, or reading from a reply with no body) is modelled as a throw whose message is a parameter.
- JavaScript's enumeration of integer-like keys before other keys is left out. Records enumerate in insertion order.
- Records: names inherited from `Object.prototype` (`constructor`, `toString`, `valueOf`, `__proto__` and the like) read as absent. In the source, `obj[name]` finds the inherited value, so a lesson or group with such a title reads as present and truthy in `process-group`'s selection test and in `selectItem`, `initItemSelections` and the `!selections[g]` checks of `useScraper`. The core does not rely on these names.
- Truthiness is modelled only where it matters: an empty string counts as missing for `html`, `data-link`, `href`, messages and `content-length`.
- Serialisation, the response headers' byte counts, and logging to the console are left out.
- Out of scope because no core code implements it: `staticSources`, `isOnline` consumers, video extraction, and the `onlyWithImages` and `onlyWithVideo` flags that `process-group` never reads.
- Dead code and files outside this core are out of scope: `zcmc-asset.ts`, `index.post.ts`, `parseUrlQuery.ts`, the playlist handler and the type declarations.
- `downloadContent` passes its image entries through unchanged. The client posts descriptor objects where the `download` handler expects URLs, and the model leaves that mismatch in the types rather than in behaviour.
