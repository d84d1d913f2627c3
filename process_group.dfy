/**
 * The `process-group` handler: for each lesson link of one group, load the
 * lesson page, skip it in download mode unless it is selected, and list the
 * images linked from its `.material_main a` anchors, each described by a
 * HEAD request.
 *
 * The page and HEAD requests go through a get-or-populate cache; its
 * entries from earlier requests are an input, and within the request the
 * cache is threaded from link to link. Markup queries, URL parsing and
 * URL resolution are parameters (see `Services`).
 */
module ProcessGroup {
  import opened Wrappers
  import opened Records
  import opened Strings
  import opened Entities
  import ParseParam

  /** What the markup query yields for a lesson page: `.lection_title` text and anchor `href`s. */
  datatype Page = Page(titleText: string, anchors: seq<Option<string>>)

  /** `axios.get(fullLink)`: the page, or the message of the error thrown. */
  datatype PageReply = PageOk(page: Page) | PageFailed(message: string)

  /** `axios.head(imageUrl)`: the `content-length` header, or the message of the error thrown. */
  datatype HeadReply = HeadOk(contentLength: Option<string>) | HeadFailed(message: string)

  /**
   * The environment of the handler: `process.env.BASE_URL || ""`, the
   * public `baseUrl || ""`, `new URL(url).pathname` (`None` when it throws),
   * `resolveUrl(base, relative)` (`None` for its `null`) and the two requests.
   */
  datatype Services = Services(
    envBaseUrl: string,
    publicBaseUrl: string,
    pathnameOf: string -> Option<string>,
    resolve: (string, string) -> Option<string>,
    fetchPage: string -> PageReply,
    fetchHead: string -> HeadReply)

  /**
   * The request body. `None` is an absent (or, for `links`, non-array) field;
   * `mode` defaults to `"preview"` only when absent.
   */
  datatype Body = Body(
    groupName: Option<string>,
    links: Option<seq<string>>,
    mode: Option<string>,
    selections: Option<Rec<GroupSelection>>)

  /** The fields of a valid body that the link loop reads. */
  datatype Context = Context(groupName: string, mode: string, selections: Option<Rec<GroupSelection>>)

  datatype Response = Success(data: seq<LessonItem>) | Failure(error: string)

  /** The images of one page so far, and the HEAD cache (image name -> `content-length`). */
  datatype ImageState = ImageState(images: seq<ImageDescriptor>, heads: map<string, Option<string>>)

  /** The entries so far, and both caches. The page cache is keyed by the (possibly undefined) link id. */
  datatype LinkState = LinkState(
    results: seq<LessonItem>,
    pages: map<Option<string>, Page>,
    heads: map<string, Option<string>>)

  const LinkPattern: string := "/web/lection/:linkId/show_lection"
  const Required: string := "Group name and links array are required"
  const ImageFailed: string := "Failed to process image"
  const GroupFailed: string := "Failed to process group"

  // ---------------------------------------------------------------------------
  // one image

  /** `path.basename(imageUrl.split("?")[0])` */
  function ImageName(url: string): (r: string)
    ensures '/' !in r && '?' !in r
  {
    var beforeQuery := Split(url, '?')[0];
    BaseNameChars(beforeQuery, '?');
    BaseName(beforeQuery)
  }

  /** `parseInt(contentLength || "0", 10)`; `None` is `NaN`. */
  function Size(contentLength: Option<string>): Option<int> {
    ParseInt(if contentLength.None? || contentLength.value == "" then "0" else contentLength.value, Decimal)
  }

  /** The cached HEAD reply for `name`, or a fresh request for `url`. */
  function HeadFor(heads: map<string, Option<string>>, name: string, url: string, svc: Services): HeadReply {
    if name in heads then HeadOk(heads[name]) else svc.fetchHead(url)
  }

  /** One iteration of the anchor loop. */
  function ImageStep(st: ImageState, href: Option<string>, preview: bool, svc: Services): ImageState {
    if href.None? || href.value == "" then st
    else
      match svc.resolve(svc.publicBaseUrl, href.value)
      case None => st
      case Some(url) =>
        if url == "" then st
        else
          var name := ImageName(url);
          match HeadFor(st.heads, name, url, svc)
          case HeadFailed(m) =>
            st.(images := st.images + [Failed(if m == "" then ImageFailed else m)])
          case HeadOk(length) =>
            var heads := st.heads[name := length];
            if preview then ImageState(st.images + [Fetched(url, name, Size(length))], heads)
            else st.(heads := heads)
  }

  /** The image state after the given anchors, starting from no images and the cache `heads`. */
  function ImagesFor(anchors: seq<Option<string>>, preview: bool, svc: Services,
                     heads: map<string, Option<string>>): ImageState
  {
    if anchors == [] then ImageState([], heads)
    else
      var n := |anchors| - 1;
      ImageStep(ImagesFor(anchors[..n], preview, svc, heads), anchors[n], preview, svc)
  }

  lemma ImagesStep(anchors: seq<Option<string>>, j: nat, preview: bool, svc: Services,
                   heads: map<string, Option<string>>)
    requires j < |anchors|
    ensures ImagesFor(anchors[..j + 1], preview, svc, heads)
         == ImageStep(ImagesFor(anchors[..j], preview, svc, heads), anchors[j], preview, svc)
  {
    assert anchors[..j + 1][..j] == anchors[..j];
  }

  // ---------------------------------------------------------------------------
  // one link

  /** `parseParam(fullLink, LinkPattern).linkId`; `None` is `undefined`. */
  function LinkId(link: string, svc: Services): Option<string> {
    Get(ParseParam.ParamsFor(svc.pathnameOf(svc.envBaseUrl + link), LinkPattern), "linkId")
  }

  /** Whether `selections[groupName]` selects the title: its flag or its item is truthy. */
  predicate Wanted(selections: Rec<GroupSelection>, groupName: string, title: string) {
    match Get(selections, groupName)
    case None => false
    case Some(gs) => gs.selected || Get(gs.items, title) == Some(true)
  }

  /** The download-mode skip. */
  predicate Skipped(ctx: Context, title: string) {
    ctx.mode == "download" && ctx.selections.Some? && !Wanted(ctx.selections.value, ctx.groupName, title)
  }

  /** The cached page for the link's id, or a fresh request for the full link. */
  function PageFor(pages: map<Option<string>, Page>, key: Option<string>, fullLink: string, svc: Services): PageReply {
    if key in pages then PageOk(pages[key]) else svc.fetchPage(fullLink)
  }

  /** What a link does with its page: cache it, then add an entry unless skipped or without anchors. */
  function Visit(st: LinkState, key: Option<string>, page: Page, ctx: Context, svc: Services): LinkState {
    var pages := st.pages[key := page];
    var title := Trim(page.titleText);
    if Skipped(ctx, title) || page.anchors == [] then st.(pages := pages)
    else
      var im := ImagesFor(page.anchors, ctx.mode == "preview", svc, st.heads);
      LinkState(st.results + [LessonItem(title, im.images)], pages, im.heads)
  }

  /** One iteration of the link loop; a page request error ends the loop. */
  function LinkStep(acc: Result<LinkState, string>, link: string, ctx: Context, svc: Services): Result<LinkState, string> {
    match acc
    case Err(m) => Err(m)
    case Ok(st) =>
      var key := LinkId(link, svc);
      match PageFor(st.pages, key, svc.envBaseUrl + link, svc)
      case PageFailed(m) => Err(m)
      case PageOk(page) => Ok(Visit(st, key, page, ctx, svc))
  }

  /** The state after the given links, starting from `init`. */
  function LinksFor(links: seq<string>, ctx: Context, svc: Services, init: LinkState): Result<LinkState, string> {
    if links == [] then Ok(init)
    else
      var n := |links| - 1;
      LinkStep(LinksFor(links[..n], ctx, svc, init), links[n], ctx, svc)
  }

  lemma LinksStep(links: seq<string>, i: nat, ctx: Context, svc: Services, init: LinkState)
    requires i < |links|
    ensures LinksFor(links[..i + 1], ctx, svc, init) == LinkStep(LinksFor(links[..i], ctx, svc, init), links[i], ctx, svc)
  {
    assert links[..i + 1][..i] == links[..i];
  }

  /** A valid body: a truthy `groupName` and an array of `links`. */
  predicate ValidBody(body: Body) {
    body.groupName.Some? && body.groupName.value != "" && body.links.Some?
  }

  function ContextOf(body: Body): Context
    requires ValidBody(body)
  {
    Context(body.groupName.value, body.mode.GetOr("preview"), body.selections)
  }

  /** The handler's reply, given the cache entries left by earlier requests. */
  function ProcessGroupSpec(body: Body, svc: Services, pages: map<Option<string>, Page>,
                            heads: map<string, Option<string>>): Response
  {
    if !ValidBody(body) then Failure(Required)
    else
      match LinksFor(body.links.value, ContextOf(body), svc, LinkState([], pages, heads))
      case Err(m) => Failure(if m == "" then GroupFailed else m)
      case Ok(st) => Success(st.results)
  }

  // ---------------------------------------------------------------------------
  // the handler

  /** The anchor loop of one page: its descriptors and the HEAD cache afterwards. */
  method DescribeImages(anchors: seq<Option<string>>, preview: bool, svc: Services,
                        headCache: map<string, Option<string>>)
    returns (images: seq<ImageDescriptor>, heads: map<string, Option<string>>)
    ensures ImagesFor(anchors, preview, svc, headCache) == ImageState(images, heads)
  {
    images := [];
    heads := headCache;
    var j := 0;
    while j < |anchors|
      invariant 0 <= j <= |anchors|
      invariant ImagesFor(anchors[..j], preview, svc, headCache) == ImageState(images, heads)
    {
      ImagesStep(anchors, j, preview, svc, headCache);
      var href := anchors[j];
      if href.Some? && href.value != "" {
        var resolved := svc.resolve(svc.publicBaseUrl, href.value);
        if resolved.Some? && resolved.value != "" {
          var url := resolved.value;
          var name := ImageName(url);
          var head := if name in heads then HeadOk(heads[name]) else svc.fetchHead(url);
          match head {
            case HeadFailed(m) =>
              images := images + [Failed(if m == "" then ImageFailed else m)];
            case HeadOk(length) =>
              heads := heads[name := length];
              if preview {
                images := images + [Fetched(url, name, Size(length))];
              }
          }
        }
      }
      j := j + 1;
    }
    assert anchors[..j] == anchors;
  }

  /** One turn of the link loop: the page, cached or requested, then its entry; or the request's error. */
  method VisitLink(link: string, ctx: Context, svc: Services, results0: seq<LessonItem>,
                   pages0: map<Option<string>, Page>, heads0: map<string, Option<string>>)
    returns (failure: Option<string>, results: seq<LessonItem>, pages: map<Option<string>, Page>,
             heads: map<string, Option<string>>)
    ensures LinkStep(Ok(LinkState(results0, pages0, heads0)), link, ctx, svc)
         == if failure.Some? then Err(failure.value) else Ok(LinkState(results, pages, heads))
  {
    results, pages, heads := results0, pages0, heads0;
    var key := LinkId(link, svc);
    var reply := PageFor(pages, key, svc.envBaseUrl + link, svc);
    if reply.PageFailed? {
      return Some(reply.message), results, pages, heads;
    }
    var page := reply.page;
    pages := pages[key := page];
    var title := Trim(page.titleText);
    if !Skipped(ctx, title) && |page.anchors| > 0 {
      var images;
      images, heads := DescribeImages(page.anchors, ctx.mode == "preview", svc, heads);
      results := results + [LessonItem(title, images)];
    }
    failure := None;
  }

  method ProcessGroup(body: Body, svc: Services, pageCache: map<Option<string>, Page>,
                      headCache: map<string, Option<string>>)
    returns (r: Response)
    ensures r == ProcessGroupSpec(body, svc, pageCache, headCache)
    ensures !ValidBody(body) ==> r == Failure(Required)
  {
    if body.groupName.None? || body.groupName.value == "" || body.links.None? {
      return Failure(Required);
    }
    var links := body.links.value;
    var ctx := ContextOf(body);
    var init := LinkState([], pageCache, headCache);
    var results: seq<LessonItem> := [];
    var pages := pageCache;
    var heads := headCache;
    var i := 0;
    while i < |links|
      invariant 0 <= i <= |links|
      invariant LinksFor(links[..i], ctx, svc, init) == Ok(LinkState(results, pages, heads))
    {
      LinksStep(links, i, ctx, svc, init);
      ghost var before := LinkState(results, pages, heads);
      var failure;
      failure, results, pages, heads := VisitLink(links[i], ctx, svc, results, pages, heads);
      ghost var step := LinkStep(Ok(before), links[i], ctx, svc);
      assert LinksFor(links[..i + 1], ctx, svc, init) == step;
      if failure.Some? {
        assert step == Err(failure.value);
        LinksErrSticky(links, i + 1, ctx, svc, init);
        return Failure(if failure.value == "" then GroupFailed else failure.value);
      }
      assert step == Ok(LinkState(results, pages, heads));
      i := i + 1;
    }
    assert links[..i] == links;
    return Success(results);
  }

  lemma {:induction false} LinksErrSticky(links: seq<string>, i: nat, ctx: Context, svc: Services, init: LinkState)
    requires i <= |links| && LinksFor(links[..i], ctx, svc, init).Err?
    ensures LinksFor(links, ctx, svc, init) == LinksFor(links[..i], ctx, svc, init)
    decreases |links| - i
  {
    if i < |links| {
      LinksStep(links, i, ctx, svc, init);
      LinksErrSticky(links, i + 1, ctx, svc, init);
    } else {
      assert links[..i] == links;
    }
  }

  // ---------------------------------------------------------------------------
  // properties of the anchor loop

  /** Whether an anchor has a truthy `href` that resolves to a truthy URL. */
  predicate Resolves(href: Option<string>, svc: Services) {
    href.Some? && href.value != "" &&
    var url := svc.resolve(svc.publicBaseUrl, href.value); url.Some? && url.value != ""
  }

  /** Whether an anchor resolves to `url`. */
  predicate ResolvesTo(href: Option<string>, svc: Services, url: string) {
    Resolves(href, svc) && svc.resolve(svc.publicBaseUrl, href.value) == Some(url)
  }

  /** The number of anchors that resolve. */
  function CountResolved(anchors: seq<Option<string>>, svc: Services): (n: nat)
    ensures n <= |anchors|
  {
    if anchors == [] then 0
    else CountResolved(anchors[..|anchors| - 1], svc) + (if Resolves(anchors[|anchors| - 1], svc) then 1 else 0)
  }

  /**
   * In preview mode every resolving anchor gives exactly one descriptor,
   * successful or not, and every other anchor none.
   */
  lemma {:induction false} PreviewOneDescriptorPerImage(anchors: seq<Option<string>>, svc: Services,
                                                        heads: map<string, Option<string>>)
    ensures |ImagesFor(anchors, true, svc, heads).images| == CountResolved(anchors, svc)
  {
    if anchors != [] {
      PreviewOneDescriptorPerImage(anchors[..|anchors| - 1], svc, heads);
    }
  }

  /**
   * In any mode there are at most as many descriptors as resolving anchors, and
   * descriptors are only appended, so they follow anchor order.
   */
  lemma {:induction false} DescriptorsBound(anchors: seq<Option<string>>, preview: bool, svc: Services,
                                            heads: map<string, Option<string>>, j: nat)
    requires j <= |anchors|
    ensures |ImagesFor(anchors, preview, svc, heads).images| <= CountResolved(anchors, svc) <= |anchors|
    ensures ImagesFor(anchors[..j], preview, svc, heads).images <= ImagesFor(anchors, preview, svc, heads).images
    decreases |anchors|
  {
    if anchors != [] {
      var n := |anchors| - 1;
      assert anchors[..n][..n] == anchors[..n];
      if j <= n {
        assert anchors[..n][..j] == anchors[..j];
        DescriptorsBound(anchors[..n], preview, svc, heads, j);
      } else {
        assert anchors[..j] == anchors;
        DescriptorsBound(anchors[..n], preview, svc, heads, n);
      }
    }
  }

  /** In download mode a successful image is not recorded: only failure descriptors remain. */
  lemma {:induction false} DownloadOnlyFailures(anchors: seq<Option<string>>, svc: Services,
                                                heads: map<string, Option<string>>)
    ensures forall d | d in ImagesFor(anchors, false, svc, heads).images :: d.Failed? && d.error != ""
  {
    if anchors != [] {
      DownloadOnlyFailures(anchors[..|anchors| - 1], svc, heads);
    }
  }

  /** A successful descriptor built from a URL that an anchor resolves to, named after it. */
  predicate FromAnchor(d: ImageDescriptor, anchors: seq<Option<string>>, svc: Services) {
    d.Fetched? ==> d.name == ImageName(d.url) && exists k | 0 <= k < |anchors| :: ResolvesTo(anchors[k], svc, d.url)
  }

  /** One anchor appends at most one descriptor, and a successful one comes from that anchor. */
  lemma ImageStepAppends(st: ImageState, href: Option<string>, preview: bool, svc: Services)
    ensures var next := ImageStep(st, href, preview, svc).images;
      next == st.images ||
      (|next| == |st.images| + 1 && next[..|st.images|] == st.images &&
       (next[|st.images|].Fetched? ==>
          next[|st.images|].name == ImageName(next[|st.images|].url) && ResolvesTo(href, svc, next[|st.images|].url)))
  {
    var next := ImageStep(st, href, preview, svc).images;
    if next != st.images {
      assert next[..|st.images|] == st.images;
    }
  }

  /**
   * A successful descriptor names the URL it was built from by its last path
   * segment before the query, and that URL is what one of the anchors resolves to.
   */
  lemma {:induction false} FetchedDescriptors(anchors: seq<Option<string>>, preview: bool, svc: Services,
                                              heads: map<string, Option<string>>)
    ensures forall d | d in ImagesFor(anchors, preview, svc, heads).images :: FromAnchor(d, anchors, svc)
  {
    if anchors != [] {
      var n := |anchors| - 1;
      var prefix := anchors[..n];
      FetchedDescriptors(prefix, preview, svc, heads);
      var prev := ImagesFor(prefix, preview, svc, heads);
      var next := ImagesFor(anchors, preview, svc, heads);
      ImageStepAppends(prev, anchors[n], preview, svc);
      forall d | d in next.images
        ensures FromAnchor(d, anchors, svc)
      {
        if d in prev.images {
          assert FromAnchor(d, prefix, svc);
          if d.Fetched? {
            var k :| 0 <= k < n && ResolvesTo(prefix[k], svc, d.url);
            assert prefix[k] == anchors[k];
          }
        } else {
          assert next.images == prev.images + [d];
        }
      }
    }
  }

  /** The name of `dir/name?query` is `name`, when neither `dir` nor `name` holds a `?` and `name` no `/`. */
  lemma ImageNameOfUrl(dir: string, name: string, query: string)
    requires name != [] && '/' !in name && '?' !in name && '?' !in dir
    ensures ImageName(dir + "/" + name + "?" + query) == name
    ensures ImageName(dir + "/" + name) == name
  {
    var path := dir + "/" + name;
    assert '?' !in path;
    assert path + "?" + query == path + ['?'] + query;
    SplitAround(path, '?', query);
    SplitNoSeparator(path, '?');
    BaseNameOfPath(dir, name);
  }

  /**
   * A resolving anchor whose name is not cached and whose HEAD request fails
   * adds one failure descriptor with the request's message (or the default),
   * in either mode, and leaves the cache as it was.
   */
  lemma HeadFailureRecorded(st: ImageState, href: Option<string>, preview: bool, svc: Services, url: string)
    requires ResolvesTo(href, svc, url) && ImageName(url) !in st.heads && svc.fetchHead(url).HeadFailed?
    ensures var m := svc.fetchHead(url).message;
      ImageStep(st, href, preview, svc) == st.(images := st.images + [Failed(if m == "" then ImageFailed else m)])
  {
  }

  /** A missing `content-length` counts as 0, and a decimal one is read back exactly. */
  lemma SizeOfLength(n: nat)
    ensures Size(None) == Some(0) && Size(Some("")) == Some(0)
    ensures Size(Some(DecimalString(n))) == Some(n)
  {
    ParseIntDecimalString(0, Decimal);
    assert DecimalString(0) == "0";
    ParseIntDecimalString(n, Decimal);
  }

  /** The HEAD cache is get-or-populate: it only grows, and a cached name keeps its entry. */
  lemma {:induction false} HeadCacheGrows(anchors: seq<Option<string>>, preview: bool, svc: Services,
                                          heads: map<string, Option<string>>)
    ensures var after := ImagesFor(anchors, preview, svc, heads).heads;
      forall name | name in heads :: name in after && after[name] == heads[name]
  {
    if anchors != [] {
      HeadCacheGrows(anchors[..|anchors| - 1], preview, svc, heads);
    }
  }

  // ---------------------------------------------------------------------------
  // properties of the link loop

  /** Both caches of `next` keep every entry of `st`. */
  ghost predicate CachesGrow(st: LinkState, next: LinkState) {
    (forall k | k in st.pages :: k in next.pages && next.pages[k] == st.pages[k]) &&
    (forall name | name in st.heads :: name in next.heads && next.heads[name] == st.heads[name])
  }

  /** `next` keeps the entries of `st` and appends at most one. */
  predicate AppendsAtMostOne(st: LinkState, next: LinkState) {
    st.results <= next.results && |next.results| <= |st.results| + 1
  }

  /** The page that a successful step for `link` visits. */
  function VisitedPage(st: LinkState, link: string, svc: Services): Page
    requires PageFor(st.pages, LinkId(link, svc), svc.envBaseUrl + link, svc).PageOk?
  {
    PageFor(st.pages, LinkId(link, svc), svc.envBaseUrl + link, svc).page
  }

  /**
   * What one link does to the state: at most one entry is appended, titled
   * after the page now cached under the link's id, and both caches only grow.
   */
  lemma LinkStepFacts(st: LinkState, link: string, ctx: Context, svc: Services)
    requires LinkStep(Ok(st), link, ctx, svc).Ok?
    ensures PageFor(st.pages, LinkId(link, svc), svc.envBaseUrl + link, svc).PageOk?
    ensures LinkStep(Ok(st), link, ctx, svc) == Ok(Visit(st, LinkId(link, svc), VisitedPage(st, link, svc), ctx, svc))
  {
  }

  /** A visit caches the page under the link's id and keeps every other cache entry. */
  lemma VisitCaches(st: LinkState, key: Option<string>, page: Page, ctx: Context, svc: Services)
    requires key in st.pages ==> st.pages[key] == page
    ensures var next := Visit(st, key, page, ctx, svc);
      key in next.pages && next.pages[key] == page && CachesGrow(st, next)
  {
    HeadCacheGrows(page.anchors, ctx.mode == "preview", svc, st.heads);
  }

  /** A visit appends at most one entry, titled with the page's trimmed title. */
  lemma VisitResults(st: LinkState, key: Option<string>, page: Page, ctx: Context, svc: Services)
    ensures var next := Visit(st, key, page, ctx, svc);
      AppendsAtMostOne(st, next) &&
      forall e | e in next.results :: e in st.results || e.title == Trim(page.titleText)
  {
    var title := Trim(page.titleText);
    if !Skipped(ctx, title) && page.anchors != [] {
      var im := ImagesFor(page.anchors, ctx.mode == "preview", svc, st.heads);
      assert Visit(st, key, page, ctx, svc).results == st.results + [LessonItem(title, im.images)];
    }
  }

  /**
   * A visited page adds no entry exactly when the link is skipped or the page
   * has no anchors; otherwise it adds one, titled with the trimmed title and
   * holding the descriptors of its anchors.
   */
  lemma VisitEntry(st: LinkState, key: Option<string>, page: Page, ctx: Context, svc: Services)
    ensures var next := Visit(st, key, page, ctx, svc);
      var title := Trim(page.titleText);
      (next.results == st.results <==> Skipped(ctx, title) || page.anchors == []) &&
      (!Skipped(ctx, title) && page.anchors != [] ==>
         next.results == st.results + [LessonItem(title, ImagesFor(page.anchors, ctx.mode == "preview", svc, st.heads).images)])
  {
    var title := Trim(page.titleText);
    if !Skipped(ctx, title) && page.anchors != [] {
      var im := ImagesFor(page.anchors, ctx.mode == "preview", svc, st.heads);
      assert |Visit(st, key, page, ctx, svc).results| == |st.results| + 1;
    }
  }

  /** Each link adds at most one entry, and entries are only appended. */
  lemma {:induction false} EntriesBound(links: seq<string>, ctx: Context, svc: Services, init: LinkState)
    requires LinksFor(links, ctx, svc, init).Ok?
    ensures init.results <= LinksFor(links, ctx, svc, init).value.results
    ensures |LinksFor(links, ctx, svc, init).value.results| <= |init.results| + |links|
  {
    if links != [] {
      var n := |links| - 1;
      var prev := LastStep(links, ctx, svc, init);
      VisitResults(prev, LinkId(links[n], svc), VisitedPage(prev, links[n], svc), ctx, svc);
      EntriesBound(links[..n], ctx, svc, init);
    }
  }

  /** The loop over `a + b` is the loop over `b` started where the loop over `a` stops. */
  lemma {:induction false} LinksConcat(a: seq<string>, b: seq<string>, ctx: Context, svc: Services, init: LinkState)
    ensures LinksFor(a + b, ctx, svc, init) ==
      match LinksFor(a, ctx, svc, init)
      case Err(m) => Err(m)
      case Ok(st) => LinksFor(b, ctx, svc, st)
    decreases |b|
  {
    if b == [] {
      assert a + b == a;
    } else {
      var n := |b| - 1;
      assert (a + b)[..|a + b| - 1] == a + b[..n];
      assert (a + b)[|a + b| - 1] == b[n];
      LinksConcat(a, b[..n], ctx, svc, init);
    }
  }

  /** So the entries of the first links come first, in link order. */
  lemma EntriesInOrder(a: seq<string>, b: seq<string>, ctx: Context, svc: Services, init: LinkState)
    requires LinksFor(a + b, ctx, svc, init).Ok?
    ensures LinksFor(a, ctx, svc, init).Ok?
    ensures LinksFor(a, ctx, svc, init).value.results <= LinksFor(a + b, ctx, svc, init).value.results
  {
    LinksConcat(a, b, ctx, svc, init);
    EntriesBound(b, ctx, svc, LinksFor(a, ctx, svc, init).value);
  }

  /** The state before the last link of a successful loop, and what the last link does. */
  lemma LastStep(links: seq<string>, ctx: Context, svc: Services, init: LinkState) returns (prev: LinkState)
    requires links != [] && LinksFor(links, ctx, svc, init).Ok?
    ensures LinksFor(links[..|links| - 1], ctx, svc, init) == Ok(prev)
    ensures PageFor(prev.pages, LinkId(links[|links| - 1], svc), svc.envBaseUrl + links[|links| - 1], svc).PageOk?
    ensures LinksFor(links, ctx, svc, init)
         == Ok(Visit(prev, LinkId(links[|links| - 1], svc), VisitedPage(prev, links[|links| - 1], svc), ctx, svc))
  {
    prev := LinksFor(links[..|links| - 1], ctx, svc, init).value;
    LinkStepFacts(prev, links[|links| - 1], ctx, svc);
  }

  /** A page request that fails for the `i`-th link fails the whole group with its message. */
  lemma PageFailureFailsGroup(body: Body, svc: Services, pages: map<Option<string>, Page>,
                              heads: map<string, Option<string>>, i: nat)
    requires ValidBody(body) && i < |body.links.value|
    requires var before := LinksFor(body.links.value[..i], ContextOf(body), svc, LinkState([], pages, heads));
             var link := body.links.value[i];
             before.Ok? && PageFor(before.value.pages, LinkId(link, svc), svc.envBaseUrl + link, svc).PageFailed?
    ensures var before := LinksFor(body.links.value[..i], ContextOf(body), svc, LinkState([], pages, heads));
            var link := body.links.value[i];
            var m := PageFor(before.value.pages, LinkId(link, svc), svc.envBaseUrl + link, svc).message;
            ProcessGroupSpec(body, svc, pages, heads) == Failure(if m == "" then GroupFailed else m)
  {
    var links := body.links.value;
    var init := LinkState([], pages, heads);
    LinksStep(links, i, ContextOf(body), svc, init);
    LinksErrSticky(links, i + 1, ContextOf(body), svc, init);
  }

  /** In download mode with selections but no entry for the group, every link is skipped. */
  lemma {:induction false} MissingSelectionSkipsAll(links: seq<string>, ctx: Context, svc: Services, init: LinkState)
    requires ctx.mode == "download" && ctx.selections.Some? && Get(ctx.selections.value, ctx.groupName).None?
    requires LinksFor(links, ctx, svc, init).Ok?
    ensures LinksFor(links, ctx, svc, init).value.results == init.results
  {
    if links != [] {
      MissingSelectionSkipsAll(links[..|links| - 1], ctx, svc, init);
    }
  }

  /** So such a request succeeds with no entries, unless a page request fails. */
  lemma MissingSelectionEmptyGroup(body: Body, svc: Services, pages: map<Option<string>, Page>,
                                   heads: map<string, Option<string>>)
    requires ValidBody(body) && body.mode == Some("download") && body.selections.Some?
    requires Get(body.selections.value, body.groupName.value).None?
    ensures ProcessGroupSpec(body, svc, pages, heads).Success? ==> ProcessGroupSpec(body, svc, pages, heads).data == []
  {
    var r := LinksFor(body.links.value, ContextOf(body), svc, LinkState([], pages, heads));
    if r.Ok? {
      MissingSelectionSkipsAll(body.links.value, ContextOf(body), svc, LinkState([], pages, heads));
    }
  }

  /** The page cache is get-or-populate too: it only grows, and a cached id keeps its page. */
  lemma {:induction false} PageCacheGrows(links: seq<string>, ctx: Context, svc: Services, init: LinkState)
    requires LinksFor(links, ctx, svc, init).Ok?
    ensures CachesGrow(init, LinksFor(links, ctx, svc, init).value)
  {
    if links != [] {
      var n := |links| - 1;
      var prev := LinksFor(links[..n], ctx, svc, init);
      assert prev.Ok?;
      PageCacheGrows(links[..n], ctx, svc, init);
      LinkStepFacts(prev.value, links[n], ctx, svc);
      VisitCaches(prev.value, LinkId(links[n], svc), VisitedPage(prev.value, links[n], svc), ctx, svc);
    }
  }

  /** Every entry of the state is titled after the page cached under `key`. */
  ghost predicate OneTitle(st: LinkState, key: Option<string>) {
    forall e | e in st.results :: key in st.pages && e.title == Trim(st.pages[key].titleText)
  }

  /** A link with id `key` keeps `OneTitle`. */
  lemma OneTitleStep(st: LinkState, link: string, ctx: Context, svc: Services, key: Option<string>)
    requires LinkId(link, svc) == key && OneTitle(st, key)
    requires LinkStep(Ok(st), link, ctx, svc).Ok?
    ensures OneTitle(LinkStep(Ok(st), link, ctx, svc).value, key)
  {
    LinkStepFacts(st, link, ctx, svc);
    var page := VisitedPage(st, link, svc);
    assert key in st.pages ==> st.pages[key] == page;
    VisitCaches(st, key, page, ctx, svc);
    VisitResults(st, key, page, ctx, svc);
    if st.results != [] {
      assert st.results[0] in st.results;
      assert key in st.pages;
    }
  }

  /**
   * Links whose id is the same key (in particular links whose URL does not
   * match the pattern, whose id is `undefined`) share one cache entry, so
   * every entry they produce carries the title of the first page fetched.
   */
  lemma SharedIdOneTitle(links: seq<string>, ctx: Context, svc: Services, init: LinkState, key: Option<string>)
    requires forall i | 0 <= i < |links| :: LinkId(links[i], svc) == key
    requires init.results == []
    requires LinksFor(links, ctx, svc, init).Ok?
    ensures OneTitle(LinksFor(links, ctx, svc, init).value, key)
  {
    AllIdsOf(links, svc, key);
    SharedIdRun(links, ctx, svc, init, key);
  }

  /** Every link of `links` has id `key`, stated link by link from the last. */
  ghost predicate AllIds(links: seq<string>, svc: Services, key: Option<string>) {
    links == [] || (AllIds(links[..|links| - 1], svc, key) && LinkId(links[|links| - 1], svc) == key)
  }

  lemma {:induction false} AllIdsOf(links: seq<string>, svc: Services, key: Option<string>)
    requires forall i | 0 <= i < |links| :: LinkId(links[i], svc) == key
    ensures AllIds(links, svc, key)
  {
    if links != [] {
      var prefix := links[..|links| - 1];
      forall i | 0 <= i < |prefix|
        ensures LinkId(prefix[i], svc) == key
      {
        assert prefix[i] == links[i];
      }
      AllIdsOf(prefix, svc, key);
    }
  }

  lemma {:induction false} SharedIdRun(links: seq<string>, ctx: Context, svc: Services, init: LinkState,
                                       key: Option<string>)
    requires AllIds(links, svc, key) && init.results == []
    requires LinksFor(links, ctx, svc, init).Ok?
    ensures OneTitle(LinksFor(links, ctx, svc, init).value, key)
  {
    if links != [] {
      var prefix := links[..|links| - 1];
      assert LinksFor(prefix, ctx, svc, init).Ok? by {
        var _ := LastStep(links, ctx, svc, init);
      }
      SharedIdRun(prefix, ctx, svc, init, key);
      SharedIdLast(links, ctx, svc, init, key);
    }
  }

  /** The last link of a run of links with id `key` keeps `OneTitle`. */
  lemma SharedIdLast(links: seq<string>, ctx: Context, svc: Services, init: LinkState, key: Option<string>)
    requires links != [] && LinkId(links[|links| - 1], svc) == key
    requires LinksFor(links, ctx, svc, init).Ok?
    requires LinksFor(links[..|links| - 1], ctx, svc, init).Ok?
    requires OneTitle(LinksFor(links[..|links| - 1], ctx, svc, init).value, key)
    ensures OneTitle(LinksFor(links, ctx, svc, init).value, key)
  {
    var n := |links| - 1;
    var prev := LastStep(links, ctx, svc, init);
    assert LinksFor(links, ctx, svc, init) == LinkStep(Ok(prev), links[n], ctx, svc);
    OneTitleStep(prev, links[n], ctx, svc, key);
  }

  /** A link whose id is cached makes no page request: the step does not depend on `fetchPage`. */
  lemma CachedPageNotRefetched(st: LinkState, link: string, ctx: Context, svc: Services, other: string -> PageReply)
    requires LinkId(link, svc) in st.pages
    ensures LinkStep(Ok(st), link, ctx, svc) == LinkStep(Ok(st), link, ctx, svc.(fetchPage := other))
  {
    var svc' := svc.(fetchPage := other);
    var key := LinkId(link, svc);
    assert LinkId(link, svc') == key;
    var page := st.pages[key];
    assert PageFor(st.pages, key, svc.envBaseUrl + link, svc) == PageOk(page);
    assert PageFor(st.pages, key, svc'.envBaseUrl + link, svc') == PageOk(page);
    ImagesIgnorePages(page.anchors, ctx.mode == "preview", svc, other, st.heads);
    assert Visit(st, key, page, ctx, svc') == Visit(st, key, page, ctx, svc);
  }

  /** The anchor loop makes no page request. */
  lemma {:induction false} ImagesIgnorePages(anchors: seq<Option<string>>, preview: bool, svc: Services,
                                             other: string -> PageReply, heads: map<string, Option<string>>)
    ensures ImagesFor(anchors, preview, svc.(fetchPage := other), heads) == ImagesFor(anchors, preview, svc, heads)
  {
    if anchors != [] {
      ImagesIgnorePages(anchors[..|anchors| - 1], preview, svc, other, heads);
    }
  }
}
