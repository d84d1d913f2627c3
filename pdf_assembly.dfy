/**
 * One-page-per-image PDF assembly, as done by the `download` handler and
 * by `createImageFromPdf`: for each image URL, obtain the image at the
 * quality of the chosen tier; when that works, add a page the size of the
 * image and draw the image over the whole page; when it fails, go on with
 * the next URL. Fetching, re-encoding and embedding a JPEG are one
 * parameter (`embed`); serialising the document is left to the library.
 */
module PdfAssembly {
  import opened Wrappers
  import opened Strings
  import ProxyImage

  /** An embedded JPEG with its pixel size. */
  datatype EmbeddedImage = EmbeddedImage(source: string, width: nat, height: nat)

  /** `page.drawImage(image, {x, y, width, height})` */
  datatype Drawing = Drawing(image: EmbeddedImage, x: int, y: int, width: nat, height: nat)

  datatype PdfPage = PdfPage(width: nat, height: nat, drawings: seq<Drawing>)

  /** The document being built: its pages in order. */
  class PdfDocument {
    var pages: seq<PdfPage>

    /** `PDFDocument.create()` */
    constructor ()
      ensures pages == []
    {
      pages := [];
    }

    /** `addPage([width, height])`: a blank page at the end; its index is returned. */
    method AddPage(width: nat, height: nat) returns (index: nat)
      modifies this
      ensures pages == old(pages) + [PdfPage(width, height, [])]
      ensures index == |old(pages)|
    {
      index := |pages|;
      pages := pages + [PdfPage(width, height, [])];
    }

    /** `page.drawImage(image, {x, y, width, height})` on the page at `index`. */
    method DrawImage(index: nat, image: EmbeddedImage, x: int, y: int, width: nat, height: nat)
      requires index < |pages|
      modifies this
      ensures pages == old(pages)[index := old(pages)[index].(drawings := old(pages)[index].drawings + [Drawing(image, x, y, width, height)])]
    {
      pages := pages[index := pages[index].(drawings := pages[index].drawings + [Drawing(image, x, y, width, height)])];
    }
  }

  /** `quality === "120p" ? 32 : quality === "320p" ? 75 : 100` */
  function TierQuality(tier: string): (q: int)
    ensures q == 32 <==> tier == "120p"
    ensures q == 75 <==> tier == "320p"
    ensures q == 100 <==> tier != "120p" && tier != "320p"
  {
    if tier == "120p" then 32 else if tier == "320p" then 75 else 100
  }

  /** The page an image gets: its own size, the image drawn at the origin over all of it. */
  function PageFor(image: EmbeddedImage): PdfPage {
    PdfPage(image.width, image.height, [Drawing(image, 0, 0, image.width, image.height)])
  }

  /** The pages after the given URLs: one per image that could be embedded. */
  function PagesFor(urls: seq<string>, quality: int, embed: (string, int) -> Option<EmbeddedImage>): seq<PdfPage> {
    if urls == [] then []
    else
      var n := |urls| - 1;
      PagesFor(urls[..n], quality, embed) +
        match embed(urls[n], quality)
        case None => []
        case Some(image) => [PageFor(image)]
  }

  /** The images that could be embedded, in URL order. */
  function Embedded(urls: seq<string>, quality: int, embed: (string, int) -> Option<EmbeddedImage>): (r: seq<EmbeddedImage>)
    ensures |r| <= |urls|
  {
    if urls == [] then []
    else
      var n := |urls| - 1;
      Embedded(urls[..n], quality, embed) +
        match embed(urls[n], quality)
        case None => []
        case Some(image) => [image]
  }

  lemma PagesStep(urls: seq<string>, i: nat, quality: int, embed: (string, int) -> Option<EmbeddedImage>)
    requires i < |urls|
    ensures PagesFor(urls[..i + 1], quality, embed) ==
      PagesFor(urls[..i], quality, embed) +
        match embed(urls[i], quality)
        case None => []
        case Some(image) => [PageFor(image)]
  {
    assert urls[..i + 1][..i] == urls[..i];
  }

  /** The page loop over a fresh document; a failing image adds nothing and the loop goes on. */
  method AddImagePages(doc: PdfDocument, urls: seq<string>, quality: int, embed: (string, int) -> Option<EmbeddedImage>)
    modifies doc
    ensures doc.pages == old(doc.pages) + PagesFor(urls, quality, embed)
  {
    ghost var start := doc.pages;
    var i := 0;
    while i < |urls|
      invariant 0 <= i <= |urls|
      invariant doc.pages == start + PagesFor(urls[..i], quality, embed)
    {
      PagesStep(urls, i, quality, embed);
      var image := embed(urls[i], quality);
      if image.Some? {
        ghost var before := doc.pages;
        var index := doc.AddPage(image.value.width, image.value.height);
        assert doc.pages[index] == PdfPage(image.value.width, image.value.height, []);
        ghost var mid := doc.pages;
        ghost var drawing := Drawing(image.value, 0, 0, image.value.width, image.value.height);
        assert mid[index].drawings + [drawing] == [drawing];
        doc.DrawImage(index, image.value, 0, 0, image.value.width, image.value.height);
        assert doc.pages == mid[index := PageFor(image.value)];
        assert doc.pages == before + [PageFor(image.value)];
        assert doc.pages == start + PagesFor(urls[..i], quality, embed) + [PageFor(image.value)];
      }
      i := i + 1;
    }
    assert urls[..i] == urls;
  }

  // ---------------------------------------------------------------------------
  // the download handler

  /** The request body; `None` is an absent field. */
  datatype DownloadBody = DownloadBody(
    groupName: Option<string>,
    lessonName: Option<string>,
    quality: Option<string>,
    images: Option<seq<string>>)

  /** The reply: the pages with the response headers, or the error raised. */
  datatype DownloadReply =
    | PdfFile(pages: seq<PdfPage>, contentType: string, disposition: string)
    | HttpError(statusCode: nat, message: string)

  const NoImages: string := "No images provided"

  /** A value interpolated into a template string: `undefined` when absent. */
  function Interpolated(s: Option<string>): string {
    s.GetOr("undefined")
  }

  /** `${groupName}-${lessonName}.pdf`, nothing escaped or sanitised. */
  function PdfFileName(groupName: Option<string>, lessonName: Option<string>): string {
    Interpolated(groupName) + "-" + Interpolated(lessonName) + ".pdf"
  }

  function DownloadSpec(body: DownloadBody, embed: (string, int) -> Option<EmbeddedImage>): DownloadReply {
    if body.images.None? || body.images.value == [] then HttpError(500, NoImages)
    else
      PdfFile(PagesFor(body.images.value, TierQuality(body.quality.GetOr("undefined")), embed),
              "application/pdf",
              "attachment; filename=\"" + PdfFileName(body.groupName, body.lessonName) + "\"")
  }

  /** The `download` handler. */
  method Download(body: DownloadBody, embed: (string, int) -> Option<EmbeddedImage>) returns (reply: DownloadReply)
    ensures reply == DownloadSpec(body, embed)
  {
    var doc := new PdfDocument();
    if body.images.None? || |body.images.value| == 0 {
      return HttpError(500, NoImages);
    }
    var quality := TierQuality(body.quality.GetOr("undefined"));
    AddImagePages(doc, body.images.value, quality, embed);
    reply := PdfFile(doc.pages, "application/pdf",
                     "attachment; filename=\"" + PdfFileName(body.groupName, body.lessonName) + "\"");
  }

  // ---------------------------------------------------------------------------
  // createImageFromPdf

  /** The tier every caller falls back to: `createImageFromPdf`, `downloadContent` and `downloadSelectedContent`. */
  const DefaultTier: string := "320p"

  /** `createImageFromPdf(imageUrls, quality = "320p")`: the pages of the document it serialises. */
  method CreateImagePdf(imageUrls: seq<string>, tier: Option<string>, embed: (string, int) -> Option<EmbeddedImage>)
    returns (pages: seq<PdfPage>)
    ensures pages == PagesFor(imageUrls, TierQuality(tier.GetOr(DefaultTier)), embed)
    ensures imageUrls == [] ==> pages == []
  {
    var doc := new PdfDocument();
    AddImagePages(doc, imageUrls, TierQuality(tier.GetOr(DefaultTier)), embed);
    pages := doc.pages;
  }

  // ---------------------------------------------------------------------------
  // properties

  /** One page per embedded image, in URL order, each sized to its image and covered by it. */
  lemma {:induction false} PagesAreEmbeddedImages(urls: seq<string>, quality: int,
                                                  embed: (string, int) -> Option<EmbeddedImage>)
    ensures |PagesFor(urls, quality, embed)| == |Embedded(urls, quality, embed)|
    ensures forall k | 0 <= k < |PagesFor(urls, quality, embed)| ::
      PagesFor(urls, quality, embed)[k] == PageFor(Embedded(urls, quality, embed)[k])
  {
    if urls != [] {
      PagesAreEmbeddedImages(urls[..|urls| - 1], quality, embed);
    }
  }

  /** Images are processed independently: the pages of `a + b` are those of `a`, then those of `b`. */
  lemma {:induction false} PagesAppend(a: seq<string>, b: seq<string>, quality: int,
                                       embed: (string, int) -> Option<EmbeddedImage>)
    ensures PagesFor(a + b, quality, embed) == PagesFor(a, quality, embed) + PagesFor(b, quality, embed)
    decreases |b|
  {
    if b == [] {
      assert a + b == a;
    } else {
      var n := |b| - 1;
      assert (a + b)[..|a + b| - 1] == a + b[..n];
      assert (a + b)[|a + b| - 1] == b[n];
      PagesAppend(a, b[..n], quality, embed);
    }
  }

  /** So a failing image drops exactly its own page and no other. */
  lemma FailureDropsOnePage(a: seq<string>, url: string, b: seq<string>, quality: int,
                            embed: (string, int) -> Option<EmbeddedImage>)
    requires embed(url, quality).None?
    ensures PagesFor(a + [url] + b, quality, embed) == PagesFor(a, quality, embed) + PagesFor(b, quality, embed)
  {
    PagesAppend(a + [url], b, quality, embed);
    PagesAppend(a, [url], quality, embed);
    assert [url][..0] == [];
  }

  /** Every page is sized to the image drawn on it, drawn once at the origin at full size. */
  lemma {:induction false} PagesFitImages(urls: seq<string>, quality: int, embed: (string, int) -> Option<EmbeddedImage>)
    ensures forall p | p in PagesFor(urls, quality, embed) ::
      |p.drawings| == 1 && p.drawings[0].x == 0 && p.drawings[0].y == 0 &&
      p.drawings[0].width == p.width == p.drawings[0].image.width &&
      p.drawings[0].height == p.height == p.drawings[0].image.height
  {
    if urls != [] {
      PagesFitImages(urls[..|urls| - 1], quality, embed);
    }
  }

  /** The `download` handler's error and its empty-free success. */
  lemma DownloadOutcome(body: DownloadBody, embed: (string, int) -> Option<EmbeddedImage>)
    ensures DownloadSpec(body, embed).HttpError? <==> body.images.None? || body.images.value == []
    ensures DownloadSpec(body, embed).HttpError? ==> DownloadSpec(body, embed) == HttpError(500, NoImages)
    ensures DownloadSpec(body, embed).PdfFile? ==>
      |DownloadSpec(body, embed).pages| == |Embedded(body.images.value, TierQuality(body.quality.GetOr("undefined")), embed)|
  {
    if body.images.Some? && body.images.value != [] {
      PagesAreEmbeddedImages(body.images.value, TierQuality(body.quality.GetOr("undefined")), embed);
    }
  }

  /**
   * `createImageFromPdf` asks `proxy-image` for the tier's quality number;
   * read back by `proxy-image`, the tiers give the width bounds 120, 320 and 480.
   */
  lemma TierWidth(tier: string)
    ensures var q := ProxyImage.QualityOf(Some(DecimalString(TierQuality(tier) as nat)));
      ProxyImage.MaxWidth(q) == (if tier == "120p" then 120 else if tier == "320p" then 320 else 480)
  {
    ProxyImage.DecimalQuality(TierQuality(tier) as nat);
  }
}
