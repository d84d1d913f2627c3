/**
 * The `proxy-image` handler: read `imageUrl`, `quality` and `format` from
 * the query, fetch the image and plan its re-encoding: a width bound chosen
 * by the quality number, then JPEG or PNG encoding at that quality.
 * `decodeURIComponent` and `fetch` are parameters; the image operations
 * themselves are foreign, so the handler's outcome is the plan it hands
 * to them.
 */
module ProxyImage {
  import opened Wrappers
  import opened Strings

  /** The query; `None` is an absent parameter. */
  datatype Query = Query(imageUrl: Option<string>, quality: Option<string>, format: Option<string>)

  /** `fetch(imageUrl)`: it throws, or it replies with `response.ok`. */
  datatype FetchOutcome = FetchThrew(message: string) | FetchReplied(ok: bool)

  /** The encoding step: `jpeg({quality})`, `png({quality})`, or none. */
  datatype Encoding = Jpeg(quality: int) | Png(quality: int) | Unencoded

  /** What is done to the fetched image: resized to at most `maxWidth` (never enlarged), then encoded. */
  datatype Plan = Plan(url: string, maxWidth: nat, encoding: Encoding, contentType: string)

  const DefaultQuality: string := "75"
  const DefaultFormat: string := "jpeg"

  /** `parseInt(quality)`, with `NaN` replaced by 1. */
  function QualityOf(quality: Option<string>): int {
    match ParseInt(quality.GetOr(DefaultQuality), Unspecified)
    case None => 1
    case Some(n) => n
  }

  /** The width bound of the resize step. */
  function MaxWidth(quality: int): (w: nat)
    ensures w == 120 <==> quality == 32
    ensures w == 320 <==> quality == 75
    ensures w == 480 <==> quality != 32 && quality != 75
  {
    if quality == 32 then 120 else if quality == 75 then 320 else 480
  }

  /** The encoding step for a format. */
  function EncodingFor(format: string, quality: int): (e: Encoding)
    ensures e.Jpeg? <==> format == "jpeg"
    ensures e.Png? <==> format == "png"
    ensures !e.Unencoded? ==> e.quality == quality
  {
    if format == "jpeg" then Jpeg(quality)
    else if format == "png" then Png(quality)
    else Unencoded
  }

  /**
   * `resize(maxWidth, null, {fit: 'inside', withoutEnlargement: true})` on
   * an image `sourceWidth` wide: the width it comes out with. `PlanShape`
   * applies it to the bound of the handler's plan.
   */
  function FittedWidth(sourceWidth: nat, maxWidth: nat): (w: nat)
    ensures w <= maxWidth && w <= sourceWidth
    ensures w == maxWidth || w == sourceWidth
  {
    if sourceWidth <= maxWidth then sourceWidth else maxWidth
  }

  /** The handler; an `Err` is the error it rethrows. */
  function Proxy(query: Query, decode: string -> Result<string, string>,
                 fetch: string -> FetchOutcome): Result<Plan, string>
  {
    match decode(query.imageUrl.GetOr("undefined"))
    case Err(m) => Err(m)
    case Ok(url) =>
      var quality := QualityOf(query.quality);
      match fetch(url)
      case FetchThrew(m) => Err(m)
      case FetchReplied(ok) =>
        if !ok then Err("Failed to fetch image from " + url)
        else
          var format := query.format.GetOr(DefaultFormat);
          Ok(Plan(url, MaxWidth(quality), EncodingFor(format, quality), "image/" + format))
  }

  // ---------------------------------------------------------------------------
  // properties

  /** Without parameters the quality is 75 and the format JPEG: width bound 320, `image/jpeg`. */
  lemma Defaults(url: string, decode: string -> Result<string, string>, fetch: string -> FetchOutcome)
    requires decode(url) == Ok(url) && fetch(url) == FetchReplied(true)
    ensures Proxy(Query(Some(url), None, None), decode, fetch) == Ok(Plan(url, 320, Jpeg(75), "image/jpeg"))
  {
    DefaultQualityIs75();
    assert "image/" + DefaultFormat == "image/jpeg";
    assert Proxy(Query(Some(url), None, None), decode, fetch)
        == Ok(Plan(url, MaxWidth(75), EncodingFor(DefaultFormat, 75), "image/" + DefaultFormat));
  }

  lemma DefaultQualityIs75()
    ensures QualityOf(None) == 75
  {
    assert DecimalString(75) == DefaultQuality by {
      assert DecimalString(7) == "7";
    }
    ParseIntDecimalString(75, Unspecified);
  }

  /** A quality that is not a number becomes 1, so the width bound is 480. */
  lemma NotANumber(quality: string)
    requires ParseInt(quality, Unspecified).None?
    ensures QualityOf(Some(quality)) == 1 && MaxWidth(QualityOf(Some(quality))) == 480
  {
  }

  /** A decimal quality is read back exactly. */
  lemma DecimalQuality(n: nat)
    ensures QualityOf(Some(DecimalString(n))) == n
  {
    ParseIntDecimalString(n, Unspecified);
  }

  /** A reply that is not ok fails with the URL in the message, whatever the other parameters. */
  lemma NotOkFails(query: Query, decode: string -> Result<string, string>, fetch: string -> FetchOutcome, url: string)
    requires decode(query.imageUrl.GetOr("undefined")) == Ok(url) && fetch(url) == FetchReplied(false)
    ensures Proxy(query, decode, fetch) == Err("Failed to fetch image from " + url)
  {
  }

  /**
   * A successful plan: the bound is one of 120, 320 and 480, the encoding
   * follows the format (none for a format other than `jpeg` or `png`), and
   * the content type names the format as given.
   */
  lemma PlanShape(query: Query, decode: string -> Result<string, string>, fetch: string -> FetchOutcome)
    requires Proxy(query, decode, fetch).Ok?
    ensures var plan := Proxy(query, decode, fetch).value;
      var format := query.format.GetOr(DefaultFormat);
      plan.maxWidth in {120, 320, 480} &&
      plan.contentType == "image/" + format &&
      (plan.encoding.Unencoded? <==> format != "jpeg" && format != "png") &&
      (!plan.encoding.Unencoded? ==> plan.encoding.quality == QualityOf(query.quality)) &&
      plan.maxWidth == MaxWidth(QualityOf(query.quality)) &&
      forall w: nat :: FittedWidth(w, plan.maxWidth) <= 480 && (w <= 120 ==> FittedWidth(w, plan.maxWidth) == w)
  {
  }
}
