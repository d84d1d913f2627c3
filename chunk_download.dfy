/**
 * `downloadContent` on the client: post the lesson's images to the
 * `download` handler, read the streamed reply chunk by chunk, join the
 * chunks into one buffer and save it as `<group>-<lesson>.pdf`. The request
 * and the stream are parameters: a reply lists the chunks its reader
 * delivers and whether reading ends normally or with an error.
 */
module ChunkDownload {
  import opened Wrappers
  import PdfAssembly

  newtype byte = x: int | 0 <= x < 256

  /** The JSON body posted to the `download` handler. The image entries are passed through as they are. */
  datatype DownloadRequest<T> = DownloadRequest(groupName: string, lessonName: string, images: seq<T>, quality: string)

  /** What `reader.read()` delivers: these chunks, then `done`, or a rejection with `failure`. */
  datatype Stream = Stream(chunks: seq<seq<byte>>, failure: Option<string>)

  /** `fetch(...)`: it throws, or it replies with `ok`, the `Content-Length` header and the body stream. */
  datatype Reply =
    | FetchThrew(message: string)
    | Replied(ok: bool, contentLength: Option<string>, body: Option<Stream>)

  /**
   * The outcome: nothing done on the server; the file saved; an error
   * rethrown with its message; or the `TypeError` of reading from a reply
   * without a body.
   */
  datatype Outcome =
    | SkippedOnServer
    | Saved(fileName: string, contents: seq<byte>)
    | Failed(message: string)
    | NoBody

  const NotOk: string := "Failed to download content"
  const NoLength: string := "Unable to determine file size"

  /** The sum of the chunk lengths (`chunks.reduce((sum, c) => sum + c.length, 0)`). */
  function TotalLength(chunks: seq<seq<byte>>): nat {
    if chunks == [] then 0 else TotalLength(chunks[..|chunks| - 1]) + |chunks[|chunks| - 1]|
  }

  /** The chunks one after another. */
  function Flatten(chunks: seq<seq<byte>>): seq<byte> {
    if chunks == [] then [] else Flatten(chunks[..|chunks| - 1]) + chunks[|chunks| - 1]
  }

  function DownloadSpec<T>(onServer: bool, groupName: string, lessonName: string, images: seq<T>,
                           quality: Option<string>, fetch: DownloadRequest<T> -> Reply): Outcome
  {
    if onServer then SkippedOnServer
    else
      match fetch(DownloadRequest(groupName, lessonName, images, quality.GetOr(PdfAssembly.DefaultTier)))
      case FetchThrew(m) => Failed(m)
      case Replied(ok, contentLength, body) =>
        if !ok then Failed(NotOk)
        else if contentLength.None? || contentLength.value == "" then Failed(NoLength)
        else if body.None? then NoBody
        else if body.value.failure.Some? then Failed(body.value.failure.value)
        else Saved(PdfAssembly.PdfFileName(Some(groupName), Some(lessonName)), Flatten(body.value.chunks))
  }

  lemma FlattenStep(chunks: seq<seq<byte>>, i: nat)
    requires i < |chunks|
    ensures Flatten(chunks[..i + 1]) == Flatten(chunks[..i]) + chunks[i]
    ensures TotalLength(chunks[..i + 1]) == TotalLength(chunks[..i]) + |chunks[i]|
  {
    assert chunks[..i + 1][..i] == chunks[..i];
  }

  /** The read loop: collect the chunks and count the bytes loaded; a rejected read ends it with its message. */
  method ReadAll(stream: Stream) returns (chunks: seq<seq<byte>>, loaded: nat, failure: Option<string>)
    ensures chunks == stream.chunks && failure == stream.failure
    ensures loaded == TotalLength(chunks)
  {
    chunks := [];
    loaded := 0;
    var i := 0;
    while i < |stream.chunks|
      invariant 0 <= i <= |stream.chunks|
      invariant chunks == stream.chunks[..i]
      invariant loaded == TotalLength(chunks)
    {
      FlattenStep(stream.chunks, i);
      var value := stream.chunks[i];
      chunks := chunks + [value];
      loaded := loaded + |value|;
      i := i + 1;
    }
    failure := stream.failure;
  }

  /**
   * The copy loop: `new Uint8Array(totalLength)`, then each chunk set at the
   * running offset. Each chunk fills `[offset, offset + length)` and
   * earlier regions are left as they are.
   */
  method Concatenate(chunks: seq<seq<byte>>) returns (buffer: array<byte>)
    ensures fresh(buffer)
    ensures buffer.Length == TotalLength(chunks)
    ensures buffer[..] == Flatten(chunks)
  {
    FlattenLength(chunks);
    buffer := new byte[TotalLength(chunks)];
    var offset := 0;
    var i := 0;
    while i < |chunks|
      invariant 0 <= i <= |chunks|
      invariant offset == TotalLength(chunks[..i])
      invariant offset <= buffer.Length
      invariant buffer[..offset] == Flatten(chunks[..i])
    {
      FlattenStep(chunks, i);
      var chunk := chunks[i];
      assert offset + |chunk| <= buffer.Length by {
        PrefixLength(chunks, i + 1);
      }
      forall k | 0 <= k < |chunk| {
        buffer[offset + k] := chunk[k];
      }
      assert buffer[..offset + |chunk|] == buffer[..offset] + chunk;
      offset := offset + |chunk|;
      i := i + 1;
    }
    assert chunks[..i] == chunks;
    assert buffer[..] == buffer[..offset];
  }

  /** `downloadContent`: the outcome and the request it sends, if any. */
  method DownloadContent<T>(onServer: bool, groupName: string, lessonName: string, images: seq<T>,
                            quality: Option<string>, fetch: DownloadRequest<T> -> Reply)
    returns (outcome: Outcome, sent: Option<DownloadRequest<T>>)
    ensures outcome == DownloadSpec(onServer, groupName, lessonName, images, quality, fetch)
    ensures onServer <==> sent.None?
    ensures sent.Some? ==> sent.value == DownloadRequest(groupName, lessonName, images, quality.GetOr(PdfAssembly.DefaultTier))
  {
    if onServer {
      return SkippedOnServer, None;
    }
    var request := DownloadRequest(groupName, lessonName, images, quality.GetOr(PdfAssembly.DefaultTier));
    sent := Some(request);
    var response := fetch(request);
    if response.FetchThrew? {
      return Failed(response.message), sent;
    }
    if !response.ok {
      return Failed(NotOk), sent;
    }
    if response.contentLength.None? || response.contentLength.value == "" {
      return Failed(NoLength), sent;
    }
    if response.body.None? {
      return NoBody, sent;
    }
    var chunks, loaded, failure := ReadAll(response.body.value);
    if failure.Some? {
      return Failed(failure.value), sent;
    }
    var buffer := Concatenate(chunks);
    outcome := Saved(PdfAssembly.PdfFileName(Some(groupName), Some(lessonName)), buffer[..]);
  }

  // ---------------------------------------------------------------------------
  // properties

  /** The joined buffer is exactly as long as the bytes loaded. */
  lemma {:induction false} FlattenLength(chunks: seq<seq<byte>>)
    ensures |Flatten(chunks)| == TotalLength(chunks)
  {
    if chunks != [] {
      FlattenLength(chunks[..|chunks| - 1]);
    }
  }

  /** The bytes before chunk `i` never exceed the total. */
  lemma {:induction false} PrefixLength(chunks: seq<seq<byte>>, i: nat)
    requires i <= |chunks|
    ensures TotalLength(chunks[..i]) <= TotalLength(chunks)
    decreases |chunks|
  {
    if i < |chunks| {
      var n := |chunks| - 1;
      assert chunks[..n][..i] == chunks[..i];
      PrefixLength(chunks[..n], i);
    } else {
      assert chunks[..i] == chunks;
    }
  }

  /** Joining is compositional: the chunks of `a + b` join to the join of `a`, then of `b`. */
  lemma {:induction false} FlattenAppend(a: seq<seq<byte>>, b: seq<seq<byte>>)
    ensures Flatten(a + b) == Flatten(a) + Flatten(b)
    ensures TotalLength(a + b) == TotalLength(a) + TotalLength(b)
    decreases |b|
  {
    if b == [] {
      assert a + b == a;
    } else {
      var n := |b| - 1;
      var ab := a + b;
      assert ab[..|ab| - 1] == a + b[..n];
      assert ab[|ab| - 1] == b[n];
      FlattenAppend(a, b[..n]);
      assert Flatten(ab) == Flatten(a + b[..n]) + b[n];
      assert Flatten(b) == Flatten(b[..n]) + b[n];
    }
  }

  /** The middle part of `a + (b + c)`. */
  lemma Middle<T>(a: seq<T>, b: seq<T>, c: seq<T>)
    ensures |a| + |b| <= |a + (b + c)| && (a + (b + c))[|a|..|a| + |b|] == b
  {
  }

  /** Chunk `k` sits in the joined buffer at the offset of the chunks before it. */
  lemma ChunkAtOffset(chunks: seq<seq<byte>>, k: nat)
    requires k < |chunks|
    ensures var offset := TotalLength(chunks[..k]);
      offset + |chunks[k]| <= |Flatten(chunks)| &&
      Flatten(chunks)[offset..offset + |chunks[k]|] == chunks[k]
  {
    var pre, rest := chunks[..k], chunks[k + 1..];
    assert chunks == pre + ([chunks[k]] + rest);
    FlattenAppend(pre, [chunks[k]] + rest);
    FlattenAppend([chunks[k]], rest);
    assert [chunks[k]][..0] == [];
    assert Flatten([chunks[k]]) == chunks[k];
    FlattenLength(pre);
    Middle(Flatten(pre), chunks[k], Flatten(rest));
  }

  /**
   * A saved file is named `<group>-<lesson>.pdf`, the name the `download`
   * handler puts in its `Content-Disposition` for that group and lesson.
   */
  lemma SavedNameMatchesHandler<T>(onServer: bool, groupName: string, lessonName: string, images: seq<T>,
                                   quality: Option<string>, fetch: DownloadRequest<T> -> Reply)
    ensures var outcome := DownloadSpec(onServer, groupName, lessonName, images, quality, fetch);
      outcome.Saved? ==>
        outcome.fileName == groupName + "-" + lessonName + ".pdf" &&
        outcome.fileName == PdfAssembly.PdfFileName(Some(groupName), Some(lessonName))
  {
  }

  /** An unusable reply never saves anything; a full, well-formed stream saves all of it. */
  lemma SavedIffComplete<T>(groupName: string, lessonName: string, images: seq<T>,
                            quality: Option<string>, fetch: DownloadRequest<T> -> Reply)
    ensures var outcome := DownloadSpec(false, groupName, lessonName, images, quality, fetch);
      var reply := fetch(DownloadRequest(groupName, lessonName, images, quality.GetOr(PdfAssembly.DefaultTier)));
      outcome.Saved? <==>
        reply.Replied? && reply.ok && reply.contentLength.Some? && reply.contentLength.value != "" &&
        reply.body.Some? && reply.body.value.failure.None?
    ensures var outcome := DownloadSpec(false, groupName, lessonName, images, quality, fetch);
      outcome.Saved? ==> |outcome.contents| == TotalLength(fetch(DownloadRequest(groupName, lessonName, images, quality.GetOr(PdfAssembly.DefaultTier))).body.value.chunks)
  {
    var reply := fetch(DownloadRequest(groupName, lessonName, images, quality.GetOr(PdfAssembly.DefaultTier)));
    if reply.Replied? && reply.body.Some? {
      FlattenLength(reply.body.value.chunks);
    }
  }
}
