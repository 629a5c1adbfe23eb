/**
  The recording download (apps/ai-worker/app/pipeline.py): a streamed body under a hard cap.

  Main result: the contract of `DownloadRecording`. It returns the whole body or nothing,
  never a part of it.
 */
module Download {
  type Bytes = seq<bv8>

  const MAX_RECORDING_BYTES: nat := 500 * 1024 * 1024

  /** What the request turns out to be before its body is read. */
  datatype Head =
    | Unreachable                       // no connection, or an error status
    | Headers(contentLength: Length)

  /** The content-length header: missing or empty, a number, or text that int() rejects. */
  datatype Length = NotDeclared | Declared(n: int) | Malformed

  /** The body as it streams in, and whether the stream breaks off with an exception after its chunks. */
  datatype Body = Body(chunks: seq<Bytes>, breaks: bool)

  function Concat(chunks: seq<Bytes>): Bytes {
    if chunks == [] then [] else Concat(chunks[..|chunks| - 1]) + chunks[|chunks| - 1]
  }

  /** When the whole body is handed on. */
  predicate Accepted(url: string, safe: bool, head: Head, body: Body) {
    && url != "" && safe
    && head.Headers?
    && !head.contentLength.Malformed?
    && (head.contentLength.Declared? ==> head.contentLength.n <= 524_288_000)
    && !body.breaks
    && |Concat(body.chunks)| <= 524_288_000
  }

  lemma {:induction false} PrefixIsShorter(chunks: seq<Bytes>, i: nat)
    requires i <= |chunks|
    ensures |Concat(chunks[..i])| <= |Concat(chunks)|
    decreases |chunks| - i
  {
    if i == |chunks| {
      assert chunks[..i] == chunks;
    } else {
      assert chunks[..i + 1][..i] == chunks[..i];
      PrefixIsShorter(chunks, i + 1);
    }
  }

  /**
    `_download_recording`. `safe` is the verdict on the URL. The result is the exact body when
    everything is in order and the body is within the cap, and empty in every other case.
   */
  method DownloadRecording(url: string, safe: bool, head: Head, body: Body) returns (audio: Bytes)
    ensures audio == if Accepted(url, safe, head, body) then Concat(body.chunks) else []
    ensures |audio| <= MAX_RECORDING_BYTES
    ensures audio == [] || audio == Concat(body.chunks)
  {
    if url == "" || !safe { return []; }
    match head {
      case Unreachable => return [];
      case Headers(Malformed) => return [];
      case Headers(NotDeclared) =>
      case Headers(Declared(n)) => if n > MAX_RECORDING_BYTES { return []; }
    }
    var chunks: seq<Bytes> := [];
    var total := 0;
    for i := 0 to |body.chunks|
      invariant chunks == body.chunks[..i]
      invariant total == |Concat(chunks)| <= MAX_RECORDING_BYTES
    {
      var chunk := body.chunks[i];
      total := total + |chunk|;
      assert body.chunks[..i + 1][..i] == body.chunks[..i];
      if total > MAX_RECORDING_BYTES {
        PrefixIsShorter(body.chunks, i + 1);
        return [];
      }
      chunks := chunks + [chunk];
    }
    assert body.chunks[..|body.chunks|] == body.chunks;
    if body.breaks { return []; }
    audio := Concat(chunks);
  }
}
