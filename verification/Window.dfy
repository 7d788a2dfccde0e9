/**
 * The window and stream-count arithmetic that sizes every transfer.
 * Environment overrides of the stream counts are not modelled: the policy
 * functions are the ones used when no override is set.
 */
module Window {
  import opened Bytes

  const READ_CHUNK_SIZE: nat := 32 * 1024
  const MAX_READ_LEN: nat := 261_120
  const MIN_PIPELINE_DEPTH: nat := 64
  const READ_WINDOW_BYTES: nat := 32 * 1024 * 1024
  const WRITE_CHUNK_SIZE: nat := 32 * 1024
  const MAX_WRITE_LEN: nat := 261_120
  const WRITE_WINDOW_BYTES: nat := 4 * 1024 * 1024
  const MIN_WRITE_PIPELINE_DEPTH: nat := 16
  const PARALLEL_UPLOAD_MIN_SIZE: nat := 64 * 1024 * 1024
  const PARALLEL_DOWNLOAD_MIN_SIZE: nat := 64 * 1024 * 1024
  const UPLOAD_STREAM_TARGET_BPS: nat := 125_000_000
  const SERVER_STREAM_WINDOW_ESTIMATE: nat := 2 * 1024 * 1024
  const MAX_UPLOAD_STREAMS: nat := 8
  const DOWNLOAD_STREAMS: nat := 4

  datatype Limit = NoLimit | Advertised(len: nat)

  function DivCeil(a: nat, b: nat): (q: nat)
    requires b > 0
    ensures q * b >= a
    ensures q > 0 ==> (q - 1) * b < a
  {
    CeilBounds(a, b, a / b, a % b);
    if a % b == 0 then a / b else a / b + 1
  }

  lemma CeilBounds(a: nat, b: nat, q: nat, r: nat)
    requires a == q * b + r && r < b
    ensures r == 0 ==> q * b >= a && (q > 0 ==> (q - 1) * b < a)
    ensures r > 0 ==> (q + 1) * b >= a && q * b < a
  {
    assert (q + 1) * b == q * b + b && (q - 1) * b == q * b - b;
  }

  function Clamp(x: nat, lo: nat, hi: nat): nat
    requires lo <= hi
  {
    if x < lo then lo else if hi < x then hi else x
  }

  /**
   * The request size to use. Never zero (a zero size would make the pipelines
   * issue requests without moving their cursor), never above the clamp, and
   * never above a positive limit the server advertised.
   */
  function NegotiatedLen(limit: Limit, fallback: nat, cap: nat): (len: nat)
    requires 0 < fallback <= cap
    ensures 0 < len <= cap
    ensures limit.Advertised? && limit.len > 0 ==> len <= limit.len && (len < limit.len ==> len == cap)
    ensures !(limit.Advertised? && limit.len > 0) ==> len == fallback
  {
    Min(if limit.Advertised? && limit.len > 0 then limit.len else fallback, cap)
  }

  function NegotiatedReadLen(limit: Limit): nat {
    NegotiatedLen(limit, READ_CHUNK_SIZE, MAX_READ_LEN)
  }

  function NegotiatedWriteLen(limit: Limit): nat {
    NegotiatedLen(limit, WRITE_CHUNK_SIZE, MAX_WRITE_LEN)
  }

  /** 32 KiB requests without a usable limit; otherwise the limit, but at most 255 KiB. */
  lemma RequestSizes(limit: Limit)
    ensures var size := if limit.Advertised? && limit.len > 0 then Min(limit.len, 255 * 1024) else 32 * 1024;
            NegotiatedReadLen(limit) == size && NegotiatedWriteLen(limit) == size
  {
  }

  /** The least depth whose requests cover the window, but at least `floor`. */
  function DepthFor(len: nat, window: nat, floor: nat): (depth: nat)
    requires len > 0
    ensures floor <= depth
    ensures window <= depth * len
    ensures depth > floor ==> (depth - 1) * len < window
  {
    var byWindow := DivCeil(window, len);
    if byWindow < floor then
      MultiplesGrow(byWindow, floor, len);
      floor
    else byWindow
  }

  function PipelineDepthFor(readLen: nat): nat
    requires readLen > 0
  {
    DepthFor(readLen, READ_WINDOW_BYTES, MIN_PIPELINE_DEPTH)
  }

  function WritePipelineDepthFor(writeLen: nat): nat
    requires writeLen > 0
  {
    DepthFor(writeLen, WRITE_WINDOW_BYTES, MIN_WRITE_PIPELINE_DEPTH)
  }

  /** The write floor never engages, and a full pipeline exceeds the window by less than one block. */
  lemma WriteDepthIsExactlyTheWindow(limit: Limit)
    ensures var len := NegotiatedWriteLen(limit);
            var depth := WritePipelineDepthFor(len);
            depth >= 17 && depth == DivCeil(WRITE_WINDOW_BYTES, len) && 4 * 1024 * 1024 <= depth * len < 4 * 1024 * 1024 + len
  {
    var len := NegotiatedWriteLen(limit);
    var depth := WritePipelineDepthFor(len);
    var q := DivCeil(WRITE_WINDOW_BYTES, len);
    if q <= 16 {
      assert false;
    }
    assert depth * len == (depth - 1) * len + len;
  }

  /** Nor does the read floor: a full read pipeline covers the 32 MiB window and exceeds it by less than one request. */
  lemma ReadDepthIsExactlyTheWindow(limit: Limit)
    ensures var len := NegotiatedReadLen(limit);
            var depth := PipelineDepthFor(len);
            depth >= 129 && 32 * 1024 * 1024 <= depth * len < 32 * 1024 * 1024 + len
  {
    var len := NegotiatedReadLen(limit);
    var depth := PipelineDepthFor(len);
    if depth <= 128 {
      DepthTimesLen(depth, len);
      assert false;
    }
    assert depth * len == (depth - 1) * len + len;
  }

  lemma DepthTimesLen(depth: nat, len: nat)
    requires depth <= 128 && len <= 261_120
    ensures depth * len <= 128 * 261_120
  {
    MultiplesGrow(depth, 128, len);
    assert 128 * len <= 128 * 261_120;
  }

  /** `rttMs` is the probe's round-trip time in whole milliseconds. */
  function UploadStreamCount(rttMs: nat, total: nat): (streams: nat)
    ensures 1 <= streams <= 8
    ensures total < 64 * 1024 * 1024 ==> streams == 1
  {
    if total < PARALLEL_UPLOAD_MIN_SIZE then 1 else
      Clamp(DivCeil(UPLOAD_STREAM_TARGET_BPS * Clamp(rttMs, 1, 1000), 1000 * SERVER_STREAM_WINDOW_ESTIMATE),
            1, MAX_UPLOAD_STREAMS)
  }

  /**
   * Below the cap the chosen streams really carry the target rate: their
   * server windows together deliver it within one (clamped) round trip, and
   * one stream fewer would not. The target is 125 million bytes a second and
   * a window 2 MiB.
   */
  lemma UploadStreamsMeetTheTarget(rttMs: nat, total: nat)
    requires total >= PARALLEL_UPLOAD_MIN_SIZE
    ensures var n := UploadStreamCount(rttMs, total);
            var ms := if rttMs < 1 then 1 else if rttMs > 1000 then 1000 else rttMs;
            && (n < 8 ==> 125_000 * ms <= n * (2 * 1024 * 1024))
            && (n - 1) * (2 * 1024 * 1024) < 125_000 * ms
  {
  }

  /** Four streams from 64 MiB on, one below. */
  function DownloadStreamCount(total: nat): (streams: nat)
    ensures streams == 1 || streams == 4
    ensures streams == 4 <==> total >= 64 * 1024 * 1024
  {
    if total >= PARALLEL_DOWNLOAD_MIN_SIZE then DOWNLOAD_STREAMS else 1
  }

  /** Longer links never get fewer upload streams. */
  lemma UploadStreamsMonotone(rtt: nat, rtt': nat, total: nat)
    requires rtt <= rtt'
    ensures UploadStreamCount(rtt, total) <= UploadStreamCount(rtt', total)
  {
    var unit := 1000 * SERVER_STREAM_WINDOW_ESTIMATE;
    var a, b := UPLOAD_STREAM_TARGET_BPS * Clamp(rtt, 1, 1000), UPLOAD_STREAM_TARGET_BPS * Clamp(rtt', 1, 1000);
    var p, q := DivCeil(a, unit), DivCeil(b, unit);
    assert p <= q;
  }

  /** Whenever a transfer is split, every stream gets at least one byte. */
  lemma SplitTransfersAreLongEnough(rttMs: nat, total: nat, connections: nat)
    ensures var up := Min(UploadStreamCount(rttMs, total), connections); up > 1 ==> up <= total
    ensures var down := Min(DownloadStreamCount(total), connections); down > 1 ==> down <= total
  {
  }
}
