/** AWS event-stream framing: the offset walk over a binary body, and the frames it accepts. */
module EventStream {
  import opened Common
  import opened Billing
  import opened Pricing

  newtype Byte = x: int | 0 <= x < 256

  const PRELUDE: nat := 12    // total length, headers length, prelude checksum
  const OVERHEAD: nat := 16   // the prelude and the closing checksum

  /** Big-endian 32-bit integer. */
  function U32(b: seq<Byte>): (n: nat)
    requires |b| == 4
    ensures n < 0x1_0000_0000
  {
    ((b[0] as int * 256 + b[1] as int) * 256 + b[2] as int) * 256 + b[3] as int
  }

  lemma {:induction false} U32IsBigEndian(b: seq<Byte>)
    requires |b| == 4
    ensures U32(b) == b[0] as int * 0x1000000 + b[1] as int * 0x10000 + b[2] as int * 0x100 + b[3] as int
  {
  }

  function BytesOf(n: nat): (b: seq<Byte>)
    requires n < 0x1_0000_0000
    ensures |b| == 4 && U32(b) == n
  {
    var n1, b3 := n / 256, n % 256;
    var n2, b2 := n1 / 256, n1 % 256;
    var b0, b1 := n2 / 256, n2 % 256;
    assert n == (n2 * 256 + b2) * 256 + b3;
    [b0 as Byte, b1 as Byte, b2 as Byte, b3 as Byte]
  }

  datatype Frame = Frame(headers: seq<Byte>, payload: seq<Byte>, preludeCrc: seq<Byte>, crc: seq<Byte>)

  ghost predicate Fits(f: Frame)
  {
    |f.preludeCrc| == 4 && |f.crc| == 4 && OVERHEAD + |f.headers| + |f.payload| < 0x1_0000_0000
  }

  function Encode(f: Frame): (b: seq<Byte>)
    requires Fits(f)
  {
    BytesOf(OVERHEAD + |f.headers| + |f.payload|) + BytesOf(|f.headers|) + f.preludeCrc + f.headers + f.payload + f.crc
  }

  function EncodeAll(frames: seq<Frame>): (b: seq<Byte>)
    requires forall i | 0 <= i < |frames| :: Fits(frames[i])
  {
    if frames == [] then [] else Encode(frames[0]) + EncodeAll(frames[1..])
  }

  function Payloads(frames: seq<Frame>): (ps: seq<seq<Byte>>)
  {
    if frames == [] then [] else [frames[0].payload] + Payloads(frames[1..])
  }

  // ---- What the walk sees ----

  datatype FrameError = BadFrameLength | BadHeadersLength

  datatype Walked = Frames(payloads: seq<seq<Byte>>) | Failed(error: FrameError)

  /** The payloads of the frames from here on, or the first error. Fewer bytes than a prelude
      end the walk. */
  function Walk(body: seq<Byte>): Walked
    decreases |body|
  {
    if |body| < PRELUDE then Frames([])
    else
      var total, headers := U32(body[..4]), U32(body[4..8]);
      if total < OVERHEAD || total > |body| then Failed(BadFrameLength)
      else if headers > total - OVERHEAD then Failed(BadHeadersLength)
      else Prepend([body[PRELUDE + headers..total - 4]], Walk(body[total..]))
  }

  function Prepend(seen: seq<seq<Byte>>, w: Walked): Walked
  {
    match w
    case Frames(ps) => Frames(seen + ps)
    case Failed(_) => w
  }

  lemma {:induction false} PrependTwice(a: seq<seq<Byte>>, b: seq<seq<Byte>>, w: Walked)
    ensures Prepend(a, Prepend(b, w)) == Prepend(a + b, w)
  {
    if w.Frames? { assert a + (b + w.payloads) == (a + b) + w.payloads; }
  }

  lemma {:induction false} PrependNothing(w: Walked)
    ensures Prepend([], w) == w
  {
    if w.Frames? { assert [] + w.payloads == w.payloads; }
  }

  lemma {:induction false} PrependToNothing(seen: seq<seq<Byte>>)
    ensures Prepend(seen, Frames([])) == Frames(seen)
  {
    assert seen + [] == seen;
  }

  lemma {:induction false} PrependFails(seen: seq<seq<Byte>>, e: FrameError)
    ensures Prepend(seen, Failed(e)) == Failed(e)
  {
  }

  /** The usage in the last payload that decodes with positive input plus output tokens. */
  function LastUsage(payloads: seq<seq<Byte>>, decode: seq<Byte> -> Option<BedrockUsage>): Option<BedrockUsage>
  {
    if payloads == [] then None
    else
      var n := |payloads| - 1;
      if Reports(decode(payloads[n])) then decode(payloads[n]) else LastUsage(payloads[..n], decode)
  }

  predicate Reports(u: Option<BedrockUsage>)
  {
    u.Some? && u.value.input + u.value.output > 0
  }

  lemma {:induction false} NoUsage(decode: seq<Byte> -> Option<BedrockUsage>)
    ensures LastUsage([], decode) == None
  {
  }

  lemma {:induction false} UsageNext(seen: seq<seq<Byte>>, payload: seq<Byte>,
                                     decode: seq<Byte> -> Option<BedrockUsage>)
    ensures LastUsage(seen + [payload], decode)
         == if Reports(decode(payload)) then decode(payload) else LastUsage(seen, decode)
  {
    assert (seen + [payload])[..|seen|] == seen;
  }

  /** Payload i reports and no later one does. */
  ghost predicate LastReport(payloads: seq<seq<Byte>>, decode: seq<Byte> -> Option<BedrockUsage>, i: int)
  {
    && 0 <= i < |payloads| && Reports(decode(payloads[i]))
    && forall j | i < j < |payloads| :: !Reports(decode(payloads[j]))
  }

  lemma {:induction false} LastReportNext(payloads: seq<seq<Byte>>, decode: seq<Byte> -> Option<BedrockUsage>, i: int)
    requires payloads != []
    ensures var n := |payloads| - 1;
            LastReport(payloads, decode, i)
            <==> if Reports(decode(payloads[n])) then i == n else LastReport(payloads[..n], decode, i)
  {
    hide Reports;
  }

  /** That usage is the one reported by some payload with no later one reporting; none exactly when
      no payload reports. */
  lemma {:induction false} LastUsageIsLast(payloads: seq<seq<Byte>>, decode: seq<Byte> -> Option<BedrockUsage>)
    ensures var found := LastUsage(payloads, decode);
            && (found.None? <==> forall i | 0 <= i < |payloads| :: !Reports(decode(payloads[i])))
            && (found.Some? ==>
                  exists i :: LastReport(payloads, decode, i) && found == decode(payloads[i]))
  {
    if payloads != [] {
      var n := |payloads| - 1;
      var before, found := payloads[..n], LastUsage(payloads, decode);
      LastUsageIsLast(before, decode);
      assert forall i | 0 <= i < n :: before[i] == payloads[i];
      if Reports(decode(payloads[n])) {
        LastReportNext(payloads, decode, n);
        assert found == decode(payloads[n]);
      } else if i :| LastReport(before, decode, i) && LastUsage(before, decode) == decode(before[i]) {
        hide Reports;
        LastReportNext(payloads, decode, i);
        assert found == decode(payloads[i]);
      }
    }
  }

  const NO_METRICS := UsageMetrics("bedrock", "", 0, 0, 0, 0, 0, 0)

  function MetricsOf(u: Option<BedrockUsage>): UsageMetrics
  {
    if u.None? then NO_METRICS else BuildBedrockMetrics(u.value)
  }

  datatype Parsed = Ok(metrics: UsageMetrics) | Err(error: FrameError)

  /** What a walk is worth: the metrics of its last usage, or its error. */
  function Result(w: Walked, decode: seq<Byte> -> Option<BedrockUsage>): Parsed
  {
    match w
    case Frames(ps) => Ok(MetricsOf(LastUsage(ps, decode)))
    case Failed(e) => Err(e)
  }

  /** `parseEventStreamResponse`: the offset walk. It terminates and stays inside every body, and
      its payload-bounds check never fires. */
  method ParseEventStreamResponse(body: seq<Byte>, decode: seq<Byte> -> Option<BedrockUsage>) returns (r: Parsed)
    ensures r == Result(Walk(body), decode)
  {
    hide U32, LastUsage, Prepend;
    var usage, found, offset := BedrockUsage(0, 0, 0, 0), false, 0;
    ghost var seen: seq<seq<Byte>> := [];
    assert body[0..] == body;
    PrependNothing(Walk(body));
    NoUsage(decode);
    while offset < |body|
      invariant 0 <= offset <= |body|
      invariant Walk(body) == Prepend(seen, Walk(body[offset..]))
      invariant LastUsage(seen, decode) == if found then Some(usage) else None
      decreases |body| - offset
    {
      ghost var rest := body[offset..];
      if |body| - offset < 12 {
        break;
      }
      assert body[offset..offset + 4] == rest[..4] && body[offset + 4..offset + 8] == rest[4..8];
      var totalLen, headersLen := U32(body[offset..offset + 4]), U32(body[offset + 4..offset + 8]);
      PrependFails(seen, BadFrameLength);
      PrependFails(seen, BadHeadersLength);
      if totalLen < 16 || totalLen > |body| - offset {
        return Err(BadFrameLength);
      }
      if headersLen > totalLen - 16 {
        return Err(BadHeadersLength);
      }
      var payloadStart, payloadEnd := offset + 12 + headersLen, offset + totalLen - 4;
      if payloadStart > payloadEnd {
        assert false;
      }
      var payload := body[payloadStart..payloadEnd];
      assert payload == rest[12 + headersLen..totalLen - 4];
      var event := decode(payload);
      if event.Some? && event.value.input + event.value.output > 0 {
        usage, found := event.value, true;
      }
      assert rest[totalLen..] == body[offset + totalLen..];
      PrependTwice(seen, [payload], Walk(body[offset + totalLen..]));
      UsageNext(seen, payload, decode);
      seen := seen + [payload];
      offset := offset + totalLen;
    }
    PrependToNothing(seen);
    r := Ok(MetricsOf(if found then Some(usage) else None));
  }

  /** `isEventStreamResponse`: the first frame's bounds make sense. */
  predicate IsEventStream(body: seq<Byte>)
  {
    && |body| >= OVERHEAD
    && var total, headers := U32(body[..4]), U32(body[4..8]);
       OVERHEAD <= total <= |body| && headers <= total - OVERHEAD
  }

  // ---- The walk accepts exactly frames and a stray tail ----

  lemma {:induction false} FirstFrame(f: Frame, tail: seq<Byte>)
    requires Fits(f)
    ensures var body := Encode(f) + tail;
            var total := OVERHEAD + |f.headers| + |f.payload|;
            && |body| == total + |tail|
            && U32(body[..4]) == total && U32(body[4..8]) == |f.headers|
            && body[PRELUDE + |f.headers|..total - 4] == f.payload
            && body[total..] == tail
  {
    hide U32, BytesOf;
    var body := Encode(f) + tail;
    var total := OVERHEAD + |f.headers| + |f.payload|;
    assert body[..4] == BytesOf(total);
    assert body[4..8] == BytesOf(|f.headers|);
    assert body[PRELUDE + |f.headers|..total - 4] == f.payload;
  }

  /** Walking encoded frames and fewer than 12 stray bytes yields exactly their payloads. */
  lemma {:induction false} WalkFrames(frames: seq<Frame>, stray: seq<Byte>)
    requires (forall i | 0 <= i < |frames| :: Fits(frames[i])) && |stray| < PRELUDE
    ensures Walk(EncodeAll(frames) + stray) == Frames(Payloads(frames))
  {
    hide U32;
    if frames == [] {
      assert EncodeAll(frames) + stray == stray;
    } else {
      WalkFrames(frames[1..], stray);
      var tail := EncodeAll(frames[1..]) + stray;
      FirstFrame(frames[0], tail);
      assert EncodeAll(frames) + stray == Encode(frames[0]) + tail;
    }
  }

  lemma {:induction false} U32Determines(a: seq<Byte>, n: nat)
    requires |a| == 4 && U32(a) == n
    ensures n < 0x1_0000_0000 && a == BytesOf(n)
  {
    var n1 := (a[0] as int * 256 + a[1] as int) * 256 + a[2] as int;
    assert n / 256 == n1 && n % 256 == a[3] as int;
    assert n1 / 256 == a[0] as int * 256 + a[1] as int && n1 % 256 == a[2] as int;
  }

  /** The first frame of a body whose bounds make sense. */
  lemma {:induction false} CutFrame(body: seq<Byte>) returns (f: Frame)
    requires IsEventStream(body)
    ensures var total, headers := U32(body[..4]), U32(body[4..8]);
            && Fits(f) && Encode(f) == body[..total] && f.payload == body[PRELUDE + headers..total - 4]
  {
    hide U32, BytesOf;
    var total, headers := U32(body[..4]), U32(body[4..8]);
    U32Determines(body[..4], total);
    U32Determines(body[4..8], headers);
    f := Frame(body[12..12 + headers], body[12 + headers..total - 4], body[8..12], body[total - 4..total]);
    assert Encode(f) == body[..total];
  }

  /** Every body the walk accepts is such a sequence of frames with a stray tail. */
  lemma {:induction false} WalkedAreFrames(body: seq<Byte>) returns (frames: seq<Frame>, stray: seq<Byte>)
    requires Walk(body).Frames?
    ensures (forall i | 0 <= i < |frames| :: Fits(frames[i])) && |stray| < PRELUDE
    ensures body == EncodeAll(frames) + stray && Walk(body) == Frames(Payloads(frames))
    decreases |body|
  {
    hide U32, Encode;
    if |body| < PRELUDE {
      frames, stray := [], body;
    } else {
      var total := U32(body[..4]);
      var f := CutFrame(body);
      var more;
      more, stray := WalkedAreFrames(body[total..]);
      frames := [f] + more;
      assert body == body[..total] + body[total..];
      assert EncodeAll(frames) == Encode(f) + EncodeAll(more);
    }
  }

  /** A body parses exactly when it is a sequence of frames and a stray tail. */
  lemma {:induction false} AcceptsExactlyFrames(body: seq<Byte>)
    ensures Walk(body).Frames? <==>
            exists frames: seq<Frame>, stray: seq<Byte> ::
              && (forall i | 0 <= i < |frames| :: Fits(frames[i])) && |stray| < PRELUDE
              && body == EncodeAll(frames) + stray
  {
    if Walk(body).Frames? {
      var frames, stray := WalkedAreFrames(body);
    }
    forall frames: seq<Frame>, stray: seq<Byte> | (forall i | 0 <= i < |frames| :: Fits(frames[i])) && |stray| < PRELUDE
                             && body == EncodeAll(frames) + stray
      ensures Walk(body).Frames?
    {
      WalkFrames(frames, stray);
    }
  }

  /** Every framed body is recognised as an event stream; no JSON object below 2 GB is. */
  lemma {:induction false} DetectionSeparates(frames: seq<Frame>, stray: seq<Byte>, body: seq<Byte>)
    requires frames != [] && forall i | 0 <= i < |frames| :: Fits(frames[i])
    ensures IsEventStream(EncodeAll(frames) + stray)
    ensures body != [] && body[0] == 0x7B && |body| < 0x7B00_0000 ==> !IsEventStream(body)
  {
    var tail := EncodeAll(frames[1..]) + stray;
    FirstFrame(frames[0], tail);
    assert EncodeAll(frames) + stray == Encode(frames[0]) + tail;
  }

  // ---- What a body is billed ----

  lemma {:induction false} PayloadsAre(frames: seq<Frame>)
    ensures |Payloads(frames)| == |frames|
    ensures forall i | 0 <= i < |frames| :: Payloads(frames)[i] == frames[i].payload
  {
    if frames != [] { PayloadsAre(frames[1..]); }
  }

  /** A payload that decodes with a positive input plus output count. */
  ghost predicate Positive(u: Option<BedrockUsage>)
  {
    u.Some? && u.value.input + u.value.output > 0
  }

  /** Frame i reports u, with positive counts, and no later frame reports any. */
  ghost predicate LastPositive(frames: seq<Frame>, decode: seq<Byte> -> Option<BedrockUsage>, i: int, u: BedrockUsage)
  {
    && 0 <= i < |frames| && decode(frames[i].payload) == Some(u) && Positive(Some(u))
    && forall j | i < j < |frames| :: !Positive(decode(frames[j].payload))
  }

  /** A body of frames is billed for the counts of its last payload with positive ones: those counts are
      the reported ones, input as the remainder, and each is charged at its own rate. */
  lemma {:induction false} StreamIsBilled(frames: seq<Frame>, stray: seq<Byte>, i: int, u: BedrockUsage,
                                          decode: seq<Byte> -> Option<BedrockUsage>, p: ModelPricing)
    requires (forall k | 0 <= k < |frames| :: Fits(frames[k])) && |stray| < PRELUDE
    requires LastPositive(frames, decode, i, u)
    ensures var r := Result(Walk(EncodeAll(frames) + stray), decode);
            && r.Ok? && r.metrics.provider == "bedrock" && r.metrics.model == ""
            && r.metrics.outputTokens == u.output && r.metrics.cachedTokens == u.cacheRead
            && r.metrics.cacheCreationTokens == u.cacheWrite
            && r.metrics.inputTokens - r.metrics.cachedTokens - r.metrics.cacheCreationTokens == u.input
            && Calculate(Some(p), r.metrics).total * 1000000.0
               == Times(u.input, p.input) + Times(u.cacheRead, p.cached)
                + Times(u.cacheWrite, 1.25 * p.input) + Times(u.output, p.output)
  {
    hide U32, Calculate, Times, BuildBedrockMetrics, EncodeAll, LastUsage, Walk;
    WalkFrames(frames, stray);
    LastUsageIs(frames, decode, i, u);
    BedrockTokensBilledOnce(u, p);
  }

  /** A body in which no payload has positive counts is billed nothing. */
  lemma {:induction false} SilentStreamIsFree(frames: seq<Frame>, stray: seq<Byte>,
                                              decode: seq<Byte> -> Option<BedrockUsage>, p: ModelPricing)
    requires (forall k | 0 <= k < |frames| :: Fits(frames[k])) && |stray| < PRELUDE
    requires forall j | 0 <= j < |frames| :: !Positive(decode(frames[j].payload))
    ensures var r := Result(Walk(EncodeAll(frames) + stray), decode);
            && r.Ok? && r.metrics.provider == "bedrock"
            && r.metrics.inputTokens == r.metrics.outputTokens == r.metrics.cachedTokens == 0
            && r.metrics.cacheCreationTokens == 0 && Calculate(Some(p), r.metrics).total == 0.0
  {
    hide U32, EncodeAll, LastUsage, Walk;
    WalkFrames(frames, stray);
    PayloadsAre(frames);
    LastUsageIsLast(Payloads(frames), decode);
  }

  lemma {:induction false} LastUsageIs(frames: seq<Frame>, decode: seq<Byte> -> Option<BedrockUsage>, i: int,
                                       u: BedrockUsage)
    requires LastPositive(frames, decode, i, u)
    ensures LastUsage(Payloads(frames), decode) == Some(u)
  {
    hide LastUsage, Payloads;
    var payloads := Payloads(frames);
    PayloadsAre(frames);
    LastUsageIsLast(payloads, decode);
    assert LastReport(payloads, decode, i);
    var k :| LastReport(payloads, decode, k) && LastUsage(payloads, decode) == decode(payloads[k]);
    assert k == i;
  }
}
