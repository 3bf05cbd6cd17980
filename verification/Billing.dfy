/** From a provider's usage report to a cost: the Anthropic and Bedrock parsers' normalisation
    and the pricing service's arithmetic, over exact reals. */
module Billing {
  import opened Common
  import opened Pricing

  /** Normalised usage: inputTokens is the whole input, cached and cache-writing parts included. */
  datatype UsageMetrics = UsageMetrics(
    provider: string,
    model: string,
    inputTokens: int,
    outputTokens: int,
    cachedTokens: int,
    cacheCreationTokens: int,
    cacheCreation5m: int,
    cacheCreation1h: int)

  datatype Cost = Cost(input: real, cached: real, cacheCreation: real, output: real, total: real, found: bool)

  const PER_MILLION := 1000000.0

  /** Cache-write tokens as `Calculate` bills them: by TTL, or all as 5-minute writes when no
      TTL is given. */
  function Writes(m: UsageMetrics): (int, int)
  {
    if m.cacheCreation5m + m.cacheCreation1h == 0 && m.cacheCreationTokens > 0
    then (m.cacheCreationTokens, m.cacheCreation1h)
    else (m.cacheCreation5m, m.cacheCreation1h)
  }

  /** `Calculate`, given the resolved price. */
  function Calculate(price: Option<ModelPricing>, m: UsageMetrics): Cost
  {
    if price.None? then Cost(0.0, 0.0, 0.0, 0.0, 0.0, false)
    else
      var p := price.value;
      var w := Writes(m);
      var newInput := m.inputTokens - m.cachedTokens - m.cacheCreationTokens;
      var input := newInput as real * p.input / PER_MILLION;
      var cached := m.cachedTokens as real * p.cached / PER_MILLION;
      var creation := (w.0 as real * 1.25 + w.1 as real * 2.0) * p.input / PER_MILLION;
      var output := m.outputTokens as real * p.output / PER_MILLION;
      Cost(input, cached, creation, output, input + cached + creation + output, true)
  }

  // ---- Anthropic ----

  /** A usage report as decoded; fiveMinute and oneHour are the optional TTL breakdown. */
  datatype AnthropicUsage = AnthropicUsage(
    input: int, output: int, cacheRead: int, cacheCreation: int, fiveMinute: int, oneHour: int)

  const NO_USAGE := AnthropicUsage(0, 0, 0, 0, 0, 0)

  function SplitCacheCreation(u: AnthropicUsage): (int, int)
  {
    if u.fiveMinute == 0 && u.oneHour == 0 then (u.cacheCreation, 0) else (u.fiveMinute, u.oneHour)
  }

  function Metrics(provider: string, model: string, u: AnthropicUsage, output: int): UsageMetrics
  {
    var (fiveMin, oneHour) := SplitCacheCreation(u);
    UsageMetrics(provider, model, u.input + u.cacheRead + u.cacheCreation, output, u.cacheRead, u.cacheCreation,
                 fiveMin, oneHour)
  }

  /** `buildMetrics`. */
  function BuildMetrics(model: string, u: AnthropicUsage): UsageMetrics
  {
    Metrics("anthropic", model, u, u.output)
  }

  /** The breakdown is missing or adds up to the total. */
  predicate Consistent(u: AnthropicUsage)
  {
    (u.fiveMinute == 0 && u.oneHour == 0) || u.fiveMinute + u.oneHour == u.cacheCreation
  }

  /** The tokens billed as cache writes are the reported ones exactly when the breakdown is
      missing or adds up; nothing enforces that it does. */
  lemma {:induction false} WritesBilledOnceIff(provider: string, model: string, u: AnthropicUsage, output: int)
    ensures var w := Writes(Metrics(provider, model, u, output));
            w.0 + w.1 == u.cacheCreation <==> Consistent(u)
  {
  }

  /** What a usage report is worth when every token counts once at its own rate: new input at the
      base rate, cache reads at the cached rate, cache writes at 1.25 or 2 times the base rate. The
      output count is separate, since a stream reports it in another event. */
  ghost function Due(u: AnthropicUsage, output: int, p: ModelPricing): real
  {
    Times(u.input, p.input) + Times(u.cacheRead, p.cached)
    + WritesDue(u.cacheCreation, u.oneHour, p.input) + Times(output, p.output)
  }

  ghost function Times(tokens: int, rate: real): real
  {
    tokens as real * rate
  }

  ghost function WritesDue(total: int, long: int, rate: real): real
  {
    Times(total - long, 1.25 * rate) + Times(long, 2.0 * rate)
  }

  lemma {:induction false} WriteCost(a: real, b: real, rate: real)
    ensures (a * 1.25 + b * 2.0) * rate == a * (1.25 * rate) + b * (2.0 * rate)
  {
  }

  /** Each bucket holds its own tokens: the remainder left as new input is the provider's own input
      count, and the buckets add up to the total. */
  lemma {:induction false} BucketsHoldTheirTokens(provider: string, model: string, u: AnthropicUsage, output: int,
                                                  p: ModelPricing)
    requires Consistent(u)
    ensures var m := Metrics(provider, model, u, output);
            var c := Calculate(Some(p), m);
            && m.provider == provider && m.model == model && c.found
            && m.inputTokens - m.cachedTokens - m.cacheCreationTokens == u.input
            && c.input * 1000000.0 == Times(u.input, p.input)
            && c.cached * 1000000.0 == Times(u.cacheRead, p.cached)
            && c.cacheCreation * 1000000.0 == WritesDue(u.cacheCreation, u.oneHour, p.input)
            && c.output * 1000000.0 == Times(output, p.output)
            && c.total == c.input + c.cached + c.cacheCreation + c.output
  {
    var (w5, w1) := Writes(Metrics(provider, model, u, output));
    assert w5 == u.cacheCreation - u.oneHour && w1 == u.oneHour;
    WriteCost(w5 as real, w1 as real, p.input);
  }

  /** Every reported token is billed once, at its own rate, for whole responses and streams. */
  lemma {:induction false} EachTokenBilledOnce(provider: string, model: string, u: AnthropicUsage, output: int,
                                               p: ModelPricing)
    requires Consistent(u)
    ensures Calculate(Some(p), Metrics(provider, model, u, output)).total * 1000000.0 == Due(u, output, p)
  {
    hide Times, WritesDue, Calculate;
    BucketsHoldTheirTokens(provider, model, u, output, p);
  }

  /** The bill of a whole response: at a known price every token costs its own rate per million; at an
      unknown one everything is free and the cost says that no price was found. */
  lemma {:induction false} ResponseBill(model: string, u: AnthropicUsage, price: Option<ModelPricing>)
    ensures var m := BuildMetrics(model, u);
            && m.provider == "anthropic" && m.model == model && m.outputTokens == u.output
            && m.cachedTokens == u.cacheRead && m.cacheCreationTokens == u.cacheCreation
            && m.inputTokens == u.input + u.cacheRead + u.cacheCreation
    ensures var c := Calculate(price, BuildMetrics(model, u));
            && (c.found <==> price.Some?)
            && (price.Some? && Consistent(u) ==> c.total * 1000000.0 == Due(u, u.output, price.value))
            && (price.None? ==> c.input == c.cached == c.cacheCreation == c.output == c.total == 0.0)
  {
    if price.Some? && Consistent(u) { EachTokenBilledOnce("anthropic", model, u, u.output, price.value); }
  }

  predicate NonNegativePrice(p: ModelPricing)
  {
    p.input >= 0.0 && p.output >= 0.0 && p.cached >= 0.0
  }

  predicate AtMost(u: AnthropicUsage, v: AnthropicUsage)
  {
    && u.input <= v.input && u.cacheRead <= v.cacheRead
    && u.cacheCreation <= v.cacheCreation && u.fiveMinute <= v.fiveMinute && u.oneHour <= v.oneHour
  }

  lemma {:induction false} TimesMonotone(a: int, b: int, rate: real)
    requires a <= b && rate >= 0.0
    ensures Times(a, rate) <= Times(b, rate)
  {
  }

  /** More of any kind of token never costs less. */
  lemma {:induction false} TotalIsMonotone(provider: string, model: string, u: AnthropicUsage, output: int,
                                           v: AnthropicUsage, output': int, p: ModelPricing)
    requires Consistent(u) && Consistent(v) && NonNegativePrice(p)
    requires AtMost(u, v) && output <= output'
    ensures Calculate(Some(p), Metrics(provider, model, u, output)).total
         <= Calculate(Some(p), Metrics(provider, model, v, output')).total
  {
    hide Calculate, WritesDue, Times;
    EachTokenBilledOnce(provider, model, u, output, p);
    EachTokenBilledOnce(provider, model, v, output', p);
    TimesMonotone(u.input, v.input, p.input);
    TimesMonotone(u.cacheRead, v.cacheRead, p.cached);
    TimesMonotone(output, output', p.output);
    WritesMonotone(u.cacheCreation, u.oneHour, v.cacheCreation, v.oneHour, p.input);
  }

  lemma {:induction false} WritesMonotone(total: int, long: int, total': int, long': int, rate: real)
    requires total <= total' && long <= long' && rate >= 0.0
    ensures WritesDue(total, long, rate) <= WritesDue(total', long', rate)
  {
    hide Times, WritesDue;
    WritesSplit(total, long, rate);
    WritesSplit(total', long', rate);
    assert 1.25 * rate >= 0.0 && 0.75 * rate >= 0.0;
    TimesMonotone(total, total', 1.25 * rate);
    TimesMonotone(long, long', 0.75 * rate);
  }

  lemma {:induction false} WritesSplit(total: int, long: int, rate: real)
    ensures WritesDue(total, long, rate) == Times(total, 1.25 * rate) + Times(long, 0.75 * rate)
  {
    var t, l := total as real, long as real;
    assert (total - long) as real == t - l;
    assert (t - l) * (1.25 * rate) == t * (1.25 * rate) - l * (1.25 * rate);
    assert l * (2.0 * rate) == l * (1.25 * rate) + l * (0.75 * rate);
  }

  // ---- Bedrock ----

  /** Bedrock's Converse usage, decoded. */
  datatype BedrockUsage = BedrockUsage(input: int, output: int, cacheRead: int, cacheWrite: int)

  /** `buildBedrockMetrics`: all cache writes count as 5-minute writes. */
  function BuildBedrockMetrics(u: BedrockUsage): UsageMetrics
  {
    UsageMetrics("bedrock", "", u.input + u.cacheRead + u.cacheWrite, u.output,
                 u.cacheRead, u.cacheWrite, u.cacheWrite, 0)
  }

  /** The same report in the other provider's terms: no breakdown, so every write is a short one. */
  ghost function InGeneral(u: BedrockUsage): AnthropicUsage
  {
    AnthropicUsage(u.input, u.output, u.cacheRead, u.cacheWrite, 0, 0)
  }

  /** Each Bedrock token is billed once, in its own bucket, all cache writes at 1.25 times the base
      rate, and the remainder left as new input is the reported input. */
  lemma {:induction false} BedrockTokensBilledOnce(u: BedrockUsage, p: ModelPricing)
    ensures var m := BuildBedrockMetrics(u);
            var c := Calculate(Some(p), m);
            && m.provider == "bedrock" && m.model == ""
            && m.outputTokens == u.output && m.cachedTokens == u.cacheRead && m.cacheCreationTokens == u.cacheWrite
            && m.inputTokens == u.input + u.cacheRead + u.cacheWrite
            && m.inputTokens - m.cachedTokens - m.cacheCreationTokens == u.input
            && c.input * 1000000.0 == Times(u.input, p.input)
            && c.cached * 1000000.0 == Times(u.cacheRead, p.cached)
            && c.cacheCreation * 1000000.0 == Times(u.cacheWrite, 1.25 * p.input)
            && c.output * 1000000.0 == Times(u.output, p.output)
            && c.total * 1000000.0
               == Times(u.input, p.input) + Times(u.cacheRead, p.cached)
                + Times(u.cacheWrite, 1.25 * p.input) + Times(u.output, p.output)
  {
    assert WritesDue(u.cacheWrite, 0, p.input) == Times(u.cacheWrite, 1.25 * p.input);
    var m := BuildBedrockMetrics(u);
    assert m == Metrics("bedrock", "", InGeneral(u), u.output);
    assert m.outputTokens == u.output && m.cachedTokens == u.cacheRead && m.cacheCreationTokens == u.cacheWrite
        && m.inputTokens == u.input + u.cacheRead + u.cacheWrite;
    hide Times, WritesDue, Calculate, BuildBedrockMetrics, Metrics;
    BucketsHoldTheirTokens("bedrock", "", InGeneral(u), u.output, p);
    EachTokenBilledOnce("bedrock", "", InGeneral(u), u.output, p);
  }

  /** More of any kind of Bedrock token never costs less. */
  lemma {:induction false} BedrockTotalIsMonotone(u: BedrockUsage, v: BedrockUsage, p: ModelPricing)
    requires NonNegativePrice(p)
    requires u.input <= v.input && u.output <= v.output && u.cacheRead <= v.cacheRead && u.cacheWrite <= v.cacheWrite
    ensures Calculate(Some(p), BuildBedrockMetrics(u)).total <= Calculate(Some(p), BuildBedrockMetrics(v)).total
  {
    assert BuildBedrockMetrics(u) == Metrics("bedrock", "", InGeneral(u), u.output);
    assert BuildBedrockMetrics(v) == Metrics("bedrock", "", InGeneral(v), v.output);
    hide Calculate;
    TotalIsMonotone("bedrock", "", InGeneral(u), u.output, InGeneral(v), v.output, p);
  }

  // ---- Anthropic's event stream ----

  const EVENT_PREFIX := "event: "
  const DATA_PREFIX := "data: "

  predicate HasPrefix(line: string, prefix: string)
  {
    prefix <= line
  }

  function After(line: string, prefix: string): string
    requires prefix <= line
  {
    line[|prefix|..]
  }

  /** The event named by the nearest event line above line n. */
  function EventAt(lines: seq<string>, n: nat): string
    requires n <= |lines|
  {
    if n == 0 then ""
    else if HasPrefix(lines[n - 1], EVENT_PREFIX) then After(lines[n - 1], EVENT_PREFIX)
    else EventAt(lines, n - 1)
  }

  /** Line i carries data of the given event that decodes. */
  predicate Carries<T>(lines: seq<string>, i: nat, event: string, decode: string -> Option<T>)
    requires i < |lines|
  {
    && !HasPrefix(lines[i], EVENT_PREFIX) && HasPrefix(lines[i], DATA_PREFIX)
    && EventAt(lines, i) == event && decode(After(lines[i], DATA_PREFIX)).Some?
  }

  /** The value last carried for an event among the first n lines, or the default. */
  ghost predicate LastCarried<T>(lines: seq<string>, n: nat, event: string, decode: string -> Option<T>, default: T,
                                 t: T)
    requires n <= |lines|
  {
    || (t == default && forall i | 0 <= i < n :: !Carries(lines, i, event, decode))
    || exists i :: 0 <= i < n && Carries(lines, i, event, decode)
                   && Some(t) == decode(After(lines[i], DATA_PREFIX))
                   && forall j | i < j < n :: !Carries(lines, j, event, decode)
  }

  lemma {:induction false} LastCarriedNext<T>(lines: seq<string>, n: nat, event: string, decode: string -> Option<T>,
                                              default: T, t: T)
    requires n < |lines| && LastCarried(lines, n, event, decode, default, t)
    ensures !Carries(lines, n, event, decode) ==> LastCarried(lines, n + 1, event, decode, default, t)
    ensures Carries(lines, n, event, decode) ==>
              LastCarried(lines, n + 1, event, decode, default, decode(After(lines[n], DATA_PREFIX)).value)
  {
  }

  lemma {:induction false} LastCarriedUnique<T>(lines: seq<string>, n: nat, event: string, decode: string -> Option<T>,
                                                default: T, t: T, t': T)
    requires n <= |lines|
    requires LastCarried(lines, n, event, decode, default, t) && LastCarried(lines, n, event, decode, default, t')
    ensures t == t'
  {
    if i :| (0 <= i < n && Carries(lines, i, event, decode)
             && forall j | i < j < n :: !Carries(lines, j, event, decode)) {
      assert Some(t) == decode(After(lines[i], DATA_PREFIX)) == Some(t');
    }
  }

  /** `parseStreamingResponse` over the body's lines: model and input usage come from the last
      decodable message_start, output tokens from the last decodable message_delta. */
  method ParseStreamingResponse(lines: seq<string>, decodeStart: string -> Option<(string, AnthropicUsage)>,
                                decodeDelta: string -> Option<int>)
    returns (m: UsageMetrics)
    ensures exists start, output ::
              && LastCarried(lines, |lines|, "message_start", decodeStart, ("", NO_USAGE), start)
              && LastCarried(lines, |lines|, "message_delta", decodeDelta, 0, output)
              && m == Metrics("anthropic", start.0, start.1, output)
  {
    hide LastCarried;
    var model, usage, outputTokens, currentEvent := "", NO_USAGE, 0, "";
    StartCarried(lines, "message_start", decodeStart, ("", NO_USAGE));
    StartCarried(lines, "message_delta", decodeDelta, 0);
    for i := 0 to |lines|
      invariant currentEvent == EventAt(lines, i)
      invariant LastCarried(lines, i, "message_start", decodeStart, ("", NO_USAGE), (model, usage))
      invariant LastCarried(lines, i, "message_delta", decodeDelta, 0, outputTokens)
    {
      var line := lines[i];
      LastCarriedNext(lines, i, "message_start", decodeStart, ("", NO_USAGE), (model, usage));
      LastCarriedNext(lines, i, "message_delta", decodeDelta, 0, outputTokens);
      if HasPrefix(line, EVENT_PREFIX) {
        currentEvent := After(line, EVENT_PREFIX);
        continue;
      }
      if !HasPrefix(line, DATA_PREFIX) {
        continue;
      }
      var data := After(line, DATA_PREFIX);
      if currentEvent == "message_start" {
        var event := decodeStart(data);
        if event.Some? {
          model, usage := event.value.0, event.value.1;
        }
      } else if currentEvent == "message_delta" {
        var event := decodeDelta(data);
        if event.Some? {
          outputTokens := event.value;
        }
      }
    }
    m := Metrics("anthropic", model, usage, outputTokens);
  }

  lemma {:induction false} StartCarried<T>(lines: seq<string>, event: string, decode: string -> Option<T>, default: T)
    ensures LastCarried(lines, 0, event, decode, default, default)
  {
  }

  // ---- A well-formed stream parses to its events ----

  /** The lines of a stream of events, each a name and its data, with a blank line after each. */
  ghost function LinesOf(events: seq<(string, string)>): seq<string>
  {
    if events == [] then []
    else
      var (name, data) := events[|events| - 1];
      LinesOf(events[..|events| - 1]) + ["event: " + name, "data: " + data, ""]
  }

  /** The data of the last event of a name that decodes, or the default. */
  ghost function LastDecoded<T>(events: seq<(string, string)>, name: string, decode: string -> Option<T>, default: T): T
  {
    if events == [] then default
    else
      var last := events[|events| - 1];
      if last.0 == name && decode(last.1).Some? then decode(last.1).value
      else LastDecoded(events[..|events| - 1], name, decode, default)
  }

  lemma {:induction false} EventAtPrefix(lines: seq<string>, more: seq<string>, n: nat)
    requires n <= |lines|
    ensures EventAt(lines + more, n) == EventAt(lines, n)
  {
    if n > 0 { EventAtPrefix(lines, more, n - 1); }
  }

  lemma {:induction false} LastCarriedPrefix<T>(lines: seq<string>, more: seq<string>, n: nat, event: string,
                                                decode: string -> Option<T>, default: T, t: T)
    requires n <= |lines| && LastCarried(lines, n, event, decode, default, t)
    ensures LastCarried(lines + more, n, event, decode, default, t)
  {
    hide EventAt;
    forall i | 0 <= i < n ensures Carries(lines + more, i, event, decode) <==> Carries(lines, i, event, decode) {
      EventAtPrefix(lines, more, i);
    }
    if i :| 0 <= i < n && Carries(lines, i, event, decode) && Some(t) == decode(After(lines[i], DATA_PREFIX))
            && (forall j | i < j < n :: !Carries(lines, j, event, decode)) {
      assert Carries(lines + more, i, event, decode);
    }
  }

  /** On the lines of a stream of events, the last value carried is that of the last event of the name
      that decodes. */
  lemma {:induction false} StreamCarriesLast<T>(events: seq<(string, string)>, name: string,
                                                decode: string -> Option<T>, default: T)
    ensures LastCarried(LinesOf(events), |LinesOf(events)|, name, decode, default,
                        LastDecoded(events, name, decode, default))
  {
    if events != [] {
      var before, last := events[..|events| - 1], events[|events| - 1];
      var lines, more := LinesOf(before), ["event: " + last.0, "data: " + last.1, ""];
      var n, all, value := |lines|, lines + more, LastDecoded(before, name, decode, default);
      StreamCarriesLast(before, name, decode, default);
      LastCarriedPrefix(lines, more, n, name, decode, default, value);
      assert all[n] == "event: " + last.0 && all[n + 1] == "data: " + last.1 && all[n + 2] == "";
      EventLine(all, n, last.0, last.1);
      hide LastCarried, EventAt;
      LastCarriedNext(all, n, name, decode, default, value);
      LastCarriedNext(all, n + 1, name, decode, default, value);
      LastCarriedNext(all, n + 2, name, decode, default, LastDecoded(events, name, decode, default));
    }
  }

  lemma {:induction false} EventLine(all: seq<string>, n: nat, name: string, data: string)
    requires n + 1 < |all| && all[n] == "event: " + name && all[n + 1] == "data: " + data
    ensures EventAt(all, n + 1) == name
    ensures HasPrefix(all[n], EVENT_PREFIX)
    ensures !HasPrefix(all[n + 1], EVENT_PREFIX) && HasPrefix(all[n + 1], DATA_PREFIX)
    ensures After(all[n + 1], DATA_PREFIX) == data
  {
    assert all[n + 1][0] == 'd';
  }

  /** A whole stream parses to the model and input usage of its last message_start that decodes and
      the output count of its last message_delta that decodes. */
  lemma {:induction false} StreamParsesToEvents(events: seq<(string, string)>, start: (string, AnthropicUsage),
                                                output: int,
                                                decodeStart: string -> Option<(string, AnthropicUsage)>,
                                                decodeDelta: string -> Option<int>)
    requires var lines := LinesOf(events);
             && LastCarried(lines, |lines|, "message_start", decodeStart, ("", NO_USAGE), start)
             && LastCarried(lines, |lines|, "message_delta", decodeDelta, 0, output)
    ensures start == LastDecoded(events, "message_start", decodeStart, ("", NO_USAGE))
    ensures output == LastDecoded(events, "message_delta", decodeDelta, 0)
  {
    hide LastCarried;
    var lines := LinesOf(events);
    StreamCarriesLast(events, "message_start", decodeStart, ("", NO_USAGE));
    StreamCarriesLast(events, "message_delta", decodeDelta, 0);
    LastCarriedUnique(lines, |lines|, "message_start", decodeStart, ("", NO_USAGE), start,
                      LastDecoded(events, "message_start", decodeStart, ("", NO_USAGE)));
    LastCarriedUnique(lines, |lines|, "message_delta", decodeDelta, 0, output,
                      LastDecoded(events, "message_delta", decodeDelta, 0));
  }
}
