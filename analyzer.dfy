/** The per-event decision pipeline: take the primary mint of a webhook, fetch
    its market metrics, require a market cap, apply the market-cap filter and,
    when it passes, send one alert. The two remote clients are oracles: the
    fetch and the send are functions from their arguments to their outcome,
    and every call made is recorded, as is every log event emitted. */
module Analyzer {
  import opened Wrappers
  import opened Config
  import opened Helius
  import opened Moralis
  import opened Telegram
  import opened Decimal

  // ---------------------------------------------------------------------
  // The market-cap filter

  datatype MarketCapFilter = MarketCapFilter(bounds: MarketCapBounds)

  /** `Fail` always carries the same reason code, whichever bound was broken. */
  datatype FilterOutcome = Pass | Fail(reason: string)

  const OutOfCapRange := "out_of_cap_range"

  /** The admission rule: each configured bound holds, inclusively; a bound
      that is not configured constrains nothing. */
  ghost predicate WithinBounds(bounds: MarketCapBounds, marketCap: real) {
    && (bounds.min.Some? ==> bounds.min.value <= marketCap)
    && (bounds.max.Some? ==> marketCap <= bounds.max.value)
  }

  /** Check the lower bound, then the upper bound, then pass. */
  function Evaluate(filter: MarketCapFilter, marketCap: real): (outcome: FilterOutcome)
    ensures outcome.Pass? <==> WithinBounds(filter.bounds, marketCap)
    ensures outcome.Fail? ==> outcome == Fail(OutOfCapRange)
  {
    if filter.bounds.min.Some? && marketCap < filter.bounds.min.value then
      Fail(OutOfCapRange)
    else if filter.bounds.max.Some? && marketCap > filter.bounds.max.value then
      Fail(OutOfCapRange)
    else
      Pass
  }

  /** With both bounds set, the filter admits exactly the closed interval. */
  lemma ClosedRange(lo: real, hi: real, marketCap: real)
    ensures Evaluate(MarketCapFilter(MarketCapBounds(Some(lo), Some(hi))), marketCap).Pass?
            <==> lo <= marketCap <= hi
  {
  }

  /** Both bounds are inclusive, and anything beyond either one fails with
      the single reason code. */
  lemma BoundsAreInclusive(lo: real, hi: real, epsilon: real)
    requires lo <= hi && epsilon > 0.0
    ensures Evaluate(MarketCapFilter(MarketCapBounds(Some(lo), Some(hi))), lo) == Pass
    ensures Evaluate(MarketCapFilter(MarketCapBounds(Some(lo), Some(hi))), hi) == Pass
    ensures Evaluate(MarketCapFilter(MarketCapBounds(Some(lo), Some(hi))), lo - epsilon) == Fail(OutOfCapRange)
    ensures Evaluate(MarketCapFilter(MarketCapBounds(Some(lo), Some(hi))), hi + epsilon) == Fail(OutOfCapRange)
  {
  }

  /** Without a lower bound everything up to the upper bound passes, zero and
      negative values included. */
  lemma OpenLowerBound(hi: real, marketCap: real)
    ensures Evaluate(MarketCapFilter(MarketCapBounds(None, Some(hi))), marketCap).Pass? <==> marketCap <= hi
  {
  }

  /** Without an upper bound everything from the lower bound up passes. */
  lemma OpenUpperBound(lo: real, marketCap: real)
    ensures Evaluate(MarketCapFilter(MarketCapBounds(Some(lo), None)), marketCap).Pass? <==> lo <= marketCap
  {
  }

  /** With no bounds configured every market cap passes. */
  lemma NoBoundsPassEverything(marketCap: real)
    ensures Evaluate(MarketCapFilter(MarketCapBounds(None, None)), marketCap) == Pass
  {
  }

  /** The repository's unit tests of the filter, as facts about the model. */
  lemma FilterUnitTests()
    ensures var f := MarketCapFilter(MarketCapBounds(Some(1000.0), Some(5000000.0)));
      Evaluate(f, 10000.0) == Pass && Evaluate(f, 1000.0) == Pass && Evaluate(f, 5000000.0) == Pass
    ensures var f := MarketCapFilter(MarketCapBounds(Some(10000.0), Some(100000.0)));
      Evaluate(f, 9999.99) == Fail(OutOfCapRange) && Evaluate(f, 100000.01) == Fail(OutOfCapRange)
    ensures var f := MarketCapFilter(MarketCapBounds(None, Some(1000000.0)));
      Evaluate(f, 0.0) == Pass && Evaluate(f, 999999.99) == Pass
    ensures var f := MarketCapFilter(MarketCapBounds(Some(5000.0), None));
      Evaluate(f, 4999.99) == Fail(OutOfCapRange) && Evaluate(f, 5000.0) == Pass && Evaluate(f, 50000000.0) == Pass
  {
  }

  // ---------------------------------------------------------------------
  // The analyzer, its errors, its calls and its log

  /** The chat the alerts go to and the filter they pass. The two clients'
      credentials and base URLs stay with the oracles that stand for them. */
  datatype Analyzer = Analyzer(chatId: string, capFilter: MarketCapFilter)

  /** Build an analyzer from the application configuration. */
  function New(config: AppConfig): (a: Analyzer)
    ensures a.chatId == config.telegramChatId
    ensures forall m :: Evaluate(a.capFilter, m).Pass? <==> WithinBounds(config.marketCapBounds, m)
  {
    Analyzer(config.telegramChatId, MarketCapFilter(config.marketCapBounds))
  }

  /** The two errors `process_event` propagates. */
  datatype AnalyzerError = Moralis(moralisError: MoralisError) | Telegram(telegramError: TelegramError)

  /** A call made to one of the remote services. */
  datatype Call = FetchTokenMetrics(mint: string) | SendMessage(chatId: string, text: string)

  datatype Level = Info | Warn | Error

  /** The structured log events, one constructor per event message
      (`intake_event`, `skip_event`, `external_api_error`,
      `market_cap_filter_decision`, `alert_delivery_failed`), with the fields
      the pipeline attaches. */
  datatype LogEvent =
    | IntakeEvent(signature: string, mint: string)
    | SkipEvent(signature: string, skippedMint: Option<string>, reason: string)
    | ExternalApiError(signature: string, mint: string, moralisError: MoralisError, source: string)
    | FilterDecision(signature: string, mint: string, marketCapUsd: real, decision: string, reason: string)
    | AlertDeliveryFailed(signature: string, mint: string, telegramError: TelegramError, source: string)
  {
    function Level(): Level {
      match this
      case IntakeEvent(_, _) => Info
      case SkipEvent(_, _, _) => Warn
      case ExternalApiError(_, _, _, _) => Error
      case FilterDecision(_, _, _, _, _) => Info
      case AlertDeliveryFailed(_, _, _, _) => Error
    }
  }

  predicate DeliveryAttempted(calls: seq<Call>) {
    exists i :: 0 <= i < |calls| && calls[i].SendMessage?
  }

  // ---------------------------------------------------------------------
  // The alert text

  /** The price as printed in the alert: six places, or "n/a" when unknown. */
  function PriceLine(price: Option<real>): (line: string)
    ensures line == "n/a" <==> price.None?
  {
    match price
    case None => "n/a"
    case Some(p) => FormatFixed(p, 6)
  }

  const Heading := "Solana token alert"
  const MintLabel := "\nMint: "
  const SignatureLabel := "\nSignature: "
  const MarketCapLabel := "\nMarket cap (USD): "
  const PriceLabel := "\nPrice (USD): "

  /** The alert: heading, mint, signature, market cap at two places, price.
      It names the mint and the signature, gives the market cap at two places
      and ends with the price line. */
  function AlertText(mint: string, signature: string, marketCap: real, price: Option<real>): (text: string)
    ensures Heading <= text
    ensures Contains(text, mint) && Contains(text, signature)
    ensures Contains(text, MarketCapLabel + FormatFixed(marketCap, 2))
    ensures EndsWith(text, PriceLabel + PriceLine(price))
  {
    AlertParts(Heading, MintLabel, mint, SignatureLabel, signature,
      MarketCapLabel, FormatFixed(marketCap, 2), PriceLabel, PriceLine(price));
    Heading + MintLabel + mint + SignatureLabel + signature
      + MarketCapLabel + FormatFixed(marketCap, 2) + PriceLabel + PriceLine(price)
  }

  predicate Contains(text: string, part: string) {
    exists i :: 0 <= i <= |text| && part <= text[i..]
  }

  predicate EndsWith(text: string, suffix: string) {
    |suffix| <= |text| && text[|text| - |suffix|..] == suffix
  }

  lemma ContainsMiddle(before: string, part: string, after: string)
    ensures Contains(before + part + after, part)
  {
    assert part <= (before + part + after)[|before|..];
  }

  /** Appending to a text keeps what it contains. */
  lemma ContainsExtended(text: string, part: string, more: string)
    requires Contains(text, part)
    ensures Contains(text + more, part)
  {
    var i :| 0 <= i <= |text| && part <= text[i..];
    assert part <= (text + more)[i..];
  }

  lemma EndsWithLast(before: string, suffix: string)
    ensures EndsWith(before + suffix, suffix)
  {
    assert (before + suffix)[|before|..] == suffix;
  }

  /** Where the mint, the signature, the market cap and the price line sit
      in a text laid out as the alert is. */
  lemma AlertParts(heading: string, mintLabel: string, mint: string, signatureLabel: string,
                   signature: string, capLabel: string, cap: string, priceLabel: string, line: string)
    ensures heading <= heading + mintLabel + mint + signatureLabel + signature + capLabel + cap + priceLabel + line
    ensures Contains(heading + mintLabel + mint + signatureLabel + signature + capLabel + cap + priceLabel + line, mint)
    ensures Contains(heading + mintLabel + mint + signatureLabel + signature + capLabel + cap + priceLabel + line, signature)
    ensures Contains(heading + mintLabel + mint + signatureLabel + signature + capLabel + cap + priceLabel + line,
                     capLabel + cap)
    ensures EndsWith(heading + mintLabel + mint + signatureLabel + signature + capLabel + cap + priceLabel + line,
                     priceLabel + line)
  {
    var t4 := heading + mintLabel + mint + signatureLabel + signature;
    AlertHead(heading, mintLabel, mint, signatureLabel, signature);
    ContainsExtended(t4, mint, capLabel);
    ContainsExtended(t4 + capLabel, mint, cap);
    ContainsExtended(t4 + capLabel + cap, mint, priceLabel);
    ContainsExtended(t4 + capLabel + cap + priceLabel, mint, line);
    ContainsExtended(t4, signature, capLabel);
    ContainsExtended(t4 + capLabel, signature, cap);
    ContainsExtended(t4 + capLabel + cap, signature, priceLabel);
    ContainsExtended(t4 + capLabel + cap + priceLabel, signature, line);
    PrefixExtended(t4, heading, capLabel);
    PrefixExtended(t4 + capLabel, heading, cap);
    PrefixExtended(t4 + capLabel + cap, heading, priceLabel);
    PrefixExtended(t4 + capLabel + cap + priceLabel, heading, line);
    AlertTail(t4, capLabel, cap, priceLabel, line);
  }

  /** The first five pieces: the heading leads, the mint and the signature
      are there. */
  lemma AlertHead(heading: string, mintLabel: string, mint: string, signatureLabel: string, signature: string)
    ensures heading <= heading + mintLabel + mint + signatureLabel + signature
    ensures Contains(heading + mintLabel + mint + signatureLabel + signature, mint)
    ensures Contains(heading + mintLabel + mint + signatureLabel + signature, signature)
  {
    var t1 := heading + mintLabel;
    var t2 := t1 + mint;
    var t3 := t2 + signatureLabel;
    ContainsMiddle(t1, mint, "");
    assert t1 + mint + "" == t2;
    ContainsExtended(t2, mint, signatureLabel);
    ContainsExtended(t3, mint, signature);
    ContainsMiddle(t3, signature, "");
    assert t3 + signature + "" == t3 + signature;
    PrefixExtended(heading, heading, mintLabel);
    PrefixExtended(t1, heading, mint);
    PrefixExtended(t2, heading, signatureLabel);
    PrefixExtended(t3, heading, signature);
  }

  /** The last four pieces: the market cap is there and the price line ends
      the text. */
  lemma AlertTail(head: string, capLabel: string, cap: string, priceLabel: string, line: string)
    ensures Contains(head + capLabel + cap + priceLabel + line, capLabel + cap)
    ensures EndsWith(head + capLabel + cap + priceLabel + line, priceLabel + line)
  {
    var t6 := head + capLabel + cap;
    assert t6 == head + (capLabel + cap);
    ContainsMiddle(head, capLabel + cap, "");
    assert head + (capLabel + cap) + "" == t6;
    ContainsExtended(t6, capLabel + cap, priceLabel);
    ContainsExtended(t6 + priceLabel, capLabel + cap, line);
    assert t6 + priceLabel + line == t6 + (priceLabel + line);
    EndsWithLast(t6, priceLabel + line);
  }

  /** Appending to a text keeps its prefixes. */
  lemma PrefixExtended(text: string, prefix: string, more: string)
    requires prefix <= text
    ensures prefix <= text + more
  {
    assert (text + more)[..|prefix|] == text[..|prefix|];
  }

  /** The alert ends in "Price (USD): n/a" exactly when the price is unknown. */
  lemma AlertPriceNotAvailable(mint: string, signature: string, marketCap: real, price: Option<real>)
    ensures EndsWith(AlertText(mint, signature, marketCap, price), PriceLabel + "n/a") <==> price.None?
  {
    if price.Some? {
      DigitEndingIsNotNotAvailable(AlertText(mint, signature, marketCap, price), PriceLabel, FormatFixed(price.value, 6));
    }
  }

  /** A text ending in a heading and a digit does not end in that heading and "n/a". */
  lemma DigitEndingIsNotNotAvailable(text: string, heading: string, rendered: string)
    requires |rendered| >= 1 && IsDigit(rendered[|rendered| - 1])
    requires EndsWith(text, heading + rendered)
    ensures !EndsWith(text, heading + "n/a")
  {
    var last := heading + rendered;
    assert text[|text| - 1] == last[|last| - 1] == rendered[|rendered| - 1];
    var na := heading + "n/a";
    assert na[|na| - 1] == 'a' && !IsDigit('a');
  }

  // ---------------------------------------------------------------------
  // The pipeline

  /** What processing one webhook produces: its result, the remote calls
      made, in order, and the log events emitted, in order. */
  datatype Trace = Trace(result: Result<(), AnalyzerError>, calls: seq<Call>, logs: seq<LogEvent>)

  /** Delivering one alert: a single send of the alert text to the chat, and
      a logged error when it fails. */
  function Delivery(
    a: Analyzer, mint: string, signature: string, marketCap: real, price: Option<real>,
    sendMessage: (string, string) -> Result<(), TelegramError>): Trace
  {
    var text := AlertText(mint, signature, marketCap, price);
    match sendMessage(a.chatId, text)
    case Err(e) =>
      Trace(Err(Telegram(e)), [SendMessage(a.chatId, text)], [AlertDeliveryFailed(signature, mint, e, "telegram")])
    case Ok(_) =>
      Trace(Ok(()), [SendMessage(a.chatId, text)], [])
  }

  /** Exactly one send, to the analyzer's chat, with the alert text; the
      delivery fails exactly when the send does, and only then is an error
      logged, with source "telegram". */
  lemma DeliverySendsOnce(
    a: Analyzer, mint: string, signature: string, marketCap: real, price: Option<real>,
    sendMessage: (string, string) -> Result<(), TelegramError>)
    ensures var t := Delivery(a, mint, signature, marketCap, price, sendMessage);
      var text := AlertText(mint, signature, marketCap, price);
      var sent := sendMessage(a.chatId, text);
      && t.calls == [SendMessage(a.chatId, text)]
      && (t.result.Ok? <==> sent.Ok?)
      && (sent.Err? ==> t.result == Err(Telegram(sent.error))
                        && t.logs == [AlertDeliveryFailed(signature, mint, sent.error, "telegram")])
      && (sent.Ok? ==> t.logs == [])
  {
  }

  /** Build the alert and hand it to the messaging oracle; log a failure. The
      result, the call and the log are those of `Delivery`. */
  method SendAlert(
    a: Analyzer, mint: string, signature: string, metrics: TokenMetrics, marketCap: real,
    sendMessage: (string, string) -> Result<(), TelegramError>)
    returns (r: Result<(), AnalyzerError>, calls: seq<Call>, logs: seq<LogEvent>)
    ensures Trace(r, calls, logs) == Delivery(a, mint, signature, marketCap, metrics.priceUsd, sendMessage)
  {
    var message := AlertText(mint, signature, marketCap, metrics.priceUsd);
    calls := [SendMessage(a.chatId, message)];
    var sent := sendMessage(a.chatId, message);
    if sent.Err? {
      logs := [AlertDeliveryFailed(signature, mint, sent.error, "telegram")];
      r := Err(Telegram(sent.error));
      return;
    }
    logs := [];
    r := Ok(());
  }

  /** The pipeline's decision table as a function of the webhook and of what
      the two remote clients answer. */
  function Process(
    a: Analyzer, event: HeliusWebhook,
    fetchTokenMetrics: string -> Result<TokenMetrics, MoralisError>,
    sendMessage: (string, string) -> Result<(), TelegramError>): Trace
  {
    var signature := event.signature;
    match PrimaryMint(event)
    case None =>
      Trace(Ok(()), [], [IntakeEvent(signature, ""), SkipEvent(signature, None, "missing_mint")])
    case Some(mint) =>
      var intake := IntakeEvent(signature, mint);
      var fetch := FetchTokenMetrics(mint);
      match fetchTokenMetrics(mint)
      case Err(e) =>
        Trace(Err(Moralis(e)), [fetch], [intake, ExternalApiError(signature, mint, e, "moralis")])
      case Ok(metrics) =>
        match metrics.marketCapUsd
        case None =>
          Trace(Ok(()), [fetch], [intake, SkipEvent(signature, Some(mint), "missing_market_cap")])
        case Some(cap) =>
          match Evaluate(a.capFilter, cap)
          case Fail(reason) =>
            Trace(Ok(()), [fetch], [intake, FilterDecision(signature, mint, cap, "fail", reason)])
          case Pass =>
            var decision := FilterDecision(signature, mint, cap, "pass", "within_range");
            var delivery := Delivery(a, mint, signature, cap, metrics.priceUsd, sendMessage);
            Trace(delivery.result, [fetch] + delivery.calls, [intake, decision] + delivery.logs)
  }

  /** The webhook passes every gate: it has a mint, the fetch succeeds, the
      metrics carry a market cap and the cap lies within the bounds. */
  ghost predicate Admitted(
    a: Analyzer, event: HeliusWebhook, fetchTokenMetrics: string -> Result<TokenMetrics, MoralisError>)
  {
    && PrimaryMint(event).Some?
    && fetchTokenMetrics(PrimaryMint(event).value).Ok?
    && fetchTokenMetrics(PrimaryMint(event).value).value.marketCapUsd.Some?
    && WithinBounds(a.capFilter.bounds, fetchTokenMetrics(PrimaryMint(event).value).value.marketCapUsd.value)
  }

  /** No mint: skipped with `missing_mint`, nothing called. */
  lemma SkipsWithoutMint(
    a: Analyzer, event: HeliusWebhook,
    fetchTokenMetrics: string -> Result<TokenMetrics, MoralisError>,
    sendMessage: (string, string) -> Result<(), TelegramError>)
    requires PrimaryMint(event).None?
    ensures Process(a, event, fetchTokenMetrics, sendMessage)
      == Trace(Ok(()), [], [IntakeEvent(event.signature, ""), SkipEvent(event.signature, None, "missing_mint")])
  {
  }

  /** The fetch failed: the Moralis error propagates, nothing is sent. */
  lemma FetchErrorPropagates(
    a: Analyzer, event: HeliusWebhook,
    fetchTokenMetrics: string -> Result<TokenMetrics, MoralisError>,
    sendMessage: (string, string) -> Result<(), TelegramError>)
    requires PrimaryMint(event).Some? && fetchTokenMetrics(PrimaryMint(event).value).Err?
    ensures var mint := PrimaryMint(event).value;
      var e := fetchTokenMetrics(mint).error;
      Process(a, event, fetchTokenMetrics, sendMessage)
        == Trace(Err(Moralis(e)), [FetchTokenMetrics(mint)],
                 [IntakeEvent(event.signature, mint), ExternalApiError(event.signature, mint, e, "moralis")])
  {
  }

  /** No market cap: skipped with `missing_market_cap`, nothing sent. */
  lemma SkipsWithoutMarketCap(
    a: Analyzer, event: HeliusWebhook,
    fetchTokenMetrics: string -> Result<TokenMetrics, MoralisError>,
    sendMessage: (string, string) -> Result<(), TelegramError>)
    requires PrimaryMint(event).Some? && fetchTokenMetrics(PrimaryMint(event).value).Ok?
    requires fetchTokenMetrics(PrimaryMint(event).value).value.marketCapUsd.None?
    ensures var mint := PrimaryMint(event).value;
      Process(a, event, fetchTokenMetrics, sendMessage)
        == Trace(Ok(()), [FetchTokenMetrics(mint)],
                 [IntakeEvent(event.signature, mint), SkipEvent(event.signature, Some(mint), "missing_market_cap")])
  {
  }

  /** Market cap out of range: a "fail" decision, nothing sent. */
  lemma RejectsOutOfRange(
    a: Analyzer, event: HeliusWebhook,
    fetchTokenMetrics: string -> Result<TokenMetrics, MoralisError>,
    sendMessage: (string, string) -> Result<(), TelegramError>)
    requires PrimaryMint(event).Some? && fetchTokenMetrics(PrimaryMint(event).value).Ok?
    requires fetchTokenMetrics(PrimaryMint(event).value).value.marketCapUsd.Some?
    requires !WithinBounds(a.capFilter.bounds, fetchTokenMetrics(PrimaryMint(event).value).value.marketCapUsd.value)
    ensures var mint := PrimaryMint(event).value;
      var cap := fetchTokenMetrics(mint).value.marketCapUsd.value;
      Process(a, event, fetchTokenMetrics, sendMessage)
        == Trace(Ok(()), [FetchTokenMetrics(mint)],
                 [IntakeEvent(event.signature, mint), FilterDecision(event.signature, mint, cap, "fail", OutOfCapRange)])
  {
  }

  /** Market cap in range: exactly one alert goes to the configured chat, and
      the event fails exactly when the delivery does. */
  lemma AlertsWithinRange(
    a: Analyzer, event: HeliusWebhook,
    fetchTokenMetrics: string -> Result<TokenMetrics, MoralisError>,
    sendMessage: (string, string) -> Result<(), TelegramError>)
    requires Admitted(a, event, fetchTokenMetrics)
    ensures var mint := PrimaryMint(event).value;
      var metrics := fetchTokenMetrics(mint).value;
      var text := AlertText(mint, event.signature, metrics.marketCapUsd.value, metrics.priceUsd);
      var sent := sendMessage(a.chatId, text);
      var decision := FilterDecision(event.signature, mint, metrics.marketCapUsd.value, "pass", "within_range");
      var t := Process(a, event, fetchTokenMetrics, sendMessage);
      && t.calls == [FetchTokenMetrics(mint), SendMessage(a.chatId, text)]
      && (t.result.Ok? <==> sent.Ok?)
      && (sent.Ok? ==> t.logs == [IntakeEvent(event.signature, mint), decision])
      && (sent.Err? ==> t.result == Err(Telegram(sent.error))
                        && t.logs == [IntakeEvent(event.signature, mint), decision,
                                      AlertDeliveryFailed(event.signature, mint, sent.error, "telegram")])
  {
  }

  /** An admitted event: the intake, the "pass" decision, then the delivery. */
  lemma AdmittedAlerts(
    a: Analyzer, event: HeliusWebhook,
    fetchTokenMetrics: string -> Result<TokenMetrics, MoralisError>,
    sendMessage: (string, string) -> Result<(), TelegramError>)
    requires Admitted(a, event, fetchTokenMetrics)
    ensures var mint := PrimaryMint(event).value;
      var metrics := fetchTokenMetrics(mint).value;
      var cap := metrics.marketCapUsd.value;
      var delivery := Delivery(a, mint, event.signature, cap, metrics.priceUsd, sendMessage);
      Process(a, event, fetchTokenMetrics, sendMessage)
        == Trace(delivery.result, [FetchTokenMetrics(mint)] + delivery.calls,
                 [IntakeEvent(event.signature, mint), FilterDecision(event.signature, mint, cap, "pass", "within_range")]
                 + delivery.logs)
  {
  }

  /** Every event is logged at intake first, and the last log event is an
      error exactly when the result is one: a skip or a decision never ends
      the log on an error. */
  lemma LastLogTellsErrors(
    a: Analyzer, event: HeliusWebhook,
    fetchTokenMetrics: string -> Result<TokenMetrics, MoralisError>,
    sendMessage: (string, string) -> Result<(), TelegramError>)
    ensures var t := Process(a, event, fetchTokenMetrics, sendMessage);
      && |t.logs| >= 2 && t.logs[0] == IntakeEvent(event.signature, PrimaryMint(event).GetOr(""))
      && (t.result.Err? <==> t.logs[|t.logs| - 1].Level() == Error)
  {
  }

  /** An alert is attempted exactly when the event is admitted, and a
      fetch is the first call whenever there is a mint. */
  lemma DeliveryExactlyWhenAdmitted(
    a: Analyzer, event: HeliusWebhook,
    fetchTokenMetrics: string -> Result<TokenMetrics, MoralisError>,
    sendMessage: (string, string) -> Result<(), TelegramError>)
    ensures var t := Process(a, event, fetchTokenMetrics, sendMessage);
      && (PrimaryMint(event).Some? ==> |t.calls| >= 1 && t.calls[0] == FetchTokenMetrics(PrimaryMint(event).value))
      && (DeliveryAttempted(t.calls) <==> Admitted(a, event, fetchTokenMetrics))
  {
    var t := Process(a, event, fetchTokenMetrics, sendMessage);
    if Admitted(a, event, fetchTokenMetrics) {
      AlertsWithinRange(a, event, fetchTokenMetrics, sendMessage);
      assert t.calls[1].SendMessage?;
    }
  }

  /** Process one webhook. `fetchTokenMetrics` and `sendMessage` stand for the
      two remote clients; the result, the calls and the log events are those
      of the decision table `Process`. */
  method ProcessEvent(
    a: Analyzer, event: HeliusWebhook,
    fetchTokenMetrics: string -> Result<TokenMetrics, MoralisError>,
    sendMessage: (string, string) -> Result<(), TelegramError>)
    returns (r: Result<(), AnalyzerError>, calls: seq<Call>, logs: seq<LogEvent>)
    ensures Trace(r, calls, logs) == Process(a, event, fetchTokenMetrics, sendMessage)
  {
    var signature := event.signature;
    var maybeMint := PrimaryMint(event);
    calls := [];
    logs := [IntakeEvent(signature, maybeMint.GetOr(""))];

    if maybeMint.None? {
      logs := logs + [SkipEvent(signature, None, "missing_mint")];
      r := Ok(());
      SkipsWithoutMint(a, event, fetchTokenMetrics, sendMessage);
      return;
    }
    var mint := maybeMint.value;

    calls := calls + [FetchTokenMetrics(mint)];
    var fetched := fetchTokenMetrics(mint);
    if fetched.Err? {
      logs := logs + [ExternalApiError(signature, mint, fetched.error, "moralis")];
      r := Err(Moralis(fetched.error));
      FetchErrorPropagates(a, event, fetchTokenMetrics, sendMessage);
      return;
    }
    var metrics := fetched.value;

    if metrics.marketCapUsd.None? {
      logs := logs + [SkipEvent(signature, Some(mint), "missing_market_cap")];
      r := Ok(());
      SkipsWithoutMarketCap(a, event, fetchTokenMetrics, sendMessage);
      return;
    }
    var marketCap := metrics.marketCapUsd.value;

    match Evaluate(a.capFilter, marketCap) {
      case Pass =>
        logs := logs + [FilterDecision(signature, mint, marketCap, "pass", "within_range")];
        assert calls == [FetchTokenMetrics(mint)];
        assert logs == [IntakeEvent(signature, mint), FilterDecision(signature, mint, marketCap, "pass", "within_range")];
        var sent, sendCalls, sendLogs := SendAlert(a, mint, signature, metrics, marketCap, sendMessage);
        calls := calls + sendCalls;
        logs := logs + sendLogs;
        AdmittedAlerts(a, event, fetchTokenMetrics, sendMessage);
        if sent.Err? {
          r := sent;
          return;
        }
        r := Ok(());
        return;
      case Fail(reason) =>
        logs := logs + [FilterDecision(signature, mint, marketCap, "fail", reason)];
        r := Ok(());
        RejectsOutOfRange(a, event, fetchTokenMetrics, sendMessage);
        return;
    }
  }
}
