# solana_monitor: the alert pipeline, modelled in Dafny

The repository relays Solana transaction webhooks to a Telegram chat. For each
webhook it does five things in order:

1. It takes the mint of the first token transfer (the *primary mint*).
2. It fetches that token's price and market cap from Moralis.
3. It requires a market cap.
4. It runs the market-cap filter. The filter has an optional inclusive lower
   bound and an optional inclusive upper bound.
5. When the filter passes, it sends one alert message.

There are three silent skips: no mint, no market cap, and a filter rejection.
There are two propagated errors: the fetch failed (`AnalyzerError::Moralis`)
or the delivery failed (`AnalyzerError::Telegram`).

This project models that pipeline and proves its decision table.

- `wrappers.dfy` (`Wrappers`): `Option`, `Result`, `first` and `map`.
- `helius.dfy` (`Helius`): the webhook, its events and transfers, and `PrimaryMint`.
- `moralis.dfy`, `telegram.dfy`: only what the two clients return. This is the
  `TokenMetrics` record with two optional numbers, and each client's error
  (a transport failure or a non-success HTTP status).
- `config.dfy` (`Config`): `MarketCapBounds` and `AppConfig`. The repository's
  `config.rs` does not declare these types. Their shape is taken from how
  `src/analyzer.rs` uses them.
- `decimal.dfy` (`Decimal`): how Rust's `{:.2}` and `{:.6}` print a number.
  The value is rounded to the nearest unit of the last place, ties to even.
  The output is an optional `-`, the integer part, a point and exactly N
  digits. The module also reads such a text back.
- `analyzer.dfy` (`Analyzer`): the filter, the alert text and the two methods
  `ProcessEvent` and `SendAlert`. The Moralis fetch and the Telegram send are
  oracles: functions from their arguments to an `Ok`/`Err` outcome. Each
  method returns three things: its result, the list of remote calls it made,
  and the structured log events it emitted.

Market caps, prices and bounds are `real`. The source only compares market
caps; it never computes them.

## Model

| member | source | states |
|---|---|---|
| `Helius.PrimaryMint` | src/helius.rs:31-37 | The result is absent exactly when `token_transfers` is empty. Otherwise it is the `mint` of element 0. It is a function, so it cannot change the webhook. |
| `Helius.PrimaryMintDependsOnlyOnFirstMint` | src/helius.rs:21-37 | Two webhooks whose first transfers have the same mint have the same primary mint. The signature, the first transfer's accounts and amount, and all later transfers do not matter. |
| `Helius.DefaultedEventsHaveNoMint` | src/helius.rs:7-15 | A webhook whose `events`/`tokenTransfers` were defaulted to an empty list has no primary mint. |
| `Analyzer.Evaluate` | src/analyzer.rs:152-170 | `Pass` exactly when (no min or `m >= min`) and (no max or `m <= max`). Every other outcome is `Fail("out_of_cap_range")`, whichever bound was broken. |
| `Analyzer.ClosedRange` | src/analyzer.rs:153-167 | With bounds `[lo, hi]`, a market cap passes exactly when `lo <= m <= hi`. |
| `Analyzer.BoundsAreInclusive` | src/analyzer.rs:154-166 | With `lo <= hi`, `lo` and `hi` pass. For any positive ε, `lo - ε` and `hi + ε` fail with `"out_of_cap_range"`. |
| `Analyzer.OpenLowerBound` | src/analyzer.rs:233-242 | With only a max, `m` passes exactly when `m <= max`, for every `m` including 0 and negative values. |
| `Analyzer.OpenUpperBound` | src/analyzer.rs:244-259 | With only a min, `m` passes exactly when `min <= m`. |
| `Analyzer.NoBoundsPassEverything` | src/analyzer.rs:169 | With neither bound, every market cap passes. |
| `Analyzer.FilterUnitTests` | src/analyzer.rs:191-259 | Each concrete case in the repository's five filter tests gives the expected outcome. |
| `Analyzer.New` | src/analyzer.rs:19-32 | The analyzer sends to the configured chat id. Its filter passes exactly the market caps within the configured bounds. |
| `Analyzer.PriceLine` | src/analyzer.rs:118-121 | The price segment is `"n/a"` exactly when the price is absent. |
| `Analyzer.AlertText` | src/analyzer.rs:123-125 | The alert starts with `"Solana token alert"`. It contains the mint, the signature, and `"\nMarket cap (USD): "` followed by the market cap printed at two places. It ends with `"\nPrice (USD): "` followed by the price segment. |
| `Analyzer.AlertPriceNotAvailable` | src/analyzer.rs:118-125 | The alert ends in `"Price (USD): n/a"` exactly when the price is absent. |
| `Analyzer.DeliverySendsOnce` | src/analyzer.rs:127-138 | Delivering an alert makes exactly one send call, to the analyzer's chat id, with the alert text. The delivery is `Ok` exactly when the send succeeds, and then nothing is logged. Otherwise the result is `Err(Telegram(e))` and the only log event is `alert_delivery_failed` with source `telegram`. |
| `Analyzer.SendAlert` | src/analyzer.rs:111-139 | The result, the calls made and the log events are exactly those of the delivery described by `DeliverySendsOnce`, for the metrics' price. |
| `Analyzer.SkipsWithoutMint` | src/analyzer.rs:34-53 | No mint: `Ok`, no remote call, and the log is `intake_event` with an empty mint, then `skip_event` with reason `missing_mint`. |
| `Analyzer.FetchErrorPropagates` | src/analyzer.rs:56-67 | A failed fetch: `Err(Moralis(e))`, the fetch is the only call, and the log is `intake_event`, then `external_api_error` with source `moralis`. |
| `Analyzer.SkipsWithoutMarketCap` | src/analyzer.rs:70-81 | No market cap: `Ok`, the fetch is the only call, and the log is `intake_event`, then `skip_event` with reason `missing_market_cap`. |
| `Analyzer.RejectsOutOfRange` | src/analyzer.rs:96-105 | A market cap outside the bounds: `Ok`, the fetch is the only call, and the log is `intake_event`, then a `fail` decision with reason `out_of_cap_range`. |
| `Analyzer.AlertsWithinRange` | src/analyzer.rs:84-94 | A market cap within the bounds: the calls are the fetch, then one send of the alert to the configured chat. The result is `Ok` exactly when the send succeeds. The log is `intake_event`, the `pass` decision with reason `within_range`, and then `alert_delivery_failed` only when the send failed, with the result `Err(Telegram(e))`. |
| `Analyzer.LastLogTellsErrors` | src/analyzer.rs:34-109 | Every event logs at least two events, `intake_event` first. The result is an error exactly when the last log event is error-level. |
| `Analyzer.DeliveryExactlyWhenAdmitted` | src/analyzer.rs:44-106 | With a mint, the first call is the fetch for it. A send call is made exactly when the event has a mint, the fetch succeeds, a market cap is present and it passes the filter. |
| `Analyzer.ProcessEvent` | src/analyzer.rs:34-109 | The result, the full sequence of remote calls and the full sequence of log events are those of the decision table `Process`. The lemmas above state each branch of that table in full. |
| `Decimal.RoundHalfEven` | src/analyzer.rs:120 | The result is within 1/2 of the input. On an exact tie, it is the even neighbour. |
| `Decimal.NatDigitsValue` | src/analyzer.rs:124 | Reading back the decimal numeral of `n` gives `n`. |
| `Decimal.FormatFixedLayout` | src/analyzer.rs:120 | The text `FormatFixed` gives for `{:.N}` has an optional `-`, digits, a point and exactly N digits. It starts with `-` exactly when the value is negative. Its digits, read as one integer, are the absolute value in units of 10^-N, rounded half to even. |
| `Decimal.FormatFixedValue` | src/analyzer.rs:124 | Read back, the text `FormatFixed` gives is the value rounded half to even in units of 10^-N, divided by 10^N, with the value's sign. |
| `Decimal.SplitUnitsParts` | src/analyzer.rs:124 | Splitting a count of 10^-k units gives the integer part and a fraction part below 10^k, and together they make the count again. |
| `Decimal.FormatFixedIsNearest` | src/analyzer.rs:124 | Read back, the printed number is within half a unit of its last place of the value printed. |
| `Decimal.FormatFixed` | src/analyzer.rs:120-124 | The text of `{:.N}` (`{p:.6}` for the price, `{market_cap:.2}` for the cap) ends in a digit, so it is never `"n/a"`. It starts with `-` exactly when the value is negative. `FormatFixedLayout`, `FormatFixedValue` and `FormatFixedIsNearest` state the rest of its meaning. |
| `Decimal.PriceExample` | src/analyzer.rs:120 | A price of 0.0042 prints as `"0.004200"`. |
| `Decimal.MarketCapExample` | src/analyzer.rs:124 | A market cap of 250000 prints as `"250000.00"`. |

## Left out

- HTTP is not modelled. That covers `MoralisClient::fetch_token_metrics`,
  `TelegramClient::send_message`, request URLs, the API-key header, trimming
  of base URLs, and JSON decoding with its field aliases. Each client is an
  oracle that returns the same outcome shapes as the source.
- `Analyzer::new` also builds the two HTTP clients (`src/analyzer.rs:21-28`).
  `Analyzer.New` keeps only the chat id and the filter. The clients'
  credentials and base URLs belong to the oracles.
- `src/main.rs` is not modelled. It only binds an HTTP listener and prints each
  payload, and it never calls the analyzer.
- `src/config.rs` is not modelled. It holds unrelated hard-coded constants.
- Floating point is not modelled. Caps and prices are exact reals, so there is
  no NaN or infinity. In the source, a NaN market cap passes both bound
  checks, because every comparison with NaN is false.
- Decimal.FormatFixed: rounds the exact real value. Rust rounds the binary
  `f64` nearest to it, so printed digits can differ when that `f64` lies on
  the other side of a rounding tie. A negative value that rounds to zero is
  printed with its minus sign, as Rust prints it.
- Log events are structured records with their tag, level and fields.
  `tracing` output formatting, the `Debug` rendering of errors, async
  execution and cloning are not modelled.
- Multi-mint transactions: only the first transfer is considered, as in the
  source.
