/** The configuration values the analyzer is built from.
    The repository's config file does not declare these types; their shape is
    the one the analyzer uses (two optional bounds, and the six settings read
    when an analyzer is built). */
module Config {
  import opened Wrappers

  /** Optional lower and upper market-cap bounds, in USD. */
  datatype MarketCapBounds = MarketCapBounds(min: Option<real>, max: Option<real>)

  datatype AppConfig = AppConfig(
    moralisApiKey: string,
    moralisBaseUrl: string,
    telegramBotToken: string,
    telegramApiBase: string,
    telegramChatId: string,
    marketCapBounds: MarketCapBounds)
}
