/** What the market-data client hands back to the analyzer. The HTTP request
    itself is not modelled: the analyzer receives its outcome from an oracle. */
module Moralis {
  import opened Wrappers

  /** Price and market cap in USD; either may be missing from the response. */
  datatype TokenMetrics = TokenMetrics(priceUsd: Option<real>, marketCapUsd: Option<real>)

  /** Transport failure (connection, timeout, undecodable body) or a
      non-success HTTP status. */
  datatype MoralisError = Transport(detail: string) | HttpStatus(status: nat)
}
