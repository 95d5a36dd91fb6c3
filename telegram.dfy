/** What the messaging client hands back to the analyzer. The HTTP request
    itself is not modelled: the analyzer receives its outcome from an oracle. */
module Telegram {

  /** Transport failure or a non-success HTTP status. */
  datatype TelegramError = Transport(detail: string) | HttpStatus(status: nat)
}
