/** The inbound transaction webhook and the extraction of its primary mint. */
module Helius {
  import opened Wrappers

  /** One token transfer; only `mint` is required in the payload. */
  datatype TokenTransfer = TokenTransfer(
    mint: string,
    fromUserAccount: Option<string>,
    toUserAccount: Option<string>,
    tokenAmount: Option<real>)

  datatype HeliusEvents = HeliusEvents(tokenTransfers: seq<TokenTransfer>)

  datatype HeliusWebhook = HeliusWebhook(signature: string, events: HeliusEvents)

  /** The value a missing `events` (or a missing `tokenTransfers`) takes when
      the payload is decoded: no transfers. */
  function DefaultEvents(): HeliusEvents {
    HeliusEvents([])
  }

  /** The mint of the first token transfer, if there is one. */
  function PrimaryMint(w: HeliusWebhook): (r: Option<string>)
    ensures r.None? <==> w.events.tokenTransfers == []
    ensures r.Some? ==> r.value == w.events.tokenTransfers[0].mint
  {
    First(w.events.tokenTransfers).Map((t: TokenTransfer) => t.mint)
  }

  /** Only the first transfer's mint matters: the signature, the first
      transfer's accounts and amount, and every later transfer are ignored. */
  lemma PrimaryMintDependsOnlyOnFirstMint(w: HeliusWebhook, w': HeliusWebhook)
    requires w.events.tokenTransfers != [] && w'.events.tokenTransfers != []
    requires w.events.tokenTransfers[0].mint == w'.events.tokenTransfers[0].mint
    ensures PrimaryMint(w) == PrimaryMint(w')
  {
  }

  /** A webhook whose transfer list was defaulted has no primary mint. */
  lemma DefaultedEventsHaveNoMint(signature: string)
    ensures PrimaryMint(HeliusWebhook(signature, DefaultEvents())) == None
  {
  }
}
