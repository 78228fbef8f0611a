/**
  The replies the bot posts, and how the answer of the transfer endpoint is turned
  into one of three outcomes.
*/
module Replies {
  import opened Wrappers

  /**
    What the transfer endpoint answered: the HTTP status, whether the body's `success`
    field is truthy, and the body's `message` field when it has one.
  */
  datatype TransferResponse = TransferResponse(status: int, success: bool, message: Option<string>)

  /** The three outcomes a dispatched transfer can have. */
  datatype TransferOutcome = Sent | InsufficientFunds | Failed(reason: string)

  const UNKNOWN_ERROR := "unknown error"

  /** `data.message || "unknown error"`: an absent or empty message gives the fallback. */
  function FailureReason(message: Option<string>): (r: string)
    ensures r != ""
    ensures message.Some? && message.value != "" ==> r == message.value
    ensures message.None? || message.value == "" ==> r == UNKNOWN_ERROR
  {
    if message.Some? && message.value != "" then message.value else UNKNOWN_ERROR
  }

  /**
    Status 200 with a truthy `success` is a completed transfer; otherwise status 402 is
    insufficient funds whatever the body says; anything else is a failure.
  */
  function Classify(resp: TransferResponse): (o: TransferOutcome)
    ensures o.Sent? <==> resp.status == 200 && resp.success
    ensures o.InsufficientFunds? <==> resp.status == 402
    ensures o.Failed? <==> resp.status != 402 && !(resp.status == 200 && resp.success)
    ensures o.Failed? ==> o.reason == FailureReason(resp.message)
  {
    if resp.status == 200 && resp.success then Sent
    else if resp.status == 402 then InsufficientFunds
    else Failed(FailureReason(resp.message))
  }

  // ---------------------------------------------------------------------------
  // Message texts

  const ACCOUNT_MISSING := " You must create a WASSY account on dev.fun before sending payments."
  const RECIPIENT_MISSING := " has no WASSY Pay account yet."
  const SENT_MARK := "\U{2705} @"
  const INSUFFICIENT_FUNDS_MARK := "\U{26A0}\U{FE0F} @"
  const INSUFFICIENT_FUNDS := " Insufficient funds. Top up your vault first."
  const FAILED_MARK := "\U{274C} Payment failed: "

  function AccountMissingReply(sender: string): string {
    "@" + sender + ACCOUNT_MISSING
  }

  function RecipientMissingReply(sender: string, handle: string): string {
    "@" + sender + " The recipient @" + handle + RECIPIENT_MISSING
  }

  function SentReply(sender: string, amount: string, handle: string): string {
    SENT_MARK + sender + " sent $" + amount + " USDC to @" + handle + " via WASSY Pay!"
  }

  function InsufficientFundsReply(sender: string): string {
    INSUFFICIENT_FUNDS_MARK + sender + INSUFFICIENT_FUNDS
  }

  function FailedReply(reason: string): string {
    FAILED_MARK + reason
  }

  /** The reply posted once a transfer was dispatched. */
  function Compose(o: TransferOutcome, sender: string, amount: string, handle: string): (m: string)
    ensures |m| > 0
    ensures o.Sent? ==> m[0] == '\U{2705}'
    ensures o.InsufficientFunds? ==> m[0] == '\U{26A0}'
    ensures o.Failed? ==> m[0] == '\U{274C}'
    ensures o.Sent? ==> Contains(m, "$" + amount) && Contains(m, "@" + handle)
    ensures o.InsufficientFunds? ==> m == InsufficientFundsReply(sender)
    ensures o.Failed? ==> Contains(m, o.reason)
  {
    match o
    case Sent =>
      SentReplyNamesAmountAndHandle(sender, amount, handle);
      SentReply(sender, amount, handle)
    case InsufficientFunds => InsufficientFundsReply(sender)
    case Failed(reason) =>
      FailedReplyNamesReason(reason);
      FailedReply(reason)
  }

  // ---------------------------------------------------------------------------
  // What a reply tells its reader

  /** `sub` occurs in `s` starting at index `k`. */
  predicate OccursAt(s: string, sub: string, k: int) {
    0 <= k && k + |sub| <= |s| && s[k..k + |sub|] == sub
  }

  /** `sub` occurs in `s`. */
  ghost predicate Contains(s: string, sub: string) {
    exists k :: OccursAt(s, sub, k)
  }

  /** The confirmation names the amount after `$` and the recipient after `@`. */
  lemma SentReplyNamesAmountAndHandle(sender: string, amount: string, handle: string)
    ensures Contains(SentReply(sender, amount, handle), "$" + amount)
    ensures Contains(SentReply(sender, amount, handle), "@" + handle)
  {
    var m := SentReply(sender, amount, handle);
    var head := SENT_MARK + sender + " sent ";
    var middle := head + "$" + amount + " USDC to ";
    assert m == head + ("$" + amount) + " USDC to @" + handle + " via WASSY Pay!";
    assert OccursAt(m, "$" + amount, |head|);
    assert m == middle + ("@" + handle) + " via WASSY Pay!";
    assert OccursAt(m, "@" + handle, |middle|);
  }

  /** The failure notice carries the reason it was given. */
  lemma FailedReplyNamesReason(reason: string)
    ensures Contains(FailedReply(reason), reason)
  {
    assert OccursAt(FailedReply(reason), reason, |FAILED_MARK|);
  }

  /** Status 402 gives the insufficient-funds reply whatever the body holds. */
  lemma PaymentRequiredIgnoresBody(success: bool, message: Option<string>, sender: string, amount: string, handle: string)
    ensures Compose(Classify(TransferResponse(402, success, message)), sender, amount, handle) == InsufficientFundsReply(sender)
  {
  }
}
