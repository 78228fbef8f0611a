# WASSY Pay mention bot — a Dafny model of its payment pipeline

The bot watches the mentions of its account on X. A mention such as
`send @bob $5` is a payment command. The bot checks that the sender and the recipient
have WASSY Pay profiles on the backend, asks the backend to transfer the amount, and
replies to the mention with the result. The bot polls the mention timeline in cycles
and keeps a watermark, `lastMentionId`, so that a mention is not fetched again.

The model covers the core of `bot.js`:

- `CommandPattern` (`pattern.dfy`): the command pattern
  `/send\s*@(\w+)\s*\$?([\d.]+)/i`, run on the lower-cased text with JavaScript's
  matching rules. The engine takes the leftmost start. At that start its greedy
  quantifiers backtrack, so the first match tried wins. `IsMatch` says when a span is
  a match. `Outranks` is the order in which the backtracking tries spans. The search
  functions `TryAmount` … `Exec` are proved to return the least-start, highest-ranked
  match. So `"send @bob12"` gives the handle `bob1` and the amount `2`.
- `CommandExamples` (`pattern_examples.dfy`): concrete mentions through the parser,
  and the fact that a command needs a digit or a dot.
- `Replies` (`replies.dfy`): how the transfer endpoint's answer maps to an outcome,
  and the reply texts.
- `Handler` (`handler.dfy`): `handleCommand`. The profile checks, the transfer and the
  reply go through an abstract `Backend`. Each call to the outside world is recorded
  as an `Effect`, and a throw is recorded as `threw`.
- `Polling` (`polling.dfy`): one run of `pollMentions`. The `Poller` class holds
  `lastMentionId`. `PollOnce` reverses the fetched page in place (an `array`), handles
  the mentions oldest first in a loop, and moves the watermark.

In `bot.js`, `handleCommand` has no `try`/`catch`. A throw there (a network error, a body that is
not JSON, a mention without an `author` object) leaves the `for` loop. The catch in
`pollMentions` then only logs it, so the rest of the page is skipped and the watermark
stays where it was. The model follows `bot.js` (`ThrowAbortsCycle`). Mentions handled
before the throw, transfers included, are fetched and handled again in the next cycle.

## Model

| member | source | states |
|---|---|---|
| CommandPattern.Lower | bot.js:44 | `toLowerCase` keeps the length, turns each of `A`–`Z` into the matching `a`–`z`, and leaves every other character as it is |
| CommandPattern.Run | bot.js:47 | the run of one character class from a position: all its characters are in the class and the next one is not |
| CommandPattern.RunIsLongest | bot.js:47 | no run of the class from that position is longer than `Run` |
| CommandPattern.TryAmount | bot.js:47 | `([\d.]+)` after a fixed prefix returns a match exactly when one exists with that prefix, and it outranks all of them |
| CommandPattern.TryDollar | bot.js:47 | `\$?` tries the dollar sign taken first; the result outranks every match with the same handle and gap |
| CommandPattern.TryGap | bot.js:47 | `\s*` after the handle, from the longest gap down; the result outranks every match with at most that gap |
| CommandPattern.TryHandle | bot.js:47 | `(\w+)` from `h` characters down to one; the result outranks every match whose handle is at most `h` long |
| CommandPattern.TryAtSign | bot.js:47 | with `@` after the leading spaces, the handle starts from the whole word run; the result outranks every match with that many leading spaces |
| CommandPattern.TryLead | bot.js:47 | `\s*` between `send` and `@`, from the longest down; the result outranks every match with at most that many spaces |
| CommandPattern.MatchAt | bot.js:47 | the match found at one start exists exactly when some match starts there, and it outranks all matches starting there |
| CommandPattern.Exec | bot.js:47-48 | the match returned has the least start of all matches and outranks the others at that start; none is returned only when no match starts at or after the position |
| CommandPattern.ParseCommand | bot.js:44-52 | a command is parsed exactly when the lower-cased text matches; the handle is non-empty and only `[a-z0-9_]`, the amount is non-empty and only digits and `.` |
| CommandPattern.MatchGroups | bot.js:51-52 | the two groups of any match in a lower-cased text lie inside the text, with lower-case handle characters and amount characters |
| CommandPattern.WholeRunMatch | bot.js:47 | the whole word run followed by spaces, an optional `$` and an amount character is a match |
| CommandPattern.WholeRunBeforeAmount | bot.js:47 | when spaces and an amount character follow the whole word run, the reported handle is that whole run |
| CommandPattern.WholeRunBeforeDollar | bot.js:47 | when spaces, `$` and an amount character follow the whole word run, the reported handle is that whole run |
| CommandPattern.WholeRunWhenAmountFollows | bot.js:47 | the handle is the longest word run whenever an amount can follow it |
| CommandPattern.CutHandleEndsBeforeDigit | bot.js:47 | a handle shorter than its word run is followed at once by a digit that starts the amount, with no gap and no `$` |
| CommandPattern.NoLaterDigitInRun | bot.js:47 | a cut handle gives up as little as possible: the rest of the word run after the amount's first digit has no digit |
| CommandPattern.OutranksIsAntisymmetric | bot.js:47 | two different matches at one start are never tried in both orders |
| CommandPattern.ReportedIsUnique | bot.js:47-48 | at most one match is the reported one |
| CommandPattern.ParseCommandReadsReportedMatch | bot.js:47-52 | the parsed handle and amount are the two groups of the reported match |
| CommandPattern.SomeMatchIsReported | bot.js:47-48 | whenever some match exists, a reported match exists |
| CommandExamples.MatchHasAmountChar | bot.js:47 | every match has a digit or a dot of the original text where its amount starts |
| CommandExamples.CommandNeedsAmountChar | bot.js:47-49 | a text that parses to a command holds a digit or a dot |
| CommandExamples.ParseWithoutAmount | bot.js:47-49 | `"send @bob"` is not a command |
| CommandExamples.ParseBob12 | bot.js:47-52 | `"send @bob12"` parses to handle `bob1` and amount `2` |
| CommandExamples.ParseBob5 | bot.js:47-52 | `"send @bob $5"` parses to handle `bob` and amount `5` |
| CommandExamples.ParseAlice | bot.js:44-52 | `"SEND @Alice 7"` parses to handle `alice` and amount `7` |
| Replies.FailureReason | bot.js:89 | the failure reason is the body's message when it is present and non-empty, otherwise `unknown error` |
| Replies.Classify | bot.js:84-90 | sent exactly when the status is 200 and `success` holds; insufficient funds exactly when the status is 402; failed otherwise, with the failure reason |
| Replies.Compose | bot.js:84-90 | each outcome's reply starts with its own mark (check mark, warning sign, cross); a completed transfer's confirmation contains `$` with the amount and `@` with the recipient, insufficient funds gives exactly the top-up notice, and a failure notice contains its reason |
| Replies.SentReplyNamesAmountAndHandle | bot.js:85 | the confirmation contains `$` followed by the amount and `@` followed by the recipient |
| Replies.FailedReplyNamesReason | bot.js:89 | the failure reply contains its reason |
| Replies.PaymentRequiredIgnoresBody | bot.js:86-87 | status 402 gives the insufficient-funds reply whatever the body's `success` and `message` are |
| Handler.DropFirstAt | bot.js:56 | `replace("@", "")` removes the first `@` only and keeps everything else in order |
| Handler.SenderHandle | bot.js:56 | reading the sender throws exactly when the mention has no `author`; otherwise it is the author's username with its first `@` removed when that is present and non-empty, and the tweet's own `username` (possibly absent) in every other case |
| Handler.Show | bot.js:60 | a sender that is absent renders as `undefined` inside a reply text, a present one as itself (also bot.js:57, 68, 85, 87) |
| Handler.SenderHandleStripsAt | bot.js:56 | the username `@name` gives the sender `name` |
| Handler.HandleCommand | bot.js:43-91 | the awaited steps with their early returns make exactly the effects `CommandEffects` describes |
| Handler.NoCommandNoEffect | bot.js:47-49 | text without a command causes no profile check, no transfer and no reply |
| Handler.OneReplyUnlessThrown | bot.js:57-90 | once the checks start, a handling that does not throw ends with exactly one reply, its last effect; one that throws sends none |
| Handler.OneReplyPerCommand | bot.js:43-91 | a mention gets one reply when it holds a command and its handling does not throw, and none otherwise |
| Handler.SenderRefused | bot.js:57-62 | a refused sender gets only the account-creation reply: the recipient is not checked and nothing is transferred |
| Handler.RecipientRefused | bot.js:65-70 | a refused recipient gets one reply naming `@handle`, after both checks, and nothing is transferred |
| Handler.TransferOnlyAfterBothChecks | bot.js:57-81 | a transfer happens exactly when both checks pass; it comes third, after the sender's and the recipient's checks, and carries the sender, the handle and the amount |
| Handler.DispatchedReply | bot.js:83-90 | after a transfer that returns, the fourth and last effect is the reply composed from the response's outcome |
| Handler.ReplyFailureIsSwallowed | bot.js:33-40 | whether the platform accepts a reply changes neither the effects made nor whether the handling throws; the `catch` is built into the abstraction, since a reply's answer is only a delivered flag that cannot throw |
| Polling.ReversedIsOldestFirst | bot.js:103 | a page of mentions ordered newest first is ordered oldest first once reversed |
| Polling.Reverse | bot.js:103 | `reverse()` leaves the array holding its old contents back to front |
| Polling.SequentialStopsAtFirstThrow | bot.js:104-107 | a batch throws exactly when one of its mentions throws; it makes the effects of every mention up to the first throw, and of all mentions when none throws |
| Polling.SequentialSnoc | bot.js:104-107 | handling one more mention after a batch that did not throw appends that mention's effects |
| Polling.SequentialAfterThrow | bot.js:104-107 | after a throw, later mentions are not handled |
| Polling.SequentialStep | bot.js:104-107 | one turn of the loop: the next mention's effects are appended, and if it throws the batch ends there |
| Polling.HandleInOrder | bot.js:104-107 | the `for … of` loop makes the effects of the handlings in array order, up to and including the first throw |
| Polling.SinceId | bot.js:97 | `since_id` is the watermark when it is set and non-empty, and absent otherwise |
| Polling.Poller.constructor | bot.js:30 | the watermark starts unset |
| Polling.Poller.PollOnce | bot.js:94-117 | one cycle asks for `SinceId` of the watermark, makes the effects of the page handled oldest first, and moves the watermark as `NextWatermark` says |
| Polling.WatermarkMovesOnlyAfterWholePage | bot.js:102-108 | the watermark changes only after a non-empty page whose every mention was handled without a throw, and then it becomes `meta.newest_id` |
| Polling.CleanPageMovesWatermark | bot.js:102-108 | a non-empty page handled without a throw moves the watermark to `meta.newest_id`, even when that is absent, and makes every mention's effects |
| Polling.ThrowAbortsCycle | bot.js:94-113 | when a mention throws, the later mentions are skipped and the watermark stays, but the effects of the earlier ones (transfers included) have happened |
| Polling.PageOutcomesOldestFirst | bot.js:103-106 | the `k`-th mention handled is the `k`-th from the end of the fetched page |
| Polling.NothingFetchedNothingChanges | bot.js:102-113 | a failed fetch or an empty page leaves the watermark and makes no effect |

The reply texts (`AccountMissingReply`, `RecipientMissingReply`, `SentReply`,
`InsufficientFundsReply`, `FailedReply`, bot.js:60, 68, 85, 87, 89) and the
specification functions `CommandEffects`, `CheckAndDispatch`, `Sequential`, `CycleEffects`
and `NextWatermark` are definitions that the lemmas above are about.

## Left out

- `utils.js` (`log`): a clock read, console output and a file append, with no logic.
- The X client, `node-fetch`, `.json()` decoding and the environment loading
  (bot.js:1-23) are not modelled. Their answers are inputs: `Backend` per mention and
  the fetched `Page` per cycle. A network or decoding error is a `Threw` answer.
- Console logging (bot.js:29, 36, 38, 53, 105, 110, 113) is not modelled.
- `setTimeout` rescheduling and the endless loop (bot.js:115, 120): `PollOnce` models
  one cycle, and the watermark carries over between calls.
- ParseCommand: `parseFloat` (bot.js:52) is not modelled. The amount stays the
  matched literal. So the transfer body and the confirmation carry `05` or `1.2.3`
  where the bot sends the numbers `5` and `1.2`. For a lone `.` the bot's transfer
  body carries `null` (how `JSON.stringify` writes `NaN`) and its confirmation shows
  `$NaN`; the model carries `.` in both.
- Lower: `toLowerCase` is modelled on ASCII letters only. Non-ASCII case
  mappings are left out, for example U+212A KELVIN SIGN, which lower-cases to `k`
  and so could join a handle.
- Characters are Dafny `char`s, not UTF-16 code units. A surrogate pair counts as
  one character here.
- The `success` and `message` fields of a JSON body are modelled as a boolean
  (truthiness) and an optional string. Other JSON value types are not modelled.
- `fromTwitterId` is modelled as omitted from the transfer body when the sender is
  undefined (`Transfer(None, …)`). In that case the query string and the replies
  show `undefined` (`Show`).
