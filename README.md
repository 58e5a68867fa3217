# xrpcharities-bot: the tip splitter, in Dafny

This project models the core of the XRP charity tip bot. The bot takes tips and
deposits from an MQTT feed and queues them. It splits each one evenly, in whole
drops, among the accounts the bot follows (the charities). It pays each
charity through the tip-bot API and then hands a tweet to the post queue. A
second timer pays out any leftover balance, but only when that balance divides
exactly among the charities.

Files and modules:

- `Wrappers.dfy` (`Wrappers`): the `Option` type shared by `Format` and `TwitterApi`.
- `Config.dfy` (`Config`): `Drops` = 1,000,000 drops per XRP, and `MaxXrpViaTip` = 500, which is the
  configured default. The per-call cap in drops is `TipCap`.
- `TipbotApi.dfy` (`TipbotApi`): how `sendTip` breaks a payment into capped calls (`SendTip`, specified by
  `Chunks`), and how `getBalance` maps a failed response to the `-1` XRP sentinel.
- `TwitterApi.dfy` (`TwitterApi`): the greeting lookup, and the post with at most one retry chosen by
  error code.
- `Format.dfy` (`Format`): how an amount of drops is printed as XRP in a tweet (what JavaScript prints for
  `drops / 1000000`), plus a parser proving that printing loses nothing.
- `Server.dfy` (`Server`): the share arithmetic, the tweet text, and the class `TipBot`. `TipBot` holds
  the module state of `server.ts` (`tipQueue`, `processingTip`, `processingRemaining`), the stored copy of
  the queue, and logs of the effects.

How the model represents the outside world:

- **Amounts.** All amounts are whole drops. A balance is in drops too, so the `-1` XRP returned on a
  failed read is `-1 * Drops`.
- **Effects.** Each `sendTip` the bot starts is appended to `TipBot.payments`. Each tweet handed to
  `pushToQueue` is appended to `TipBot.tweets`. The node-persist entry `tipQueue` is the field
  `TipBot.storedQueue`.
- **Inputs.** The balance response, what goes wrong in a step (`Fault`: the balance read raises, the
  promise of one `sendTip` rejects, or the storage write raises), the shuffle (an index permutation), the
  `Math.random` draw (a real in [0, 1)) and the hashtag text are all parameters.
- **Two halves per async function.** `splitTips` and `checkForRemainingBalance` each suspend at the
  balance read. Each is modelled as a tick method that runs up to that read (`SplitTips`,
  `CheckForRemainingBalance`) plus a continuation (`...AfterBalance`). The MQTT handler (`OnMessage`) and
  other ticks may run between the two. That is why the busy flags and the sweep's second queue check
  matter. Every method keeps `Valid()`, which says that the splitter and the sweep are never busy at
  once; so the sweep's re-check of `processingTip` always passes.

The model follows the code as written, including where a reader might expect otherwise:

- A tip the balance does not cover is dropped without a tweet (`src/server.ts:167-172`).
- A failed balance read (`-1`) takes that same branch, so the tip is dropped (`FailedBalanceDropsTip`).
- There are three tweet openings, not four. The cross-network opening uses `user_id` for discord users
  and `user` for everyone else.
- An exception thrown by the storage write comes after the in-memory queue has already advanced. In that
  case the tip is gone from memory, but the stored copy still holds it.
- A `sendTip` whose promise rejects never reaches the `catch` of its step: the step stalls for good with
  its busy flag set (`TipBot.stalled`), and from then on neither timer starts anything. This holds on a
  runtime where an unhandled rejection only warns; see "Findings" for Node 15 and later.
- A sweep of a balance of at most zero (`NothingToSplit`) and of a positive balance that does not divide
  evenly (`NotDivisible`) are told apart, as the code's two log lines tell them apart.

## Model

| member | source | states |
|---|---|---|
| `Server.CalculateDropsForEachCharity` | src/server.ts:262-269 | The share is 0 when there are fewer drops than charities. Otherwise it is the floor of the even split: positive, `share*n <= drops < (share+1)*n`. |
| `Server.SplitPaysAtMostTip` | src/server.ts:146-156 | Paying every charity its share pays out at most the tip, and leaves fewer than `n` drops behind. |
| `Server.TotalPaidEach` | src/server.ts:150-156 | A pay loop over all charities pays `share * n` drops in total. |
| `Server.SweepPaysWholeBalance` | src/server.ts:232-243 | When a positive balance divides evenly, the sweep pays out exactly that balance. |
| `Server.EvenShare` | src/server.ts:232-234 | For an amount that `n` divides, the share times `n` gives the amount back. |
| `Server.PayEach` | src/server.ts:150-156 | One `sendTip` per charity, in friend-list order, each on network `twitter` with the same share. |
| `Server.FailedBalanceDropsTip` | src/server.ts:142-172 | A failed balance read (`-1`) never covers a tip, so the tip takes the insufficient-balance branch. |
| `Server.TenAndAHalfAmongFour` | src/server.ts:262-269 | 10.5 XRP among four charities gives 2,625,000 drops each, printed `+2.625`, with nothing left over. |
| `Server.ThreeDropsAmongFour` | src/server.ts:146-165 | Three drops among four charities take the too-small branch. |
| `Server.ShuffledIsPermutation` | src/server.ts:215 | The shuffle, `Shuffled`, takes at each position the friend the injected index permutation picks. The shuffled list then holds exactly the friend list's charities, each as often as in the list (equal multisets). |
| `Server.BuildTweetText` | src/server.ts:202-217 | The tweet is the opening for the tip's type and network, then one line `@charity +share XRP` per charity in shuffled order. The charities listed are exactly the friend list. |
| `Server.TipBot.constructor` | src/server.ts:33-37 | At start-up the queue is the stored queue, both flags are clear, nothing has been paid or tweeted, and the friend list is not empty. |
| `Server.TipBot.OnMessage` | src/server.ts:84-92 | The tip is appended to the queue. The stored copy becomes the new queue if the write succeeds. Nothing else changes. |
| `Server.TipBot.SplitTips` | src/server.ts:132-136 | The tick starts only when neither flag is set and the queue is not empty; it then sets `processingTip`. When blocked, no state changes. |
| `Server.TipBot.PayEachCharity` | src/server.ts:150-156 | Starts `sendTip` for the friends in order. It goes no further than the first send whose promise rejects, and reports whether one did. |
| `Server.TipBot.SendOutTweet` | src/server.ts:199-222 | Pushes exactly one tweet: the composed text, with the greeting `\n` + a fixed greeting + `\n` + hashtags. |
| `Server.TipBot.SplitTipsAfterBalance` | src/server.ts:137-187 | Covers the five outcomes: paid, too small, insufficient balance, an exception from the balance read or the storage write, and a stall on a rejected send. Payments happen only on the paid branch: one per charity, same share, in list order, up to the rejected send. A stall keeps `processingTip` set, marks the bot stalled, and leaves the queue, the stored queue, the tweets and the timer as they were. Otherwise `processingTip` is cleared; every path but a raising balance read removes exactly the head tip, and the stored queue then equals the queue unless the write raised. A tweet is produced only when paid, and the timer is armed when the queue is left empty. |
| `Server.TipBot.SplitTipsAfterBalanceCaught` | src/server.ts:137-187 | The same step with a rejected send reaching the `catch` at line 173: it releases the splitter with the tip, and its stored copy, still at the head, so the next tick may split it again. Every other path is as in `SplitTipsAfterBalance`, and the bot never stalls. |
| `Server.TipBot.CheckForRemainingBalance` | src/server.ts:224-227 | Starts only when the queue is empty and neither flag is set; it then sets `processingRemaining`. When blocked, no state changes. |
| `Server.TipBot.ReconcileTimerFires` | src/server.ts:183-186 | The one-shot timer is consumed, and the remaining-balance check starts if it may. |
| `Server.TipBot.CheckForRemainingBalanceAfterBalance` | src/server.ts:228-259 | Tells apart an exception from the balance read, nothing to split (balance at most zero), a balance that does not divide by `n`, a tip that arrived meanwhile, a stall on a rejected send, and a full payout. Pays only when the balance is positive, divides by `n`, and the queue is still empty: every charity `balance / n` in order, up to a rejected send, and a full payout totals exactly the balance. A stall keeps `processingRemaining` set and marks the bot stalled; every other outcome clears it. The queue and the tweets are never touched. |
| `Server.TipBot.CheckForRemainingBalanceAfterBalanceCaught` | src/server.ts:228-259 | The same sweep with a rejected send reaching the `catch` at line 256: the outcome is an exception, `processingRemaining` is always cleared, and the bot never stalls. |
| `Server.TipBot.StalledIsBlocked` | src/server.ts:132-136 | Once a pay loop has stalled, neither the split tick (line 133) nor the remaining-balance check (line 225) can start. No method clears `stalled`, and the continuations require it clear, so the block is for good. |
| `Server.FirstSendRejectsBetweenTwo` | src/server.ts:143-156 | A 4 XRP tip between two charities with 4 XRP in the account is on the paid branch at 2 XRP each, and when the first send rejects, exactly the first charity's payment has been started. |
| `TipbotApi.GetBalance` | src/api/tipbotApi.ts:20-29 | Returns the balance from the response data. On no response or an error response it returns the `-1` XRP sentinel, which is negative. |
| `TipbotApi.SendTip` | src/api/tipbotApi.ts:8-18 | All calls go to `xrptipbot://network/user`. Their amounts are `Chunks(drops)`: they add up to the input, all but the last equal the cap, the last is at most the cap, and the last is positive when the input is. |
| `TipbotApi.ChunksSum` | src/api/tipbotApi.ts:11-17 | The chunk amounts add up to `dropsToSend`. |
| `TipbotApi.ChunksShape` | src/api/tipbotApi.ts:11-17 | There is at least one chunk. Every chunk but the last is the cap, and the last is at most the cap and positive for a positive input. |
| `TipbotApi.ChunkCount` | src/api/tipbotApi.ts:11-17 | The number of calls is `max(1, ceil(drops / cap))`: `(k-1)*cap < drops <= k*cap`. |
| `TwitterApi.GreetingIndex` | src/api/twitterApi.ts:58-61 | `floor(random * 13)` is a valid index for any draw in [0, 1). |
| `TwitterApi.GetRandomGreetingsText` | src/api/twitterApi.ts:58-61 | The text is always one of the 13 fixed greetings. |
| `TwitterApi.EveryGreetingCanBeDrawn` | src/api/twitterApi.ts:4-18 | Each of the 13 greetings is picked by some draw. |
| `TwitterApi.SendOutTweet` | src/api/twitterApi.ts:31-56 | The first post is `message + greetingText`. There is exactly one retry on code 186 (the message alone) or 187 (`message + "\n" + greeting + hashtags`), and none otherwise. There are never more than two posts, and nothing is raised. |
| `Format.XrpTextRoundTrip` | src/server.ts:217 | Any printed share or tip amount parses back to the same number of drops. |

## Left out

- The rate-limited post queue (`twitter.pushToQueue`) and `twitter.getRandomHashtagText` are not part of
  this model. A pushed tweet is recorded as a `QueuedTweet`, and the hashtag text is a parameter.
- MQTT connect, subscribe, close and error handling are broker I/O. Only the effect of the `message`
  handler is modelled. A payload that does not parse as JSON is not modelled.
- `initTwitterAndTipbot`, `login` and `getCurrentFollowers` are foreign calls. The friend list is a
  constructor argument, and an empty list means the bot never starts.
- `checkEnvironmentVariables`, `writeToConsole`, console-stamp and `util.userTippedTooMuch` are
  configuration checks, logging, and a fetch that nothing here calls.
- Timers: the 15 s interval is a call of `SplitTips`, and the 500 ms pacing delay is not modelled. The
  clear-and-rearm of the 120 s timeout collapses into the flag `reconcileArmed`.
- Interleavings beyond the balance read: while the continuation awaits `sendTip` or the storage write,
  an arriving tip is modelled as arriving before or after that whole continuation.
- `Server.TipBot.PayEachCharity`: logs `sendTip` starts, not individual API calls. When the promise of
  one `sendTip` rejects, the chunks it had already sent are not modelled; `TipbotApi.SendTip` gives the chunks of a
  call that completes.
- `TipbotApi.SendTip`: each call records its amount in drops, where the source sends XRP (`amount`). The
  API token and the response returned to the caller are left out.
- Floating point: amounts are whole drops. A tip with more than six decimals, and JavaScript's exponent
  notation (never reached by whole drops below 10^21 XRP), are not modelled.
- `Math.random` and `shuffle-array` are external randomness. They are injected as a draw in [0, 1) and an
  index permutation.
- `TwitterApi.SendOutTweet`: the outcome of the retry is not a parameter, because the retry's failure is
  swallowed and nothing depends on it. An error whose `code` is missing or falsy is `Rejected(None)`.
- Fields missing from a bus message (JavaScript `undefined`) are modelled as arbitrary strings.
- A bus message whose `xrp` is missing or not a number is not modelled, because `Tip.drops` is a `nat`.
  In the source, `currentBalance >= undefined` is false, so such a tip takes the insufficient-balance
  branch and is dropped (src/server.ts:143, 167-171).
- `MAX_XRP_VIA_TIP` is fixed at its default of 500, instead of being read from the environment.

## Findings

In both pay loops each `sendTip` is awaited inside `new Promise(async resolve => ...)`. The promise of
`sendTip` rejects when a tip call answers `ok` with a body that is not JSON: `callTipbotApi` returns
`fetchResult.json()` from inside its `try` without awaiting it (src/api/tipbotApi.ts:35). The
rejection lands on the executor's own promise, and `resolve` is never called. The class keeps both
readings. The as-written continuations stall. The `...Caught` continuations let the rejection reach
the `catch`, and the as-written ones delegate to them wherever no send rejects. Under the intended
reading, the retried tip pays the charities already paid in the failed attempt a second time.
The stall is what a Node runtime does when an unhandled rejection only prints a warning (before
Node 15). From Node 15 on, an unhandled rejection ends the process by default. The stored queue
still holds the tip, because the write at src/server.ts:158 was never reached, so a restarted bot
splits it again and pays the charities already paid a second time. The model covers the stall only.

| source | as written | input that shows it | evidently intended | confidence | as-written member | corrected member |
|---|---|---|---|---|---|---|
| src/server.ts:152-155 | The `await` around a rejected `sendTip` never returns. The `catch` at line 173 never runs and `processingTip` stays set, so every later tick is refused at line 133 and the remaining-balance check at line 225. | Queue `[t]`, `t` of 4 XRP, two charities, 4 XRP in the account, the first tip call answering `ok` with a body that is not JSON. | The rejection reaches the `catch`. The splitter is released, and the tip stays at the head for the next tick. | not executed; high | `Server.TipBot.SplitTipsAfterBalance`, with `Server.TipBot.StalledIsBlocked` and `Server.FirstSendRejectsBetweenTwo` | `Server.TipBot.SplitTipsAfterBalanceCaught` |
| src/server.ts:239-242 | As above for the sweep. The `catch` at line 256 never runs and `processingRemaining` stays set, so no tip is split again. | Empty queue, 4 XRP in the account, two charities, the first tip call answering `ok` with a body that is not JSON. | The rejection reaches the `catch`, and the sweep is released. | not executed; high | `Server.TipBot.CheckForRemainingBalanceAfterBalance`, with `Server.TipBot.StalledIsBlocked` | `Server.TipBot.CheckForRemainingBalanceAfterBalanceCaught` |
