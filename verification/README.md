# CeloFlow: a verified model

CeloFlow is a remittance agent on Celo: a Python backend that quotes, screens, pays and swaps, and a browser front end that
streams the conversation and shows balances, contacts and history. There is no single engine in it. What is worth proving sits
in a dozen small stateful components, and each of them has a module of its own here:

| file | component |
|---|---|
| `WiseClient.dfy` | sliding-window rate limiter, result cache, provider ranking |
| `StreamChat.dfy` | the incremental reader of the chat's event stream |
| `PaymentLedger.dfy` | x402 rewards, the trimmed audit history, receipts, batches |
| `TokenAmounts.dfy`, `Multicall.dfy` | the balance printer; batched balance queries |
| `Kyc.dfy` | the KYC credential cache in front of the user records |
| `AuthService.dfy` | login, refresh, logout, the refresh timer, the storage mirror |
| `StatusDetector.dfy`, `Reconnect.dfy` | the status shown while the model works; the stream it listens to |
| `Contacts.dfy`, `TransactionHistory.dfy` | the two deduplicating merges |
| `Portfolio.dfy` | grouping and ordering of holdings |
| `MentoSwap.dfy` | routes, and approve-then-swap on an EIP-20 ledger |
| `StableSorting.dfy`, `Rounding.dfy`, `Common.dfy` | what several components share |

Each component that updates fields is a class whose methods are proved against step functions on values; the lemmas are about
those functions and, where calls interleave, about runs: sequences of steps in any order. A coroutine or an async function runs
without interruption between two awaits, so an operation that awaits is cut there and its pieces are separate steps.

Outside the model and passed in: clock readings (nondecreasing where the result needs it), answers of servers, chains and
identity providers, what JSON parsing makes of a payload, which status a text matches, `toLowerCase`, the collation of the
browser, ids and hashes, and whether a store can be written. Money is over the reals or in base units.

## Where the code does not do what it says

The code is modelled as it is. These are the places where it differs from its own documentation or from what a caller would
expect, each with the lemma that says when:

- The rate limit is per half-open window. A closed one holds up to 60 requests, more than 30 only with requests at both ends
  (`ClosedWindowBound`, `ClosedWindowCanHold60`).
- A list as the comparison response is parsed by one function and makes another raise before it (`Client.Finish`).
- The stream reader drops an embedded error that carries a message (`QuotaErrorIsDropped`, `OtherErrorIsDropped`); only one
  without a message, or with exactly "Streaming error", ends the stream (`StreamAbortedIff`), so that errors do end it exactly
  when the first of them is such a one (`ErrorsAreHandledIff`, `StreamStopsAtFirstError`). An unterminated last line is
  treated differently from a terminated one in two cases (`FinalLineFeed`).
- `get_payment_history(0)` returns everything that is kept (`LimitZero`, `HistoryAnswers`). A paid call whose attempts all fail
  is reported, recorded and receipted as a success (`Client.PayForService`). A compliance screening is receipted and never
  recorded: after one that was not refused the audit log stays incomplete for good, and nothing but screenings and calls still
  under way can make it so (`ScreeningIsNotAudited`, `NeverComplete`, `AuditCompleteIff`).
- The balance printer divides by a double turned into an integer; it is right for every balance exactly if that is the power of
  ten (`PrintedValueIff`), which no double is beyond 22 decimals (`DoublesPrintTrulyIff`).
- A KYC level can go down, when a verification is overtaken by a higher one of the same user (`LevelCanDrop`, `LevelDropsIff`).
- A refresh that answers after the logout leaves an access token in the signed-out state, and mostly a timer
  (`LateRefreshLeavesToken`, `StepKeepsSignedOutEmpty`); it cannot bring the session back (`NoLoginNoSession`).
- `getAccessToken` hands out the token of a refresh it awaited without looking at the state again: to nobody when a sign-out came
  between, and beside another session's refresh token when a sign-in did. A refresh of an old session that fails signs the new
  one out (`LateAnswer`, `StepMixesIff`, `LateFailure`).
- A session granted for more than about 25 days is refreshed too early, one of 30 days at once, because the browser's timeouts are
  32-bit numbers (`RefreshInTimeIff`, `LongGrantRefreshesAtOnce`).
- An answer without `expires_in` authenticates a session without an expiry (`UndatedLogin`, `StepKeepsExpiryIff`).
- `connect` does not close the EventSource it replaces (`ReconnectLeavesStray`, `StrayMadeIff`), so a disconnect does not always
  silence the stream (`DisconnectSilencesIff`).
- Two overlapping imports of the same contacts store them twice (`OverlappingImportsDuplicate`), and so does a single one whose
  read of the database fails and whose insert does not (`FallbackReadDuplicates`, `InsertKeepsUniqueIff`). A contact that neither
  the database nor `localStorage` takes is reported as created (`ContactsService.CreateContact`), and one that went to
  `localStorage` is not listed while the database can be read (`CreatedIsListedIff`).
- A server entry without an id is added again at the next sync (`AnonymousEntryDuplicates`, `SecondSyncSameIff`).
- The history is ordered by locale date strings, not by time (`MergeIsChronologicalIff`), and its cut to 200 can drop the newest
  item (`NewestCanBeCutOff`, `CutKeepsNewestIff`).
- The display order puts unlisted tokens before the listed ones (`DisplayOrder`, `ListedComeFirstIff`).
- `execute_swap` promises a transaction hash. Without a connection or for an incomplete route it returns a string of that form
  although nothing was sent (`NothingSentLooksSent`, `HashWithoutSwapIff`).
- A swap never pays the recipient it is given (`OthersGetNothing`), can take effect although an error is returned
  (`ErrorCanHideSwap`, `ErrorHidesSwapIff`), and leaves its approval standing when it fails (`AllowanceLeft`).

## Model

| member | source | states |
|---|---|---|
| WiseClient.RateLimitHolds | celoflow/integrations/wise_client.py:427-438 | in every run of interleaved calls the pruned list decides as a limiter that forgets nothing, holds at most 30 entries, and every half-open 60-second window has at most 30 recorded requests |
| WiseClient.AdmitIsExact | celoflow/integrations/wise_client.py:427-434 | pruning drops no timestamp that a later check would count |
| WiseClient.AdmitIsSound | celoflow/integrations/wise_client.py:427-438 | one check with its recording keeps the limit in every window |
| WiseClient.ClosedWindowBound | celoflow/integrations/wise_client.py:427-438 | in every run a closed 60-second window has at most 60 recorded requests, and more than 30 only with requests at both of its ends |
| WiseClient.ClosedWindowCanHold60 | celoflow/integrations/wise_client.py:430-434 | a run that fills a closed window with 60 |
| WiseClient.Client.TryRequest | celoflow/integrations/wise_client.py:147-166 | check and recording as one piece: passes exactly when the last minute holds fewer than 30 |
| WiseClient.Client.Begin | celoflow/integrations/wise_client.py:129-166 | which of the five ways a call starts, and that a cache hit leaves cache and limiter alone |
| WiseClient.Client.Finish | celoflow/integrations/wise_client.py:168-179 | error and list responses store nothing; otherwise the ranked comparison is stamped, stored and returned |
| WiseClient.Client.SetCached | celoflow/integrations/wise_client.py:459-463 | storing under a key is one more event of the cache's history |
| WiseClient.HitIsLatestStore | celoflow/integrations/wise_client.py:453-463 | a hit is exactly the latest store under the key since the last clearing, made less than 300 seconds ago |
| WiseClient.CacheKeyInjective | celoflow/integrations/wise_client.py:444-451 | colon-free requests share a key only if they are equal |
| WiseClient.CacheKeyCollision | celoflow/integrations/wise_client.py:451 | with colons two requests can collide |
| WiseClient.ParseComparison | celoflow/integrations/wise_client.py:251-265 | the two loops produce the ranking of the parsable quotes, whose figures `ParsedFigures` pins |
| WiseClient.QuoteIsTakenIff | celoflow/integrations/wise_client.py:277-292 | which quotes are taken: those with a name whose figures can be read |
| WiseClient.ParsedFigures | celoflow/integrations/wise_client.py:287-319 | fee, received amount and total are those of the quote to half a cent, and the markup is the distance between the sum sent and its value at the quoted rate over the mid-market rate |
| WiseClient.ParsedInOrder | celoflow/integrations/wise_client.py:251-259 | every quote that is taken is there once, in the order of the response, and nothing else is |
| WiseClient.RankingOrdersByCost | celoflow/integrations/wise_client.py:260-275 | costs never fall as ranks rise, first and last are cheapest and dearest, nothing is lost, ties keep the order of the response |
| WiseClient.RankingRespectsExactCost | celoflow/integrations/wise_client.py:300-313 | ranking by rounded totals agrees with exact totals to within a cent |
| WiseClient.ProviderFiguresAddUp | celoflow/integrations/wise_client.py:287-319 | rounded fee, markup and total fit together to within 1.5 cents |
| StableSorting.StableSortUnique | celoflow/integrations/wise_client.py:261 | only one sequence is sorted and keeps ties in order |
| StableSorting.ResortIff | celoflow-ui/services/transactionHistoryService.ts:84 | when re-sorting a sorted list with a replaced tail gives it back |
| StableSorting.SortMeetsIff | celoflow-ui/services/tokenBalanceService.ts:150-169 | when a stable sort by one order also satisfies another |
| StableSorting.SortPlaces | celoflow-ui/services/transactionHistoryService.ts:84 | the place of every element after sorting: what is below it and what is tied with it and was before it goes before it |
| StableSorting.PlaceIsTaken | celoflow-ui/services/transactionHistoryService.ts:84 | and every place is that of an element |
| Rounding.Round6IsNearest | celoflow/integrations/x402_client.py:456-457 | six-digit rounding is to the nearest millionth and fixes whole millionths |
| Rounding.Round2IsNearest | celoflow/integrations/wise_client.py:307-314 | two-digit rounding is to whole cents, at most half a cent away |
| Rounding.NearestIsHalfEven | celoflow/integrations/wise_client.py:307-314 | the nearest integer, and of two equally near the even one |
| Rounding.HalfEvenIsUnique | celoflow/integrations/wise_client.py:307-314 | no other integer is like that |
| StreamChat.Read | celoflow-ui/lib/celoflow-client.ts:187-269 | however the text is cut, the callbacks, the final content and the abort are those of one pass over the whole text; for a text of data lines they are what its payloads say |
| StreamChat.ReadLines | celoflow-ui/lib/celoflow-client.ts:200-239 | the inner loop, left early by a throw |
| StreamChat.SplitAppend | celoflow-ui/lib/celoflow-client.ts:196-198 | later text changes only the last, incomplete line |
| StreamChat.SplitJoins | celoflow-ui/lib/celoflow-client.ts:197 | splitting loses nothing and leaves no line feed in a piece |
| StreamChat.AbortDecides | celoflow-ui/lib/celoflow-client.ts:228-237 | after an abort nothing that follows is observed |
| StreamChat.AbortedIff | celoflow-ui/lib/celoflow-client.ts:228-237 | a list of lines ends the stream exactly when one of them carries an error with the default message |
| StreamChat.StreamAbortedIff | celoflow-ui/lib/celoflow-client.ts:187-239 | the same for the complete lines of the text, however it was cut |
| StreamChat.ErrorsAreHandledIff | celoflow-ui/lib/celoflow-client.ts:228-237 | every embedded error ends the stream by its own line exactly if there is none or the first has the default message |
| StreamChat.OtherErrorIsDropped | celoflow-ui/lib/celoflow-client.ts:228-234 | any other error line changes nothing: everything else is observed as without it |
| StreamChat.StreamStopsAtFirstError | celoflow-ui/lib/celoflow-client.ts:187-239 | for every cut of the text, the first embedded error either ends what is observed or leaves no trace |
| StreamChat.QuotaErrorIsDropped | celoflow-ui/lib/celoflow-client.ts:228-234 | a text in which an error is dropped and later content delivered |
| StreamChat.FullContentIsConcatenation | celoflow-ui/lib/celoflow-client.ts:216-218 | every callback carries the concatenation of the nonempty deltas so far |
| StreamChat.FinalLineFeed | celoflow-ui/lib/celoflow-client.ts:242-269 | a missing final line feed changes the outcome exactly for indented content and unindented default errors |
| StreamChat.DataLine | celoflow-ui/lib/celoflow-client.ts:200-219 | optional space and carriage return, payload untouched, `[DONE]` does not end the stream |
| StreamChat.DataLineTells | celoflow-ui/lib/celoflow-client.ts:200-219 | a data line around a payload with visible ends tells exactly what the payload says |
| StreamChat.OtherLineIsIgnored | celoflow-ui/lib/celoflow-client.ts:202 | a line that does not start with `data:` changes nothing |
| StreamChat.TrailingTells | celoflow-ui/lib/celoflow-client.ts:242-264 | an unterminated last line tells its content, and drops an error |
| StreamChat.TrimEndRemovesWhite | celoflow-ui/lib/celoflow-client.ts:201 | trimming an end removes all white space there and nothing else |
| StreamChat.TrimStartRemovesWhite | celoflow-ui/lib/celoflow-client.ts:203 | the same for a start |
| StreamChat.StreamTells | celoflow-ui/lib/celoflow-client.ts:187-269 | a text of such lines tells its payloads one after the other, up to the first default error |
| PaymentLedger.TrimmedIsSuffix | celoflow/integrations/x402_client.py:669-673 | the history is a suffix of everything ever appended, of a length given by the number of appends |
| PaymentLedger.TrimmedBounds | celoflow/integrations/x402_client.py:672-673 | at most 10,000 entries, and at least 5,000 once anything was dropped |
| PaymentLedger.HistoryAnswers | celoflow/integrations/x402_client.py:214-216 | for every limit, when the trimmed history answers as the full log |
| PaymentLedger.LimitZero | celoflow/integrations/x402_client.py:214-216 | the limit 0 returns everything that is kept |
| PaymentLedger.HistoryAnswersUpTo5000 | celoflow/integrations/x402_client.py:214-216 | it does for every limit from 1 to 5,000 |
| PaymentLedger.LastEntriesAre | celoflow/integrations/x402_client.py:216 | how many entries each limit asks for, and that they are the last ones |
| PaymentLedger.TierBands | celoflow/integrations/x402_client.py:425-435 | the tier of every score |
| PaymentLedger.RewardIs | celoflow/integrations/x402_client.py:424-457 | the reward over amount and score alone: 3/2, 6/5, 1, 4/5 or 3/5 of half a percent to the nearest millionth, and exactly 10 from where that reaches 10 |
| PaymentLedger.ResultPays | celoflow/integrations/x402_client.py:608-627 | which payments of a batch are rejected, and what the others pay, also with an amount or a score left out |
| PaymentLedger.RewardLeaves | celoflow/integrations/x402_client.py:522-560 | the audit entry and the receipt of a reward, field by field |
| PaymentLedger.RewardMonotone | celoflow/integrations/x402_client.py:422-457 | rewards grow with amount and reputation and stay within 0 and 10 |
| PaymentLedger.ReputationHelpsIff | celoflow/integrations/x402_client.py:425-442 | reputation never hurts exactly for nonnegative amounts |
| PaymentLedger.BatchTotal | celoflow/integrations/x402_client.py:608-642 | the total is a whole number of millionths that rounding leaves alone, at most 10 per success, not negative without negative amounts, and the sum of the audit entries |
| PaymentLedger.Client.BatchProcess | celoflow/integrations/x402_client.py:592-645 | one result per payment in order, exactly the payable ones appended and receipted in order, counts and total add up |
| PaymentLedger.Client.ProcessReward | celoflow/integrations/x402_client.py:513-586 | one entry and one receipt, or nothing at all when the payment raises; the result pays what `ResultPays` and `RewardIs` say |
| PaymentLedger.Client.Append | celoflow/integrations/x402_client.py:554-557 | appending and trimming follow the full log |
| PaymentLedger.Client.GetPaymentHistory | celoflow/integrations/x402_client.py:214-216 | recent history as the untrimmed log would answer |
| PaymentLedger.VerifiedIsLatestIssue | celoflow/integrations/x402_client.py:189-208 | a receipt verifies exactly when it is the latest under its id and at most 600 seconds old |
| PaymentLedger.RunBalances | celoflow/integrations/x402_client.py:100-184 | however calls and rewards interleave, the receipts issued are one for one the payments in the full log (rewards by id, agent, amount and tier; calls by service and amount, as their entries have no id), the calls still to be recorded, and the screenings |
| PaymentLedger.HistoryIsReceipted | celoflow/integrations/x402_client.py:669-673 | every payment in the trimmed history has a receipt of its own that was issued, matched in the same way |
| PaymentLedger.AuditCompleteIff | celoflow/integrations/x402_client.py:116-184 | the full log accounts for every receipt exactly when no well answered call still waits to be recorded and no piece of the run answered a screening but with a refusal |
| PaymentLedger.NeverComplete | celoflow/integrations/x402_client.py:150-184 | once a screening was answered so, no continuation makes the log complete |
| PaymentLedger.ScreeningIsNotAudited | celoflow/integrations/x402_client.py:150-184 | the run of one such screening, and whatever follows it |
| PaymentLedger.Client.Attempts | celoflow/integrations/x402_client.py:310-369 | the first decisive attempt of three decides and only a 402 refuses; the client is not touched meanwhile |
| PaymentLedger.Client.AnswerCall | celoflow/integrations/x402_client.py:320-391 | the piece that decides a call: a verifiable receipt unless it is refused |
| PaymentLedger.Client.RecordPayment | celoflow/integrations/x402_client.py:651-673 | the last piece of a service call: its audit entry |
| PaymentLedger.Client.CallWithPayment | celoflow/integrations/x402_client.py:310-391 | attempts and answer, when nothing else runs between them |
| PaymentLedger.Client.CallComplianceAgent | celoflow/integrations/x402_client.py:150-184 | a screening, when nothing else runs between its pieces: a verifiable receipt and no entry |
| PaymentLedger.Client.PayForService | celoflow/integrations/x402_client.py:116-144 | call, verifiable receipt and audit entry, when nothing else runs between them |
| TokenAmounts.PrintedValueIff | celoflow-ui/hooks/useTokenBalances.ts:319-332 | read back, every printed balance is the value cut off below a ten-thousandth (exact below four decimals) if and only if the divisor is the power of ten |
| TokenAmounts.DoublesPrintTrulyIff | celoflow-ui/hooks/useTokenBalances.ts:322 | some double is such a divisor exactly up to 22 decimals |
| TokenAmounts.PrintingMonotoneIff | celoflow-ui/hooks/useTokenBalances.ts:319-332 | printing keeps the order of all balances exactly when no remainder has more digits than the token has decimals |
| TokenAmounts.PrintedCanonically | celoflow-ui/hooks/useTokenBalances.ts:320-331 | for every divisor: no superfluous zeros, and "0.00" stands for zero only |
| Multicall.RequestsAlign | celoflow-ui/hooks/useTokenBalances.ts:96-116 | request i belongs to the i-th kept token, for every registry, chain and token list |
| Multicall.RequestIs | celoflow-ui/hooks/useTokenBalances.ts:96-107 | which address a token is asked at: that of the network, unless zero or missing |
| Multicall.OneIsShownIff | celoflow-ui/hooks/useTokenBalances.ts:167-197 | when a balance is shown, and with which amount and contract |
| Multicall.ListedIff | celoflow-ui/lib/token-registry.ts:384-397 | which tokens are listed for a network, in order |
| Multicall.FilterTokens | celoflow-ui/hooks/useTokenBalances.ts:155-165 | the loop keeps the tokens that can be asked about |
| Multicall.BuildBalances | celoflow-ui/hooks/useTokenBalances.ts:153-197 | batching gives what asking for each token alone would give |
| Multicall.ListedTokensAreAsked | celoflow-ui/lib/token-registry.ts:384-397 | for the tokens listed for the network neither filter drops anything |
| Kyc.CacheIsInvisible | celoflow/plugins/kyc_plugin.py:154-204 | in every interleaving a cached credential agrees with the record, and every reply is that of a gateway without cache |
| Kyc.LevelDropsIff | celoflow/plugins/kyc_plugin.py:186-204 | a level goes down exactly when an overtaken verification is answered |
| Kyc.LevelCanDrop | celoflow/plugins/kyc_plugin.py:186-196 | a run in which it does |
| Kyc.LevelNeverDropsAlone | celoflow/plugins/kyc_plugin.py:171-196 | it never does while the user's verifications do not overlap |
| Kyc.NamesAre | celoflow/plugins/kyc_plugin.py:154-157 | the three names a level can be requested by |
| Kyc.BeginAnswers | celoflow/plugins/kyc_plugin.py:159-188 | whether cache, record or provider answers, and with what |
| Kyc.CachedForADay | celoflow/plugins/kyc_plugin.py:366-382 | a cached credential answers for 24 hours and for its own user alone |
| Kyc.Plugin.VerifyBegin | celoflow/plugins/kyc_plugin.py:156-183 | the piece before the await, on cache and records |
| Kyc.Plugin.VerifyFinish | celoflow/plugins/kyc_plugin.py:188-213 | the piece after the await |
| Kyc.Plugin.GetCachedCredential | celoflow/plugins/kyc_plugin.py:375-382 | lookup with eviction |
| Kyc.Plugin.CheckTransferEligibility | celoflow/plugins/kyc_plugin.py:264-296 | eligible up to the limit of the level (50, 1,000, 10,000 or 100,000); the suggested upgrade is the lowest sufficient level; none only beyond all limits |
| AuthService.RunIsSafe | celoflow-ui/lib/auth-service.ts:103-193 | in every interleaving: authenticated implies tokens, storage is the projection of the state, at most the one known timer is pending, at the right time |
| AuthService.RunIsDated | celoflow-ui/lib/auth-service.ts:137-185 | authenticated implies an expiry too in every run whose answers carry `expires_in` |
| AuthService.StepKeepsExpiryIff | celoflow-ui/lib/auth-service.ts:137-185 | which steps alone make an authenticated session without an expiry |
| AuthService.UndatedLogin | celoflow-ui/lib/auth-service.ts:129-145 | what a login without `expires_in` gives: never counted as authenticated, no timer, lost on reload |
| AuthService.AtMostOneTimer | celoflow-ui/lib/auth-service.ts:344-354 | never two pending refresh timers |
| AuthService.ReloadRestoresIff | celoflow-ui/lib/auth-service.ts:373-417 | when a reload restores the state |
| AuthService.SessionLifetime | celoflow-ui/lib/auth-service.ts:137-146 | a login lasts the granted seconds, with one refresh pending, a minute before the end unless that is too far ahead for a timeout |
| AuthService.RefreshInTimeIff | celoflow-ui/lib/auth-service.ts:344-354 | a refresh goes out a minute before the expiry, or at once when it is nearer, exactly if that is less than 2^31 milliseconds ahead; never later |
| AuthService.LongGrantRefreshesAtOnce | celoflow-ui/lib/auth-service.ts:344-354 | an expiry for which it goes out at once |
| AuthService.NoLoginNoSession | celoflow-ui/lib/auth-service.ts:156-212 | no run without a successful login makes a signed-out session authenticated |
| AuthService.RunHoldsGrant | celoflow-ui/lib/auth-service.ts:103-193 | in every run an authenticated client holds the refresh token, method and TEE flag of the last good login (or of storage), and the access token and expiry of the last good login or refresh |
| AuthService.LoginStores | celoflow-ui/lib/auth-service.ts:129-143 | after a good login the state is the answer: its tokens, expiry, method and TEE flag |
| AuthService.RefreshStores | celoflow-ui/lib/auth-service.ts:177-185 | after a good refresh it has the new access token and expiry and everything else as before |
| AuthService.LoadIff | celoflow-ui/lib/auth-service.ts:373-417 | which stored items a new page takes over, all of them or nothing |
| AuthService.StepWaitsFor | celoflow-ui/lib/auth-service.ts:103-193 | which events send a request or take its answer, and that nothing in flight survives a reload |
| AuthService.LateRefreshLeavesToken | celoflow-ui/lib/auth-service.ts:177-188 | from any state that can refresh, a logout before the answer leaves a token and a timer in the signed-out state |
| AuthService.StepKeepsSignedOutEmpty | celoflow-ui/lib/auth-service.ts:177-188 | which step alone does that |
| AuthService.RunIsTagged | celoflow-ui/lib/auth-service.ts:137-188 | in every run an authenticated client holds the refresh token of the newest session |
| AuthService.StepMixesIff | celoflow-ui/lib/auth-service.ts:177-185 | the only step that puts an access token of one session beside a refresh token of another |
| AuthService.LateAnswer | celoflow-ui/lib/auth-service.ts:156-240 | for a refresh sent while authenticated and anything before its answer: the awaited token is handed out in every case, to nobody exactly when the last change was a sign-out, mixed exactly when it was a sign-in |
| AuthService.LateFailure | celoflow-ui/lib/auth-service.ts:156-193 | a failing answer signs out whoever is there by then, also a newer session |
| AuthService.AuthServiceClient.constructor | celoflow-ui/lib/auth-service.ts:373-417 | loading from storage |
| AuthService.AuthServiceClient.FinishLogin | celoflow-ui/lib/auth-service.ts:121-150 | the end of a login: the state is the answer, or empty after a failure |
| AuthService.AuthServiceClient.OnTimer | celoflow-ui/lib/auth-service.ts:348-353 | the timer fires: its timeout is gone, a refresh goes out if there is a refresh token |
| AuthService.AuthServiceClient.FinishRefresh | celoflow-ui/lib/auth-service.ts:170-192 | the end of a refresh, over whatever state it finds |
| AuthService.AuthServiceClient.FinishLogout | celoflow-ui/lib/auth-service.ts:198-212 | memory, storage and timers are empty afterwards |
| AuthService.AuthServiceClient.AccessToken | celoflow-ui/lib/auth-service.ts:230-235 | before the await: a token only when authenticated, and a refresh first exactly within a minute of expiry |
| AuthService.AuthServiceClient.FinishAccessToken | celoflow-ui/lib/auth-service.ts:235-239 | after the await: it raises exactly when a good refresh finds no tokens, never while authenticated, and otherwise hands out the token that is there |
| StatusDetector.HistoryIsFaithful | celoflow-ui/lib/llm-status-detector.ts:63-80 | over any mix of events the status is the last entry and no entry repeats its predecessor |
| StatusDetector.OperationsAre | celoflow-ui/lib/llm-status-detector.ts:85-99 | which operation shows as which status |
| StatusDetector.TimingIs | celoflow-ui/lib/llm-status-detector.ts:278-290 | what the timer guesses |
| StatusDetector.ContentShows | celoflow-ui/lib/llm-status-detector.ts:216-253 | what shows after content, with and without a match and with backend events followed |
| StatusDetector.ControlsDo | celoflow-ui/lib/llm-status-detector.ts:129-368 | what starting, resetting, connecting and switching backend events do |
| StatusDetector.SecondDisjunctIsRedundant | celoflow-ui/lib/llm-status-detector.ts:223-241 | the second disjunct of the update test never decides |
| StatusDetector.TimerHistoryClimbs | celoflow-ui/lib/llm-status-detector.ts:164-184 | with the timer alone the history climbs through at most five stages |
| StatusDetector.LLMStatusDetector.AnalyzeContent | celoflow-ui/lib/llm-status-detector.ts:216-253 | content analysis as a step of the run |
| StatusDetector.LLMStatusDetector.HandleRealTimeStatusEvent | celoflow-ui/lib/llm-status-detector.ts:63-80 | a backend event as a step |
| StatusDetector.LLMStatusDetector.PeriodicUpdate | celoflow-ui/lib/llm-status-detector.ts:164-184 | a timer tick as a step |
| Reconnect.ScheduleBounded | celoflow-ui/services/real-time-status.ts:249-267 | at most one pending timer; between resets at most four reconnects, with strictly growing delays below the cap |
| Reconnect.ErrorSchedulesIff | celoflow-ui/services/real-time-status.ts:98-108 | the first four errors schedule a reconnect, after 3, 4.5, 6.75 and 10.125 seconds, unless one is pending; the fifth does not |
| Reconnect.HandlersDo | celoflow-ui/services/real-time-status.ts:61-147 | what opening, a message, connecting and disconnecting change |
| Reconnect.DisconnectSilencesIff | celoflow-ui/services/real-time-status.ts:134-147 | when a disconnect is final |
| Reconnect.ReconnectLeavesStray | celoflow-ui/services/real-time-status.ts:61-70 | a run that leaves a source behind |
| Reconnect.StrayMadeIff | celoflow-ui/services/real-time-status.ts:61-70 | in every run without strays, the step that makes one: connecting while the current source is alive and not open |
| Reconnect.RealTimeStatusService.OnError | celoflow-ui/services/real-time-status.ts:98-108 | the error handler with its scheduling |
| Reconnect.RealTimeStatusService.OnOpen | celoflow-ui/services/real-time-status.ts:72-76 | the open handler resets |
| Reconnect.RealTimeStatusService.OnMessage | celoflow-ui/services/real-time-status.ts:78-83 | a message marks the connection alive without resetting the attempts |
| Reconnect.RealTimeStatusService.OnTimer | celoflow-ui/services/real-time-status.ts:263-266 | the timer reconnects |
| Reconnect.RealTimeStatusService.DisconnectStream | celoflow-ui/services/real-time-status.ts:134-147 | disconnecting |
| Contacts.ImportAccepts | celoflow-ui/services/contactsService.ts:283-313 | exactly the first item of every new address is accepted, and imported plus errors is the number of items |
| Contacts.CollectedWaitsIff | celoflow-ui/services/contactsService.ts:276-313 | when the collected contacts of an import wait for their insert |
| Contacts.PickedIdsDiffer | celoflow-ui/services/contactsService.ts:293-311 | contacts of one import have ids of their own |
| Contacts.ImportThrowsIff | celoflow-ui/services/contactsService.ts:283-291 | which items make the import fail as a whole |
| Contacts.AcceptedAreNew | celoflow-ui/services/contactsService.ts:288-293 | accepted addresses are new and distinct up to case |
| Contacts.AcceptsNothingIff | celoflow-ui/services/contactsService.ts:276-291 | an import accepts nothing exactly when its snapshot has every address it names |
| Contacts.ReimportAcceptsNothing | celoflow-ui/services/contactsService.ts:276-291 | importing the same items again, on a snapshot of the store they went to, inserts nothing |
| Contacts.RoundTripIff | celoflow-ui/services/contactsService.ts:267-313 | export and import reproduce the contacts exactly for the portable lists |
| Contacts.InsertKeepsUniqueIff | celoflow-ui/services/contactsService.ts:143-318 | in every run of overlapping imports, failing reads and other writes, an insert keeps addresses unique exactly when nothing it accepted was missed by its snapshot, or entered the store since, and is still there |
| Contacts.FallbackReadDuplicates | celoflow-ui/services/contactsService.ts:143-152 | a single import on the fallback list that stores a contact again |
| Contacts.OverlappingImportsDuplicate | celoflow-ui/services/contactsService.ts:276-318 | a run in which two imports store a contact twice |
| Contacts.OrderlyRunsStayUnique | celoflow-ui/services/contactsService.ts:143-318 | addresses stay unique over every run in which imports do not overlap, snapshots miss nothing and creations are of new addresses |
| Contacts.ContactsService.GetContacts | celoflow-ui/services/contactsService.ts:143-152 | the contacts of the database, or the other list when it fails |
| Contacts.ContactsService.CreateContact | celoflow-ui/services/contactsService.ts:159-185 | to which of the two lists a created contact goes; it is returned as created even if to none |
| Contacts.CreatedIsListedIff | celoflow-ui/services/contactsService.ts:143-185 | when the created contact is listed next |
| Contacts.ContactsService.CollectImport | celoflow-ui/services/contactsService.ts:276-313 | the piece before the insert, on the contacts as read: the loop equals the fold over the items, and every contact has the id drawn for its item, the time of the import and the default network |
| Contacts.ContactsService.InsertCollected | celoflow-ui/services/contactsService.ts:315-318 | the insert into the store as it is by then, and when it keeps addresses unique |
| Contacts.ContactsService.ImportContacts | celoflow-ui/services/contactsService.ts:271-324 | counts, what is appended with which ids and times, all or nothing, and exactly when uniqueness is preserved, when nothing touches the store in between |
| TransactionHistory.MergeKeepsAll | celoflow-ui/services/transactionHistoryService.ts:81-84 | all local items, all new remote ones, nothing else, date-descending, ties in order |
| TransactionHistory.ItemIs | celoflow-ui/services/transactionHistoryService.ts:64-79 | what becomes of a server entry, field by field: the job id before its own, executed as completed |
| TransactionHistory.NewInOrder | celoflow-ui/services/transactionHistoryService.ts:82-83 | the new items are those with an id that is not there, in order and as often as in the answer |
| TransactionHistory.ResyncStableIff | celoflow-ui/services/transactionHistoryService.ts:81-86 | when a second sync with the same answer gives the same list |
| TransactionHistory.ResyncStableWhenItFits | celoflow-ui/services/transactionHistoryService.ts:81-86 | it does when the merge fits into 200 |
| TransactionHistory.NamedEntriesAreStable | celoflow-ui/services/transactionHistoryService.ts:64-79 | entries with an id keep it from sync to sync, and with a date they are the same items |
| TransactionHistory.AnonymousEntryDuplicates | celoflow-ui/services/transactionHistoryService.ts:65 | an entry without an id is added again |
| TransactionHistory.SecondSyncSameIff | celoflow-ui/services/transactionHistoryService.ts:58-86 | on the raw response: a second sync gives the same list, when the first fits, exactly if every entry has an id or is given a name that is there already |
| TransactionHistory.MergeIsChronologicalIff | celoflow-ui/services/transactionHistoryService.ts:84 | when a merge is newest first |
| TransactionHistory.CutKeepsNewestIff | celoflow-ui/services/transactionHistoryService.ts:84-86 | the cut drops nothing newer than what it keeps exactly when no item with fewer than 200 before it is older than one with more |
| TransactionHistory.ChronologicalCut | celoflow-ui/services/transactionHistoryService.ts:84-86 | in particular when the merge is newest first |
| TransactionHistory.NewestCanBeCutOff | celoflow-ui/services/transactionHistoryService.ts:84-86 | 200 items of 12/31/2023 and one of 1/2/2024: the newest is cut off |
| TransactionHistory.HistoryService.AddTransaction | celoflow-ui/services/transactionHistoryService.ts:27-38 | in front, at most 200, unless the write is refused |
| TransactionHistory.HistoryService.UpdateTransactionStatus | celoflow-ui/services/transactionHistoryService.ts:40-47 | only the first item with the id, only its status, order kept; returned even if the write is refused |
| TransactionHistory.HistoryService.Sync | celoflow-ui/services/transactionHistoryService.ts:58-92 | the merge is returned, its first 200 stored unless the write is refused, and a failure changes nothing |
| Portfolio.TallyConserves | celoflow-ui/services/tokenBalanceService.ts:269-277 | group counts and totals add up to those of the holdings |
| Portfolio.TallyPartitions | celoflow-ui/services/tokenBalanceService.ts:269-277 | one group per category, with exactly its holdings |
| Portfolio.WithValueAre | celoflow-ui/services/tokenBalanceService.ts:266 | which holdings count as valued |
| Portfolio.OfAre | celoflow-ui/services/tokenBalanceService.ts:269-277 | the holdings of a category are its own, in order |
| Portfolio.TotalAdds | celoflow-ui/services/tokenBalanceService.ts:267 | the total is the sum of the values |
| Portfolio.PercentagesAddUp | celoflow-ui/services/tokenBalanceService.ts:279-284 | shares of any list of groups add up to the share of their sum |
| Portfolio.CategoryBreakdown | celoflow-ui/services/tokenBalanceService.ts:269-295 | sorted groups whose counts, totals and percentages add up, the latter to 100 |
| Portfolio.Extremes | celoflow-ui/services/tokenBalanceService.ts:286-292 | first and last of the sorted holdings are the maximum and the minimum |
| Portfolio.PortfolioAnalytics | celoflow-ui/services/tokenBalanceService.ts:258-296 | the analytics as a whole |
| Portfolio.DisplayOrder | celoflow-ui/services/tokenBalanceService.ts:150-169 | a sorted permutation in which unlisted tokens precede listed ones other than CELO |
| Portfolio.KeysAre | celoflow-ui/lib/token-registry.ts:402-415 | the sort key of every symbol |
| Portfolio.ListedComeFirstIff | celoflow-ui/services/tokenBalanceService.ts:150-169 | when listed tokens do come first: only CELO is listed beside unlisted ones, worth at least as much |
| MentoSwap.RouteIsUsable | celoflow/plugins/mento_plugin.py:197-248 | a found route is complete, with the amount in base units rounded down |
| MentoSwap.AliasesAre | celoflow/plugins/mento_plugin.py:166-175 | what each alias stands for |
| MentoSwap.RouteGoesFromTo | celoflow/plugins/mento_plugin.py:174-235 | a found route goes from the address listed for the source to that of the target, through the exchange listed for the pair, the given direction first |
| MentoSwap.RouteIsFoundIff | celoflow/plugins/mento_plugin.py:197-226 | for a listed pair: exactly if both addresses are there and the broker quotes more than nothing for that direction |
| MentoSwap.BaseUnitsAre | celoflow/plugins/mento_plugin.py:207-210 | an amount in base units, toward zero by less than one: millionths for USDC and USDT, else 18 decimals |
| MentoSwap.MinimumNearQuote | celoflow/plugins/mento_plugin.py:308-309 | the minimum output never exceeds the quote |
| MentoSwap.SwapExchanges | celoflow/plugins/mento_plugin.py:363-372 | what a swap moves on the ledger, and nothing else |
| MentoSwap.SwapSucceedsIff | celoflow/plugins/mento_plugin.py:363-372 | when a swap does not revert, in terms of balances, allowance and quote |
| MentoSwap.ApprovalSets | celoflow/plugins/mento_plugin.py:343-361 | an approval sets one allowance, whatever it was |
| MentoSwap.SwapConserves | celoflow/plugins/mento_plugin.py:363-372 | owner and reserve together keep every token |
| MentoSwap.SendsInOrder | celoflow/plugins/mento_plugin.py:288-393 | at most one approval and then one swap, for the amount that was checked, and no effect before the first send |
| MentoSwap.SwappedIff | celoflow/plugins/mento_plugin.py:335-389 | when the swap takes effect, and what the ledger is then, for every point of failure, also one after the node took the transaction |
| MentoSwap.ErrorHidesSwapIff | celoflow/plugins/mento_plugin.py:359-393 | the hash of a swap only if it took effect; an error for one exactly when sending it or awaiting its receipt raises |
| MentoSwap.ResultMeans | celoflow/plugins/mento_plugin.py:288-393 | which outcome means what |
| MentoSwap.ErrorsRead | celoflow/plugins/mento_plugin.py:330-393 | how each outcome reads |
| MentoSwap.HashShapedIff | celoflow/plugins/mento_plugin.py:288-393 | which of the returned strings have the form of a transaction hash, however the hash of a swap is rendered |
| MentoSwap.HashWithoutSwapIff | celoflow/plugins/mento_plugin.py:288-303 | a string of that form without a swap exactly when unconnected or for an incomplete route |
| MentoSwap.NothingSentLooksSent | celoflow/plugins/mento_plugin.py:288-303 | both cases, on any ledger, with nothing sent |
| MentoSwap.ErrorCanHideSwap | celoflow/plugins/mento_plugin.py:379-393 | such a swap |
| MentoSwap.InputBuysMinimum | celoflow/plugins/mento_plugin.py:308-389 | the signer pays the input exactly if the swap takes effect, and then gets at least the minimum |
| MentoSwap.AllowanceLeft | celoflow/plugins/mento_plugin.py:343-389 | the allowance that is left after every outcome |
| MentoSwap.OthersGetNothing | celoflow/plugins/mento_plugin.py:263-390 | no balance of anybody but signer and reserve changes, the recipient included |
| MentoSwap.Chain.ExecuteSwap | celoflow/plugins/mento_plugin.py:288-393 | the imperative execution, with the string it returns, equals the function these are about, and its minimum is within the quote |

## Left out

- Retries of the Wise request: each recorded request may send up to three HTTP attempts, which are not recorded.
- The registry of paid services: an unregistered name returns an error before anything modelled here happens.
- The status analysis that the stream reader triggers after each delta; the detector itself is in `StatusDetector`.
- The currency codes echoed in a comparison, provider speed and logo, and the simulated comparison without an API key.
- Results that callers keep and change after a cache returned them (aliasing).
- Token amounts with more than 308 decimals, where the divisor is infinite and the printer raises.
- Closing an HTTP client after a paid call is taken not to raise; it would make an answered call count as one to retry.
- The list of contacts in `localStorage` is taken to hold contacts, or nothing.
- AuthService.LateAnswer: the caller that awaits the refresh resumes as soon as it has returned, with no other piece in between.
- MentoSwap.Chain.ExecuteSwap: the float product of quote and 0.99 is any number within a thousandth of the quote of it.
- MentoSwap.Chain.ExecuteSwap: a negative input amount, which cannot be encoded for the chain, is not modelled.
- Contacts.ContactsService.ImportContacts: fields other than the address are strings or booleans; schema limits of the database are not modelled.
- Deltas, addresses of tokens and collated dates that are not strings; callbacks that throw.
- Login de-duplication by a shared promise: any number of logins may be in flight, which covers both cases.
- Storage that refuses a write: the mirror in `AuthService` is stated for writes that succeed.
- JavaScript's inherited property names as backend operations or token symbols.
- Searching and sharing contacts, token filters, price lookups, balance changes over time: they would only add easy members.
- User interface, wallet signing, registries, notifications and the agent's prompts.
