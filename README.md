# Dragun: a verified model of the debt-recovery core

Dragun is a Next.js application for merchants who want to recover unpaid
debts. A merchant uploads a contract (a PDF). The text is chunked and embedded
for retrieval. Each debtor then talks to an AI agent that quotes the contract
and the merchant's settlement floor. The debtor pays through a Stripe Checkout
session with a 5% platform fee, and a Stripe webhook records the payment and
settles the debtor. The merchant dashboard sums outstanding and recovered debt
and forwards the merchant's settings.

This project models, in Dafny, the server-side logic of that flow:

- the text chunker;
- the checkout, webhook, chat and auth-callback route handlers;
- the contract-upload action and the debtor-response function of the AI engine;
- the dashboard's totals, settings conversion and status label;
- the environment validator and the dashboard route guard;
- the merchant-row reconciliation.

The model is organised as follows:

- **Database.** Supabase tables are sequences of row datatypes, held by the
  `Store.Db` class. Handlers that write are methods with `modifies db`. Each
  query is a pure function (`.single()` yields a row only when exactly one
  matches).
- **External services as parameters.** Stripe, `constructEvent`, the PDF
  parser, the embedder, the match RPC, the chat model, the code exchange and
  the clock are function- or value-typed parameters. Where the order of calls
  matters, a handler returns the calls it made.
- **Failing writes.** The database's answer to a write is a fault parameter
  (`Option<DbError>`).
- **Specification and handler.** Each handler has a specification function
  (`Decide`, `Dispatch`, `Ingest`, `Converse`, `Respond`, `Ensure`,
  `Callback`). The handler method is proved equal to it. The lemmas beside the
  function state what the source promises.
- **JavaScript built-ins.** `trim`, `lastIndexOf`, `includes`, `split(c)[0]`,
  `join`, `Math.round`, `Math.max`, `parseInt` and `parseFloat` are written
  out in module `Js`. JavaScript numbers are exact reals, plus infinities and
  NaN where that matters.

Lemmas about the source's behaviour:

- `chunkText` can loop forever.
  - `Chunking.StuckTextDiverges` exhibits a 5000-character text on which the
    default sizes revisit the same window.
  - The chunker therefore runs on fuel, and an exhausted budget is reported.
    `UploadContract` surfaces it as `OutOfFuel`.
  - `Chunking.AdvancingTerminates`, `NoOverlapTerminates` and
    `NoBreakCharTerminates` give conditions under which it stops.
- The webhook does not de-duplicate deliveries. Replaying a completed session
  records two payment rows (`Webhook.ReplayRecordsTwice`).
- The payment webhook marks a debtor `"settled"`, but the dashboard totals only
  count `"pending"` and `"paid"`. A settled debtor's debt therefore leaves the
  outstanding total without entering the recovered one
  (`Dashboard.SettlingLeavesBothTotals`).
- Checkout raises every merchant floor to at least 70%, but the agent's prompt
  quotes the raw floor. A floor under 70% is quoted lower than checkout accepts
  (`Rag.PromptFloorDiffersFromCheckout`).

Further facts about the code that the model keeps:

- The progress guard in lib/chunking.ts (lines 24-28) forces progress only
  when the next start is `<= 0` or at or past the text's end. A next start
  that falls back to an earlier window's start is not caught, which is how the
  loop above arises.
- The payment insert of app/api/stripe/webhook/route.ts (lines 35-42) does not
  check whether a row with the same `stripe_session_id` exists.
- app/actions/upload-contract.ts (line 53) awaits a single `Promise.all` over
  every chunk, with no batching. The model embeds the chunks one after the
  other, in order.
- Of the modelled handlers, only the payment webhook
  (app/api/stripe/webhook/route.ts, line 52) writes `last_contacted`. The chat
  route and the AI engine do not.

## Model

| member | source | states |
|---|---|---|
| Chunking.ChunkText | lib/chunking.ts:1-32 | The loop finishes within its fuel exactly when the window trajectory does. The chunks it then returns are the trimmed slices of that trajectory with empty ones dropped. |
| Chunking.FindWindowEnd | lib/chunking.ts:6-19 | The window end computed with `lastIndexOf` is the specified window end. |
| Chunking.AdvanceStart | lib/chunking.ts:22-28 | After a slice, the loop stops exactly when the specified next start is none. Otherwise it moves to that start. |
| Chunking.LastBreakIsMax | lib/chunking.ts:10-12 | `Math.max` of the last space and the last newline at or before the boundary is the last break character there, or -1. |
| Chunking.WindowEndBreak | lib/chunking.ts:9-19 | A window before the end of the text ends at its last space or newline past the start, else at `start + size`. The final window ends at the text's end. |
| Chunking.ShortText | lib/chunking.ts:5-31 | A text no longer than the window yields `[trim(text)]`, or `[]` when that trim is empty. |
| Chunking.ChunksBounded | lib/chunking.ts:14-31 | Every returned chunk is non-empty, at most `size` long, and the trim of a non-empty slice of the text. |
| Chunking.RunShape | lib/chunking.ts:3-28 | The first slice starts at 0 and the last ends at the text's end. Each next start is `end - overlap` when that is positive, else `end`, and never past the previous end. |
| Chunking.RunCovers | lib/chunking.ts:5-28 | Every position of the text from the run's start on lies inside some slice. |
| Chunking.WindowsFuelMonotone | lib/chunking.ts:5-29 | More fuel than needed does not change the result. |
| Chunking.FixedPointDiverges | lib/chunking.ts:5-29 | A window whose next start is its own start makes the loop run forever. |
| Chunking.StuckTextDiverges | lib/chunking.ts:22-28 | With size 1000 and overlap 200, 300 `a`s, a space and 4699 `b`s never finish. |
| Chunking.AdvancingTerminates | lib/chunking.ts:22-28 | When every window is followed by a later one or by none, the loop stops within `|text|` iterations. |
| Chunking.NoOverlapTerminates | lib/chunking.ts:22-28 | With overlap 0 and a positive size the chunker terminates. |
| Chunking.NoBreakCharTerminates | lib/chunking.ts:9-28 | A text with no space or newline terminates whenever the overlap is less than the size. |
| Store.WhereCounts | app/dashboard/page.tsx:36-39 | `.eq` keeps every matching row as often as it occurs and drops every other row. |
| Store.SingleWhere | app/api/stripe/checkout/route.ts:19-23 | `.eq(...).single()` gives a matching row, gives nothing when none matches, and gives the row when it is the only match. |
| Store.MerchantOf | app/api/chat/route.ts:11-21 | The joined merchant is a row with the debtor's `merchant_id`. It is null exactly when there is none. |
| Store.LatestContract | app/api/chat/route.ts:27-33 | The contract found is the merchant's and has the greatest `created_at`. It is null exactly when the merchant has none. |
| Store.SettleDebtor | app/api/stripe/webhook/route.ts:50-53 | Rows with the id become `"settled"` with `last_contacted` set to now. Every other row is unchanged. |
| Store.MarkOnboarded | app/api/stripe/webhook/route.ts:64-67 | Rows with that Stripe account get the onboarding flag. Every other row is unchanged. |
| Store.RebindMerchant | lib/merchant.ts:29-32 | Rows with the email get the new id. Every other row is unchanged. |
| Checkout.InputErrorCases | app/api/stripe/checkout/route.ts:12-17 | The body passes exactly with a non-empty string id and a finite positive number. The id is checked first: "Invalid request", then "Invalid amount". |
| Checkout.CurrencyOf | app/api/stripe/checkout/route.ts:9 | `"usd"` replaces only an absent currency. Any other value, even null, is kept. |
| Checkout.AcceptedRange | app/api/stripe/checkout/route.ts:32-39 | An amount passes exactly when it lies in `[0.99 * floor, 1.01 * debt]`, with floor = debt * max(0.7, merchant floor). |
| Checkout.FloorAtLeastSeventyPercent | app/api/stripe/checkout/route.ts:32-36 | No accepted amount is below 69.3% of the debt, whatever the merchant floor. |
| Checkout.FloorAboveCapRejectsAll | app/api/stripe/checkout/route.ts:32-39 | A merchant floor above 1.01/0.99 admits no amount. |
| Checkout.SettlementScenario | app/api/stripe/checkout/route.ts:32-39 | For debt 1000 and floor 0.5: 693 and 1010 pass; 692.99 and 1010.01 are rejected with their messages. |
| Checkout.RaisedFloorScenario | app/api/stripe/checkout/route.ts:32-39 | For debt 1000 and floor 0.6 the floor is raised to 700: 650 is rejected as below the floor and 710 passes. |
| Checkout.RejectionsBeforeLookup | app/api/stripe/checkout/route.ts:12-27 | A bad body gets 400 whatever the tables hold. An unknown debtor gets 404. |
| Checkout.ChargedSession | app/api/stripe/checkout/route.ts:12-78 | A session is requested only for a valid body, a found debtor with a merchant and an accepted amount. It is the session for that debtor, amount and currency. |
| Checkout.SessionShape | app/api/stripe/checkout/route.ts:43-64 | The session has card payment and mode "payment". It has one line item of `round(amount*100)`, the product name, the debtor's success and cancel URLs, and metadata of the debtor id and merchant id. |
| Checkout.DestinationChargeIff | app/api/stripe/checkout/route.ts:66-76 | Payment-intent data is present exactly for a merchant with an account. The fee is `round(amount*5)`, between 0 and the charge, and the destination and `on_behalf_of` are that account. |
| Checkout.Post | app/api/stripe/checkout/route.ts:8-83 | A rejection answers its status and text without calling Stripe. Otherwise Stripe is called once with the decided session, and its url is returned or its error thrown. |
| Webhook.IgnoredEvents | app/api/stripe/webhook/route.ts:28-33 | Other event types, and a completed session without a debtor id, write nothing and answer 200 `{"received":true}`. |
| Webhook.CompletedSession | app/api/stripe/webhook/route.ts:33-58 | One payment row (`amount_total/100`, "success", the session id) is appended, then the debtor is settled. A failed insert writes nothing and answers 500. |
| Webhook.SettlesOnlyThatDebtor | app/api/stripe/webhook/route.ts:49-58 | After success, every row of that debtor is settled, every other row is untouched, and no debt amount changes. |
| Webhook.AccountUpdated | app/api/stripe/webhook/route.ts:60-73 | Only the onboarding flag of the rows with that account changes, and only when its details are submitted. |
| Webhook.ReplayRecordsTwice | app/api/stripe/webhook/route.ts:35-42 | The same completed event delivered twice leaves two identical payment rows. |
| Webhook.ReplayExample | app/api/stripe/webhook/route.ts:35-53 | A concrete 500.00 session replayed gives two payment rows of 500.00. |
| Webhook.Post | app/api/stripe/webhook/route.ts:11-77 | A missing secret answers 500 and a failed verification answers 400 "Webhook Error: ...", both without writes. A verified event writes and answers as its dispatch says. |
| UploadContract.StoragePath | app/actions/upload-contract.ts:21 | The storage path is `merchants/<id>/<file name>`, the name used as given. |
| UploadContract.EmbedAll | app/actions/upload-contract.ts:44-53 | All chunks succeed, giving one vector per chunk in order, or the first failure's error is returned. |
| UploadContract.NothingWrittenBeforeParse | app/actions/upload-contract.ts:9-18 | No file throws "No file provided", and a parse failure throws; neither writes or embeds. |
| UploadContract.EarlyThrows | app/actions/upload-contract.ts:22-40 | A storage error writes nothing. A contract-row error throws its message, embeds nothing, and changes the tables only by the file stored as `application/pdf` at the path. |
| UploadContract.SuccessfulUpload | app/actions/upload-contract.ts:15-62 | The bytes are stored as `application/pdf` at the path. One contract row and one embedding row per chunk are recorded in order, and the new id is returned. |
| UploadContract.UploadedChunksBounded | app/actions/upload-contract.ts:43-58 | Every embedded chunk is non-empty, at most 1000 characters long, and the trim of a slice of at most 1000 characters of the extracted text. |
| UploadContract.EmbeddingFailureLeavesContract | app/actions/upload-contract.ts:29-60 | When embedding fails, the contract row stays without embeddings. |
| UploadContract.UploadContract | app/actions/upload-contract.ts:8-63 | The action's writes, result and embedder calls are those of the pipeline specification. |
| Rag.ShownContext | app/api/chat/route.ts:35-78 | No matches show the fallback. Several matches show their contents joined by "\n---\n". One match shows its content unless that is empty. |
| Rag.ContextInOrder | app/api/chat/route.ts:44-46 | One more match extends the context by the separator and its content, keeping the RPC's order. |
| Rag.TwoMatches | app/api/chat/route.ts:45 | Two matches give the first content, "\n---\n", then the second. |
| Rag.PromptFields | app/api/chat/route.ts:50-83 | Two prompts agree exactly when the merchant's name, strictness and floor, the debtor's name, currency and debt, and the context agree; the quoted percentage over 100 is the merchant's floor. The engine's template (lib/ai-engine.ts 45-62) interpolates the same facts. |
| Rag.PromptFloorDiffersFromCheckout | app/api/chat/route.ts:56 | The quoted floor is below checkout's enforced floor exactly when the merchant floor is under 70%. Otherwise they agree. |
| ChatRoute.UnknownDebtor | app/api/chat/route.ts:11-19 | An unknown debtor gets 404 before any call, with no writes. |
| ChatRoute.WritesOnlyConversations | app/api/chat/route.ts:90-96 | Only `conversations` changes, and only by appending. |
| ChatRoute.StreamedTurn | app/api/chat/route.ts:6-99 | On a streamed answer, the last message is embedded first. The match RPC runs (0.5, 5, newest contract) only with a contract. The model sees the whole history. The user and assistant rows are appended unless the insert fails. |
| ChatRoute.RetrievedContext | app/api/chat/route.ts:35-47 | After an RPC, the prompt's context is the joined matches, or the fallback when there are none. |
| ChatRoute.Post | app/api/chat/route.ts:6-100 | The handler's reply, calls and writes are those of the conversation specification. |
| AiEngine.MissingDebtor | lib/ai-engine.ts:7-13 | A missing debtor throws "Debtor not found" before any call. |
| AiEngine.EmbedsOnlyWithContract | lib/ai-engine.ts:18-42 | The message is embedded exactly when the merchant has a contract. Without one, only the model is called, with the fallback. The model always gets the single message and no history. |
| AiEngine.FallbacksDiffer | lib/ai-engine.ts:61 | The engine's fallback sentence differs from the chat route's. |
| AiEngine.GetDebtorChatResponse | lib/ai-engine.ts:5-71 | The reply and calls are those of the response specification. Nothing is written. |
| Dashboard.MerchantDebtors | app/dashboard/page.tsx:36-39 | A successful query returns each debtor of the seeded merchant as many times as it occurs in the table, and no other row. A failed query returns none. |
| Dashboard.TotalsAreSums | app/dashboard/page.tsx:61-62 | The folds equal the sums of `total_debt` over pending and over paid rows. A failed query or no rows gives 0. |
| Dashboard.ReduceIsSum | app/dashboard/page.tsx:61-62 | The left fold from an accumulator adds the status sum to it. |
| Dashboard.SettledCountsNowhere | app/dashboard/page.tsx:61-62 | A debtor neither pending nor paid changes neither total. |
| Dashboard.SettlingLeavesBothTotals | app/dashboard/page.tsx:61-62 | After the webhook settles a debtor, each total is the sum over the other debtors. |
| Dashboard.SettingsOf | app/dashboard/page.tsx:49-55 | Strictness is `parseInt` of the field. The floor is `parseFloat / 100`, finite exactly when the parse is. |
| Dashboard.StrictnessNotClamped | app/dashboard/page.tsx:49 | Any integer typed in is forwarded unchanged, inside 1..10 or not. |
| Dashboard.FloorIsPercentOver100 | app/dashboard/page.tsx:50 | A percentage typed as digits is forwarded divided by 100, with no bound. |
| Dashboard.MissingStrictnessIsNaN | app/dashboard/page.tsx:49 | A missing strictness field is forwarded as NaN. |
| Dashboard.LabelIff | app/dashboard/page.tsx:241-242 | The label is "Recovering" and the badge "badge-warning" exactly for pending. Every other status is "Settled". |
| Env.MissingFromMembers | lib/env.ts:12 | The filter keeps exactly the keys that are unset or empty. |
| Env.MissingFromSplits | lib/env.ts:12 | Filtering a concatenation filters each part, so the list order is kept. |
| Env.KeyInPlace | lib/env.ts:12 | A key keeps its place among the missing keys when unset, and is dropped when set. |
| Env.MissingKeys | lib/env.ts:2-12 | Missing is exactly the required keys that are unset or empty. With all set it is empty; with none set it is the whole list. |
| Env.ThrowsIffMissing | lib/env.ts:14-18 | The validator throws exactly when a key is missing. The message is the header and the " - KEY" lines joined by newlines. |
| Env.MessageNamesEveryKey | lib/env.ts:15-17 | Every missing key's " - KEY" line occurs in the message. |
| Env.InsecureUrlOnlyWarns | lib/env.ts:21-23 | With all keys set nothing is thrown. A Supabase URL not starting with "https://" gives exactly the one warning, any other none. |
| Middleware.RedirectIff | lib/supabase/middleware.ts:38-43 | A redirect happens exactly when there is no user, "/dashboard" occurs in the path, and "/login" and "/auth" do not. |
| Middleware.SignedInPasses | lib/supabase/middleware.ts:38-39 | A signed-in user is never redirected and gets the session response. |
| Middleware.RedirectTarget | lib/supabase/middleware.ts:45-63 | The redirect target is the request URL with only its pathname set to "/login". Otherwise the session response is returned unchanged. |
| Middleware.DashboardGuarded | lib/supabase/middleware.ts:38-50 | "/dashboard" without a user is redirected to the same URL at "/login". |
| Middleware.AuthOrLoginSubstringPasses | lib/supabase/middleware.ts:40-41 | Any path containing "/auth" or "/login", even under the dashboard, passes. |
| MerchantAccount.NameFallback | lib/merchant.ts:43 | The name is never empty: `full_name` when non-empty, else the email before '@' when non-empty, else "New Merchant". |
| MerchantAccount.NoUser | lib/merchant.ts:8 | No user gives null with no writes. |
| MerchantAccount.ReturnsUserId | lib/merchant.ts:8-53 | The result is null exactly when there is no user. Every returned id is the user's id. Only `merchants` changes. |
| MerchantAccount.ExistingRows | lib/merchant.ts:11-35 | A row found by id is returned with no write. A row found by email is rebound only when its id differs. |
| MerchantAccount.Inserted | lib/merchant.ts:38-53 | Otherwise one row named by the fallback is appended. Error 23505 still returns the id; any other error throws "Failed to initialize merchant account: ...". |
| MerchantAccount.Established | lib/merchant.ts:11-53 | With unique ids and emails and no failed write, afterwards exactly one row has the user's id. |
| MerchantAccount.EnsureMerchant | lib/merchant.ts:4-54 | The function's result and writes are those of the reconciliation specification. |
| AuthCallback.ErrorRedirect | app/api/auth/callback/route.ts:11-15 | A missing or empty code redirects to "/auth/auth-code-error" without an exchange. A failed exchange redirects there too. Neither writes. |
| AuthCallback.SuccessRedirect | app/api/auth/callback/route.ts:9-67 | A successful exchange redirects to origin + next ("/dashboard" when absent), whatever the writes answer. |
| AuthCallback.ExistingMerchantRows | app/api/auth/callback/route.ts:17-37 | A row by id is left alone. A row by email is rebound unconditionally. Debtors are untouched. |
| AuthCallback.SeedsOneSample | app/api/auth/callback/route.ts:38-64 | Debtors change exactly when the new-merchant insert and the seed insert succeed. Then one "John Sample" debtor of 1250.00 USD, pending and owned by the new row, is appended. |
| AuthCallback.AgreesWithEnsureMerchant | app/api/auth/callback/route.ts:17-46 | With no failed write, the callback leaves the same merchant rows as `ensureMerchant`. |
| AuthCallback.RebindNoOp | app/api/auth/callback/route.ts:31-37 | Rebinding the single row with an email to the id it already has changes nothing. |
| AuthCallback.Get | app/api/auth/callback/route.ts:5-73 | The handler's redirect, exchange calls and writes are those of the callback specification. |

## Left out

- Streaming: each model stream is reduced to the text it finishes with, and `toDataStreamResponse` is not modelled.
- The wording of both system prompts: a `SystemPrompt` holds only the facts they interpolate.
- Cookie copying in the session middleware (`setAll`, `getAll`), treated as framework plumbing. The session response is an opaque value.
- IEEE floating point: amounts and floors are exact reals, and `Math.round` is floor(x + 1/2). The 1% tolerances are exact.
- JavaScript's formatting of `amount_total / 100` and of numbers in prompts.
- The JSON encoding of the checkout response body: it is the url value itself.
- Chunking.ChunkText: runs for at most `fuel` iterations, because the source loop need not terminate. A run that has not finished is reported, not continued.
- UploadContract.EmbedAll: `Promise.all` is a sequential, order-preserving map. Concurrency and the order in which requests complete are not modelled.
- Errors raised by the database on selects, other than zero or several rows: a failed `.single()` reads as no row.
- Database constraints (primary keys, unique emails, foreign keys) are not enforced by the model. `MerchantAccount.Established` assumes uniqueness explicitly.
- Ties between contracts with equal `created_at`: any newest contract may be chosen.
- Users without an email: `user.email!` is taken to be present.
- Messages of thrown `TypeError`s are approximated by fixed strings.
- Request bodies that cannot be decoded: `await req.json()` and its destructuring in app/api/stripe/checkout/route.ts line 9 and app/api/chat/route.ts line 7 sit outside any `try`. A body that is not JSON, a `null` body, or a chat body whose `messages` is missing or not an array throws in the source. Checkout.Decide and ChatRoute.Converse take an already decoded request, so these throws are not modelled.
- Strings are sequences of Unicode code points, while JavaScript's `length`, `slice` and `lastIndexOf` count UTF-16 code units. The two agree on text without characters outside the Basic Multilingual Plane. On other text the chunk windows and the 1000-character bound of Chunking.ChunksBounded and UploadContract.UploadedChunksBounded are in different units from the source's, and a window that splits a surrogate pair cannot be represented.
- Js.ParseFloat: no round trip with a number printer is proved. Only the digit-string case is.
- Column defaults of a new merchant row (`strictness_level`, `settlement_floor`) are the `Db` constants `defaultStrictness` and `defaultFloor`.
- The pages' rendering, the marketing pages, the Stripe Connect onboarding action, the settings update action and the OAuth sign-in actions are not part of this model.
