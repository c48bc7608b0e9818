# Credit-gated image-generation webhook, modelled in Dafny

This project models the core of a Telegram bot that generates images from text prompts and runs on Modal:

- the `users` credit table and the four SQL statements the `Database` class issues on it (helpers.py);
- the webhook endpoint `web_inference`, which handles a Stripe payment confirmation, a Telegram `/start` message, a generation request or a malformed body. It decides whether to admit a request, writes the table, and emits Telegram sends and a detached `spawn` of the inference job (app.py);
- the end of the worker `Model.inference`: send the photo, then take one credit (app.py).

The model follows the code as written:

- A payment overwrites the balance with 50. The comment at app.py:74 and the user-facing text both say 50 credits are *added*, but `update_credits` sets the balance to 50.
- A payment for a user with no row changes nothing, yet the "credited" message is still sent.
- Admission reads the balance (`get_credits`, which inserts an unknown user with 10) and compares it with zero. It takes no credit.
- The worker takes the credit later, with `credits - 1` and no lower bound. So requests admitted while the balance is positive can drive it below zero.
- Any present `client_reference_id` makes the payload a payment. Empty message text is a generation request like any other text that is not `/start`.

The code has no atomic conditional decrement, no payment that inserts an unknown user, no refund and no protection against a payment delivered twice. The model has none of these either.

## Structure

- `wrappers.dfy`, module `Wrappers`: `Option`, used for dictionary keys that may be absent.
- `ledger.dfy`, module `Ledger`: the table as `map<UserId, int>`. It has one pure function per SQL statement, each with its contract, and lemmas about them.
- `helpers.dfy`, module `Helpers`: class `Database`. Its `users` map field is the table, and each method's new state is the matching `Ledger` function of the old one.
- `format.dfy`, module `Format`: how an f-string renders an integer user id, and reading such text back.
- `messages.dfy`, module `Messages`: the four texts the bot sends. A message is recorded by its template and the values filled in (`Text`), and `Render` gives the exact string of the f-string.
- `effects.dfy`, module `Effects`: the outbound calls as `Effect` values (Telegram `sendMessage`, `sendPhoto`, `sendChatAction`, and Modal `spawn`). Class `EffectLog` appends them in order.
- `app.dfy`, module `App`: the payload, the four-way `Classify` and the handler. `ClientReferenceId`, `SenderId`, `FirstName` and `MessageText` are the nested dictionary lookups of app.py:73 and app.py:84-86; a missing key gives `None`, where the code raises `KeyError`. They are the vocabulary in which `Classify` and the branch lemmas are stated. A `Step` records, beside each effect, the table as it stood when that call was made (`sentAgainst`); this is how the contracts place a write before or after a send (greeting before insert, confirmation after the payment write, photo before decrement). The handler exists as a function (`Handle`, `Complete`) and as methods (`WebInference`, `Inference`) proved equal to those functions against a `Database` and an `EffectLog`.
- `app_properties.dfy`, module `AppProperties`: what each branch does, and runs of handler calls and worker completions (`Run`), including over-admission.

Inputs the code reads from outside are parameters:

- the Stripe payment link (`link`);
- the generated image (`image`: the PNG bytes, standing for the pipeline applied to the prompt).

## Model

| member | source | states |
|---|---|---|
| `Ledger.CreateUser` | helpers.py:67-73 | the user is present afterwards; an absent user gets exactly 10 credits; an existing one leaves the table unchanged; no other row changes |
| `Ledger.GetCredits` | helpers.py:75-83 | the table afterwards is the table after `create_user`; the value returned is the stored balance of an existing user (table unchanged) or 10 for a new one; no other row changes |
| `Ledger.UpdateCredits` | helpers.py:85-89 | an existing user's balance becomes exactly `c`; an absent user leaves the table unchanged; the set of users and every other row are unchanged |
| `Ledger.DecrementCredits` | helpers.py:91-97 | an existing balance goes down by exactly 1, with no check against zero; an absent user leaves the table unchanged; no other row changes |
| `Ledger.CreateUserIdempotent` | helpers.py:71 | inserting the same user twice gives the same table as inserting once |
| `Ledger.UpdateIsOverwrite` | helpers.py:88 | the new balance is the argument, whatever it was before; repeating the update changes nothing |
| `Ledger.DecrementBelowZero` | helpers.py:95 | a balance at or below zero becomes negative after a decrement |
| `Helpers.Database.constructor` | helpers.py:51-58 | a connection sees the existing rows of the table |
| `Helpers.Database.CreateUser` | helpers.py:68-73 | the new table is `Ledger.CreateUser` of the old one |
| `Helpers.Database.GetCredits` | helpers.py:76-83 | returns `Ledger.GetCredits` of the old table and leaves its table; a missing row is created through `create_user` |
| `Helpers.Database.UpdateCredits` | helpers.py:85-89 | the new table is `Ledger.UpdateCredits` of the old one |
| `Helpers.Database.DecrementCredits` | helpers.py:91-97 | the new table is `Ledger.DecrementCredits` of the old one |
| `Effects.EffectLog.Emit` | helpers.py:12-45 | an outbound call (a Bot API call or a spawn) appends exactly one entry to the log, with the table as it stood at that moment, and keeps the earlier entries |
| `Format.Digits` | app.py:100 | the decimal rendering of an id is non-empty, is all digits, and starts with `0` only for zero |
| `Format.IntToString` | app.py:100 | no contract of its own: the `{user_id}` rendering, stated by `Format.IntToStringRoundTrip` and `Messages.LinkCarriesUserId` |
| `Format.IntToStringRoundTrip` | app.py:100 | the text an f-string makes of a user id reads back as that id |
| `App.DisplayName` | app.py:86 | the name shown is never empty; a non-empty first name is used as is, an empty one becomes "there" |
| `App.Classify` | app.py:71-87 | a payment exactly when the three Stripe keys are present (and the beneficiary is their value); malformed exactly when they are not and a message key is missing; `/start` exactly when the text is `/start`; otherwise a generation request carrying the sender id, display name and text |
| `App.Handle` | app.py:69-108 | no contract of its own: the outcome, table and effects of each branch are stated by the `AppProperties` lemmas (`PaymentBranch`, `PaymentIgnoresMessage`, `MalformedBranch`, `StartBranch`, `InsufficientCredits`, `AdmittedRequest`, `SpawnIffPositive`, `NewUserAdmitted`, `FallbackGreeting`, `HandleTouchesOneRow`) |
| `App.Complete` | app.py:59-60 | no contract of its own: `AppProperties.CompletionDecrements` states that it sends the photo and takes exactly one credit |
| `App.WebInference` | app.py:69-108 | the outcome, the new table, the effects appended to the log and the table each effect was sent against are those of `Handle` on the old table |
| `App.Inference` | app.py:52-60 | the photo is appended to the log while the table is still the old one, and the new table is that of `Complete` (one decrement) |
| `AppProperties.PaymentBranch` | app.py:72-80 | a payment sets an existing beneficiary's balance to 50 and leaves the table unchanged otherwise; in both cases exactly one confirmation message is sent, after the write, and the handler returns |
| `AppProperties.PaymentIgnoresMessage` | app.py:71-80 | when the client reference is present, replacing the message part of the payload does not change the result |
| `AppProperties.MalformedBranch` | app.py:81-86 | with a Stripe key missing and a message key missing, the handler raises `KeyError` with the table unchanged and no effects |
| `AppProperties.StartBranch` | app.py:87-93 | `/start` sends exactly the greeting and inserts the user; the greeting is sent against the old table, so a new user has no row when it goes out and has one afterwards; an existing user's balance is untouched and nothing is spawned |
| `AppProperties.InsufficientCredits` | app.py:95-101 | a read of at most zero implies the user existed with that balance; exactly one refusal message with the purchase link for that user is sent, and the table is unchanged |
| `AppProperties.AdmittedRequest` | app.py:102-108 | a positive read sends the confirmation, the upload indicator and one spawn of (user, prompt), in that order, all sent after the row is read (and inserted when missing); the table is only that of `get_credits`, with no decrement |
| `AppProperties.SpawnIffPositive` | app.py:95-108 | a generation request spawns one job if `get_credits` returned a positive value, and none otherwise |
| `AppProperties.NewUserAdmitted` | app.py:95-97 | a user with no row who sends a generation request gets a row with 10 credits and one spawned job |
| `AppProperties.FallbackGreeting` | app.py:86-91 | an empty first name is greeted as "there" |
| `AppProperties.HandleTouchesOneRow` | app.py:72-97 | a handler call changes at most the row of the user its event is about; a malformed payload changes nothing |
| `Messages.Render` | app.py:76-106 | no contract of its own: the exact string of each of the four f-strings, chosen by template; the refusal's ending is stated by `Messages.LinkCarriesUserId` |
| `Messages.CreditedString` | app.py:76-79 | no contract of its own: the text of the payment confirmation |
| `Messages.GreetingString` | app.py:88-91 | no contract of its own: the greeting sent for `/start`, with the display name filled in |
| `Messages.RefusalHead` | app.py:98-100 | no contract of its own: the refusal text up to the end of the payment link |
| `Messages.PurchasePrefix` | app.py:98-101 | no contract of its own: the refusal text up to the user id, ending in `?client_reference_id=` as `Messages.LinkCarriesUserId` states |
| `Messages.GeneratingString` | app.py:103-106 | no contract of its own: the confirmation of an admitted request, with the display name and prompt filled in |
| `Messages.LinkCarriesUserId` | app.py:100 | the refusal message ends in `?client_reference_id=` followed by the rendered user id, and that id text reads back as the user |
| `AppProperties.CompletionDecrements` | app.py:59-60 | a completion sends the photo and takes exactly one credit from an existing user; the photo is sent against the old table, one credit above the new balance; an absent user leaves the table unchanged |
| `AppProperties.AdmissionsLeaveBalance` | app.py:95-108 | from a positive balance, any number of generation requests are all admitted (one spawn each) and leave the table unchanged |
| `AppProperties.CompletionsLowerBalance` | app.py:59-60 | n completions for a user lower their balance by exactly n and change no other row |
| `AppProperties.OverAdmission` | app.py:95-97 | requests admitted at a positive balance b and later completed leave b minus the number of completions, with one spawn per request |
| `AppProperties.TwoAdmittedAtOne` | app.py:95-97 | two requests admitted at balance 1 that both complete leave the balance at -1 |

## Left out

- HTTP calls to the Telegram Bot API (URLs, the 20-second timeouts, status checks, error printing). Each call is only an entry in the effect log, because the calls are network I/O.
- The psycopg2 connection, autocommit, `close` and the `CREATE TABLE` statement. Every `Database()` in the code connects to the same table, so the model uses one `Database` object.
- Environment variables and the `EnvironmentError` raised when one is missing. The Stripe link is the unconstrained `link` parameter; an unset `STRIPE_PAYMENT_LINK` renders as `None`, which is the case `link == "None"`.
- The Modal decorators, image building, GPU configuration and `wait_for_response=False`. These are deployment settings.
- The Stable Diffusion pipeline and the PNG encoding. The image is the `image` parameter of `Inference`.
- Concurrency. Spawned workers run later, as explicit `Completion` actions in `Run`; interleavings are not modelled.
- `AppProperties.OverAdmission`, `AppProperties.Run`: a `Completion` action is not matched to an earlier `Spawn`. A run may complete a job that was never spawned, and the lemma does not relate the number of completions to the number of requests; in the code a completion happens only for a spawned job.
- Keys the handler never reads, and JSON value types. A payload is only the keys the handler looks up.
- `App.Classify`: does not model a `client_reference_id` that is JSON null or a string Postgres cannot cast to BIGINT. The model takes the value as a user id.
- `App.DisplayName`: does not model a `first_name` that is JSON null (also falsy in Python). Only the empty string falls back to "there".
- `Ledger.DecrementCredits`: does not model the error Postgres raises when `credits - 1` leaves the 32-bit INT range. Balances are unbounded integers; ids are unbounded rather than 64-bit.
- A NULL `credits` column, which no statement of the code writes.
- Failures of any database or Telegram call.
