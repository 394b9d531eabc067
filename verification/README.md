# Nostr Wallet Connect service — a Dafny model

This project models the decision logic of a Nostr Wallet Connect (NIP-47)
service written in Go, plus one colour helper from its Tailwind
configuration. The service holds a database of users, their connected apps,
the apps' spending permissions, the NIP-47 requests it has seen and the
payments it made. It answers `pay_invoice` requests that arrive over a
Nostr relay.

Everything is modelled functionally. Every table is a sequence of rows in
strictly increasing primary-key order; the store invariant demands it. So
gorm's `First` is "the first matching row", which is the one with the
lowest key. An
operation is a pure function from the old store to the new store and its
answer. Foreign calls are not modelled; an `Oracles` record of total
functions and failure flags stands in for them:

- NIP-04 shared secrets, encryption and decryption;
- JSON marshalling;
- BOLT #11 decoding;
- event signing;
- `SendPaymentSync`;
- failures of the database calls whose error the code checks: the app lookup, the inserts, the user lookup, the app-creation transaction, and the identity load and save.

The clock is a parameter.

| file | module | what it holds |
|---|---|---|
| `wrappers.dfy` | `Wrappers` | `Option` and `Result` |
| `text.dfy` | `Text` | Go `%d`, `strconv.Atoi`, truncating `/` and `%`, `encoding/hex`, JavaScript `toString(16)`, split and join |
| `models.dfy` | `Models` | event kinds, NIP-47 error codes, the rows, the store invariant (primary keys, unique indexes, foreign keys), cascade deletes, the wire records and the configuration |
| `service.dfy` | `Nip47Service` | `HandleEvent`, `createResponse`, `GetUser`, and the "replied" follow-up that runs after publishing |
| `service_props.dfy` | `Nip47Properties` | what `HandleEvent` guarantees |
| `handlers.dfy` | `Handlers`, `BudgetExamples` | `getEndOfBudgetString` and `AppsCreateHandler` |
| `startup.dfy` | `Startup` | the driver choice, the secret-key resolution and `createFilters` from `main` |
| `lighten.dfy` | `Tailwind` | `lighten` |

Some behaviours of the code are kept as written.

- `HandleEvent` looks the sender's app up with a struct condition. gorm drops zero-valued fields from such a condition, so a request whose pubkey is empty matches the first app (`Nip47Service.FindApp`).
- In the `UNAUTHORIZED` branch the shared secret's `err` shadows the outer one. The handler therefore returns the reply and no error, or neither when building the reply fails.
- Nothing is stored for an unregistered sender, so the same request is answered again when it is delivered again (`Nip47Properties.UnauthorizedRepeats`).
- The payment row is inserted before the Lightning call, so it remains even when the payment fails.
- `lighten(c, 0)` returns `#` followed by the digits in lower case, so a colour already in that form comes back unchanged (`Tailwind.LightenZero`).

## Model

| member | source | states |
|---|---|---|
| Models.EventKindsDistinct | models.go:10-12 | The info, request and response event kinds are three different numbers. |
| Models.ErrorCodesDistinct | models.go:14-20 | The seven NIP-47 error codes are pairwise different strings. |
| Models.ErrorCodeRoundTrip | models.go:14-20 | Every error code's string reads back as that same code. |
| Models.ParseErrorCode | models.go:14-20 | A string is recognised as a code exactly when it is one of the seven code strings, and then it spells that code. |
| Models.DistinctKeysUnique | models.go:31-96 | Under a primary key or unique index, such as `NostrId` on events or `AlbyIdentifier` on users, one key value identifies at most one row. |
| Models.UpdateRow | service.go:216-229 | Saving a loaded row rewrites only the row with that primary key; every other row, the row count and the order stay as they were. |
| Models.FindEvent | service.go:104-107 | The lookup by Nostr id returns a stored row with that id, or none when no row has it. |
| Models.DeleteApp | models.go:59-96 | Deleting an app removes it and exactly the permissions, events and payments that point at it; every other row stays. |
| Models.DeleteUser | models.go:44-96 | Deleting a user removes exactly that user, its apps, and the permissions, events and payments of those apps. Every other row stays, and the identities are untouched. |
| Models.DeleteAppValid | models.go:59-96 | Cascading an app delete keeps every store invariant, and no row refers to the deleted app afterwards. |
| Models.DeleteUserValid | models.go:44-96 | Cascading a user delete keeps every store invariant (so no permission, event or payment is left pointing at a removed app), and neither the user nor any of its apps remains. |
| Models.JsonKeys | models.go:123-127 | A response's JSON has `error`, `result` and `result_type` each exactly when that field is set, with no member twice. |
| Models.ErrorJsonKeys | models.go:129-132 | An error object's JSON has `code` and `message` each exactly when it is non-empty. |
| Nip47Service.CreateResponse | service.go:238-259 | A reply is a kind-23195 event by the service's identity, stamped with the given time and tagged `p` = sender and `e` = request id. Its content encrypts the marshalled body. It fails exactly when marshalling, encryption or signing fails. |
| Nip47Service.FindApp | service.go:114-117 | The app found has the sender's key, except that an empty sender key matches the first app. No app is found only when the key is non-empty and no app has it. The app found is the first match: no earlier row matches. |
| Nip47Service.FindAppLowestId | service.go:114-117 | In a table in key order, an app is found whenever one matches, and it has the lowest id among the matches. |
| Nip47Service.SatoshiOf | service.go:196 | The payment amount is the invoice's millisatoshi amount divided by 1000, rounded down. |
| Nip47Service.GetUser | service.go:30-49 | With the LND backend the user is always id 1. Otherwise no session id means no user. When there is an id to look up, a database failure is an error. Otherwise a user is found exactly when a stored row has that id, and "no user" is reported when none has it. A found user is a stored row whose apps are exactly its own apps. An error is reported only when the database fails. |
| Nip47Service.GetUserLoadsRow | service.go:30-49 | In a valid store, looking up an existing user's id with a working database loads that very row with exactly its apps. |
| Nip47Service.MarkReplied | service.go:72-80 | Marking a reply for a request that has no row changes nothing. |
| Nip47Service.HandleEvent | service.go:94-236 | Handling a request never touches users, apps, permissions or identities, and adds at most one request row and at most one payment. The store changes only after the end of stored events, and only for a request id not yet stored. |
| Nip47Service.Dispatch | service.go:164-184 | The dispatch stage leaves users, apps, permissions, identities and the number of request rows alone and adds at most one payment. It adds one only for a raw `ln…` invoice or a payload that parses as a JSON request. |
| Nip47Service.PayInvoice | service.go:185-235 | The invoice stage leaves users, apps, permissions, identities and the number of request rows alone and adds at most one payment. Its reply carries no error exactly when the Lightning payment succeeded. |
| Nip47Properties.FindEventComplete | service.go:104-112 | The duplicate check finds a row exactly when the request id is among the stored Nostr ids. |
| Nip47Properties.IgnoredBeforeEOS | service.go:95-98 | Before the end of stored events, a request gets no reply and no error, and the store is unchanged. |
| Nip47Properties.DuplicateIgnored | service.go:104-112 | A request whose id is already stored gets no reply and no error, and the store is unchanged. |
| Nip47Properties.HandledOnce | service.go:104-162 | Once a request has been stored, handling it again changes nothing and replies nothing, whatever the outside calls answer then. |
| Nip47Properties.UnauthorizedSender | service.go:114-130 | A sender with no app, once the secret is computed, gets an `UNAUTHORIZED` reply with the fixed message and never an error. The only exception is a failure to build the reply, which gives no reply at all. Nothing is stored. |
| Nip47Properties.UnauthorizedRepeats | service.go:114-130 | Delivering an unauthorised request again produces the same outcome again: that path is not idempotent. |
| Nip47Properties.DecryptFailure | service.go:138-151 | Content that does not decrypt is an error, with no reply, and nothing is stored. |
| Nip47Properties.UnknownMethod | service.go:164-182 | A JSON request for any method other than `pay_invoice` is stored as `received` and answered `NOT_IMPLEMENTED` with the message `Unknown method: <m>`. |
| Nip47Properties.PaymentPath | service.go:185-235 | A decodable invoice, whether a raw `ln…` payload or the `invoice` parameter, yields a payment row: the truncated amount, the invoice, and links to the request and its app. The row is stored whatever the Lightning call answers. A failed payment leaves the request in `error` and replies `INTERNAL`. A successful one leaves it `executed`, stores the preimage and replies `pay_invoice` with the preimage. |
| Nip47Properties.AnswerShaped | service.go:238-258 | Answering with any of the handler's bodies gives either a reply shaped as a response to the request or an error from building it, never silence. |
| Nip47Properties.PayInvoiceEffect | service.go:185-235 | The invoice stage keeps the request's row in `received`, `executed` or `error`, adds at most one payment for that row, and answers with a well-shaped reply. |
| Nip47Properties.DispatchEffect | service.go:164-184 | The dispatch stage has the same effect for raw invoices, JSON requests and unreadable payloads alike. |
| Nip47Properties.RejectedUnchanged | service.go:94-162 | A request stopped by any check before its row is inserted (the end-of-stored-events gate, a duplicate id, an unknown sender, a failed secret, decryption or insert) leaves the store as it was, and any reply it gets is shaped as a response to it. |
| Nip47Properties.AcceptedDispatches | service.go:138-184 | A request that passes every check is stored as `received` under the next event id, for its app, and its decrypted payload is then dispatched. |
| Nip47Properties.HandleEventEffect | service.go:94-236 | A request that fails a check before its row is inserted leaves the store untouched. An accepted one adds its row and at most one linked payment, and touches nothing else. |
| Nip47Properties.ReplyShape | service.go:238-258 | Every reply has kind 23195, comes from the identity key and is tagged exactly `p` = sender and `e` = request id. It carries either an error coded `UNAUTHORIZED`, `NOT_IMPLEMENTED` or `INTERNAL`, or a `pay_invoice` result. |
| Nip47Properties.StoredIffAccepted | service.go:104-162 | The stored ids gain exactly the request id, and only when the request passed every check up to its insert. |
| Nip47Properties.HandleEventFrame | service.go:153-236 | Handling never removes or alters an earlier event or payment and never touches users, apps, permissions or identities. The new row, if any, belongs to the request and is never `replied`. |
| Nip47Properties.MarkRepliedAdvances | service.go:72-80 | After publishing, only the request's own row changes: it becomes `replied` with the reply id, and its state never moves backwards. |
| Nip47Properties.UnauthorizedNotMarked | service.go:70-80 | Nothing was stored for an unauthorised reply, so marking it replied changes nothing. |
| Nip47Properties.AppendEventValid | service.go:153-162 | Inserting a request row with a fresh id, a new Nostr id and an existing app keeps the store invariant. |
| Nip47Properties.AppendPaymentValid | service.go:196-200 | Inserting a payment with a fresh id, linked to an existing request of the same app, keeps the store invariant. |
| Nip47Properties.AcceptedEffectValid | service.go:153-235 | Any effect an accepted request can have keeps the store invariant. |
| Nip47Properties.HandleEventValid | service.go:94-236 | Handling a request keeps a valid store valid. |
| Handlers.BudgetDisplayOf | echo_handlers.go:191-214 | No end shows dashes. Under a day the text shows whole hours and the minutes left over, truncated toward zero, so a past end is negative. Under thirty days it shows whole days. Otherwise it shows thirty-day months and leftover days. Each figure is bounded by the remaining duration. |
| Handlers.ParseRender | echo_handlers.go:199-214 | The text loses nothing: its figures can be read back from it. |
| Handlers.EndOfBudgetString | echo_handlers.go:191-215 | For every 64-bit duration, the budget text reads back as the figures computed from that duration. |
| BudgetExamples.BudgetHoursExample | echo_handlers.go:197-202 | Ninety minutes and a bit renders as `1 hours and 30 minutes`. |
| BudgetExamples.BudgetOverdueExample | echo_handlers.go:197-202 | Ninety minutes past the end renders as `-1 hours and -30 minutes`. |
| BudgetExamples.BudgetDaysExample | echo_handlers.go:203-214 | Three days and an hour renders as `3 days`, 45 days as `1 months 15 days`, and 60 days as `2 months`. |
| Handlers.PairingPubkeyIff | echo_handlers.go:279-280 | A supplied key passes exactly when it is 64 hex digits, in either case. |
| Handlers.EncodedKeyAccepted | echo_handlers.go:279-280 | Every 32-byte key written in hex passes. |
| Handlers.EndOfDay | echo_handlers.go:288-291 | The zero expiry stays zero. Any other expiry keeps its date and location, becomes 23:59:59.000000000, and remains a valid time. |
| Handlers.EndOfDayIdempotent | echo_handlers.go:289-291 | Snapping an expiry twice is the same as snapping it once. |
| Handlers.EndOfDayLatest | echo_handlers.go:290 | The snapped expiry is no earlier than the chosen second and no earlier than any whole second of that day: it is exactly 86,399 seconds after midnight. |
| Handlers.PairingUriShape | echo_handlers.go:340-344 | The pairing URI is the scheme, the identity key, `?`, and then `relay`, `secret` and, only when there is an address, `lud16`, joined by `&`. |
| Handlers.PairingUriRoundTrip | echo_handlers.go:340-344 | A client reads back the identity key, the relay, the secret and the lightning address, absent when empty, whenever no part contains the separator that follows it. |
| Handlers.ReturnToQuery | echo_handlers.go:329-335 | The return URL's query gains the relay and the identity key. It gains the lightning address only when the user has one. Every other parameter is kept as sent. |
| Handlers.CreateApp | echo_handlers.go:293-316 | The transaction appends one app, with the user's id, the name, the key and an id above every existing one. Exactly when a permission is needed it also appends one permission for that app, with the form's amount, renewal and expiry and an id above every existing one. Every earlier row and the other tables stay. |
| Handlers.AppsCreate | echo_handlers.go:261-352 | A failed user lookup answers with an error, and a missing user redirects home; neither stores anything. A supplied key that is not valid redirects to `/apps`. The store changes exactly when a user was found, the key is absent or valid, and the transaction commits. |
| Handlers.CreatedPermissionIff | echo_handlers.go:299-312 | The new app gets a permission exactly when the amount is positive or an expiry is set. That permission is for `pay_invoice` with the form's amount, renewal and snapped expiry. |
| Handlers.CreateAllOrNothing | echo_handlers.go:293-344 | The store changes exactly when the user is handed the connection. It then holds the app, with the client's or the generated key, and, when needed, its permission. A failed transaction stores neither. |
| Handlers.InvalidKeyRejected | echo_handlers.go:273-284 | A supplied key that is not 64 hex digits creates nothing and redirects to `/apps`. |
| Handlers.CreateAppValid | echo_handlers.go:293-316 | The committed transaction keeps a valid store valid. |
| Handlers.AppsCreateValid | echo_handlers.go:261-316 | Creating an app for a user from `GetUser` keeps a valid store valid. |
| Handlers.HandoffCarriesWallet | echo_handlers.go:326-344 | Both hand-offs give the client the relay and the identity key. The pairing URI also carries the generated secret, or none when the client supplied its own key, and the key it reports is the one stored. |
| Startup.ConfigureDatabase | main.go:37-50 | SQLite forces the connection limit to 1, PostgreSQL keeps it, and nothing else in the configuration changes. |
| Startup.ChooseDriver | main.go:37 | PostgreSQL is chosen exactly when the URI starts with `postgres://`, `postgresql://` or `unix://`. |
| Startup.DriverExamples | main.go:37-50 | The scheme test is case-sensitive, and a bare file name or an empty URI selects SQLite. |
| Startup.ResolveIdentity | main.go:65-92 | Without a configured key the Alby backend is fatal. On success the key is non-empty, the identity pubkey is derived from it, and nothing else in the configuration changes. A configured key is used as is, succeeds exactly when a public key derives from it, and leaves the store alone. Otherwise a failed lookup is an error. A stored non-empty key is reused and the store is unchanged. With none stored, a failed save is an error, and on success the generated key is used and saved in the identity row. |
| Startup.ResolveIdentityValid | main.go:70-86 | Reusing or generating the key touches only the identities table and keeps the store invariant. |
| Startup.KeySurvivesRestart | main.go:70-86 | Once a key has been generated and saved, the next start finds the same key and changes nothing, whatever key would be generated then. |
| Startup.CreateFilters | main.go:189-198 | There is exactly one filter. It has kind 23194 and tag `p` = [identity pubkey], and its authors are set, to the client key, exactly when a client key is configured. |
| Startup.SubscriptionSelects | main.go:189-198 | By NIP-01 matching, the subscription delivers exactly the kind-23194 events that tag the identity key and, when a client key is set, were signed by that client. |
| Tailwind.Channels | tailwind.config.js:6-10 | A colour's three channels, bits 16–23, 8–15 and 0–7 of its value, are each in [0, 255]. |
| Tailwind.Clamp | tailwind.config.js:15-17 | The two-sided clamp keeps values in [0, 255] unchanged and cuts the rest to 0 or 255. |
| Tailwind.AmountOf | tailwind.config.js:7 | The amount is the whole number nearest to 2.55 × percent, with halves rounded up. |
| Tailwind.LightenBy | tailwind.config.js:11-21 | The result is `#` followed by six digits. |
| Tailwind.Lighten | tailwind.config.js:5-22 | The result is `#` and six lower-case hex digits. Each channel is the input channel plus 2.55 × percent, rounded, clamped to [0, 255]. |
| Tailwind.LeadingOne | tailwind.config.js:14-20 | Writing 0x1000000 + v in hex and dropping the first digit leaves exactly six digits spelling v. |
| Tailwind.LightenChannels | tailwind.config.js:5-22 | The result is `#` and six lower-case hex digits, and each channel, in its own position, is the input channel plus the amount, clamped. |
| Tailwind.LightenBrightens | tailwind.config.js:8-17 | A non-negative amount never darkens any channel. |
| Tailwind.LightenZero | tailwind.config.js:5-22 | Lightening by zero gives `#` plus the digits in lower case, so a colour already in that form comes back unchanged. |
| Tailwind.LightenCompose | tailwind.config.js:5-22 | Lightening by two non-negative amounts in turn equals lightening once by their sum. |
| Tailwind.SurfaceColors | tailwind.config.js:48-56 | `#121212` lightened by 5 % is `#1f1f1f`, and by 16 % is `#3b3b3b`. |

## Left out

- `oauth.go` and `ln.go` are stale duplicates of `alby.go`, `echo_handlers.go` and `lnd.go`/`lnbits.go`. The rest of that code is session and redirect plumbing.
- The Alby, LND and LNbits payment clients are not modelled. `SendPaymentSync` is the `pay` oracle: a preimage or an error message.
- NIP-04 encryption, event signing, key generation, BOLT #11 decoding and JSON are foreign library calls. They are oracle functions.
  - A generated key is taken as 64 lower-case hex digits.
  - The public key of a secret is a partial oracle.
- `StartSubscription`, the relay reconnect loop, server start and shutdown, publishing, and the info event are concurrency and network I/O.
  - The `replied` step that follows a publish is modelled as `Nip47Service.MarkReplied`, separately from `HandleEvent`.
- `HandleEvent` has no quota, expiry or restricted-method checks, so none are modelled. The codes `QUOTA_EXCEEDED`, `EXPIRED` and `RESTRICTED` exist only as constants. `GetBudgetUsage` and `GetEndOfBudget` are not part of this model.
- `time.Now` is not modelled: replies take `now` as a parameter, and the budget text takes the remaining duration.
  - Handlers.BudgetDisplayOf: works on the integer duration. It does not model the floating-point `Hours()` and `Minutes()`, which can round differently by one unit for very large durations.
  - `Time.Sub` saturates at the 64-bit range; the caller is expected to do that.
- RFC 3339 parsing of the expiry and the timestamp conversion in `AppsNewHandler` are not modelled. The form carries the already parsed time, with the zero time when parsing failed.
- Handlers.EndOfDay: keeps the civil fields. It does not model `time.Date` normalisation for daylight-saving gaps.
- Tailwind.AmountOf: rounds 2.55 × percent exactly. In IEEE double arithmetic the product falls just below the half for 50, 90, 170 and 190 % (2.55 × 50 is 127.49999999999999), where the source gives one less. `Tailwind.LightenBy` takes the integer amount directly.
- `lighten` on a malformed colour, meaning a wrong length or non-hex digits, gives an arbitrary number in the source. The model requires a well-formed colour.
- The `returnTo` redirect is kept as the parsed URL with its new query. `url.Values.Encode` (sorted keys, percent-escaping) and `url.Parse` are not modelled; `url.Parse` is the `parseUrl` oracle.
- The pairing URI is built without escaping, as the source does. Its read-back holds only when no part contains `?` or `&`.
- `CreatedAt`, `UpdatedAt`, `RepliedAt` and `User.Expiry` columns are left out.
  - New primary keys are one past the largest in the table, where the database uses a sequence.
- SQLite's foreign-key enforcement pragma and the gorm migration are not modelled.
- The three `Save` calls whose error the code ignores (service.go:218, 228 and 229) are modelled as always succeeding. In the source a failed save leaves the request row in `received`, or the payment without its preimage, and the reply is still sent. The same holds for the `replied` save after publishing (service.go:80).
- The duplicate check at service.go:106 looks only at `RowsAffected`, so a failing `Find` counts as "not seen". The model's lookup never fails. In the source such a request goes on to the insert, where the unique index on the Nostr id rejects a request that was already stored.
- Templates, CSRF tokens, cookies and the other handlers are UI plumbing.
- The Tailwind theme tables and plugins are static data. Only two of the surface colours are worked out.
- `envconfig` defaults are not modelled. Only the backend-type constants are used.
- Startup.KeySurvivesRestart: assumes stored identity ids are non-zero, as auto-increment keys start at 1. It does not cover a row saved with id 0.
