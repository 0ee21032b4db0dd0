# Banking system backend — a Dafny model

This project models the Express backend of a small banking system. Users
register and log in with a password. A second factor (TOTP) is set up and
checked through a short-lived "pending" cookie before the session cookie is
issued. Signed-in users then:

- open and close checking, savings and business accounts;
- deposit, withdraw and transfer money between accounts they own;
- send external payments;
- schedule recurring payments.

Two parts of the backend are public:

- a payment portal, through which anyone can pay into an account by its IBAN;
- an API-key protected endpoint, through which a partner system credits an account by its IBAN.

Account numbers and IBANs are stored encrypted, with a searchable digest beside each. The body and the query of every request are sanitized before they reach a route; route parameters are not, since the middleware runs before a router fills them in.

The model follows the source module by module:

| Dafny module (file) | source |
|---|---|
| `Crypto` (`crypto.dfy`) | `backend/utils/crypto.js`: AES-GCM text encryption and the digest, abstract |
| `AccountNumbers` (`account_numbers.dfy`) | `backend/utils/accountNumbers.js` |
| `Accounts` (`accounts.dfy`) | `backend/models/Account.js` |
| `Transactions` (`transactions_log.dfy`) | `backend/models/Transaction.js` |
| `Users` (`users.dfy`) | `backend/models/User.js` |
| `ScheduledPayments` (`scheduled_payments.dfy`) | `backend/models/ScheduledPayment.js`, `backend/routes/scheduledPayments.js` |
| `Ledger` (`ledger.dfy`) | `backend/routes/transactions.js`, `backend/routes/accounts.js` |
| `PaymentPortal` (`payment_portal.dfy`) | `backend/routes/paymentPortal.js` |
| `Auth` (`auth.dfy`) | `backend/routes/auth.js`, with `backend/utils/tokens.js` |
| `TwoFactor` (`two_factor.dfy`) | `backend/utils/twoFactor.js` |
| `Cookies` (`cookies.dfy`) | `backend/utils/cookies.js` |
| `Middleware` (`middleware.dfy`) | `backend/middleware/auth.js`, `backend/middleware/externalApiKey.js` |
| `Sanitize` (`sanitize.dfy`) | `backend/middleware/sanitize.js` |
| `Validation` (`validation.dfy`) | `backend/middleware/validation.js` |
| `Text`, `Ordering`, `Wrappers` | JavaScript string built-ins, SQL `WHERE` / `ORDER BY` / `LIMIT` / `COUNT`, and `Option` |

## How the model is built

- **Tables are classes.** A model (`Account`, `Transaction`, `User`, `ScheduledPayment`) holds a PostgreSQL table. Each becomes a class whose fields are the table (`AccountStore`, `TransactionLog`, `UserStore`, `ScheduleStore`) and the next `SERIAL` id.
  - Each class has a `Valid()` invariant: ids issued by the sequence and listed once, and `UNIQUE` columns distinct.
  - Every row the model inserts has its account number and IBAN encrypted (`Accounts.NewRow`, `ScheduledPayments.ScheduleStore.Create`). The invariant does not demand it of every stored row, because the source reads unprefixed legacy values back as they are (`AccountNumbers.LegacyPassThrough`).
  - Its methods state the whole new table.
  - Its finders are functions that read the table.
- **Routes are methods.** A route handler is a method that updates the stores and returns the HTTP status and body. Every outcome is stated as an if-and-only-if on the state before the call.
  - Every money-moving route keeps `Ledger.Books` true: balances are non-negative, and each account's balance equals the net of the log entries that touch it.
  - Each money-moving route states how it changes the total of all balances. Only deposits, withdrawals and the two external routes change it.
- **Money is integer cents.** The source keeps `DECIMAL` columns and does arithmetic with `parseFloat`.
- **Crypto is abstract.** AES-GCM, the digest, JWT signing and verification, TOTP checking, `keyuri` and bcrypt are function values in `Crypto.Primitives` and `Auth.Services`.
  - Where a round trip is needed, the model requires it as a predicate (`Crypto.Sound`) rather than assuming it.
- **Randomness and the clock are parameters.** Random bytes, IVs, fresh TOTP secrets and the current time are passed in.
- **Absent and empty are distinct.** A JavaScript value that may be missing is an `Option`, and an empty string is falsy wherever the source tests truthiness.

Notable behaviours of the code, which the model follows:

- `hashAccountNumber` / `hashIban` upper-case the value but do not strip whitespace, so a spaced number hashes differently (`AccountNumbers.HashKeepsWhitespace`).
- `generateIban` appends four hex characters of a SHA-1 of random input. There are no ISO 13616 mod-97 check digits.
- An expired pending-challenge token is rejected like a missing one: 401 "No pending two-factor challenge".
- `Transaction.findByUserId` returns the joined `account_number` columns still encrypted. Only `Account`'s own finders decrypt.

## Model

| member | source | states |
|---|---|---|
| Crypto.DecryptText | backend/utils/crypto.js:31-46 | `null` exactly for an empty payload; any other payload is decrypted |
| Crypto.DecryptEncryptText | backend/utils/crypto.js:18-46 | decrypting what `encryptText` produced gives the plaintext back, for every IV |
| AccountNumbers.Normalize | backend/utils/accountNumbers.js:12 | the normalized value has no whitespace and no lower-case letter |
| AccountNumbers.NormalizeOfNormal | backend/utils/accountNumbers.js:12 | normalizing an already normal value leaves it unchanged |
| AccountNumbers.Encrypt | backend/utils/accountNumbers.js:7-14 | `null` exactly for an empty value |
| AccountNumbers.DecryptEncrypt | backend/utils/accountNumbers.js:7-27 | an encrypted number or IBAN carries its kind's prefix and decrypts to the normalized input |
| AccountNumbers.EmptyIsNull | backend/utils/accountNumbers.js:7-35 | encrypt, decrypt and hash all map an empty or missing value to `null` |
| AccountNumbers.LegacyPassThrough | backend/utils/accountNumbers.js:16-27 | a stored value without the prefix is returned as it is |
| AccountNumbers.KindsDoNotMix | backend/utils/accountNumbers.js:4-5 | an encrypted account number is never taken for an encrypted IBAN, and the other way round |
| AccountNumbers.Hash | backend/utils/accountNumbers.js:29-35 | the digest is `null` exactly for the empty value |
| AccountNumbers.HashIgnoresCase | backend/utils/accountNumbers.js:83-89 | a value and its upper-case form have the same digest |
| AccountNumbers.HashKeepsWhitespace | backend/utils/accountNumbers.js:29-35 | under an injective digest, a value with whitespace does not hash like the same value without it |
| AccountNumbers.Mask | backend/utils/accountNumbers.js:37-45 | the mask is 14 characters, `****-****-` and then the last four non-space characters padded with `*`, or `****-****-****` for no value |
| AccountNumbers.Hex | backend/utils/accountNumbers.js:51 | hex output is two characters per byte, each an upper-case hex digit once upper-cased |
| AccountNumbers.GenerateIban | backend/utils/accountNumbers.js:50-59 | a generated IBAN is `IBAN` and then 16 upper-case hex digits |
| AccountNumbers.GeneratedIbanIsPlaintext | backend/utils/accountNumbers.js:70-81 | a generated IBAN is not mistaken for an encrypted one, so decrypting it returns it unchanged |
| Accounts.NumberLayout | backend/models/Account.js:121 | `ACC-` and then stamp digits, `-` and upper-case hex contain no whitespace and no lower-case letter |
| Accounts.GenerateAccountNumber | backend/models/Account.js:118-122 | always `ACC-` and space-free upper case; once the clock is past 100 seconds it is 23 characters: six digits, `-`, twelve upper-case hex digits |
| Accounts.GeneratedNumberIsNormal | backend/models/Account.js:118-122 | a generated account number is already normal, so it is stored and read back unchanged |
| Accounts.GeneratedIbanIsNormal | backend/models/Account.js:19-20 | a generated IBAN is already normal |
| Accounts.Deserialize | backend/models/Account.js:124-134 | a row keeps every column except the account number and IBAN, which are decrypted; no row gives no row |
| Accounts.NewRow | backend/models/Account.js:14-30 | a new account has balance 0, its owner, type and creation time, both values encrypted and both digests set; the number's stamp is the clock reading passed in |
| Accounts.NewRowReadsBack | backend/models/Account.js:14-30 | reading the new row back gives the generated number and IBAN, and its digests are those of the plain values |
| Accounts.Returned | backend/models/Account.js:22-30 | the `RETURNING` row is the stored row without its two digest columns |
| Accounts.InsertKeepsDigestsUnique | backend/models/Account.js:14-30 | inserting a row whose digests collide with no stored row keeps both digest columns unique |
| Accounts.InsertKeepsValid | backend/models/Account.js:14-30 | such an insert keeps the table invariant and adds the new balance to the total |
| Accounts.DeserializeAll | backend/models/Account.js:40 | every row of a result set is deserialized, in order |
| Accounts.OwnedNewestFirst | backend/models/Account.js:33-41 | exactly the user's rows of the table, newest first |
| Accounts.OwnedCounts | backend/models/Account.js:33-41 | each of the user's rows is selected as often as the table holds it, and no other row at all |
| Accounts.OwnedDistinct | backend/models/Account.js:33-41 | when the table's ids are distinct, so are the ids of the selection |
| Accounts.AccountStore.constructor | backend/models/Account.js:13 | an empty table with the sequence at 1 |
| Accounts.AccountStore.Table | backend/models/Account.js:33-41 | the table lists the stored rows in insertion order |
| Accounts.AccountStore.TableMembers | backend/models/Account.js:33-41 | a row is in the table exactly when it is stored under its id |
| Accounts.AccountStore.Create | backend/models/Account.js:14-30 | the `SERIAL` is consumed on every call; without a digest clash the new row is stored under that id and returned decrypted and without digests; a clash stores nothing; the total is unchanged |
| Accounts.AccountStore.FindById | backend/models/Account.js:43-51 | a row is found exactly when the id is stored, and it is that row decrypted |
| Accounts.AccountStore.FindByUserId | backend/models/Account.js:33-41 | every account of the user, decrypted, and no other, newest first |
| Accounts.AccountStore.FindByUserIdOwned | backend/models/Account.js:33-41 | every listed account is stored under its id and belongs to the user |
| Accounts.AccountStore.FindByUserIdOnce | backend/models/Account.js:33-41 | no account is listed twice |
| Accounts.AccountStore.FindByDigest | backend/models/Account.js:53-77 | finds a row whose digest column matches, or establishes that none does |
| Accounts.AccountStore.FindByAccountNumber | backend/models/Account.js:53-66 | found exactly when the value is non-empty and some row's account number digest is the value's digest |
| Accounts.AccountStore.FindByIban | backend/models/Account.js:68-77 | found exactly when the value is non-empty and some row's IBAN digest is the value's digest |
| Accounts.AccountStore.UpdateBalance | backend/models/Account.js:79-87 | only that row's balance changes, and only if the row exists; the total moves by the difference |
| Accounts.AccountStore.Delete | backend/models/Account.js:89-97 | the row is gone, reported deleted exactly when it existed; the total drops by its balance |
| Transactions.TransactionLog.constructor | backend/models/Transaction.js:3 | an empty log with the sequence at 1 |
| Transactions.TransactionLog.Create | backend/models/Transaction.js:4-15 | appends exactly one entry with the next id and returns it |
| Transactions.TransactionLog.DetachAccount | backend/database/migrations.js:53-54 | `ON DELETE SET NULL`: every leg naming the deleted account becomes null, nothing else changes |
| Transactions.Selection | backend/models/Transaction.js:17-50 | exactly the entries matching the `WHERE` clause and filters, newest first |
| Transactions.SelectionCounts | backend/models/Transaction.js:17-50 | a matching entry is selected as often as the log holds it, a non-matching one never |
| Transactions.Query | backend/models/Transaction.js:52-60 | without a limit the whole selection; with one, exactly the selection's rows from the offset on, as many as the limit allows, in order |
| Transactions.JoinAll | backend/models/Transaction.js:20-25 | each entry is kept in order and joined with its accounts' stored number columns |
| Transactions.EntriesOf | backend/models/Transaction.js:20-25 | the entries of a joined result, in order |
| Transactions.FindByAccountId | backend/models/Transaction.js:17-64 | the account's matching entries newest first: all of them unpaginated, otherwise exactly the `LIMIT`/`OFFSET` window of them |
| Transactions.FindByUserId | backend/models/Transaction.js:66-113 | the entries with a leg on one of the user's accounts, newest first: all of them unpaginated, otherwise exactly the window |
| Transactions.CountByUserId | backend/models/Transaction.js:115-148 | the count is the number of entries the user's history selects under the same filters |
| Transactions.CountIsUnpaginatedLength | backend/models/Transaction.js:115-148 | the count equals the length of the same query without `LIMIT`/`OFFSET` |
| Transactions.OrphanEntriesHidden | backend/models/Transaction.js:66-75 | an entry with neither leg on an account is never in a user's history |
| Transactions.NetAppend | backend/models/Transaction.js:4-15 | appending an entry changes an account's net by exactly that entry's effect on it |
| Transactions.NetOfFresh | backend/models/Transaction.js:4-15 | no logged entry touches an account id not yet issued, so its net is 0 |
| Transactions.DetachAll | backend/database/migrations.js:53-54 | the log keeps its length and order; a leg is nulled exactly when it named the account |
| Transactions.NetDetach | backend/database/migrations.js:53-54 | nulling one account's legs leaves every other account's net unchanged |
| Ordering.Filter | backend/models/Transaction.js:26 | the `WHERE` result: only matching elements, every matching element present |
| Ordering.FilterCounts | backend/models/Transaction.js:26 | a matching element is kept as often as it occurs, a non-matching one never |
| Ordering.FilterAppend | backend/models/Transaction.js:26 | filtering distributes over concatenation, so kept elements stay in their input order |
| Ordering.DistinctKeysOnce | backend/models/Account.js:33-41 | under distinct keys an element occurs at most once |
| Ordering.SubmultisetDistinct | backend/models/Account.js:33-41 | a sub-multiset of a list with distinct keys has distinct keys |
| Ordering.First | backend/models/User.js:19-27 | the first row matching a unique-key lookup, or none matches |
| Ordering.SortDesc | backend/models/Transaction.js:50 | `ORDER BY ... DESC`: sorted descending and a permutation of the input |
| Ordering.SelectSortedMembers | backend/models/Transaction.js:17-50 | filtering and then sorting keeps exactly the matching elements |
| Ordering.Paginate | backend/models/Transaction.js:52-60 | without a limit every row; with one, exactly the rows from the offset on, `min(limit, rows left)` of them, in order |
| Ordering.PaginateWindow | backend/models/Transaction.js:52-60 | a page holds only rows of the result and keeps their newest-first order |
| Ordering.CountIsFilterLength | backend/models/Transaction.js:115-148 | `COUNT(*)` equals the number of rows the `WHERE` clause keeps |
| Ordering.Insert | backend/models/Transaction.js:50 | inserting into a descending list keeps it descending and adds exactly one element |
| Ordering.ConsSorted | backend/models/Transaction.js:50 | an element above the rest heads the sorted permutation of the rest |
| Users.UserStore.constructor | backend/models/User.js:4 | an empty table with the sequence at 1 |
| Users.UserStore.Create | backend/models/User.js:5-17 | a taken username or email inserts nothing; otherwise one row with two-factor off, returned without secrets |
| Users.UserStore.FindByEmail | backend/models/User.js:19-27 | the row with that email, or there is none |
| Users.UserStore.Find | backend/models/User.js:29-48 | the row with that id, or there is none |
| Users.UserStore.FindById | backend/models/User.js:29-37 | found exactly when the id exists; only the public columns |
| Users.UserStore.FindByIdWithSensitive | backend/models/User.js:39-48 | found exactly when the id exists; the two-factor columns but never the password hash |
| Users.UserStore.UpdateTwoFactorSecret | backend/models/User.js:69-79 | that user gets the new secret with two-factor off and unverified; every other row unchanged |
| Users.UserStore.MarkTwoFactorVerified | backend/models/User.js:81-90 | that user is enabled and stamped, the secret kept; every other row unchanged |
| Users.UserStore.DisableTwoFactor | backend/models/User.js:92-102 | that user's secret, flag and stamp are cleared; every other row unchanged |
| Users.FindAfterUpdate | backend/models/User.js:69-102 | after an update by id, the updated row is what the table holds for that user |
| Cookies.OrDefault | backend/utils/cookies.js:1-2 | a configured non-empty name wins, otherwise the default |
| Cookies.SecureCookie | backend/utils/cookies.js:3-5 | `COOKIE_SECURE=true` forces secure, `false` forbids it, otherwise secure exactly in production |
| Cookies.BuildCookieOptions | backend/utils/cookies.js:14-17 | http-only, strict same-site, root path, the secure flag, and max age in milliseconds; otherwise the base options |
| Cookies.Response.constructor | backend/utils/cookies.js:19-33 | a response with no cookie headers yet |
| Cookies.SetSessionCookie | backend/utils/cookies.js:19-21 | appends one `Set-Cookie` of the session name with the built options |
| Cookies.ClearSessionCookie | backend/utils/cookies.js:23-25 | appends one clear of the session name with the base options |
| Cookies.SetPendingCookie | backend/utils/cookies.js:27-29 | appends one `Set-Cookie` of the pending name |
| Cookies.ClearPendingCookie | backend/utils/cookies.js:31-33 | appends one clear of the pending name |
| Cookies.JarStep | backend/utils/cookies.js:19-33 | a set header stores its cookie, a clear removes it, and other cookies are untouched |
| TwoFactor.ShortRunCopied | backend/utils/twoFactor.js:27-28 | fewer than four characters get no space |
| TwoFactor.SpaceEveryFourBlocks | backend/utils/twoFactor.js:27-28 | the regex replacement is the spaced blocks and then a trailing space when the length is a positive multiple of four |
| TwoFactor.BlocksShape | backend/utils/twoFactor.js:27-28 | the blocks are groups of four separated by single spaces, no space at either end |
| TwoFactor.BlocksDropSpaces | backend/utils/twoFactor.js:27-28 | removing the spaces from the blocks gives the space-free secret back |
| TwoFactor.TrimBlocks | backend/utils/twoFactor.js:27-28 | trimming removes exactly the trailing space the replacement may add |
| TwoFactor.TrimTrailingSpace | backend/utils/twoFactor.js:27-28 | trimming a trimmed string plus one space gives the string |
| TwoFactor.DisplayShape | backend/utils/twoFactor.js:27-28 | the display form is upper case, in spaced groups of four, with no surrounding space |
| TwoFactor.UpperKeepsSpaced | backend/utils/twoFactor.js:27-28 | upper-casing keeps the grouping |
| TwoFactor.DisplayDropsToSecret | backend/utils/twoFactor.js:27-28 | without spaces the displayed code is the upper-cased secret, so it can be typed back in |
| TwoFactor.VerifyTwoFactorToken | backend/utils/twoFactor.js:19-25 | accepted exactly when both secret and code are non-empty and the TOTP check passes |
| Validation.CheckPassword | backend/middleware/validation.js:12-29 | accepted exactly when all five rules hold; otherwise the message of the first rule that fails |
| Validation.PolicyIsMonotone | backend/middleware/validation.js:12-29 | appending to an acceptable password keeps it acceptable |
| Validation.HandleValidationErrors | backend/middleware/validation.js:3-9 | the request proceeds exactly when there are no errors, otherwise 400 with all of them |
| Validation.PasswordRuleAsWritten | backend/middleware/validation.js:34-36 | the password rule as written passes every present password |
| Validation.WeakPasswordPassesAsWritten | backend/middleware/validation.js:34-36 | `Password1` breaks the policy yet passes the rule as written |
| Validation.PasswordRule | backend/middleware/validation.js:12-36 | the intended rule passes exactly the passwords the policy accepts |
| Validation.RegisterErrors | backend/middleware/validation.js:31-38 | registration input is accepted exactly when username length, email and password policy all hold; at most three errors |
| Validation.NumberIsInt | backend/middleware/validation.js:58 | a JSON integer always passes `isInt()`, and `parseInt` / PostgreSQL read its printed form back as the same number |
| Validation.SignAndZeroKeepId | backend/middleware/validation.js:58 | digits with a `+` sign or a leading zero pass `isInt()` and name the same id as the bare digits, though the texts differ; a `-` sign negates the id |
| Validation.DepositWithdrawErrors | backend/middleware/validation.js:57-61 | no error exactly when the account id passes `isInt()` and the amount is positive; each message exactly when its check fails |
| Validation.TransferErrors | backend/middleware/validation.js:63-68 | no error exactly when both ids pass `isInt()` and the amount is positive; each message exactly when its check fails; at most three errors |
| Sanitize.CleanString | backend/middleware/sanitize.js:2-4 | a cleaned string has no NUL and no surrounding whitespace |
| Sanitize.CleanStringFixed | backend/middleware/sanitize.js:2-4 | a string already clean is left unchanged |
| Sanitize.SanitizeItems | backend/middleware/sanitize.js:6-8 | an array keeps its length |
| Sanitize.SanitizeMembers | backend/middleware/sanitize.js:10-15 | an object keeps its keys in order |
| Sanitize.SanitizeCleans | backend/middleware/sanitize.js:1-18 | a sanitized value is clean all the way down and has the original's shape |
| Sanitize.SanitizeItemsCleans | backend/middleware/sanitize.js:6-8 | each sanitized array item is clean and of the same shape |
| Sanitize.SanitizeMembersCleans | backend/middleware/sanitize.js:10-15 | each sanitized member value is clean and of the same shape |
| Sanitize.SanitizeClean | backend/middleware/sanitize.js:1-18 | sanitizing a clean value changes nothing |
| Sanitize.SanitizeItemsClean | backend/middleware/sanitize.js:6-8 | clean arrays are fixed points |
| Sanitize.SanitizeMembersClean | backend/middleware/sanitize.js:10-15 | clean objects are fixed points |
| Sanitize.SanitizeIdempotent | backend/middleware/sanitize.js:1-18 | sanitizing twice is sanitizing once |
| Sanitize.FalsyIsClean | backend/middleware/sanitize.js:20-31 | the falsy parts the middleware skips would not have changed anyway |
| Sanitize.Request.constructor | backend/middleware/sanitize.js:20 | a request with the given body, query and params |
| Sanitize.SanitizedPart | backend/middleware/sanitize.js:21-29 | the truthiness guard yields the sanitized part in every case |
| Sanitize.SanitizeRequest | backend/middleware/sanitize.js:20-31 | body, query and params as the middleware receives them all end up sanitized: clean, of the original shape (at the application level the params are still empty) |
| Middleware.SplitSpace | backend/middleware/auth.js:12 | `split(' ')` yields at least one field, none containing a space |
| Middleware.JoinSplitSpace | backend/middleware/auth.js:12 | joining the fields with single spaces gives the header back |
| Middleware.SplitSpaceFree | backend/middleware/auth.js:12 | a string without spaces is one field |
| Middleware.SplitSpaceField | backend/middleware/auth.js:12 | a space-free word and a space split off as the first field |
| Middleware.BearerToken | backend/middleware/auth.js:11-12 | the header yields a token exactly when it is non-empty and has a second field |
| Middleware.BearerTokenOfHeader | backend/middleware/auth.js:12 | `<scheme> <token>` yields the token |
| Middleware.SelectToken | backend/middleware/auth.js:7-13 | a non-empty session cookie wins; otherwise the header's token if non-empty |
| Middleware.AuthenticateAsWritten | backend/middleware/auth.js:6-29 | 401 with no token, 401 for a token that fails verification, and any verified token authenticates |
| Middleware.PendingTokenAuthenticatesAsWritten | backend/middleware/auth.js:19-27 | the pending two-factor token sent as a bearer header authenticates its user |
| Middleware.Authenticate | backend/middleware/auth.js:6-29 | as written, except that a token with an intent is refused as invalid |
| Middleware.PendingTokenRefused | backend/middleware/auth.js:19-27 | every pending two-factor token is refused |
| Middleware.SessionCookieAuthenticates | backend/middleware/auth.js:7-27 | the session cookie issued after verification authenticates its user |
| Middleware.RequireExternalApiKey | backend/middleware/externalApiKey.js:1-12 | 503 exactly when no key is configured; proceeds exactly when the incoming key equals it; 401 otherwise |
| Middleware.ExternalHeaderTakesPrecedence | backend/middleware/externalApiKey.js:7 | a wrong `x-external-api-key` is not rescued by a right `x-api-key` |
| Ledger.PostKeepsBooks | backend/routes/transactions.js:15-52 | balances moved by exactly the new entry's effect keep every account reconciled with the log |
| Ledger.Credit | backend/routes/transactions.js:165-170 | one account's balance rises by the amount, one incoming entry is logged, the books stay reconciled |
| Ledger.Debit | backend/routes/transactions.js:234-239 | one account's balance falls by the amount, one outgoing entry is logged, the books stay reconciled |
| Ledger.PostExternalIncoming | backend/routes/transactions.js:15-52 | 404 exactly when no account has the IBAN, with nothing changed; otherwise that account is credited |
| Ledger.PostDeposit | backend/routes/transactions.js:148-180 | for an id that passed `isInt()`, read with its sign and leading zeros as `parseInt` does: 400 / 404 / 403 exactly on a falsy, unknown or foreign account, with nothing changed; otherwise credited |
| Ledger.RouteDeposit | backend/routes/transactions.js:148-180 | the validator answers 400 with its errors exactly for an id failing `isInt()` (an optional sign and digits; every JSON integer passes) or a non-positive amount, nothing changed; otherwise the deposit route runs, and a success credits an owned account |
| Ledger.PostWithdraw | backend/routes/transactions.js:210-249 | as deposit, with the same reading of the id, plus 400 exactly when the balance is short; otherwise debited |
| Ledger.RouteWithdraw | backend/routes/transactions.js:210-249 | the validator answers 400 exactly for an id failing `isInt()` (an optional sign and digits; every JSON integer passes) or a non-positive amount, nothing changed; otherwise the withdraw route runs, and a success debits an owned account |
| Ledger.PostExternalOutgoing | backend/routes/transactions.js:251-293 | 403 on a foreign source, 400 on a non-positive amount or short balance, nothing changed; otherwise debited |
| Ledger.PostTransferAsWritten | backend/routes/transactions.js:326-369 | the strict-equality guard refuses only identical request values; both ids are then read as the database reads them; a success may raise the total |
| Ledger.StrictEqualsSameId | backend/routes/transactions.js:330 | two integer ids that the strict guard calls equal name the same account |
| Ledger.TransferBetween | backend/routes/transactions.js:334-366 | 404 exactly when either account is missing, 403 exactly when the source is not the caller's, "Insufficient funds" exactly when the balance is short, nothing changed on any of them; otherwise both balance writes and one transfer entry appended |
| Ledger.DistinctTransferKeepsBooks | backend/routes/transactions.js:352-358 | a transfer between two distinct accounts keeps the sum of their balances and leaves the books reconciled with the new entry |
| Ledger.WriteTransfer | backend/routes/transactions.js:352-358 | both balance writes and the transfer entry; the total rises by the amount when both ids are one account |
| Ledger.StrictGuardAdmitsSameAccount | backend/routes/transactions.js:330 | for every account id n, the number n, its digits, the digits with a leading zero and with a `+` sign all pass `isInt()` and name account n, yet `===` tells them apart |
| Ledger.SelfTransferBreaksBooks | backend/routes/transactions.js:352-358 | a transfer to the same account raises its balance and leaves it out of step with the log |
| Ledger.PostTransfer | backend/routes/transactions.js:326-369 | the guard compares the ids as read (so `5`, `"5"`, `"05"` and `"+5"` are one account); every error outcome as an if-and-only-if with nothing changed; a success moves the amount, logs one entry, keeps the total |
| Ledger.RouteTransfer | backend/routes/transactions.js:326-369 | the validator answers 400 exactly for an id failing `isInt()` (an optional sign and digits; every JSON integer passes) or a non-positive amount, nothing changed; otherwise the transfer route runs, and a success moves the amount between two distinct accounts and keeps the total |
| Ledger.GetBalance | backend/routes/transactions.js:389-408 | 404 / 403 exactly on an unknown or foreign account; otherwise that account's balance |
| Ledger.ListAccounts | backend/routes/accounts.js:23-30 | every account of the caller and no other, each once, newest first |
| Ledger.GetAccount | backend/routes/accounts.js:86-101 | 404 / 403 exactly on an unknown or foreign account; otherwise that account decrypted |
| Ledger.PostAccount | backend/routes/accounts.js:56-64 | a new zero-balance account for the caller unless its digests clash; the books stay reconciled |
| Ledger.Sweep | backend/routes/accounts.js:155-169 | the closing account's whole balance moves to the destination with one entry; the total is unchanged |
| Ledger.DeleteAccount | backend/routes/accounts.js:123-185 | each refusal exactly as the route checks it, with nothing changed; on success the account is gone, its funds moved first, its log legs nulled, the total unchanged |
| Ledger.CloseAccount | backend/routes/accounts.js:138-172 | sweeps a positive balance, deletes the row and nulls its log legs; the total is unchanged |
| Ledger.RemoveEmpty | backend/routes/accounts.js:172 | deleting an empty account nulls its log legs and keeps the books and the total |
| PaymentPortal.ReplaceAllAppend | backend/routes/paymentPortal.js:7-13 | a global replacement distributes over concatenation |
| PaymentPortal.ReplaceAllAbsent | backend/routes/paymentPortal.js:7-13 | replacing a character that is absent changes nothing |
| PaymentPortal.EscapeHtmlAppend | backend/routes/paymentPortal.js:7-13 | escaping distributes over concatenation |
| PaymentPortal.EscapeHtmlChar | backend/routes/paymentPortal.js:7-13 | one character escapes to its entity, and `&` is escaped first so entities are not escaped twice |
| PaymentPortal.EscapeHtmlIsCharwise | backend/routes/paymentPortal.js:7-13 | the replacement chain equals escaping character by character |
| PaymentPortal.EscapeHtmlSafe | backend/routes/paymentPortal.js:7-13 | the escaped text has no `<`, `>` or quote character, and every `&` starts an entity |
| PaymentPortal.EscapeHtmlIdentity | backend/routes/paymentPortal.js:7-13 | text without special characters is unchanged |
| PaymentPortal.EscapeEachSafe | backend/routes/paymentPortal.js:7-13 | character-by-character escaping is HTML-safe |
| PaymentPortal.BuildViewModel | backend/routes/paymentPortal.js:15-27 | every form field defaults to empty unless overridden; errors, success and receipt as given |
| PaymentPortal.Messages | backend/routes/paymentPortal.js:295-314 | one message per error, in order |
| PaymentPortal.ReportIf | backend/routes/paymentPortal.js:294-308 | a failed check adds its error once; no error is listed twice |
| PaymentPortal.FailedChecks | backend/routes/paymentPortal.js:294-308 | each of the four errors is reported exactly when its check fails, none twice |
| PaymentPortal.FieldErrors | backend/routes/paymentPortal.js:286-308 | name, email, IBAN and amount errors exactly when each field is missing or malformed |
| PaymentPortal.ContactEmailExamples | backend/routes/paymentPortal.js:298 | the contact email pattern accepts `ann@bank.io` and rejects addresses without a dot after the `@`, with an empty part, a second `@` or a space |
| PaymentPortal.Descriptor | backend/routes/paymentPortal.js:335-347 | the description starts with `External payment from`, the contact and reference joined by ` \| ` |
| PaymentPortal.PortalErrors | backend/routes/paymentPortal.js:310-316 | no errors only when the fields pass and an account holds the IBAN |
| PaymentPortal.PortalErrorsReport | backend/routes/paymentPortal.js:310-316 | the IBAN lookup runs only after the field checks pass, and adds its error exactly when no account matches |
| PaymentPortal.SuccessPage | backend/routes/paymentPortal.js:350-365 | the success page carries the receipt and no errors |
| PaymentPortal.Pay | backend/routes/paymentPortal.js:332-348 | the destination is credited by the amount and one deposit entry is logged; the books stay reconciled |
| PaymentPortal.PostPayment | backend/routes/paymentPortal.js:285-366 | 400 with all field errors and nothing changed, or 200 after crediting the account |
| ScheduledPayments.DayStart | backend/models/ScheduledPayment.js:51 | the start of the day is a multiple of a day, within a day before the time |
| ScheduledPayments.Serialize | backend/models/ScheduledPayment.js:9-18 | every column but the payee IBAN is kept; the IBAN is decrypted |
| ScheduledPayments.ListAll | backend/models/ScheduledPayment.js:69-84 | each row is listed in order with its account's number |
| ScheduledPayments.OwnedRows | backend/models/ScheduledPayment.js:69-84 | exactly the user's rows whose account exists, newest first |
| ScheduledPayments.OwnedRowCounts | backend/models/ScheduledPayment.js:69-84 | each of the user's joined rows is selected as often as the table holds it, no other row |
| ScheduledPayments.OwnedRowsCount | backend/models/ScheduledPayment.js:69-84 | the selection has exactly as many rows as the table has of the user's joined rows |
| ScheduledPayments.OwnedRowsOnce | backend/models/ScheduledPayment.js:69-84 | with distinct payment ids in the table, the selection lists each payment once |
| ScheduledPayments.OwnedListing | backend/models/ScheduledPayment.js:69-84 | every listed payment is one of the user's rows, each such row is listed, as many as there are, newest first |
| ScheduledPayments.ListingOnce | backend/models/ScheduledPayment.js:69-84 | no payment is listed twice |
| ScheduledPayments.IndexOwned | backend/models/ScheduledPayment.js:86-93 | the position of the row with that id and owner, or there is none |
| ScheduledPayments.ScheduleStore.constructor | backend/models/ScheduledPayment.js:20 | an empty table with the sequence at 1 |
| ScheduledPayments.ScheduleStore.Create | backend/models/ScheduledPayment.js:21-67 | appends the row with the IBAN encrypted and the first run at the start of day; returns it decrypted |
| ScheduledPayments.ScheduleStore.FindByUser | backend/models/ScheduledPayment.js:69-84 | every joined row of the user listed, as many as there are, newest first |
| ScheduledPayments.ScheduleStore.Delete | backend/models/ScheduledPayment.js:86-93 | removes the row exactly when one with that id belongs to the user; otherwise nothing changes |
| ScheduledPayments.RemoveAtMembers | backend/models/ScheduledPayment.js:86-93 | removing the found position removes exactly that row |
| ScheduledPayments.ListScheduledPayments | backend/routes/scheduledPayments.js:23-30 | the caller's payments and no one else's, each once, as many as the caller has, newest first |
| ScheduledPayments.PostScheduledPayment | backend/routes/scheduledPayments.js:74-98 | 403 exactly on a foreign or missing account, with nothing stored; otherwise 201, the table grows by exactly the new row (every column stated) and the reply is that row decrypted |
| ScheduledPayments.DeleteScheduledPayment | backend/routes/scheduledPayments.js:120-130 | 404 exactly when the caller has no such payment, with nothing changed; otherwise 200 with the deleted row, which is gone while every other row stays |
| Auth.ToPublicUser | backend/routes/auth.js:34-40 | id, email and two-factor flag carried over, no secret |
| Auth.TwoFactorResponse | backend/routes/auth.js:84-96 | setup details exactly in setup status with a secret; the manual code is the display form |
| Auth.ResolvePendingUser | backend/routes/auth.js:52-64 | a user only for a verified pending cookie, and it is the user the token names |
| Auth.ResolveIgnoresIntent | backend/routes/auth.js:52-64 | the pending token's intent does not affect which user is resolved |
| Auth.IssuePendingCookie | backend/routes/auth.js:42-45 | one pending cookie holding the pending token, for the pending TTL |
| Auth.IssueSession | backend/routes/auth.js:47-50 | one session cookie holding the session token, for the session TTL |
| Auth.EnsureTwoFactorSecret | backend/routes/auth.js:66-82 | an existing secret is decrypted and reused with nothing stored; otherwise the fresh secret is stored encrypted |
| Auth.StartSetup | backend/routes/auth.js:197-205 | ensures a secret, issues the setup pending cookie, answers with the setup details |
| Auth.FinishRegistration | backend/routes/auth.js:139-142 | the new user gets the fresh secret encrypted, and setup starts |
| Auth.Register | backend/routes/auth.js:129-152 | 400 exactly on a registered email, 500 on a username clash, nothing stored on either; otherwise 201 and a user with a pending secret |
| Auth.NewRowUpdated | backend/routes/auth.js:139-142 | updating the just-inserted user changes only the last row |
| Auth.Login | backend/routes/auth.js:182-218 | 401 exactly on an unknown email or a wrong password, with the session cookie cleared and nothing stored; otherwise 200 with a verify challenge for an enabled user or a setup challenge, and never a session cookie |
| Auth.StartVerify | backend/routes/auth.js:208-214 | an enabled user gets the verify pending cookie and no setup details |
| Auth.EnableAndReload | backend/routes/auth.js:267-275 | a user not yet enabled is marked verified; the returned user is enabled and is the public view of the stored row |
| Auth.CompleteChallenge | backend/routes/auth.js:267-280 | enables if needed, clears the pending cookie and issues the session |
| Auth.Verify | backend/routes/auth.js:247-289 | 400 / 401 on a missing code, challenge, secret or a wrong code, with nothing changed; 200 signs the user in |
| Auth.OnlyRow | backend/models/User.js:29-37 | ids are unique, so a row with that id is the row |
| Auth.MarkedRowEnabled | backend/models/User.js:81-90 | after marking, the user's row is enabled |
| Auth.Regenerate | backend/routes/auth.js:304-325 | 400 exactly without a pending challenge or for an enabled user, with nothing changed; otherwise a new secret replaces the old |
| Auth.ReplaceSecret | backend/routes/auth.js:313-320 | the new secret is stored encrypted, the setup cookie reissued, and the new details returned |
| Auth.Cancel | backend/routes/auth.js:338-341 | 200 and the pending cookie cleared |
| Auth.Logout | backend/routes/auth.js:355-359 | the handler behind the `authenticateToken` gate (`Middleware.AuthenticateAsWritten`, which answers 401 and clears no cookie when no token verifies); once past it, 200 with the session cookie, then the pending cookie, cleared |
| Auth.StoredSecretChecksShownSecret | backend/routes/auth.js:260-261 | the code for the secret shown at setup verifies against what was stored |
| Auth.VerifySignsIn | backend/routes/auth.js:272-273 | after verification the pending cookie is gone and the session cookie is set |
| Text.ToUpper | backend/utils/accountNumbers.js:34 | `toUpperCase` keeps the length and maps each character |
| Text.RemoveSpaces | backend/utils/accountNumbers.js:12 | `replace(/\s+/g, '')` leaves no whitespace |
| Text.Trim | backend/middleware/sanitize.js:3 | `trim` leaves no whitespace at either end and keeps the middle |
| Text.PadStart | backend/utils/accountNumbers.js:43 | `padStart` pads on the left to the length and keeps the string at the end |
| Text.DecimalValueOfString | backend/routes/transactions.js:156 | reading back the printed digits of a number gives the number |
| Text.DecimalValueLeadingZero | backend/routes/transactions.js:156 | a leading zero does not change the value read |

## Left out

- AES-GCM, the keyed digest, JWT signing and verification, TOTP, `keyuri` and bcrypt are abstract functions. The model proves what follows from their round trip, not the algorithms.
- Key derivation in `backend/utils/crypto.js:3-14` is not modelled.
- Crypto.DecryptText: a payload whose GCM tag does not check makes `decipher.final()` throw (`backend/utils/crypto.js:43`), which the routes turn into a 500. The abstract `decrypt` is total, so in the model a corrupted stored account number, IBAN or two-factor secret decrypts to some string instead. The round trip `Crypto.DecryptEncryptText` covers every value the model itself writes.
- Amounts are integer cents. The source's `parseFloat` arithmetic and `toFixed(2)` rounding are not modelled.
- Queries run one at a time. The source's `await`ed queries without a transaction can interleave between the balance read and the write; that race is not modelled.
- Reading the environment at start-up is a parameter (`Cookies.Env`). The token TTL overrides of `backend/utils/tokens.js:4-5` are fixed at their defaults of 15 and 5 minutes.
- Text.ToUpper: upper-cases ASCII letters only, not the full Unicode case mapping of `toUpperCase`.
- `isEmail` from express-validator is a boolean input. The portal's own email regex is modelled as `PaymentPortal.IsContactEmail`.
- `GET /api/transactions` (`backend/routes/transactions.js:94-120`) and `GET /api/auth/me` (`backend/routes/auth.js:375-385`) only call finders that are modelled. The handlers themselves are not.
- `findAll` and `count` of `Account`, `User` and `Transaction` serve the command-line tool only and are not modelled.
- `User.verifyPassword` is the abstract bcrypt comparison.
- `renderTemplate` (`backend/routes/paymentPortal.js:29-279`) produces HTML. The model stops at the view model and the escaping lemmas.
- The command-line tool, the frontend, rate limiting, logging and the final error handler are not part of this model. A thrown error is the 500 the handler would send.
- Several validators are imported by the routes but not exported by `backend/middleware/validation.js`: `twoFactorValidation` (`backend/routes/auth.js:4-8`), `externalIncomingValidation` and `externalOutgoingValidation` (`backend/routes/transactions.js:5-10`), and `scheduledPaymentValidation` (`backend/routes/scheduledPayments.js:3`). An ES module that imports a name its target does not export fails to link when it is loaded. `backend/server.js:13-15` imports the auth and transactions routers, so as written the backend does not start. Even with the imports set to `undefined`, Express refuses `undefined` as a route handler when the route is registered (`backend/routes/transactions.js:15-18`, `:251`; `backend/routes/auth.js:247-250`; `backend/routes/scheduledPayments.js:74`). The model describes the handlers as if those validators existed and ensured a positive amount: where a route relies on them, it requires `amount > 0`.
- `backend/server.js:52-54` mounts only the auth, accounts and transactions routers. The scheduled-payment routes (`backend/routes/scheduledPayments.js`) and the payment portal (`backend/routes/paymentPortal.js`) are mounted nowhere, so no request reaches them as written. The model describes their handlers as they would behave once mounted.
- Ledger.PostExternalIncoming, Ledger.PostDeposit, Ledger.PostWithdraw and the two transfer methods require a positive amount, and the deposit, withdraw and transfer handlers require ids that passed `isInt()`. For deposit, withdraw and transfer, `Ledger.RouteDeposit`, `Ledger.RouteWithdraw` and `Ledger.RouteTransfer` show that the validators establish both.
- Ledger.GetBalance: `:account_id` reaches `WHERE id = $1` as text (`backend/routes/transactions.js:391`). A value that is not an integer, such as `abc` or `1.5`, makes PostgreSQL throw, and the route answers 500. The model takes the id as an integer and does not model that 500.
- Ledger.GetAccount: the same holds for `:id` (`backend/routes/accounts.js:88`): a non-integer text gets a 500, which the model does not model.
- Ledger.DeleteAccount: the same holds for `:id` (`backend/routes/accounts.js:125`, `:172`) and, on an account with a positive balance, for `transfer_account_id` (`backend/routes/accounts.js:150`). Both are taken as integers; the 500 for a non-integer text is not modelled.
- ScheduledPayments.DeleteScheduledPayment: the same holds for `:id` (`backend/routes/scheduledPayments.js:122`, `backend/models/ScheduledPayment.js:89`): a non-integer text gets a 500, which the model does not model.
- Transactions.Query: `ORDER BY t.timestamp DESC` leaves rows with equal timestamps in no defined order. The model picks one tie order, log order among equals, and every page is a window of that one order. In PostgreSQL, rows that tie can come back in a different order from one query to the next, so consecutive pages need not split the selection cleanly. The same holds for `Transactions.FindByAccountId` and `Transactions.FindByUserId`.
- Ids are unbounded integers. An id outside PostgreSQL's 32-bit `INTEGER` range, which the database rejects with an error, is read as an ordinary missing account.
- The `scheduled_payments` table is not created in `backend/database/migrations.js`, so deleting an account does not cascade to its scheduled payments. `OwnedRows` hides payments whose account is gone. The `transactions` legs are nulled as that schema says (`Transactions.TransactionLog.DetachAccount`).
- Accounts.AccountStore.Create: the account's `created_at` is the database's `NOW()` and its number's stamp is `Date.now()`; the model passes them in as two readings.
- The first run date is `new Date(startDate)` truncated to the day in the server's time zone. Here it is UTC seconds truncated to the day (`ScheduledPayments.DayStart`).
- Sanitize.SanitizeMembers: rebuilding objects with `reduce` into `{}` drops a `__proto__` key. The model keeps every key.
- Auth.Verify: the `TokenExpiredError` branch (`backend/routes/auth.js:282-285`) cannot be reached, because the pending token was already verified. It is not modelled.
- Ledger.DeleteAccount: the 500 reply for a delete that reports no row cannot happen in the model, where the row was checked to exist.
- Middleware.RequestUserOf: sessions carry no `id` claim, so `payload.sub || payload.id` is `sub`; the function only copies the verified claims, and no contract beyond that copy is stated.
- Auth.OtpAuthUrl: a one-line call of the abstract `keyuri`; no contract beyond that call is stated.
- Crypto.EncryptText: AES-GCM itself is abstract; what the source promises of it is the round trip stated by `Crypto.DecryptEncryptText`.

## Findings

| source | as written | input that shows it | evidently intended | confidence | as-written member | corrected member |
|---|---|---|---|---|---|---|
| backend/routes/transactions.js:330 | `from_account_id === to_account_id` compares the raw request values, so a number and a digit string for the same id, or `"5"`, `"05"` and `"+5"`, pass the guard. The route then writes `balance - amount` and `balance + amount` to one row, and the second write wins | `{"from_account_id": 5, "to_account_id": "5", "amount": 10}` (or `"+5"`) on an owned account 5: its balance rises by 10 and the log no longer accounts for it | refuse a transfer whenever both ids name the same account | not executed | Ledger.PostTransferAsWritten, Ledger.StrictGuardAdmitsSameAccount, Ledger.SelfTransferBreaksBooks | Ledger.PostTransfer |
| backend/middleware/validation.js:34-36 | `.custom(validatePCIDSSPassword)` only fails when the validator throws or returns a falsy value. The validator returns a non-empty message string on failure, so every password passes | password `Password1` has no special character, and registration accepts it | reject a password that breaks any of the five rules | not executed | Validation.PasswordRuleAsWritten, Validation.WeakPasswordPassesAsWritten | Validation.PasswordRule, Validation.RegisterErrors |
| backend/middleware/auth.js:19-27 | any token signed with `JWT_SECRET` authenticates, including the pending two-factor token that login sets after the password check alone | take the pending cookie value after a correct password and send it as `Authorization: Bearer <token>` to any protected route | only a session token, one without an `intent`, authenticates | not executed | Middleware.AuthenticateAsWritten, Middleware.PendingTokenAuthenticatesAsWritten | Middleware.Authenticate, Middleware.PendingTokenRefused |
