# Anti-fraud transaction screening — a Dafny model

This project models the logic of a role-based anti-fraud backend. Merchants post
payment transactions. The **risk classifier** (`TransactionValidator`) labels each one
ALLOWED, MANUAL_PROCESSING or PROHIBITED from four heuristics, in this order:

- a stolen-card lookup;
- a suspicious-IP lookup;
- region and IP correlation over the trailing hour;
- the amount against the card's two adaptive limits.

Support staff can then give feedback on a transaction. The **feedback processor**
(`TransactionService.changeLimit`) moves the card's limits by
`ceil(0.8·limit ± 0.2·amount)`. Around this core the model also covers:

- the Luhn card-number check and the dotted-quad IPv4 check;
- blocklist management (suspicious IPs, stolen cards);
- account sign-up, deletion, listing, role changes and lock changes.

The repositories are immutable values: a map of cards keyed by number, a set of
suspicious addresses, a sequence for the transaction log and a sequence for the
accounts. Every service is a pure function. It returns `Ok(new state, reply)` or
`Err(status)` for the HTTP status its exception carries. A refused call therefore
changes nothing. Timestamps are integer seconds. The password encoder is a function
parameter.

Modules, one per unit of the program:

| file | module | models |
|---|---|---|
| wrappers.dfy | Wrappers, Seqs | Option/Result/Status; order-preserving repository filters |
| classifications.dfy | Classifications | `TransactionResult`, its severity order and names |
| reasons.dfy | Reasons | the reason strings, TreeSet order, `String.join(", ", …)` |
| entities.dfy | Entities | `Card` (defaults 200/1500), `Transaction` |
| digits.dfy | Digits | ASCII decimal digits and numerals |
| card_validator.dfy | CardValidator | `CardValidator.isNonValid` and the ISO/IEC 7812-1 Annex B Luhn formula |
| ip_validator.dfy | IpValidator | the language matched by `IPAddressValidator`'s pattern |
| transaction_validator.dfy | TransactionValidator | `verifyTransaction` and its four heuristics |
| limits.dfy | Limits | `changeLimit` |
| transaction_service.dfy | TransactionService | intake, feedback, history |
| validation_service.dfy | ValidationService | suspicious IPs and stolen cards |
| accounts.dfy | Accounts | `Role`, `User`, account-store invariants |
| user_service.dfy | UserService | sign-up, deletion, listing |
| authorization_service.dfy | AuthorizationService | role and access changes |
| account_history.dfy | AccountHistory | the single-administrator invariant over any run |

Notes on the code's behaviour:

- The correlation window is `[t − 3600, t]`, closed at both ends, because the derived
  `Between` query includes both bounds.
- Intake checks only presence, a positive amount and non-empty strings. It performs
  no Luhn, IP-format, region or timestamp validation.
- Feedback whose card is missing is reachable. Deleting a locked stolen card removes
  its record, and a later feedback on one of its transactions then fails the internal
  assertion. The model returns `Err(ServerError)` there.
- Feedback does not keep `allowedLimit ≤ manualLimit`. A MANUAL_PROCESSING→PROHIBITED
  correction on a small amount can push the manual limit below the allowed one.
  `CrossedLimitsProhibitSmallAmounts` shows that an amount at or below the allowed
  limit is then PROHIBITED.

## Model

| member | source | states |
|---|---|---|
| Classifications.Parse | src/main/java/io/github/dankoller/antifraud/service/TransactionService.java:92 | a string names a result iff some result has that name, and parsing gives that result |
| Classifications.IsFeedbackWrongFormat | src/main/java/io/github/dankoller/antifraud/util/TransactionValidator.java:37-39 | feedback is malformed exactly when no result carries that name |
| Entities.FeedbackText | src/main/java/io/github/dankoller/antifraud/entity/transaction/Transaction.java:54-57 | the feedback text is empty iff no feedback was given, otherwise it parses back to the feedback |
| Entities.NewCard | src/main/java/io/github/dankoller/antifraud/entity/Card.java:28-36 | a new card keeps the given number and lock flag and starts with limits 200 and 1500, allowed below manual |
| Reasons.SortedTexts | src/main/java/io/github/dankoller/antifraud/util/TransactionValidator.java:29 | the TreeSet listing is strictly increasing in Java string order (sorted, no duplicates), holds exactly the texts of the reason set, and has one entry per reason |
| Reasons.Info | src/main/java/io/github/dankoller/antifraud/util/TransactionValidator.java:152-158 | the info string is the ", "-join of the sorted texts, and it is "none" iff the reason set is exactly {none} |
| CardValidator.PositionSumIsLuhnSum | src/main/java/io/github/dankoller/antifraud/util/CardValidator.java:17-24 | on digits, the loop's sum over positions 1..i equals the right-to-left Luhn sum in which the i-th digit is doubled iff i is odd |
| CardValidator.IsNonValid | src/main/java/io/github/dankoller/antifraud/util/CardValidator.java:11-27 | only a present 16-character number can pass; for 16 decimal digits it passes iff the ISO/IEC 7812-1 Luhn formula passes: the check digit is not doubled, and every second digit leftwards from it is |
| CardValidator.NumericValue | src/main/java/io/github/dankoller/antifraud/util/CardValidator.java:18 | `getNumericValue` on ASCII: digits give their value, letters of either case give the same value in 10..35, every other character gives -1 |
| CardValidator.DigitSumBounds | src/main/java/io/github/dankoller/antifraud/util/CardValidator.java:18-23 | on digits each position adds 0..9, so the sum over i positions lies in 0..9·i (0..144 for 16) |
| CardValidator.AsWrittenAcceptsLetters | src/main/java/io/github/dankoller/antifraud/util/CardValidator.java:17-26 | the check as written accepts "00000000000000a9", which is not all digits |
| CardValidator.IsNonValidStrict | src/main/java/io/github/dankoller/antifraud/util/CardValidator.java:11-27 | corrected check: a number passes iff it is non-null, 16 long and Luhn-valid over digits; whatever it passes, the original passes |
| IpValidator.Dec | src/main/java/io/github/dankoller/antifraud/util/IPAddressValidator.java:14 | the decimal rendering of a byte is an octet of the pattern and denotes that byte |
| IpValidator.OctetIsCanonical | src/main/java/io/github/dankoller/antifraud/util/IPAddressValidator.java:14 | every octet the pattern admits is the canonical rendering of its value, so "01" and "00" are excluded and "0" is included |
| IpValidator.ParseIp | src/main/java/io/github/dankoller/antifraud/util/IPAddressValidator.java:13-17 | a string yields an address iff the pattern matches it, and the address renders back to the same string |
| IpValidator.IsNonValidIp | src/main/java/io/github/dankoller/antifraud/util/IPAddressValidator.java:13-17 | an address is rejected iff the pattern does not match, that is iff it is not the dotted-decimal rendering of any four bytes |
| IpValidator.RenderRoundTrip | src/main/java/io/github/dankoller/antifraud/util/IPAddressValidator.java:14 | the dotted-decimal rendering of any four bytes is accepted and parses back to those bytes |
| IpValidator.AcceptedIsUniqueRendering | src/main/java/io/github/dankoller/antifraud/util/IPAddressValidator.java:14 | every accepted string is the rendering of exactly one 4-byte address |
| IpValidator.AcceptedShape | src/main/java/io/github/dankoller/antifraud/util/IPAddressValidator.java:14 | an accepted string has exactly three dots and starts and ends with a digit, so it has no leading or trailing dot and no fifth octet |
| Limits.SaturateInt | src/main/java/io/github/dankoller/antifraud/service/TransactionService.java:110-113 | the (int) cast keeps in-range values and clamps the rest to the int bounds |
| Limits.CeilFifth | src/main/java/io/github/dankoller/antifraud/service/TransactionService.java:110-113 | the rounding gives the least integer r with 5·r ≥ n |
| Limits.Increased | src/main/java/io/github/dankoller/antifraud/service/TransactionService.java:110 | the raised limit lies between the old limit and the amount, whichever side the amount is on |
| Limits.Decreased | src/main/java/io/github/dankoller/antifraud/service/TransactionService.java:111 | the lowered limit never exceeds a non-negative old limit, and is strictly below it once the amount is at least 5 |
| Limits.ApplyFeedback | src/main/java/io/github/dankoller/antifraud/service/TransactionService.java:104-134 | number and lock flag stay; the allowed limit is raised when the feedback is ALLOWED, lowered when the result was ALLOWED, and kept otherwise; the manual limit is lowered when the feedback is PROHIBITED, raised when the result was PROHIBITED, and kept otherwise |
| Limits.FeedbackDirection | src/main/java/io/github/dankoller/antifraud/service/TransactionService.java:116-130 | a correction to a more severe result never raises a non-negative limit; one to a less severe result never lowers a limit that does not exceed the amount |
| Limits.ProhibitedToAllowedExample | src/main/java/io/github/dankoller/antifraud/service/TransactionService.java:125-127 | limits 200/1500, amount 1000, PROHIBITED corrected to ALLOWED gives 360/1400 |
| TransactionValidator.Window | src/main/java/io/github/dankoller/antifraud/util/TransactionValidator.java:85-89 | the window holds exactly the stored transactions of the same card dated in [date − 3600, date] |
| TransactionValidator.OtherRegions | src/main/java/io/github/dankoller/antifraud/util/TransactionValidator.java:91-94 | the region count counts distinct window regions different from the current one |
| TransactionValidator.OtherIps | src/main/java/io/github/dankoller/antifraud/util/TransactionValidator.java:96-99 | the IP count counts distinct window addresses different from the current one |
| TransactionValidator.CheckIfStolenCard | src/main/java/io/github/dankoller/antifraud/util/TransactionValidator.java:64-69 | a stolen card gives PROHIBITED, and the reasons gain "card-number" and nothing else; otherwise nothing changes |
| TransactionValidator.CheckIfSuspiciousIP | src/main/java/io/github/dankoller/antifraud/util/TransactionValidator.java:74-79 | a listed address gives PROHIBITED, and the reasons gain "ip" and nothing else; otherwise nothing changes |
| TransactionValidator.CheckIfCorrelationExists | src/main/java/io/github/dankoller/antifraud/util/TransactionValidator.java:84-120 | the result is the most severe of the incoming result and each count's level (2 is MANUAL_PROCESSING, above 2 PROHIBITED); a count above 2 always adds its reason, a count of exactly 2 only when the incoming result was not PROHIBITED; no other reason changes |
| TransactionValidator.CheckIfAmountIsTooHigh | src/main/java/io/github/dankoller/antifraud/util/TransactionValidator.java:125-145 | above the manual limit the result is PROHIBITED and the reasons become {amount}, or gain amount if already PROHIBITED; between the limits a non-PROHIBITED result becomes MANUAL_PROCESSING with amount, and a PROHIBITED verdict stays as it is; at or below both limits nothing changes |
| TransactionValidator.AddNone | src/main/java/io/github/dankoller/antifraud/util/TransactionValidator.java:152-155 | an ALLOWED verdict gains "none"; no other verdict changes |
| TransactionValidator.Decide | src/main/java/io/github/dankoller/antifraud/util/TransactionValidator.java:46-59 | the result is the highest level among triggered rules, and the reasons are exactly those of the independent rule description, including the amount rule's reason reset |
| TransactionValidator.Evaluate | src/main/java/io/github/dankoller/antifraud/util/TransactionValidator.java:46-59 | stolen card or listed IP force PROHIBITED with their reason; ALLOWED iff the reasons are {none} iff no heuristic fires; any other result has a non-empty reason set without "none" |
| TransactionValidator.Classify | src/main/java/io/github/dankoller/antifraud/util/TransactionValidator.java:46-59 | the info is "none" iff the result is ALLOWED, and is otherwise the sorted join of the verdict's reasons |
| TransactionValidator.EarlierCorrelationReasonSurvives | src/main/java/io/github/dankoller/antifraud/util/TransactionValidator.java:101-119 | a two-region correlation reason survives a later IP correlation that raises the result to PROHIBITED |
| TransactionValidator.CrossedLimitsProhibitSmallAmounts | src/main/java/io/github/dankoller/antifraud/util/TransactionValidator.java:131-143 | with the manual limit below the allowed one, an amount under the allowed limit is PROHIBITED with reason amount alone |
| TransactionService.SaveCardIfNotExists | src/main/java/io/github/dankoller/antifraud/service/TransactionService.java:65-69 | the number gains a card: unlocked with limits 200/1500 when unknown; every existing card is untouched |
| TransactionService.ProcessTransaction | src/main/java/io/github/dankoller/antifraud/service/TransactionService.java:37-58 | refused with BAD_REQUEST exactly on a missing field, non-positive amount or empty string; otherwise the card exists, the log grows by one transaction with id one past the old length and no feedback, classified against the log as it stood before (so it is never in its own window), and the reply carries its result name and info, "none" exactly for ALLOWED |
| TransactionService.FindIndex | src/main/java/io/github/dankoller/antifraud/service/TransactionService.java:79-80 | the lookup finds the first transaction with the id, or reports that none has it |
| TransactionService.UpdateTransaction | src/main/java/io/github/dankoller/antifraud/service/TransactionService.java:78-96 | NOT_FOUND, BAD_REQUEST, CONFLICT, UNPROCESSABLE_ENTITY in that order; once all four guards pass it succeeds iff the card exists (else the assertion fails, SERVER_ERROR); on success the feedback is recorded, the result kept, only that card's limits follow the table, and ids stay well formed |
| TransactionService.SecondFeedbackConflicts | src/main/java/io/github/dankoller/antifraud/service/TransactionService.java:84-85 | after a successful feedback any further well-formed feedback on that transaction is a CONFLICT |
| TransactionService.ResultsNeverChange | src/main/java/io/github/dankoller/antifraud/service/TransactionService.java:90-93 | no series of feedback submissions changes any transaction's result or the log's length |
| TransactionService.GetTransactionHistory | src/main/java/io/github/dankoller/antifraud/service/TransactionService.java:142-149 | a number the card check rejects is BAD_REQUEST; success iff the number passes and some transaction has it, otherwise NOT_FOUND; on success exactly the transactions with that number |
| TransactionService.IntakeShowsInHistory | src/main/java/io/github/dankoller/antifraud/service/TransactionService.java:37-58 | after intake accepts a transaction whose number passes the card check, that card's history succeeds and holds the new transaction and every earlier one of the card |
| ValidationService.SaveSuspiciousIP | src/main/java/io/github/dankoller/antifraud/service/ValidationService.java:30-43 | malformed is BAD_REQUEST, listed is CONFLICT; otherwise the set gains exactly that address |
| ValidationService.DeleteSuspiciousIP | src/main/java/io/github/dankoller/antifraud/service/ValidationService.java:60-71 | malformed is BAD_REQUEST, unlisted is NOT_FOUND; otherwise exactly that address is removed |
| ValidationService.SaveThenDeleteRestores | src/main/java/io/github/dankoller/antifraud/service/ValidationService.java:30-71 | listing a fresh valid address then removing it restores the set |
| ValidationService.SaveStolenCard | src/main/java/io/github/dankoller/antifraud/service/ValidationService.java:79-103 | a number the card check rejects is BAD_REQUEST, a locked card is CONFLICT, and the call succeeds exactly otherwise; an unlocked card is locked with its limits kept, an unknown number gets a locked 200/1500 card; no other card changes |
| ValidationService.DeleteStolenCard | src/main/java/io/github/dankoller/antifraud/service/ValidationService.java:111-122 | a number the card check rejects is BAD_REQUEST, an unknown one NOT_FOUND, and the call succeeds exactly otherwise; a locked card's record is removed, an unlocked card stays while success is reported |
| ValidationService.SaveThenDeleteStolenCardRestores | src/main/java/io/github/dankoller/antifraud/service/ValidationService.java:79-122 | reporting an unknown card stolen and then deleting it restores the card store |
| ValidationService.GetStolenCards | src/main/java/io/github/dankoller/antifraud/service/ValidationService.java:129-131 | exactly the stored cards whose lock flag is set |
| Accounts.ParseRole | src/main/java/io/github/dankoller/antifraud/entity/Role.java:19-23 | a string is a declared role name iff it names a role, and parsing gives that role |
| Accounts.RoleWithoutPrefix | src/main/java/io/github/dankoller/antifraud/entity/user/User.java:58-60 | stripping the five-character prefix from the stored role gives the role's name |
| UserService.FindByUsername | src/main/java/io/github/dankoller/antifraud/service/UserService.java:34-36 | a user is found iff some stored account has the username, and it is that account |
| UserService.Signup | src/main/java/io/github/dankoller/antifraud/service/UserService.java:44-70 | a taken username is CONFLICT; otherwise exactly one account is appended with the encoded password, as unlocked administrator into an empty store and as locked merchant otherwise; the store invariant is kept |
| UserService.DeleteUser | src/main/java/io/github/dankoller/antifraud/service/UserService.java:78-87 | an unknown username is NOT_FOUND; otherwise exactly the account with that username is removed and the invariant is kept |
| UserService.GetUserDataList | src/main/java/io/github/dankoller/antifraud/service/UserService.java:94-105 | one entry per account in store order, carrying id, name, username and the unprefixed role, and no password |
| UserService.CreateUserDataResponse | src/main/java/io/github/dankoller/antifraud/response/UserDataResponse.java:19-26 | the response copies id, name and username and carries the role name without prefix, which parses back to the account's role |
| AuthorizationService.UpdateRole | src/main/java/io/github/dankoller/antifraud/service/AuthorizationService.java:27-46 | NOT_FOUND before BAD_REQUEST (undeclared or ADMINISTRATOR) before CONFLICT (same role); it succeeds iff the user exists and the role is declared, not ADMINISTRATOR and different from the current one; on success only that account's role changes, to "ROLE_" + role |
| AuthorizationService.UpdateAccess | src/main/java/io/github/dankoller/antifraud/service/AuthorizationService.java:55-73 | NOT_FOUND, then BAD_REQUEST for an administrator or an operation other than LOCK/UNLOCK; it succeeds iff the user exists, is no administrator and the operation is LOCK or UNLOCK; then only that account's non-locked flag changes, to false for LOCK and true for UNLOCK, with the matching message |
| AuthorizationService.UpdateAccessIdempotent | src/main/java/io/github/dankoller/antifraud/service/AuthorizationService.java:62-72 | locking or unlocking twice leaves the store as once |
| AccountHistory.AtMostOneAdministratorEver | src/main/java/io/github/dankoller/antifraud/service/UserService.java:50-52 | from an empty store, no sequence of sign-ups, deletions, role and access changes yields two administrators |

## Left out

- HTTP controllers, page rendering and error pages: routing, plus security-context lookups outside the services.
- Spring Security configuration and user-details adapters: they depend on framework matching and authentication semantics.
- Persistence: repositories become maps, sets and sequences. Entity ids of cards and suspicious addresses are not modelled. A transaction's id is its position in the log plus one. Account ids come from a counter in the store.
- Browser scripts and the context-loading test.
- Concurrency: the unsynchronised read-modify-write of card limits is not modelled.
- Null handling beyond the intake request's amount, number and address and the card check's null input. A null address given to the IP check, or a null date, throws NullPointerException and is not modelled.
- Region is a plain string. The region enumeration (`Region.java`) is not part of this model.
- `LocalDateTime` becomes integer seconds, and `minusHours(1)` is 3600 s.
- `getSuspiciousIPs` returns the set unchanged and has no member.
- Confirmation strings of the delete operations are not modelled. `saveSuspiciousIP` returns the new set rather than the saved entity.
- Limits.Increased: computed exactly, not with Java doubles. IEEE rounding can differ from the exact ceiling at boundaries.
- Limits.Decreased: its bound is stated for non-negative limits only. For a negative limit, 0.8·limit lies above the limit.
- CardValidator.NumericValue: maps every non-ASCII character to -1. `Character.getNumericValue` gives values to other Unicode digits and letters.

## Findings

| source | as written | input that shows it | evidently intended | confidence | as-written member | corrected member |
|---|---|---|---|---|---|---|
| src/main/java/io/github/dankoller/antifraud/util/CardValidator.java:17-26 | each character contributes `Character.getNumericValue`, so letters count as 10..35 and a 16-character string with letters can pass | "00000000000000a9": 'a' at position 15 is doubled to 20, reduced to 11, plus 9 gives 20 | only 16 decimal digits passing the Luhn formula are valid card numbers | medium, not executed | CardValidator.AsWrittenAcceptsLetters | CardValidator.IsNonValidStrict |

The services model the code as written: history lookup, reporting a card stolen
and removing a stolen card all call `IsNonValid`, so they accept "00000000000000a9".
`IsNonValidStrict` is the corrected check. It is proved to accept only numbers the
original also accepts.
