# Comment and clap pipeline of a blog's server actions

This project models the engagement core of a blog's server actions (`src/actions/index.ts`):

- **Visitor comments.** `addComment` validates the form and rejects filled honeypots. It requires a CAPTCHA verdict, rate-limits per client address and classifies spam. Then it stores the comment as approved, or silently as spam. `getComments` lists a post's approved comments, oldest first.
- **Claps.** `toggleLike` adds one clap per call for a visitor, up to 50 per post. Only a visitor's first clap on a post is rate-limited. `getLikes` reports the post's total and the visitor's own count.
- **Moderation.** `adminGetAllComments`, `adminUpdateComment` and `adminGetStats` are gated by a configured admin key.
- **Helpers.** These are the rate limiter `checkRateLimit`, the spam classifier `containsSpam` and the choice of client address from request headers.

The database is a value `Db` holding three tables as sequences in insertion order (`comments`, `likes`, `rate_limits`) plus the next comment id. Every writing action (`addComment`, `toggleLike`, `adminUpdateComment`) is a pure function from a database and its inputs to a `Step`: the new database plus the handler's result, or the error it throws. The reads (`getComments`, `getLikes`, `adminGetAllComments`, `adminGetStats`) return only their result, or the error they throw. The clock is an input `now`. The CAPTCHA verdict is a boolean input. An absent header is `None`.

Modules:

- `Seqs` holds the SQL-like helpers. `Filter` stands for `WHERE`, `Count` for `COUNT(*)`, `SumBy` for `SUM` and the stable insertion sort `SortByKey` for `ORDER BY`.
- `Text` holds the JavaScript string facts the source relies on: UTF-16 lengths, ASCII case folding, `\w` and `\s`.
- `Schema` holds the tables, the `approved` column encoding, the errors, and header handling.
- `RateLimit`, `Spam`, `Comments`, `Claps` and `Moderation` model the handlers.

## Model

| member | source | states |
|---|---|---|
| Schema.StatusCode | src/actions/index.ts:323 | the `approved` column is 1 exactly for approved comments, -1 exactly for spam and 0 for pending |
| Schema.StatusOfCode | src/actions/index.ts:323 | reading the column back succeeds exactly on -1, 0 and 1 and inverts `StatusCode` |
| Schema.MessagesDistinct | src/actions/index.ts:105-123 | the thrown messages (these three, and those at lines 216, 240 and 315) differ pairwise, so a caller can tell every error from every other |
| Schema.ClientIp | src/actions/index.ts:100-102 | the address is never empty. It is `CF-Connecting-IP` when that header is non-empty, else a non-empty `X-Forwarded-For`, else `"unknown"` |
| Text.Utf16Length | src/actions/index.ts:88-90 | form lengths count UTF-16 code units. The count lies between the number of characters and twice that, and equals the number of characters exactly when no character lies outside the Basic Multilingual Plane |
| Text.Utf16Additive | src/actions/index.ts:88-90 | the measured length of a concatenation is the sum of the lengths of its parts |
| Text.Utf16OneChar | src/actions/index.ts:88-90 | a single character measures one code unit, or two when it lies above U+FFFF; with additivity this fixes the length of every string |
| RateLimit.Purge | src/actions/index.ts:47-50 | housekeeping keeps exactly the records, of any address or action, stamped no earlier than 24 hours before now, with every copy of a duplicated record |
| RateLimit.CheckRateLimit | src/actions/index.ts:36-69 | the action is admitted exactly when fewer than `maxActions` records of this address and action, stamped strictly after the window start, survive the purge. A denial leaves only the purged table. An admission appends one record stamped now |
| RateLimit.AdmissionRespectsCeiling | src/actions/index.ts:53-66 | after an admission the caller's in-window count grows by exactly the new record (for a positive window) and never exceeds the ceiling |
| RateLimit.ForeignRecordIgnored | src/actions/index.ts:53-58 | a record of another address or another action, inserted anywhere in the table, never changes a decision |
| RateLimit.BurstBound | src/actions/index.ts:36-69 | any series of checks by one caller spanning less than one window (of at most a day) admits at most `maxActions`, whatever the table held before |
| RateLimit.TwoAdmittedThenDenied | src/actions/index.ts:53-60 | with a ceiling of two, a third check inside the window of two admitted ones is denied |
| Spam.Test | src/actions/index.ts:80 | a left-to-right scan finds a pattern exactly when some start position matches it |
| Spam.ContainsSpam | src/actions/index.ts:72-81 | the classifier says spam exactly when one of the four patterns matches somewhere |
| Spam.BlockedWordExample | src/actions/index.ts:74 | a blocked word in upper case, between spaces, is spam |
| Spam.WholeWordOnlyExample | src/actions/index.ts:74 | a longer word that contains a blocked word does not match the word pattern, because of the word boundary |
| Spam.SuspiciousUrlExample | src/actions/index.ts:75 | a link ending in a listed top-level domain, in any case, is spam even when the host has several dots |
| Spam.HtmlAnchorExample | src/actions/index.ts:76 | an anchor tag in upper case, with a tab before `href`, is spam |
| Spam.BbCodeUrlExample | src/actions/index.ts:77 | a BBCode `url=` tag in upper case is spam |
| Comments.AddComment | src/actions/index.ts:85-165 | rejections come in source order: validation, honeypot, CAPTCHA, then the rate limiter, which alone decides, and whose denial throws the too-many-comments error. No refusal adds a comment. A rate denial changes only the rate table. A success appends exactly one row with the next id, stored as spam exactly when content or author name is spam. A flagged submission reports the moderation message without an id. A clean one reports the posted message and its id |
| Comments.GetComments | src/actions/index.ts:174-187 | the list is a rearrangement of the approved comments of the post, ordered by ascending creation time, with `count` its length |
| Comments.ListedIff | src/actions/index.ts:178-181 | a stored comment appears on a post's page exactly when it belongs to that post and is approved |
| Comments.ShownRowsAreListed | src/actions/index.ts:178-181 | everything on a page comes from an approved row of that post |
| Comments.AddCommentPreservesValid | src/actions/index.ts:129-158 | inserting keeps comment ids increasing and below the next id |
| Comments.SubmissionVisibility | src/actions/index.ts:126-164 | after a successful submission, the new comment is on its post's page exactly when it was not flagged, although both paths report success |
| Comments.ThirdCommentRefused | src/actions/index.ts:120-124 | two accepted comments from one address within five minutes make a third within those five minutes fail as throttled, adding no comment |
| Claps.FindLike | src/actions/index.ts:206-209 | the lookup returns the first row of this visitor on this post, or nothing when there is none |
| Claps.ToggleLike | src/actions/index.ts:196-261 | claps never touch comments. A visitor at 50 claps is refused and nothing changes. A returning visitor is never rate-checked. A first clap is rate-checked: the rate limiter alone decides whether it succeeds, and its denial throws the too-many-actions error. A refusal writes no clap. A success reports the post's new sum of claps |
| Claps.GetLikes | src/actions/index.ts:270-295 | the count is the post's sum of claps, and a visitor without a row has 0 claps |
| Claps.TotalAfterBump | src/actions/index.ts:219-229 | incrementing a visitor's rows raises the post's total by the number of that visitor's rows |
| Claps.VisitorRows | src/actions/index.ts:206-209 | with unique visitor rows, a visitor has one row on a post or none |
| Claps.ToggleLikePreservesValid | src/actions/index.ts:211-247 | claps keep like rows unique per visitor and post, with every count within 1..50 |
| Claps.ClapAddsOne | src/actions/index.ts:211-259 | a successful clap raises the post's total by exactly one and leaves every other visitor's row unchanged. A following `getLikes` reports exactly the total and own count the clap returned |
| Claps.RepeatClap | src/actions/index.ts:211-235 | a returning visitor's successful clap increments their row, and the reported figures agree with `getLikes` |
| Claps.FirstClap | src/actions/index.ts:236-259 | a first clap appends a row with one clap, and the reported figures agree with `getLikes` |
| Claps.ClapsSaturate | src/actions/index.ts:211-223 | a returning visitor at c claps who claps n more times ends at min(c + n, 50) |
| Claps.OwnClapsWithinTotal | src/actions/index.ts:280-293 | a visitor's own count is between 0 and the post's total |
| Moderation.Selection | src/actions/index.ts:318-328 | the admin selection is a rearrangement of the rows whose `approved` column holds the status map's value for the requested status (all rows when no status or `all` is given), newest first |
| Moderation.AdminGetAllComments | src/actions/index.ts:301-341 | a wrong or unset key is refused. Otherwise the page is a newest-first prefix of the selection: `limit` rows when a positive limit is smaller than the selection, the whole selection when the limit is absent, zero or negative |
| Moderation.AdminUpdateComment | src/actions/index.ts:345-384 | a wrong or unset key is refused with nothing changed. Otherwise the call succeeds and changes only the comments table. Approve and reject set the status of rows with that id and of no other. Delete removes those rows and keeps all others |
| Moderation.AdminGetStats | src/actions/index.ts:387-433 | a wrong or unset key is refused. `likes` counts like rows, not claps |
| Moderation.StatsTotalIsRowCount | src/actions/index.ts:420-426 | the reported total equals the number of comment rows |
| Moderation.StatsAgreeWithListing | src/actions/index.ts:402-426 | each per-status figure, and the total, equals the size of the unlimited listing with the matching status filter |
| Moderation.UpdatePreservesValid | src/actions/index.ts:362-379 | moderation keeps comment ids increasing and below the next id |
| Moderation.ModerationIdempotent | src/actions/index.ts:362-379 | repeating any moderation action returns the same result and changes nothing further |
| Moderation.MissingIdIsNoop | src/actions/index.ts:362-379 | moderating an id that no row has succeeds and leaves the database unchanged |
| Moderation.StatusDecidesVisibility | src/actions/index.ts:368-379 | after approve or reject, a comment is on a post's page exactly when it was approved and belongs to that post |
| Moderation.DeleteHides | src/actions/index.ts:362-367 | a deleted comment is on no page |
| Seqs.SortByKey | src/actions/index.ts:179 | sorting yields a permutation of its input in ascending key order |

## Left out

- The CAPTCHA round trip (`verifyTurnstile`, src/actions/index.ts:14-33) is a boolean input. The source returns false on any network or parse failure, so an unreachable service reads as a failed CAPTCHA.
- Form and JSON plumbing is not modelled. A form that fails the input schema is `InvalidInput`, and the schema's error text is not modelled. The `action` and `status` inputs are enumerations, so the `Invalid action` throw at src/actions/index.ts:382 cannot be reached.
- Clock: `addComment` and a first clap read the clock more than once. The model uses one `now` per call, for the rate check, the purge and the stored timestamps alike. The read-only handlers and the admin handlers never read it.
- `getComments` and `adminGetAllComments` keep table order among rows with equal timestamps. That is one of the orders SQL permits; the database may return another.
- Comment ids come from a counter that never reuses a value. SQLite may reuse the largest id after that row is deleted.
- Concurrent requests, and the races between a handler's separate statements, are not modelled. For example, two simultaneous claps can both pass the 50 check.
- Logging (`console.log`, `console.error`) is left out.
- Database failures are left out: the model assumes every statement succeeds.
- `limit` and `commentId` are integers. A fractional number passes the input schema but is not modelled.
- Strings are sequences of Unicode scalar values, so a string holding a lone UTF-16 surrogate cannot be represented.
- The CLI moderation script, the data files and the site configuration are not part of this model.
- Claps.GetLikes: the visitor's own count is stated only for a visitor with no row. `Claps.ClapAddsOne` and `Claps.ClapsSaturate` state it for a visitor with a row.
- The `approved` column is modelled as a three-valued status, holding only -1, 0 and 1. That is all the handlers ever write, and under it the statistics total always equals the number of comment rows.
- The clap ceiling message ends in the four characters stored in the source file: a party-popper emoji's UTF-8 bytes read as Windows-1252.

Where the source's own comments and its code disagree, the model follows the code:

- The comment at src/actions/index.ts:237 describes 50 actions within 5 minutes for likes. The call at src/actions/index.ts:238 passes a 50-minute window and a maximum of 5, and that is the like profile modelled.
- The comments at src/actions/index.ts:128 and src/actions/index.ts:142 say a flagged submission should not be revealed to its sender. The response at src/actions/index.ts:143 does report success, but with a different message from a clean submission (src/actions/index.ts:162) and without a `commentId`. So a sender can tell the two apart. `Comments.AddComment` states both responses as written.
