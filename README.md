# fxvm-bot in Dafny

fxvm-bot is a Telegram bot with an "FX" coin economy, plus a small companion bot and a web page.

The FX bot:
- lets users mine FX on a cooldown, from the chat or from a web page;
- pays referral bonuses;
- sells premium time for FX;
- takes withdrawal and UC (game currency) orders through a short conversation, which admins then approve or deny;
- keeps film codes that users can look up;
- once a month, rewards the ten richest users (the "drop").

The companion bot indexes films posted in a channel under `KOD: <number>` and sends a film back when a user messages its code. It allows 5 lookups per user per 30 seconds.

This project models that logic and proves properties of it:

- **Store (`db.dfy`, module `Db`).** The PostgreSQL tables are the fields of one class `Store`: maps keyed by user id, state owner, code or setting, and append-only sequences for requests and drops. Every query of `db.js` is a method or function on them. The class invariant holds ids as keys and unique referral codes.
- **Rules (`rules.dfy`, module `Rules`).** The pure rules of `index.js`:
  - premium expiry;
  - cooldown and reward resolution from the settings, with their fallbacks;
  - the mining decision;
  - `secondsToHuman` and `displayName`;
  - the freshness gates of `verifyInitData`;
  - `extractMovieContentFromReply`;
  - the payout-day gate.
- **Conversation (`flow.dfy`, module `Flow`).** The conversation of `handleStateMessage` is a datatype of states with their payloads.
  - `Step` is one transition.
  - `Decode` reads a stored state row back.
  - `Commit` is the debit/record/compensation step of the two orders.
- **Handlers (`engine.dfy`, module `Engine`).** These change the store:
  - mining;
  - sign-up and referral;
  - the premium purchase;
  - the flows;
  - admin approve/deny;
  - `/addmovie`;
  - `/drop_run`.
- **Companion bot.** `parse_code.dfy` (`CodeParser`), `admin_check.dfy` (`AdminCheck`), `movie_index.dfy` (`MovieTable`, the `movie_index` table as a class) and `companion_bot.dfy` (`CompanionBot`: the rate limiter as a class, the channel filter, `/stats`, `/del`, `/set`, and the message handler's guards).
- **Web page (`webapp.dfy`, `WebApp`).** `normalizeApiBase` and `getErrorMessage`.
- **Shared helpers.** `jstext.dfy` (`JsText`) models the JavaScript string and number behaviour the code depends on: `trim`, `\s`, `\d`, `\w`, `String(n)`, `parseInt` and `Number` on integer numerals. `wrappers.dfy` holds `Option`.

Some things from outside the program become parameters:
- **The clock:** `now`, in milliseconds.
- **The calendar:** `today`, `month` and `year`.
- **Random draws:** `draws`, the candidate referral codes in order.
- **The HMAC check:** `signatureValid`.
- **Where a try block fails:** `fault`, or `notifyFailsAt` for the drop loop.

Messages sent to users are not modelled. A handler's result value says what happened.

A failing congratulation message in `/drop_run` is not caught (index.js:1215-1218). It ends the loop, and no drop record is written. `Engine.DropRun` models this abort through `notifyFailsAt`.

The compensating credit of the two orders in index.js runs on every failure inside the `try` block, including a failed debit and a failed notification after the request was recorded. `Flow.CommitAsWritten` models that code, and the Findings show what it costs. The handlers in `Engine` use the corrected `Flow.Commit` instead; "## Left out" lists them.

## Model

| member | source | states |
|---|---|---|
| Db.SettingNumberOf | db.js:128-135 | an absent key gives NULL; a blank value reads as 0 |
| Db.SettingRoundTrip | db.js:128-144 | after `setSetting(k, String(n))`, `getSettingNumber(k)` is `n` |
| Db.Store.SetSetting | db.js:137-144 | upsert of one key; no other key changes |
| Db.Store.Setting | db.js:123-126 | the stored text of a key, or nothing |
| Db.Store.Seed | db.js:115-121 | seeding is `SeedInto` over the defaults: insert unless the key exists |
| Db.Store.InsertMissing | db.js:115-121 | the seeding loop over any entry list is `SeedInto`: each key inserted unless present |
| Db.SeedKeepsExisting | db.js:115-121 | seeding never overwrites a key that is present |
| Db.SeedKeys | db.js:115-121 | after seeding, the keys are the old keys plus the default keys |
| Db.SeedFillsAbsent | db.js:115-121 | an absent key takes its first default |
| Db.Store.constructor | db.js:27-113 | all tables start empty |
| Db.Store.UserById | db.js:146-148 | the row with that id, or nothing |
| Db.Store.UserByReferralCode | db.js:150-152 | the row holding the code; nothing exactly when no row holds it |
| Db.Store.CreateUser | db.js:154-168 | inserts a row with column defaults iff the id and the referral code are both unused (primary key and UNIQUE); otherwise nothing changes |
| Db.UpdateKeepsCodesUnique | db.js:30-37 | rewriting a row without touching its code keeps codes unique |
| Db.InsertKeepsCodesUnique | db.js:30-37 | inserting a row with an unused code keeps codes unique |
| Db.Store.UpdateUserIdentity | db.js:170-177 | only the three name columns of that row change |
| Db.Store.AddUserBalance | db.js:179-184 | a signed delta on one balance, no floor, nothing else changes |
| Db.Store.SetUserPremiumUntil | db.js:186-191 | only `premium_until` of that row changes |
| Db.Store.UpdateUserMining | db.js:193-202 | balance and total mined grow by the same amount; last mine time is set; nothing else changes |
| Db.Store.MinedRow | db.js:193-202 | the mined row: balance and total mined differ from the old row by the same amount, the mine time is set, every other column is kept |
| Db.LinkReferral | db.js:204-209 | the row of the user, when present, gets `referred_by` set to the referrer; no other row changes and no row appears |
| Db.AddReferralStats | db.js:211-220 | the referrer's row, when present, gains the bonus in balance and referral earnings and one referral; no other row or column changes |
| Db.Store.SetUserReferredBy | db.js:204-209 | the table becomes `LinkReferral` of the old one: only `referred_by` of that row changes |
| Db.Store.IncrementReferralStats | db.js:211-220 | the table becomes `AddReferralStats` of the old one: the referrer's balance and referral earnings grow by the bonus and its count by 1; nothing else changes |
| Db.Store.RankByBalance | db.js:222-228 | rank is one more than the number of users with a strictly larger balance: at least 1, and 1 exactly when nobody has a larger balance |
| Db.NobodyRicher | db.js:222-228 | no richer user iff every balance is at most the given one |
| Db.Store.FirstInOrder | db.js:230-238 | the key that comes first in `fx_balance DESC, id ASC` order |
| Db.Store.TopUsers | db.js:230-238 | the result is the leaderboard: sorted strictly by the order, at most `limit` rows, and no left-out row comes before a listed one |
| Db.SelectNext | db.js:230-238 | taking the first remaining row keeps the selection sorted and complete |
| Db.AppendInOrder | db.js:230-238 | a row that comes after every selected row can be appended without breaking the order |
| Db.AppendStaysAhead | db.js:230-238 | after taking the first remaining row, every row still left comes after every selected row |
| Db.SelectionDone | db.js:230-238 | a selection that reached the limit or ran out of rows is the leaderboard |
| Db.TopListRank | db.js:222-238 | the `i`-th leaderboard row has rank at most `i + 1` |
| Db.TopListHeadRankOne | db.js:222-238 | the first leaderboard row has rank 1 |
| Db.Store.SetUserState | db.js:254-263 | overwrites the caller's slot with the new state, payload and time |
| Db.Store.ClearUserState | db.js:284-286 | removes the caller's slot only |
| Db.StateOf | db.js:265-282 | a state exists iff a row exists, and gives back its name and payload |
| Db.StateRoundTrip | db.js:254-282 | after `setUserState(u, s, d)`, `getUserState(u)` is `{s, d}`, whatever was there |
| Db.ClearedStateIsGone | db.js:265-286 | after clearing, `u` has no state and other users keep theirs |
| Db.Store.CreateWithdrawRequest | db.js:288-303 | appends a pending request with the next id and the given fields |
| Db.Store.WithdrawById | db.js:313-315 | found iff the id is in range; the row has that id |
| Db.Store.UpdateWithdrawStatus | db.js:305-311 | only status and update time of that request change |
| Db.Store.CreateUcRequest | db.js:323-333 | appends a pending UC order with the next id |
| Db.Store.UcById | db.js:344-346 | found iff the id is in range; the row has that id |
| Db.Store.UpdateUcStatus | db.js:335-342 | only status and update time of that order change |
| Db.Store.AddMovieCode | db.js:354-385 | inserts the code, or overwrites every column of an existing one |
| Db.Store.DeleteMovieCode | db.js:387-389 | removes that code only |
| Db.Store.MovieByCode | db.js:391-393 | the row of the code, or nothing |
| Db.Store.NextMovieCode | db.js:395-401 | the numeral one past the largest all-digit code ("1" when there is none); it is never in use |
| Db.NextCodeIsFresh | db.js:395-401 | the numeral of max + 1 is not among the codes |
| Db.Store.AddDropRecord | db.js:403-410 | appends one record with the next id; no uniqueness on (month, year) |
| Db.Store.DropFor | db.js:412-417 | a record for (month, year) exists iff one was appended |
| Db.TextOrNull | db.js:154-168 | `x \|\| null` on text: empty becomes NULL, anything else is kept |
| Db.NumberOrNull | db.js:154-168 | `x \|\| null` on a number: 0 becomes NULL |
| Db.BigIntInput | db.js:29-44 | a BIGINT column accepts only signed 64-bit integers |
| Rules.IsPremium | index.js:110-115 | premium only when the expiry is set and strictly after `now` |
| Rules.PremiumUntilExpiry | index.js:110-115 | premium at `now` implies premium at every earlier time; it has lapsed at its own expiry; an unset expiry is never premium |
| Rules.OrDefault | index.js:230-256 | `x \|\| d`: a non-zero value is kept; absent or 0 falls back to `d` |
| Rules.ExtendPremium | index.js:409-410 | the new expiry is the remaining premium plus `days` days past `now`; for `days >= 0` it is not before `now` or the old expiry |
| Rules.ExtendPremiumActivates | index.js:110-115 | a grant of at least one day makes the user premium at `now` |
| Rules.ExtendPremiumAdds | index.js:409-410 | granting `a` then `b` days equals granting `a + b` |
| Rules.ExtendPremiumAsWritten | index.js:408-412 | an expired or missing premium gives the numeric expiry; a running one gives text |
| Rules.ConcatenatedExpiryRejected | index.js:408-412 | with premium running, an expiry of 13+ digits and a grant of a day or more, the stored value is outside BIGINT |
| Rules.LongConcatenationRejected | db.js:29-44 | a numeral worth at least 10^12 followed by eight or more digits is refused by a BIGINT column |
| Rules.CorrectedExpiryStored | index.js:408-412 | with numeric addition, the expiry for realistic clocks and grants is stored unchanged |
| Rules.CooldownSeconds | index.js:230-242 | bot: `mine_cooldown_seconds`, else 60; web: `web_mine_cooldown_seconds`, else 0 |
| Rules.ConfiguredCooldownApplies | index.js:230-242 | a cooldown of `n` written with `setSetting` is the cooldown used, by the bot and by the web page |
| Rules.MissingCooldownDefaults | index.js:230-242 | without a readable setting the bot waits 60 s and the web page 0 s |
| Rules.MineAmount | index.js:244-256 | web: `web_mine_amount`, else 1, whatever the premium; bot: premium or plain amount, with 0 or absent giving 1 |
| Rules.ConfiguredAmountApplies | index.js:244-256 | a configured amount `n` is paid as written, except that the bot pays 1 for a configured 0 (`\|\| 1`) while the web page pays 0 (`!== null`) |
| Rules.MissingAmountDefaults | index.js:244-256 | without readable amounts both the bot and the web page pay 1 FX |
| Rules.SeededCooldowns | config.js:27-39 | with the seeded settings, the bot waits 60 s and the web page 0 |
| Rules.SeededBotAmounts | config.js:27-39 | with the seeded settings, the bot pays 2 FX to premium users and 1 FX otherwise |
| Rules.SeededNumber | config.js:27-39 | a seeded numeric default reads back as its number |
| Rules.SeededValue | db.js:115-121 | each default is stored under its key on an empty table |
| Rules.DefaultKeysDistinct | config.js:27-39 | no key appears twice among the seeded defaults |
| Rules.ElapsedSeconds | index.js:265-266 | whole seconds since the last mining, floored, never negative |
| Rules.MineDecision | index.js:258-290 | missing user: not found; within the cooldown: refused, with the seconds left; otherwise: mined with the resolved amount |
| Rules.ReadyAfterCooldown | index.js:265-280 | once the whole cooldown has passed, mining succeeds |
| Rules.BlockedWithinCooldown | index.js:265-276 | a second request within the cooldown after a mining is refused |
| Rules.SecondsToHuman | index.js:128-138 | "0s" for non-positive input; otherwise minutes and seconds that add back up to the input |
| Rules.FullName | index.js:102 | the non-empty names joined by one space: `first last` when both are present, the one present name otherwise; empty exactly when both are empty |
| Rules.FullNameSplits | index.js:102 | a first name without spaces is the part of the full name before its first space, and the last name the rest |
| Rules.DisplayName | index.js:95-104 | never empty: "Noma'lum" for no user; `@username` when there is one; else the full name when it is not empty; else `ID:<id>` |
| Rules.VerifyInitData | index.js:158-194 | accepted exactly when there is data, a non-empty hash, a non-zero numeric `auth_date` at most 24 h old and a valid signature |
| Rules.StaleInitDataRejected | index.js:167-174 | an `auth_date` more than a day old is refused whatever the signature |
| Rules.FutureInitDataAccepted | index.js:167-174 | there is no lower bound: a signed `auth_date` from the future passes |
| Rules.ExtractMovieContent | index.js:907-940 | a channel forward gives the channel and message ids; otherwise the video's file id, else the largest photo's, else the document's, else the audio's, else the non-empty text, none of them with channel ids; nothing for a message with none of these |
| Rules.ChannelForwardWins | index.js:911-922 | a forward from a channel gives channel content, whatever else the message carries |
| Rules.ExplicitMovieCode | index.js:1131-1133 | a code is taken as given unless it is empty, `auto` or `next` in any letter case |
| Rules.AutoCodeIgnoresCase | index.js:1131-1133 | `AUTO` and `Next` both ask for an automatic code |
| Rules.WithdrawOpen | index.js:453-456 | admins always; others only on the payout day (default 15) |
| Flow.Decode | index.js:500-707 | a decoded state has the stored name |
| Flow.DecodeEncode | index.js:464-620 | every state a handler writes reads back as itself |
| Flow.Step | index.js:486-707 | an advance carries validated data: the amount is within the balance, the card type is known, the UC cost is affordable; commits come only from their confirming states |
| Flow.AmountStep | index.js:500-527 | advances iff `parseInt` gives a positive amount within the balance; the amount is carried forward |
| Flow.CardTypeStep | index.js:528-548 | advances iff the upper-cased text is UZCARD or HUMO; it is stored upper-cased |
| Flow.CardNumberStep | index.js:549-558 | commits iff the text without white space is 16 digits; otherwise re-prompts |
| Flow.UcAmountStep | index.js:596-637 | re-prompts on a non-positive amount; abandons when the balance cannot cover amount × rate; otherwise advances with that cost |
| Flow.UcConfirmStep | index.js:638-683 | `ha` commits, `yoq` abandons, anything else re-prompts (case-insensitive) |
| Flow.CancelFromAnyState | index.js:492-497 | the cancel keyword ends every state |
| Flow.StepKeepsGoodState | index.js:500-683 | transitions keep the collected data valid, and commits are within the balance |
| Flow.BadAmountReprompts | index.js:499-504 | a non-positive or non-numeric withdrawal amount keeps the amount prompt |
| Flow.BadUcAmountReprompts | index.js:596-605 | a non-positive or non-numeric UC amount keeps the UC amount prompt |
| Flow.CardTypeIgnoresCase | index.js:528-545 | `humo` is accepted and stored as `HUMO` |
| Flow.UnaffordableUcAbandons | index.js:606-618 | an unaffordable UC order ends the conversation |
| Flow.CommitAsWritten | index.js:562-592 | the record exists iff nothing failed before it; every failure credits the amount back |
| Flow.FailedDebitStillCredited | index.js:563-586 | a failing debit still credits the amount: money is created |
| Flow.NotifyFailureThenDenyDoubleCredits | index.js:562-592 | a failing notification leaves a pending request with the money returned, so a deny pays twice |
| Flow.Commit | index.js:562-592 | corrected: the record exists iff nothing failed before it; credits only a debit that has no record |
| Flow.CommitConserves | index.js:562-592 | the corrected step never creates money, and a deny of its record restores exactly the balance |
| Flow.CommitAgreesWithoutLeftovers | index.js:562-592 | corrected and as-written agree when nothing fails or the record could not be created |
| Engine.Credit | db.js:179-184 | one balance moves by `delta`; every other row and column is unchanged |
| Engine.CreditCancels | index.js:586-587 | a debit followed by the same credit restores the table |
| Engine.MineForUser | index.js:258-290 | the outcome is `MineDecision` on the row; only a mining updates the row, in one atomic update |
| Engine.GenerateUniqueReferralCode | index.js:292-300 | the code returned is one of the draws and no user holds it |
| Engine.EnsureUser | index.js:196-219 | a new id is inserted with a fresh code; a known id gets the names refreshed; the user exists afterwards |
| Engine.Referred | db.js:204-220 | the user is linked to the referrer, and the referrer gains the bonus twice (balance, earnings) and one referral; every other row is kept |
| Engine.ApplyReferralIfAny | index.js:309-321 | nothing unless the code is non-empty, the user is unreferred, and the owner exists and is not the user; otherwise the table becomes `Referred` of the old one with `referral_bonus \|\| 0`, and the owner is returned |
| Engine.ReferNewUser | index.js:944-945 | for an unreferred user: a referrer is returned iff the trimmed argument is non-empty and another user holds it as code, and then the table is `Referred` of the old one; otherwise nothing changes |
| Engine.Start | index.js:942-954 | a known sender gets only the three name columns refreshed, no referrer, and no balance moves; a new sender is inserted as `NewUser` with a drawn code nobody held, and, when another user held the trimmed non-empty argument as code, is linked to that user via `Referred`; a referrer is returned iff the sender is new and such a holder exists |
| Engine.HandlePremiumPurchase | index.js:394-422 | with the cost on the balance: debit and corrected expiry; otherwise nothing changes |
| Engine.StartWithdrawFlow | index.js:453-470 | the amount prompt opens iff the payout day allows it |
| Engine.StartFlow | index.js:472-484 | opens the UC or film prompt, replacing any state |
| Engine.CommitWithdrawal | index.js:559-593 | balance and requests change as the corrected `Commit` says |
| Engine.CommitUcOrder | index.js:643-670 | balance and UC orders change as the corrected `Commit` says |
| Engine.ApplyAction | index.js:486-707 | clears the slot before a commit, keeps it on a re-prompt, stores the next state on an advance; only commits touch money |
| Engine.HandleStateMessage | index.js:486-707 | no state: nothing; cancel clears; an unknown state is cleared and unhandled; otherwise the `Step` transition with the current balance and `uc_fx_rate \|\| 1`; a film lookup returns exactly the row stored under the code, so a stored film is always sent |
| Engine.ApproveWithdraw | index.js:1040-1057 | succeeds iff admin and the request is pending; sets approved; balances untouched |
| Engine.DenyWithdraw | index.js:1059-1077 | succeeds iff admin and pending; sets denied and credits exactly the amount back |
| Engine.ApproveUc | index.js:1087-1104 | succeeds iff admin and pending; sets approved |
| Engine.DenyUc | index.js:1106-1124 | succeeds iff admin and pending; sets denied and credits exactly `fx_cost` back |
| Engine.AddMovie | index.js:1126-1166 | admins only; an explicit code is used as given; otherwise it is one past the largest all-digit code in use (`"1"` when none), hence unused; the stored content is the reply's, else the trimmed text |
| Engine.MovieContent | index.js:1136-1142 | the reply's content wins over the text argument |
| Engine.RewardedEachOnce | index.js:1205-1214 | each leaderboard user gets the bonus exactly once, plus premium days when there are any; others are untouched |
| Engine.TopListDistinct | db.js:230-238 | leaderboard rows have distinct ids |
| Engine.RewardLeaders | index.js:1205-1219 | the loop rewards the leaderboard in order; a failing notification at `k` stops it after `k + 1` users |
| Engine.RecordDrop | index.js:1221-1225 | appends the record with notes `drop_bonus_fx=…, drop_premium_days=…` |
| Engine.RewardAndRecord | index.js:1201-1225 | both settings read with `\|\| 0`; the leaderboard rewarded in order and, unless a notification aborts, one record appended; the record is written only when no notification in range fails, and a failure at the `k`-th user stops the run after `k + 1` rewards |
| Engine.RunDrop | index.js:1195-1225 | an empty leaderboard changes nothing and means an empty table; otherwise the top 10 are rewarded as in `RewardAndRecord`, with the record only when no notification in range fails |
| Engine.DropRun | index.js:1177-1227 | non-admin or an existing record without force: nothing changes; no users: nothing changes; otherwise every top-10 user is rewarded once and one record is appended, exactly when no notification in range fails; a failure at the `k`-th user stops the run after `k + 1` rewards with no record |
| CodeParser.ParseCode | src/utils/parseCode.js:1-14 | empty text gives nothing; otherwise the first tagged number of the trimmed text when there is one, else the value of an all-digit trimmed text, else nothing |
| CodeParser.KodAt | src/utils/parseCode.js:6 | a match at `i` needs `KOD:`/`KODI:` to start there at a word boundary |
| CodeParser.KodAtMatches | src/utils/parseCode.js:6 | a match at `i` exactly when `KOD:`/`KODI:` starts there at a word boundary and the maximal digit run after the white space is non-empty and ends at a word boundary; its value is that run's |
| CodeParser.CaptureStart | src/utils/parseCode.js:6 | the captured digits start after the tag and all the white space that follows it |
| CodeParser.CaptureEnd | src/utils/parseCode.js:6 | the captured digits are the maximal digit run after the tag and the maximal white space |
| CodeParser.FirstKod | src/utils/parseCode.js:6-9 | when the search finds nothing, no position from `i` on matches |
| CodeParser.FirstKodIsLeftmost | src/utils/parseCode.js:6-9 | the search returns the leftmost match: the match at `k` when `k` matches and no position before it does |
| CodeParser.NoMatchFindsNothing | src/utils/parseCode.js:6-9 | with no match from `i` on, the search finds nothing |
| CodeParser.NumeralRoundTrip | src/utils/parseCode.js:10-12 | `parseCode(String(n)) == n` for every `n` |
| CodeParser.TaggedRoundTrip | src/utils/parseCode.js:6-9 | `parseCode("KOD: " + String(n)) == n` for every `n` |
| CodeParser.AllDigitTextReadsAsNumber | src/utils/parseCode.js:10-12 | an all-digit trimmed text reads as its value |
| CodeParser.DigitsHaveNoTag | src/utils/parseCode.js:6-7 | a digit string has no tagged match |
| CodeParser.TagFollowedByLettersIsRejected | src/utils/parseCode.js:6-13 | `KOD: 12abc` gives nothing |
| CodeParser.TagInsideWordIsRejected | src/utils/parseCode.js:6-13 | `XKOD:5` gives nothing |
| CodeParser.LowerCaseTagIsRejected | src/utils/parseCode.js:6-13 | matching is case-sensitive: `kod: 5` gives nothing |
| CodeParser.GluedLettersSpoilMatch | src/utils/parseCode.js:6 | digits glued to letters fail the closing word boundary |
| CodeParser.NoTagWithoutK | src/utils/parseCode.js:6 | every match starts with a capital `K`: a text without one from position `i` has no match there |
| AdminCheck.IsAdmin | src/utils/isAdmin.js:1-6 | true only for a non-zero id whose decimal text is listed |
| AdminCheck.ListedIdIsAdmin | src/utils/isAdmin.js:5 | a listed non-zero id is recognised |
| AdminCheck.EntryNamesOneId | src/utils/isAdmin.js:5 | exact comparison: the entry `String(m)` admits exactly the id `m` (non-zero) |
| AdminCheck.PaddedEntryNeverMatches | src/utils/isAdmin.js:5 | no trimming: an entry starting with white space never matches |
| AdminCheck.MoreEntriesKeepAdmin | src/utils/isAdmin.js:5 | adding entries never removes admin status |
| AdminCheck.IndexIsAdmin | index.js:91-93 | `String(id)` is listed, with no falsy guard: the companion check, or the id 0 with `"0"` listed |
| AdminCheck.ChecksAgreeOnNonZeroIds | index.js:91-93 | the FX bot's check agrees except on id 0, which only it can accept |
| MovieTable.MovieIndex.Upsert | src/models/Movie.js:3-18 | stores and returns the row, replacing any earlier one; the count grows only for a new code |
| MovieTable.MovieIndex.FindByCode | src/models/Movie.js:20-26 | the row for the code, or nothing when absent |
| MovieTable.MovieIndex.RemoveByCode | src/models/Movie.js:28-33 | returns 1 if the code existed, else 0; afterwards it is absent, other codes are untouched, and the count drops by the result |
| MovieTable.MovieIndex.CountAll | src/models/Movie.js:35-41 | the number of distinct codes |
| MovieTable.UpsertCount | src/models/Movie.js:3-18 | an upsert adds one row only for a new code |
| MovieTable.RemoveCount | src/models/Movie.js:28-33 | a delete removes one row only for a present code |
| CompanionBot.RateLimiter.IsRateLimited | src/bot.js:9-18 | a new window (first call or `now > resetAt`) starts at count 1 and is not limited; otherwise the count grows and the call is limited past 5; only the caller's entry changes |
| CompanionBot.Outcomes | src/bot.js:9-18 | one answer per call; while fewer than five calls were counted before a call, that call is let through |
| CompanionBot.Accepted | src/bot.js:9-18 | at most the number of calls, and all of them exactly when no call was limited |
| CompanionBot.FirstFiveAccepted | src/bot.js:9-18 | a user without an entry gets up to five calls through, however close together |
| CompanionBot.OpenWindowAccepts | src/bot.js:16-17 | within an open window, exactly the calls left of the five pass |
| CompanionBot.WindowAcceptsAtMostFive | src/bot.js:5-18 | of `n` calls in one 30 s window (end inclusive), exactly `min(n, 5)` pass |
| CompanionBot.NormalizeChannelId | src/bot.js:28-33 | empty when unset; otherwise the trimmed text |
| CompanionBot.NormalizeIsIdempotent | src/bot.js:28-33 | normalising twice is normalising once |
| CompanionBot.PostText | src/bot.js:45 | a non-empty caption, else a non-empty text, else empty |
| CompanionBot.PostCode | src/bot.js:38-49 | a post yields a code only from the allowed channel (any, when none is set), and only a non-zero parsed code |
| CompanionBot.TaggedCaptionIsIndexed | src/bot.js:42-54 | a post captioned `KOD: n` (n > 0) from the allowed channel is indexed under `n` |
| CompanionBot.HandleChannelPost | src/bot.js:38-56 | upserts exactly the `PostCode` code with the chat and message id; otherwise the index is unchanged |
| CompanionBot.Stats | src/bot.js:82-93 | admins get the number of indexed codes; others get nothing |
| CompanionBot.Del | src/bot.js:95-111 | only admins delete; the reply says whether the code existed |
| CompanionBot.Set | src/bot.js:113-134 | writes only for an admin with a channel configured, binding the code to that channel and message |
| CompanionBot.MessageCode | src/bot.js:136-150 | a code only for a non-command text in a private chat that parses to a non-zero code |
| CompanionBot.PrivateNumeralAsksForCode | src/bot.js:138-150 | a bare numeral `n > 0` in a private chat asks for `n` |
| CompanionBot.HandleMessage | src/bot.js:136-169 | guards run before the limiter; admins skip it; a limited user is refused; otherwise the reply is the indexed row or not-found |
| WebApp.StripTrailingSlashes | public/app.js:21 | the result is a prefix without a trailing slash, and only slashes were removed |
| WebApp.StripWebhookPath | public/app.js:22-26 | `/telegram/webhook` is removed in preference to `/webhook`, at most one of them |
| WebApp.NormalizeApiBase | public/app.js:16-31 | "" for a falsy input; a result that contains a dot always has an http(s) scheme |
| WebApp.SchemeAdded | public/app.js:27-28 | the `https://` prefix the code adds passes its own case-insensitive scheme test |
| WebApp.PlainBaseResult | public/app.js:27-30 | a plain base is kept when it has a scheme (any case) or no dot; otherwise it gets `https://` |
| WebApp.SameBaseSameResult | public/app.js:20-30 | inputs that reduce to the same plain base give the same result |
| WebApp.WebhookUrlGivesBase | public/app.js:22-23 | `base + "/telegram/webhook"` normalises like `base` |
| WebApp.WebhookPathGivesBase | public/app.js:24-25 | `base + "/webhook"` normalises like `base` |
| WebApp.SlashedBaseGivesBase | public/app.js:21 | `base + "/"` normalises like `base` |
| WebApp.GetErrorMessage | public/app.js:84-100 | unknown codes give the fallback; `network`, `server_error`, `unauthorized` and `api_missing` each get their own message, `bad_response` and `empty_response` share one |
| WebApp.BadAndEmptyResponsesAlike | public/app.js:88-90 | `bad_response` and `empty_response` give the same message |
| WebApp.FallbackOnlyForUnknownCodes | public/app.js:84-100 | the fallback is shown exactly for unknown codes |

## Left out

- Telegram transport, keyboards, message texts, express routes and CORS are not modelled (index.js:323-451, 709-863, 1265-1328; src/index.js). Neither is the routing of commands by regular expression. A command's arguments are parameters of the handler that runs it.
- Modelled as parameters:
  - the HMAC-SHA-256 signature check of `verifyInitData` (`signatureValid`);
  - `crypto.randomBytes` (`draws`);
  - `Date.now()` (`now`);
  - `new Date()` calendar fields (`today`, `month`, `year`).
- `normalizeWebhookUrl`, `getBackendBaseUrl` and `getWebAppUrl` are not modelled; they rely on the WHATWG `URL` parser, a library.
- `formatNumber` and `formatDateTime` are locale formatting and are not modelled.
- The index.js admin commands `/set`, `/getsettings`, `/delmovie`, `/broadcast`, `/stats`, `/withdrawals` and `/uc_requests` are not modelled as handlers. Each is an admin check plus one store call (`Db.Store.SetSetting`, `Db.Store.DeleteMovieCode`) or a read for a message.
- `sendMovieContent`, `getAllUserIds`, `getStats` and the pending-request listings are not modelled; they only read data for messages.
- Concurrency is not modelled: each handler is one sequential step, so check-then-act races between requests are not captured.
- Numbers are unbounded integers. Fractions, `NaN` beyond "no number", and floating-point precision of `Number()`/`parseInt` on long digit runs are not modelled.
- Db.Store.AddUserBalance: 64-bit BIGINT overflow is not modelled. Only `Db.BigIntInput` carries the range, for the premium finding.
- Db.Store.Valid: the foreign keys from states and requests to `users` are not modelled; no modelled operation deletes users.
- Flow.Decode: a stored row whose payload lacks the fields its state needs is treated like an unknown state (cleared, unhandled). The source would throw there. No handler writes such a row (`Flow.DecodeEncode`).
- Engine.DropRun: it uses the corrected premium arithmetic; the as-written string concatenation is covered only in Findings.
- Engine.RewardOne, Engine.RewardLeaders, Engine.RewardAndRecord, Engine.RunDrop: they extend premium with the corrected `Rules.ExtendPremium`. The code concatenates a still-active BIGINT expiry (index.js:1207-1213), so there the update throws; only `Rules.ExtendPremiumAsWritten` and the Findings cover that.
- Engine.CommitWithdrawal: it uses the corrected `Flow.Commit`, so it does not promise the `catch` of index.js:586-592, which also credits back a failed debit or a request already recorded. `Flow.CommitAsWritten` models that code.
- Engine.CommitUcOrder: the same, for the `catch` of index.js:663-669.
- Engine.ApplyAction: it commits through `Engine.CommitWithdrawal` and `Engine.CommitUcOrder`, so it inherits the corrected compensation.
- Engine.HandleStateMessage: the same, through `Engine.ApplyAction`.
- JsText.NumberOf: only optionally signed decimal integer numerals are numbers. `Number()` also accepts exponents (`"1e3"`), hexadecimal, binary and octal prefixes (`"0x10"`, `"0b1"`, `"0o7"`), `"Infinity"` and decimals (`"1.0"`); the model reads those as no number. The settings and amounts the program writes are all decimal integers.
- Engine.HandlePremiumPurchase: the same; the as-written concatenation is the subject of the third finding.
- CompanionBot.Set: the cast of the configured channel id to the BIGINT column is modelled as `Number` on integer numerals.
- CompanionBot.HandleMessage: `copyMessage` is the reply value `CopyOf(row)`. Send failures and the error reply of the `catch` are not modelled.
- The `/start` reply of the companion bot and the `edited_channel_post` route are not modelled separately. The latter runs `HandleChannelPost` unchanged.
- `setCooldown`, `mine`, timers and the DOM in public/app.js are not modelled (UI and asynchrony).

## Findings

| source | as written | input that shows it | evidently intended | confidence | as-written member | corrected member |
|---|---|---|---|---|---|---|
| index.js:563-592 (and 643-670) | the `catch` credits the amount back whenever anything in the `try` block throws, including the notifications sent after the request was created | a withdrawal of 100 FX whose admin notification fails: the request stays pending and the 100 FX are back; an admin then denies it and credits 100 FX again | compensate only when no request record was created | not executed; high | Flow.NotifyFailureThenDenyDoubleCredits | Flow.CommitConserves |
| index.js:564-586 (and 644-664) | the compensating credit also runs when the debit itself throws | `addUserBalance(user, -100)` fails: the catch adds 100 FX that were never taken | credit back only a debit that happened | not executed; medium | Flow.FailedDebitStillCredited | Flow.CommitConserves |
| index.js:408-412 (and 1207-1213) | node-postgres returns BIGINT columns as strings, so `premium_until + days * 86400000` concatenates when premium is still active | `premium_until = "1767225600000"`, `now` earlier, `days = 30`: the new value is the 23-digit string `"17672256000002592000000"`, outside BIGINT, so the update throws after the cost was debited | numeric addition of the remaining time and the grant | not executed; high | Rules.ConcatenatedExpiryRejected | Rules.CorrectedExpiryStored |
