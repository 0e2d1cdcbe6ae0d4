# SevenK lottery and wallet core in Dafny

SevenK is a Myanmar 2D/3D lottery backend with a wallet. Users hold a kyat balance and place bets
on draws. A logged-in user submits a draw's winning number (the result route checks only
authentication, and the handler takes the draw id from the request body, not from the URL), which
settles every pending bet and schedules the next draw. Balances move through direct deposits and
withdrawals, through deposits initiated with a payment provider and confirmed by its callback, and
through withdrawal review (approve, or reject with a refund). Around this sit role-based access guards, request validators,
and small helpers:
- phone and OTP formats;
- language and Myanmar numerals;
- device classification;
- the in-memory store of admin notifications.

This project models that core as pure Dafny functions and methods over an immutable store and
proves what each handler promises.

- **Store** (`store.dfy`, `accounts.dfy`). The database is modelled as maps from keys to accounts,
  draws, bets and ledger records, plus the next free key of each auto-increment table.
  - Money is an integer number of minor units: the balance column is `DECIMAL(10,2)`, so one kyat
    is 100.
  - Each handler is one atomic step returning `Ok(new store)` or `Err(reason)`. An `Err` means the
    database transaction was rolled back, so the caller keeps the old store.
  - `Valid` is the store invariant. Every handler that can commit has a lemma showing it keeps
    `Valid`.
- **Bets and settlement** (`lottery_rules.dfy`, `betting.dfy`, `settlement.dfy`, `draw_schedule.dfy`).
  - Bet admission.
  - The route validators.
  - Multiplier updates.
  - `processResult`: a loop over the draw's pending bets, proved equal to a reference definition
    (`SettleSpec`) written as map comprehensions.
  - Next-draw scheduling, over a local calendar: a day number plus milliseconds since midnight.
- **Wallet** (`ledger.dfy`, `wallet.dfy`, `wallet_rules.dfy`, `withdrawals.dfy`, `payments.dfy`).
  Every ledger record has an effect on its owner's balance:
  - a completed deposit adds its amount;
  - a withdrawal holds its amount while pending, approved or completed, and releases it once
    rejected or failed.

  A transition *keeps the books* (`Ledger.KeepsBooks`) when every balance moves by exactly what the
  records' effects move. That one predicate states conservation for deposits, withdrawals, reviews
  and payment callbacks.
- **Access control** (`roles.dfy`, `rbac.dfy`). The permission and hierarchy tables, and the three
  guards `hasRole`, `hasPermission` and `combinePermissions`.
- **Helpers.**
  - `text.dfy`: ASCII text primitives.
  - `decimal.dfy`: decimal rendering and its inverse.
  - `otp.dfy`, `register_phone.dfy`, `language.dfy`, `device.dfy`, `admin_notifications.dfy`.

The model follows the code where the code is surprising:

- **`processResult` inner join.** It loads the draw with a filtered include of its pending bets.
  That is an inner join, so a draw with no pending bets, or one already settled, is "not found" and
  the whole settlement rolls back.
- **Winner credit.** The winner's credit is a raw `UPDATE` of a `wallet_balance` column, while the
  users table's column is `walletBalance`. As written, every settlement with a winning bet therefore
  rolls back (see "## Findings"). The rest of the model uses the corrected settlement. In it the
  credit is still a raw `UPDATE`, so a winning bet whose owner row is missing is marked won and
  credits nobody.
- **`placeBet` on a missing user.** It answers "Insufficient balance" (400), not 404.
- **3D schedule.** `getNext3DDrawTime` lands on Wednesday only. Its "Sunday" branch needs a
  negative weekday, so it is unreachable.
- **Payment callback.** `handlePaymentCallback` does not look at a record's kind.
  `Payments.SettleWithdrawalCredits` shows the consequence: a "completed" callback for a pending
  withdrawal credits its owner.

## Model

| member | source | states |
|---|---|---|
| Accounts.NewAccount | backend/src/models/user.model.ts:49-96 | A new row has balance 0, status active and no failed logins. It meets the row constraints exactly when its phone matches `+?959` followed by 7 to 9 digits and its e-mail, if present, has the shape `local@domain.tld` |
| Accounts.NewAccountChecksEmail | backend/src/models/user.model.ts:61-68 | With a well-formed phone, the e-mail "x" makes the row invalid and "a@b.mm" keeps it valid |
| Accounts.InsertKeepsUnique | backend/src/models/user.model.ts:53-68 | Inserting a row keeps the unique phone and e-mail indexes exactly when its phone and its present e-mail are unused; absent e-mails may repeat |
| Accounts.SetBalanceKeepsValid | backend/src/models/user.model.ts:73-80 | Setting a balance to any value of at least 0 keeps every row constraint and both unique indexes |
| LotteryRules.DefaultsWithinRange | backend/src/middleware/validators/lottery.validator.ts:122-133 | Each game's default multiplier (85 for 2D, 500 for 3D) lies within that game's own range, and the range sits inside what `validateMultiplier` accepts for the game |
| LotteryRules.WholeMultiplierBounds | backend/src/middleware/validators/lottery.validator.ts:92-107 | A whole multiplier passes iff it is at least 2 and at most 100 when the body says 2D, or at most 1000 otherwise, including when the type is absent |
| LotteryRules.CreationAcceptsMultiplierOne | backend/src/middleware/validators/lottery.validator.ts:56-78 | For every creation body, a given multiplier passes exactly when it is at least 1 (10 tenths) and the rest of the body passes; so 1 itself is accepted, despite the "greater than 1" message |
| Betting.PlaceBet | backend/src/controllers/lottery.controller.ts:85-161 | Admitted iff the draw is upcoming or ongoing, minBet <= amount <= maxBet, the number has 2 digits (2D) or 3 (otherwise), and the user's balance covers the amount. Each failure gives its own error and changes nothing. Success adds exactly one pending bet paying amount × multiplier, debits exactly the amount, and reports old − amount |
| Betting.PlaceBetConservesMoney | backend/src/controllers/lottery.controller.ts:121-149 | A successful bet lowers the total of all balances by exactly the stake; a rejected one leaves it unchanged |
| Betting.PlaceBetKeepsValid | backend/src/controllers/lottery.controller.ts:121-149 | Admission keeps the store invariant: the bet key is fresh and no balance goes negative |
| Betting.DrawTimeIgnored | backend/src/controllers/lottery.controller.ts:85-99 | Moving a draw's time changes neither whether a bet is admitted nor its outcome |
| Betting.BetRoute | backend/src/middleware/validators/lottery.validator.ts:5-20 | A body failing `validateBet` is refused before the handler runs. Every admitted bet's stake lies in [100, 50000] kyat, whatever the draw's own maximum |
| Betting.UpdateMultiplier | backend/src/controllers/lottery.controller.ts:404-430 | Refuses a multiplier <= 1, a missing draw or a non-upcoming draw. Success changes only that draw's multiplier and leaves every bet untouched |
| Betting.UpdateMultiplierKeepsValid | backend/src/controllers/lottery.controller.ts:404-430 | A multiplier update keeps the store invariant |
| Betting.PayoutFrozenAtAdmission | backend/src/controllers/lottery.controller.ts:130-141 | A bet keeps the payout computed at admission when the draw's multiplier is changed afterwards |
| Settlement.PendingOf | backend/src/services/lottery-result.service.ts:19-26 | The bets settlement visits are exactly the pending bets of that draw |
| Settlement.ProcessResult | backend/src/services/lottery-result.service.ts:14-78 | The intended settlement, with the credit updating the balance column the users table has (corrected half of a finding). The bet-by-bet loop commits the reference settlement. The draw is completed with the winning number. Each pending bet whose number equals it exactly is won and credits its owner its payout; each other pending bet is lost. Nothing else changes. The balance total grows by exactly the sum of winning payouts. A missing draw or one without pending bets rolls back |
| Settlement.SettledDrawHasNoPending | backend/src/services/lottery-result.service.ts:39-61 | After settlement no bet of the draw is pending |
| Settlement.SettleTwiceRefused | backend/src/services/lottery-result.service.ts:19-30 | Settling the same draw a second time, with any number, is refused and pays nothing more |
| Settlement.NoWinningBetNoPayout | backend/src/services/lottery-result.service.ts:55-60 | An account with no matching pending bet on the draw is credited nothing |
| Settlement.SingleWinnerPayout | backend/src/services/lottery-result.service.ts:41-54 | In the intended settlement (corrected half of a finding), an account whose only matching pending bet is `k` is credited exactly that bet's payout |
| Settlement.PayoutNonNegative | backend/src/services/lottery-result.service.ts:48-54 | In a valid store no account's settlement credit is negative |
| Settlement.SettleKeepsValid | backend/src/services/lottery-result.service.ts:32-61 | Settlement keeps the store invariant |
| Settlement.DefaultDraw | backend/src/services/lottery-result.service.ts:92-99 | A scheduled draw is upcoming with limits (100, 50000) kyat and multiplier 85 for 2D, (500, 100000) and 500 for 3D, so minBet <= maxBet and the multiplier is the game's default |
| Settlement.ScheduleNextDraw | backend/src/services/lottery-result.service.ts:80-99 | Adds exactly one draw, under the next draw key, with the game's defaults and a time from the game's timetable; nothing else changes |
| Settlement.SubmitLotteryResult | backend/src/controllers/lottery.controller.ts:342-393 | Over the intended settlement: settles first. A failed settlement is answered with 500 and schedules nothing. A successful one is followed by exactly one new upcoming draw of the same game at its next timetable slot |
| Settlement.WinnerlessSettlementCreditsNothing | backend/src/services/lottery-result.service.ts:40-61 | A settlement in which no pending bet carries the winning number leaves every account as it was |
| Settlement.ProcessResultAsWritten | backend/src/services/lottery-result.service.ts:14-78 | As written (as-written half of a finding): a missing draw or one without pending bets is "not found". A draw with a winning pending bet fails on the balance update and rolls back. Otherwise it commits the reference settlement. It never changes a balance when it commits |
| Settlement.SubmitLotteryResultAsWritten | backend/src/controllers/lottery.controller.ts:342-393 | Over the settlement as written, a draw with a winning bet is answered with 500 and schedules nothing. It succeeds exactly when the draw has pending bets and none wins, and then no balance changes and one draw is scheduled |
| Settlement.OneWinnerRollsBackAsWritten | backend/src/services/lottery-result.service.ts:41-54 | On a store with one pending bet on "42" paying 8500, the intended settlement credits its owner 8500, but the draw has a winner, so the settlement as written rolls back |
| Settlement.SubmitKeepsValid | backend/src/controllers/lottery.controller.ts:347-353 | Settling and then scheduling keeps the store invariant |
| DrawSchedule.NextTwoDDrawTime | backend/src/services/lottery-result.service.ts:108-132 | The result is a 2D slot (12:00 or 16:30) strictly after now and at most one day later, and no 2D slot lies strictly between now and it |
| DrawSchedule.NextThreeDDrawTime | backend/src/services/lottery-result.service.ts:134-152 | The result is a Wednesday at 16:30, 1 to 7 days ahead (a Wednesday goes to the next week), with no 3D slot on a later day before it |
| DrawSchedule.WednesdayGap | backend/src/services/lottery-result.service.ts:138-146 | No Wednesday falls after the current day and before the day the 3D scheduler picks |
| WalletRules.StoredPhoneIsSenderPhone | backend/src/middleware/validators/wallet.validator.ts:27-30 | Every phone the account table accepts also passes the sender phone pattern `^[0-9+]{9,15}$` |
| WalletRules.SumDailyDeposits | backend/src/middleware/validators/wallet.validator.ts:95-107 | The record-by-record sum equals the user's completed deposits created since local midnight |
| WalletRules.CheckTransactionLimits | backend/src/middleware/validators/wallet.validator.ts:81-116 | Refuses an amount above 100000 kyat first, then a daily total plus amount above 1000000; passes iff both hold, and equality passes |
| WalletRules.PassedDepositStaysWithinDailyLimit | backend/src/middleware/validators/wallet.validator.ts:98-114 | A deposit that passed the check and is then recorded as completed keeps the user's daily total within the daily cap |
| WalletRules.DailyTotalIgnoresOthers | backend/src/middleware/validators/wallet.validator.ts:98-107 | Other users' records, non-deposits, non-completed records and records from earlier days do not change the daily total |
| Wallet.DepositAsWritten | backend/src/controllers/wallet.controller.ts:69-116 | As written, a missing user is 404 with no change. A failed balance update answers 500 yet leaves a completed deposit record behind |
| Wallet.WithdrawAsWritten | backend/src/controllers/wallet.controller.ts:118-170 | As written, a missing user is 404, and a balance below the amount is refused with no change. A failed balance update answers 500 yet leaves a completed withdrawal record behind |
| Wallet.DepositAsWrittenBreaksBooks | backend/src/controllers/wallet.controller.ts:82-98 | As written, a deposit whose balance update fails leaves the ledger and the balance out of step |
| Wallet.WithdrawAsWrittenBreaksBooks | backend/src/controllers/wallet.controller.ts:136-152 | As written, a withdrawal whose balance update fails leaves the ledger and the balance out of step |
| Wallet.AsWrittenAgreesWithoutFault | backend/src/controllers/wallet.controller.ts:82-98 | When the balance update does not fail, the handlers as written commit exactly what the corrected ones commit |
| Wallet.Deposit | backend/src/controllers/wallet.controller.ts:69-116 | A missing user is 404; any failure changes nothing. Success adds exactly one completed deposit record, raises the balance by the amount, and reports old + amount |
| Wallet.Withdraw | backend/src/controllers/wallet.controller.ts:118-170 | A missing user is 404, and balance < amount is refused (equality is accepted); any failure changes nothing. Success adds one completed withdrawal record, lowers the balance by exactly the amount (staying >= 0), and reports old − amount |
| Wallet.DepositKeepsBooks | backend/src/controllers/wallet.controller.ts:75-98 | The corrected deposit keeps the books whatever write fails |
| Wallet.WithdrawKeepsBooks | backend/src/controllers/wallet.controller.ts:124-152 | The corrected withdrawal keeps the books whatever write fails |
| Wallet.DepositKeepsValid | backend/src/controllers/wallet.controller.ts:75-98 | A deposit of a validated amount keeps the store invariant |
| Wallet.WithdrawKeepsValid | backend/src/controllers/wallet.controller.ts:124-152 | A withdrawal of a validated amount keeps the store invariant; no balance goes negative |
| Wallet.InitiateDeposit | backend/src/controllers/wallet.controller.ts:172-231 | An unknown provider is refused before the gateway is called, and a gateway failure writes nothing. A gateway success writes one pending deposit whose reference is the gateway's transaction id, and changes no balance |
| Wallet.InitiateDepositKeepsBooks | backend/src/controllers/wallet.controller.ts:196-206 | Initiating a deposit keeps the books and leaves every account unchanged |
| Wallet.InitiateDepositKeepsValid | backend/src/controllers/wallet.controller.ts:196-206 | Initiating a validated deposit (amount at least 1) keeps the store invariant; the pending record goes under a fresh key |
| Wallet.ValidatedProviderIsAccepted | backend/src/middleware/validators/wallet.validator.ts:15-18 | Every provider the request validator accepts is accepted by deposit initiation, since both use the same five providers |
| Withdrawals.Approve | backend/src/controllers/withdrawal.controller.ts:52-97 | Succeeds iff the key holds a pending withdrawal, else "not found or already processed" with no change. Success sets status approved and approvedBy, and changes nothing else, no balance included |
| Withdrawals.Reject | backend/src/controllers/withdrawal.controller.ts:100-150 | Uses the same lookup. A missing owner is 404 and the request stays pending. Success sets status rejected with the reason and refunds the amount to the owner; nothing else changes |
| Withdrawals.ApproveKeepsBooks | backend/src/controllers/withdrawal.controller.ts:77-81 | Approval keeps the books |
| Withdrawals.RejectKeepsBooks | backend/src/controllers/withdrawal.controller.ts:136-147 | Rejection keeps the books: the refund equals the released hold |
| Withdrawals.RejectRefundsOnce | backend/src/controllers/withdrawal.controller.ts:143-147 | A rejection raises the balance total by exactly the withdrawal amount |
| Withdrawals.ReviewedAtMostOnce | backend/src/controllers/withdrawal.controller.ts:59-74 | After an approval or a rejection, any further approval or rejection of that request is refused, so it is refunded at most once |
| Withdrawals.ReviewKeepsValid | backend/src/controllers/withdrawal.controller.ts:52-150 | Review keeps the store invariant |
| Withdrawals.OrDefault | backend/src/controllers/withdrawal.controller.ts:14-15 | `parseInt(x) \|\| d` gives the fallback iff the value is unparsable, zero or the fallback itself, and is never zero when the fallback is not |
| Withdrawals.CeilDiv | backend/src/controllers/withdrawal.controller.ts:39 | For a positive limit the page count is the least q with count <= q × limit (the mirrored bounds for a negative limit) |
| Withdrawals.Paginate | backend/src/controllers/withdrawal.controller.ts:14-39 | Page and limit default to 1 and 10, the limit is never 0, offset is (page − 1) × limit, and the page count is the ceiling of count / limit |
| Withdrawals.PagesCoverResults | backend/src/controllers/withdrawal.controller.ts:14-39 | With a positive limit, a page >= 1 starts inside the results iff it is at most the page count |
| Payments.FindByReference | backend/src/controllers/payment.controller.ts:16-19 | Finds no record iff none carries the reference; otherwise the smallest key that does |
| Payments.Settle | backend/src/controllers/payment.controller.ts:29-71 | A record that is not pending is refused as already processed. "completed" marks it completed and credits its amount to its owner; a missing owner rolls back with 404. Any other status marks it failed with no balance change. Nothing else changes |
| Payments.HandlePaymentCallback | backend/src/controllers/payment.controller.ts:10-81 | An unknown reference is 404 with no change; otherwise the found record is settled |
| Payments.CallbackAtMostOnce | backend/src/controllers/payment.controller.ts:29-35 | After one successful callback any further callback for the record is refused, so it is credited at most once |
| Payments.SettleDepositKeepsBooks | backend/src/controllers/payment.controller.ts:37-70 | Settling a pending deposit keeps the books: the credit is exactly what the completed record adds |
| Payments.SettleWithdrawalCredits | backend/src/controllers/payment.controller.ts:37-56 | Since the kind is not checked, a "completed" callback on a pending withdrawal credits its owner the amount and breaks the books |
| Payments.SettleKeepsValid | backend/src/controllers/payment.controller.ts:37-70 | A callback keeps the store invariant |
| Roles.HierarchyDescends | backend/src/types/roles.ts:46-52 | Every inherited role ranks strictly lower, so the hierarchy is irreflexive and acyclic |
| Roles.HierarchyClosed | backend/src/types/roles.ts:46-52 | The hierarchy is transitively closed |
| Roles.OnlySharedPermission | backend/src/types/roles.ts:7-44 | The only permission two different roles both list is view_transactions, held by moderator and finance |
| Rbac.HasRole | backend/src/middleware/rbac.middleware.ts:7-29 | No role gives 401. Otherwise it passes iff the role is the required one, inherits it, or is super_admin, and gives 403 otherwise; a pass never admits a lower-ranked role |
| Rbac.HasPermission | backend/src/middleware/rbac.middleware.ts:31-57 | No role gives 401. Otherwise it passes iff the role or a role it inherits lists the permission, or it is super_admin, and gives 403 otherwise |
| Rbac.CombinePermissions | backend/src/middleware/rbac.middleware.ts:59-87 | No role gives 401. Otherwise it passes iff `hasPermission` would pass for every listed permission, so an empty list passes |
| Rbac.SuperAdminPassesAll | backend/src/middleware/rbac.middleware.ts:18-20 | super_admin passes all three guards whatever they ask |
| Rbac.InheritanceMonotone | backend/src/middleware/rbac.middleware.ts:43-48 | A role holds every permission of each role it inherits |
| Rbac.RoleImpliesPermissions | backend/src/middleware/rbac.middleware.ts:18-48 | Passing `hasRole(q)` implies passing `hasPermission(p)` for each permission `q` holds |
| Rbac.AssignRoleAsWritten | backend/src/controllers/admin.controller.ts:174-180 | As written, the only refused assignment is `admin` by someone other than super_admin |
| Rbac.AdminCanAssignSuperAdmin | backend/src/controllers/admin.controller.ts:174-180 | As written, an admin's request to assign super_admin, a role that outranks the admin, passes the check, although the comment says it should be refused |
| Rbac.AssignRoleNeverEscalates | backend/src/controllers/admin.controller.ts:174 | Under the corrected check, no one but super_admin can hand out a role ranked at admin or above, or one holding a permission the admin lacks |
| Language.HeaderDecides | backend/src/services/language.service.ts:78-82 | A non-empty accept-language header alone decides, and only the exact value "en" gives English |
| Language.DefaultIsBurmese | backend/src/services/language.service.ts:76-82 | With no header or query value the language is Burmese, and "en-US" is Burmese |
| Language.Translate | backend/src/services/language.service.ts:84-90 | An unknown key comes back unchanged; a known key gives its text in the language, falling back to Burmese when that text is empty |
| Language.CatalogueComplete | backend/src/services/language.service.ts:15-73 | Every catalogue key has a non-empty Burmese and English text |
| Language.ToMyanmarNumerals | backend/src/services/language.service.ts:95-98 | The text keeps its length; each ASCII digit d becomes the d-th Myanmar numeral and every other character is kept |
| Language.NumeralsRoundTrip | backend/src/services/language.service.ts:92-99 | Mapping ASCII digits to Myanmar numerals is undone by the inverse map on any text with no numerals of its own |
| Language.FormatNumber | backend/src/services/language.service.ts:92-101 | For Burmese every character is a Myanmar numeral or the minus sign, and mapping the numerals back gives exactly the integer's decimal form, sign included |
| Language.FormatCurrency | backend/src/services/language.service.ts:103-106 | The formatted number followed by the language's currency word |
| Language.CurrencyReadBack | backend/src/services/language.service.ts:92-106 | A Burmese amount reads back to the amount: strip the currency word, map the numerals back, read the digits |
| Otp.StoredPhoneValidates | backend/src/utils/otp.util.ts:14-18 | Every phone the account table accepts passes `validatePhoneNumber` |
| Otp.LocalFormIsNotStored | backend/src/utils/otp.util.ts:14-18 | A local "09" number passes `validatePhoneNumber` but is not a phone the account table accepts |
| Otp.GenerateOTP | backend/src/utils/otp.util.ts:3-7 | The code is six digits without a leading zero, and denotes 100000 + draw, whatever the phone |
| Otp.GenerateOTPCovers | backend/src/utils/otp.util.ts:3-7 | Every six-digit code without a leading zero comes from exactly one draw |
| Otp.VerifyOTP | backend/src/utils/otp.util.ts:9-12 | Verification accepts every phone and code |
| RegisterPhone.GroupShape | create-react-app/src/components/Register.tsx:38-45 | The output is digits and hyphens only: no hyphen for up to 4 digits, one after the 4th for 5 to 7, and hyphens after the 4th and 7th beyond that |
| RegisterPhone.FormatAsWrittenKeepsTen | create-react-app/src/components/Register.tsx:33-46 | As written, removing hyphens gives the first min(n, 10) digits of the input, and formatting is idempotent |
| RegisterPhone.FormattedNeverValidates | create-react-app/src/components/Register.tsx:33-52 | As written, no formatted number passes `validateMyanmarPhone` |
| RegisterPhone.FormatKeepsValid | create-react-app/src/components/Register.tsx:33-52 | With eleven digits kept, formatting is idempotent, keeps the first eleven digits, and a valid number stays valid |
| Device.ConfigTable | backend/src/services/device.service.ts:16-38 | Batch sizes are 10, 15 and 20; image size and quality grow from mobile to tablet to desktop; every device takes WebP and JPEG |
| Device.DetectDevice | backend/src/services/device.service.ts:40-53 | Tablet iff the lower-cased agent has a mobile keyword and also "ipad" or "tablet"; mobile iff only a mobile keyword; desktop iff no mobile keyword |
| Device.TabletWordAloneIsDesktop | backend/src/services/device.service.ts:44-52 | "tablet" without a mobile keyword is classified as desktop |
| Device.DetectIgnoresCase | backend/src/services/device.service.ts:41-46 | Letter case in the agent does not change the classification |
| Device.GetDeviceConfig | backend/src/services/device.service.ts:55-58 | The configuration returned is the detected device's |
| Device.GetImageSize | backend/src/services/device.service.ts:60-69 | Small iff size <= max/2, medium iff max/2 < size <= max, large iff size > max |
| Device.ImageSizeMonotone | backend/src/services/device.service.ts:60-69 | A larger image never falls in a smaller band |
| Device.AdjustResponse | backend/src/services/device.service.ts:89-103 | A list keeps its first min(len, batch size) items in order; a value that is neither list nor object is unchanged |
| Device.AdjustIdempotent | backend/src/services/device.service.ts:93-94 | Adjusting twice is adjusting once, and a short list passes unchanged |
| Device.GetOptimalImageFormat | backend/src/services/device.service.ts:75-87 | WebP iff the Accept header contains "image/webp", JPEG otherwise |
| Device.IsImageUrl | backend/src/services/device.service.ts:119-121 | True iff the lower-cased URL ends in .jpg, .jpeg, .png, .webp or .gif |
| Device.ImageUrlNeedsExactEnding | backend/src/services/device.service.ts:119-121 | "a.PNG" is an image URL but "a.png?w=1" is not |
| AdminNotifications.Create | backend/src/services/admin-notification.service.ts:72-88 | The entry under the id is the new unread notification. An entry with the same id is replaced in place; otherwise, beyond 100 entries, the first is evicted. No other entry is lost, ids stay distinct and the store stays within 100 |
| AdminNotifications.ClassifyTable | backend/src/services/admin-notification.service.ts:25-70 | Withdrawal, support and system events are high priority, deposit and user events medium, none low, and each event kind has its own notification type |
| AdminNotifications.Notify | backend/src/services/admin-notification.service.ts:25-70 | Handling an event stores one unread notification with the event's type, priority and message |
| AdminNotifications.MarkAsRead | backend/src/services/admin-notification.service.ts:121-136 | Only the entry with the id becomes read; an unknown id changes nothing |
| AdminNotifications.MarkAsReadIdempotent | backend/src/services/admin-notification.service.ts:121-136 | Marking twice is marking once |
| AdminNotifications.UnreadCount | backend/src/services/admin-notification.service.ts:138-140 | The count equals the number of positions holding an unread entry. It is 0 iff every entry is read, and it never exceeds the store size |
| AdminNotifications.UnreadPositions | backend/src/services/admin-notification.service.ts:138-140 | The unread list has one element per position holding an unread entry |
| AdminNotifications.MarkAsReadCount | backend/src/services/admin-notification.service.ts:121-140 | Marking an unread entry lowers the count by exactly one; anything else leaves it |
| AdminNotifications.CreateCount | backend/src/services/admin-notification.service.ts:72-88 | A creation adds one unread entry and loses the weight of the entry it replaces or evicts |
| AdminNotifications.CreateKeepsChronology | backend/src/services/admin-notification.service.ts:72-88 | While the clock does not run backwards, the store stays in creation order |
| AdminNotifications.OverflowEvictsOldest | backend/src/services/admin-notification.service.ts:83-87 | In a store kept in creation order, the evicted entry is older than every remaining one |
| AdminNotifications.SortNewestFirst | backend/src/services/admin-notification.service.ts:113 | The sort is a permutation ordered newest first |
| AdminNotifications.UnreadNewestFirst | backend/src/services/admin-notification.service.ts:110-113 | The list sent on connection holds exactly the unread entries, each once, newest first, as many as the unread count |

## Left out

- **Concurrency and isolation.** Each handler is one atomic step; interleaved requests and row
  locking are not modelled.
- **Decimal arithmetic.** Floating point and `DECIMAL` columns become integer minor units. The
  `DECIMAL(10,2)` column width is not enforced. Multipliers are integers in the store and tenths in
  the multiplier validator.
- **Time and randomness.** Clock reads, uuids and the random OTP draw are parameters. `approvedAt`
  and record timestamps are not stored except where a rule reads them. Time-zone and daylight-saving
  behaviour of `Date` is not modelled: days are local calendar days.
- **External services.** Payment gateways, WebSocket broadcasts, logging and winner notifications
  lie outside the model. The gateway's answer is a parameter.
- **Request parsing.** Numbers arrive as whole numbers; `parseInt` of arbitrary text is reduced to
  "a number or nothing". Bodies whose fields have the wrong JSON type are treated as missing fields.
  Role strings outside the five known roles are not modelled.
- **Text.** Only ASCII is lower-cased, upper-cased and trimmed; Unicode case mapping and the full
  whitespace class are not modelled.
- **Unmodelled operations:**
  - `getTransactions`, `generateReceipt` and `getTransactionHistory` in the wallet controller
    (listing and formatting only);
  - `validateDrawResult` and `validatePaymentCallback`;
  - `getOptimizedImageUrl`, with the object branch of `adjustResponseForDevice` that rewrites
    image URLs;
  - `formatDate`.
- **Language.FormatNumber:** the English branch uses `toLocaleString`, which is a caller-supplied
  parameter here. Only the Burmese branch is specified.
- **Betting.PlaceBet:** the response's `newBalance` is passed through `formatCurrency` in the source.
  The model reports the number before formatting.
- **Wallet.Deposit:** the reported `newBalance` is `walletBalance + amount`. When the driver returns
  the `DECIMAL` column as text, that is a string concatenation; the model reports the sum.
- **WalletRules.CheckTransactionLimits:** no route in the core runs it before a deposit, so it is
  modelled as a stand-alone check. The daily total covers completed deposits from local midnight
  onward.
- **Payments.FindByReference:** references are not declared unique. When several records share one,
  the lookup is taken to return the smallest key; the database's actual row order is not modelled.
- **AdminNotifications.SortNewestFirst:** ordering and permutation are stated; stability (ties
  keeping store order) is not.
- **AdminNotifications.Create:** the id (the millisecond clock reading) and the timestamp are
  separate parameters, and the free-form `details` payload is not kept.
- **Device.AdjustResponse:** object bodies go through URL rewriting, which is not modelled, so only
  lists and plain values are covered.
- **Accounts.NewAccount:** the e-mail column's `isEmail` validator is approximated by a shape
  check: a non-empty local part, one `@`, and a domain containing an inner dot. Its full grammar
  (allowed characters, label and length limits, quoted local parts) is not modelled.
- **Rbac.AssignRoleAsWritten:** only the check's verdict is modelled. The account model declares no
  `role` attribute, and Sequelize's `update` drops keys that are not attributes, so the update after
  the check persists no role.
- **Withdrawals.Paginate:** a negative page or limit gives a negative `LIMIT` or `OFFSET`, which the
  database refuses, so the listing answers 500. The page arithmetic (and `Withdrawals.CeilDiv` for a
  negative limit) describes a response that is then never sent.
- **Settlement.SubmitLotteryResult:** failures after `processResult` has committed are not
  modelled. If re-reading the draw, `scheduleNextDraw`'s insert or the winners query throws, the
  client gets 500 while the settlement stays committed; the model treats these steps as succeeding.
- **Route guards:** the result route is guarded by authentication only, while the multiplier route
  adds the admin check. The admin middleware is not part of this model, so route guards other than
  the validators are not modelled.
- **Withdrawal requests:** no operation in the core creates a pending withdrawal. The ledger's
  treatment of pending withdrawals as holding their amount is the assumption under which approval
  and rejection keep the books.

## Findings

| source | as written | input that shows it | evidently intended | confidence | as-written member | corrected member |
|---|---|---|---|---|---|---|
| create-react-app/src/components/Register.tsx:42-45 | `formatMyanmarPhone` keeps at most 10 digits, while `validateMyanmarPhone` demands "09" plus nine digits, 11 in all | typing 09123456789 gives "0912-345-678", whose 10 digits never validate, so the form never sends an OTP | keep the 11 digits of a Myanmar mobile number | not executed | RegisterPhone.FormattedNeverValidates | RegisterPhone.FormatKeepsValid |
| backend/src/controllers/wallet.controller.ts:82-98 | the deposit record is created without the transaction `t` | a deposit of 50 whose balance increment fails: the client gets 500, the balance is unchanged, and a completed deposit of 50 remains | create the record inside `t` so the rollback removes it | not executed | Wallet.DepositAsWrittenBreaksBooks | Wallet.DepositKeepsBooks |
| backend/src/controllers/wallet.controller.ts:136-152 | the withdrawal record is created without the transaction `t` | a withdrawal of 50 from a balance of 100 whose decrement fails: the client gets 500, the balance stays 100, and a completed withdrawal of 50 remains | create the record inside `t` so the rollback removes it | not executed | Wallet.WithdrawAsWrittenBreaksBooks | Wallet.WithdrawKeepsBooks |
| backend/src/services/lottery-result.service.ts:48-54 | the winner's credit updates a `wallet_balance` column, but the users table is synchronised from the account model, whose column is `walletBalance` | one pending bet on "42" paying 8500 and the result "42": the update fails, the settlement rolls back and the submission answers 500 with nothing scheduled; only draws without a winner ever settle | update `walletBalance`, crediting the owner the payout | not executed | Settlement.ProcessResultAsWritten | Settlement.ProcessResult |
| backend/src/controllers/admin.controller.ts:174-180 | only assigning `admin` is refused to a caller who is not super_admin | an admin asks to assign `super_admin` to an existing user: the check passes and the request is answered 200, although the comment says it should be refused with 403 | as the comment says: super_admin assigns any role, others only moderator | not executed | Rbac.AdminCanAssignSuperAdmin | Rbac.AssignRoleNeverEscalates |
