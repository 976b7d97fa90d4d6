# Verified model of the savings-and-credit back end

A Dafny model of the money state machines of a multi-tenant savings-and-credit back end,
one tenant at a time. Amounts are integer cents, dates are day numbers, an id is a row's
position in its append-only table. Verify the project with `dafny verify dfyconfig.toml`.

| file | models |
|---|---|
| `Options.dfy`, `Runs.dfy` | an absent value, and a run of events through any step function |
| `Schedules.dfy` | loan schedules, the nested replay of repayments and its closed form |
| `Tables.dfy`, `Services.dfy` | the correction tables and every service that writes them, as transactions |
| `Invariant.dfy`, `Preservation.dfy` | the global invariant and its preservation by every service |
| `Adjustments.dfy` | two-phase repayment adjustments: conservation, restoration, commutation |
| `Claims.dfy` | write-once triggers, write-offs, recoveries and sureties over whole runs |
| `Interest.dfy` | interest collected against interest charged |
| `Effects.dfy` | when each correction service goes through and what it leaves, read off the tables alone |
| `LoanDesk.dfy` | the same services as methods of one object that keeps the invariant, and what that gives their callers |
| `RecoveryRace.dfy` | receipts against one claim, interleaved statement by statement |
| `Calendar.dfy`, `Rollups.dfy`, `PeriodBarrier.dfy` | months, period rollups, the posting barrier |
| `MemberAnchors.dfy` | statement openings anchored on closed months |
| `Idempotency.dfy` | one idempotency key and every request that presents it |
| `Batches.dfy`, `Arrears.dfy`, `Populations.dfy` | the keyset batch loop and the jobs on it |
| `Tokens.dfy` | refresh-token families |
| `Roster.dfy` | member-number ordering and cursor paging |
| `LockOrder.dfy` | the lock plans of the correction transactions |

## Where the code falls short of its own description

- Backdated repayments. A repayment may be dated before recorded ones. The forward pass and
  the replay then differ on some inputs (`Adjustments.BackdatedRun`), so adjusting
  such a repayment away need not restore the schedule. `Schedules.BackdatedPayment` and
  `Adjustments.RepaymentSyncs` give the exact condition.
- Interest due. `backend/src/genesis/application/loans.py:254-262` calls the unpaid interest
  of an instalment correct because cash never reaches future rows. It is also wrong across
  two overdue rows: interest is allocated over all of them, but the cash fills the oldest one,
  principal included, and the younger interest falls due again
  (`Interest.InterestCollectedTwice`). `Interest.CollectedOnce` gives the exact condition.
- Statement openings. `backend/src/genesis/application/period_rollups.py:255-262` says the
  delta after an anchor misses nothing. Months may be closed out of order, so an earlier open
  month can receive a posting after a later one is rolled up, and every later opening of that
  member misses it (`MemberAnchors.ClosedOutOfOrder`). `MemberAnchors.PostKeepsExact` gives
  the exact condition.
- Outlived idempotency writers. `backend/src/genesis/api/idempotency.py:31-33` says a stale
  writer never clobbers a successor. It does when the successor has the same request hash and
  is still in flight (`Idempotency.LateReleaseAdmitsASecondHolder`,
  `Idempotency.LateStoreFillsTheSuccessor`). `Idempotency.LateSettle` gives the exact
  condition.
- Logout. `backend/src/genesis/application/auth.py:444-454` revokes a family in one statement
  without the user lock, so a rotation that has written but not committed when the statement
  starts leaves a live successor behind (`Tokens.LogoutMissesTheSuccessor`).
  `Tokens.LogoutEndsFamily` and `Tokens.LogoutRace` give the exact condition.
- Long member numbers. A served number longer than 32 characters is refused as a cursor, so a
  walk past sequence 10 to the 29th stops there; `Roster.WalkRoster` gives the exact
  condition.
- The trigger on `loan_write_offs` pins the snapshot but not the status; the one-way status
  machine is the services' own (`Claims.StepExtends`).

## Model

| member | source | states |
|---|---|---|
| Schedules.ApplyCash | backend/src/genesis/application/corrections.py:571-585 | the inner loop leaves every row as one forward pass does: due rows only, oldest first, capped at the open amount |
| Schedules.RebuildPaid | backend/src/genesis/application/corrections.py:533-585 | the nested replay ends with the rows that resetting and passing each survivor in turn gives |
| Schedules.WaterfallRow | backend/src/genesis/application/corrections.py:571-585 | row i of the closed form is the total less the dues of the earlier rows, clamped to its own due |
| Schedules.OldestFirst | backend/src/genesis/application/corrections.py:571-585 | no row is paid beyond its due, and a paid row means every earlier row is full |
| Schedules.PassAdvances | backend/src/genesis/application/corrections.py:571-585 | one pass over a waterfall of total T is the waterfall of max(T, min(T + cash, due by that date)) |
| Schedules.ReplayIsWaterfall | backend/src/genesis/application/corrections.py:533-585 | the nested loops compute the closed form, for any payments in any order |
| Schedules.OrderedReplayStep | backend/src/genesis/application/corrections.py:533-585 | in date order the running total is T = min(T + cash, total due by that date) |
| Schedules.OrderIndependent | backend/src/genesis/application/corrections.py:549 | any two date-ordered arrangements of the same payments rebuild the same paid rows: the id tie-break is immaterial |
| Schedules.DropLowers | backend/src/genesis/application/corrections.py:533-585 | dropping one surviving payment lowers every paid amount or leaves it equal |
| Schedules.BackdatedPayment | backend/src/genesis/application/loans.py:366-397 | a payment dated before recorded ones: forward pass and replay agree exactly when it fits under the dues of its date or a paid-up schedule would have ended no higher |
| Adjustments.BackdatedRun | backend/src/genesis/application/loans.py:366-397 | a run of one disbursement and two repayments, the second received with an earlier date, after which the paid rows are 50 and 0 where the replay of the same history gives 50 and 30 |
| Interest.InterestCleared | backend/src/genesis/application/loans.py:251-275 | cash never clears more interest than its amount, and clears exactly its amount if and only if it stays within the interest it meets before any principal |
| Interest.AllCleared | backend/src/genesis/application/loans.py:251-275 | no interest is left due if and only if the cash reaches the last open interest |
| Interest.CollectedOnce | backend/src/genesis/application/loans.py:345-397 | interest booked by a repayment comes off the interest due if and only if its cash stays within the leading interest or reaches the last open interest |
| Interest.InterestCollectedTwice | backend/src/genesis/application/loans.py:345-397 | a run over one loan whose two overdue instalments charge 20 of interest: after k repayments of 10, up to eleven, 10k has been booked as interest and at least 10 is still due, so eleven book 110 |
| Interest.RunKeepsSound | backend/src/genesis/application/loans.py:366-397 | on every run each instalment stays paid between nothing and its due |
| Tables.AllocationRoundTrip | backend/src/genesis/application/corrections.py:484-511 | reading a repayment back from its legs gives the allocation that produced them; the posting balances and never debits the receivable |
| Tables.MirrorNegates | backend/src/genesis/domain/ledger.py:692-711 | a reversal swaps debits and credits account by account and in total |
| Tables.MirrorCancels | backend/src/genesis/domain/ledger.py:692-711 | leg by leg a reversal has the same account and amount on the other side, and account by account the sides swap |
| Tables.InterestDueAdds | backend/src/genesis/application/loans.py:251-275 | an instalment adds its unpaid interest to the interest due if and only if it has come due and is not paid in full |
| Tables.NoLateLegs | backend/migrations/versions/0014_ledger_integrity_hardening.py:99-130 | once legs total the transaction amount on both sides, no further legs pass the balance trigger |
| Tables.InsertSplits | backend/src/genesis/application/corrections.py:538-549 | ordering by date places a payment after all earlier and same-day ones and before the later ones |
| Tables.SurvivorsOrdered | backend/src/genesis/application/corrections.py:538-549 | the survivors the replay reads are in date order |
| Services.Allocate | backend/src/genesis/domain/lending.py:230-258 | the parts total the amount; principal is touched only after all penalties and all interest due |
| Services.ReleaseFor | backend/src/genesis/application/guarantees.py:479-528 | exactly the guarantees of the loan end released, all others keep their status |
| Preservation.ApprovalSums | backend/src/genesis/application/corrections.py:597-654 | an approval takes the principal part out of the net receivable and the penalty part out of the collected penalties, of its own loan only |
| Preservation.RepayKeepsLoans | backend/src/genesis/application/loans.py:298-441 | after a repayment every loan row still equals principal less receivable legs and accrued less collected penalties |
| Preservation.PostingKeepsLoans | backend/src/genesis/application/corrections.py:1786-1890 | after a write-off posting every loan row still agrees with the ledger, the written-off one at zero |
| Preservation.StepKeeps | backend/src/genesis/application/corrections.py:948-1132 | every service and every direct receipt insert keeps the global invariant |
| Preservation.EveryRun | backend/src/genesis/application/corrections.py:597-654 | the global invariant holds in every state any sequence of commands reaches from empty tables |
| Adjustments.BalanceReconstructs | backend/src/genesis/application/corrections.py:597-654 | after an approval the loan balance is principal less the signed receivable legs of its history |
| Adjustments.SelfCheckNeverFails | backend/src/genesis/application/corrections.py:1122-1132 | the conservation check inside an approval never fails |
| Adjustments.SelfCheckNeverFailsOnRuns | backend/src/genesis/application/corrections.py:1122-1132 | ... in any state any run reaches |
| Adjustments.ApprovalAdmits | backend/src/genesis/application/corrections.py:968-1046 | an approval succeeds if and only if the row is pending, the checker distinct, entitled and within band, the chain admits it, the snapshot holds and no discharged surety would be bound again |
| Adjustments.RepaymentSyncs | backend/src/genesis/application/loans.py:366-397 | a repayment keeps the schedule equal to a replay of its history if and only if a condition on total, cash and dues known before the call holds |
| Adjustments.InOrderRepaymentSyncs | backend/src/genesis/application/loans.py:366-397 | a repayment dated no earlier than the surviving ones always keeps it |
| Adjustments.CompleteVoids | backend/src/genesis/application/corrections.py:1049-1091 | a request and its approval append one transaction, linked to the original, dated the approval day, with its member and amount, whose legs swap the sides of every account; one negative row; and exactly that repayment no longer survives |
| Adjustments.RepayThenAdjust | backend/src/genesis/application/corrections.py:1093-1120 | repay, request, approve restores balance, penalties and status exactly, and the paid rows exactly when they matched their history before |
| Adjustments.AdjustmentsCommute | backend/src/genesis/application/corrections.py:514-594 | two complete adjustments of one loan: if one order is admitted so is the other, and both give the same loan rows |
| Adjustments.RunKeepsSync | backend/src/genesis/application/corrections.py:514-594 | on every run whose repayments arrive in date order each schedule is at all times the replay of its history |
| Claims.SnapshotIsPinned | backend/migrations/versions/0031_adjustment_maker_checker.py:147-193 | over any chain of updates the trigger allows, every snapshot field stays, filled fields stay, a decided status is final and the checker is not the maker |
| Claims.StepExtends | backend/migrations/versions/0025_corrections_write_off.py:243-262 | no command trips a write-once trigger; postings, repayments, receipts and accruals only grow; write-offs move one way; written-off loans stay |
| Claims.RunExtends | backend/migrations/versions/0025_corrections_write_off.py:243-262 | the same between any two states of any run |
| Claims.DecisionsAreFinal | backend/src/genesis/application/corrections.py:277-295 | a decided adjustment never moves, has a checker other than its maker, and carries a reversal exactly when posted |
| Claims.ReversedOnce | backend/migrations/versions/0031_adjustment_maker_checker.py:138-140 | a repayment is reversed in the ledger exactly when it has a posted adjustment, at most once, with at most one live adjustment |
| Claims.WrittenOffForever | backend/src/genesis/application/corrections.py:784-788 | a written-off loan keeps zero balance and penalties on every continuation |
| Claims.ExecutedClearsReceivable | backend/src/genesis/application/corrections.py:1840-1890 | an executed write-off is the only live one of its loan, the loan is written off and its receivable nets to zero with the posting |
| Claims.WrittenOffHasClaim | backend/src/genesis/application/corrections.py:1855-1890 | every written-off loan has an executed write-off |
| Claims.ClaimIsWhatWasOwed | backend/src/genesis/application/corrections.py:1840-1890 | the claim is principal less receivable legs plus accrued less collected penalties at posting |
| Claims.ExecutedHasQuorum | backend/src/genesis/application/corrections.py:1640-1680 | on every run an executed write-off had an accepted vote at which the recorded approvals met, and the rejections missed, the quorum in force at that vote; no vote is the requester's |
| Claims.ExitsAreSettled | backend/src/genesis/application/member_exits.py:368-410 | on every run an exited member has no outstanding written-off claim |
| Claims.ClaimIsSettledOnce | backend/src/genesis/application/corrections.py:2084-2101 | receipts grow, never pass the claim on any run, and once they reach it every later receipt is refused |
| Claims.SuretiesFollowTheDebt | backend/src/genesis/application/corrections.py:2159-2170 | on service runs a surety is live only behind an active loan or an outstanding claim |
| Claims.BoundMeansOwed | backend/src/genesis/application/corrections.py:2159-2170 | on every service run from empty tables a live surety has an active loan behind it, or a written-off one whose executed claim exceeds its receipts |
| Claims.SubstitutionKeepsCover | backend/src/genesis/application/guarantees.py:808-935 | a substitution releases the old surety, leaves every loan as many live ones as before, and raises the cover of its own loan by exactly the excess over the released amount |
| Claims.ReceiptDischarges | backend/src/genesis/application/corrections.py:2159-2170 | a receipt frees a live surety if and only if it completes the claim of that loan |
| LoanDesk.Desk.RecordRepayment | backend/src/genesis/application/loans.py:298-441 | accepted if and only if positive, on an active loan and within penalties, interest due and balance; one transaction credits penalties, then interest, then principal against cash, the loan falls by those parts and still reconstructs from the ledger; exactly the payoff closes it and leaves no live surety |
| LoanDesk.Desk.ServiceLoan | backend/src/genesis/application/loans.py:345-411 | cash applied to the due rows, figures reduced, and the loan closed with its sureties freed exactly when nothing is left |
| LoanDesk.Desk.LockChain | backend/src/genesis/application/corrections.py:698-799 | the chain refuses exactly an unknown or negative repayment, an exited member or a written-off loan, never a missing parent row; a refusal means no request and no approval of that repayment can succeed, whoever acts |
| LoanDesk.Desk.RequestAdjustment | backend/src/genesis/application/corrections.py:802-945 | admitted exactly when correctable, unclaimed, within band and binding no discharged surety again; the claim holds the legs and figures of that moment and can at once be approved by any entitled checker on any day |
| LoanDesk.Desk.CheckApproval | backend/src/genesis/application/corrections.py:968-1046 | no refusal exactly when the claim is pending, the checker entitled, the chain open and the snapshot unchanged; the pinned allocation and an earlier reversal never stand in the way |
| LoanDesk.Desk.RebuildSchedule | backend/src/genesis/application/corrections.py:514-594 | the paid amounts of one loan become the replay of its survivors; no other row moves |
| LoanDesk.Desk.RestoreLoan | backend/src/genesis/application/corrections.py:1093-1120 | one loan gets its parts added back, its status restored and its schedule replayed |
| LoanDesk.Desk.WriteApproval | backend/src/genesis/application/corrections.py:1049-1132 | the writes, in their order, or all of them rolled back when the balance does not reconstruct |
| LoanDesk.Desk.ApproveAdjustment | backend/src/genesis/application/corrections.py:948-1132 | succeeds exactly on an approvable claim and never refuses on its self-check; it appends one transaction linked to the original, of that day, with its member and amount and every account's sides swapped, one negative row and the decision, and gives the loan its parts back; otherwise nothing changes |
| LoanDesk.Desk.RejectAdjustment | backend/src/genesis/application/corrections.py:1199-1275 | a reasoned rejection of the version read, by a checker other than the maker, decides that claim alone and leaves no live claim on the repayment |
| LoanDesk.Desk.RequestWriteOff | backend/src/genesis/application/corrections.py:1463-1560 | admitted exactly on an active non-performing loan with something owed and no open write-off; the claim is what the ledger says is owed |
| LoanDesk.Desk.CastVote | backend/src/genesis/application/corrections.py:1593-1700 | counted once per voter, never the requester's; it raises its own side's count by one and the other's by none, and decides exactly at the quorum, rejection first |
| LoanDesk.Desk.VoidWriteOff | backend/src/genesis/application/corrections.py:1710-1770 | a void leaves no live write-off of the loan, so another can be requested |
| LoanDesk.Desk.PostWriteOff | backend/src/genesis/application/corrections.py:1786-1890 | posted exactly when approved, by another than the requester and with both figures unchanged; the balance moves from receivable to expense, the loan holds zeros, and the claim is what the ledger said was owed |
| LoanDesk.Desk.RecordReceipt | backend/src/genesis/application/corrections.py:1995-2170 | accepted if and only if positive, on an executed claim of a member who has not left and within what is outstanding; cash against recoveries, one receipt; exactly what is outstanding leaves no live surety of the loan |
| Adjustments.ChainAdmits | backend/src/genesis/application/corrections.py:698-799 | under the invariant the chain refuses exactly what is not correctable, and its refusal shuts both phases |
| Adjustments.RequestAdmits | backend/src/genesis/application/corrections.py:855-945 | a request succeeds if and only if the repayment is correctable and unclaimed, the maker within band and no discharged surety bound again |
| Adjustments.AdjustableAfter | backend/src/genesis/application/corrections.py:855-1046 | adjusting one repayment of a loan neither opens nor shuts the way for another, and shuts it for the same one |
| LoanDesk.RequestIsApprovable | backend/src/genesis/application/corrections.py:968-1046 | a fresh claim is approved by any entitled checker on any day |
| Effects.RepaymentAdmits | backend/src/genesis/domain/lending.py:230-258 | a repayment is accepted if and only if it is positive, the loan active and the amount within penalties, interest due and balance |
| Effects.RepaymentEffect | backend/src/genesis/application/loans.py:298-441 | the legs credit each account with its part of the split, the loan falls by the parts, and it closes, healthy and with its sureties free, exactly when nothing is left |
| Effects.PayoffCloses | backend/src/genesis/application/loans.py:411-441 | exactly the payoff is accepted, closes the loan at zero and leaves no live surety |
| Effects.RequestEffect | backend/src/genesis/application/corrections.py:855-945 | the claim pins the amount, the credited parts of the original legs and the loan figures of that moment, pending and undecided |
| Effects.ApprovalEffect | backend/src/genesis/application/corrections.py:1041-1120 | one transaction linked to the original cancels it account by account, one negative row, the decision, and the loan with the credited principal and penalties back, active, its schedule replayed |
| Effects.PostingEffect | backend/src/genesis/application/corrections.py:1840-1890 | the balance moves from the receivable to the write-off expense and nothing else moves; the loan holds zeros |
| Effects.ReceiptAdmits | backend/src/genesis/application/corrections.py:2084-2101 | a receipt is accepted if and only if it is positive, the claim executed, the member still in and the amount within what is outstanding |
| Effects.ReceiptEffect | backend/src/genesis/application/corrections.py:2103-2170 | cash is debited and recoveries credited by the amount, what is outstanding falls by it, and the sureties are freed exactly at zero |
| Effects.LastReceiptDischarges | backend/src/genesis/application/corrections.py:2159-2170 | exactly what is outstanding is accepted and leaves no live surety of the loan |
| Effects.ExitEffect | backend/src/genesis/application/member_exits.py:1013-1056 | an exit settles and closes exactly the member's active loans and releases every surety behind their loans |
| Effects.FiguresFollowTheLedger | backend/src/genesis/application/corrections.py:597-654 | on every run the figures of a current member's loan that is not written off are principal less receivable legs and accrued less collected penalties; inactive loans hold zeros |
| Effects.RequestAnswers | backend/src/genesis/application/corrections.py:855-945 | done, unknown, forbidden or conflict, each exactly when: over the band is forbidden only where nothing but an existing claim stands in the way |
| Effects.ApprovalAnswers | backend/src/genesis/application/corrections.py:968-1046 | done, unknown, forbidden or conflict, each exactly when: an unvouched checker is forbidden before the loan is read, one over its band after everything else |
| Effects.WriteOffAnswers | backend/src/genesis/application/corrections.py:1463-1832 | the same for requests, votes, voids and postings of write-offs |
| RecoveryRace.StepKeeps | backend/migrations/versions/0034_recovery_claim_cap_lock.py:60-93 | each statement of any transaction keeps the cap and what the others know |
| RecoveryRace.CapFromTheStart | backend/migrations/versions/0034_recovery_claim_cap_lock.py:60-93 | in every interleaving of service receipts, direct inserts and the posting, committed receipts never pass the claim and exist only once it is posted |
| RecoveryRace.ServiceNeverTripsTheTrigger | backend/src/genesis/application/corrections.py:2084-2101 | a receipt that passed the service check is never refused by the trigger, whatever ran in between |
| RecoveryRace.ServedAlone | backend/src/genesis/application/corrections.py:2044-2101 | a service receipt that meets no other transaction commits exactly when the claim is executed and the amount positive and within what is outstanding |
| RecoveryRace.DirectAlone | backend/migrations/versions/0034_recovery_claim_cap_lock.py:60-93 | so does a direct insert, on the trigger's word alone |
| RecoveryRace.UnlockedTriggerOverRecovers | backend/migrations/versions/0030_loan_recoveries.py:137-171 | with the older, non-locking trigger a concrete interleaving recovers 120 of 100 |
| Calendar.MonthsAreDisjoint | backend/src/genesis/application/accounting_periods.py:88-91 | distinct months share no day |
| Calendar.MonthIsUnique | backend/src/genesis/application/accounting_periods.py:88-91 | every day lies in exactly one month |
| Calendar.FirstDayIsGregorian | backend/src/genesis/application/accounting_periods.py:88-91 | month starts counted by month lengths agree with the closed form of the Gregorian calendar for every year and month |
| Rollups.FaithfulRow | backend/src/genesis/application/period_rollups.py:333-352 | a faithful rollup answers the month total of every account, active or not |
| Rollups.OneMorePeriod | backend/src/genesis/application/period_rollups.py:176-211 | taking a rolled period into account moves exactly its month out of the live scan |
| Rollups.TrialBalanceIsExact | backend/src/genesis/application/period_rollups.py:150-211 | rollups plus live remainder equal the full scan for every account, side and instant |
| Rollups.LineAdds | backend/src/genesis/application/period_rollups.py:176-211 | one more line in a posting raises the scan of its own account and side by its amount, if dated in time, and no other |
| Rollups.PostingRaisesTrialBalance | backend/src/genesis/application/period_rollups.py:176-211 | the same for the trial balance over rollups, line by line, as long as no rolled month is posted into |
| PeriodBarrier.PostCommitKeeps | backend/src/genesis/application/accounting_periods.py:112-136 | a poster commits only into months nobody has closed or is closing |
| PeriodBarrier.CloseCommitKeeps | backend/src/genesis/application/accounting_periods.py:158-219 | a close commits a fresh month with a faithful rollup |
| PeriodBarrier.StepKeeps | backend/migrations/versions/0028_period_rollups.py:197-230 | every statement of posters, closers, backfills and fabricators keeps the invariant |
| PeriodBarrier.ClosedMonthsAreFrozen | backend/migrations/versions/0014_ledger_integrity_hardening.py:135-163 | once a close has committed, the committed postings of that month and its marked rollup never change, in any interleaving |
| PeriodBarrier.BooksAlwaysAgree | backend/migrations/versions/0028_period_rollups.py:20-37 | in every reachable state the trial balance equals the full scan and closed months do not overlap |
| PeriodBarrier.PostAdmits | backend/src/genesis/application/accounting_periods.py:112-136 | a poster alone commits its posting exactly when it is dated no more than five minutes ahead and in no closed month |
| PeriodBarrier.CloseAdmits | backend/src/genesis/application/accounting_periods.py:158-219 | a closer alone closes a month exactly when it is over and not closed |
| PeriodBarrier.PostMovesTheBooks | backend/src/genesis/application/period_rollups.py:150-211 | a committed posting of one line moves the trial balance of its own account and side by its amount and of no other |
| PeriodBarrier.TriggerAgreesWithCheck | backend/migrations/versions/0014_ledger_integrity_hardening.py:135-163 | a posting the service has checked is never refused by the trigger |
| PeriodBarrier.VerifyCatchesFabrication | backend/src/genesis/application/period_rollups.py:405-447 | a backfill refuses if and only if a stored row disagrees with the ledger |
| PeriodBarrier.FillAdmits | backend/src/genesis/application/period_rollups.py:405-447 | a backfill alone marks an unmarked period, with one row for every active account, exactly when every stored row already agrees with the ledger |
| PeriodBarrier.UnlockedTriggerBreaksTheBooks | backend/migrations/versions/0012_accounting_periods.py:62-82 | with the older, non-locking trigger a concrete interleaving changes a closed month and the trial balance misses it |
| MemberAnchors.OpeningIsExact | backend/src/genesis/application/period_rollups.py:245-292 | with exact anchors the anchored opening is the full scan plus what its anchor holds beyond the export instant, which is nothing once the anchored months have elapsed |
| MemberAnchors.OpeningCounts | backend/src/genesis/application/period_rollups.py:245-292 | the full opening counts a movement exactly when it is the member's, before the first day and no later than the export |
| MemberAnchors.CloseRollsUp | backend/src/genesis/application/period_rollups.py:353-392 | a close stores the full balance at the month's end for exactly the members with a movement in the month, once each |
| MemberAnchors.CloseKeepsExact | backend/src/genesis/application/period_rollups.py:362-392 | rolling a month up keeps every anchor exact, and only elapsed months get one |
| MemberAnchors.PostKeepsExact | backend/src/genesis/application/period_rollups.py:253-262 | a posting keeps every anchor exact if and only if it is refused, moves nothing, or no anchor of its member lies after its date |
| MemberAnchors.StaleOpeningsMissThePosting | backend/src/genesis/application/period_rollups.py:245-292 | otherwise every opening served from a later anchor is off by exactly the posting |
| MemberAnchors.ForwardRunsStayExact | backend/src/genesis/application/period_rollups.py:245-292 | on runs that never post before an anchor every opening exported on or after the last close is exact |
| MemberAnchors.ClosedOutOfOrder | backend/src/genesis/application/period_rollups.py:253-262 | a later month closed first, then a posting into the earlier one: the opening is wrong |
| MemberAnchors.Statements.Record | backend/src/genesis/application/accounting_periods.py:112-136 | what the gate accepts keeps the anchors exact if and only if it moves nothing or no anchor of the member lies after it |
| MemberAnchors.Statements.BalanceBefore | backend/src/genesis/application/period_rollups.py:245-292 | the reader computes the anchored opening, capped at the export instant, which is the full scan when anchors are exact and elapsed |
| MemberAnchors.Statements.CloseMonth | backend/src/genesis/application/period_rollups.py:353-392 | the writer loop closes the month exactly when it is open and over, leaves the state of a roll-up, and keeps exactness |
| Idempotency.ReplaysComeFromTheSameHash | backend/src/genesis/api/idempotency.py:78-83 | on every run a replay returns a response stored under the same hash, from an epoch live at its instant |
| Idempotency.TimelyRunsAreExclusive | backend/src/genesis/api/idempotency.py:62-76 | while no handler outlives its window every holder owns the row, in flight |
| Idempotency.OneEffectPerEpoch | backend/src/genesis/api/idempotency.py:207-284 | on such runs at most one holder, at most one stored outcome per epoch, and replays return what the claimer of the epoch, with the same hash, stored while the epoch was live |
| Idempotency.SettleLands | backend/src/genesis/api/idempotency.py:281-284 | on such runs an outcome always reaches its own row and a failure always frees it |
| Idempotency.StoredStays | backend/src/genesis/application/idempotency_purge.py:16-61 | until the key is claimed again a stored response stays, however late others settle; only the purge of an expired row removes it |
| Idempotency.RetriesAreReplayed | backend/src/genesis/api/idempotency.py:227-244 | on a timely run, after an outcome below 500 and short of a new claim, a lookup replays that outcome if and only if it has the same hash, began before the expiry and the row is still there; before the expiry it always is |
| Idempotency.OneRequest | backend/src/genesis/api/idempotency.py:207-252 | a request alone runs on a missing or expired row, and otherwise gets the stored response exactly when it brings the same hash and there is one |
| Idempotency.LateSettle | backend/src/genesis/api/idempotency.py:299-337 | in any state a store or release touches the row if and only if it carries the writer's hash and no response, and logs a response only then |
| Idempotency.LateReleaseAdmitsASecondHolder | backend/src/genesis/api/idempotency.py:321-337 | a late release by an outlived writer with the same hash lets a second handler run |
| Idempotency.LateStoreFillsTheSuccessor | backend/src/genesis/api/idempotency.py:287-318 | a late store by an outlived writer with the same hash fills the successor epoch |
| Idempotency.Middleware.TakeClaim | backend/src/genesis/api/idempotency.py:62-76 | it wins exactly on a missing or expired row, which becomes the request's own for one window; otherwise nothing but the request's phase moves; while nobody is late the winner is the only holder |
| Idempotency.Middleware.Lookup | backend/src/genesis/api/idempotency.py:227-252 | a replay of the row's own response if and only if the row is live at the request's instant, has its hash and holds a response; otherwise a conflict |
| Idempotency.Middleware.End | backend/src/genesis/api/idempotency.py:276-337 | an outcome below 500 is stored, any other releases the row, if and only if the row has the request's hash and no response; while nobody is late that is its own row |
| Batches.BatchThenRest | backend/src/genesis/application/batch_runner.py:44-58 | a batch followed by a sweep of the rest is a sweep from here |
| Batches.RunInBatches | backend/src/genesis/application/batch_runner.py:31-58 | a non-positive size is an error; otherwise every eligible row is worked on once in id order, in ceil(n / size) batches |
| Batches.SweepRow | backend/src/genesis/application/batch_runner.py:44-58 | a row visited or not eligible stays, an eligible one is worked on once |
| Batches.SweepLast | backend/src/genesis/application/batch_runner.py:44-58 | the last row is worked on last, if eligible, with what the earlier rows accumulated |
| Batches.CeilDivIsCeiling | backend/src/genesis/application/batch_runner.py:51-58 | the batch count is the ceiling |
| Batches.SecondRunIsIdle | backend/src/genesis/application/batch_runner.py:44-58 | when work takes a row out of the population a second run scans and changes nothing |
| Arrears.ClassifyIsMonotone | backend/src/genesis/domain/lending.py:107-119 | worse arrears never lower the provision, and NPL is exactly more than 90 days |
| Arrears.PenaltyIsNearestCent | backend/src/genesis/domain/lending.py:179-208 | the daily charge is the nearest cent, ties up, and zero exactly below half a cent |
| Arrears.ContextRoundingIsHarmless | backend/src/genesis/domain/lending.py:208 | rounding the division to the decimal context first never changes the charge |
| Arrears.OldestIsOldest | backend/src/genesis/application/arrears.py:212-219 | the date behind days past due is that of an open due instalment and none is older; no date means none is open |
| Arrears.ArrearsAreOpen | backend/src/genesis/application/arrears.py:207-209 | cash against an open instalment lowers the arrears by exactly as much, down to what is open |
| Arrears.ProcessedIsServiced | backend/src/genesis/application/arrears.py:252-427 | a row ends with the greatest overdue days, the class of those days, and one nearest-cent charge for a day past grace and unclaimed |
| Arrears.CountsAreChanges | backend/src/genesis/application/arrears.py:495-531 | the counts a job reports are the rows it reclassified and the rows it charged |
| Arrears.RunArrears | backend/src/genesis/application/arrears.py:455-531 | every active loan found unlocked ends with its greatest overdue days, the class of those days and one nearest-cent charge for the day past grace, no other row moves, and the tally counts the reclassified and charged rows and the rise of the penalties |
| Arrears.SecondJobIsIdle | backend/src/genesis/application/arrears.py:262-273 | a second job for the day updates nothing and accrues nothing, but for rows the first found locked |
| Arrears.TallyIsConserved | backend/src/genesis/application/arrears.py:495-531 | the reported total is exactly what was added to the loans' penalties |
| Arrears.PenaltiesAddUp | backend/src/genesis/application/arrears.py:365-427 | over any days in any order with repeats a loan's penalties rise by the charges of its distinct unclaimed days |
| Arrears.OrderOfRunsIsIrrelevant | backend/src/genesis/application/arrears.py:365-427 | two schedules over the same days end with the same penalties and claims |
| Arrears.JobsAddUp | backend/src/genesis/application/arrears.py:554-599 | the same for every row of the table under whole jobs, each counting for the rows it did not find locked |
| Populations.RunDormancy | backend/src/genesis/application/dormancy.py:312-343 | exactly the active unlocked members created before the cutoff with nothing of their own since are marked, once each; without a period nothing is; a second run finds none of them |
| Populations.RowByRowClaims | backend/src/genesis/application/branches.py:713-757 | claiming names first creates the same branches as linking row by row |
| Populations.RowByRowLinks | backend/src/genesis/application/branches.py:758-787 | ... and links the same users to the same branches |
| Populations.BackfillBatch | backend/src/genesis/application/branches.py:691-790 | the two-phase batch does what linking row by row does |
| Populations.BackfillLinks | backend/src/genesis/application/branches.py:254-271 | a user is linked, to the branch of their own trimmed name, if and only if they carried an unlinked non-blank legacy branch |
| Populations.TrimCuts | backend/src/genesis/application/branches.py:254-271 | trimming takes the blanks off both ends and nothing else |
| Populations.RunBackfill | backend/src/genesis/application/branches.py:793-819 | every user with text and no link gets the branch named like their trimmed text, names are unique, keep their ids and are new only for such users, the counters count them, nobody is left to link |
| Tokens.StepKeeps | backend/src/genesis/application/auth.py:372-454 | every step keeps the family invariant, with rotations between write and commit and logouts between snapshot and update |
| Tokens.OneActiveOneSuccessor | backend/src/genesis/application/auth.py:381-441 | on every run at most one active token per family and one successor per token |
| Tokens.RevokedForGood | backend/src/genesis/application/auth.py:421-428 | a family hit by a reuse, an expiry or a suspension, or swept in full by a logout, never has an active token again |
| Tokens.RotateOrRevoke | backend/src/genesis/application/auth.py:418-441 | a rotation spends its token for one successor of the same user and family, expiring one lifetime after the decision, if the token is active and unexpired then, whatever others do before it commits; else the whole family is revoked for good |
| Tokens.RotationAlone | backend/src/genesis/application/auth.py:372-441 | a token presented alone: unknown, nothing; active and unexpired, spent for one successor; otherwise its family revoked |
| Tokens.LoginAndSuspension | backend/src/genesis/application/users.py:552-568 | a login adds one active token of a fresh family; a suspension revokes exactly the user's tokens, and none of their families comes back |
| Tokens.LogoutEndsFamily | backend/src/genesis/application/auth.py:444-454 | a logout ends its family if and only if no active token of it was committed after the logout's snapshot |
| Tokens.LogoutRevokesWhatItSaw | backend/src/genesis/application/auth.py:444-454 | every token a logout saw stays revoked |
| Tokens.LogoutRace | backend/src/genesis/application/auth.py:444-454 | a rotation of the family between write and commit at the snapshot blocks the logout, and a live token survives it if and only if that rotation commits |
| Tokens.QuietLogout | backend/src/genesis/application/auth.py:444-454 | with no such rotation a logout that goes straight through revokes exactly the family's tokens, for good |
| Tokens.LogoutMissesTheSuccessor | backend/src/genesis/application/auth.py:444-454 | a concrete run on which the successor is still active after the logout |
| Tokens.TokenTable.Rotate | backend/src/genesis/application/auth.py:418-441 | an active, unexpired token is spent and followed by its one successor; otherwise exactly its family is revoked |
| Tokens.TokenTable.RevokeAll | backend/src/genesis/application/auth.py:495-502 | every token of the family ends revoked, no other row moves |
| Roster.PaddedValue | backend/src/genesis/domain/members.py:226-230 | the padded number reads back as the sequence |
| Roster.RosterOrderIsNumeric | backend/src/genesis/application/branches.py:219-251 | comparing (length, text) is comparing sequences, for all positive sequences |
| Roster.BareTextOrderBreaks | backend/src/genesis/application/branches.py:222-228 | bare text order puts 10000 before 9999 |
| Roster.ServedCursorIsAccepted | backend/src/genesis/application/branches.py:468-473 | a served number is a valid cursor if and only if it fits the length bound |
| Roster.CursorsAreBounded | backend/src/genesis/application/branches.py:92-93 | a served number is a valid cursor if and only if its sequence has at most 29 digits |
| Roster.AfterIsBehind | backend/src/genesis/application/branches.py:474-493 | the rows behind any cursor are exactly those after it in roster order |
| Roster.ServePage | backend/src/genesis/application/branches.py:433-493 | a cursor outside the served shape is refused; otherwise the next rows behind it up to the limit, with a next cursor exactly when more follow |
| Roster.NumbersLengthen | backend/src/genesis/application/branches.py:219-251 | numbers only get longer along the roster |
| Roster.WalkRoster | backend/src/genesis/application/branches.py:433-493 | following the cursors lists every member once in numeric order, in ceil(n / limit) pages, if and only if the number before the last page fits the cursor bound; otherwise the walk is refused at a number that does not fit |
| LockOrder.PlansAreOrdered | backend/src/genesis/application/corrections.py:698-788 | every correction transaction takes its locks in rank order, except those it already holds |
| LockOrder.ExclusiveIsExclusive | backend/src/genesis/application/corrections.py:698-788 | in every reachable state a lock held exclusively is held by nobody else in any mode |
| LockOrder.GuardedApart | backend/src/genesis/application/corrections.py:1807-1832 | no two transactions that have all their locks work on the same loan or claim, and none posts beside a close |
| LockOrder.WaitsAscend | backend/src/genesis/application/corrections.py:970-986 | whoever a transaction waits for, if waiting, waits further along |
| LockOrder.NoWaitCycle | backend/src/genesis/application/corrections.py:1807-1832 | no chain of waits closes on itself in any reachable state of any number of transactions |
| LockOrder.NeverStuck | backend/src/genesis/application/corrections.py:2044-2082 | when every live transaction waits, one of them can be granted its lock |
| LockOrder.Uncontended | backend/src/genesis/application/corrections.py:698-788 | a lock nobody holds or queues for is taken at once, and nothing else moves |

## Left out

- FastAPI routers, request and response models, row-level security, sessions, index and EXPLAIN concerns, migration up and down mechanics, and `web/`.
- Audit rows, outbox events, recovery-case links and log scrubbing: they do not feed back into the modelled state.
- JWT, OTP hashing, cursor signing and SHA-256: request hashes are taken as injective, tokens and ids as fresh, a sealed cursor as its plain text; an empty cursor string is not modelled.
- The period gate inside every posting is modelled once, in `PeriodBarrier.dfy`; the correction services take the posting day as a parameter.
- Member exits: only the guard on outstanding claims and what a settlement does to loans and guarantees; the settlement arithmetic is not modelled, so the figures of an exited member's loans carry no ledger equation.
- Guarantee pledging, consent and capacity: a loan starts with its sureties, and substitution and release move them.
- Direct SQL other than receipt inserts, rollup-row inserts, postings and updates of adjustment and write-off rows: in particular setting a period's marker or inserting a closed period by hand.
- Statement snapshots in the arrears and dormancy scans: a batch is taken as atomic, its figures read under its own locks.
- Foreign-key share locks and lock-wait timeouts in `RecoveryRace.dfy` and `PeriodBarrier.dfy`: leaving them out only adds interleavings.
- OTP and member-credential sessions around `Tokens.dfy`: a login is the issue of a new family under the user row lock.
- Recovery of guarantees by direct inserts: a direct receipt that reaches the claim releases no surety, so `Claims.SuretiesFollowTheDebt` is about service runs.
- Claims.ExitsAreSettled: takes an exit as one step; in the code the guard on claims and the payoff locks are separate statements under the member lock. A write-off with a balance waits for that lock when it inserts its posting; one of penalties alone does not, and then only the re-verified payoff total stands in its way.
- Tokens.StepKeeps: a logout takes its row locks in one step when none of its rows is held by a rotation; taking them one by one would only forbid interleavings.
- Adjustments.RepayThenAdjust: the grade of a loan the repayment had closed stays at its healthiest, as in the code, until the arrears job runs again.
- Dividends, share transfers, KYC, reports and the listing registers.
