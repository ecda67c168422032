# Smart-Committee domain core in Dafny

This project models the domain core of Smart-Committee, a Django application for rotating savings
committees. An organizer creates a committee with a fixed monthly amount and a duration. Members
join it, either when the organizer adds them or by accepting an emailed invitation. They pay the
amount once per calendar month, the organizer verifies the payments, and each member is paid out
once, bounded by what that member has contributed and had verified.

The model covers these parts:

- **Committee lifecycle** (`committees.dfy`): the end date derived on save, automatic completion of
  an ACTIVE committee past its end date, deactivate and reactivate, the update view's end-date
  recomputation, and the status toggle view.
- **Membership lifecycle** (`memberships.dfy`): `left_at` bookkeeping on save, the membership form,
  and the membership table keyed by (committee, member). Covers the add-members loop, status
  update, delete, and the get-or-create used by invitation acceptance.
- **Membership deletion** (`membership_deletion.dfy`): the delete view with its cascade to the
  membership's contributions and payout.
- **Contribution ledger** (`contributions.dfy`):
  - the due-date default and the PAID/LATE derivation;
  - the contribution form's validators and save;
  - create, update, delete, verify and member submission;
  - the bulk-recording loop;
  - the paid and verified totals;
  - the member dashboard's next-contribution-date computation with its day clamp.
- **Payout settlement** (`payouts.dfy`): the amount bound by verified contributions, one payout per
  membership, and `confirmed_at` stamped only on the first confirmation.
- **Invitation state machine** (`invitations.dfy`): sending, the acceptance predicate, acceptance with lazy
  expiry and get-or-create membership, resend with token rotation and a seven-day expiry, and
  revoke.
- **The `div` template filter** (`math_filters.dfy`): Python's `int()` conversion of the values a
  template passes, floor division, and the fallback to 0.

Supporting modules are `common.dfy` (Option, Result), `dates.dfy` (a proleptic Gregorian calendar:
month arithmetic as `relativedelta(months=n)` does it, and day stepping as `timedelta(days=n)` does
it) and `domain.dfy` (identifiers, users, case-insensitive email comparison).

Conventions:

- Money is integer cents (`DecimalField(decimal_places=2)`).
- Dates are (year, month, day) triples.
- Timestamps are integer seconds.
- "Now" and "today" are parameters of every operation that reads the clock.
- Database tables are classes holding value rows. A table keyed by a uniqueness constraint is a
  `map`: memberships by (committee, member), payouts by membership. The contribution table is a
  `seq`. Its one-row-per-membership-per-calendar-month rule is a class invariant.
- Model instances whose save hooks rewrite their own fields are classes: `Committee`,
  `Membership`, `Contribution`, `Payout`, `Invitation`.

The `Invitation` model is commented out in `committee/models.py:169-184`, and that commented text
has no `expires_at`. The model reconstructs the fields from their use in `committee/views.py`:
committee, inviter, email, token, status and an optional expiry. The send view creates invitations
without an expiry (`committee/views.py:107-112`), and only the resend view sets one, seven days
ahead. So an issued invitation never lapses until it is resent or revoked
(`Invitations.NoExpiryNeverLapses`).

`Committee.save` completes only ACTIVE committees (`committee/models.py:31-33`). A committee
deactivated before its end date therefore stays DEACTIVATED after that date passes
(`Committees.DeactivatedPastEndIsStuck`).

Deleting a membership row cascades to its contributions and its payout
(`committee/models.py:106` and `committee/models.py:144`). `membership_deletion.dfy` models the
delete view together with that cascade.

## Model

| member | source | states |
|---|---|---|
| Committees.SavedEndDate | committee/models.py:28-30 | A set end date is kept as it is. An unset one is `start + relativedelta(months=duration)`: exactly `duration` calendar months after the start, on the start's day clamped to the length of that month. With a duration of at least one month it lies after the start. |
| Committees.CommitteeFormClean | committee/forms.py:70-80 | The form accepts the requester iff they hold the organizer role and, when editing, own the committee. |
| Committees.SaveIsIdempotent | committee/models.py:31-33 | Saving twice leaves the same status as saving once. A COMPLETED committee stays COMPLETED under save and under the toggle view. |
| Committees.DeactivatedPastEndIsStuck | committee/models.py:31-50 | Once its end date has passed, a DEACTIVATED committee is neither completed by save nor reactivated by the toggle view. |
| Committees.ToggleTwiceRestores | committee/views.py:1152-1169 | Before the end date the toggle view changes the status, and toggling twice restores it. |
| Committees.Committee.Create | committee/forms.py:82-88 | A new committee is owned by the requester and has the derived end date. It is saved ACTIVE, or COMPLETED if that end date has already passed. |
| Committees.Committee.Save | committee/models.py:28-35 | The end date is derived only when unset. Only an ACTIVE committee past its end date becomes COMPLETED. Amount, start and duration are unchanged. |
| Committees.Committee.Deactivate | committee/models.py:37-43 | Succeeds iff the committee was ACTIVE and not past its end date. On success it is DEACTIVATED; otherwise status and end date are unchanged. |
| Committees.Committee.Reactivate | committee/models.py:45-51 | Succeeds iff the committee was DEACTIVATED and not past its end date. On success it is ACTIVE, or COMPLETED when an unset end date is derived in the past. Otherwise nothing changes. |
| Committees.Committee.Update | committee/views.py:341-372 | Only the owning organizer may edit, and a refused edit changes nothing. The end date is recomputed from the new start and duration iff either changed; otherwise it is kept. Status follows the save rule. |
| Committees.Committee.Toggle | committee/views.py:1143-1169 | Non-owners change nothing. Otherwise the committee is saved first. A completed committee is refused, an ACTIVE one is deactivated, and a DEACTIVATED one is reactivated unless its end date has passed. |
| Memberships.SavedLeftAt | committee/models.py:86-91 | `left_at` is unset iff the status is ACTIVE. A LEFT or REMOVED membership keeps an existing `left_at` or is stamped now. |
| Memberships.MembershipFormClean | committee/forms.py:20-37 | Each outcome exactly, in the form's order. Not the organizer when a committee is given and the requester does not own it. Otherwise already active when a new row would duplicate an ACTIVE one. Otherwise organizer as member when the member is the committee's organizer. Otherwise no error. |
| Memberships.DeclaredFormNeverRejects | committee/forms.py:8-37 | The form exposes only `status`, so its committee and member checks never see a value and it never rejects. |
| Memberships.Membership.Save | committee/models.py:86-91 | The status is kept and `left_at` follows `SavedLeftAt`. |
| Memberships.Membership.FormSave | committee/forms.py:40-49 | A changed LEFT/REMOVED status is stamped now. ACTIVE clears `left_at`. An unchanged status keeps the save rule. |
| Memberships.CountKnown | committee/views.py:437-446 | Counts the submitted ids that name existing users. There are at most as many as were submitted, and exactly as many when all exist. |
| Memberships.InsertedValid | committee/models.py:79-80 | Inserting a new (committee, member) key keeps the table's invariants and grows it by one row. |
| Memberships.AddAllKeys | committee/views.py:437-446 | After the add-members loop a key is present iff it was before, or it pairs the committee with an existing user among the submitted ids. |
| Memberships.AddAllKeepsRows | committee/views.py:440-443 | Rows that existed before the add-members loop are unchanged by it. |
| Memberships.AddAllNewRows | committee/views.py:441 | Every membership the loop creates is ACTIVE, joined now, with no `left_at`. |
| Memberships.AddAllValid | committee/models.py:79-91 | The loop keeps ids distinct, keeps ACTIVE iff no `left_at`, and grows the table by exactly the ids it issued. |
| Memberships.Roster.Insert | committee/views.py:441 | `Membership.objects.create`: the table gains exactly this key with a fresh ACTIVE row. |
| Memberships.Roster.AddMembers | committee/views.py:420-446 | A requester other than the organizer is refused, and so is an empty id list; a refusal changes nothing. Otherwise the loop's effect is `AddAll` over all submitted ids. Added equals rows created. Added plus already-members equals the ids naming existing users, at most the ids submitted. |
| Memberships.Roster.AddMembersExceptOrganizer | committee/views.py:73 | Corrected add-members: the same refusals, and the organizer is filtered out as the candidate list does, so no organizer membership is ever created. |
| Memberships.Roster.GetOrCreate | committee/views.py:181 | Creates an ACTIVE row iff the key was absent. Otherwise the table is unchanged and the existing row is returned. |
| Memberships.Roster.UpdateStatus | committee/views.py:460-477 | Only the organizer may update. The status is set through the form's save, `left_at` follows the form's rule, and every other row is unchanged. |
| Memberships.Roster.Delete | committee/views.py:490-505 | Only the organizer may delete. Exactly that key is removed from the membership table. |
| MembershipDeletion.DeleteMembership | committee/views.py:490-505 | Only the organizer may delete, and a refusal changes nothing. On success the membership row, every contribution of that membership and its payout are removed, and nothing else. |
| Memberships.OrganizerAddedToOwnCommittee | committee/views.py:437-446 | As written, the add-members loop creates a membership for the committee's own organizer. |
| Contributions.SavedDueDate | committee/models.py:127-129 | A set due date is kept. An unset one becomes the 5th of the contribution's month. |
| Contributions.CleanedStatus | committee/models.py:123-125 | With both dates set the status is LATE iff payment is after the due date, and PAID otherwise. Without both it is unchanged. |
| Contributions.CleanAmountPaid | committee/forms.py:108-115 | The amount is accepted iff it equals the monthly amount exactly. |
| Contributions.CleanError | committee/forms.py:117-143 | Accepted iff the requester is an organizer or the member, and a given month is neither taken nor in the future. Permission is checked first, then the duplicate. |
| Contributions.FormErrors | committee/forms.py:108-143 | No errors iff the exact amount and a month are given, permission holds, the month is free, and it is not in the future. At most three errors are reported. |
| Contributions.SavedRow | committee/models.py:127-131 | After save the due date is set by the default rule, and the status follows the date rule. A row with a payment date is never PENDING. |
| Contributions.PreparedRow | committee/forms.py:145-163 | The form's save sets a missing payment date to today, makes the status PAID or LATE (never PENDING), and marks it verified iff it was already verified or the requester has the organizer flag. |
| Contributions.FormSavedRow | committee/forms.py:145-167 | A contribution saved through the form has a payment date and a due date and is PAID or LATE by comparing them. Verification is as above. Identity, amount and month are kept. |
| Contributions.ForcedPendingIsOverwritten | committee/views.py:1124-1127 | The member view's forced PENDING is overwritten by `save`. The stored row equals the form-saved row and is never PENDING. |
| Contributions.PaidTotalAppend | committee/models.py:57-62 | `total_collected`/`total_contributed` grow by a new row's amount exactly when it is PAID and belongs to the memberships summed. |
| Contributions.PaidTotalReplace | committee/models.py:57-62 | Replacing a row changes the paid total by the difference of the two rows' contributions. |
| Contributions.PaidTotalSplit | committee/models.py:57-62 | A committee's total collected is the sum of its disjoint memberships' totals contributed. |
| Contributions.PaidTotalWithoutPaid | committee/models.py:93-97 | Without PAID rows the total is 0. |
| Contributions.VerifiedTotalAppend | committee/forms.py:226-231 | The verified total grows by a new row's amount exactly when it belongs to the membership, is PAID or LATE, and is verified. |
| Contributions.VerifiedTotalReplace | committee/forms.py:226-231 | Replacing a row changes the verified total by the difference of the two rows' contributions. |
| Contributions.VerifiedTotalWithoutVerified | committee/forms.py:226-231 | Without verified rows for the membership the verified total is 0. |
| Contributions.WithoutMembership | committee/models.py:106 | The cascade keeps exactly the rows of other memberships, and never adds a row. |
| Contributions.PaidTotalWithoutMembership | committee/models.py:106 | After the cascade, every PAID total equals the total over the same memberships minus the deleted one. |
| Contributions.VerifiedTotalWithoutMembership | committee/models.py:106 | After the cascade, the deleted membership's payout bound is 0 and every other membership's bound is unchanged. |
| Contributions.WithoutMembershipValid | committee/models.py:106 | The cascade keeps the ledger's invariant: distinct keys and one contribution per membership and calendar month. |
| Contributions.Ledger.DeleteMembership | committee/models.py:106 | The cascade removes the membership's contributions, keeps the rest in order, and keeps the invariant. |
| Contributions.Contribution.Save | committee/models.py:127-131 | The stored row is `SavedRow` of the row before. |
| Contributions.Contribution.Clean | committee/models.py:123-125 | Only the status changes, to the date-derived status. |
| Contributions.Contribution.Apply | committee/forms.py:117-143 | Binding the form copies amount and month into the instance and re-derives the status. |
| Contributions.Contribution.Prepare | committee/forms.py:145-163 | The instance becomes `PreparedRow` of what it was. |
| Contributions.Contribution.FormSave | committee/forms.py:145-167 | The instance becomes `FormSavedRow` of what it was. |
| Contributions.CountSelected | committee/views.py:965-966 | Counts the selected active memberships. There are at most as many as there are entries. |
| Contributions.IndexOf | committee/views.py:567 | Finds the row with the given id, or reports that none exists. |
| Contributions.Ledger.Record | committee/forms.py:145-167 | Appends the form-saved new row with a fresh id and keeps one contribution per membership per month. |
| Contributions.Ledger.Create | committee/views.py:539-553 | Non-organizers are refused. Otherwise the errors are exactly the form's, and with none the ledger gains exactly the form-saved new row under the next id. A refusal changes nothing. |
| Contributions.Ledger.Update | committee/views.py:565-584 | Unknown ids and non-organizers are refused, and a PAID row is frozen. The duplicate check excludes the row itself. On success only that row changes, to the bound and form-saved row. |
| Contributions.Ledger.Delete | committee/views.py:598-610 | Only the organizer deletes, and exactly that row is removed. |
| Contributions.Ledger.Verify | committee/views.py:617-633 | Succeeds iff the requester is the organizer and the row is unverified. The row becomes verified and is saved. Nothing else changes. |
| Contributions.Ledger.MemberCreate | committee/views.py:1110-1129 | As written: only the member may submit, and the errors are the form's. The stored row is the member-submitted row under the next id: PAID or LATE, and verified when the member has the organizer flag. A refusal changes nothing. |
| Contributions.Ledger.MemberCreateForVerification | committee/views.py:1124-1127 | Corrected member submission. The stored row is the member's own: the membership, the submitted amount and month, due on the 5th, paid today, under the next id. It is PENDING and unverified, so no paid or verified total changes. A refusal changes nothing. |
| Contributions.Ledger.BulkRecord | committee/views.py:936-992 | Non-organizers change nothing. For an organizer the new ledger is `BulkAll` over the entries, with the memberships recorded this month taken at the start. Successes plus errors equal the selected memberships. Rows are only appended. Each new row is for the first of today's month, paid today, not PENDING, and verified. |
| Contributions.FirstOfMonth | committee/views.py:947 | The bulk view's month is a valid date on day 1 of today's calendar month, not after today. |
| Contributions.Recorded | committee/views.py:950-959 | A membership is in the recorded set exactly when it has a contribution in the given calendar month. |
| Contributions.BulkRow | committee/views.py:966-979 | The row the bulk form stores carries the entry's membership and monthly amount, the bulk month and the next key, and is paid today, not PENDING, and verified. |
| Contributions.BulkAllAppends | committee/views.py:965-982 | The bulk loop only appends, one fresh key per row. Every appended row is the bulk row of a selected entry whose membership was not recorded. |
| Contributions.BulkAllOnce | committee/views.py:965-982 | The bulk loop never records a membership twice, nor one that already had a row in the month. |
| Contributions.BulkAllRecords | committee/views.py:965-984 | When the recorded set covers the month's existing rows, a membership gets a row exactly when it is selected, not recorded, and offered by some entry. |
| Contributions.BulkRecordsExactly | committee/views.py:950-984 | Starting from any ledger, the bulk view records exactly the selected offered memberships with no contribution in today's month. |
| Contributions.ClampDay | committee/views.py:1033-1036 | The day is clamped into the month: a real date in that month, never later than the requested day, and either that day or the month's last day. |
| Contributions.NextContributionDate | committee/views.py:1027-1046 | As written: a real date on the start's day-of-month (clamped). It is the first candidate unless that has passed, then the next step's candidate. From the start date it stays within two months. |
| Contributions.NextContributionDateByMonth | committee/views.py:1027-1046 | Corrected step: the next date falls in the month after the last contribution's month, or the one after that when that date has passed. |
| Contributions.NextContributionSkipsFebruary | committee/views.py:1028-1029 | As written, from a January 31 contribution with start day 15 the next date is March 15. February is skipped. |
| Contributions.MemberSubmissionSelfVerifies | committee/views.py:1110-1129 | As written, a member with the organizer flag submits and the row is PAID and verified. It counts toward their verified payout bound at once. |
| Payouts.CleanTotalAmount | committee/forms.py:226-237 | The amount is accepted iff it does not exceed the verified total. |
| Payouts.PayoutCleanError | committee/forms.py:239-250 | Accepted iff the requester is the organizer and this is not a second payout for the membership. |
| Payouts.PayoutFormErrors | committee/forms.py:226-250 | No errors iff an amount within the verified total is given, the receiver is an active member, the requester is the organizer, and it is not a duplicate. |
| Payouts.CreatedRow | committee/views.py:657-664 | A created payout is confirmed, confirmed now, and paid now. It carries the submitted amount, receiver and cash flag. |
| Payouts.UpdatedRow | committee/forms.py:252-262 | An update keeps identity and `paid_at` and takes the submission. `confirmed_at` is kept once set, and stamped now only when confirmed and unset. |
| Payouts.UpdatesKeepFirstConfirmation | committee/forms.py:261-262 | Across any sequence of updates a confirmed payout keeps its `confirmed_at`, and a confirmed payout always has one. |
| Payouts.Payout.Apply | committee/forms.py:171-173 | Binding copies amount, receiver, cash flag and confirmation into the instance. |
| Payouts.Payout.Prepare | committee/forms.py:252-262 | `confirmed_at` is stamped now iff confirmed and unset. Nothing else changes. |
| Payouts.PayoutBook.Create | committee/views.py:640-664 | Non-organizers are refused, and the errors are the form's. On success exactly one payout for the membership is added, and its amount is at most the verified total. |
| Payouts.PayoutBook.Update | committee/views.py:691-717 | Unknown payouts and non-organizers are refused. On success only that payout changes, to `UpdatedRow`. |
| Payouts.PayoutBook.Delete | committee/views.py:740-751 | Only the organizer deletes, and exactly that payout is removed. |
| Payouts.PayoutBook.DeleteMembership | committee/models.py:144 | The cascade removes the membership's payout, if any, and keeps the book's invariant. |
| Invitations.CanAcceptIgnoresCase | committee/views.py:137-148 | Acceptance does not depend on the case of the user's address. |
| Invitations.LowerCasedAddressAccepted | committee/views.py:148 | The invited address, lower-cased, is accepted for a PENDING, unexpired invitation. |
| Invitations.NoExpiryNeverLapses | committee/views.py:144-145 | Without an expiry, acceptance does not depend on time. |
| Invitations.CanAcceptEarlier | committee/views.py:144-145 | Acceptability only wears off: acceptable now means acceptable at every earlier time. |
| Invitations.Invitation.Issue | committee/views.py:107-112 | A new invitation is PENDING with the given token and no expiry. |
| Invitations.Send | committee/views.py:96-112 | Only the committee's organizer may send. A sent invitation is new, issued by the requester, PENDING, with the given token and no expiry. A refusal creates nothing. |
| Invitations.Invitation.Accept | committee/views.py:151-190 | A non-PENDING invitation changes nothing. An expired one is marked EXPIRED without a membership. A refused user changes nothing. Otherwise the membership is fetched or created ACTIVE, and the invitation becomes ACCEPTED and expires now. Joining happens iff `_can_accept` holds. |
| Invitations.Invitation.Resend | committee/views.py:222-240 | Only the organizer, and never from ACCEPTED. On success the token is replaced, the invitation is PENDING, and it expires in seven days. A refusal changes nothing. |
| Invitations.Invitation.Revoke | committee/views.py:258-275 | Only the organizer, and only from PENDING. On success the invitation is EXPIRED and expires now. A refusal changes nothing. |
| Invitations.AcceptTwice | committee/views.py:153-158 | A token is single-use: after a successful acceptance, a second one by anyone at any time is refused as no longer valid. |
| MathFilters.FloorDiv | committee/templatetags/math_filters.py:10 | Python's `//`: the remainder has the divisor's sign, so the quotient rounds toward negative infinity. |
| MathFilters.TruncDiv | committee/templatetags/math_filters.py:10 | `int()` of a Decimal truncates toward zero: the magnitude is floored and the sign kept. |
| MathFilters.ToInt | committee/templatetags/math_filters.py:10 | `int(None)` is the only TypeError. A string that does not parse is the only ValueError. A Decimal truncates. |
| MathFilters.LeadingSpaceIgnored | committee/templatetags/math_filters.py:10 | Leading whitespace does not change a string's conversion. |
| MathFilters.BlankIsValueError | committee/templatetags/math_filters.py:10-11 | An empty or whitespace-only string raises ValueError. |
| MathFilters.ParseShowRoundTrip | committee/templatetags/math_filters.py:10 | Every printed integer converts back to itself: `int(str(n)) == n`. |
| MathFilters.DivOfIntegers | committee/templatetags/math_filters.py:7-12 | Integer division by zero yields 0. Otherwise the quotient is the floor quotient. |
| MathFilters.DivRoundsDown | committee/templatetags/math_filters.py:10 | -7 by 2 and 7 by -2 both give -4, not -3. |
| MathFilters.UnparsableValueYieldsZero | committee/templatetags/math_filters.py:9-12 | A value that raises ValueError yields 0 whatever the divisor, because the divisor is never converted. |
| MathFilters.DivFallsBackExactly | committee/templatetags/math_filters.py:9-12 | With both values converted and a nonzero divisor, the result is the floor quotient. A ValueError or a zero divisor yields 0. |
| MathFilters.TypeErrorEscapes | committee/templatetags/math_filters.py:11 | The filter raises iff it reaches a `None`: the value, or the divisor of a convertible value. |
| Dates.DaysInMonth | committee/views.py:1034 | Months have 28 to 31 days. February has 29 iff the year is a leap year. |
| Dates.AddMonths | committee/models.py:30 | `relativedelta(months=n)` moves exactly n calendar months and clamps the day into the target month. |
| Dates.AddMonthsAdvances | committee/models.py:30 | Adding at least one month yields a later date. |
| Dates.AddDays | committee/views.py:1028 | `timedelta(days=n)` never moves to an earlier month, and within one month it adds n to the day. |
| Dates.NextMonthStartIndex | committee/views.py:1028-1029 | Adding 31 days and taking the first of the month advances one month, or two when the day is late enough that 31 days overshoots the following month. |
| Dates.NextMonthStartFromEarlyDay | committee/views.py:1028-1029 | From day 28 or earlier, the 31-day step lands on the first of the following month. |
| Dates.MonthIndexInjective | committee/forms.py:128-131 | Two dates share a month index iff they fall in the same calendar month, which is the duplicate check's criterion. |
| Domain.Lower | committee/views.py:148 | Lower-casing keeps the length and maps each character by its ASCII case rule. |
| Domain.LowerIdempotent | committee/views.py:148 | Lower-casing twice is lower-casing once, so an address matches its lower-cased form. |
| Domain.SameEmailEquivalence | committee/views.py:148 | Case-insensitive address matching is reflexive, symmetric and transitive. |

## Left out

- I/O is not modelled. That covers rendering, messages, redirects, JSON responses, the Celery email
  tasks and their retry logic, and `get_object_or_404` lookups. The model works on the row an
  operation addresses and reports a not-found error for an absent key.
- The clock and randomness are parameters. `timezone.now()` and `date.today()` are separate
  parameters and are not tied to each other. `token_urlsafe(32)` is an opaque string passed in.
- Concurrency and database transactions are not modelled. Uniqueness constraints are class
  invariants, not races.
- Invitations.Invitation.Issue: the sending form's validation of the address is not modelled.
  `InvitationForm` is not part of this model, so the address is taken as given.
- Invitations.Invitation.Issue: does not set a seven-day expiry at issuance. The send view passes
  no expiry, and the commented-out model text has no default for it.
- The dashboards and listing views (`committee_list`, `committee_detail`, the organizer and member
  dashboards apart from the next-date computation, `see_all_members`, `manage_*`), `committee_delete`
  and the role switch views are not modelled. They read and present data, or delegate to the
  framework.
- Payouts are keyed by membership. The row id is kept but never used for lookup.
- Amounts are not checked to be positive, because the code does not check them.
- Payouts.PayoutFormErrors: the `max_digits=10` limit of `Payout.total_amount`
  (`committee/models.py:145`) is not modelled. Django rejects an amount of 100,000,000.00 or more,
  and the model accepts it whenever the verified total allows.
- Committees.CommitteeFormClean: the same `max_digits=10` limit on `monthly_amount`
  (`committee/models.py:17`) is not modelled. Contribution amounts must equal the monthly amount, so
  the limit on `amount_paid` (`committee/models.py:107`) is not modelled either.
- MathFilters.ToInt: Unicode digits and Unicode whitespace, which Python's `int()` also accepts, are
  not modelled. Neither are floats, nor Decimal NaN and infinities, which raise ValueError and
  OverflowError.
- Domain.Lower: lower-cases ASCII letters only. Python's `str.lower()` also lower-cases non-ASCII
  letters, so for addresses with non-ASCII letters `Invitations.CanAccept` may refuse a match that
  the view accepts.
- Dates.AddDays: does not model dates outside the proleptic Gregorian calendar. Python's year bounds
  (1 to 9999) are not enforced.
- Dates.AddMonths: the same year bounds are not enforced. `relativedelta(months=n)` raises ValueError
  when the result falls past year 9999.
- Committees.SavedEndDate: a `duration_months` large enough to carry the end date past year 9999
  makes `Committee.save` (`committee/models.py:30`) raise ValueError. The model returns a date instead.
- Committees.Committee.Update: the same overflow in the end-date recomputation
  (`committee/views.py:359-362`) is not modelled.
- Memberships.Roster.AddMembers: every submitted id is taken to be a user id. In the view the ids are
  strings, and a non-numeric or empty one makes `User.objects.get(pk=user_id)`
  (`committee/views.py:439`) raise ValueError. Only `User.DoesNotExist` is caught
  (`committee/views.py:445`), so the loop stops there. The memberships created for earlier ids
  stay, and later ids are not handled. The model does not capture this abort after a prefix.

## Findings

| source | as written | input that shows it | evidently intended | confidence | as-written member | corrected member |
|---|---|---|---|---|---|---|
| committee/views.py:1124-1127 | The member view sets PENDING before `save`. The form has already set a payment date, so `Contribution.save` re-derives PAID or LATE. The form also marks the row verified when the member's organizer flag is set. | A member with the organizer flag submits 10000 cents for 2025-06-01 on 2025-06-02. The stored row is PAID and verified. | A member's submission is stored PENDING and unverified, awaiting the organizer. | not executed | Contributions.MemberSubmissionSelfVerifies | Contributions.Ledger.MemberCreateForVerification |
| committee/views.py:437-446 | The add-members loop creates a membership for any existing user id, the committee's organizer included. | The organizer's own id is posted to `membership_create`. A membership (committee, organizer) is created. | The organizer is excluded, as the candidate list at committee/views.py:73 does. | not executed | Memberships.OrganizerAddedToOwnCommittee | Memberships.Roster.AddMembersExceptOrganizer |
| committee/views.py:1028-1029 | "Next month" is computed as the last month + 31 days, then the first of the month. From a day late in a month that is followed by a short month, this skips a month. | The last contribution is for 2025-01-31 and the start day is 15. The next date is 2025-03-15, and February is skipped. | The first day of the following calendar month. | not executed | Contributions.NextContributionSkipsFebruary | Contributions.NextContributionDateByMonth |
