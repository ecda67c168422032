/**
 * The contribution ledger: the due-date default and PAID/LATE derivation of
 * `Contribution.save`, the checks and defaults of the contribution form, the
 * PAID and verified totals, and the contribution views that write the table.
 */
module Contributions {
  import opened Common
  import opened Dates
  import opened Domain

  datatype PaymentStatus = Paid | Pending | Late

  /** A stored contribution row. Amounts are in cents. */
  datatype ContributionRow = ContributionRow(
    id: ContributionId,
    membership: MembershipId,
    amountPaid: int,
    forMonth: Date,
    dueDate: Option<Date>,
    paymentDate: Option<Date>,
    status: PaymentStatus,
    verified: bool)

  /** Why the contribution form or views refuse a request. */
  datatype ContributionError =
    | AmountRequired         // `amount_paid` missing or not a number
    | AmountMismatch         // not exactly the committee's monthly amount
    | MonthRequired          // `for_month` missing or not a date
    | PermissionDenied       // neither organizer-flagged nor the membership's member
    | DuplicateMonth         // another contribution of the membership in that calendar month
    | FutureMonth            // `for_month` after today
    | NotCommitteeOrganizer
    | PaidIsFrozen
    | AlreadyVerified
    | NotOwnMembership
    | ContributionNotFound

  /**
   * The due date `save` leaves behind: a set due date is kept; an unset one
   * becomes the 5th of the month of `for_month`.
   */
  function SavedDueDate(dueDate: Option<Date>, forMonth: Date): (d: Date)
    requires ValidDate(forMonth)
    ensures dueDate.Some? ==> d == dueDate.value
    ensures dueDate.None? ==> SameMonth(d, forMonth) && d.day == 5 && ValidDate(d)
  {
    if dueDate.Some? then dueDate.value else Date(forMonth.year, forMonth.month, 5)
  }

  /**
   * `Contribution.clean`: with both dates set the status is LATE when the
   * payment came after the due date and PAID otherwise; with either date
   * missing the status is left as it was.
   */
  function CleanedStatus(status: PaymentStatus, paymentDate: Option<Date>, dueDate: Option<Date>): (r: PaymentStatus)
    ensures paymentDate.Some? && dueDate.Some? ==> r != Pending && (r == Late <==> Before(dueDate.value, paymentDate.value))
    ensures paymentDate.None? || dueDate.None? ==> r == status
  {
    if paymentDate.Some? && dueDate.Some? then
      (if Before(dueDate.value, paymentDate.value) then Late else Paid)
    else status
  }

  /** `ContributionForm.clean_amount_paid`: the amount must be exactly the monthly amount. */
  function CleanAmountPaid(amount: int, monthlyAmount: int): (r: Option<ContributionError>)
    ensures r.None? <==> amount == monthlyAmount
    ensures r.Some? ==> r.value == AmountMismatch
  {
    if amount != monthlyAmount then Some(AmountMismatch) else None
  }

  /**
   * `ContributionForm.clean`: the first of its checks that fails: permission,
   * then (when a month was given) the one-per-calendar-month rule, then no
   * future month. `taken` says whether another contribution of the membership
   * lies in the same calendar month.
   */
  function CleanError(requester: User, member: UserId, forMonth: Option<Date>, taken: bool, today: Date)
    : (r: Option<ContributionError>)
    ensures r.None? <==> (requester.isOrganizer || requester.id == member) && (forMonth.Some? ==> !taken && !Before(today, forMonth.value))
    ensures !(requester.isOrganizer || requester.id == member) ==> r == Some(PermissionDenied)
    ensures (requester.isOrganizer || requester.id == member) && forMonth.Some? && taken ==> r == Some(DuplicateMonth)
  {
    if !(requester.isOrganizer || requester.id == member) then Some(PermissionDenied)
    else if forMonth.Some? && taken then Some(DuplicateMonth)
    else if forMonth.Some? && Before(today, forMonth.value) then Some(FutureMonth)
    else None
  }

  /**
   * The errors `ContributionForm.is_valid()` collects: the field errors of
   * `amount_paid` and `for_month`, then the error `clean` raises.
   */
  function FormErrors(amount: Option<int>, forMonth: Option<Date>, monthlyAmount: int, requester: User, member: UserId, taken: bool, today: Date)
    : (errs: seq<ContributionError>)
    ensures errs == [] <==>
              && amount == Some(monthlyAmount)
              && forMonth.Some?
              && (requester.isOrganizer || requester.id == member)
              && !taken
              && !Before(today, forMonth.value)
    ensures |errs| <= 3
  {
    var amountErrors := if amount.None? then [AmountRequired]
                        else match CleanAmountPaid(amount.value, monthlyAmount) case Some(e) => [e] case None => [];
    var monthErrors := if forMonth.None? then [MonthRequired] else [];
    var cleanErrors := match CleanError(requester, member, forMonth, taken, today) case Some(e) => [e] case None => [];
    amountErrors + monthErrors + cleanErrors
  }

  /** A contribution with the model's defaults, as the form builds it before `save`. */
  function NewRow(id: ContributionId, membership: MembershipId, amount: int, forMonth: Date): ContributionRow
  {
    ContributionRow(id, membership, amount, forMonth, None, None, Pending, false)
  }

  /** The row `Contribution.save` stores: due date defaulted, then `clean`. */
  function SavedRow(r: ContributionRow): (s: ContributionRow)
    requires ValidDate(r.forMonth)
    ensures s.dueDate == Some(SavedDueDate(r.dueDate, r.forMonth))
    ensures s.status == CleanedStatus(r.status, r.paymentDate, s.dueDate)
    ensures s.paymentDate.Some? ==> s.status != Pending
    ensures s == r.(dueDate := s.dueDate, status := s.status)
  {
    var due := Some(SavedDueDate(r.dueDate, r.forMonth));
    r.(dueDate := due, status := CleanedStatus(r.status, r.paymentDate, due))
  }

  /**
   * `ContributionForm.save(commit=False)` on a row: payment date defaulted to
   * today, then PAID or LATE by the due date, auto-verified when the requester
   * carries the organizer flag. (Its PENDING branch for a missing payment date
   * cannot be taken, since the payment date was just defaulted.)
   */
  function PreparedRow(r: ContributionRow, requesterIsOrganizer: bool, today: Date): (s: ContributionRow)
    ensures s.paymentDate == Some(if r.paymentDate.Some? then r.paymentDate.value else today)
    ensures s.status != Pending && (s.status == Late <==> r.dueDate.Some? && Before(r.dueDate.value, s.paymentDate.value))
    ensures s.verified <==> r.verified || requesterIsOrganizer
    ensures s == r.(paymentDate := s.paymentDate, status := s.status, verified := s.verified)
  {
    var pay := if r.paymentDate.Some? then r.paymentDate.value else today;
    var status := if r.dueDate.Some? && Before(r.dueDate.value, pay) then Late else Paid;
    r.(paymentDate := Some(pay), status := status, verified := r.verified || requesterIsOrganizer)
  }

  /**
   * The row `ContributionForm.save()` stores: prepared, then saved. It is
   * never PENDING, LATE exactly when paid after its due date, and verified
   * when it was already or the requester carries the organizer flag.
   */
  function FormSavedRow(r: ContributionRow, requesterIsOrganizer: bool, today: Date): (s: ContributionRow)
    requires ValidDate(r.forMonth)
    ensures s.paymentDate == Some(if r.paymentDate.Some? then r.paymentDate.value else today)
    ensures s.dueDate == Some(SavedDueDate(r.dueDate, r.forMonth))
    ensures s.status != Pending && (s.status == Late <==> Before(s.dueDate.value, s.paymentDate.value))
    ensures s.verified <==> r.verified || requesterIsOrganizer
    ensures s.id == r.id && s.membership == r.membership && s.amountPaid == r.amountPaid && s.forMonth == r.forMonth
  {
    SavedRow(PreparedRow(r, requesterIsOrganizer, today))
  }

  /** The row the member's own contribution view stores: prepared, forced to PENDING, then saved. */
  function MemberSubmittedRow(r: ContributionRow, requesterIsOrganizer: bool, today: Date): ContributionRow
    requires ValidDate(r.forMonth)
  {
    SavedRow(PreparedRow(r, requesterIsOrganizer, today).(status := Pending))
  }

  /**
   * Forcing PENDING on a member's submission has no effect: the `save` that
   * follows derives the status from the payment date the form filled in, so
   * the stored row is exactly what the organizer's form stores, auto-verified
   * whenever the member's account carries the organizer flag.
   */
  lemma ForcedPendingIsOverwritten(r: ContributionRow, requesterIsOrganizer: bool, today: Date)
    requires ValidDate(r.forMonth)
    ensures MemberSubmittedRow(r, requesterIsOrganizer, today) == FormSavedRow(r, requesterIsOrganizer, today)
    ensures MemberSubmittedRow(r, requesterIsOrganizer, today).status != Pending
  {
  }

  /** Whether a contribution of `membership` other than `excluded` lies in the calendar month of `forMonth`. */
  predicate MonthTaken(rows: seq<ContributionRow>, membership: MembershipId, forMonth: Date, excluded: Option<ContributionId>)
  {
    exists i :: 0 <= i < |rows| && rows[i].membership == membership && SameMonth(rows[i].forMonth, forMonth)
                && (excluded.None? || rows[i].id != excluded.value)
  }

  /** What a row adds to `total_collected`/`total_contributed`: its amount if it is PAID and belongs to `ms`. */
  function PaidAmount(r: ContributionRow, ms: set<MembershipId>): int
  {
    if r.status == Paid && r.membership in ms then r.amountPaid else 0
  }

  /**
   * `total_collected` (with `ms` the committee's memberships) and
   * `total_contributed` (with `ms` a single membership): the sum of the
   * amounts of PAID contributions, 0 when there are none.
   */
  function PaidTotal(rows: seq<ContributionRow>, ms: set<MembershipId>): int
  {
    if rows == [] then 0 else PaidAmount(rows[0], ms) + PaidTotal(rows[1..], ms)
  }

  /** What a row adds to the payout bound: its amount if it is PAID or LATE, verified, and of membership `m`. */
  function VerifiedAmount(r: ContributionRow, m: MembershipId): int
  {
    if (r.status == Paid || r.status == Late) && r.verified && r.membership == m then r.amountPaid else 0
  }

  /** The sum `PayoutForm.clean_total_amount` bounds a payout by, 0 when there is nothing to sum. */
  function VerifiedTotal(rows: seq<ContributionRow>, m: MembershipId): int
  {
    if rows == [] then 0 else VerifiedAmount(rows[0], m) + VerifiedTotal(rows[1..], m)
  }

  /** Appending a row adds exactly its own share to the PAID total. */
  lemma {:induction false} PaidTotalAppend(rows: seq<ContributionRow>, r: ContributionRow, ms: set<MembershipId>)
    ensures PaidTotal(rows + [r], ms) == PaidTotal(rows, ms) + PaidAmount(r, ms)
  {
    if rows != [] {
      assert (rows + [r])[1..] == rows[1..] + [r];
      PaidTotalAppend(rows[1..], r, ms);
    }
  }

  /** Replacing one row changes the PAID total by the difference of the two rows' shares. */
  lemma {:induction false} PaidTotalReplace(rows: seq<ContributionRow>, i: nat, r: ContributionRow, ms: set<MembershipId>)
    requires i < |rows|
    ensures PaidTotal(rows[i := r], ms) == PaidTotal(rows, ms) - PaidAmount(rows[i], ms) + PaidAmount(r, ms)
  {
    if i > 0 {
      assert rows[i := r][1..] == rows[1..][i - 1 := r];
      PaidTotalReplace(rows[1..], i - 1, r, ms);
    }
  }

  /** The committee total is the sum of the totals of disjoint groups of its memberships. */
  lemma {:induction false} PaidTotalSplit(rows: seq<ContributionRow>, ms1: set<MembershipId>, ms2: set<MembershipId>)
    requires ms1 !! ms2
    ensures PaidTotal(rows, ms1 + ms2) == PaidTotal(rows, ms1) + PaidTotal(rows, ms2)
  {
    if rows != [] {
      PaidTotalSplit(rows[1..], ms1, ms2);
    }
  }

  /**
   * Only PAID rows count: when none of the rows of `ms` is PAID (in particular
   * when they are all LATE or PENDING, or there are none) the total is 0.
   */
  lemma {:induction false} PaidTotalWithoutPaid(rows: seq<ContributionRow>, ms: set<MembershipId>)
    requires forall i :: 0 <= i < |rows| && rows[i].membership in ms ==> rows[i].status != Paid
    ensures PaidTotal(rows, ms) == 0
  {
    if rows != [] {
      PaidTotalWithoutPaid(rows[1..], ms);
    }
  }

  /** Appending a row adds exactly its own share to the verified total. */
  lemma {:induction false} VerifiedTotalAppend(rows: seq<ContributionRow>, r: ContributionRow, m: MembershipId)
    ensures VerifiedTotal(rows + [r], m) == VerifiedTotal(rows, m) + VerifiedAmount(r, m)
  {
    if rows != [] {
      assert (rows + [r])[1..] == rows[1..] + [r];
      VerifiedTotalAppend(rows[1..], r, m);
    }
  }

  /** Replacing one row changes the verified total by the difference of the two rows' shares. */
  lemma {:induction false} VerifiedTotalReplace(rows: seq<ContributionRow>, i: nat, r: ContributionRow, m: MembershipId)
    requires i < |rows|
    ensures VerifiedTotal(rows[i := r], m) == VerifiedTotal(rows, m) - VerifiedAmount(rows[i], m) + VerifiedAmount(r, m)
  {
    if i > 0 {
      assert rows[i := r][1..] == rows[1..][i - 1 := r];
      VerifiedTotalReplace(rows[1..], i - 1, r, m);
    }
  }

  /** Unverified rows never count towards the payout bound: without verified rows it is 0. */
  lemma {:induction false} VerifiedTotalWithoutVerified(rows: seq<ContributionRow>, m: MembershipId)
    requires forall i :: 0 <= i < |rows| && rows[i].membership == m ==> !rows[i].verified
    ensures VerifiedTotal(rows, m) == 0
  {
    if rows != [] {
      VerifiedTotalWithoutVerified(rows[1..], m);
    }
  }

  /**
   * The rows that survive deleting membership `m`, in their order: the
   * `on_delete=CASCADE` of `Contribution.membership` removes exactly its rows.
   */
  function WithoutMembership(rows: seq<ContributionRow>, m: MembershipId): (r: seq<ContributionRow>)
    ensures |r| <= |rows|
    ensures forall x :: x in r <==> x in rows && x.membership != m
  {
    if rows == [] then [] else (if rows[0].membership == m then [] else [rows[0]]) + WithoutMembership(rows[1..], m)
  }

  /** Deleting a membership takes its PAID amounts out of every total and leaves the other memberships' amounts. */
  lemma {:induction false} PaidTotalWithoutMembership(rows: seq<ContributionRow>, m: MembershipId, ms: set<MembershipId>)
    ensures PaidTotal(WithoutMembership(rows, m), ms) == PaidTotal(rows, ms - {m})
  {
    if rows != [] {
      PaidTotalWithoutMembership(rows[1..], m, ms);
      WithoutMembershipCons(rows, m);
    }
  }

  /** After deleting a membership nothing of it is left to pay out, and the other memberships' bounds are unchanged. */
  lemma {:induction false} VerifiedTotalWithoutMembership(rows: seq<ContributionRow>, m: MembershipId, other: MembershipId)
    ensures VerifiedTotal(WithoutMembership(rows, m), m) == 0
    ensures other != m ==> VerifiedTotal(WithoutMembership(rows, m), other) == VerifiedTotal(rows, other)
  {
    if rows != [] {
      VerifiedTotalWithoutMembership(rows[1..], m, other);
      WithoutMembershipCons(rows, m);
    }
  }

  /** One step of the filter: the first row is dropped or kept, and the rest is filtered. */
  lemma WithoutMembershipCons(rows: seq<ContributionRow>, m: MembershipId)
    requires rows != []
    ensures var r := WithoutMembership(rows, m);
            && (rows[0].membership == m ==> r == WithoutMembership(rows[1..], m))
            && (rows[0].membership != m ==> r != [] && r[0] == rows[0] && r[1..] == WithoutMembership(rows[1..], m))
  {
    var w := WithoutMembership(rows[1..], m);
    if rows[0].membership != m {
      assert ([rows[0]] + w)[1..] == w;
    }
  }

  /** The ledger's invariant survives the cascade. */
  lemma {:induction false} WithoutMembershipValid(rows: seq<ContributionRow>, m: MembershipId, nextId: nat)
    requires LedgerValid(rows, nextId)
    ensures LedgerValid(WithoutMembership(rows, m), nextId)
  {
    if rows != [] {
      var t := rows[1..];
      LedgerValidTail(rows, nextId);
      WithoutMembershipValid(t, m, nextId);
      WithoutMembershipCons(rows, m);
      if rows[0].membership != m {
        var r := WithoutMembership(rows, m);
        forall y | y in r[1..]
          ensures rows[0].id != y.id && (rows[0].membership == y.membership ==> !SameMonth(rows[0].forMonth, y.forMonth))
        {
          var k :| 0 <= k < |t| && t[k] == y;
          assert rows[k + 1] == y;
        }
        LedgerValidCons(r, nextId);
      }
    }
  }

  lemma LedgerValidTail(rows: seq<ContributionRow>, nextId: nat)
    requires rows != [] && LedgerValid(rows, nextId)
    ensures LedgerValid(rows[1..], nextId)
  {
    var t := rows[1..];
    forall i, j | 0 <= i < j < |t|
      ensures t[i].id != t[j].id
      ensures t[i].membership == t[j].membership ==> !SameMonth(t[i].forMonth, t[j].forMonth)
    {
      assert t[i] == rows[i + 1] && t[j] == rows[j + 1];
    }
  }

  lemma LedgerValidCons(r: seq<ContributionRow>, nextId: nat)
    requires r != [] && LedgerValid(r[1..], nextId)
    requires r[0].id < nextId && ValidDate(r[0].forMonth) && r[0].dueDate.Some?
    requires forall y :: y in r[1..] ==> r[0].id != y.id && (r[0].membership == y.membership ==> !SameMonth(r[0].forMonth, y.forMonth))
    ensures LedgerValid(r, nextId)
  {
    var t := r[1..];
    forall i, j | 0 <= i < j < |r|
      ensures r[i].id != r[j].id
      ensures r[i].membership == r[j].membership ==> !SameMonth(r[i].forMonth, r[j].forMonth)
    {
      assert r[j] == t[j - 1];
      if i > 0 {
        assert r[i] == t[i - 1];
      }
    }
    forall i | 0 <= i < |r|
      ensures r[i].id < nextId && ValidDate(r[i].forMonth) && r[i].dueDate.Some?
    {
      if i > 0 {
        assert r[i] == t[i - 1];
      }
    }
  }

  class Contribution {
    const id: ContributionId
    const membership: MembershipId
    var amountPaid: int
    var forMonth: Date
    var dueDate: Option<Date>
    var paymentDate: Option<Date>
    var status: PaymentStatus
    var verified: bool

    /** `for_month` is a real calendar date. */
    ghost predicate Valid()
      reads this
    {
      ValidDate(forMonth)
    }

    /** The row this instance stores. */
    function Row(): ContributionRow
      reads this
    {
      ContributionRow(id, membership, amountPaid, forMonth, dueDate, paymentDate, status, verified)
    }

    /** An instance read from a stored row. */
    constructor Load(row: ContributionRow)
      requires ValidDate(row.forMonth)
      ensures Valid() && Row() == row
    {
      id, membership, amountPaid, forMonth := row.id, row.membership, row.amountPaid, row.forMonth;
      dueDate, paymentDate, status, verified := row.dueDate, row.paymentDate, row.status, row.verified;
    }

    /** The instance the form builds for a new contribution. */
    constructor New(id: ContributionId, membership: MembershipId, amount: int, forMonth: Date)
      requires ValidDate(forMonth)
      ensures Valid() && Row() == NewRow(id, membership, amount, forMonth)
    {
      this.id, this.membership, amountPaid, this.forMonth := id, membership, amount, forMonth;
      dueDate, paymentDate, status, verified := None, None, Pending, false;
    }

    /** `Contribution.clean`. */
    method Clean()
      modifies this
      ensures Row() == old(Row()).(status := CleanedStatus(old(status), paymentDate, dueDate))
    {
      if paymentDate.Some? && dueDate.Some? {
        status := if Before(dueDate.value, paymentDate.value) then Late else Paid;
      }
    }

    /** `Contribution.save`: default the due date to the 5th of the month, then `clean`. */
    method Save()
      requires Valid()
      modifies this
      ensures Valid()
      ensures Row() == SavedRow(old(Row()))
    {
      if dueDate.None? {
        dueDate := Some(Date(forMonth.year, forMonth.month, 5));
      }
      Clean();
    }

    /**
     * The form's validation copies the submitted amount and month into the
     * instance and runs the model's `clean`.
     */
    method Apply(amount: int, month: Date)
      requires ValidDate(month)
      modifies this
      ensures Valid()
      ensures Row() == old(Row()).(amountPaid := amount, forMonth := month, status := CleanedStatus(old(status), paymentDate, dueDate))
    {
      amountPaid, forMonth := amount, month;
      Clean();
    }

    /**
     * `ContributionForm.save(commit=False)`: payment date defaulted to today,
     * PAID or LATE by the due date, auto-verified for an organizer-flagged requester.
     */
    method Prepare(requesterIsOrganizer: bool, today: Date)
      modifies this
      ensures Row() == PreparedRow(old(Row()), requesterIsOrganizer, today)
    {
      if paymentDate.None? {
        paymentDate := Some(today);
      }
      if dueDate.Some? && Before(dueDate.value, paymentDate.value) {
        status := Late;
      } else {
        status := Paid;
      }
      if (status == Paid || status == Late) && requesterIsOrganizer {
        verified := true;
      }
    }

    /** `ContributionForm.save()` with commit: prepare, then `save`. */
    method FormSave(requesterIsOrganizer: bool, today: Date)
      requires Valid()
      modifies this
      ensures Valid()
      ensures Row() == FormSavedRow(old(Row()), requesterIsOrganizer, today)
    {
      Prepare(requesterIsOrganizer, today);
      Save();
    }
  }

  /** One active membership offered by the bulk-recording view, with its committee's monthly amount. */
  datatype BulkEntry = BulkEntry(membership: MembershipId, member: UserId, monthlyAmount: int)

  /** What the bulk-recording view reports for a selected membership it did not record. */
  datatype BulkError =
    | AlreadyRecorded(membership: MembershipId)
    | Rejected(membership: MembershipId, error: ContributionError)

  /** The number of the first `n` entries whose membership was selected. */
  function CountSelected(entries: seq<BulkEntry>, n: nat, selected: set<MembershipId>): (c: nat)
    requires n <= |entries|
    ensures c <= n
  {
    if n == 0 then 0 else CountSelected(entries, n - 1, selected) + (if entries[n - 1].membership in selected then 1 else 0)
  }

  /**
   * The ledger's invariant: primary keys distinct and below `nextId`, at most
   * one contribution per membership and calendar month, every row saved (a
   * due date set) for a real `for_month`.
   */
  ghost predicate LedgerValid(rows: seq<ContributionRow>, nextId: nat)
  {
    && (forall i :: 0 <= i < |rows| ==> rows[i].id < nextId && ValidDate(rows[i].forMonth) && rows[i].dueDate.Some?)
    && (forall i, j :: 0 <= i < j < |rows| ==> rows[i].id != rows[j].id)
    && (forall i, j :: 0 <= i < j < |rows| && rows[i].membership == rows[j].membership ==> !SameMonth(rows[i].forMonth, rows[j].forMonth))
  }

  /** The index of the row with primary key `id`, if any. */
  function IndexOf(rows: seq<ContributionRow>, id: ContributionId): (r: Option<nat>)
    ensures r.Some? ==> r.value < |rows| && rows[r.value].id == id
    ensures r.None? ==> forall i :: 0 <= i < |rows| ==> rows[i].id != id
  {
    if rows == [] then None
    else if rows[0].id == id then Some(0)
    else match IndexOf(rows[1..], id)
      case Some(i) => Some(i + 1)
      case None => None
  }

  /** The first day of the calendar month of `d`: the bulk view's `current_month`. */
  function FirstOfMonth(d: Date): (m: Date)
    requires ValidDate(d)
    ensures ValidDate(m) && m.day == 1 && SameMonth(m, d) && !Before(d, m)
  {
    Date(d.year, d.month, 1)
  }

  /** The memberships that have a contribution in the calendar month of `month`: the bulk view's `contributions_dict`. */
  function Recorded(rows: seq<ContributionRow>, month: Date): (ms: set<MembershipId>)
    ensures forall i :: 0 <= i < |rows| && SameMonth(rows[i].forMonth, month) ==> rows[i].membership in ms
    ensures forall m :: m in ms ==> MonthTaken(rows, m, month, None)
  {
    set i | 0 <= i < |rows| && SameMonth(rows[i].forMonth, month) :: rows[i].membership
  }

  /** The contribution table as a value: its rows and the next primary key. */
  datatype LedgerState = LedgerState(rows: seq<ContributionRow>, nextId: nat)

  /**
   * The row the bulk view's form stores for `e`: the committee's monthly
   * amount for `month`, saved by an organizer on `today`.
   */
  function BulkRow(id: ContributionId, e: BulkEntry, month: Date, today: Date): (r: ContributionRow)
    requires ValidDate(month)
    ensures r.id == id && r.membership == e.membership && r.amountPaid == e.monthlyAmount && r.forMonth == month
    ensures r.paymentDate == Some(today) && r.status != Pending && r.verified
  {
    FormSavedRow(NewRow(id, e.membership, e.monthlyAmount, month), true, today)
  }

  /**
   * One turn of the bulk view's loop for an organizer: a selected membership
   * missing from `recorded` gets a row unless the form finds the month taken.
   */
  function BulkStep(s: LedgerState, e: BulkEntry, selected: set<MembershipId>, recorded: set<MembershipId>, month: Date, today: Date)
    : LedgerState
    requires ValidDate(month)
  {
    if e.membership in selected && e.membership !in recorded && !MonthTaken(s.rows, e.membership, month, None)
    then LedgerState(s.rows + [BulkRow(s.nextId, e, month, today)], s.nextId + 1)
    else s
  }

  /** The ledger after the bulk view's loop has handled the first `n` entries. */
  function BulkAll(s: LedgerState, entries: seq<BulkEntry>, n: nat, selected: set<MembershipId>, recorded: set<MembershipId>,
                   month: Date, today: Date): LedgerState
    requires n <= |entries| && ValidDate(month)
  {
    if n == 0 then s
    else BulkStep(BulkAll(s, entries, n - 1, selected, recorded, month, today), entries[n - 1], selected, recorded, month, today)
  }

  /**
   * The bulk loop only appends, one primary key per row, and every appended
   * row is the bulk row of a selected, not yet recorded entry, for `month`.
   */
  lemma {:induction false} BulkAllAppends(s: LedgerState, entries: seq<BulkEntry>, n: nat, selected: set<MembershipId>,
                                          recorded: set<MembershipId>, month: Date, today: Date)
    requires n <= |entries| && ValidDate(month)
    ensures var r := BulkAll(s, entries, n, selected, recorded, month, today);
            && |s.rows| <= |r.rows| && r.rows[..|s.rows|] == s.rows
            && r.nextId == s.nextId + (|r.rows| - |s.rows|)
            && forall j :: |s.rows| <= j < |r.rows| ==>
                 exists k :: 0 <= k < n && entries[k].membership in selected && entries[k].membership !in recorded
                             && r.rows[j] == BulkRow(s.nextId + (j - |s.rows|), entries[k], month, today)
  {
    if n > 0 {
      BulkAllAppends(s, entries, n - 1, selected, recorded, month, today);
      var p := BulkAll(s, entries, n - 1, selected, recorded, month, today);
      var r := BulkAll(s, entries, n, selected, recorded, month, today);
      var e := entries[n - 1];
      if e.membership in selected && e.membership !in recorded && !MonthTaken(p.rows, e.membership, month, None) {
        assert r.rows == p.rows + [BulkRow(p.nextId, e, month, today)];
        assert r.rows[..|s.rows|] == p.rows[..|s.rows|];
        forall j | |s.rows| <= j < |r.rows|
          ensures exists k :: 0 <= k < n && entries[k].membership in selected && entries[k].membership !in recorded
                              && r.rows[j] == BulkRow(s.nextId + (j - |s.rows|), entries[k], month, today)
        {
          if j < |p.rows| {
            assert r.rows[j] == p.rows[j];
          } else {
            assert r.rows[j] == BulkRow(s.nextId + (j - |s.rows|), entries[n - 1], month, today);
          }
        }
      }
    }
  }

  /**
   * The bulk loop never records a membership twice: the rows it appends carry
   * distinct memberships, none of them with a row in `month` before.
   */
  lemma {:induction false} BulkAllOnce(s: LedgerState, entries: seq<BulkEntry>, n: nat, selected: set<MembershipId>,
                                       recorded: set<MembershipId>, month: Date, today: Date)
    requires n <= |entries| && ValidDate(month)
    ensures var r := BulkAll(s, entries, n, selected, recorded, month, today);
            && (forall j :: |s.rows| <= j < |r.rows| ==> !MonthTaken(s.rows, r.rows[j].membership, month, None))
            && (forall i, j :: |s.rows| <= i < j < |r.rows| ==> r.rows[i].membership != r.rows[j].membership)
  {
    if n > 0 {
      BulkAllOnce(s, entries, n - 1, selected, recorded, month, today);
      BulkAllAppends(s, entries, n - 1, selected, recorded, month, today);
      var p := BulkAll(s, entries, n - 1, selected, recorded, month, today);
      var r := BulkAll(s, entries, n, selected, recorded, month, today);
      if r != p {
        var m := entries[n - 1].membership;
        assert !MonthTaken(p.rows, m, month, None);
        forall i | |s.rows| <= i < |p.rows|
          ensures p.rows[i].membership != m
        {
          assert SameMonth(p.rows[i].forMonth, month);
        }
        forall i | 0 <= i < |s.rows|
          ensures !(s.rows[i].membership == m && SameMonth(s.rows[i].forMonth, month))
        {
          assert s.rows[i] == p.rows[i];
        }
      }
    }
  }

  /**
   * Which memberships the bulk loop records, when `recorded` covers every row
   * already in `month`: exactly the selected ones not recorded that some entry offers.
   */
  lemma {:induction false} BulkAllRecords(s: LedgerState, entries: seq<BulkEntry>, n: nat, selected: set<MembershipId>,
                                          recorded: set<MembershipId>, month: Date, today: Date, m: MembershipId)
    requires n <= |entries| && ValidDate(month)
    requires forall i :: 0 <= i < |s.rows| && SameMonth(s.rows[i].forMonth, month) ==> s.rows[i].membership in recorded
    ensures Appended(s, BulkAll(s, entries, n, selected, recorded, month, today), m) <==>
            m in selected && m !in recorded && exists k :: 0 <= k < n && entries[k].membership == m
  {
    if n > 0 {
      BulkAllRecords(s, entries, n - 1, selected, recorded, month, today, m);
      BulkAllAppends(s, entries, n - 1, selected, recorded, month, today);
      var p := BulkAll(s, entries, n - 1, selected, recorded, month, today);
      var r := BulkAll(s, entries, n, selected, recorded, month, today);
      var e := entries[n - 1];
      if e.membership in selected && e.membership !in recorded && !MonthTaken(p.rows, e.membership, month, None) {
        assert r.rows == p.rows + [BulkRow(p.nextId, e, month, today)];
        AppendedExtend(s, p, r, m);
      } else {
        assert r == p;
        if e.membership == m && m in selected && m !in recorded {
          // The month is taken, and not by an earlier row: by a row this loop appended.
          var i :| 0 <= i < |p.rows| && p.rows[i].membership == m && SameMonth(p.rows[i].forMonth, month);
          assert Appended(s, p, m);
        }
      }
    }
  }

  /**
   * The bulk view records, for a ledger in state `s`, exactly the selected
   * memberships among the entries that have no contribution in today's month.
   */
  lemma BulkRecordsExactly(s: LedgerState, entries: seq<BulkEntry>, selected: set<MembershipId>, today: Date, m: MembershipId)
    requires ValidDate(today)
    ensures var month := FirstOfMonth(today);
            Appended(s, BulkAll(s, entries, |entries|, selected, Recorded(s.rows, month), month, today), m) <==>
            m in selected && !MonthTaken(s.rows, m, month, None) && exists k :: 0 <= k < |entries| && entries[k].membership == m
  {
    var month := FirstOfMonth(today);
    BulkAllRecords(s, entries, |entries|, selected, Recorded(s.rows, month), month, today, m);
  }

  /** Whether a row of `m` lies among the rows `r` has beyond those of `s`. */
  predicate Appended(s: LedgerState, r: LedgerState, m: MembershipId)
  {
    exists j :: |s.rows| <= j < |r.rows| && r.rows[j].membership == m
  }

  lemma AppendedExtend(s: LedgerState, p: LedgerState, r: LedgerState, m: MembershipId)
    requires |s.rows| <= |p.rows| && |r.rows| == |p.rows| + 1 && r.rows[..|p.rows|] == p.rows
    ensures Appended(s, r, m) <==> Appended(s, p, m) || r.rows[|p.rows|].membership == m
  {
    if Appended(s, p, m) {
      var j :| |s.rows| <= j < |p.rows| && p.rows[j].membership == m;
      assert r.rows[j] == r.rows[..|p.rows|][j];
    }
  }

  /** The contribution table. */
  class Ledger {
    var rows: seq<ContributionRow>
    var nextId: ContributionId

    ghost predicate Valid()
      reads this
    {
      LedgerValid(rows, nextId)
    }

    constructor ()
      ensures Valid() && rows == [] && nextId == 0
    {
      rows, nextId := [], 0;
    }

    /** Store a new contribution built and saved by the form. */
    method Record(membership: MembershipId, amount: int, month: Date, requesterIsOrganizer: bool, today: Date)
      returns (row: ContributionRow)
      requires Valid() && ValidDate(month) && !MonthTaken(rows, membership, month, None)
      modifies this
      ensures Valid()
      ensures row == FormSavedRow(NewRow(old(nextId), membership, amount, month), requesterIsOrganizer, today)
      ensures rows == old(rows) + [row] && nextId == old(nextId) + 1
    {
      var c := new Contribution.New(nextId, membership, amount, month);
      c.FormSave(requesterIsOrganizer, today);
      row := c.Row();
      rows := rows + [row];
      nextId := nextId + 1;
    }

    /**
     * The organizer's contribution-create view: only the committee's organizer;
     * the form must be valid; the saved contribution is appended.
     */
    method Create(requester: User, organizer: UserId, membership: MembershipId, member: UserId, monthlyAmount: int,
                  amount: Option<int>, forMonth: Option<Date>, today: Date)
      returns (errors: seq<ContributionError>)
      requires Valid()
      requires forMonth.Some? ==> ValidDate(forMonth.value)
      modifies this
      ensures Valid()
      ensures requester.id != organizer ==> errors == [NotCommitteeOrganizer]
      ensures requester.id == organizer ==>
                errors == FormErrors(amount, forMonth, monthlyAmount, requester, member,
                                     forMonth.Some? && MonthTaken(old(rows), membership, forMonth.value, None), today)
      ensures errors != [] ==> rows == old(rows) && nextId == old(nextId)
      ensures errors == [] ==>
                rows == old(rows) + [FormSavedRow(NewRow(old(nextId), membership, amount.value, forMonth.value), requester.isOrganizer, today)]
      ensures errors == [] ==> nextId == old(nextId) + 1
    {
      if requester.id != organizer {
        return [NotCommitteeOrganizer];
      }
      var taken := forMonth.Some? && MonthTaken(rows, membership, forMonth.value, None);
      errors := FormErrors(amount, forMonth, monthlyAmount, requester, member, taken, today);
      if errors == [] {
        var _ := Record(membership, amount.value, forMonth.value, requester.isOrganizer, today);
      }
    }

    /**
     * The contribution-update view: only the committee's organizer; a PAID
     * contribution is frozen; the form (excluding the edited row from the
     * one-per-month check) must be valid; the edited row is saved in place.
     */
    method Update(requester: User, organizer: UserId, member: UserId, monthlyAmount: int, id: ContributionId,
                  amount: Option<int>, forMonth: Option<Date>, today: Date)
      returns (errors: seq<ContributionError>)
      requires Valid()
      requires forMonth.Some? ==> ValidDate(forMonth.value)
      modifies this
      ensures Valid()
      ensures IndexOf(old(rows), id).None? ==> errors == [ContributionNotFound]
      ensures errors != [] ==> rows == old(rows)
      ensures nextId == old(nextId) && |rows| == |old(rows)|
      ensures IndexOf(old(rows), id).Some? ==>
                var i := IndexOf(old(rows), id).value;
                var old_row := old(rows)[i];
                && (requester.id != organizer ==> errors == [NotCommitteeOrganizer])
                && (requester.id == organizer && old_row.status == Paid ==> errors == [PaidIsFrozen])
                && (requester.id == organizer && old_row.status != Paid ==>
                      errors == FormErrors(amount, forMonth, monthlyAmount, requester, member,
                                           forMonth.Some? && MonthTaken(old(rows), old_row.membership, forMonth.value, Some(id)), today))
                && (errors == [] ==>
                      rows == old(rows)[i := FormSavedRow(old_row.(amountPaid := amount.value, forMonth := forMonth.value,
                                                                    status := CleanedStatus(old_row.status, old_row.paymentDate, old_row.dueDate)),
                                                         requester.isOrganizer, today)])
    {
      var found := IndexOf(rows, id);
      if found.None? {
        return [ContributionNotFound];
      }
      var i := found.value;
      if requester.id != organizer {
        return [NotCommitteeOrganizer];
      }
      if rows[i].status == Paid {
        return [PaidIsFrozen];
      }
      var taken := forMonth.Some? && MonthTaken(rows, rows[i].membership, forMonth.value, Some(id));
      errors := FormErrors(amount, forMonth, monthlyAmount, requester, member, taken, today);
      if errors == [] {
        var c := new Contribution.Load(rows[i]);
        c.Apply(amount.value, forMonth.value);
        c.FormSave(requester.isOrganizer, today);
        rows := rows[i := c.Row()];
      }
    }

    /** The contribution-delete view: only the committee's organizer may delete. */
    method Delete(requester: UserId, organizer: UserId, id: ContributionId) returns (r: Option<ContributionError>)
      requires Valid()
      modifies this
      ensures Valid()
      ensures IndexOf(old(rows), id).None? ==> r == Some(ContributionNotFound)
      ensures IndexOf(old(rows), id).Some? ==> (r.None? <==> requester == organizer)
      ensures r.Some? ==> rows == old(rows)
      ensures r.None? ==> var i := IndexOf(old(rows), id).value; rows == old(rows)[..i] + old(rows)[i + 1..]
    {
      var found := IndexOf(rows, id);
      if found.None? {
        return Some(ContributionNotFound);
      }
      if requester != organizer {
        return Some(NotCommitteeOrganizer);
      }
      var i := found.value;
      rows := rows[..i] + rows[i + 1..];
      r := None;
    }

    /**
     * The contribution-verify view: only the committee's organizer; an already
     * verified contribution is refused; otherwise it is marked verified and saved.
     */
    method Verify(requester: UserId, organizer: UserId, id: ContributionId) returns (r: Option<ContributionError>)
      requires Valid()
      modifies this
      ensures Valid()
      ensures IndexOf(old(rows), id).None? ==> r == Some(ContributionNotFound)
      ensures r.Some? ==> rows == old(rows)
      ensures IndexOf(old(rows), id).Some? ==>
                var i := IndexOf(old(rows), id).value;
                && (r.None? <==> requester == organizer && !old(rows)[i].verified)
                && (r.None? ==> rows == old(rows)[i := SavedRow(old(rows)[i].(verified := true))])
    {
      var found := IndexOf(rows, id);
      if found.None? {
        return Some(ContributionNotFound);
      }
      var i := found.value;
      if requester != organizer {
        return Some(NotCommitteeOrganizer);
      }
      if rows[i].verified {
        return Some(AlreadyVerified);
      }
      var c := new Contribution.Load(rows[i]);
      c.verified := true;
      c.Save();
      rows := rows[i := c.Row()];
      r := None;
    }

    /**
     * The member's own contribution view, as written: the form's save is
     * followed by forcing PENDING, but the `save` that persists the row derives
     * PAID or LATE again from the dates the form filled in.
     */
    method MemberCreate(requester: User, member: UserId, membership: MembershipId, monthlyAmount: int,
                        amount: Option<int>, forMonth: Option<Date>, today: Date)
      returns (errors: seq<ContributionError>)
      requires Valid()
      requires forMonth.Some? ==> ValidDate(forMonth.value)
      modifies this
      ensures Valid()
      ensures requester.id != member ==> errors == [NotOwnMembership]
      ensures errors != [] ==> rows == old(rows) && nextId == old(nextId)
      ensures requester.id == member ==>
                errors == FormErrors(amount, forMonth, monthlyAmount, requester, member,
                                     forMonth.Some? && MonthTaken(old(rows), membership, forMonth.value, None), today)
      ensures errors == [] ==>
                rows == old(rows) + [MemberSubmittedRow(NewRow(old(nextId), membership, amount.value, forMonth.value), requester.isOrganizer, today)]
      ensures errors == [] ==> nextId == old(nextId) + 1
    {
      if requester.id != member {
        return [NotOwnMembership];
      }
      var taken := forMonth.Some? && MonthTaken(rows, membership, forMonth.value, None);
      errors := FormErrors(amount, forMonth, monthlyAmount, requester, member, taken, today);
      if errors == [] {
        var c := new Contribution.New(nextId, membership, amount.value, forMonth.value);
        c.Prepare(requester.isOrganizer, today);
        c.status := Pending;
        c.Save();
        rows := rows + [c.Row()];
        nextId := nextId + 1;
      }
    }

    /**
     * The member's own contribution view as its message intends: the submission
     * is stored PENDING and unverified, awaiting the organizer's verification.
     */
    method MemberCreateForVerification(requester: User, member: UserId, membership: MembershipId, monthlyAmount: int,
                                       amount: Option<int>, forMonth: Option<Date>, today: Date)
      returns (errors: seq<ContributionError>)
      requires Valid()
      requires forMonth.Some? ==> ValidDate(forMonth.value)
      modifies this
      ensures Valid()
      ensures requester.id != member ==> errors == [NotOwnMembership]
      ensures errors != [] ==> rows == old(rows) && nextId == old(nextId)
      ensures requester.id == member ==>
                errors == FormErrors(amount, forMonth, monthlyAmount, requester, member,
                                     forMonth.Some? && MonthTaken(old(rows), membership, forMonth.value, None), today)
      ensures errors == [] ==>
                && rows == old(rows) + [ContributionRow(old(nextId), membership, amount.value, forMonth.value,
                                                        Some(SavedDueDate(None, forMonth.value)), Some(today), Pending, false)]
                && nextId == old(nextId) + 1
      ensures forall ms :: PaidTotal(rows, ms) == PaidTotal(old(rows), ms)
      ensures forall m :: VerifiedTotal(rows, m) == VerifiedTotal(old(rows), m)
    {
      if requester.id != member {
        return [NotOwnMembership];
      }
      var taken := forMonth.Some? && MonthTaken(rows, membership, forMonth.value, None);
      errors := FormErrors(amount, forMonth, monthlyAmount, requester, member, taken, today);
      if errors == [] {
        var due := Some(SavedDueDate(None, forMonth.value));
        var row := ContributionRow(nextId, membership, amount.value, forMonth.value, due, Some(today), Pending, false);
        forall ms: set<MembershipId> ensures PaidTotal(rows + [row], ms) == PaidTotal(rows, ms) {
          PaidTotalAppend(rows, row, ms);
        }
        forall m: MembershipId ensures VerifiedTotal(rows + [row], m) == VerifiedTotal(rows, m) {
          VerifiedTotalAppend(rows, row, m);
        }
        rows := rows + [row];
        nextId := nextId + 1;
      }
    }

    /** The cascade of deleting membership `m`: its contributions are removed, every other row stays in place. */
    method DeleteMembership(m: MembershipId)
      requires Valid()
      modifies this
      ensures Valid()
      ensures rows == WithoutMembership(old(rows), m) && nextId == old(nextId)
    {
      WithoutMembershipValid(rows, m, nextId);
      rows := WithoutMembership(rows, m);
    }

    /**
     * The bulk-recording view: for an organizer-flagged requester, every
     * selected active membership without a contribution for the current month
     * (as of the start of the request) gets one through the form, for the first
     * of the month and the committee's monthly amount; the others are reported.
     */
    method BulkRecord(requester: User, entries: seq<BulkEntry>, selected: set<MembershipId>, today: Date)
      returns (successCount: nat, errors: seq<BulkError>)
      requires Valid() && ValidDate(today)
      modifies this
      ensures Valid()
      ensures !requester.isOrganizer ==> rows == old(rows) && successCount == 0 && errors == []
      ensures requester.isOrganizer ==>
                LedgerState(rows, nextId) == BulkAll(LedgerState(old(rows), old(nextId)), entries, |entries|, selected,
                                                     Recorded(old(rows), FirstOfMonth(today)), FirstOfMonth(today), today)
      ensures |rows| == |old(rows)| + successCount && rows[..|old(rows)|] == old(rows)
      ensures requester.isOrganizer ==> successCount + |errors| == CountSelected(entries, |entries|, selected)
      ensures forall j :: |old(rows)| <= j < |rows| ==>
                && SameMonth(rows[j].forMonth, today) && rows[j].forMonth.day == 1
                && rows[j].paymentDate == Some(today) && rows[j].status != Pending && rows[j].verified
    {
      successCount, errors := 0, [];
      if !requester.isOrganizer {
        return;
      }
      var month := FirstOfMonth(today);
      var recorded := Recorded(rows, month);
      var n := 0;
      while n < |entries|
        invariant 0 <= n <= |entries|
        invariant Valid()
        invariant LedgerState(rows, nextId) == BulkAll(LedgerState(old(rows), old(nextId)), entries, n, selected, recorded, month, today)
        invariant |rows| == |old(rows)| + successCount && rows[..|old(rows)|] == old(rows)
        invariant successCount + |errors| == CountSelected(entries, n, selected)
        invariant forall j :: |old(rows)| <= j < |rows| ==>
                    && rows[j].forMonth == month
                    && rows[j].paymentDate == Some(today) && rows[j].status != Pending && rows[j].verified
      {
        var e := entries[n];
        if e.membership in selected {
          if e.membership !in recorded {
            var taken := MonthTaken(rows, e.membership, month, None);
            var formErrors := FormErrors(Some(e.monthlyAmount), Some(month), e.monthlyAmount, requester, e.member, taken, today);
            var nonFieldError := CleanError(requester, e.member, Some(month), taken, today);
            if formErrors == [] {
              var _ := Record(e.membership, e.monthlyAmount, month, requester.isOrganizer, today);
              successCount := successCount + 1;
            } else if nonFieldError.Some? {
              errors := errors + [Rejected(e.membership, nonFieldError.value)];
            }
          } else {
            errors := errors + [AlreadyRecorded(e.membership)];
          }
        }
        n := n + 1;
      }
    }
  }

  /** `date(m.year, m.month, day)` after clamping `day` to the length of that month. */
  function ClampDay(m: Date, day: int): (d: Date)
    requires 1 <= m.month <= 12 && day >= 1
    ensures ValidDate(d) && SameMonth(d, m) && d.day <= day
    ensures d.day == day || d.day == DaysInMonth(m.year, m.month)
  {
    Date(m.year, m.month, Min(day, DaysInMonth(m.year, m.month)))
  }

  /**
   * The member dashboard's next contribution date: in the month after the
   * last contribution's month (reached by adding 31 days to its `for_month`),
   * or the start date itself when there is none, on the start date's day of
   * the month clamped to that month; if that date has passed, the same step
   * (31 days on, then the first of the month) is taken once more from that
   * base date, clamping the already clamped day.
   */
  method NextContributionDate(lastForMonth: Option<Date>, start: Date, today: Date) returns (next: Date)
    requires ValidDate(start)
    requires lastForMonth.Some? ==> ValidDate(lastForMonth.value)
    ensures ValidDate(next) && next.day <= start.day
    ensures start.day <= 28 ==> next.day == start.day
    ensures var base := if lastForMonth.Some? then NextMonthStart(lastForMonth.value) else start;
            var first := ClampDay(base, start.day);
            && (!Before(first, today) ==> next == first)
            && (Before(first, today) ==> next == ClampDay(NextMonthStart(base), first.day))
    ensures lastForMonth.None? ==> MonthIndex(start) <= MonthIndex(next) <= MonthIndex(start) + 2
  {
    var nextMonth := if lastForMonth.Some? then NextMonthStart(lastForMonth.value) else start;
    var day := start.day;
    var lastDay := DaysInMonth(nextMonth.year, nextMonth.month);
    if day > lastDay {
      day := lastDay;
    }
    next := Date(nextMonth.year, nextMonth.month, day);
    if Before(next, today) {
      NextMonthStartIndex(nextMonth);
      nextMonth := NextMonthStart(nextMonth);
      lastDay := DaysInMonth(nextMonth.year, nextMonth.month);
      if day > lastDay {
        day := lastDay;
      }
      next := Date(nextMonth.year, nextMonth.month, day);
    }
  }

  /**
   * The next contribution date stepping by calendar months: the month right
   * after the last contribution's month whatever its day, then as above.
   */
  method NextContributionDateByMonth(lastForMonth: Option<Date>, start: Date, today: Date) returns (next: Date)
    requires ValidDate(start)
    requires lastForMonth.Some? ==> ValidDate(lastForMonth.value)
    ensures ValidDate(next) && next.day <= start.day
    ensures start.day <= 28 ==> next.day == start.day
    ensures lastForMonth.Some? ==>
              var first := ClampDay(FollowingMonthStart(lastForMonth.value), start.day);
              && (!Before(first, today) ==> next == first && MonthIndex(next) == MonthIndex(lastForMonth.value) + 1)
              && (Before(first, today) ==> MonthIndex(next) == MonthIndex(lastForMonth.value) + 2)
    ensures lastForMonth.None? ==> MonthIndex(start) <= MonthIndex(next) <= MonthIndex(start) + 1
  {
    var nextMonth := if lastForMonth.Some? then FollowingMonthStart(lastForMonth.value) else start;
    var day := start.day;
    var lastDay := DaysInMonth(nextMonth.year, nextMonth.month);
    if day > lastDay {
      day := lastDay;
    }
    next := Date(nextMonth.year, nextMonth.month, day);
    if Before(next, today) {
      nextMonth := FollowingMonthStart(nextMonth);
      lastDay := DaysInMonth(nextMonth.year, nextMonth.month);
      if day > lastDay {
        day := lastDay;
      }
      next := Date(nextMonth.year, nextMonth.month, day);
    }
  }

  /**
   * After a contribution recorded for 31 January, adding 31 days lands on
   * 3 March, so the dashboard proposes 15 March and February is skipped.
   */
  method NextContributionSkipsFebruary() returns (next: Date)
    ensures next == Date(2025, 3, 15)
    ensures MonthIndex(next) == MonthIndex(Date(2025, 1, 31)) + 2
  {
    assert !IsLeapYear(2025) && DaysInMonth(2025, 2) == 28;
    FollowingMonth(Date(2025, 1, 31));
    FollowingMonth(Date(2025, 2, 1));
    assert AddDays(Date(2025, 3, 1), 2) == Date(2025, 3, 3);
    assert AddDays(Date(2025, 2, 1), 30) == AddDays(Date(2025, 3, 1), 2);
    assert AddDays(Date(2025, 1, 31), 31) == AddDays(Date(2025, 2, 1), 30);
    next := NextContributionDate(Some(Date(2025, 1, 31)), Date(2025, 1, 15), Date(2025, 1, 1));
  }

  /**
   * A member whose account carries the organizer flag (every account does at
   * sign-up) submits a contribution on the 2nd of the month: it is stored PAID
   * and verified, and the payout bound of the membership grows by its amount
   * without the committee's organizer having verified anything.
   */
  method MemberSubmissionSelfVerifies() returns (ledger: Ledger, errors: seq<ContributionError>)
    ensures errors == []
    ensures |ledger.rows| == 1 && ledger.rows[0].status == Paid && ledger.rows[0].verified
    ensures VerifiedTotal(ledger.rows, 3) == 10000
  {
    ledger := new Ledger();
    var member := User(9, "member@example.com", true);
    var today := Date(2025, 6, 2);
    errors := ledger.MemberCreate(member, 9, 3, 10000, Some(10000), Some(Date(2025, 6, 1)), today);
    VerifiedTotalAppend([], ledger.rows[0], 3);
  }
}
