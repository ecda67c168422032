/**
 * Payout settlement: the payout form's bound by the verified contributions,
 * the one-payout-per-membership rule, and the `confirmed_at` stamping of the
 * create and update views.
 */
module Payouts {
  import opened Common
  import opened Domain
  import Contributions

  /** A stored payout. `paidAt` and `confirmedAt` are timestamps; amounts are in cents. */
  datatype PayoutRow = PayoutRow(
    id: PayoutId,
    totalAmount: int,
    paidAt: Instant,
    receivedBy: Option<UserId>,
    isConfirmed: bool,
    receivedInCash: bool,
    confirmedAt: Option<Instant>)

  /** The fields the payout form accepts; `totalAmount` is absent when missing or not a number. */
  datatype PayoutSubmission = PayoutSubmission(
    totalAmount: Option<int>,
    receivedBy: Option<UserId>,
    receivedInCash: bool,
    isConfirmed: bool)

  /** Why the payout form or views refuse a request. */
  datatype PayoutError =
    | AmountRequired
    | ExceedsVerified        // more than the membership's verified PAID/LATE contributions
    | ReceiverNotActive      // `received_by` is not an active member of the committee
    | NotCommitteeOrganizer
    | DuplicatePayout
    | PayoutNotFound

  /** `PayoutForm.clean_total_amount`: the amount may not exceed the verified total. */
  function CleanTotalAmount(amount: int, verifiedTotal: int): (r: Option<PayoutError>)
    ensures r.None? <==> amount <= verifiedTotal
    ensures r.Some? ==> r.value == ExceedsVerified
  {
    if amount > verifiedTotal then Some(ExceedsVerified) else None
  }

  /**
   * `PayoutForm.clean`: the requester must own the committee; a new payout is
   * refused when the membership already has one.
   */
  function PayoutCleanError(requester: UserId, organizer: UserId, isNew: bool, payoutExists: bool): (r: Option<PayoutError>)
    ensures r.None? <==> requester == organizer && !(isNew && payoutExists)
    ensures requester != organizer ==> r == Some(NotCommitteeOrganizer)
  {
    if requester != organizer then Some(NotCommitteeOrganizer)
    else if isNew && payoutExists then Some(DuplicatePayout)
    else None
  }

  /**
   * The errors `PayoutForm.is_valid()` collects: the amount's field errors,
   * the receiver's choice error (the choices are the committee's active
   * members), then the error `clean` raises.
   */
  function PayoutFormErrors(s: PayoutSubmission, activeMembers: set<UserId>, verifiedTotal: int,
                            requester: UserId, organizer: UserId, isNew: bool, payoutExists: bool)
    : (errs: seq<PayoutError>)
    ensures errs == [] <==>
              && s.totalAmount.Some? && s.totalAmount.value <= verifiedTotal
              && (s.receivedBy.Some? ==> s.receivedBy.value in activeMembers)
              && requester == organizer && !(isNew && payoutExists)
  {
    var amountErrors := if s.totalAmount.None? then [AmountRequired]
                        else match CleanTotalAmount(s.totalAmount.value, verifiedTotal) case Some(e) => [e] case None => [];
    var receiverErrors := if s.receivedBy.Some? && s.receivedBy.value !in activeMembers then [ReceiverNotActive] else [];
    var cleanErrors := match PayoutCleanError(requester, organizer, isNew, payoutExists) case Some(e) => [e] case None => [];
    amountErrors + receiverErrors + cleanErrors
  }

  /** The row the payout-create view stores: always confirmed, confirmed and paid now. */
  function CreatedRow(id: PayoutId, amount: int, s: PayoutSubmission, now: Instant): (r: PayoutRow)
    ensures r.isConfirmed && r.confirmedAt == Some(now) && r.paidAt == now
    ensures r.totalAmount == amount && r.receivedBy == s.receivedBy && r.receivedInCash == s.receivedInCash
  {
    PayoutRow(id, amount, now, s.receivedBy, true, s.receivedInCash, Some(now))
  }

  /**
   * The row the payout-update view stores: the submitted fields, with
   * `confirmed_at` stamped now only when the payout is confirmed and it was
   * never stamped before.
   */
  function UpdatedRow(r: PayoutRow, amount: int, s: PayoutSubmission, now: Instant): (u: PayoutRow)
    ensures u.id == r.id && u.paidAt == r.paidAt
    ensures u.totalAmount == amount && u.receivedBy == s.receivedBy && u.receivedInCash == s.receivedInCash
    ensures u.isConfirmed == s.isConfirmed
    ensures r.confirmedAt.Some? ==> u.confirmedAt == r.confirmedAt
    ensures r.confirmedAt.None? ==> u.confirmedAt == (if s.isConfirmed then Some(now) else None)
  {
    var stamped := if s.isConfirmed && r.confirmedAt.None? then Some(now) else r.confirmedAt;
    r.(totalAmount := amount, receivedBy := s.receivedBy, receivedInCash := s.receivedInCash,
       isConfirmed := s.isConfirmed, confirmedAt := stamped)
  }

  /** A confirmed payout carries its confirmation time. */
  predicate ConfirmationStamped(r: PayoutRow)
  {
    r.isConfirmed ==> r.confirmedAt.Some?
  }

  /**
   * Updates keep a confirmed payout stamped, and once stamped the time of the
   * first confirmation survives any number of updates, even one that clears
   * the confirmation.
   */
  lemma {:induction false} UpdatesKeepFirstConfirmation(r: PayoutRow, amounts: seq<int>, subs: seq<PayoutSubmission>, times: seq<Instant>)
    requires |amounts| == |subs| == |times|
    requires ConfirmationStamped(r)
    ensures ConfirmationStamped(ApplyUpdates(r, amounts, subs, times))
    ensures r.confirmedAt.Some? ==> ApplyUpdates(r, amounts, subs, times).confirmedAt == r.confirmedAt
  {
    if |amounts| > 0 {
      var n := |amounts| - 1;
      UpdatesKeepFirstConfirmation(r, amounts[..n], subs[..n], times[..n]);
    }
  }

  /** The row after a series of successful updates. */
  function ApplyUpdates(r: PayoutRow, amounts: seq<int>, subs: seq<PayoutSubmission>, times: seq<Instant>): PayoutRow
    requires |amounts| == |subs| == |times|
  {
    if |amounts| == 0 then r
    else
      var n := |amounts| - 1;
      UpdatedRow(ApplyUpdates(r, amounts[..n], subs[..n], times[..n]), amounts[n], subs[n], times[n])
  }

  class Payout {
    const id: PayoutId
    var totalAmount: int
    var paidAt: Instant
    var receivedBy: Option<UserId>
    var isConfirmed: bool
    var receivedInCash: bool
    var confirmedAt: Option<Instant>

    function Row(): PayoutRow
      reads this
    {
      PayoutRow(id, totalAmount, paidAt, receivedBy, isConfirmed, receivedInCash, confirmedAt)
    }

    /** An instance read from a stored row. */
    constructor Load(row: PayoutRow)
      ensures Row() == row
    {
      id, totalAmount, paidAt, receivedBy := row.id, row.totalAmount, row.paidAt, row.receivedBy;
      isConfirmed, receivedInCash, confirmedAt := row.isConfirmed, row.receivedInCash, row.confirmedAt;
    }

    /** The instance the form builds for a new payout, `paid_at` filled in by the insert. */
    constructor New(id: PayoutId, amount: int, s: PayoutSubmission, now: Instant)
      ensures Row() == PayoutRow(id, amount, now, s.receivedBy, s.isConfirmed, s.receivedInCash, None)
    {
      this.id, totalAmount, paidAt, receivedBy := id, amount, now, s.receivedBy;
      isConfirmed, receivedInCash, confirmedAt := s.isConfirmed, s.receivedInCash, None;
    }

    /** The form's validation copies the submitted fields into the instance. */
    method Apply(amount: int, s: PayoutSubmission)
      modifies this
      ensures Row() == old(Row()).(totalAmount := amount, receivedBy := s.receivedBy,
                                   receivedInCash := s.receivedInCash, isConfirmed := s.isConfirmed)
    {
      totalAmount, receivedBy, receivedInCash, isConfirmed := amount, s.receivedBy, s.receivedInCash, s.isConfirmed;
    }

    /** `PayoutForm.save(commit=False)`: stamp `confirmed_at` on a confirmed payout that has none. */
    method Prepare(now: Instant)
      modifies this
      ensures isConfirmed && old(confirmedAt).None? ==> confirmedAt == Some(now)
      ensures !(isConfirmed && old(confirmedAt).None?) ==> confirmedAt == old(confirmedAt)
      ensures Row() == old(Row()).(confirmedAt := confirmedAt)
    {
      if isConfirmed && confirmedAt.None? {
        confirmedAt := Some(now);
      }
    }
  }

  /** The payout table; a membership has at most one payout, so payouts are addressed by their membership. */
  class PayoutBook {
    var payouts: map<MembershipId, PayoutRow>
    var nextId: PayoutId

    ghost predicate Valid()
      reads this
    {
      forall m :: m in payouts ==> payouts[m].id < nextId && ConfirmationStamped(payouts[m])
    }

    constructor ()
      ensures Valid() && payouts == map[] && nextId == 0
    {
      payouts, nextId := map[], 0;
    }

    /** The cascade of deleting membership `m`: its payout, if any, is removed. */
    method DeleteMembership(m: MembershipId)
      requires Valid()
      modifies this
      ensures Valid()
      ensures payouts == old(payouts) - {m} && nextId == old(nextId)
    {
      payouts := payouts - {m};
    }

    /**
     * The payout-create view: only the committee's organizer; the form must be
     * valid (amount within the verified total, no payout yet); the payout is
     * then stored confirmed, with `confirmed_at` now.
     */
    method Create(requester: UserId, organizer: UserId, membership: MembershipId, s: PayoutSubmission,
                  contributions: seq<Contributions.ContributionRow>, activeMembers: set<UserId>, now: Instant)
      returns (errors: seq<PayoutError>)
      requires Valid()
      modifies this
      ensures Valid()
      ensures requester != organizer ==> errors == [NotCommitteeOrganizer]
      ensures requester == organizer ==>
                errors == PayoutFormErrors(s, activeMembers, Contributions.VerifiedTotal(contributions, membership),
                                           requester, organizer, true, membership in old(payouts))
      ensures errors != [] ==> payouts == old(payouts)
      ensures errors == [] ==> membership !in old(payouts)
      ensures errors == [] ==> payouts == old(payouts)[membership := CreatedRow(old(nextId), s.totalAmount.value, s, now)]
      ensures errors == [] ==> payouts[membership].totalAmount <= Contributions.VerifiedTotal(contributions, membership)
    {
      if requester != organizer {
        return [NotCommitteeOrganizer];
      }
      errors := PayoutFormErrors(s, activeMembers, Contributions.VerifiedTotal(contributions, membership),
                                 requester, organizer, true, membership in payouts);
      if errors == [] {
        var p := new Payout.New(nextId, s.totalAmount.value, s, now);
        p.Prepare(now);
        p.isConfirmed := true;
        p.confirmedAt := Some(now);
        payouts := payouts[membership := p.Row()];
        nextId := nextId + 1;
      }
    }

    /**
     * The payout-update view: only the committee's organizer; the form must be
     * valid; the submitted fields are stored, and `confirmed_at` is stamped
     * only on a payout that is confirmed and was never stamped.
     */
    method Update(requester: UserId, organizer: UserId, membership: MembershipId, s: PayoutSubmission,
                  contributions: seq<Contributions.ContributionRow>, activeMembers: set<UserId>, now: Instant)
      returns (errors: seq<PayoutError>)
      requires Valid()
      modifies this
      ensures Valid()
      ensures membership !in old(payouts) ==> errors == [PayoutNotFound]
      ensures membership in old(payouts) && requester != organizer ==> errors == [NotCommitteeOrganizer]
      ensures membership in old(payouts) && requester == organizer ==>
                errors == PayoutFormErrors(s, activeMembers, Contributions.VerifiedTotal(contributions, membership),
                                           requester, organizer, false, true)
      ensures errors != [] ==> payouts == old(payouts)
      ensures errors == [] ==>
                payouts == old(payouts)[membership := UpdatedRow(old(payouts)[membership], s.totalAmount.value, s, now)]
      ensures nextId == old(nextId)
    {
      if membership !in payouts {
        return [PayoutNotFound];
      }
      if requester != organizer {
        return [NotCommitteeOrganizer];
      }
      errors := PayoutFormErrors(s, activeMembers, Contributions.VerifiedTotal(contributions, membership),
                                 requester, organizer, false, true);
      if errors == [] {
        var p := new Payout.Load(payouts[membership]);
        p.Apply(s.totalAmount.value, s);
        p.Prepare(now);
        // The view's own unconfirmed-to-confirmed test reads the instance the
        // form has already updated (its confirmation flag equals the submitted
        // one), so it can never fire and is not repeated here.
        payouts := payouts[membership := p.Row()];
      }
    }

    /** The payout-delete view: only the committee's organizer may delete. */
    method Delete(requester: UserId, organizer: UserId, membership: MembershipId) returns (r: Option<PayoutError>)
      requires Valid()
      modifies this
      ensures Valid()
      ensures membership !in old(payouts) ==> r == Some(PayoutNotFound)
      ensures membership in old(payouts) ==> (r.None? <==> requester == organizer)
      ensures r.Some? ==> payouts == old(payouts)
      ensures r.None? ==> payouts == old(payouts) - {membership}
    {
      if membership !in payouts {
        return Some(PayoutNotFound);
      }
      if requester != organizer {
        return Some(NotCommitteeOrganizer);
      }
      payouts := payouts - {membership};
      r := None;
    }
  }
}
