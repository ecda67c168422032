/**
 * Committee lifecycle: the derived end date, automatic completion on save,
 * deactivate/reactivate, the update view's end-date recomputation and the
 * status toggle view.
 */
module Committees {
  import opened Common
  import opened Dates
  import opened Domain

  datatype Status = Active | Deactivated | Completed

  /** Why a committee form or view refuses a request. */
  datatype CommitteeError =
    | OrganizerRoleRequired   // the requester's organizer flag is not set
    | NotCommitteeOrganizer   // the requester does not own this committee

  /** What the status toggle view reports. */
  datatype ToggleOutcome =
    | Refused(reason: CommitteeError)
    | CannotModifyCompleted
    | DeactivateSucceeded
    | DeactivateFailed
    | ReactivateSucceeded
    | ReactivateFailed

  /** `is_completed`: an end date is set and lies before today. */
  predicate PastEnd(endDate: Option<Date>, today: Date)
  {
    endDate.Some? && Before(endDate.value, today)
  }

  /**
   * The end date `save` leaves behind: a set end date is never recomputed; an
   * unset one becomes `start_date + relativedelta(months=duration_months)`.
   */
  function SavedEndDate(endDate: Option<Date>, start: Date, duration: nat): (e: Date)
    requires ValidDate(start)
    requires endDate.Some? ==> ValidDate(endDate.value)
    ensures ValidDate(e)
    ensures endDate.Some? ==> e == endDate.value
    ensures endDate.None? ==> e == AddMonths(start, duration)
    ensures endDate.None? ==> MonthIndex(e) == MonthIndex(start) + duration && e.day == Min(start.day, DaysInMonth(e.year, e.month))
    ensures endDate.None? && duration >= 1 ==> Before(start, e)
  {
    if endDate.Some? then endDate.value
    else
      var e := AddMonths(start, duration);
      if duration >= 1 then AddMonthsAdvances(start, duration); e else e
  }

  /** The status `save` leaves behind: only an ACTIVE committee whose end date has passed is completed. */
  function SavedStatus(status: Status, endDate: Date, today: Date): Status
  {
    if status == Active && Before(endDate, today) then Completed else status
  }

  /** The status the toggle view leaves behind, after its own `save`. */
  function ToggledStatus(status: Status, endDate: Date, today: Date): Status
  {
    match SavedStatus(status, endDate, today)
    case Completed => Completed
    case Active => Deactivated
    case Deactivated => if Before(endDate, today) then Deactivated else Active
  }

  /** `CommitteeForm.clean`: the requester must hold the organizer role and, when editing, own the committee. */
  function CommitteeFormClean(requester: User, existingOrganizer: Option<UserId>): (r: Option<CommitteeError>)
    ensures r.None? <==> requester.isOrganizer && (existingOrganizer.None? || existingOrganizer.value == requester.id)
  {
    if !requester.isOrganizer then Some(OrganizerRoleRequired)
    else if existingOrganizer.Some? && existingOrganizer.value != requester.id then Some(NotCommitteeOrganizer)
    else None
  }

  /** Saving twice is the same as saving once, and a completed committee stays completed. */
  lemma SaveIsIdempotent(status: Status, endDate: Date, today: Date)
    ensures SavedStatus(SavedStatus(status, endDate, today), endDate, today) == SavedStatus(status, endDate, today)
    ensures SavedStatus(Completed, endDate, today) == Completed
    ensures ToggledStatus(Completed, endDate, today) == Completed
  {
  }

  /**
   * A committee deactivated before its end date can never leave DEACTIVATED once
   * that date has passed: `save` only completes ACTIVE committees, and
   * reactivation refuses a committee past its end date.
   */
  lemma DeactivatedPastEndIsStuck(endDate: Date, today: Date)
    requires Before(endDate, today)
    ensures SavedStatus(Deactivated, endDate, today) == Deactivated
    ensures ToggledStatus(Deactivated, endDate, today) == Deactivated
  {
  }

  /** Before the end date the toggle view flips between ACTIVE and DEACTIVATED and back. */
  lemma ToggleTwiceRestores(status: Status, endDate: Date, today: Date)
    requires status != Completed && !Before(endDate, today)
    ensures ToggledStatus(status, endDate, today) != status
    ensures ToggledStatus(ToggledStatus(status, endDate, today), endDate, today) == status
  {
  }

  class Committee {
    const id: CommitteeId
    /** The owner; ownership never changes. */
    const organizer: UserId
    /** `monthly_amount`, in cents. */
    var monthlyAmount: int
    var durationMonths: nat
    var startDate: Date
    var endDate: Option<Date>
    var status: Status

    /** The stored dates are real calendar dates. */
    ghost predicate Valid()
      reads this
    {
      ValidDate(startDate) && (endDate.Some? ==> ValidDate(endDate.value))
    }

    /** `CommitteeForm.save` for a new committee: the requester becomes its organizer, then `save` runs. */
    constructor Create(id: CommitteeId, requester: User, monthlyAmount: int, durationMonths: nat, startDate: Date, today: Date)
      requires ValidDate(startDate)
      ensures Valid()
      ensures this.id == id && organizer == requester.id
      ensures this.monthlyAmount == monthlyAmount && this.durationMonths == durationMonths && this.startDate == startDate
      ensures endDate == Some(AddMonths(startDate, durationMonths))
      ensures status == SavedStatus(Active, endDate.value, today)
    {
      this.id := id;
      organizer := requester.id;
      this.monthlyAmount := monthlyAmount;
      this.durationMonths := durationMonths;
      this.startDate := startDate;
      endDate := None;
      status := Active;
      new;
      Save(today);
    }

    /** `is_completed`. */
    function IsCompleted(today: Date): bool
      reads this
    {
      PastEnd(endDate, today)
    }

    /** `Committee.save`: derive an unset end date, then complete an ACTIVE committee whose end date has passed. */
    method Save(today: Date)
      requires Valid()
      modifies this
      ensures Valid()
      ensures endDate == Some(SavedEndDate(old(endDate), startDate, durationMonths))
      ensures status == SavedStatus(old(status), endDate.value, today)
      ensures startDate == old(startDate) && durationMonths == old(durationMonths)
      ensures monthlyAmount == old(monthlyAmount)
    {
      if endDate.None? {
        endDate := Some(AddMonths(startDate, durationMonths));
      }
      if status == Active && endDate.Some? && Before(endDate.value, today) {
        status := Completed;
      }
    }

    /** `deactivate`: only an ACTIVE committee that is not completed becomes DEACTIVATED (and is saved). */
    method Deactivate(today: Date) returns (ok: bool)
      requires Valid()
      modifies this
      ensures Valid()
      ensures ok == (old(status) == Active && !PastEnd(old(endDate), today))
      ensures ok ==> status == Deactivated && endDate == Some(SavedEndDate(old(endDate), startDate, durationMonths))
      ensures !ok ==> status == old(status) && endDate == old(endDate)
      ensures startDate == old(startDate) && durationMonths == old(durationMonths)
      ensures monthlyAmount == old(monthlyAmount)
    {
      if status == Active && !IsCompleted(today) {
        status := Deactivated;
        Save(today);
        return true;
      }
      return false;
    }

    /**
     * `reactivate`: only a DEACTIVATED committee that is not completed becomes
     * ACTIVE; the `save` that follows completes it at once if its end date was
     * unset and is derived in the past.
     */
    method Reactivate(today: Date) returns (ok: bool)
      requires Valid()
      modifies this
      ensures Valid()
      ensures ok == (old(status) == Deactivated && !PastEnd(old(endDate), today))
      ensures ok ==> endDate == Some(SavedEndDate(old(endDate), startDate, durationMonths))
      ensures ok ==> status == SavedStatus(Active, endDate.value, today)
      ensures ok && old(endDate).Some? ==> status == Active
      ensures !ok ==> status == old(status) && endDate == old(endDate)
      ensures startDate == old(startDate) && durationMonths == old(durationMonths)
      ensures monthlyAmount == old(monthlyAmount)
    {
      if status == Deactivated && !IsCompleted(today) {
        status := Active;
        Save(today);
        return true;
      }
      return false;
    }

    /**
     * The update view: the owner edits amount, start date and duration; the end
     * date is recomputed from the new values only when the start date or the
     * duration changed, and the committee is then saved.
     */
    method Update(requester: User, monthlyAmount: int, startDate: Date, durationMonths: nat, today: Date)
      returns (r: Option<CommitteeError>)
      requires Valid() && ValidDate(startDate)
      modifies this
      ensures Valid()
      ensures r.None? <==> requester.id == organizer && requester.isOrganizer
      ensures r.Some? ==> unchanged(this)
      ensures r.None? ==> this.monthlyAmount == monthlyAmount && this.startDate == startDate && this.durationMonths == durationMonths
      ensures r.None? && (startDate != old(this.startDate) || durationMonths != old(this.durationMonths)) ==>
                endDate == Some(AddMonths(startDate, durationMonths))
      ensures r.None? && startDate == old(this.startDate) && durationMonths == old(this.durationMonths) ==>
                endDate == Some(SavedEndDate(old(endDate), startDate, durationMonths))
      ensures r.None? ==> status == SavedStatus(old(status), endDate.value, today)
    {
      if requester.id != organizer {
        return Some(NotCommitteeOrganizer);
      }
      r := CommitteeFormClean(requester, Some(organizer));
      if r.Some? {
        return;
      }
      var changed := startDate != this.startDate || durationMonths != this.durationMonths;
      this.monthlyAmount, this.startDate, this.durationMonths := monthlyAmount, startDate, durationMonths;
      if changed {
        endDate := Some(AddMonths(startDate, durationMonths));
        if status == Active && endDate.Some? && Before(endDate.value, today) {
          status := Completed;
        }
      }
      Save(today);
    }

    /**
     * The status toggle view: save (which may complete the committee), refuse a
     * completed committee, otherwise deactivate an ACTIVE one or reactivate a
     * DEACTIVATED one.
     */
    method Toggle(requester: UserId, today: Date) returns (r: ToggleOutcome)
      requires Valid()
      modifies this
      ensures Valid()
      ensures requester != organizer ==> r == Refused(NotCommitteeOrganizer) && unchanged(this)
      ensures requester == organizer ==> endDate == Some(SavedEndDate(old(endDate), startDate, durationMonths))
      ensures requester == organizer ==> status == ToggledStatus(old(status), endDate.value, today)
      ensures requester == organizer ==>
                r == match SavedStatus(old(status), endDate.value, today)
                     case Completed => CannotModifyCompleted
                     case Active => DeactivateSucceeded
                     case Deactivated => if Before(endDate.value, today) then ReactivateFailed else ReactivateSucceeded
      ensures monthlyAmount == old(monthlyAmount) && startDate == old(startDate) && durationMonths == old(durationMonths)
    {
      if requester != organizer {
        return Refused(NotCommitteeOrganizer);
      }
      Save(today);
      if status == Completed {
        return CannotModifyCompleted;
      }
      if status == Active {
        var ok := Deactivate(today);
        r := if ok then DeactivateSucceeded else DeactivateFailed;
      } else {
        var ok := Reactivate(today);
        r := if ok then ReactivateSucceeded else ReactivateFailed;
      }
    }
  }
}
