/**
 * Membership lifecycle: the `left_at` save hook, the membership form, and the
 * membership table with its one-row-per-(committee, member) key, which the
 * add-members view and invitation acceptance write to.
 */
module Memberships {
  import opened Common
  import opened Dates
  import opened Domain
  import Committees

  datatype Status = Active | Left | Removed

  /** The unique key of the membership table: one row per (committee, member) pair. */
  datatype MembershipKey = MembershipKey(committee: CommitteeId, member: UserId)

  /** A stored membership row (its key is the table's key). */
  datatype MembershipRow = MembershipRow(id: MembershipId, status: Status, joinedAt: Instant, leftAt: Option<Instant>)

  /** Why the membership form or views refuse a request. */
  datatype MembershipError =
    | NotCommitteeOrganizer
    | AlreadyActive
    | OrganizerAsMember
    | MembershipNotFound
    | NoMembersSelected

  /**
   * The `left_at` that `Membership.save` leaves behind: set to now when the
   * member has left or been removed and it was unset, kept when already set,
   * cleared when the membership is ACTIVE.
   */
  function SavedLeftAt(status: Status, leftAt: Option<Instant>, now: Instant): (r: Option<Instant>)
    ensures r.None? <==> status == Active
    ensures status != Active && leftAt.Some? ==> r == leftAt
    ensures status != Active && leftAt.None? ==> r == Some(now)
  {
    if status == Active then None
    else if leftAt.None? then Some(now)
    else leftAt
  }

  /**
   * The cleaned data of the membership form. The form declares only the
   * `status` field, so `committee` (given by its organizer) and `member` are
   * present only if some other path put them there.
   */
  datatype MembershipFormData = MembershipFormData(committeeOrganizer: Option<UserId>, member: Option<UserId>, status: Status)

  /** The cleaned data the form as declared produces: only `status`. */
  function DeclaredFormData(status: Status): MembershipFormData
  {
    MembershipFormData(None, None, status)
  }

  /**
   * `MembershipForm.clean`: ownership, duplicate-active and self-membership
   * checks, each only when the fields it reads are present.
   * `instanceIsNone` and `activeRowExists` stand for `self.instance is None`
   * and the existence query for an ACTIVE row of the pair. A model form
   * always has an instance (a fresh one when none is passed), so
   * `self.instance is None` never holds and the duplicate-active check is
   * dead even when `committee` and `member` are present; the views therefore
   * pass `false` for `instanceIsNone`.
   */
  function MembershipFormClean(data: MembershipFormData, requester: UserId, instanceIsNone: bool, activeRowExists: bool)
    : (r: Option<MembershipError>)
    ensures r == Some(NotCommitteeOrganizer) <==> data.committeeOrganizer.Some? && data.committeeOrganizer.value != requester
    ensures r == Some(AlreadyActive) <==>
              && (data.committeeOrganizer.Some? ==> data.committeeOrganizer.value == requester)
              && instanceIsNone && data.committeeOrganizer.Some? && data.member.Some? && data.status == Active && activeRowExists
    ensures r == Some(OrganizerAsMember) <==>
              && (data.committeeOrganizer.Some? ==> data.committeeOrganizer.value == requester)
              && !(instanceIsNone && data.member.Some? && data.status == Active && activeRowExists)
              && data.member.Some? && data.member == data.committeeOrganizer
    ensures r.None? <==>
              && (data.committeeOrganizer.Some? ==> data.committeeOrganizer.value == requester)
              && !(instanceIsNone && data.committeeOrganizer.Some? && data.member.Some? && data.status == Active && activeRowExists)
              && !(data.member.Some? && data.member == data.committeeOrganizer)
  {
    if data.committeeOrganizer.Some? && data.committeeOrganizer.value != requester then Some(NotCommitteeOrganizer)
    else if instanceIsNone && data.committeeOrganizer.Some? && data.member.Some? && data.status == Active && activeRowExists then Some(AlreadyActive)
    else if data.member.Some? && data.committeeOrganizer.Some? && data.member.value == data.committeeOrganizer.value then Some(OrganizerAsMember)
    else None
  }

  /**
   * As declared, the form's clean accepts every submission: neither the
   * duplicate check nor the self-membership check can ever fire.
   */
  lemma DeclaredFormNeverRejects(status: Status, requester: UserId, instanceIsNone: bool, activeRowExists: bool)
    ensures MembershipFormClean(DeclaredFormData(status), requester, instanceIsNone, activeRowExists).None?
  {
  }

  class Membership {
    const id: MembershipId
    const committee: CommitteeId
    const member: UserId
    const joinedAt: Instant
    var status: Status
    var leftAt: Option<Instant>

    /** An instance read from the row stored under `key`. */
    constructor Load(key: MembershipKey, row: MembershipRow)
      ensures Key() == key && Row() == row
    {
      id, committee, member := row.id, key.committee, key.member;
      joinedAt, status, leftAt := row.joinedAt, row.status, row.leftAt;
    }

    /** A new instance with the model's defaults: ACTIVE, joined now, never left. */
    constructor New(id: MembershipId, key: MembershipKey, now: Instant)
      ensures Key() == key && Row() == MembershipRow(id, Active, now, None)
    {
      this.id, committee, member := id, key.committee, key.member;
      joinedAt, status, leftAt := now, Active, None;
    }

    function Key(): MembershipKey
    {
      MembershipKey(committee, member)
    }

    /** The row this instance stores. */
    function Row(): MembershipRow
      reads this
    {
      MembershipRow(id, status, joinedAt, leftAt)
    }

    /** `Membership.save`: keep `left_at` in step with the status. */
    method Save(now: Instant)
      modifies this
      ensures status == old(status)
      ensures leftAt == SavedLeftAt(status, old(leftAt), now)
    {
      if (status == Left || status == Removed) && leftAt.None? {
        leftAt := Some(now);
      } else if status == Active {
        leftAt := None;
      }
    }

    /**
     * `MembershipForm.save`: assign the submitted status; a changed status of
     * LEFT or REMOVED restamps `left_at` with now; then `save`.
     */
    method FormSave(newStatus: Status, now: Instant)
      modifies this
      ensures status == newStatus
      ensures newStatus == Active ==> leftAt.None?
      ensures newStatus != Active && newStatus != old(status) ==> leftAt == Some(now)
      ensures newStatus != Active && newStatus == old(status) ==> leftAt == SavedLeftAt(newStatus, old(leftAt), now)
    {
      var changed := newStatus != status;
      status := newStatus;
      if changed && (status == Left || status == Removed) {
        leftAt := Some(now);
      }
      Save(now);
    }
  }

  /** The number of the first `n` entries of `ids` that name an existing user. */
  function CountKnown(ids: seq<UserId>, n: nat, users: set<UserId>): (c: nat)
    requires n <= |ids|
    ensures c <= n
    ensures (forall i :: 0 <= i < n ==> ids[i] in users) ==> c == n
  {
    if n == 0 then 0 else CountKnown(ids, n - 1, users) + (if ids[n - 1] in users then 1 else 0)
  }

  /** The contents of the membership table: its rows and the next primary key to hand out. */
  datatype Table = Table(rows: map<MembershipKey, MembershipRow>, nextId: nat)

  /**
   * Primary keys are distinct and below `nextId`, and `left_at` is set exactly
   * when a row is not ACTIVE (what `Membership.save` keeps).
   */
  ghost predicate TableValid(t: Table)
  {
    && (forall k :: k in t.rows ==> t.rows[k].id < t.nextId)
    && (forall k1, k2 :: k1 in t.rows && k2 in t.rows && k1 != k2 ==> t.rows[k1].id != t.rows[k2].id)
    && (forall k :: k in t.rows ==> (t.rows[k].status == Active <==> t.rows[k].leftAt.None?))
  }

  /** The table after `Membership.objects.create` of an ACTIVE row for a key not yet present. */
  function Inserted(t: Table, key: MembershipKey, now: Instant): Table
  {
    Table(t.rows[key := MembershipRow(t.nextId, Active, now, None)], t.nextId + 1)
  }

  /** Creating a row under a fresh key and a fresh primary key keeps the table valid. */
  lemma InsertedValid(t: Table, key: MembershipKey, now: Instant)
    requires TableValid(t) && key !in t.rows
    ensures TableValid(Inserted(t, key, now))
    ensures |Inserted(t, key, now).rows| == |t.rows| + 1
  {
  }

  /**
   * One step of the add-members view for the submitted id `u`: a known user
   * without a row in the committee gets one; otherwise nothing changes.
   */
  function AddStep(t: Table, committee: CommitteeId, u: UserId, users: set<UserId>, now: Instant): Table
  {
    var key := MembershipKey(committee, u);
    if u in users && key !in t.rows then Inserted(t, key, now) else t
  }

  /** The table after the add-members view has processed the first `n` submitted ids. */
  function AddAll(t: Table, committee: CommitteeId, ids: seq<UserId>, n: nat, users: set<UserId>, now: Instant): Table
    requires n <= |ids|
  {
    if n == 0 then t else AddStep(AddAll(t, committee, ids, n - 1, users, now), committee, ids[n - 1], users, now)
  }

  /**
   * After the add-members view the table holds a row for a key exactly when it
   * held one before or the key pairs the committee with a submitted, existing user.
   */
  lemma {:induction false} AddAllKeys(t: Table, committee: CommitteeId, ids: seq<UserId>, n: nat, users: set<UserId>, now: Instant, k: MembershipKey)
    requires n <= |ids|
    ensures k in AddAll(t, committee, ids, n, users, now).rows <==>
              k in t.rows || (k.committee == committee && k.member in users && k.member in ids[..n])
  {
    if n > 0 {
      AddAllKeys(t, committee, ids, n - 1, users, now, k);
      assert ids[..n] == ids[..n - 1] + [ids[n - 1]];
    }
  }

  /** The add-members view never alters or removes an existing row. */
  lemma {:induction false} AddAllKeepsRows(t: Table, committee: CommitteeId, ids: seq<UserId>, n: nat, users: set<UserId>, now: Instant, k: MembershipKey)
    requires n <= |ids| && k in t.rows
    ensures k in AddAll(t, committee, ids, n, users, now).rows
    ensures AddAll(t, committee, ids, n, users, now).rows[k] == t.rows[k]
  {
    if n > 0 {
      AddAllKeepsRows(t, committee, ids, n - 1, users, now, k);
    }
  }

  /** Every row the add-members view creates is ACTIVE, joined now and never left. */
  lemma {:induction false} AddAllNewRows(t: Table, committee: CommitteeId, ids: seq<UserId>, n: nat, users: set<UserId>, now: Instant, k: MembershipKey)
    requires n <= |ids|
    requires k in AddAll(t, committee, ids, n, users, now).rows && k !in t.rows
    ensures AddAll(t, committee, ids, n, users, now).rows[k] == MembershipRow(AddAll(t, committee, ids, n, users, now).rows[k].id, Active, now, None)
  {
    if n > 0 {
      var prev := AddAll(t, committee, ids, n - 1, users, now);
      if k in prev.rows {
        AddAllNewRows(t, committee, ids, n - 1, users, now, k);
      }
    }
  }

  /**
   * The add-members view keeps the table valid and creates exactly one row per
   * primary key it hands out.
   */
  lemma {:induction false} AddAllValid(t: Table, committee: CommitteeId, ids: seq<UserId>, n: nat, users: set<UserId>, now: Instant)
    requires n <= |ids| && TableValid(t)
    ensures var r := AddAll(t, committee, ids, n, users, now);
            TableValid(r) && t.nextId <= r.nextId && |r.rows| == |t.rows| + (r.nextId - t.nextId)
  {
    if n > 0 {
      AddAllValid(t, committee, ids, n - 1, users, now);
      var prev := AddAll(t, committee, ids, n - 1, users, now);
      var key := MembershipKey(committee, ids[n - 1]);
      if ids[n - 1] in users && key !in prev.rows {
        InsertedValid(prev, key, now);
      }
    }
  }

  /** The membership table. */
  class Roster {
    var rows: map<MembershipKey, MembershipRow>
    /** The next primary key to hand out. */
    var nextId: MembershipId

    function Contents(): Table
      reads this
    {
      Table(rows, nextId)
    }

    ghost predicate Valid()
      reads this
    {
      TableValid(Contents())
    }

    constructor ()
      ensures Valid() && rows == map[] && nextId == 0
    {
      rows, nextId := map[], 0;
    }

    /** `Membership.objects.create(committee=…, member=…)`: a fresh ACTIVE row under a fresh primary key. */
    method Insert(key: MembershipKey, now: Instant) returns (row: MembershipRow)
      requires Valid() && key !in rows
      modifies this
      ensures Valid()
      ensures Contents() == Inserted(old(Contents()), key, now)
      ensures row == rows[key]
    {
      InsertedValid(Contents(), key, now);
      var m := new Membership.New(nextId, key, now);
      m.Save(now);
      row := m.Row();
      rows := rows[key := row];
      nextId := nextId + 1;
    }

    /**
     * The add-members view: only the committee's organizer, and only with at
     * least one id submitted; then, for every submitted id naming an existing
     * user (`users`), a membership row is created unless the pair already has
     * one (then it counts as already a member); unknown ids are skipped.
     */
    method AddMembers(requester: UserId, organizer: UserId, committee: CommitteeId, userIds: seq<UserId>, users: set<UserId>, now: Instant)
      returns (r: Option<MembershipError>, added: nat, already: nat)
      requires Valid()
      modifies this
      ensures Valid()
      ensures requester != organizer ==> r == Some(NotCommitteeOrganizer)
      ensures requester == organizer && userIds == [] ==> r == Some(NoMembersSelected)
      ensures r.None? <==> requester == organizer && userIds != []
      ensures r.Some? ==> rows == old(rows) && nextId == old(nextId) && added == 0 && already == 0
      ensures r.None? ==> Contents() == AddAll(old(Contents()), committee, userIds, |userIds|, users, now)
      ensures added == nextId - old(nextId) == |rows| - |old(rows)|
      ensures added + already <= CountKnown(userIds, |userIds|, users) <= |userIds|
      ensures r.None? ==> added + already == CountKnown(userIds, |userIds|, users)
    {
      if requester != organizer {
        return Some(NotCommitteeOrganizer), 0, 0;
      }
      if userIds == [] {
        return Some(NoMembersSelected), 0, 0;
      }
      r := None;
      added, already := AddEach(committee, userIds, users, now);
    }

    /** The add-members view's loop over the submitted ids. */
    method AddEach(committee: CommitteeId, userIds: seq<UserId>, users: set<UserId>, now: Instant)
      returns (added: nat, already: nat)
      requires Valid()
      modifies this
      ensures Valid()
      ensures Contents() == AddAll(old(Contents()), committee, userIds, |userIds|, users, now)
      ensures added == nextId - old(nextId) == |rows| - |old(rows)|
      ensures added + already == CountKnown(userIds, |userIds|, users) <= |userIds|
    {
      added, already := 0, 0;
      var i := 0;
      while i < |userIds|
        invariant 0 <= i <= |userIds|
        invariant Contents() == AddAll(old(Contents()), committee, userIds, i, users, now)
        invariant added == nextId - old(nextId)
        invariant added + already == CountKnown(userIds, i, users)
        invariant Valid()
      {
        var u := userIds[i];
        var key := MembershipKey(committee, u);
        if u in users {
          if key !in rows {
            var _ := Insert(key, now);
            added := added + 1;
          } else {
            already := already + 1;
          }
        }
        i := i + 1;
      }
      AddAllValid(old(Contents()), committee, userIds, |userIds|, users, now);
    }

    /**
     * The add-members view with the owner filtered out, as the candidate list
     * of the member-selection page does (committee/views.py:73): the organizer
     * never gains a row in their own committee.
     */
    method AddMembersExceptOrganizer(requester: UserId, organizer: UserId, committee: CommitteeId, userIds: seq<UserId>,
                                     users: set<UserId>, now: Instant)
      returns (r: Option<MembershipError>, added: nat, already: nat)
      requires Valid()
      modifies this
      ensures Valid()
      ensures r.None? <==> requester == organizer && userIds != []
      ensures r.Some? ==> rows == old(rows) && nextId == old(nextId)
      ensures r.None? ==> Contents() == AddAll(old(Contents()), committee, userIds, |userIds|, users - {organizer}, now)
      ensures MembershipKey(committee, organizer) in rows ==> MembershipKey(committee, organizer) in old(rows)
      ensures added + already <= |userIds|
    {
      r, added, already := AddMembers(requester, organizer, committee, userIds, users - {organizer}, now);
      if r.None? {
        AddAllKeys(old(Contents()), committee, userIds, |userIds|, users - {organizer}, now, MembershipKey(committee, organizer));
      }
    }

    /**
     * `Membership.objects.get_or_create(committee=…, member=…, defaults={'status': 'ACTIVE'})`:
     * an existing row is returned untouched, otherwise an ACTIVE row is created.
     */
    method GetOrCreate(key: MembershipKey, now: Instant) returns (row: MembershipRow, created: bool)
      requires Valid()
      modifies this
      ensures Valid()
      ensures created <==> key !in old(rows)
      ensures !created ==> rows == old(rows) && row == old(rows)[key]
      ensures created ==> rows == old(rows)[key := row] && row.status == Active && row.leftAt.None? && row.joinedAt == now
      ensures key in rows && rows[key] == row
    {
      if key in rows {
        return rows[key], false;
      }
      row := Insert(key, now);
      created := true;
    }

    /**
     * The membership update view: only the committee's organizer may change a
     * status; the form (which checks nothing else, see DeclaredFormNeverRejects)
     * then saves the new status.
     */
    method UpdateStatus(requester: UserId, organizer: UserId, key: MembershipKey, newStatus: Status, now: Instant)
      returns (r: Option<MembershipError>)
      requires Valid()
      modifies this
      ensures Valid()
      ensures key !in old(rows) ==> r == Some(MembershipNotFound)
      ensures key in old(rows) ==> (r.None? <==> requester == organizer)
      ensures r.Some? ==> rows == old(rows)
      ensures r.None? ==> rows.Keys == old(rows).Keys && rows[key].status == newStatus
      ensures r.None? ==> rows[key].id == old(rows)[key].id && rows[key].joinedAt == old(rows)[key].joinedAt
      ensures r.None? && newStatus != Active && newStatus != old(rows)[key].status ==> rows[key].leftAt == Some(now)
      ensures r.None? && newStatus != Active && newStatus == old(rows)[key].status ==> rows[key].leftAt == old(rows)[key].leftAt
      ensures r.None? ==> forall k :: k in rows && k != key ==> rows[k] == old(rows)[k]
    {
      if key !in rows {
        return Some(MembershipNotFound);
      }
      if requester != organizer {
        return Some(NotCommitteeOrganizer);
      }
      r := MembershipFormClean(DeclaredFormData(newStatus), requester, false, false);
      DeclaredFormNeverRejects(newStatus, requester, false, false);
      var m := new Membership.Load(key, rows[key]);
      m.FormSave(newStatus, now);
      rows := rows[key := m.Row()];
    }

    /** The membership delete view: only the committee's organizer may delete a row. */
    method Delete(requester: UserId, organizer: UserId, key: MembershipKey) returns (r: Option<MembershipError>)
      requires Valid()
      modifies this
      ensures Valid()
      ensures key !in old(rows) ==> r == Some(MembershipNotFound)
      ensures key in old(rows) ==> (r.None? <==> requester == organizer)
      ensures r.Some? ==> rows == old(rows)
      ensures r.None? ==> rows == old(rows) - {key}
    {
      if key !in rows {
        return Some(MembershipNotFound);
      }
      if requester != organizer {
        return Some(NotCommitteeOrganizer);
      }
      rows := rows - {key};
      r := None;
    }
  }

  /**
   * The add-members view gives a committee's organizer a membership in their
   * own committee when the submitted ids include the organizer's id.
   */
  method OrganizerAddedToOwnCommittee() returns (committee: Committees.Committee, roster: Roster, added: nat)
    ensures MembershipKey(committee.id, committee.organizer) in roster.rows
    ensures added == 1
  {
    var today := Date(2025, 1, 1);
    committee := new Committees.Committee.Create(1, User(7, "owner@example.com", true), 10000, 12, today, today);
    roster := new Roster();
    var r, already;
    r, added, already := roster.AddMembers(committee.organizer, committee.organizer, committee.id, [committee.organizer], {committee.organizer}, 0);
  }
}
