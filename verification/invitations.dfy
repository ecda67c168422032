/**
 * The invitation state machine: issuing, the acceptance predicate, acceptance with lazy expiry and get-or-create
 * membership, resending with a rotated token, and revoking.
 */
module Invitations {
  import opened Common
  import opened Domain
  import Memberships

  datatype InvitationStatus = Pending | Accepted | Expired

  /** What the accept view reports. */
  datatype AcceptOutcome =
    | NoLongerValid            // the invitation is not PENDING
    | HasExpired               // found past its expiry; now marked EXPIRED
    | LoginRequired            // anonymous, or signed in under another address
    | Joined(created: bool)    // accepted; `created` when a membership row was created

  /** Why the resend and revoke views refuse a request. */
  datatype InvitationError = NotCommitteeOrganizer | CannotResend | CannotRevoke

  /** Whether a timestamp lies past an expiry, if there is one (`expires_at and now > expires_at`). */
  predicate PastExpiry(expiresAt: Option<Instant>, now: Instant)
  {
    expiresAt.Some? && now > expiresAt.value
  }

  /**
   * `_can_accept`: a signed-in user (`None` is the anonymous user) may accept a
   * PENDING invitation that has not expired when their address matches the
   * invited one without regard to case.
   */
  predicate CanAccept(status: InvitationStatus, expiresAt: Option<Instant>, email: string, user: Option<User>, now: Instant)
  {
    && user.Some?
    && status == Pending
    && !PastExpiry(expiresAt, now)
    && SameEmail(user.value.email, email)
  }

  /** The invited address is matched without regard to case: an address differing only in case is accepted alike. */
  lemma CanAcceptIgnoresCase(status: InvitationStatus, expiresAt: Option<Instant>, email: string, u: User, v: User, now: Instant)
    requires u.id == v.id && SameEmail(u.email, v.email)
    ensures CanAccept(status, expiresAt, email, Some(u), now) <==> CanAccept(status, expiresAt, email, Some(v), now)
  {
  }

  /**
   * The invited address written in any case is accepted: a user whose address
   * is the lower-cased invited address may accept a PENDING, unexpired invitation.
   */
  lemma {:induction false} LowerCasedAddressAccepted(expiresAt: Option<Instant>, email: string, u: User, now: Instant)
    requires u.email == Lower(email) && !PastExpiry(expiresAt, now)
    ensures CanAccept(Pending, expiresAt, email, Some(u), now)
  {
    LowerIdempotent(email);
  }

  /** An invitation without an expiry, as the send view issues it, never lapses: only the status and the address decide. */
  lemma NoExpiryNeverLapses(status: InvitationStatus, email: string, user: Option<User>, now: Instant, later: Instant)
    ensures CanAccept(status, None, email, user, now) <==> CanAccept(status, None, email, user, later)
  {
  }

  /** Acceptability only wears off with time: acceptable at some time means acceptable at every earlier time. */
  lemma CanAcceptEarlier(status: InvitationStatus, expiresAt: Option<Instant>, email: string, user: Option<User>, earlier: Instant, now: Instant)
    requires earlier <= now && CanAccept(status, expiresAt, email, user, now)
    ensures CanAccept(status, expiresAt, email, user, earlier)
  {
  }

  class Invitation {
    const id: nat
    const committee: CommitteeId
    const invitedBy: UserId
    const email: string
    /** The opaque secret in the invitation link. */
    var token: string
    var status: InvitationStatus
    var expiresAt: Option<Instant>

    /**
     * The send view's `Invitation.objects.create`: PENDING, and with no expiry,
     * since the view passes none; only a resend gives it one.
     */
    constructor Issue(id: nat, committee: CommitteeId, invitedBy: UserId, email: string, token: string)
      ensures this.id == id && this.committee == committee && this.invitedBy == invitedBy && this.email == email
      ensures this.token == token && status == Pending && expiresAt == None
    {
      this.id, this.committee, this.invitedBy, this.email := id, committee, invitedBy, email;
      this.token, status, expiresAt := token, Pending, None;
    }

    /**
     * The accept view: a non-PENDING invitation changes nothing; a PENDING one
     * past its expiry is marked EXPIRED; a user who may not accept is asked to
     * sign in; otherwise the user's membership is fetched or created ACTIVE and
     * the invitation is marked ACCEPTED with its expiry set to now.
     */
    method Accept(user: Option<User>, roster: Memberships.Roster, now: Instant) returns (outcome: AcceptOutcome)
      requires roster.Valid()
      modifies this, roster
      ensures roster.Valid()
      ensures token == old(token)
      ensures old(status) != Pending ==> outcome == NoLongerValid && unchanged(this) && unchanged(roster)
      ensures old(status) == Pending && PastExpiry(old(expiresAt), now) ==>
                outcome == HasExpired && status == Expired && expiresAt == old(expiresAt) && unchanged(roster)
      ensures old(status) == Pending && !PastExpiry(old(expiresAt), now) && !CanAccept(Pending, old(expiresAt), email, user, now) ==>
                outcome == LoginRequired && unchanged(this) && unchanged(roster)
      ensures CanAccept(old(status), old(expiresAt), email, user, now) ==>
                && outcome.Joined?
                && status == Accepted && expiresAt == Some(now)
                && var key := Memberships.MembershipKey(committee, user.value.id);
                   && (outcome.created <==> key !in old(roster.rows))
                   && (key in old(roster.rows) ==> roster.rows == old(roster.rows))
                   && (key !in old(roster.rows) ==> roster.rows.Keys == old(roster.rows).Keys + {key}
                                                    && roster.rows[key].status == Memberships.Active)
                   && (forall k :: k in old(roster.rows) ==> k in roster.rows && roster.rows[k] == old(roster.rows)[k])
      ensures outcome.Joined? <==> CanAccept(old(status), old(expiresAt), email, user, now)
    {
      if status != Pending {
        return NoLongerValid;
      }
      if PastExpiry(expiresAt, now) {
        status := Expired;
        return HasExpired;
      }
      if !CanAccept(status, expiresAt, email, user, now) {
        return LoginRequired;
      }
      var key := Memberships.MembershipKey(committee, user.value.id);
      var row, created := roster.GetOrCreate(key, now);
      status := Accepted;
      expiresAt := Some(now);
      outcome := Joined(created);
    }

    /**
     * The resend view: only the committee's organizer, only from PENDING or
     * EXPIRED; the token is replaced, the invitation is PENDING again and
     * valid for seven more days.
     */
    method Resend(requester: UserId, organizer: UserId, newToken: string, now: Instant) returns (r: Option<InvitationError>)
      modifies this
      ensures requester != organizer ==> r == Some(NotCommitteeOrganizer)
      ensures requester == organizer && old(status) == Accepted ==> r == Some(CannotResend)
      ensures r.Some? ==> unchanged(this)
      ensures r.None? <==> requester == organizer && old(status) != Accepted
      ensures r.None? ==> token == newToken && status == Pending && expiresAt == Some(now + InvitationLifetime)
    {
      if requester != organizer {
        return Some(NotCommitteeOrganizer);
      }
      if status != Expired && status != Pending {
        return Some(CannotResend);
      }
      token := newToken;
      expiresAt := Some(now + InvitationLifetime);
      status := Pending;
      r := None;
    }

    /**
     * The revoke view: only the committee's organizer, only from PENDING; the
     * invitation becomes EXPIRED with its expiry set to now.
     */
    method Revoke(requester: UserId, organizer: UserId, now: Instant) returns (r: Option<InvitationError>)
      modifies this
      ensures requester != organizer ==> r == Some(NotCommitteeOrganizer)
      ensures r.Some? ==> unchanged(this)
      ensures r.None? <==> requester == organizer && old(status) == Pending
      ensures r.None? ==> token == old(token) && status == Expired && expiresAt == Some(now)
    {
      if requester != organizer {
        return Some(NotCommitteeOrganizer);
      }
      if status != Pending {
        return Some(CannotRevoke);
      }
      status := Expired;
      expiresAt := Some(now);
      r := None;
    }
  }

  /**
   * The send view: only the committee's organizer may invite; the invitation
   * is then created by the requester, PENDING and without expiry.
   */
  method Send(requester: UserId, organizer: UserId, id: nat, committee: CommitteeId, email: string, token: string)
    returns (inv: Invitation?, r: Option<InvitationError>)
    ensures r.None? <==> requester == organizer
    ensures r.Some? ==> r == Some(NotCommitteeOrganizer) && inv == null
    ensures r.None? ==> && inv != null && fresh(inv)
                        && inv.id == id && inv.committee == committee && inv.invitedBy == requester && inv.email == email
                        && inv.token == token && inv.status == Pending && inv.expiresAt == None
  {
    if requester != organizer {
      return null, Some(NotCommitteeOrganizer);
    }
    inv := new Invitation.Issue(id, committee, requester, email, token);
    r := None;
  }

  /**
   * A token is single-use: after a successful acceptance a second acceptance
   * with the same token, by anyone and at any time, changes nothing.
   */
  method AcceptTwice(inv: Invitation, user: Option<User>, other: Option<User>, roster: Memberships.Roster, now: Instant, later: Instant)
    returns (first: AcceptOutcome, second: AcceptOutcome)
    requires roster.Valid()
    requires CanAccept(inv.status, inv.expiresAt, inv.email, user, now)
    modifies inv, roster
    ensures first.Joined?
    ensures second == NoLongerValid
    ensures inv.status == Accepted && inv.expiresAt == Some(now)
  {
    first := inv.Accept(user, roster, now);
    second := inv.Accept(other, roster, later);
  }
}
