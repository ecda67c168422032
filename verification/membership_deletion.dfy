/**
 * The membership delete view together with the database's cascade: deleting
 * a membership row also deletes its contributions and its payout.
 */
module MembershipDeletion {
  import opened Common
  import opened Domain
  import Memberships
  import Contributions
  import Payouts

  /**
   * The membership delete view: only the committee's organizer may delete;
   * the row goes, and with it (`on_delete=CASCADE`) every contribution and
   * the payout that refer to it. Everything else is left as it was.
   */
  method DeleteMembership(requester: UserId, organizer: UserId, key: Memberships.MembershipKey,
                          roster: Memberships.Roster, ledger: Contributions.Ledger, book: Payouts.PayoutBook)
    returns (r: Option<Memberships.MembershipError>)
    requires roster.Valid() && ledger.Valid() && book.Valid()
    modifies roster, ledger, book
    ensures roster.Valid() && ledger.Valid() && book.Valid()
    ensures key !in old(roster.rows) ==> r == Some(Memberships.MembershipNotFound)
    ensures key in old(roster.rows) ==> (r.None? <==> requester == organizer)
    ensures r.Some? ==> roster.rows == old(roster.rows) && ledger.rows == old(ledger.rows) && book.payouts == old(book.payouts)
    ensures r.None? ==>
              && var id := old(roster.rows)[key].id;
              && roster.rows == old(roster.rows) - {key}
              && ledger.rows == Contributions.WithoutMembership(old(ledger.rows), id)
              && book.payouts == old(book.payouts) - {id}
  {
    if key !in roster.rows {
      return Some(Memberships.MembershipNotFound);
    }
    var id := roster.rows[key].id;
    r := roster.Delete(requester, organizer, key);
    if r.None? {
      ledger.DeleteMembership(id);
      book.DeleteMembership(id);
    }
  }
}
