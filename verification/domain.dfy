/**
 * Identities, users and clock values shared by the committee components.
 * Record identities are natural numbers (database primary keys); timestamps
 * (`timezone.now()`) are whole seconds.
 */
module Domain {

  type UserId = nat
  type CommitteeId = nat
  type MembershipId = nat
  type ContributionId = nat
  type PayoutId = nat

  /** A timestamp, in seconds. */
  type Instant = int

  const SecondsPerDay: int := 24 * 60 * 60

  /** `timedelta(days=7)`: how long a (re)issued invitation stays valid. */
  const InvitationLifetime: int := 7 * SecondsPerDay

  /**
   * The fields of an account the committee rules read: its identity, its
   * e-mail address and its organizer role flag (new accounts get `true`).
   */
  datatype User = User(id: UserId, email: string, isOrganizer: bool)

  /** ASCII lower-casing of one character. */
  function LowerChar(c: char): (l: char)
    ensures 'A' <= c <= 'Z' ==> 'a' <= l <= 'z'
    ensures !('A' <= c <= 'Z') ==> l == c
  {
    if 'A' <= c <= 'Z' then (c as int - 'A' as int + 'a' as int) as char else c
  }

  /** `s.lower()` over ASCII letters. */
  function Lower(s: string): (r: string)
    ensures |r| == |s|
    ensures forall i :: 0 <= i < |s| ==> r[i] == LowerChar(s[i])
  {
    if s == [] then [] else [LowerChar(s[0])] + Lower(s[1..])
  }

  /** `a.lower() == b.lower()`: e-mail addresses compared without regard to case. */
  predicate SameEmail(a: string, b: string)
  {
    Lower(a) == Lower(b)
  }

  /** Lower-casing is idempotent, so an address matches its own lower-cased form. */
  lemma {:induction false} LowerIdempotent(s: string)
    ensures Lower(Lower(s)) == Lower(s)
    ensures SameEmail(s, Lower(s))
  {
    var l := Lower(s);
    assert forall i :: 0 <= i < |s| ==> LowerChar(l[i]) == l[i];
    assert Lower(l) == l;
  }

  /** Matching e-mail addresses is an equivalence. */
  lemma SameEmailEquivalence(a: string, b: string, c: string)
    ensures SameEmail(a, a)
    ensures SameEmail(a, b) ==> SameEmail(b, a)
    ensures SameEmail(a, b) && SameEmail(b, c) ==> SameEmail(a, c)
  {
  }
}
