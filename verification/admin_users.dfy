/**
 * The administrator's user list (components/admin-users.tsx): the search filter,
 * the per-user report count, its plural suffix and the no-match message.
 */
module AdminUsers {
  import opened Types
  import opened Text
  import Seqs

  /** A user record with the number of reports the store counted for it. */
  datatype UserWithCount = UserWithCount(user: User, reportCount: nat)

  /**
   * The search test: the name or a present e-mail contains the term ignoring case,
   * or the CNIC or phone number contains it exactly.
   */
  predicate UserMatches(u: User, term: string)
  {
    || ContainsIgnoreCase(u.name, term)
    || Contains(u.cnic, term)
    || Contains(u.phone, term)
    || (Truthy(u.email) && ContainsIgnoreCase(u.email.value, term))
  }

  function FilterUsers(users: seq<UserWithCount>, term: string): seq<UserWithCount>
  {
    Seqs.Filter(users, (u: UserWithCount) => UserMatches(u.user, term))
  }

  /**
   * The filtered list is an order-preserving subsequence of the users, holding
   * exactly the users that match.
   */
  lemma FilterUsersSpec(users: seq<UserWithCount>, term: string)
    ensures Seqs.IsSubsequence(FilterUsers(users, term), users)
    ensures forall u :: u in FilterUsers(users, term) <==> u in users && UserMatches(u.user, term)
  {
    Seqs.FilterIsSubsequence(users, (u: UserWithCount) => UserMatches(u.user, term));
  }

  /** An empty search term keeps every user, in order. */
  lemma EmptyTermKeepsAll(users: seq<UserWithCount>)
    ensures FilterUsers(users, "") == users
  {
    forall i | 0 <= i < |users| ensures UserMatches(users[i].user, "") {
      ContainsEmpty(Lower(users[i].user.name));
    }
    Seqs.FilterKeepsAll(users, (u: UserWithCount) => UserMatches(u.user, ""));
  }

  /** A user without e-mail is found only through name, CNIC or phone. */
  lemma MatchWithoutEmail(u: User, term: string)
    requires u.email.None?
    ensures UserMatches(u, term) <==> ContainsIgnoreCase(u.name, term) || Contains(u.cnic, term) || Contains(u.phone, term)
  {
  }

  /** `count || 0`: the store's count, or 0 when it gave none. */
  function ReportCount(count: Option<nat>): (n: nat)
    ensures count.Some? ==> n == count.value
    ensures count.None? ==> n == 0
  {
    if count.Some? then count.value else 0
  }

  /** `{ ...user, report_count: count || 0 }` for each user and the count fetched for it. */
  function WithCounts(users: seq<User>, counts: seq<Option<nat>>): (r: seq<UserWithCount>)
    requires |counts| == |users|
    ensures |r| == |users|
    ensures forall i :: 0 <= i < |r| ==> r[i].user == users[i] && r[i].reportCount == ReportCount(counts[i])
  {
    seq(|users|, i requires 0 <= i < |users| => UserWithCount(users[i], ReportCount(counts[i])))
  }

  /** The suffix of the "N Report" badge. */
  function PluralSuffix(n: int): string
  {
    if n != 1 then "s" else ""
  }

  /** The badge reads "Report" exactly when the store counted exactly one report. */
  lemma PluralSuffixOfCount(count: Option<nat>)
    ensures PluralSuffix(ReportCount(count)) == "" <==> count == Some(1)
    ensures PluralSuffix(ReportCount(count)) == "s" <==> count != Some(1)
  {
  }

  /** Whether the "No users found matching" card is shown under the list. */
  function ShowsNoMatch(filtered: seq<UserWithCount>, term: string): bool
  {
    |filtered| == 0 && term != ""
  }

  /** The no-match card appears exactly when a term is typed and no user matches it. */
  lemma NoMatchSpec(users: seq<UserWithCount>, term: string)
    ensures ShowsNoMatch(FilterUsers(users, term), term) <==>
              term != "" && forall u :: u in users ==> !UserMatches(u.user, term)
  {
    var filtered := FilterUsers(users, term);
    if filtered != [] {
      assert filtered[0] in filtered;
    }
  }
}
