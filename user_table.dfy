/** The user table: five rows per page, the page slice it shows, the clamped
    Previous/Next buttons, and the subscription column's label. */
module UserTable {
  import opened Common
  import opened Records

  const RowsPerPage: nat := 5

  /** `Math.ceil(n / rowsPerPage)` */
  function TotalPages(n: nat): (t: nat)
    ensures n == 0 <==> t == 0
    ensures t > 0 ==> (t - 1) * RowsPerPage < n <= t * RowsPerPage
  {
    (n + RowsPerPage - 1) / RowsPerPage
  }

  /** `s.slice(start, end)` for non-negative bounds: both are clipped to the
      length, and a start at or past the end gives nothing. */
  function Slice<T>(s: seq<T>, start: nat, end: nat): (r: seq<T>)
  {
    var hi := if end < |s| then end else |s|;
    var lo := if start < hi then start else hi;
    s[lo..hi]
  }

  /** The rows shown on page `page` (pages count from 1). */
  function PageRows(users: seq<User>, page: nat): (r: seq<User>)
    requires page >= 1
  {
    Slice(users, (page - 1) * RowsPerPage, (page - 1) * RowsPerPage + RowsPerPage)
  }

  /** A page holds at most five rows: the users from `(page - 1) * 5` on,
      and none when that is past the end. */
  lemma PageRowsSpec(users: seq<User>, page: nat)
    requires page >= 1
    ensures var r, start := PageRows(users, page), (page - 1) * RowsPerPage;
            && |r| <= RowsPerPage
            && (start >= |users| ==> r == [])
            && (start < |users| ==> r == users[start..if start + RowsPerPage < |users| then start + RowsPerPage else |users|])
  {
  }

  /** Exactly the pages from 1 to `TotalPages` have rows. */
  lemma PageNonEmptyIff(users: seq<User>, page: nat)
    requires page >= 1
    ensures PageRows(users, page) != [] <==> page <= TotalPages(|users|)
  {
  }

  /** Pages 1 to `k`, one after the other. */
  function FirstPages(users: seq<User>, k: nat): seq<User>
  {
    if k == 0 then [] else FirstPages(users, k - 1) + PageRows(users, k)
  }

  lemma {:induction false} FirstPagesPrefix(users: seq<User>, k: nat)
    ensures FirstPages(users, k) == users[..if k * RowsPerPage < |users| then k * RowsPerPage else |users|]
  {
    if k > 0 {
      FirstPagesPrefix(users, k - 1);
      var a := if (k - 1) * RowsPerPage < |users| then (k - 1) * RowsPerPage else |users|;
      var b := if k * RowsPerPage < |users| then k * RowsPerPage else |users|;
      assert users[..b] == users[..a] + users[a..b];
    }
  }

  /** Reading every page in turn shows every user once, in order. */
  lemma PagesCoverUsers(users: seq<User>)
    ensures FirstPages(users, TotalPages(|users|)) == users
  {
    FirstPagesPrefix(users, TotalPages(|users|));
  }

  /** `Math.max(prev - 1, 1)` */
  function PreviousPage(page: int): (p: int)
    ensures p >= 1
    ensures page > 1 ==> p == page - 1
    ensures page <= 1 ==> p == 1
  {
    if page - 1 > 1 then page - 1 else 1
  }

  /** `Math.min(prev + 1, totalPages)` */
  function NextPage(page: int, totalPages: nat): (p: int)
    ensures p <= totalPages
    ensures page < totalPages ==> p == page + 1
    ensures page >= totalPages ==> p == totalPages
  {
    if page + 1 < totalPages then page + 1 else totalPages
  }

  /** Next then Previous comes back to the page, unless it was the last. */
  lemma NextThenPrevious(page: int, totalPages: nat)
    requires 1 <= page < totalPages
    ensures PreviousPage(NextPage(page, totalPages)) == page
  {
  }

  /** The table's `currentPage` and `visibleRows` for the `users` it is
      given.  The pager is drawn only when there is more than one page, so
      Previous and Next can be pressed only then. */
  class Pager {
    var users: seq<User>
    var currentPage: nat
    var visibleRows: seq<User>

    ghost predicate Valid()
      reads this
    {
      currentPage >= 1 && visibleRows == PageRows(users, currentPage)
    }

    constructor(users: seq<User>)
      ensures Valid() && this.users == users && currentPage == 1
    {
      this.users := users;
      currentPage := 1;
      visibleRows := PageRows(users, 1);
    }

    /** New `users` props: the effect slices them again at the same page. */
    method SetUsers(users: seq<User>)
      requires Valid()
      modifies this
      ensures Valid() && this.users == users && currentPage == old(currentPage)
    {
      this.users := users;
      visibleRows := PageRows(users, currentPage);
    }

    method Previous()
      requires Valid() && TotalPages(|users|) > 1
      modifies this
      ensures Valid() && users == old(users)
      ensures currentPage == PreviousPage(old(currentPage))
    {
      currentPage := PreviousPage(currentPage);
      visibleRows := PageRows(users, currentPage);
    }

    method Next()
      requires Valid() && TotalPages(|users|) > 1
      modifies this
      ensures Valid() && users == old(users)
      ensures currentPage == NextPage(old(currentPage), TotalPages(|users|))
      ensures 1 <= currentPage <= TotalPages(|users|)
    {
      currentPage := NextPage(currentPage, TotalPages(|users|));
      visibleRows := PageRows(users, currentPage);
    }
  }

  /** `renderUserSubscription` */
  function SubscriptionLabel(u: User): string
  {
    if u.subscriptionInterval.Some? && u.subscriptionAmount > 0 then
      "$" + NatToString(u.subscriptionAmount) + (if u.subscriptionInterval.value == Monthly then "/mo" else "/yr")
    else "No subscription"
  }

  /** The label names the amount and the interval of a paying user, which
      can be read back from it, and says "No subscription" otherwise. */
  lemma SubscriptionLabelReadsBack(u: User)
    ensures var l := SubscriptionLabel(u);
            && (l == "No subscription" <==> u.subscriptionInterval.None? || u.subscriptionAmount <= 0)
            && (l != "No subscription" ==>
                  && |l| >= 5 && l[0] == '$'
                  && (forall i :: 1 <= i < |l| - 3 ==> IsAsciiDigit(l[i]))
                  && DigitsValue(l[1..|l| - 3]) == u.subscriptionAmount
                  && (l[|l| - 3..] == "/mo" <==> u.subscriptionInterval == Some(Monthly)))
  {
    var l := SubscriptionLabel(u);
    if u.subscriptionInterval.Some? && u.subscriptionAmount > 0 {
      var digits := NatToString(u.subscriptionAmount);
      var suffix := if u.subscriptionInterval.value == Monthly then "/mo" else "/yr";
      assert l == "$" + digits + suffix;
      assert l[1..|l| - 3] == digits;
      assert l[|l| - 3..] == suffix;
      assert l[0] == '$';
    } else {
      assert l == "No subscription";
    }
  }
}
