/** The shapes of the data the dashboard works with: a row of the
    `subscriptions` table, a row of the `profiles` table, and the `User` the
    components display (with `NewUser`, a `User` before it has an id).

    Dates of a stored row are calendar `Timestamp`s; dates of a `User` are
    `Date` objects and are kept as their `getTime()` milliseconds. */
module Records {
  import opened Common
  import opened Calendar

  /** A row of the `subscriptions` table (only the columns the code reads). */
  datatype SubscriptionRow = SubscriptionRow(
    id: nat,
    userId: string,
    stripeCustomerId: string,
    status: Option<string>,
    planType: Option<string>,
    trialEnd: Option<Timestamp>,
    start: Option<Timestamp>,
    end: Option<Timestamp>,
    createdAt: Timestamp)

  /** A row of the `profiles` table. */
  datatype Profile = Profile(displayName: Option<string>, email: Option<string>)

  datatype UserStatus = Active | Trial | Expired | Cancelled

  datatype Interval = Monthly | Yearly

  datatype User = User(
    id: string,
    name: string,
    email: string,
    status: UserStatus,
    trialEndsAt: Option<int>,
    subscriptionAmount: int,
    subscriptionInterval: Option<Interval>,
    createdAt: int,
    lastActive: int)

  /** `Omit<User, 'id'>` */
  datatype NewUser = NewUser(
    name: string,
    email: string,
    status: UserStatus,
    trialEndsAt: Option<int>,
    subscriptionAmount: int,
    subscriptionInterval: Option<Interval>,
    createdAt: int,
    lastActive: int)

  /** The string a `UserStatus` is at run time. */
  function StatusName(s: UserStatus): (name: string)
    ensures name in {"active", "trial", "expired", "cancelled"}
  {
    match s
    case Active => "active"
    case Trial => "trial"
    case Expired => "expired"
    case Cancelled => "cancelled"
  }

  lemma StatusNameInjective(s: UserStatus, t: UserStatus)
    ensures StatusName(s) == StatusName(t) <==> s == t
  {
  }

  /** `{ ...newUser, id }` */
  function WithId(u: NewUser, id: string): (r: User)
    ensures r.id == id && WithoutId(r) == u
  {
    User(id, u.name, u.email, u.status, u.trialEndsAt, u.subscriptionAmount,
         u.subscriptionInterval, u.createdAt, u.lastActive)
  }

  /** The fields of a `User` other than its id. */
  function WithoutId(u: User): NewUser
  {
    NewUser(u.name, u.email, u.status, u.trialEndsAt, u.subscriptionAmount,
            u.subscriptionInterval, u.createdAt, u.lastActive)
  }

  /** Number of users with the given status: `users.filter(u => u.status === s).length`. */
  function CountWithStatus(users: seq<User>, s: UserStatus): (n: nat)
    ensures n <= |users|
    ensures n == |users| <==> forall i :: 0 <= i < |users| ==> users[i].status == s
  {
    if users == [] then 0
    else CountWithStatus(users[..|users| - 1], s) + (if users[|users| - 1].status == s then 1 else 0)
  }

  /** The statuses of a list of users, in order. */
  function StatusesOf(users: seq<User>): (ss: seq<UserStatus>)
    ensures |ss| == |users|
    ensures forall i :: 0 <= i < |users| ==> ss[i] == users[i].status
  {
    seq(|users|, i requires 0 <= i < |users| => users[i].status)
  }

  /** The count of a status is how often it occurs among the statuses. */
  lemma {:induction false} CountIsMultiplicity(users: seq<User>, s: UserStatus)
    ensures CountWithStatus(users, s) == multiset(StatusesOf(users))[s]
  {
    if users != [] {
      var init := users[..|users| - 1];
      CountIsMultiplicity(init, s);
      assert StatusesOf(users) == StatusesOf(init) + [users[|users| - 1].status];
    }
  }
}
