/** The user-management panel: how a stored subscription row becomes a `User`
    (status, name, email, amount, interval), and the list operations of the
    panel (delete, status change, add, filter).  The database calls are
    outside the model; each state-changing operation takes whether the call
    succeeded, and on failure leaves the list as it was. */
module UserManagement {
  import opened Common
  import opened Calendar
  import opened Records

  /** Fourteen days in milliseconds: the trial length the panel grants. */
  const TrialMs: int := 14 * DayMs

  // ---------------------------------------------------------------------------
  // Row to user

  /** Status shown for a stored row at time `now`: `'inactive'` first, then a
      future end date, then `'canceled'`, else active. */
  function UiStatus(row: SubscriptionRow, now: Timestamp): UserStatus
  {
    if row.status == Some("inactive") then Expired
    else if row.end.Some? && Before(now, row.end.value) then Trial
    else if row.status == Some("canceled") then Cancelled
    else Active
  }

  /** The precedence of the status rules, as four exclusive cases. */
  lemma UiStatusCases(row: SubscriptionRow, now: Timestamp)
    ensures UiStatus(row, now) == Expired <==> row.status == Some("inactive")
    ensures UiStatus(row, now) == Trial <==>
              row.status != Some("inactive") && row.end.Some? && EpochMillis(now) < EpochMillis(row.end.value)
    ensures UiStatus(row, now) == Cancelled <==>
              row.status == Some("canceled") && !(row.end.Some? && EpochMillis(now) < EpochMillis(row.end.value))
    ensures UiStatus(row, now) == Active <==>
              row.status != Some("inactive") && row.status != Some("canceled")
              && !(row.end.Some? && EpochMillis(now) < EpochMillis(row.end.value))
  {
    if row.end.Some? {
      ChronologicalOrder(now, row.end.value);
    }
  }

  /** Monthly price read from a plan type: 5 for a monthly plan, else 50 for
      a yearly plan, else 0. */
  function PlanAmount(planType: Option<string>): (a: int)
    ensures a == 0 || a == 5 || a == 50
    ensures a == 5 <==> planType.Some? && Includes(planType.value, "Monthly")
    ensures a == 50 <==> planType.Some? && !Includes(planType.value, "Monthly") && Includes(planType.value, "Yearly")
  {
    if planType.Some? && Contains(planType.value, "Monthly") then 5
    else if planType.Some? && Contains(planType.value, "Yearly") then 50
    else 0
  }

  /** Billing interval read from a plan type: monthly if it mentions
      `Monthly`, otherwise yearly, also for a missing type. */
  function PlanInterval(planType: Option<string>): (i: Interval)
    ensures i == Monthly <==> planType.Some? && Includes(planType.value, "Monthly")
  {
    if planType.Some? && Contains(planType.value, "Monthly") then Monthly else Yearly
  }

  /** A monthly amount goes with the monthly interval and only with it. */
  lemma AmountMatchesInterval(planType: Option<string>)
    ensures PlanAmount(planType) == 5 <==> PlanInterval(planType) == Monthly
    ensures PlanAmount(planType) == 50 ==> PlanInterval(planType) == Yearly
  {
  }

  /** `[^a-zA-Z0-9]` replaced by a space, character by character. */
  function SpaceOutNonAlnum(s: string): (r: string)
    ensures |r| == |s|
    ensures forall i :: 0 <= i < |s| ==> r[i] == if IsAsciiAlnum(s[i]) then s[i] else ' '
  {
    if s == [] then [] else [if IsAsciiAlnum(s[0]) then s[0] else ' '] + SpaceOutNonAlnum(s[1..])
  }

  /** First character upper-cased, the rest lower-cased. */
  function Capitalize(word: string): string
  {
    if word == [] then [] else [ToUpper(word[0])] + LowerAll(word[1..])
  }

  function CapitalizeAll(words: seq<string>): (r: seq<string>)
    ensures |r| == |words|
    ensures forall k :: 0 <= k < |words| ==> r[k] == Capitalize(words[k])
  {
    if words == [] then [] else [Capitalize(words[0])] + CapitalizeAll(words[1..])
  }

  /** `s.split(" ").map(capitalize).join(" ")` */
  function TitleCase(s: string): string
  {
    Join(CapitalizeAll(Split(s, ' ')), ' ')
  }

  /** What title-casing puts at position `i`: a space stays, the first
      character of a word is upper-cased, any other is lower-cased. */
  function TitleChar(s: string, i: int): char
    requires 0 <= i < |s|
  {
    if s[i] == ' ' then ' '
    else if i == 0 || s[i - 1] == ' ' then ToUpper(s[i])
    else ToLower(s[i])
  }

  lemma CapitalizeByPosition(w: string)
    requires ' ' !in w
    ensures |Capitalize(w)| == |w|
    ensures forall i :: 0 <= i < |w| ==> Capitalize(w)[i] == TitleChar(w, i)
  {
    if w != [] {
      forall i | 0 <= i < |w| ensures Capitalize(w)[i] == TitleChar(w, i) {
        assert w[i] != ' ';
        if i > 0 {
          assert w[i - 1] != ' ';
          assert Capitalize(w)[i] == LowerAll(w[1..])[i - 1];
        }
      }
    }
  }

  /** Title-casing a string with a space is title-casing its first word,
      then the space, then title-casing the rest. */
  lemma TitleCaseAtSpace(s: string, n: nat)
    requires n < |s| && s[n] == ' ' && ' ' !in s[..n]
    ensures TitleCase(s) == Capitalize(s[..n]) + [' '] + TitleCase(s[n + 1..])
  {
    assert IndexOf(s, ' ') == n;
    var ws := Split(s[n + 1..], ' ');
    assert Split(s, ' ') == [s[..n]] + ws;
    assert CapitalizeAll([s[..n]] + ws) == [Capitalize(s[..n])] + CapitalizeAll(ws);
    assert ([Capitalize(s[..n])] + CapitalizeAll(ws))[1..] == CapitalizeAll(ws);
  }

  /** The position rule read across the first space: before it, the rule of
      the first word; after it, the rule of the rest. */
  lemma TitleCharAcrossSpace(s: string, n: nat, i: nat)
    requires n < |s| && s[n] == ' ' && i < |s| && i != n
    ensures i < n ==> TitleChar(s, i) == TitleChar(s[..n], i)
    ensures i > n ==> TitleChar(s, i) == TitleChar(s[n + 1..], i - n - 1)
  {
    if i > n {
      assert s[i] == s[n + 1..][i - n - 1];
      if i - n - 1 > 0 {
        assert s[i - 1] == s[n + 1..][i - n - 2];
      }
    }
  }

  /** Title-casing by words is title-casing by positions. */
  lemma {:induction false} TitleCaseByPosition(s: string)
    ensures |TitleCase(s)| == |s|
    ensures forall i :: 0 <= i < |s| ==> TitleCase(s)[i] == TitleChar(s, i)
    decreases |s|
  {
    if ' ' !in s {
      CapitalizeByPosition(s);
    } else {
      var n := IndexOf(s, ' ');
      var w, t := s[..n], s[n + 1..];
      TitleCaseAtSpace(s, n);
      CapitalizeByPosition(w);
      TitleCaseByPosition(t);
      var r := TitleCase(s);
      assert r == Capitalize(w) + [' '] + TitleCase(t);
      var cw, ct := Capitalize(w), TitleCase(t);
      assert |cw| == n && |ct| == |t|;
      forall i | 0 <= i < |s| ensures r[i] == TitleChar(s, i) {
        if i < n {
          assert r[i] == cw[i] == TitleChar(w, i);
          TitleCharAcrossSpace(s, n, i);
        } else if i > n {
          assert r[i] == ct[i - n - 1] == TitleChar(t, i - n - 1);
          TitleCharAcrossSpace(s, n, i);
        }
      }
    }
  }

  /** `email.split("@")[0]`: the part before the first `@`. */
  function LocalPart(email: string): (l: string)
    ensures '@' !in l && |l| <= |email| && l == email[..|l|]
    ensures '@' in email ==> email[|l|] == '@'
  {
    if '@' in email then email[..IndexOf(email, '@')] else email
  }

  /** The display name derived from an email address. */
  function NameFromEmail(email: string): string
  {
    TitleCase(SpaceOutNonAlnum(LocalPart(email)))
  }

  /** The derived name is as long as the local part, has a space exactly where
      the local part has a character outside `[a-zA-Z0-9]`, and capitalises
      each word. */
  lemma NameFromEmailShape(email: string)
    ensures var l, n := LocalPart(email), NameFromEmail(email);
            && |n| == |l|
            && (forall i :: 0 <= i < |n| ==> (n[i] == ' ' <==> !IsAsciiAlnum(l[i])))
            && (forall i :: 0 <= i < |n| ==> n[i] == ' ' || IsAsciiAlnum(n[i]))
            && (forall i :: 0 <= i < |n| ==> n[i] == TitleChar(SpaceOutNonAlnum(l), i))
  {
    TitleCaseByPosition(SpaceOutNonAlnum(LocalPart(email)));
  }

  /** `"User " + id`, the name placeholder for a row without a customer id. */
  function Placeholder(id: nat): string
  {
    "User " + NatToString(id)
  }

  /** Name and email of a row, from its profile when there is one. */
  function NameAndEmail(row: SubscriptionRow, profile: Option<Profile>): (r: (string, string))
  {
    if profile.Some? then
      (OrElse(profile.value.displayName, "Unknown User"), OrElse(profile.value.email, "unknown@example.com"))
    else
      var name := Or(row.stripeCustomerId, Placeholder(row.id));
      if Contains(row.userId, "@") then
        (if name == Placeholder(row.id) then NameFromEmail(row.userId) else name, row.userId)
      else
        (name, "user-" + NatToString(row.id) + "@example.com")
  }

  /** The name is empty only when the row has no profile, falls back to the
      placeholder, and its user id starts with `@`. */
  lemma NameEmptyIff(row: SubscriptionRow, profile: Option<Profile>)
    ensures NameAndEmail(row, profile).0 == "" <==>
              && profile.None?
              && Includes(row.userId, "@")
              && Or(row.stripeCustomerId, Placeholder(row.id)) == Placeholder(row.id)
              && row.userId[0] == '@'
  {
    var name := NameAndEmail(row, profile).0;
    if profile.Some? {
      assert name == OrElse(profile.value.displayName, "Unknown User");
    } else {
      var fallback := Or(row.stripeCustomerId, Placeholder(row.id));
      assert |Placeholder(row.id)| > 5;
      if !Contains(row.userId, "@") {
        assert name == fallback;
      } else if fallback != Placeholder(row.id) {
        assert name == fallback;
      } else {
        assert name == NameFromEmail(row.userId);
        AtInUserId(row.userId);
        NameFromEmailShape(row.userId);
      }
    }
  }

  /** An id that includes `"@"` holds the character `@`. */
  lemma AtInUserId(id: string)
    requires Includes(id, "@")
    ensures '@' in id
  {
    var i :| OccursAt(id, "@", i);
    assert id[i..i + 1] == "@";
    assert id[i] == '@';
  }

  /** With a profile, a missing or empty display name or email falls back to
      `"Unknown User"` or `"unknown@example.com"`; a non-empty one is used. */
  lemma ProfileFallbacks(row: SubscriptionRow, p: Profile)
    ensures var (name, email) := NameAndEmail(row, Some(p));
            && (p.displayName.Some? && p.displayName.value != "" ==> name == p.displayName.value)
            && (p.displayName.None? || p.displayName.value == "" ==> name == "Unknown User")
            && (p.email.Some? && p.email.value != "" ==> email == p.email.value)
            && (p.email.None? || p.email.value == "" ==> email == "unknown@example.com")
  {
  }

  /** Without a profile: the name is the customer id, else the placeholder
      `User <id>` — replaced by the name derived from the user id when that
      is an email — and the email is the user id when it contains `@`, else
      `user-<id>@example.com`, which always contains an `@`. */
  lemma NoProfileEmailHasAt(row: SubscriptionRow)
    ensures Includes(NameAndEmail(row, None).1, "@")
    ensures Contains(row.userId, "@") ==> NameAndEmail(row, None).1 == row.userId
    ensures !Contains(row.userId, "@") ==>
              NameAndEmail(row, None).1 == "user-" + NatToString(row.id) + "@example.com"
    ensures row.stripeCustomerId != "" && row.stripeCustomerId != Placeholder(row.id) ==>
              NameAndEmail(row, None).0 == row.stripeCustomerId
    ensures !Contains(row.userId, "@") ==>
              NameAndEmail(row, None).0 == Or(row.stripeCustomerId, Placeholder(row.id))
    ensures Contains(row.userId, "@") && (row.stripeCustomerId == "" || row.stripeCustomerId == Placeholder(row.id)) ==>
              NameAndEmail(row, None).0 == NameFromEmail(row.userId)
  {
    if !Contains(row.userId, "@") {
      var e := "user-" + NatToString(row.id) + "@example.com";
      var k := 5 + |NatToString(row.id)|;
      assert e[k..k + 1] == "@";
      assert OccursAt(e, "@", k);
    }
  }

  /** `profilesData.forEach(p => profilesMap.set(p.id, p))`: a later row with
      the same id replaces an earlier one. */
  function ProfilesById(profiles: seq<(string, Profile)>): (m: map<string, Profile>)
    ensures forall k :: k in m <==> exists j :: 0 <= j < |profiles| && profiles[j].0 == k
  {
    if profiles == [] then map[]
    else
      var last := profiles[|profiles| - 1];
      ProfilesById(profiles[..|profiles| - 1])[last.0 := last.1]
  }

  /** The map holds, for each id, the profile of its last row. */
  lemma {:induction false} ProfilesByIdLastWins(profiles: seq<(string, Profile)>, j: nat)
    requires j < |profiles|
    requires forall j' :: j < j' < |profiles| ==> profiles[j'].0 != profiles[j].0
    ensures ProfilesById(profiles)[profiles[j].0] == profiles[j].1
  {
    if j < |profiles| - 1 {
      ProfilesByIdLastWins(profiles[..|profiles| - 1], j);
    }
  }

  /** `profilesMap.get(subscription.user_id)`.  Profiles are fetched only
      for truthy user ids, so a row without one finds no profile. */
  function Lookup(profiles: map<string, Profile>, id: string): Option<Profile>
  {
    if id != "" && id in profiles then Some(profiles[id]) else None
  }

  /** The `User` shown for a stored row. */
  function RowToUser(row: SubscriptionRow, profiles: map<string, Profile>, now: Timestamp): (u: User)
  {
    var (name, email) := NameAndEmail(row, Lookup(profiles, row.userId));
    User(NatToString(row.id), name, email, UiStatus(row, now),
         if row.end.Some? then Some(EpochMillis(row.end.value)) else None,
         PlanAmount(row.planType), Some(PlanInterval(row.planType)),
         EpochMillis(row.createdAt),
         EpochMillis(if row.end.Some? then row.end.value else row.createdAt))
  }

  /** A user shown as in trial has a trial end after `now`; every user has an
      interval; the id is the row id in decimal. */
  lemma RowToUserFacts(row: SubscriptionRow, profiles: map<string, Profile>, now: Timestamp)
    ensures var u := RowToUser(row, profiles, now);
            && (u.status == Trial ==> u.trialEndsAt.Some? && u.trialEndsAt.value > EpochMillis(now))
            && (u.trialEndsAt.Some? <==> row.end.Some?)
            && u.subscriptionInterval.Some?
            && DigitsValue(u.id) == row.id
            && (row.end.None? ==> u.lastActive == u.createdAt)
  {
    UiStatusCases(row, now);
  }

  /** `subscriptionsData.map(...)` */
  function UsersFromRows(rows: seq<SubscriptionRow>, profiles: map<string, Profile>, now: Timestamp): (us: seq<User>)
    ensures |us| == |rows|
    ensures forall i :: 0 <= i < |rows| ==> us[i] == RowToUser(rows[i], profiles, now)
  {
    if rows == [] then [] else [RowToUser(rows[0], profiles, now)] + UsersFromRows(rows[1..], profiles, now)
  }

  /** Rows with distinct ids give users with distinct ids. */
  lemma UsersFromRowsDistinctIds(rows: seq<SubscriptionRow>, profiles: map<string, Profile>, now: Timestamp)
    requires forall i, j :: 0 <= i < j < |rows| ==> rows[i].id != rows[j].id
    ensures var us := UsersFromRows(rows, profiles, now);
            forall i, j :: 0 <= i < j < |us| ==> us[i].id != us[j].id
  {
    var us := UsersFromRows(rows, profiles, now);
    forall i, j | 0 <= i < j < |us| ensures us[i].id != us[j].id {
      if us[i].id == us[j].id {
        NatToStringInjective(rows[i].id, rows[j].id);
      }
    }
  }

  // ---------------------------------------------------------------------------
  // List operations

  /** `users.filter(user => user.id !== userId)` */
  function DeleteById(users: seq<User>, id: string): (r: seq<User>)
  {
    Filter(users, (u: User) => u.id != id)
  }

  /** Delete removes exactly the users with that id and keeps the others. */
  lemma DeleteByIdSpec(users: seq<User>, id: string)
    ensures var r := DeleteById(users, id);
            && (forall i :: 0 <= i < |r| ==> r[i].id != id && r[i] in users)
            && (forall i :: 0 <= i < |users| && users[i].id != id ==> users[i] in r)
            && ((forall i :: 0 <= i < |users| ==> users[i].id != id) ==> r == users)
  {
    if forall i :: 0 <= i < |users| ==> users[i].id != id {
      FilterAll(users, (u: User) => u.id != id);
    }
  }

  /** Delete keeps the order of the users it keeps. */
  lemma DeleteKeepsOrder(a: seq<User>, b: seq<User>, id: string)
    ensures DeleteById(a + b, id) == DeleteById(a, id) + DeleteById(b, id)
  {
    FilterAppend(a, b, (u: User) => u.id != id);
  }

  /** The status written to the database for a status picked in the panel. */
  function StatusToStore(s: UserStatus): (stored: string)
  {
    if s == Expired || s == Cancelled then "inactive" else "active"
  }

  /** The update sent for a status change: the stored status, and for a trial
      a start of `now` and an end fourteen days later. */
  datatype StatusUpdate = StatusUpdate(status: string, start: Option<int>, end: Option<int>)

  function StatusUpdateFor(s: UserStatus, now: int): (p: StatusUpdate)
    ensures p.status == StatusToStore(s)
    ensures p.start.Some? <==> s == Trial
    ensures p.end.Some? <==> s == Trial
    ensures s == Trial ==> p.end.value - p.start.value == TrialMs
  {
    if s == Trial then StatusUpdate(StatusToStore(s), Some(now), Some(now + TrialMs))
    else StatusUpdate(StatusToStore(s), None, None)
  }

  /** What the panel shows for a row after a status change is written back:
      expired and cancelled both come back as expired; active and trial come
      back as trial while the end date is in the future, else as active. */
  lemma StoredStatusReadsBack(s: UserStatus, row: SubscriptionRow, now: Timestamp)
    requires row.status == Some(StatusToStore(s))
    ensures s == Expired || s == Cancelled ==> UiStatus(row, now) == Expired
    ensures s == Active || s == Trial ==>
              UiStatus(row, now) == (if row.end.Some? && Before(now, row.end.value) then Trial else Active)
  {
  }

  /** One user after a status change. */
  function WithStatus(u: User, id: string, s: UserStatus, now: int): User
  {
    if u.id == id then u.(status := s, trialEndsAt := if s == Trial then Some(now + TrialMs) else u.trialEndsAt)
    else u
  }

  /** `users.map(...)` of a status change: only users with that id change,
      in their status, and in their trial end only when the new status is trial. */
  function ChangeStatus(users: seq<User>, id: string, s: UserStatus, now: int): (r: seq<User>)
    ensures |r| == |users|
    ensures forall i :: 0 <= i < |users| && users[i].id != id ==> r[i] == users[i]
    ensures forall i :: 0 <= i < |users| && users[i].id == id ==>
              && r[i].status == s
              && r[i].trialEndsAt == (if s == Trial then Some(now + TrialMs) else users[i].trialEndsAt)
              && r[i] == users[i].(status := r[i].status, trialEndsAt := r[i].trialEndsAt)
  {
    if users == [] then [] else [WithStatus(users[0], id, s, now)] + ChangeStatus(users[1..], id, s, now)
  }

  /** Changing to the same status twice is changing it once. */
  lemma ChangeStatusIdempotent(users: seq<User>, id: string, s: UserStatus, now: int)
    ensures ChangeStatus(ChangeStatus(users, id, s, now), id, s, now) == ChangeStatus(users, id, s, now)
  {
  }

  /** After a change, every user with that id is listed under the new status. */
  lemma ChangedUsersFilterIn(users: seq<User>, id: string, s: UserStatus, now: int)
    ensures var r := ChangeStatus(users, id, s, now);
            forall i :: 0 <= i < |r| && r[i].id == id ==> r[i] in FilterUsers(r, Only(s))
  {
  }

  /** The status stored for a user added through the form. */
  function StatusToInsert(s: UserStatus): string
  {
    if s == Active then "active" else if s == Cancelled then "canceled" else "inactive"
  }

  /** The plan type stored for a billing interval. */
  function PlanTypeFor(interval: Option<Interval>): string
  {
    match interval
    case Some(Monthly) => "Monthly Plan"
    case Some(Yearly) => "Yearly Plan"
    case None => "Free Plan"
  }

  /** Reading a stored plan type back gives the interval and the price:
      monthly 5, yearly 50; a free plan reads as yearly with amount 0. */
  lemma PlanTypeReadsBack(interval: Option<Interval>)
    ensures interval.Some? ==> PlanInterval(Some(PlanTypeFor(interval))) == interval.value
    ensures interval == Some(Monthly) ==> PlanAmount(Some(PlanTypeFor(interval))) == 5
    ensures interval == Some(Yearly) ==> PlanAmount(Some(PlanTypeFor(interval))) == 50
    ensures interval.None? ==> PlanAmount(Some(PlanTypeFor(interval))) == 0
                               && PlanInterval(Some(PlanTypeFor(interval))) == Yearly
  {
    assert OccursAt("Monthly Plan", "Monthly", 0);
    assert OccursAt("Yearly Plan", "Yearly", 0);
    FirstCharAbsent("Yearly Plan", "Monthly", 0);
    FirstCharAbsent("Free Plan", "Monthly", 0);
    FirstCharAbsent("Free Plan", "Yearly", 0);
  }

  /** The record inserted for a new user. */
  datatype SubscriptionInsert = SubscriptionInsert(
    stripeCustomerId: Option<string>,
    userId: string,
    status: string,
    start: Option<int>,
    end: Option<int>,
    planType: string)

  /** The record `handleAddUser` inserts: no customer id, the signed-in
      user's id, the stored status string, a start date only for a trial
      (now), the trial end date and the plan type of the interval. */
  function InsertFor(u: NewUser, authId: string, now: int): (rec: SubscriptionInsert)
    ensures rec.stripeCustomerId.None? && rec.userId == authId
    ensures u.status == Active ==> rec.status == "active"
    ensures u.status == Cancelled ==> rec.status == "canceled"
    ensures u.status == Trial || u.status == Expired ==> rec.status == "inactive"
    ensures rec.start.Some? <==> u.status == Trial
    ensures u.status == Trial ==> rec.start == Some(now)
    ensures rec.end == u.trialEndsAt
    ensures u.subscriptionInterval == Some(Monthly) ==> rec.planType == "Monthly Plan"
    ensures u.subscriptionInterval == Some(Yearly) ==> rec.planType == "Yearly Plan"
    ensures u.subscriptionInterval.None? ==> rec.planType == "Free Plan"
  {
    SubscriptionInsert(None, authId, StatusToInsert(u.status),
                       if u.status == Trial then Some(now) else None,
                       u.trialEndsAt, PlanTypeFor(u.subscriptionInterval))
  }

  /** How the panel shows an inserted status again: active stays active
      (or trial while the end date is ahead), cancelled stays cancelled
      (likewise), and trial and expired both read back as expired. */
  lemma InsertedStatusReadsBack(u: NewUser, authId: string, now: int, row: SubscriptionRow, today: Timestamp)
    requires row.status == Some(InsertFor(u, authId, now).status)
    ensures var future := row.end.Some? && Before(today, row.end.value);
            && (u.status == Active ==> UiStatus(row, today) == (if future then Trial else Active))
            && (u.status == Cancelled ==> UiStatus(row, today) == (if future then Trial else Cancelled))
            && (u.status == Trial || u.status == Expired ==> UiStatus(row, today) == Expired)
  {
  }

  /** `[...prevUsers, newUserWithId]` */
  function AddUser(users: seq<User>, u: NewUser, id: string): (r: seq<User>)
    ensures |r| == |users| + 1 && r[..|users|] == users
    ensures r[|users|].id == id && WithoutId(r[|users|]) == u
  {
    users + [WithId(u, id)]
  }

  /** The filter picked above the table. */
  datatype StatusFilter = All | Only(status: UserStatus)

  /** `filteredUsers` */
  function FilterUsers(users: seq<User>, f: StatusFilter): (r: seq<User>)
  {
    if f.All? then users else Filter(users, (u: User) => u.status == f.status)
  }

  /** "all" shows the list unchanged; a status shows exactly its users, in
      order, as many as there are. */
  lemma {:induction false} FilterUsersSpec(users: seq<User>, f: StatusFilter)
    ensures f.All? ==> FilterUsers(users, f) == users
    ensures f.Only? ==> |FilterUsers(users, f)| == CountWithStatus(users, f.status)
    ensures f.Only? ==> forall i :: 0 <= i < |FilterUsers(users, f)| ==>
              FilterUsers(users, f)[i].status == f.status && FilterUsers(users, f)[i] in users
    ensures f.Only? ==> forall i :: 0 <= i < |users| && users[i].status == f.status ==>
              users[i] in FilterUsers(users, f)
  {
    if f.Only? && users != [] {
      var init := users[..|users| - 1];
      FilterUsersSpec(init, f);
      assert users == init + [users[|users| - 1]];
    }
  }

  /** Filtering keeps the order of the list. */
  lemma FilterUsersKeepsOrder(a: seq<User>, b: seq<User>, f: StatusFilter)
    ensures FilterUsers(a + b, f) == FilterUsers(a, f) + FilterUsers(b, f)
  {
    if f.Only? {
      FilterAppend(a, b, (u: User) => u.status == f.status);
    }
  }

  // ---------------------------------------------------------------------------
  // Panel state

  /** The panel's `users` list and `selectedFilter`.  Each handler replaces
      the list only when its database call succeeded. */
  class Panel {
    var users: seq<User>
    var selectedFilter: StatusFilter

    constructor()
      ensures users == [] && selectedFilter == All
    {
      users := [];
      selectedFilter := All;
    }

    /** `filteredUsers`, what the table receives. */
    function Visible(): seq<User>
      reads this
    {
      FilterUsers(users, selectedFilter)
    }

    /** `fetchUsers` */
    method Load(rows: seq<SubscriptionRow>, profiles: seq<(string, Profile)>, now: Timestamp, ok: bool)
      modifies this
      ensures ok ==> users == UsersFromRows(rows, ProfilesById(profiles), now)
      ensures !ok ==> users == old(users)
      ensures selectedFilter == old(selectedFilter)
    {
      if ok {
        users := UsersFromRows(rows, ProfilesById(profiles), now);
      }
    }

    /** `handleDeleteUser` */
    method Delete(id: string, ok: bool)
      modifies this
      ensures users == if ok then DeleteById(old(users), id) else old(users)
      ensures selectedFilter == old(selectedFilter)
    {
      if ok {
        users := DeleteById(users, id);
      }
    }

    /** `handleStatusChange`: returns the update it sends. */
    method SetStatus(id: string, s: UserStatus, now: int, ok: bool) returns (sent: StatusUpdate)
      modifies this
      ensures sent == StatusUpdateFor(s, now)
      ensures users == if ok then ChangeStatus(old(users), id, s, now) else old(users)
      ensures selectedFilter == old(selectedFilter)
    {
      sent := StatusUpdateFor(s, now);
      if ok {
        users := ChangeStatus(users, id, s, now);
      }
    }

    /** `handleAddUser`: `authOk` says whether creating the auth user
        succeeded and `authId` is its id ("" when it came back without one);
        `insertOk` says whether the insert succeeded.  The record is inserted
        only for a created auth user with an id, and it returns that record.
        The insert reads back the `user_id` it wrote, so the new user's id is
        the auth user's id, not a subscription row id as for loaded users. */
    method Add(u: NewUser, authOk: bool, authId: string, insertOk: bool, now: int)
      returns (inserted: Option<SubscriptionInsert>)
      modifies this
      ensures inserted == if authOk && authId != "" then Some(InsertFor(u, authId, now)) else None
      ensures users == if authOk && authId != "" && insertOk then AddUser(old(users), u, authId) else old(users)
      ensures selectedFilter == old(selectedFilter)
    {
      inserted := None;
      if authOk && authId != "" {
        inserted := Some(InsertFor(u, authId, now));
        if insertOk {
          users := AddUser(users, u, authId);
        }
      }
    }

    /** Picking a filter: "all" shows every user, a status shows exactly
        the users with it. */
    method SetFilter(f: StatusFilter)
      modifies this
      ensures selectedFilter == f && users == old(users)
      ensures f.All? ==> Visible() == users
      ensures f.Only? ==> |Visible()| == CountWithStatus(users, f.status)
      ensures f.Only? ==> forall i :: 0 <= i < |Visible()| ==> Visible()[i].status == f.status
    {
      selectedFilter := f;
      FilterUsersSpec(users, f);
    }
  }
}
