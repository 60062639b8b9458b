/** The add-user dialog: its form fields, the checks made on submit (both
    fields filled in, an email of the shape `^[^\s@]+@[^\s@]+\.[^\s@]+$`),
    the user it hands on, and the reset that follows. */
module AddUserModal {
  import opened Common
  import opened Calendar
  import opened Records

  /** Fourteen days in milliseconds: the trial a new trial user gets. */
  const TrialMs: int := 14 * DayMs

  /** The characters `\s` matches in a JavaScript regular expression. */
  predicate IsJsWhitespace(c: char)
  {
    || c == '\t' || c == '\n' || c == '\U{000B}' || c == '\U{000C}' || c == '\r' || c == ' '
    || c == '\U{00A0}' || c == '\U{1680}' || ('\U{2000}' <= c <= '\U{200A}')
    || c == '\U{2028}' || c == '\U{2029}' || c == '\U{202F}' || c == '\U{205F}'
    || c == '\U{3000}' || c == '\U{FEFF}'
  }

  /** A character of the class `[^\s@]`. */
  predicate EmailChar(c: char)
  {
    !IsJsWhitespace(c) && c != '@'
  }

  /** One or more characters of `[^\s@]`. */
  predicate EmailRun(s: string)
  {
    |s| > 0 && forall k :: 0 <= k < |s| ==> EmailChar(s[k])
  }

  /** `^[^\s@]+@[^\s@]+\.[^\s@]+$`, read off the pattern: three runs of
      `[^\s@]`, the first two separated by `@`, the last two by a dot. */
  ghost predicate MatchesEmailPattern(s: string)
  {
    exists i, j :: 0 <= i < j < |s| && s[i] == '@' && s[j] == '.'
                   && EmailRun(s[..i]) && EmailRun(s[i + 1..j]) && EmailRun(s[j + 1..])
  }

  function AllChars(s: string, p: char -> bool): (b: bool)
    ensures b <==> forall k :: 0 <= k < |s| ==> p(s[k])
  {
    s == [] || (p(s[0]) && AllChars(s[1..], p))
  }

  /** The check made in place of the regular expression: no whitespace, one
      `@` with something before it, and a dot in the domain that is neither
      its first nor its last character. */
  function ValidEmail(s: string): bool
  {
    && AllChars(s, (c: char) => !IsJsWhitespace(c))
    && '@' in s
    && var i := IndexOf(s, '@');
       var domain := s[i + 1..];
       && i > 0
       && '@' !in domain
       && |domain| >= 3
       && '.' in domain[1..|domain| - 1]
  }

  lemma RunHasEmailChars(s: string, lo: nat, hi: nat)
    requires lo <= hi <= |s| && EmailRun(s[lo..hi])
    ensures forall k :: lo <= k < hi ==> EmailChar(s[k])
  {
    var run := s[lo..hi];
    forall k | lo <= k < hi ensures EmailChar(s[k]) {
      assert s[k] == run[k - lo];
    }
  }

  lemma EmailCharsMakeRun(s: string, lo: nat, hi: nat)
    requires lo < hi <= |s| && forall k :: lo <= k < hi ==> EmailChar(s[k])
    ensures EmailRun(s[lo..hi])
  {
    var run := s[lo..hi];
    forall k | 0 <= k < |run| ensures EmailChar(run[k]) {
      assert run[k] == s[lo + k];
    }
  }

  lemma ValidEmailMatches(s: string)
    requires ValidEmail(s)
    ensures MatchesEmailPattern(s)
  {
    var i := IndexOf(s, '@');
    var domain := s[i + 1..];
    var inner := domain[1..|domain| - 1];
    var d := IndexOf(inner, '.');
    var j := i + 2 + d;
    assert s[j] == domain[d + 1] == '.';
    forall k | 0 <= k < |s| && k != i ensures EmailChar(s[k]) {
      if k > i {
        assert s[k] == domain[k - i - 1];
      }
    }
    EmailCharsMakeRun(s, 0, i);
    EmailCharsMakeRun(s, i + 1, j);
    EmailCharsMakeRun(s, j + 1, |s|);
    assert s[..i] == s[0..i] && s[j + 1..] == s[j + 1..|s|];
  }

  /** The pattern's matches, split at their `@` and their dot. */
  predicate SplitMatch(s: string, i: int, j: int)
  {
    && 0 <= i < j < |s| && s[i] == '@' && s[j] == '.' && 0 < i && i + 1 < j && j + 1 < |s|
    && forall k :: 0 <= k < |s| && k != i && k != j ==> EmailChar(s[k])
  }

  lemma SplitMatchValid(s: string, i: int, j: int)
    requires SplitMatch(s, i, j)
    ensures ValidEmail(s)
  {
    assert forall k :: 0 <= k < |s| ==> !IsJsWhitespace(s[k]);
    assert '@' !in s[..i];
    assert IndexOf(s, '@') == i;
    var domain := s[i + 1..];
    assert forall k :: 0 <= k < |domain| ==> domain[k] == s[i + 1 + k];
    assert '@' !in domain;
    assert domain[1..|domain| - 1][j - i - 2] == '.';
  }

  lemma PatternMatchesValid(s: string)
    requires MatchesEmailPattern(s)
    ensures ValidEmail(s)
  {
    var i, j :| 0 <= i < j < |s| && s[i] == '@' && s[j] == '.'
                && EmailRun(s[..i]) && EmailRun(s[i + 1..j]) && EmailRun(s[j + 1..]);
    assert s[..i] == s[0..i] && s[j + 1..] == s[j + 1..|s|];
    RunHasEmailChars(s, 0, i);
    RunHasEmailChars(s, i + 1, j);
    RunHasEmailChars(s, j + 1, |s|);
    SplitMatchValid(s, i, j);
  }

  /** The hand-written check accepts exactly the strings the pattern matches. */
  lemma ValidEmailIffPattern(s: string)
    ensures ValidEmail(s) <==> MatchesEmailPattern(s)
  {
    if ValidEmail(s) {
      ValidEmailMatches(s);
    }
    if MatchesEmailPattern(s) {
      PatternMatchesValid(s);
    }
  }

  /** What pressing Submit does. */
  datatype SubmitOutcome = MissingFields | InvalidEmail | Submitted(user: NewUser)

  /** The outcome of a submit with the given field values at time `now`. */
  function SubmitResult(name: string, email: string, status: UserStatus, amount: int,
                        interval: Option<Interval>, now: int): (o: SubmitOutcome)
    ensures o == MissingFields <==> name == "" || email == ""
    ensures o == InvalidEmail <==> name != "" && email != "" && !MatchesEmailPattern(email)
    ensures o.Submitted? ==> o.user.name == name && o.user.email == email && o.user.status == status
  {
    ValidEmailIffPattern(email);
    if name == "" || email == "" then MissingFields
    else if !ValidEmail(email) then InvalidEmail
    else
      Submitted(NewUser(name, email, status,
                        if status == Trial then Some(now + TrialMs) else None,
                        if status == Active then amount else 0,
                        if status == Active then interval else None,
                        now, now))
  }

  /** A submitted user has a trial end, fourteen days out, exactly when it is
      a trial user; keeps amount and interval only when active; and was
      created and last active at `now`. */
  lemma SubmittedUserFacts(name: string, email: string, status: UserStatus, amount: int,
                           interval: Option<Interval>, now: int)
    requires SubmitResult(name, email, status, amount, interval, now).Submitted?
    ensures var u := SubmitResult(name, email, status, amount, interval, now).user;
            && (u.trialEndsAt.Some? <==> status == Trial)
            && (status == Trial ==> u.trialEndsAt.value - now == TrialMs)
            && (status != Active ==> u.subscriptionAmount == 0 && u.subscriptionInterval.None?)
            && (status == Active ==> u.subscriptionAmount == amount && u.subscriptionInterval == interval)
            && u.createdAt == now && u.lastActive == now
            && Includes(u.email, "@")
  {
    ValidEmailIffPattern(email);
    var i := IndexOf(email, '@');
    assert email[i..i + 1] == "@";
    assert OccursAt(email, "@", i);
  }

  /** The dialog's form state. */
  class Form {
    var name: string
    var email: string
    var status: UserStatus
    var subscriptionAmount: int
    var subscriptionInterval: Option<Interval>

    /** The fields as the dialog opens and as `resetForm` leaves them. */
    predicate IsBlank()
      reads this
    {
      name == "" && email == "" && status == Trial && subscriptionAmount == 0 && subscriptionInterval.None?
    }

    constructor()
      ensures IsBlank()
    {
      name, email, status := "", "", Trial;
      subscriptionAmount, subscriptionInterval := 0, None;
    }

    /** `resetForm` */
    method Reset()
      modifies this
      ensures IsBlank()
    {
      name := "";
      email := "";
      status := Trial;
      subscriptionAmount := 0;
      subscriptionInterval := None;
    }

    /** `handleSubmit`: a rejected submit leaves the form as it is; an
        accepted one hands on the user once and blanks the form. */
    method Submit(now: int) returns (outcome: SubmitOutcome)
      modifies this
      ensures outcome == SubmitResult(old(name), old(email), old(status), old(subscriptionAmount),
                                      old(subscriptionInterval), now)
      ensures outcome.Submitted? ==> IsBlank()
      ensures !outcome.Submitted? ==> unchanged(this)
    {
      outcome := SubmitResult(name, email, status, subscriptionAmount, subscriptionInterval, now);
      if outcome.Submitted? {
        Reset();
      }
    }
  }
}
