/**
 * `com.cliente.controller.ClientController`: the web client's page logic. What is
 * modelled is how accepted challenges are sorted into periods, how participants
 * are ordered, and which flag an error reply raises on the register and login
 * pages. Thymeleaf models, sessions and redirects are reduced to the values the
 * pages show.
 */
module ClientController {
  import opened Wrappers
  import opened Domain
  import opened Lists
  import opened Text
  import opened Json
  import ServiceProxy
  import UserServices

  /** One entry of the "challenges" list, with its two dates already parsed. */
  datatype AcceptedChallenge = AcceptedChallenge(startDate: Date, endDate: Date, fields: map<string, Json>)

  /** The three lists of the "my challenges" page. */
  datatype Period = Completed | Future | Active

  /** `isChallengeActive` of the challenge detail page. */
  function IsChallengeActive(startDate: Date, endDate: Date, now: Date): (b: bool)
    ensures b <==> startDate <= now <= endDate
  {
    (startDate < now || startDate == now) && (endDate > now || endDate == now)
  }

  /**
   * The if-chain of `showMyChallenges`: completed iff the end is past; future iff
   * the start is ahead and the end is not past; active iff today lies within the
   * dates, the same test the detail page calls `isChallengeActive`.
   */
  function PeriodOf(c: AcceptedChallenge, today: Date): (p: Period)
    ensures p == Completed <==> c.endDate < today
    ensures p == Future <==> c.startDate > today && c.endDate >= today
    ensures p == Active <==> c.startDate <= today <= c.endDate
    ensures p == Active <==> IsChallengeActive(c.startDate, c.endDate, today)
  {
    if c.endDate < today then Completed
    else if c.startDate > today then Future
    else Active
  }

  datatype Buckets = Buckets(active: seq<AcceptedChallenge>, completed: seq<AcceptedChallenge>, future: seq<AcceptedChallenge>)

  /** The challenges of `s` whose period is `p`, in their order in `s`. */
  function InPeriod(s: seq<AcceptedChallenge>, today: Date, p: Period): (r: seq<AcceptedChallenge>)
    ensures forall c :: c in r <==> c in s && PeriodOf(c, today) == p
  {
    if s == [] then []
    else InPeriod(s[..|s| - 1], today, p) + (if PeriodOf(s[|s| - 1], today) == p then [s[|s| - 1]] else [])
  }

  /** The loop of `showMyChallenges`: each bucket holds the challenges of its period, in input order. */
  method Bucket(challenges: seq<AcceptedChallenge>, today: Date) returns (b: Buckets)
    ensures b.completed == InPeriod(challenges, today, Completed)
    ensures b.future == InPeriod(challenges, today, Future)
    ensures b.active == InPeriod(challenges, today, Active)
  {
    var active: seq<AcceptedChallenge> := [];
    var completed: seq<AcceptedChallenge> := [];
    var future: seq<AcceptedChallenge> := [];
    var i := 0;
    while i < |challenges|
      invariant 0 <= i <= |challenges|
      invariant completed == InPeriod(challenges[..i], today, Completed)
      invariant future == InPeriod(challenges[..i], today, Future)
      invariant active == InPeriod(challenges[..i], today, Active)
    {
      var challenge := challenges[i];
      assert challenges[..i + 1][..i] == challenges[..i];
      if challenge.endDate < today {
        completed := completed + [challenge];
      } else if challenge.startDate > today {
        future := future + [challenge];
      } else {
        active := active + [challenge];
      }
      i := i + 1;
    }
    assert challenges[..i] == challenges;
    b := Buckets(active, completed, future);
  }

  /** Every accepted challenge lands in exactly one bucket: the buckets together are a permutation of the input. */
  lemma {:induction false} BucketsPartition(challenges: seq<AcceptedChallenge>, today: Date)
    ensures multiset(InPeriod(challenges, today, Completed))
          + multiset(InPeriod(challenges, today, Future))
          + multiset(InPeriod(challenges, today, Active)) == multiset(challenges)
    decreases |challenges|
  {
    if challenges != [] {
      var init := challenges[..|challenges| - 1];
      assert challenges == init + [challenges[|challenges| - 1]];
      BucketsPartition(init, today);
    }
  }

  /** The "my challenges" page: a redirect to login without a token; no buckets when the fetch failed. */
  datatype MyChallengesPage = RedirectToLogin | MyChallenges(buckets: Option<Buckets>)

  /**
   * `showMyChallenges`. `accepted` is the parsed "challenges" list of a success
   * reply, None for any other reply.
   */
  method ShowMyChallenges(token: Option<string>, accepted: Option<seq<AcceptedChallenge>>, today: Date) returns (page: MyChallengesPage)
    ensures token.None? <==> page == RedirectToLogin
    ensures token.Some? && accepted.None? ==> page == MyChallenges(None)
    ensures token.Some? && accepted.Some? ==>
      page.MyChallenges? && page.buckets.Some?
      && var b := page.buckets.value;
      && multiset(b.completed) + multiset(b.future) + multiset(b.active) == multiset(accepted.value)
      && (forall c :: c in b.completed ==> c.endDate < today)
      && (forall c :: c in b.future ==> today < c.startDate && today <= c.endDate)
      && (forall c :: c in b.active ==> c.startDate <= today <= c.endDate)
      && b.completed == InPeriod(accepted.value, today, Completed)
      && b.future == InPeriod(accepted.value, today, Future)
      && b.active == InPeriod(accepted.value, today, Active)
  {
    if token.None? {
      return RedirectToLogin;
    }
    if accepted.Some? {
      var b := Bucket(accepted.value, today);
      BucketsPartition(accepted.value, today);
      page := MyChallenges(Some(b));
    } else {
      page := MyChallenges(None);
    }
  }

  /** One participant of the "participants" list. */
  datatype Participant = Participant(fields: map<string, Json>)

  /** The sort key: "progress" when it is a number, 0 otherwise. */
  function ProgressKey(p: Participant): real {
    if "progress" in p.fields && p.fields["progress"].JNumber? then p.fields["progress"].n else 0.0
  }

  predicate NonIncreasing(s: seq<Participant>) {
    forall i, j :: 0 <= i < j < |s| ==> ProgressKey(s[i]) >= ProgressKey(s[j])
  }

  /**
   * `participants.sort(comparingDouble(progress).reversed())`, as an insertion sort:
   * the list is rearranged in place, highest progress first.
   */
  method SortParticipants(a: array<Participant>)
    modifies a
    ensures NonIncreasing(a[..])
    ensures multiset(a[..]) == multiset(old(a[..]))
  {
    var i := 0;
    while i < a.Length
      invariant 0 <= i <= a.Length
      invariant NonIncreasing(a[..i])
      invariant multiset(a[..]) == multiset(old(a[..]))
    {
      Insert(a, i);
      i := i + 1;
    }
    assert a[..i] == a[..];
  }

  /** Moves `a[i]` left past every smaller key, so that `a[..i + 1]` is sorted. */
  method Insert(a: array<Participant>, i: int)
    requires 0 <= i < a.Length
    requires NonIncreasing(a[..i])
    modifies a
    ensures NonIncreasing(a[..i + 1])
    ensures multiset(a[..]) == multiset(old(a[..]))
  {
    var j := i;
    while j > 0 && ProgressKey(a[j - 1]) < ProgressKey(a[j])
      invariant 0 <= j <= i
      invariant forall k, l :: 0 <= k < l <= i && k != j && l != j ==> ProgressKey(a[k]) >= ProgressKey(a[l])
      invariant forall l :: j < l <= i ==> ProgressKey(a[j]) > ProgressKey(a[l])
      invariant multiset(a[..]) == multiset(old(a[..]))
    {
      a[j - 1], a[j] := a[j], a[j - 1];
      j := j - 1;
    }
  }

  /** The flag the register page raises. */
  datatype RegisterFlag = RegisterInvalidCredentials | AlreadyRegistered | RegisterUnexpected

  /** The flag the login page raises. */
  datatype LoginFlag = LoginInvalidCredentials | NotRegistered | LoginUnexpected

  /** `registerUser`'s reading of a client-error reply. */
  function RegisterErrorFlag(errors: map<string, string>): (f: RegisterFlag)
    ensures "error" !in errors ==> f == RegisterUnexpected
    ensures "error" in errors ==>
      var m := errors["error"];
      && (f == RegisterInvalidCredentials <==> Contains(m, "not registered") || Contains(m, "credentials"))
      && (f == AlreadyRegistered <==> !Contains(m, "not registered") && !Contains(m, "credentials") && Contains(m, "already registered"))
  {
    if "error" in errors then
      var m := errors["error"];
      if Contains(m, "not registered") || Contains(m, "credentials") then RegisterInvalidCredentials
      else if Contains(m, "already registered") then AlreadyRegistered
      else RegisterUnexpected
    else RegisterUnexpected
  }

  /** `loginUser`'s reading of a client-error reply. */
  function LoginErrorFlag(errors: map<string, string>): (f: LoginFlag)
    ensures "error" !in errors ==> f == LoginUnexpected
    ensures "error" in errors ==>
      var m := errors["error"];
      && (f == LoginInvalidCredentials <==> Contains(m, "credentials"))
      && (f == NotRegistered <==> !Contains(m, "credentials") && Contains(m, "must be registered"))
  {
    if "error" in errors then
      var m := errors["error"];
      if Contains(m, "credentials") then LoginInvalidCredentials
      else if Contains(m, "must be registered") then NotRegistered
      else LoginUnexpected
    else LoginUnexpected
  }

  /**
   * The login page after a reply: a success logs in (None); a client error raises
   * the flag its message selects; a null or other reply is unexpected.
   */
  function LoginPageFlag(response: ServiceProxy.Handled): (f: Option<LoginFlag>)
    ensures response.Success? <==> f.None?
    ensures response.ClientError? ==> f == Some(LoginErrorFlag(response.errors))
    ensures response.NoResponse? ==> f == Some(LoginUnexpected)
  {
    match response
    case Success(_) => None
    case ClientError(errors) => Some(LoginErrorFlag(errors))
    case NoResponse => Some(LoginUnexpected)
  }

  /**
   * The register page after the register reply and, when it succeeded, the reply
   * to the automatic login: None only when both succeeded.
   */
  function RegisterPageFlag(response: ServiceProxy.Handled, loginResponse: ServiceProxy.Handled): (f: Option<RegisterFlag>)
    ensures f.None? <==> response.Success? && loginResponse.Success?
    ensures response.ClientError? ==> f == Some(RegisterErrorFlag(response.errors))
    ensures response.NoResponse? ==> f == Some(RegisterUnexpected)
    ensures response.Success? && !loginResponse.Success? ==> f == Some(RegisterUnexpected)
  {
    match response
    case Success(_) => if loginResponse.Success? then None else Some(RegisterUnexpected)
    case ClientError(errors) => Some(RegisterErrorFlag(errors))
    case NoResponse => Some(RegisterUnexpected)
  }

  /** The server's error messages, cut around the phrases the pages test for. */
  lemma EmailTakenText()
    ensures UserServices.EmailTaken == "This email is " + "already registered" + "."
  {
  }

  lemma EmailTakenLacks()
    ensures 'n' !in UserServices.EmailTaken && 'c' !in UserServices.EmailTaken
  {
  }

  lemma EmailUnknownText()
    ensures "Email is " + "not registered" <= UserServices.EmailUnknown
  {
  }

  lemma NotRegisteredText()
    ensures UserServices.NotRegistered == "User " + "must be registered" + " first."
    ensures 'c' !in UserServices.NotRegistered
  {
  }

  lemma RejectionsText()
    ensures UserServices.RegisterRejected == "Invalid " + "credentials" + ""
    ensures UserServices.LoginRejected == "Invalid " + "credentials" + "."
  {
  }

  /** Which of the tested phrases the server's error messages contain. */
  lemma EmailTakenMentions()
    ensures Contains(UserServices.EmailTaken, "already registered")
    ensures !Contains(UserServices.EmailTaken, "not registered") && !Contains(UserServices.EmailTaken, "credentials")
  {
    EmailTakenText();
    EmailTakenLacks();
    FoundIn("This email is ", "already registered", ".");
    AbsentChar(UserServices.EmailTaken, "not registered", 'n');
    AbsentChar(UserServices.EmailTaken, "credentials", 'c');
  }

  lemma EmailUnknownMentions()
    ensures Contains(UserServices.EmailUnknown, "not registered")
  {
    EmailUnknownText();
    var m := UserServices.EmailUnknown;
    assert m == "Email is " + "not registered" + m[23..];
    FoundIn("Email is ", "not registered", m[23..]);
  }

  lemma NotRegisteredMentions()
    ensures Contains(UserServices.NotRegistered, "must be registered")
    ensures !Contains(UserServices.NotRegistered, "credentials")
  {
    NotRegisteredText();
    FoundIn("User ", "must be registered", " first.");
    AbsentChar(UserServices.NotRegistered, "credentials", 'c');
  }

  lemma RejectionsMention()
    ensures Contains(UserServices.RegisterRejected, "credentials")
    ensures Contains(UserServices.LoginRejected, "credentials")
  {
    RejectionsText();
    FoundIn("Invalid ", "credentials", "");
    FoundIn("Invalid ", "credentials", ".");
  }

  /**
   * The server's register error messages raise the intended flags: a taken email
   * shows "already registered"; an email the provider does not know and rejected
   * credentials show "invalid credentials".
   */
  lemma RegisterMessagesRaiseIntendedFlags()
    ensures RegisterErrorFlag(map["error" := UserServices.EmailTaken]) == AlreadyRegistered
    ensures RegisterErrorFlag(map["error" := UserServices.EmailUnknown]) == RegisterInvalidCredentials
    ensures RegisterErrorFlag(map["error" := UserServices.RegisterRejected]) == RegisterInvalidCredentials
  {
    EmailTakenMentions();
    EmailUnknownMentions();
    RejectionsMention();
  }

  /**
   * The server's login error messages raise the intended flags: an unknown user
   * shows "not registered", a wrong password "invalid credentials".
   */
  lemma LoginMessagesRaiseIntendedFlags()
    ensures LoginErrorFlag(map["error" := UserServices.NotRegistered]) == NotRegistered
    ensures LoginErrorFlag(map["error" := UserServices.LoginRejected]) == LoginInvalidCredentials
  {
    NotRegisteredMentions();
    RejectionsMention();
  }
}
