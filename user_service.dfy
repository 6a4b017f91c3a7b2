/**
 * `UserService`: registration against the user's authentication provider, login
 * with a clock-generated token, logout by revoking it, and the partial profile
 * update. The provider's answers are inputs: `None` stands for a failed call.
 */
module UserServices {
  import opened Wrappers
  import opened Domain
  import opened Entities
  import opened UserDao
  import opened TokenDao
  import opened TokenServices
  import opened Outcomes

  /** `RegistrationDTO`: the profile plus the password the provider checks. */
  datatype Registration = Registration(
    email: string,
    name: string,
    dateOfBirth: Date,
    authProvider: AuthProvider,
    password: string,
    weight: Option<real>,
    height: Option<real>,
    maxHeartRate: Option<int>,
    restingHeartRate: Option<int>)
  {
    /** The profile a new user is built from; the password is not kept. */
    function Profile(): (p: UserDto)
      ensures p.id.None? && p.email == email && p.name == name && p.authProvider == authProvider
      ensures p.dateOfBirth == dateOfBirth && p.weight == weight && p.height == height
      ensures p.maxHeartRate == maxHeartRate && p.restingHeartRate == restingHeartRate
    {
      UserDto(None, email, name, dateOfBirth, weight, height, maxHeartRate, restingHeartRate, authProvider)
    }
  }

  /** `UserPhysicalInfoDTO`: every field optional. */
  datatype PhysicalInfo = PhysicalInfo(
    name: Option<string>,
    dateOfBirth: Option<Date>,
    weight: Option<real>,
    height: Option<real>,
    maxHeartRate: Option<int>,
    restingHeartRate: Option<int>)

  /**
   * The profile after `updateUserPhysicalInfo`: a field given in `info` replaces the
   * stored one, a null one keeps it; id, email and provider never change.
   */
  function Merge(p: UserDto, info: PhysicalInfo): (r: UserDto)
    ensures r.id == p.id && r.email == p.email && r.authProvider == p.authProvider
    ensures info.name.Some? ==> r.name == info.name.value
    ensures info.name.None? ==> r.name == p.name
    ensures info.dateOfBirth.Some? ==> r.dateOfBirth == info.dateOfBirth.value
    ensures info.dateOfBirth.None? ==> r.dateOfBirth == p.dateOfBirth
    ensures info.weight.Some? ==> r.weight == info.weight
    ensures info.weight.None? ==> r.weight == p.weight
    ensures info.height.Some? ==> r.height == info.height
    ensures info.height.None? ==> r.height == p.height
    ensures info.maxHeartRate.Some? ==> r.maxHeartRate == info.maxHeartRate
    ensures info.maxHeartRate.None? ==> r.maxHeartRate == p.maxHeartRate
    ensures info.restingHeartRate.Some? ==> r.restingHeartRate == info.restingHeartRate
    ensures info.restingHeartRate.None? ==> r.restingHeartRate == p.restingHeartRate
  {
    p.(name := info.name.GetOr(p.name),
       dateOfBirth := info.dateOfBirth.GetOr(p.dateOfBirth),
       weight := if info.weight.Some? then info.weight else p.weight,
       height := if info.height.Some? then info.height else p.height,
       maxHeartRate := if info.maxHeartRate.Some? then info.maxHeartRate else p.maxHeartRate,
       restingHeartRate := if info.restingHeartRate.Some? then info.restingHeartRate else p.restingHeartRate)
  }

  /** Applying the same update twice is the same as applying it once. */
  lemma MergeIdempotent(p: UserDto, info: PhysicalInfo)
    ensures Merge(Merge(p, info), info) == Merge(p, info)
  {
  }

  /** An update with every field null leaves the profile as it was. */
  lemma MergeEmpty(p: UserDto)
    ensures Merge(p, PhysicalInfo(None, None, None, None, None, None)) == p
  {
  }

  const EmailTaken := "This email is already registered."
  const EmailCheckFailed := "Error communicating with authentication provider for email validation."
  const EmailUnknown := "Email is not registered with the specified provider."
  const PasswordCheckFailed := "Error communicating with authentication provider for password validation."
  const RegisterRejected := "Invalid credentials"
  const NotRegistered := "User must be registered first."
  const LoginRejected := "Invalid credentials."
  const TokenUnknown := "Invalid token."
  const LoggedOut := "User logged out successfully."
  const InfoUpdated := "User info updated successfully."

  /**
   * The status `registerUser` answers with, in the order it checks: a stored email,
   * then the provider's email answer, then its password answer.
   */
  function RegisterStatus(emailTaken: bool, emailValid: Option<bool>, passwordValid: Option<bool>): (status: int)
    ensures status == 201 <==> !emailTaken && emailValid == Some(true) && passwordValid == Some(true)
    ensures emailTaken ==> status == 409
    ensures !emailTaken && emailValid.None? ==> status == 500
  {
    if emailTaken then 409
    else if emailValid.None? then 500
    else if !emailValid.value then 404
    else if passwordValid.None? then 500
    else if !passwordValid.value then 401
    else 201
  }

  class UserService {
    const users: UserStore
    const tokens: TokenStore

    /** Both tables are consistent and every token's owner is a saved user. */
    ghost predicate Valid()
      reads this, users, users.rows, tokens, tokens.rows
    {
      && users.Valid()
      && tokens.Valid()
      && (forall t :: t in tokens.rows && t.user != null ==> t.user in users.rows)
    }

    constructor (users: UserStore, tokens: TokenStore)
      requires users.Valid() && tokens.Valid()
      requires forall t :: t in tokens.rows && t.user != null ==> t.user in users.rows
      ensures Valid() && this.users == users && this.tokens == tokens
    {
      this.users := users;
      this.tokens := tokens;
    }

    /**
     * `registerUser`: 409 for a stored email before the provider is asked; then
     * 500/404 for the email answer and 500/401 for the password answer, with no
     * change; otherwise exactly one new user, built from the registration, is saved
     * and its id returned with 201.
     */
    method Register(reg: Registration, emailValid: Option<bool>, passwordValid: Option<bool>) returns (out: Outcome)
      requires Valid()
      modifies users
      ensures Valid()
      ensures out.Reply?
      ensures out.response.statusCode == RegisterStatus(old(users.FindByEmail(reg.email)).Some?, emailValid, passwordValid)
      ensures old(users.FindByEmail(reg.email)).Some? ==> out == Message(409, "error", EmailTaken)
      ensures old(users.FindByEmail(reg.email)).None? && emailValid.None? ==>
                out == Message(500, "error", EmailCheckFailed)
      ensures old(users.FindByEmail(reg.email)).None? && emailValid == Some(false) ==>
                out == Message(404, "error", EmailUnknown)
      ensures old(users.FindByEmail(reg.email)).None? && emailValid == Some(true) && passwordValid.None? ==>
                out == Message(500, "error", PasswordCheckFailed)
      ensures old(users.FindByEmail(reg.email)).None? && emailValid == Some(true) && passwordValid == Some(false) ==>
                out == Message(401, "error", RegisterRejected)
      ensures out.response.statusCode != 201 ==> users.rows == old(users.rows)
      ensures out.response.statusCode == 201 ==>
        && |users.rows| == |old(users.rows)| + 1
        && users.rows[..|old(users.rows)|] == old(users.rows)
        && var u := users.rows[|old(users.rows)|];
           fresh(u) && u.Profile() == reg.Profile().(id := u.id) && u.id.Some?
           && out.response.data == map["user-id" := Id(u.id)]
    {
      if users.FindByEmail(reg.email).Some? {
        return Message(409, "error", EmailTaken);
      }
      if emailValid.None? {
        return Message(500, "error", EmailCheckFailed);
      }
      if !emailValid.value {
        return Message(404, "error", EmailUnknown);
      }
      if passwordValid.None? {
        return Message(500, "error", PasswordCheckFailed);
      }
      if !passwordValid.value {
        return Message(401, "error", RegisterRejected);
      }
      var u := new User(reg.Profile());
      users.Save(u);
      out := Reply(ServerResponse.Of(201, "user-id", Id(u.id)));
    }

    /**
     * `loginUser`: 400 for an unknown email, 500/401 for the provider's answer, with
     * no change; otherwise one new live token for that user, whose string is the
     * clock reading, is stored and returned with 200. If no live token had that
     * string before, it now resolves to the user.
     */
    method Login(email: string, passwordValid: Option<bool>, now: nat) returns (out: Outcome)
      requires Valid()
      modifies tokens
      ensures Valid()
      ensures out.Reply?
      ensures old(users.FindByEmail(email)).None? ==> out == Message(400, "error", NotRegistered)
      ensures old(users.FindByEmail(email)).Some? && passwordValid.None? ==> out == Message(500, "error", PasswordCheckFailed)
      ensures old(users.FindByEmail(email)).Some? && passwordValid == Some(false) ==> out == Message(401, "error", LoginRejected)
      ensures out.response.statusCode != 200 ==> tokens.rows == old(tokens.rows)
      ensures out.response.statusCode == 200 <==> old(users.FindByEmail(email)).Some? && passwordValid == Some(true)
      ensures out.response.statusCode == 200 ==>
        && out.response.data == map["token" := Text(GenerateToken(now))]
        && |tokens.rows| == |old(tokens.rows)| + 1
        && tokens.rows[..|old(tokens.rows)|] == old(tokens.rows)
        && var t := tokens.rows[|old(tokens.rows)|];
           fresh(t) && t.user == old(users.FindByEmail(email)).value && t.token == GenerateToken(now) && !t.revoked
      ensures out.response.statusCode == 200 &&
              OwnedOnlyBy(old(tokens.rows), GenerateToken(now), old(users.FindByEmail(email)).value) ==>
                GetUserFromToken(tokens, GenerateToken(now)) == Ok(old(users.FindByEmail(email)).value)
    {
      var found := users.FindByEmail(email);
      if found.None? {
        return Message(400, "error", NotRegistered);
      }
      if passwordValid.None? {
        return Message(500, "error", PasswordCheckFailed);
      }
      if !passwordValid.value {
        return Message(401, "error", LoginRejected);
      }
      var token := GenerateToken(now);
      var t := IssueToken(found.value, token);
      out := Reply(ServerResponse.Of(200, "token", Text(token)));
    }

    /**
     * Stores a new live token for a saved user. The string then resolves to that
     * user unless a live token of another user already had it.
     */
    method IssueToken(user: User, token: string) returns (t: UserToken)
      requires Valid() && user in users.rows
      modifies tokens
      ensures Valid()
      ensures fresh(t) && tokens.rows == old(tokens.rows) + [t]
      ensures t.user == user && t.token == token && !t.revoked
      ensures OwnedOnlyBy(old(tokens.rows), token, user) ==> GetUserFromToken(tokens, token) == Ok(user)
    {
      ghost var before := tokens.rows;
      t := new UserToken(user, token);
      tokens.Save(t);
      assert forall x :: x in tokens.rows ==> x in before || x == t;
      if OwnedOnlyBy(before, token, user) {
        tokens.AppendedTokenResolves(before, t, user, token);
        assert tokens.FindUserByToken(token) == Unique(user);
      }
    }

    /**
     * `logoutUser`: 400 when no live token has this string, with no change;
     * otherwise that token is revoked (and nothing else changes), so the string no
     * longer resolves, and 200 is returned. Two live tokens with the string make
     * the lookup fail.
     */
    method Logout(token: string) returns (out: Outcome)
      requires Valid()
      modifies tokens.rows
      ensures Valid()
      ensures tokens.rows == old(tokens.rows)
      ensures old(tokens.FindByToken(token)).NoMatch? ==> out == Message(400, "error", TokenUnknown)
      ensures old(tokens.FindByToken(token)).NotUnique? ==> out == Thrown(IncorrectResultSize)
      ensures !old(tokens.FindByToken(token)).Unique? ==> forall t :: t in tokens.rows ==> t.revoked == old(t.revoked)
      ensures old(tokens.FindByToken(token)).Unique? ==>
        && out == Message(200, "message", LoggedOut)
        && old(tokens.FindByToken(token)).value.revoked
        && (forall t :: t in tokens.rows && t != old(tokens.FindByToken(token)).value ==> t.revoked == old(t.revoked))
        && tokens.FindByToken(token) == NoMatch
        && GetUserFromToken(tokens, token) == Err(InvalidToken(InvalidTokenMessage))
      ensures forall t :: t in tokens.rows ==> t.token == old(t.token) && t.user == old(t.user) && t.id == old(t.id)
    {
      match tokens.FindByToken(token)
      case NoMatch =>
        out := Message(400, "error", TokenUnknown);
      case NotUnique =>
        out := Thrown(IncorrectResultSize);
      case Unique(t) =>
        ghost var live := LiveMatches(tokens.rows, token);
        assert live == [t];
        t.revoked := true;
        assert forall x :: x in tokens.rows && x.token == token ==> x.revoked by {
          forall x | x in tokens.rows && x.token == token && x != t ensures x.revoked {
          }
        }
        out := Message(200, "message", LoggedOut);
    }

    /**
     * `updateUserPhysicalInfo`: the token's user gets `Merge(profile, info)`, and no
     * other user and none of the user's lists change; 200. An unresolvable token
     * escapes as `InvalidTokenException` with no change.
     */
    method UpdatePhysicalInfo(token: string, info: PhysicalInfo) returns (out: Outcome)
      requires Valid()
      modifies users.rows
      ensures Valid()
      ensures users.rows == old(users.rows)
      ensures old(GetUserFromToken(tokens, token)).Err? ==>
                out == Thrown(old(GetUserFromToken(tokens, token)).error) &&
                forall u :: u in users.rows ==> u.Profile() == old(u.Profile())
      ensures old(GetUserFromToken(tokens, token)).Ok? ==>
        && var user := old(GetUserFromToken(tokens, token)).value;
           user.Profile() == Merge(old(user.Profile()), info)
           && (forall u :: u in users.rows && u != user ==> u.Profile() == old(u.Profile()))
           && out == Message(200, "message", InfoUpdated)
      ensures forall u :: u in users.rows ==>
                u.sessions == old(u.sessions) && u.challenges == old(u.challenges) &&
                u.createdChallenges == old(u.createdChallenges) && u.tokens == old(u.tokens)
    {
      var found := GetUserFromToken(tokens, token);
      if found.Err? {
        return Thrown(found.error);
      }
      var user := found.value;
      Apply(user, info);
      out := Message(200, "message", InfoUpdated);
    }

    /** The run of conditional setters on one user: each field takes its merged value, which is the old one where `info` is null. */
    static method Apply(user: User, info: PhysicalInfo)
      modifies user
      ensures user.Profile() == Merge(old(user.Profile()), info)
      ensures user.sessions == old(user.sessions) && user.challenges == old(user.challenges)
      ensures user.createdChallenges == old(user.createdChallenges) && user.tokens == old(user.tokens)
    {
      var merged := Merge(user.Profile(), info);
      user.name, user.dateOfBirth, user.weight := merged.name, merged.dateOfBirth, merged.weight;
      user.height, user.maxHeartRate, user.restingHeartRate := merged.height, merged.maxHeartRate, merged.restingHeartRate;
    }
  }
}
