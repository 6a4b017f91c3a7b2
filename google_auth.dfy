/**
 * The Google authentication service: `LoginDTO`'s validating constructor and
 * `GoogleAuthService` over the `GoogleUser` table, whose email column is unique.
 */
module GoogleAuth {
  import opened Wrappers
  import opened Json
  import ServerResponse

  const EmailRequired := "Email is required."
  const PasswordRequired := "Password is required."
  const InvalidLogin := "Invalid email or password"
  const EmailTaken := "Email already registered"
  const Registered := "User registered successfully"

  datatype LoginDto = LoginDto(email: string, password: string)

  /**
   * The `LoginDTO` constructor: the email is checked first, then the password;
   * a null or empty value throws `IllegalArgumentException` (the `Err` message).
   */
  function NewLoginDto(email: Option<string>, password: Option<string>): (r: Result<LoginDto, string>)
    ensures (email.None? || email.value == "") ==> r == Err(EmailRequired)
    ensures email.Some? && email.value != "" && (password.None? || password.value == "") ==> r == Err(PasswordRequired)
    ensures r.Ok? <==> email.Some? && email.value != "" && password.Some? && password.value != ""
    ensures r.Ok? ==> r.value == LoginDto(email.value, password.value)
  {
    if email.None? || email.value == "" then Err(EmailRequired)
    else if password.None? || password.value == "" then Err(PasswordRequired)
    else Ok(LoginDto(email.value, password.value))
  }

  /** Whitespace only, as `Character.isWhitespace` counts it for ASCII text. */
  predicate Blank(s: string) {
    forall i :: 0 <= i < |s| ==> s[i] in {' ', '\t', '\n', '\r', '\U{B}', '\U{C}'}
  }

  /**
   * The check is `isEmpty`, not `isBlank`: any non-empty whitespace-only email and
   * password are accepted as given.
   */
  lemma BlankCredentialsAccepted(email: string, password: string)
    requires email != "" && password != "" && Blank(email) && Blank(password)
    ensures NewLoginDto(Some(email), Some(password)) == Ok(LoginDto(email, password))
  {
  }

  /** A row of the `GoogleUser` table. */
  datatype GoogleUser = GoogleUser(id: nat, email: string, password: string)

  /** The table's unique email column. */
  predicate UniqueEmails(users: seq<GoogleUser>) {
    forall i, j :: 0 <= i < j < |users| ==> users[i].email != users[j].email
  }

  /** `findByEmail`: the user with that email, if any. */
  function FindByEmail(users: seq<GoogleUser>, email: string): (r: Option<GoogleUser>)
    ensures r.Some? ==> r.value in users && r.value.email == email
    ensures r.None? <==> forall u :: u in users ==> u.email != email
  {
    if users == [] then None
    else if users[0].email == email then Some(users[0])
    else
      var r := FindByEmail(users[1..], email);
      assert forall u :: u in users ==> u == users[0] || u in users[1..];
      r
  }

  type Reply = ServerResponse.ResponseEntity<map<string, Json>>

  /**
   * `validateEmailAndPassword`: 200 with `valid: true` iff a user with that
   * email has exactly that password, otherwise 401.
   */
  function Validate(users: seq<GoogleUser>, dto: LoginDto): (r: Reply)
    requires UniqueEmails(users)
    ensures (r.status == 200) <==> exists u :: u in users && u.email == dto.email && u.password == dto.password
    ensures r.status == 200 ==> r.body == map["valid" := JBool(true)]
    ensures r.status != 200 ==> r.status == 401 && r.body == map["error" := JString(InvalidLogin)]
  {
    var user := FindByEmail(users, dto.email);
    if user.Some? && user.value.password == dto.password then
      ServerResponse.ResponseEntity(200, map["valid" := JBool(true)])
    else
      assert forall u :: u in users && u.email == dto.email ==> u == user.value by {
        forall u | u in users && u.email == dto.email ensures u == user.value {
          var i :| 0 <= i < |users| && users[i] == u;
          var j :| 0 <= j < |users| && users[j] == user.value;
          assert i == j;
        }
      }
      ServerResponse.ResponseEntity(401, map["error" := JString(InvalidLogin)])
  }

  /** `verifyEmail`: true iff a user with that email exists. */
  function VerifyEmail(users: seq<GoogleUser>, email: string): (b: bool)
    ensures b <==> exists u :: u in users && u.email == email
  {
    FindByEmail(users, email).Some?
  }

  /** A user added under a new email verifies and validates with its password, and with no other. */
  lemma RegisteredUserValidates(users: seq<GoogleUser>, u: GoogleUser, guess: string)
    requires UniqueEmails(users)
    requires FindByEmail(users, u.email).None?
    ensures UniqueEmails(users + [u])
    ensures VerifyEmail(users + [u], u.email)
    ensures Validate(users + [u], LoginDto(u.email, guess)).status == 200 <==> guess == u.password
  {
    var after := users + [u];
    assert after[|users|] == u;
    forall v | v in after && v.email == u.email ensures v == u {
      if v in users {
        assert false;
      }
    }
  }

  /**
   * The service and its repository: the `GoogleUser` rows and the identity
   * counter. `validateEmailAndPassword` and `verifyEmail` only read the rows:
   * they are `Validate` and `VerifyEmail` applied to `users`.
   */
  class GoogleAuthService {
    var users: seq<GoogleUser>
    var nextId: nat

    ghost predicate Valid()
      reads this
    {
      UniqueEmails(users) && forall u :: u in users ==> u.id < nextId
    }

    constructor ()
      ensures Valid() && users == []
    {
      users := [];
      nextId := 1;
    }

    /**
     * `registerUser`: 400 and no change when the email is taken; otherwise one
     * new row with that email and password, a fresh id, and 201.
     */
    method RegisterUser(dto: LoginDto) returns (r: Reply)
      requires Valid()
      modifies this
      ensures Valid()
      ensures old(FindByEmail(users, dto.email)).Some? ==>
        r == ServerResponse.ResponseEntity(400, map["error" := JString(EmailTaken)])
        && users == old(users) && nextId == old(nextId)
      ensures old(FindByEmail(users, dto.email)).None? ==>
        r == ServerResponse.ResponseEntity(201, map["message" := JString(Registered)])
        && users == old(users) + [GoogleUser(old(nextId), dto.email, dto.password)]
        && VerifyEmail(users, dto.email)
        && Validate(users, dto).status == 200
    {
      var existing := FindByEmail(users, dto.email);
      if existing.Some? {
        return ServerResponse.ResponseEntity(400, map["error" := JString(EmailTaken)]);
      }
      var newUser := GoogleUser(nextId, dto.email, dto.password);
      RegisteredUserValidates(users, newUser, dto.password);
      users := users + [newUser];
      nextId := nextId + 1;
      r := ServerResponse.ResponseEntity(201, map["message" := JString(Registered)]);
    }
  }
}
