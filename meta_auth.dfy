/**
 * `MetaAuthServer`: a socket server that answers one text line per connection
 * from a map of email to password. Sockets, threads and logging are left out:
 * a request is the line read, a reply the line written back.
 */
module MetaAuth {
  import opened Text

  const RegisterSuccess := "REGISTER_SUCCESS"
  const RegisterFail := "REGISTER_FAIL"
  const EmailValid := "EMAIL_VALID"
  const EmailInvalid := "EMAIL_INVALID"
  const PasswordValid := "PASSWORD_VALID"
  const PasswordInvalid := "PASSWORD_INVALID"
  const UnknownCommand := "UNKNOWN_COMMAND"

  /**
   * What the client reads back: one line, or nothing when indexing past the
   * split request threw and the handler ended without writing.
   */
  datatype Reply = Line(text: string) | NoReply

  /** The three test users the static initialiser puts in the map. */
  function Seeds(): (users: map<string, string>)
    ensures |users.Keys| == 3
    ensures users == map["ivan@meta.com" := "ivan", "javier@meta.com" := "javier", "alex@meta.com" := "alex"]
  {
    var users := map["ivan@meta.com" := "ivan", "javier@meta.com" := "javier", "alex@meta.com" := "alex"];
    assert users.Keys == {"ivan@meta.com", "javier@meta.com", "alex@meta.com"};
    users
  }

  /**
   * `handleClient` on the map `users`: the reply to `request` and the map after
   * it. The request is split at spaces as `String.split(" ")` does; the first
   * part is the command.
   */
  function Respond(users: map<string, string>, request: string): (r: (Reply, map<string, string>))
    ensures r.1 != users ==> r.0 == Line(RegisterSuccess)
  {
    var parts := JavaSplit(request, ' ');
    if parts == [] then (NoReply, users)
    else if parts[0] == "REGISTER" then
      if |parts| < 3 then (Line(RegisterFail), users)
      else if parts[1] in users then (Line(RegisterFail), users)
      else (Line(RegisterSuccess), users[parts[1] := parts[2]])
    else if parts[0] == "VALIDATE_EMAIL" then
      if |parts| < 2 then (NoReply, users)
      else (Line(if parts[1] in users then EmailValid else EmailInvalid), users)
    else if parts[0] == "VALIDATE_PASSWORD" then
      if |parts| < 3 then (NoReply, users)
      else (Line(if parts[1] in users && users[parts[1]] == parts[2] then PasswordValid else PasswordInvalid), users)
    else (Line(UnknownCommand), users)
  }

  /** The server's state: the static `users` map. */
  class MetaAuthServer {
    var users: map<string, string>

    /** The static initialiser: exactly the three seeded users. */
    constructor ()
      ensures users == Seeds()
    {
      users := Seeds();
    }

    /** One connection: read `request`, answer it, and keep the map `Respond` leaves. */
    method HandleClient(request: string) returns (reply: Reply)
      modifies this
      ensures (reply, users) == Respond(old(users), request)
    {
      var parts := JavaSplit(request, ' ');
      if parts == [] {
        return NoReply;
      }
      var command := parts[0];
      if command == "REGISTER" {
        if |parts| < 3 {
          return Line(RegisterFail);
        }
        var email := parts[1];
        var password := parts[2];
        if email in users {
          reply := Line(RegisterFail);
        } else {
          users := users[email := password];
          reply := Line(RegisterSuccess);
        }
      } else if command == "VALIDATE_EMAIL" {
        if |parts| < 2 {
          return NoReply;
        }
        var email := parts[1];
        reply := Line(if email in users then EmailValid else EmailInvalid);
      } else if command == "VALIDATE_PASSWORD" {
        if |parts| < 3 {
          return NoReply;
        }
        var email := parts[1];
        var password := parts[2];
        if email in users && users[email] == password {
          reply := Line(PasswordValid);
        } else {
          reply := Line(PasswordInvalid);
        }
      } else {
        reply := Line(UnknownCommand);
      }
    }
  }

  /** A word of a well-formed request: non-empty and without spaces. */
  predicate IsWord(w: string) {
    w != "" && ' ' !in w
  }

  /** The request line of a command and its arguments, separated by single spaces. */
  function RequestLine(words: seq<string>): string {
    Join(words, ' ')
  }

  /** Splitting a request line of words gives the words back. */
  lemma {:induction false} SplitRequestLine(words: seq<string>)
    requires |words| > 1
    requires forall k :: 0 <= k < |words| ==> IsWord(words[k])
    ensures JavaSplit(RequestLine(words), ' ') == words
  {
    SplitJoin(words, ' ');
    var line := RequestLine(words);
    assert line == words[0] + [' '] + Join(words[1..], ' ');
    assert ' ' in line by {
      assert line[|words[0]|] == ' ';
    }
  }

  /** Three- and two-word request lines split back into their words. */
  lemma RequestParts(command: string, email: string, password: string)
    requires IsWord(command) && IsWord(email) && IsWord(password)
    ensures JavaSplit(RequestLine([command, email, password]), ' ') == [command, email, password]
    ensures JavaSplit(RequestLine([command, email]), ' ') == [command, email]
  {
    SplitRequestLine([command, email, password]);
    SplitRequestLine([command, email]);
  }

  /** REGISTER, VALIDATE_EMAIL and VALIDATE_PASSWORD are words. */
  lemma CommandsAreWords()
    ensures IsWord("REGISTER") && IsWord("VALIDATE_EMAIL") && IsWord("VALIDATE_PASSWORD")
  {
  }

  /**
   * REGISTER of a new email succeeds, after which VALIDATE_EMAIL accepts the
   * email and VALIDATE_PASSWORD accepts exactly the registered password.
   */
  lemma RegisterThenValidate(users: map<string, string>, email: string, password: string, guess: string)
    requires IsWord(email) && IsWord(password) && IsWord(guess)
    requires email !in users
    ensures var (reply, after) := Respond(users, RequestLine(["REGISTER", email, password]));
      && reply == Line(RegisterSuccess)
      && after == users[email := password]
      && Respond(after, RequestLine(["VALIDATE_EMAIL", email])) == (Line(EmailValid), after)
      && (Respond(after, RequestLine(["VALIDATE_PASSWORD", email, guess])).0 == Line(PasswordValid) <==> guess == password)
  {
    CommandsAreWords();
    RequestParts("REGISTER", email, password);
    RequestParts("VALIDATE_EMAIL", email, password);
    RequestParts("VALIDATE_PASSWORD", email, guess);
  }

  /**
   * On any map, VALIDATE_EMAIL answers EMAIL_VALID iff the email is a key and
   * EMAIL_INVALID otherwise; VALIDATE_PASSWORD answers PASSWORD_VALID iff the email
   * is a key stored with that password and PASSWORD_INVALID otherwise. Neither changes the map.
   */
  lemma ValidateAnswers(users: map<string, string>, email: string, password: string)
    requires IsWord(email) && IsWord(password)
    ensures Respond(users, RequestLine(["VALIDATE_EMAIL", email]))
         == (Line(if email in users then EmailValid else EmailInvalid), users)
    ensures Respond(users, RequestLine(["VALIDATE_PASSWORD", email, password]))
         == (Line(if email in users && users[email] == password then PasswordValid else PasswordInvalid), users)
  {
    CommandsAreWords();
    RequestParts("VALIDATE_EMAIL", email, password);
    RequestParts("VALIDATE_PASSWORD", email, password);
  }

  /** REGISTER of an email already present fails and keeps the stored password. */
  lemma RegisterTakenKeepsPassword(users: map<string, string>, email: string, password: string)
    requires IsWord(email) && IsWord(password)
    requires email in users
    ensures Respond(users, RequestLine(["REGISTER", email, password])) == (Line(RegisterFail), users)
  {
    CommandsAreWords();
    RequestParts("REGISTER", email, password);
  }

  /** A REGISTER without a password is refused and changes nothing. */
  lemma ShortRegisterFails(users: map<string, string>, email: string)
    requires IsWord(email)
    ensures Respond(users, RequestLine(["REGISTER", email])) == (Line(RegisterFail), users)
    ensures Respond(users, "REGISTER") == (Line(RegisterFail), users)
  {
    CommandsAreWords();
    RequestParts("REGISTER", email, email);
    assert ' ' !in "REGISTER";
  }

  /** A command other than the three is answered UNKNOWN_COMMAND and changes nothing. */
  lemma OtherCommandsUnknown(users: map<string, string>, words: seq<string>)
    requires |words| > 1 && forall k :: 0 <= k < |words| ==> IsWord(words[k])
    requires words[0] !in {"REGISTER", "VALIDATE_EMAIL", "VALIDATE_PASSWORD"}
    ensures Respond(users, RequestLine(words)) == (Line(UnknownCommand), users)
  {
    SplitRequestLine(words);
  }

  /** Each seeded user validates with their own password. */
  lemma SeedsValidate(email: string)
    requires email in Seeds()
    ensures Respond(Seeds(), RequestLine(["VALIDATE_PASSWORD", email, Seeds()[email]])).0 == Line(PasswordValid)
  {
    CommandsAreWords();
    assert IsWord(email) && IsWord(Seeds()[email]) by {
      assert email in {"ivan@meta.com", "javier@meta.com", "alex@meta.com"};
    }
    RequestParts("VALIDATE_PASSWORD", email, Seeds()[email]);
  }
}
