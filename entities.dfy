/**
 * The persistent entities and their relationship bookkeeping. Java compares these
 * objects by identity (no `equals` override), so they are Dafny classes and every
 * `contains`/`remove` below is on references.
 */
module Entities {
  import opened Wrappers
  import opened Domain
  import opened Lists
  import ChallengeDtos

  /** The profile columns of a user, as `UserDTO` carries them. */
  datatype UserDto = UserDto(
    id: Option<Uuid>,
    email: string,
    name: string,
    dateOfBirth: Date,
    weight: Option<real>,
    height: Option<real>,
    maxHeartRate: Option<int>,
    restingHeartRate: Option<int>,
    authProvider: AuthProvider)

  /** The columns of a training session, as `TrainingSessionDTO` carries them. */
  datatype TrainingSessionDto = TrainingSessionDto(
    id: Option<Uuid>,
    title: string,
    sport: SportType,
    distance: real,
    startDate: Date,
    startTime: Time,
    duration: real)

  class User {
    var id: Option<Uuid>
    var email: string
    var name: string
    var dateOfBirth: Date
    var weight: Option<real>
    var height: Option<real>
    var maxHeartRate: Option<int>
    var restingHeartRate: Option<int>
    var authProvider: AuthProvider
    var sessions: seq<TrainingSession>
    var challenges: seq<Challenge>
    var createdChallenges: seq<Challenge>
    var tokens: seq<UserToken>

    /** The user's own columns, without the relationship lists. */
    function Profile(): UserDto
      reads this
    {
      UserDto(id, email, name, dateOfBirth, weight, height, maxHeartRate, restingHeartRate, authProvider)
    }

    /** `User(UserDTO)`: copies every profile field except the id; all lists start empty. */
    constructor (dto: UserDto)
      ensures Profile() == dto.(id := None)
      ensures sessions == [] && challenges == [] && createdChallenges == [] && tokens == []
    {
      id := None;
      email := dto.email;
      name := dto.name;
      dateOfBirth := dto.dateOfBirth;
      weight := dto.weight;
      height := dto.height;
      maxHeartRate := dto.maxHeartRate;
      restingHeartRate := dto.restingHeartRate;
      authProvider := dto.authProvider;
      sessions := [];
      challenges := [];
      createdChallenges := [];
      tokens := [];
    }

    /** Appends a new session once and makes this user its owner; null or present: no change. */
    method AddSession(session: TrainingSession?)
      modifies this, session
      ensures session != null ==> sessions == AddIfAbsent(old(sessions), session)
      ensures session == null ==> sessions == old(sessions)
      ensures session != null ==> session.user == if session in old(sessions) then old(session.user) else this
      ensures session != null ==> session.Details() == old(session.Details())
      ensures Profile() == old(Profile())
      ensures challenges == old(challenges) && createdChallenges == old(createdChallenges) && tokens == old(tokens)
      ensures NoDup(old(sessions)) ==> NoDup(sessions)
    {
      if session != null && session !in sessions {
        sessions := sessions + [session];
        session.user := this;
      }
    }

    /** Removes a present session and clears its owner; null or absent: no change. */
    method RemoveSession(session: TrainingSession?)
      modifies this, session
      ensures session != null ==> sessions == RemoveFirst<TrainingSession>(old(sessions), session)
      ensures session == null ==> sessions == old(sessions)
      ensures session != null ==> session.user == if session in old(sessions) then null else old(session.user)
      ensures session != null ==> session.Details() == old(session.Details())
      ensures Profile() == old(Profile())
      ensures challenges == old(challenges) && createdChallenges == old(createdChallenges) && tokens == old(tokens)
      ensures NoDup(old(sessions)) ==> NoDup(sessions)
    {
      if session != null && session in sessions {
        if NoDup(sessions) {
          RemoveFirstSpec<TrainingSession>(sessions, session);
        }
        sessions := RemoveFirst<TrainingSession>(sessions, session);
        session.user := null;
      } else if session != null {
        RemoveFirstAbsent<TrainingSession>(sessions, session);
      }
    }

    /** Appends a challenge the user joins, once; the Challenge object is not touched. */
    method AddChallenge(challenge: Challenge?)
      modifies this
      ensures challenge != null ==> challenges == AddIfAbsent(old(challenges), challenge)
      ensures challenge == null ==> challenges == old(challenges)
      ensures Profile() == old(Profile())
      ensures sessions == old(sessions) && createdChallenges == old(createdChallenges) && tokens == old(tokens)
      ensures NoDup(old(challenges)) ==> NoDup(challenges)
    {
      if challenge != null && challenge !in challenges {
        challenges := challenges + [challenge];
      }
    }

    /** Removes a joined challenge; the Challenge object is not touched. */
    method RemoveChallenge(challenge: Challenge?)
      modifies this
      ensures challenge != null ==> challenges == RemoveFirst<Challenge>(old(challenges), challenge)
      ensures challenge == null ==> challenges == old(challenges)
      ensures Profile() == old(Profile())
      ensures sessions == old(sessions) && createdChallenges == old(createdChallenges) && tokens == old(tokens)
      ensures NoDup(old(challenges)) ==> NoDup(challenges)
    {
      if challenge != null && challenge in challenges {
        if NoDup(challenges) {
          RemoveFirstSpec<Challenge>(challenges, challenge);
        }
        challenges := RemoveFirst<Challenge>(challenges, challenge);
      } else if challenge != null {
        RemoveFirstAbsent<Challenge>(challenges, challenge);
      }
    }

    /** Appends a created challenge once and makes this user its creator. */
    method AddCreatedChallenge(challenge: Challenge?)
      modifies this, challenge
      ensures challenge != null ==> createdChallenges == AddIfAbsent(old(createdChallenges), challenge)
      ensures challenge == null ==> createdChallenges == old(createdChallenges)
      ensures challenge != null ==>
        challenge.creator == if challenge in old(createdChallenges) then old(challenge.creator) else this
      ensures challenge != null ==> challenge.Details() == old(challenge.Details()) && challenge.users == old(challenge.users)
      ensures Profile() == old(Profile())
      ensures sessions == old(sessions) && challenges == old(challenges) && tokens == old(tokens)
      ensures NoDup(old(createdChallenges)) ==> NoDup(createdChallenges)
    {
      if challenge != null && challenge !in createdChallenges {
        createdChallenges := createdChallenges + [challenge];
        challenge.creator := this;
      }
    }

    /** Removes a created challenge and clears its creator; null or absent: no change. */
    method RemoveCreatedChallenge(challenge: Challenge?)
      modifies this, challenge
      ensures challenge != null ==> createdChallenges == RemoveFirst<Challenge>(old(createdChallenges), challenge)
      ensures challenge == null ==> createdChallenges == old(createdChallenges)
      ensures challenge != null ==>
        challenge.creator == if challenge in old(createdChallenges) then null else old(challenge.creator)
      ensures challenge != null ==> challenge.Details() == old(challenge.Details()) && challenge.users == old(challenge.users)
      ensures Profile() == old(Profile())
      ensures sessions == old(sessions) && challenges == old(challenges) && tokens == old(tokens)
      ensures NoDup(old(createdChallenges)) ==> NoDup(createdChallenges)
    {
      if challenge != null && challenge in createdChallenges {
        if NoDup(createdChallenges) {
          RemoveFirstSpec<Challenge>(createdChallenges, challenge);
        }
        createdChallenges := RemoveFirst<Challenge>(createdChallenges, challenge);
        challenge.creator := null;
      } else if challenge != null {
        RemoveFirstAbsent<Challenge>(createdChallenges, challenge);
      }
    }

    /** Appends a token once and makes this user its owner. */
    method AddToken(token: UserToken?)
      modifies this, token
      ensures token != null ==> tokens == AddIfAbsent(old(tokens), token)
      ensures token == null ==> tokens == old(tokens)
      ensures token != null ==> token.user == if token in old(tokens) then old(token.user) else this
      ensures token != null ==> token.token == old(token.token) && token.revoked == old(token.revoked) && token.id == old(token.id)
      ensures Profile() == old(Profile())
      ensures sessions == old(sessions) && challenges == old(challenges) && createdChallenges == old(createdChallenges)
      ensures NoDup(old(tokens)) ==> NoDup(tokens)
    {
      if token != null && token !in tokens {
        tokens := tokens + [token];
        token.user := this;
      }
    }

    /** Removes a present token and clears its owner; null or absent: no change. */
    method RemoveToken(token: UserToken?)
      modifies this, token
      ensures token != null ==> tokens == RemoveFirst<UserToken>(old(tokens), token)
      ensures token == null ==> tokens == old(tokens)
      ensures token != null ==> token.user == if token in old(tokens) then null else old(token.user)
      ensures token != null ==> token.token == old(token.token) && token.revoked == old(token.revoked) && token.id == old(token.id)
      ensures Profile() == old(Profile())
      ensures sessions == old(sessions) && challenges == old(challenges) && createdChallenges == old(createdChallenges)
      ensures NoDup(old(tokens)) ==> NoDup(tokens)
    {
      if token != null && token in tokens {
        if NoDup(tokens) {
          RemoveFirstSpec<UserToken>(tokens, token);
        }
        tokens := RemoveFirst<UserToken>(tokens, token);
        token.user := null;
      } else if token != null {
        RemoveFirstAbsent<UserToken>(tokens, token);
      }
    }

    /** Marks one of this user's tokens revoked; the token stays in the list. */
    method RevokeToken(token: UserToken?)
      modifies token
      ensures token != null ==> token.revoked == (old(token.revoked) || token in tokens)
      ensures token != null ==> token.token == old(token.token) && token.user == old(token.user) && token.id == old(token.id)
    {
      if token != null && token in tokens {
        token.revoked := true;
      }
    }
  }

  /** The column values of a challenge, without its participants and creator. */
  datatype ChallengeDetails = ChallengeDetails(
    id: Option<Uuid>,
    name: string,
    startDate: Date,
    endDate: Date,
    objectiveValue: real,
    objectiveType: ObjectiveType,
    sport: SportType)

  class Challenge {
    var id: Option<Uuid>
    var name: string
    var startDate: Date
    var endDate: Date
    var objectiveValue: real
    var objectiveType: ObjectiveType
    var sport: SportType
    var users: seq<User>
    var creator: User?

    function Details(): ChallengeDetails
      reads this
    {
      ChallengeDetails(id, name, startDate, endDate, objectiveValue, objectiveType, sport)
    }

    /**
     * `Challenge(ChallengeDTO)`: copies name, dates, objective and sport; no id, no
     * participants, no creator. The DTO's fields are required (non-null) by bean validation.
     */
    constructor (dto: ChallengeDtos.ChallengeDto)
      requires dto.name.Some? && dto.startDate.Some? && dto.endDate.Some?
      requires dto.objectiveValue.Some? && dto.objectiveType.Some? && dto.sport.Some?
      ensures Details() == ChallengeDetails(None, dto.name.value, dto.startDate.value, dto.endDate.value,
                                            dto.objectiveValue.value, dto.objectiveType.value, dto.sport.value)
      ensures users == [] && creator == null
    {
      id := None;
      name := dto.name.value;
      startDate := dto.startDate.value;
      endDate := dto.endDate.value;
      objectiveValue := dto.objectiveValue.value;
      objectiveType := dto.objectiveType.value;
      sport := dto.sport.value;
      users := [];
      creator := null;
    }

    /** `getUsers`: a new list with the participants; changing it leaves `users` alone. */
    method GetUsers() returns (r: array<User>)
      ensures fresh(r)
      ensures r[..] == users
    {
      r := new User[|users|](i requires 0 <= i < |users| reads this => users[i]);
    }

    /**
     * Adds a new participant and joins the challenge on the user's side too; null or
     * already present: no change on either side.
     */
    method AddUser(user: User?)
      modifies this, user
      ensures user != null ==> users == AddIfAbsent(old(users), user)
      ensures user == null ==> users == old(users)
      ensures user != null && user !in old(users) ==> user.challenges == AddIfAbsent(old(user.challenges), this)
      ensures user != null && user in old(users) ==> user.challenges == old(user.challenges)
      ensures user != null ==> user.Profile() == old(user.Profile()) && user.sessions == old(user.sessions)
      ensures user != null ==> user.createdChallenges == old(user.createdChallenges) && user.tokens == old(user.tokens)
      ensures Details() == old(Details()) && creator == old(creator)
      ensures user != null && (user !in old(users) || this in old(user.challenges)) ==> Linked(this, user)
      ensures NoDup(old(users)) ==> NoDup(users)
    {
      if user != null && user !in users {
        users := users + [user];
        user.AddChallenge(this);
      }
    }

    /** Removes a participant and the challenge from the user's list; null or absent: no change. */
    method RemoveUser(user: User?)
      modifies this, user
      ensures user != null ==> users == RemoveFirst<User>(old(users), user)
      ensures user == null ==> users == old(users)
      ensures user != null && user in old(users) ==> user.challenges == RemoveFirst<Challenge>(old(user.challenges), this)
      ensures user != null && user !in old(users) ==> user.challenges == old(user.challenges)
      ensures user != null ==> user.Profile() == old(user.Profile()) && user.sessions == old(user.sessions)
      ensures user != null ==> user.createdChallenges == old(user.createdChallenges) && user.tokens == old(user.tokens)
      ensures Details() == old(Details()) && creator == old(creator)
      ensures user != null && user in old(users) && NoDup(old(users)) && NoDup(old(user.challenges)) ==>
                user !in users && this !in user.challenges
      ensures NoDup(old(users)) ==> NoDup(users)
    {
      if user != null && user in users {
        if NoDup(users) {
          RemoveFirstSpec<User>(users, user);
        }
        if NoDup(user.challenges) {
          RemoveFirstSpec<Challenge>(user.challenges, this);
        }
        users := RemoveFirst<User>(users, user);
        user.RemoveChallenge(this);
      } else if user != null {
        RemoveFirstAbsent<User>(users, user);
      }
    }
  }

  class TrainingSession {
    var id: Option<Uuid>
    var user: User?
    var title: string
    var sport: SportType
    var distance: real
    var startDate: Date
    var startTime: Time
    var duration: real

    /** Everything but the owner. */
    function Details(): TrainingSessionDto
      reads this
    {
      TrainingSessionDto(id, title, sport, distance, startDate, startTime, duration)
    }

    /** `TrainingSession(TrainingSessionDTO)`: copies the six session fields; no id, no owner. */
    constructor (dto: TrainingSessionDto)
      ensures Details() == dto.(id := None)
      ensures user == null
    {
      id := None;
      user := null;
      title := dto.title;
      sport := dto.sport;
      distance := dto.distance;
      startDate := dto.startDate;
      startTime := dto.startTime;
      duration := dto.duration;
    }
  }

  class UserToken {
    var id: Option<Uuid>
    var user: User?
    var token: string
    var revoked: bool

    /** `UserToken(user, token)`: a live token owned by `user`. */
    constructor (user: User, token: string)
      ensures this.user == user && this.token == token && !revoked && id == None
    {
      id := None;
      this.user := user;
      this.token := token;
      revoked := false;
    }
  }

  /** The two sides of the user-challenge link agree for this pair. */
  predicate Linked(c: Challenge, u: User)
    reads c, u
  {
    u in c.users && c in u.challenges
  }
}
