/**
 * `ChallengeService`: creating and accepting challenges (which change the
 * participant lists) and the read-only listings, including each participant's
 * progress towards a challenge's objective.
 */
module ChallengeServices {
  import opened Wrappers
  import opened Domain
  import opened Lists
  import opened Entities
  import opened ChallengeDtos
  import CD = ChallengeDao
  import SD = TrainingSessionDao
  import opened TokenDao
  import opened UserDao
  import opened TokenServices
  import opened Outcomes
  import opened ServerResponse
  import ServerFilter

  const ChallengeNotFound := "Challenge not found."
  const UserNotFound := "User not found."
  const AlreadyEnded := "The challenge has already ended."
  const AlreadyAccepted := "Challenge already accepted."
  const Accepted := "Challenge accepted."

  // ---------------------------------------------------------------------------
  // Progress (`calculateProgress`, exact arithmetic).
  // ---------------------------------------------------------------------------

  /** The session column a challenge's objective type adds up. */
  function Measure(s: SD.SessionRow, objective: ObjectiveType): real {
    match objective
    case Distancia => s.details.distance
    case Tiempo => s.details.duration
  }

  /** The stream `sum` of the measured column. */
  function Total(ss: seq<SD.SessionRow>, objective: ObjectiveType): real {
    if ss == [] then 0.0 else Measure(ss[0], objective) + Total(ss[1..], objective)
  }

  lemma {:induction false} TotalSnoc(ss: seq<SD.SessionRow>, s: SD.SessionRow, objective: ObjectiveType)
    ensures Total(ss + [s], objective) == Total(ss, objective) + Measure(s, objective)
    decreases |ss|
  {
    if ss == [] {
      assert [s][1..] == [];
    } else {
      assert (ss + [s])[0] == ss[0] && (ss + [s])[1..] == ss[1..] + [s];
      TotalSnoc(ss[1..], s, objective);
    }
  }

  /**
   * The sessions `calculateProgress` adds up: the session query with the user's id
   * and the challenge's dates as bounds, unpaged. The query has no sport condition,
   * so sessions of every sport count.
   */
  function Counted(sessionRows: seq<SD.SessionRow>, userId: Option<Uuid>, d: ChallengeDetails): seq<SD.SessionRow> {
    SD.Matching(sessionRows, userId, Some(d.startDate), Some(d.endDate))
  }

  /**
   * total / objective * 100. A zero objective makes the double division infinite
   * or NaN, which `BigDecimal.valueOf` rejects.
   */
  function Progress(sessionRows: seq<SD.SessionRow>, userId: Option<Uuid>, d: ChallengeDetails): (r: Result<real, Failure>)
    ensures r.Err? <==> d.objectiveValue == 0.0
    ensures r.Err? ==> r.error == NumberFormat
  {
    if d.objectiveValue == 0.0 then Err(NumberFormat)
    else Ok(Total(Counted(sessionRows, userId, d), d.objectiveType) / d.objectiveValue * 100.0)
  }

  /** The progress is 100 exactly when the counted total equals the objective. */
  lemma FullProgressIffObjectiveMet(sessionRows: seq<SD.SessionRow>, userId: Option<Uuid>, d: ChallengeDetails)
    requires d.objectiveValue != 0.0
    ensures Progress(sessionRows, userId, d).value == 100.0 <==>
            Total(Counted(sessionRows, userId, d), d.objectiveType) == d.objectiveValue
  {
    HundredIffEqual(Total(Counted(sessionRows, userId, d), d.objectiveType), d.objectiveValue);
  }

  lemma HundredIffEqual(total: real, objective: real)
    requires objective != 0.0
    ensures total / objective * 100.0 == 100.0 <==> total == objective
  {
    var q := total / objective;
    assert q * objective == total;
    if q * 100.0 == 100.0 {
      assert q == 1.0;
    }
  }

  /** Another user's session, or a session outside the challenge's dates, leaves the progress as it was. */
  lemma UncountedSessionKeepsProgress(sessionRows: seq<SD.SessionRow>, s: SD.SessionRow, userId: Option<Uuid>, d: ChallengeDetails)
    requires !SD.RowMatches(s, userId, Some(d.startDate), Some(d.endDate))
    ensures Progress(sessionRows + [s], userId, d) == Progress(sessionRows, userId, d)
  {
    FilterSnoc(sessionRows, s, SD.RowTest(userId, Some(d.startDate), Some(d.endDate)));
    assert Counted(sessionRows + [s], userId, d) == Counted(sessionRows, userId, d);
  }

  /**
   * One more session of the user inside the challenge's dates, of any sport, adds
   * its measured share of the objective.
   */
  lemma CountedSessionAddsItsShare(sessionRows: seq<SD.SessionRow>, s: SD.SessionRow, userId: Uuid, d: ChallengeDetails)
    requires s.userId == Some(userId) && d.startDate <= s.details.startDate <= d.endDate
    requires d.objectiveValue != 0.0
    ensures Progress(sessionRows + [s], Some(userId), d).value
         == Progress(sessionRows, Some(userId), d).value + Measure(s, d.objectiveType) / d.objectiveValue * 100.0
  {
    var test := SD.RowTest(Some(userId), Some(d.startDate), Some(d.endDate));
    FilterSnoc(sessionRows, s, test);
    assert Counted(sessionRows + [s], Some(userId), d) == Counted(sessionRows, Some(userId), d) + [s];
    var before := Total(Counted(sessionRows, Some(userId), d), d.objectiveType);
    var m := Measure(s, d.objectiveType);
    TotalSnoc(Counted(sessionRows, Some(userId), d), s, d.objectiveType);
    assert Total(Counted(sessionRows + [s], Some(userId), d), d.objectiveType) == before + m;
    ShareAdds(before, m, d.objectiveValue);
  }

  lemma ShareAdds(a: real, b: real, objective: real)
    requires objective != 0.0
    ensures (a + b) / objective * 100.0 == a / objective * 100.0 + b / objective * 100.0
  {
    var qa, qb := a / objective, b / objective;
    assert qa * objective == a && qb * objective == b;
    assert (qa + qb) * objective == a + b;
    assert (a + b) / objective == qa + qb;
  }

  /** A user without an id has no sessions the query can find, so no progress. */
  lemma NoIdNoProgress(sessionRows: seq<SD.SessionRow>, d: ChallengeDetails)
    requires d.objectiveValue != 0.0
    ensures Progress(sessionRows, None, d) == Ok(0.0)
  {
    SD.NoMatchWithoutUser(sessionRows, Some(d.startDate), Some(d.endDate));
    assert Total(Counted(sessionRows, None, d), d.objectiveType) == 0.0;
  }

  // ---------------------------------------------------------------------------
  // The stream pipelines of the listing endpoints.
  // ---------------------------------------------------------------------------

  /** `new ChallengeDTO(challenge)` over what the query reads of the challenge. */
  function DtoOf(r: CD.ChallengeRow): ChallengeDto {
    OfEntity(r.details.id, r.details.name, r.details.startDate, r.details.endDate,
             r.details.objectiveValue, r.details.objectiveType, r.details.sport, r.creatorId)
  }

  function DtosOf(rows: seq<CD.ChallengeRow>): (ds: seq<ChallengeDto>)
    ensures |ds| == |rows|
    ensures forall k :: 0 <= k < |rows| ==> ds[k] == DtoOf(rows[k])
  {
    if rows == [] then [] else [DtoOf(rows[0])] + DtosOf(rows[1..])
  }

  /**
   * The DTOs of `getAcceptedChallenges` with progress, one per challenge, in order;
   * the first challenge whose progress cannot be computed aborts the stream.
   */
  function ProgressDtos(rows: seq<CD.ChallengeRow>, sessionRows: seq<SD.SessionRow>, userId: Option<Uuid>): (r: Result<seq<ChallengeDto>, Failure>)
    ensures r.Err? <==> exists x :: x in rows && x.details.objectiveValue == 0.0
    ensures r.Err? ==> r.error == NumberFormat
    ensures r.Ok? ==> |r.value| == |rows|
    ensures r.Ok? ==> forall k :: 0 <= k < |rows| ==>
      r.value[k] == DtoOf(rows[k]).(progress := Some(Progress(sessionRows, userId, rows[k].details).value))
  {
    if rows == [] then Ok([])
    else
      assert rows == [rows[0]] + rows[1..];
      var head := Progress(sessionRows, userId, rows[0].details);
      var tail := ProgressDtos(rows[1..], sessionRows, userId);
      if head.Err? then Err(head.error)
      else if tail.Err? then Err(tail.error)
      else Ok([DtoOf(rows[0]).(progress := Some(head.value))] + tail.value)
  }

  /**
   * The DTO list of `getAcceptedChallenges`: with `includeProgress` each DTO carries
   * the user's progress, without it none does.
   */
  function AcceptedDtos(rows: seq<CD.ChallengeRow>, sessionRows: seq<SD.SessionRow>, userId: Option<Uuid>, includeProgress: bool): (r: Result<seq<ChallengeDto>, Failure>)
    ensures r.Err? <==> includeProgress && exists x :: x in rows && x.details.objectiveValue == 0.0
    ensures r.Ok? ==> |r.value| == |rows|
    ensures r.Ok? ==> forall k :: 0 <= k < |rows| ==> (r.value[k].progress.Some? <==> includeProgress)
    ensures r.Ok? ==> forall k :: 0 <= k < |rows| ==> r.value[k].(progress := None) == DtoOf(rows[k])
  {
    if includeProgress then ProgressDtos(rows, sessionRows, userId) else Ok(DtosOf(rows))
  }

  /** The `UserProgressDTO` list of `getChallengeParticipants`, one per participant, in order. */
  function ParticipantProgress(us: seq<User>, sessionRows: seq<SD.SessionRow>, d: ChallengeDetails): (r: Result<seq<UserProgress>, Failure>)
    reads us
    ensures r.Err? <==> us != [] && d.objectiveValue == 0.0
    ensures r.Err? ==> r.error == NumberFormat
    ensures r.Ok? ==> |r.value| == |us|
    ensures r.Ok? ==> forall k :: 0 <= k < |us| ==>
      && r.value[k].userId == us[k].id && r.value[k].name == us[k].name
      && r.value[k].progress == Progress(sessionRows, us[k].id, d).value
  {
    if us == [] then Ok([])
    else
      var head := Progress(sessionRows, us[0].id, d);
      var tail := ParticipantProgress(us[1..], sessionRows, d);
      if head.Err? then Err(head.error)
      else Ok([UserProgress(us[0].id, us[0].name, head.value)] + tail.value)
  }

  /** The data map of `getChallengeById`: the DTO's `toMap`, each value wrapped. */
  function ColumnsOf(m: map<string, Field>): (data: map<string, Value>)
    ensures data.Keys == m.Keys
    ensures forall k :: k in m ==> data[k] == Column(m[k])
  {
    map k | k in m :: Column(m[k])
  }

  /** The by-id response carries exactly the eight `toMap` columns, from which the DTO reads back. */
  lemma ByIdColumnsRoundTrip(r: CD.ChallengeRow)
    ensures ColumnsOf(DtoOf(r).ToMap()).Keys == MapKeys
    ensures var data := ColumnsOf(DtoOf(r).ToMap());
      FromMap(map k | k in data :: data[k].column) == DtoOf(r)
  {
    var m := DtoOf(r).ToMap();
    var data := ColumnsOf(m);
    assert (map k | k in data :: data[k].column) == m;
    ToMapRoundTrip(DtoOf(r));
  }

  // ---------------------------------------------------------------------------
  // The service.
  // ---------------------------------------------------------------------------

  class ChallengeService {
    const users: UserStore
    const challenges: CD.ChallengeStore
    const sessions: SD.SessionStore
    const tokens: TokenStore

    /**
     * The user and challenge tables are valid and every token owner is a stored
     * user; the session and token tables are only read here.
     */
    ghost predicate Valid()
      reads this, users, users.rows, challenges, challenges.rows, tokens, tokens.rows
    {
      && users.Valid() && challenges.Valid()
      && (forall t :: t in tokens.rows && t.user != null ==> t.user in users.rows)
    }

    constructor (users: UserStore, challenges: CD.ChallengeStore, sessions: SD.SessionStore, tokens: TokenStore)
      requires users.Valid() && challenges.Valid()
      requires forall t :: t in tokens.rows && t.user != null ==> t.user in users.rows
      ensures Valid()
      ensures this.users == users && this.challenges == challenges && this.sessions == sessions && this.tokens == tokens
    {
      this.users := users;
      this.challenges := challenges;
      this.sessions := sessions;
      this.tokens := tokens;
    }

    /**
     * `createChallenge`: a new challenge with the DTO's columns whose creator and
     * only participant is the token's user, linked on both sides, appended to the
     * table; 200 with its new id. The DTO's fields are non-null by bean validation.
     */
    method CreateChallenge(token: string, dto: ChallengeDto) returns (out: Outcome)
      requires Valid()
      requires dto.name.Some? && dto.startDate.Some? && dto.endDate.Some?
      requires dto.objectiveValue.Some? && dto.objectiveType.Some? && dto.sport.Some?
      modifies challenges, users.rows
      ensures Valid()
      ensures var found := old(GetUserFromToken(tokens, token));
        && (found.Err? ==>
              && out == Thrown(found.error)
              && challenges.rows == old(challenges.rows)
              && forall u :: u in users.rows ==> unchanged(u))
        && (found.Ok? ==>
              && |challenges.rows| == |old(challenges.rows)| + 1
              && challenges.rows[..|old(challenges.rows)|] == old(challenges.rows)
              && var c := challenges.rows[|old(challenges.rows)|];
                 && fresh(c) && c.id.Some?
                 && c.Details() == ChallengeDetails(c.id, dto.name.value, dto.startDate.value, dto.endDate.value,
                                                    dto.objectiveValue.value, dto.objectiveType.value, dto.sport.value)
                 && c.creator == found.value && c.users == [found.value] && Linked(c, found.value)
                 && found.value.createdChallenges == old(found.value.createdChallenges) + [c]
                 && found.value.challenges == old(found.value.challenges) + [c]
                 && found.value.Profile() == old(found.value.Profile())
                 && found.value.sessions == old(found.value.sessions) && found.value.tokens == old(found.value.tokens)
                 && (forall u :: u in users.rows && u != found.value ==> unchanged(u))
                 && out == Reply(Of(200, "challenge-id", Id(c.id))))
    {
      var found := GetUserFromToken(tokens, token);
      if found.Err? {
        return Thrown(found.error);
      }
      var c := NewChallengeBy(users, found.value, dto);
      challenges.Save(c);
      out := Reply(Of(200, "challenge-id", Id(c.id)));
    }

    /** `new Challenge(dto)`, whose creator and first participant then becomes `user`. */
    static method NewChallengeBy(users: UserStore, user: User, dto: ChallengeDto) returns (c: Challenge)
      requires users.Valid() && user in users.rows
      requires dto.name.Some? && dto.startDate.Some? && dto.endDate.Some?
      requires dto.objectiveValue.Some? && dto.objectiveType.Some? && dto.sport.Some?
      modifies user
      ensures users.Valid()
      ensures fresh(c)
      ensures c.Details() == ChallengeDetails(None, dto.name.value, dto.startDate.value, dto.endDate.value,
                                              dto.objectiveValue.value, dto.objectiveType.value, dto.sport.value)
      ensures c.creator == user && c.users == [user] && Linked(c, user)
      ensures user.createdChallenges == old(user.createdChallenges) + [c]
      ensures user.challenges == old(user.challenges) + [c]
      ensures user.Profile() == old(user.Profile()) && user.sessions == old(user.sessions) && user.tokens == old(user.tokens)
    {
      c := new Challenge(dto);
      user.AddCreatedChallenge(c);
      c.AddUser(user);
    }

    /**
     * `getActiveChallenges`: a null limit becomes `Integer.MAX_VALUE` (in the filter
     * object too); a limit below one fails in `PageRequest.of`; otherwise the page the
     * join query returns with a null user, one DTO per join row, with 200. A challenge
     * is then listed once per participant, and one without participants not at all.
     */
    method GetActiveChallenges(filter: ServerFilter.FilterDto) returns (out: Outcome, after: ServerFilter.FilterDto)
      requires Valid()
      ensures after == filter.(limit := Some(if filter.limit.None? then IntegerMaxValue else filter.limit.value))
      ensures after.limit.value < 1 ==> out == Thrown(IllegalArgument)
      ensures after.limit.value >= 1 ==>
        out == Reply(Of(200, "challenges", Challenges(DtosOf(CD.FindFilteredChallengesAsWritten(
          challenges.Table(), None, filter.startDate, filter.endDate, filter.sport, after.limit.value)))))
    {
      after := filter;
      if after.limit.None? {
        after := after.(limit := Some(IntegerMaxValue));
      }
      if after.limit.value < 1 {
        return Thrown(IllegalArgument), after;
      }
      var page := CD.FindFilteredChallengesAsWritten(challenges.Table(), None, filter.startDate, filter.endDate, filter.sport, after.limit.value);
      out := Reply(Of(200, "challenges", Challenges(DtosOf(page))));
    }

    /**
     * `acceptChallenge`, checked in the order unknown id (404), ended before today
     * (400, "ended"), already a participant (409). Only when all three pass is the
     * user added to the participants and the challenge to the user's list (200);
     * on every other path nothing changes.
     */
    method AcceptChallenge(token: string, id: Uuid, today: Date) returns (out: Outcome)
      requires Valid()
      modifies challenges, challenges.rows, users.rows
      ensures Valid()
      ensures challenges.rows == old(challenges.rows)
      ensures old(GetUserFromToken(tokens, token)).Err? ==> out == Thrown(old(GetUserFromToken(tokens, token)).error)
      ensures old(GetUserFromToken(tokens, token)).Ok? ==>
        var user := old(GetUserFromToken(tokens, token)).value;
        var c := old(challenges.FindById(id));
        && (c.None? ==> out == Message(404, "error", ChallengeNotFound))
        && (c.Some? && old(c.value.endDate) < today ==>
              out == Reply(Of(400, "errors", Details(map["ended" := AlreadyEnded]))))
        && (c.Some? && old(c.value.endDate) >= today && user in old(c.value.users) ==>
              out == Message(409, "error", AlreadyAccepted))
        && (c.Some? && old(c.value.endDate) >= today && user !in old(c.value.users) ==>
              && out == Message(200, "message", Accepted)
              && c.value.users == old(c.value.users) + [user]
              && user.challenges == AddIfAbsent(old(user.challenges), c.value)
              && Linked(c.value, user)
              && c.value.Details() == old(c.value.Details()) && c.value.creator == old(c.value.creator)
              && user.Profile() == old(user.Profile()) && user.sessions == old(user.sessions)
              && user.createdChallenges == old(user.createdChallenges) && user.tokens == old(user.tokens)
              && (forall x :: x in challenges.rows && x != c.value ==> unchanged(x))
              && (forall u :: u in users.rows && u != user ==> unchanged(u)))
      ensures out != Message(200, "message", Accepted) ==>
        && (forall x :: x in challenges.rows ==> unchanged(x))
        && (forall u :: u in users.rows ==> unchanged(u))
    {
      var found := GetUserFromToken(tokens, token);
      if found.Err? {
        return Thrown(found.error);
      }
      var user := found.value;
      var lookup := challenges.FindById(id);
      if lookup.None? {
        return Message(404, "error", ChallengeNotFound);
      }
      var c := lookup.value;
      if c.endDate < today {
        return Reply(Of(400, "errors", Details(map["ended" := AlreadyEnded])));
      }
      if user in c.users {
        return Message(409, "error", AlreadyAccepted);
      }
      Enrol(c, user);
      out := Message(200, "message", Accepted);
    }

    /** `challenge.addUser(user)` for a new participant, then the `save` of the stored challenge. */
    method Enrol(c: Challenge, user: User)
      requires Valid() && c in challenges.rows && user in users.rows && user !in c.users
      modifies challenges, c, user
      ensures Valid()
      ensures challenges.rows == old(challenges.rows)
      ensures c.users == old(c.users) + [user] && Linked(c, user)
      ensures user.challenges == AddIfAbsent(old(user.challenges), c)
      ensures c.Details() == old(c.Details()) && c.creator == old(c.creator)
      ensures user.Profile() == old(user.Profile()) && user.sessions == old(user.sessions)
      ensures user.createdChallenges == old(user.createdChallenges) && user.tokens == old(user.tokens)
    {
      c.AddUser(user);
      challenges.Save(c);
    }

    /**
     * `getAcceptedChallenges`: the join query with the token's user id, newest first,
     * as DTOs that carry the user's progress exactly when asked for. On duplicate-free
     * participant ids this is every challenge the user takes part in, once
     * (`ChallengeDao.AsWrittenAgreesForUser`).
     */
    method GetAcceptedChallenges(token: string, includeProgress: bool) returns (out: Outcome)
      requires Valid()
      ensures GetUserFromToken(tokens, token).Err? ==> out == Thrown(GetUserFromToken(tokens, token).error)
      ensures GetUserFromToken(tokens, token).Ok? ==>
        var user := GetUserFromToken(tokens, token).value;
        var page := CD.FindFilteredChallengesAsWritten(challenges.Table(), user.id, None, None, None, IntegerMaxValue);
        var dtos := AcceptedDtos(page, sessions.Table(), user.id, includeProgress);
        out == if dtos.Err? then Thrown(dtos.error) else Reply(Of(200, "challenges", Challenges(dtos.value)))
    {
      var found := GetUserFromToken(tokens, token);
      if found.Err? {
        return Thrown(found.error);
      }
      var user := found.value;
      var page := CD.FindFilteredChallengesAsWritten(challenges.Table(), user.id, None, None, None, IntegerMaxValue);
      var dtos := AcceptedDtos(page, sessions.Table(), user.id, includeProgress);
      if dtos.Err? {
        return Thrown(dtos.error);
      }
      out := Reply(Of(200, "challenges", Challenges(dtos.value)));
    }

    /** `getChallengeParticipants`: 404 for an unknown id, else one progress entry per participant. */
    method GetChallengeParticipants(id: Uuid) returns (out: Outcome)
      requires Valid()
      ensures challenges.FindById(id).None? ==> out == Message(404, "error", ChallengeNotFound)
      ensures challenges.FindById(id).Some? ==>
        var c := challenges.FindById(id).value;
        var ps := ParticipantProgress(c.users, sessions.Table(), c.Details());
        out == if ps.Err? then Thrown(ps.error) else Reply(Of(200, "participants", Participants(ps.value)))
    {
      var lookup := challenges.FindById(id);
      if lookup.None? {
        return Message(404, "error", ChallengeNotFound);
      }
      var c := lookup.value;
      var ps := ParticipantProgress(c.users, sessions.Table(), c.Details());
      if ps.Err? {
        return Thrown(ps.error);
      }
      out := Reply(Of(200, "participants", Participants(ps.value)));
    }

    /** `getCreatedChallenges`: 404 for an unknown user, else the challenges that user created. */
    method GetCreatedChallenges(userId: Uuid) returns (out: Outcome)
      requires Valid()
      ensures users.FindById(userId).None? ==> out == Message(404, "error", UserNotFound)
      ensures users.FindById(userId).Some? ==>
        out == Reply(Of(200, "challenges", Challenges(DtosOf(CD.FindByCreator(challenges.Table(), userId)))))
    {
      var lookup := users.FindById(userId);
      if lookup.None? {
        return Message(404, "error", UserNotFound);
      }
      out := Reply(Of(200, "challenges", Challenges(DtosOf(CD.FindByCreator(challenges.Table(), userId)))));
    }

    /** `getChallengeById`: 404 for an unknown id, else the DTO's `toMap` columns as the data map. */
    method GetChallengeById(id: Uuid) returns (out: Outcome)
      requires Valid()
      ensures challenges.FindById(id).None? ==> out == Message(404, "error", ChallengeNotFound)
      ensures challenges.FindById(id).Some? ==>
        out == Reply(ResponseWrapper(200, ColumnsOf(DtoOf(CD.RowOf(challenges.FindById(id).value)).ToMap())))
    {
      var lookup := challenges.FindById(id);
      if lookup.None? {
        return Message(404, "error", ChallengeNotFound);
      }
      out := Reply(ResponseWrapper(200, ColumnsOf(DtoOf(CD.RowOf(lookup.value)).ToMap())));
    }

    /**
     * `isChallengeAcceptedByUser`: the user is looked up before the challenge, each
     * missing one giving 404; otherwise whether the user is a participant.
     */
    method IsChallengeAccepted(userId: Uuid, challengeId: Uuid) returns (out: Outcome)
      requires Valid()
      ensures users.FindById(userId).None? ==> out == Message(404, "error", UserNotFound)
      ensures users.FindById(userId).Some? && challenges.FindById(challengeId).None? ==>
                out == Message(404, "error", ChallengeNotFound)
      ensures users.FindById(userId).Some? && challenges.FindById(challengeId).Some? ==>
                out == Reply(Of(200, "isAccepted", Flag(users.FindById(userId).value in challenges.FindById(challengeId).value.users)))
    {
      var user := users.FindById(userId);
      if user.None? {
        return Message(404, "error", UserNotFound);
      }
      var c := challenges.FindById(challengeId);
      if c.None? {
        return Message(404, "error", ChallengeNotFound);
      }
      out := Reply(Of(200, "isAccepted", Flag(user.value in c.value.users)));
    }
  }
}
