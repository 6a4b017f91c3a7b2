/**
 * `TrainingSessionService`: create, list, delete and update the token's user's
 * training sessions. Delete and update first check that the session exists and
 * belongs to that user.
 */
module TrainingSessionServices {
  import opened Wrappers
  import opened Domain
  import opened Lists
  import opened Entities
  import opened TrainingSessionDao
  import opened TokenDao
  import opened TokenServices
  import opened Outcomes
  import ServerFilter

  const NotOwned := "Training session not found or does not belong to the user"
  const Deleted := "Training session deleted successfully"
  const Updated := "Training session updated successfully"

  /** `new TrainingSessionDTO(session)` for each row of a page. */
  function DtosOf(rows: seq<SessionRow>): (dtos: seq<TrainingSessionDto>)
    ensures |dtos| == |rows|
    ensures forall k :: 0 <= k < |rows| ==> dtos[k] == rows[k].details
  {
    if rows == [] then [] else [rows[0].details] + DtosOf(rows[1..])
  }

  /**
   * The filter object after `getUserSessions` has filled in its defaults: a null
   * limit becomes `Integer.MAX_VALUE` and a null end date becomes today; start
   * date and sport are left as they were.
   */
  function WithDefaults(filter: ServerFilter.FilterDto, today: Date): (f: ServerFilter.FilterDto)
    ensures f.startDate == filter.startDate && f.sport == filter.sport
    ensures f.limit == if filter.limit.None? then Some(IntegerMaxValue) else filter.limit
    ensures f.endDate == if filter.endDate.None? then Some(today) else filter.endDate
  {
    filter.(limit := if filter.limit.None? then Some(IntegerMaxValue) else filter.limit,
            endDate := if filter.endDate.None? then Some(today) else filter.endDate)
  }

  /** Filling in the defaults a second time changes nothing. */
  lemma WithDefaultsIdempotent(filter: ServerFilter.FilterDto, today: Date)
    ensures WithDefaults(WithDefaults(filter, today), today) == WithDefaults(filter, today)
  {
  }

  class TrainingSessionService {
    const sessions: SessionStore
    const tokens: TokenStore

    ghost predicate Valid()
      reads this, sessions, sessions.rows, tokens, tokens.rows
    {
      sessions.Valid() && tokens.Valid()
    }

    constructor (sessions: SessionStore, tokens: TokenStore)
      requires sessions.Valid() && tokens.Valid()
      ensures Valid() && this.sessions == sessions && this.tokens == tokens
    {
      this.sessions := sessions;
      this.tokens := tokens;
    }

    /**
     * `createSession`: a new session with the DTO's columns, owned by the token's
     * user, is appended to the table and its id returned with 200. The user's own
     * `sessions` list is not touched.
     */
    method CreateSession(token: string, dto: TrainingSessionDto) returns (out: Outcome)
      requires Valid()
      modifies sessions
      ensures Valid()
      ensures old(GetUserFromToken(tokens, token)).Err? ==>
                out == Thrown(old(GetUserFromToken(tokens, token)).error) && sessions.rows == old(sessions.rows)
      ensures old(GetUserFromToken(tokens, token)).Ok? ==>
        && |sessions.rows| == |old(sessions.rows)| + 1
        && sessions.rows[..|old(sessions.rows)|] == old(sessions.rows)
        && var s := sessions.rows[|old(sessions.rows)|];
           fresh(s) && s.user == old(GetUserFromToken(tokens, token)).value
           && s.Details() == dto.(id := s.id) && s.id.Some?
           && out == Reply(ServerResponse.Of(200, "session-id", Id(s.id)))
    {
      var found := GetUserFromToken(tokens, token);
      if found.Err? {
        return Thrown(found.error);
      }
      var s := new TrainingSession(dto);
      s.user := found.value;
      sessions.Save(s);
      out := Reply(ServerResponse.Of(200, "session-id", Id(s.id)));
    }

    /**
     * `getUserSessions`: the token's user's sessions in the window, newest first,
     * at most `limit` (`Integer.MAX_VALUE` when null), with 200. The returned
     * filter carries the defaults; the query still receives the end date as it
     * arrived, so a null end date does not bound the query. A limit below one
     * fails in `PageRequest.of`.
     */
    method GetUserSessions(token: string, filter: ServerFilter.FilterDto, today: Date)
      returns (out: Outcome, after: ServerFilter.FilterDto)
      requires Valid()
      ensures old(GetUserFromToken(tokens, token)).Err? ==>
                out == Thrown(old(GetUserFromToken(tokens, token)).error) && after == filter
      ensures old(GetUserFromToken(tokens, token)).Ok? ==> after == WithDefaults(filter, today)
      ensures old(GetUserFromToken(tokens, token)).Ok? && after.limit.value < 1 ==> out == Thrown(IllegalArgument)
      ensures old(GetUserFromToken(tokens, token)).Ok? && after.limit.value >= 1 ==>
                out == Reply(ServerResponse.Of(200, "sessions", Sessions(DtosOf(FindFilteredSessions(
                  sessions.Table(), old(GetUserFromToken(tokens, token)).value.id,
                  filter.startDate, filter.endDate, after.limit.value)))))
    {
      var found := GetUserFromToken(tokens, token);
      if found.Err? {
        return Thrown(found.error), filter;
      }
      var user := found.value;
      var startDate := filter.startDate;
      var endDate := filter.endDate;
      after := filter;
      if after.limit.None? {
        after := after.(limit := Some(IntegerMaxValue));
      }
      if endDate.None? {
        after := after.(endDate := Some(today));
      }
      if after.limit.value < 1 {
        return Thrown(IllegalArgument), after;
      }
      var page := FindFilteredSessions(sessions.Table(), user.id, startDate, endDate, after.limit.value);
      out := Reply(ServerResponse.Of(200, "sessions", Sessions(DtosOf(page))));
    }

    /**
     * The ownership check shared by delete and update: the stored session with
     * this id, when it exists and its owner is `user`; a missing owner is
     * dereferenced, which fails.
     */
    function Owned(user: User, id: Uuid): (r: Result<Option<TrainingSession>, Failure>)
      reads this, sessions, sessions.rows
      ensures r.Ok? && r.value.Some? ==> r.value.value in sessions.rows && r.value.value.id == Some(id) && r.value.value.user == user
      ensures r.Ok? && r.value.None? ==>
                forall s :: s in sessions.rows && s.id == Some(id) ==> s != sessions.FindById(id).value || s.user != user
      ensures r.Err? <==> sessions.FindById(id).Some? && sessions.FindById(id).value.user == null
    {
      match sessions.FindById(id)
      case None => Ok(None)
      case Some(s) =>
        if s.user == null then Err(NullPointer)
        else if s.user != user then Ok(None)
        else Ok(Some(s))
    }

    /**
     * `deleteSession`: 404 with no change unless the session exists and belongs to
     * the token's user; otherwise exactly that session leaves the table and 200 is
     * returned.
     */
    method DeleteSession(token: string, id: Uuid) returns (out: Outcome)
      requires Valid()
      modifies sessions
      ensures Valid()
      ensures old(GetUserFromToken(tokens, token)).Err? ==>
                out == Thrown(old(GetUserFromToken(tokens, token)).error) && sessions.rows == old(sessions.rows)
      ensures old(GetUserFromToken(tokens, token)).Ok? ==>
        var owned := old(Owned(GetUserFromToken(tokens, token).value, id));
        && (owned.Err? ==> out == Thrown(NullPointer) && sessions.rows == old(sessions.rows))
        && (owned == Ok(None) ==> out == Message(404, "error", NotOwned) && sessions.rows == old(sessions.rows))
        && (owned.Ok? && owned.value.Some? ==>
              && out == Message(200, "message", Deleted)
              && sessions.rows == RemoveFirst<TrainingSession>(old(sessions.rows), owned.value.value)
              && owned.value.value !in sessions.rows
              && (forall x :: x in old(sessions.rows) && x != owned.value.value ==> x in sessions.rows))
    {
      var found := GetUserFromToken(tokens, token);
      if found.Err? {
        return Thrown(found.error);
      }
      var owned := Owned(found.value, id);
      if owned.Err? {
        return Thrown(NullPointer);
      }
      if owned.value.None? {
        return Message(404, "error", NotOwned);
      }
      sessions.Delete(owned.value.value);
      out := Message(200, "message", Deleted);
    }

    /**
     * `updateSession`: the same ownership check; on success the six columns take
     * the DTO's values while the id and the owner stay, and 200 is returned.
     */
    method UpdateSession(token: string, id: Uuid, dto: TrainingSessionDto) returns (out: Outcome)
      requires Valid()
      modifies sessions.rows
      ensures Valid()
      ensures sessions.rows == old(sessions.rows)
      ensures forall s :: s in sessions.rows ==> s.user == old(s.user) && s.id == old(s.id)
      ensures old(GetUserFromToken(tokens, token)).Err? ==>
                out == Thrown(old(GetUserFromToken(tokens, token)).error) &&
                forall s :: s in sessions.rows ==> s.Details() == old(s.Details())
      ensures old(GetUserFromToken(tokens, token)).Ok? ==>
        var owned := old(Owned(GetUserFromToken(tokens, token).value, id));
        && (owned.Err? ==> out == Thrown(NullPointer))
        && (owned == Ok(None) ==> out == Message(404, "error", NotOwned))
        && (!(owned.Ok? && owned.value.Some?) ==> forall s :: s in sessions.rows ==> s.Details() == old(s.Details()))
        && (owned.Ok? && owned.value.Some? ==>
              && out == Message(200, "message", Updated)
              && owned.value.value.Details() == dto.(id := Some(id))
              && (forall s :: s in sessions.rows && s != owned.value.value ==> s.Details() == old(s.Details())))
    {
      var found := GetUserFromToken(tokens, token);
      if found.Err? {
        return Thrown(found.error);
      }
      var owned := Owned(found.value, id);
      if owned.Err? {
        return Thrown(NullPointer);
      }
      if owned.value.None? {
        return Message(404, "error", NotOwned);
      }
      Overwrite(owned.value.value, dto);
      out := Message(200, "message", Updated);
    }

    /** The six setters of `updateSession`: every column but the id takes the DTO's value. */
    static method Overwrite(s: TrainingSession, dto: TrainingSessionDto)
      modifies s
      ensures s.Details() == dto.(id := old(s.id))
      ensures s.user == old(s.user)
    {
      s.title, s.sport, s.distance := dto.title, dto.sport, dto.distance;
      s.startDate, s.startTime, s.duration := dto.startDate, dto.startTime, dto.duration;
    }
  }
}
