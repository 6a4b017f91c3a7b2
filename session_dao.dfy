/**
 * `TrainingSessionDAO`: the owner's sessions in a date window, newest first, one
 * page; and the in-memory table the service saves into and deletes from.
 */
module TrainingSessionDao {
  import opened Wrappers
  import opened Domain
  import opened Lists
  import Ordering
  import DateRange
  import opened Entities

  /** A session as the query sees it: its columns and its owner's id. */
  datatype SessionRow = SessionRow(details: TrainingSessionDto, userId: Option<Uuid>)

  /** The `ORDER BY t.startDate` key. */
  function StartKey(r: SessionRow): Date {
    r.details.startDate
  }

  /**
   * The WHERE clause. `t.user.id = :userId` holds for no row when the argument is
   * null, nor for a session without owner; each date bound is skipped when null.
   * There is no sport condition.
   */
  predicate RowMatches(r: SessionRow, userId: Option<Uuid>, startDate: Option<Date>, endDate: Option<Date>) {
    userId.Some? && r.userId == userId && DateRange.Within(r.details.startDate, startDate, endDate)
  }

  /** `RowMatches` as a filter test. */
  function RowTest(userId: Option<Uuid>, startDate: Option<Date>, endDate: Option<Date>): SessionRow -> bool {
    r => RowMatches(r, userId, startDate, endDate)
  }

  /** The sessions that pass the WHERE clause, in table order. */
  function Matching(rows: seq<SessionRow>, userId: Option<Uuid>, startDate: Option<Date>, endDate: Option<Date>): seq<SessionRow> {
    Filter(rows, RowTest(userId, startDate, endDate))
  }

  /** `findFilteredSessions` with `PageRequest.of(0, limit)`. */
  function FindFilteredSessions(rows: seq<SessionRow>, userId: Option<Uuid>, startDate: Option<Date>,
                                endDate: Option<Date>, limit: nat): seq<SessionRow>
  {
    Ordering.FirstPage(Ordering.SortDesc(Matching(rows, userId, startDate, endDate), StartKey), limit)
  }

  /**
   * Every returned session belongs to the given user and starts inside the window;
   * the page is ordered by start date, newest first, and holds at most `limit` sessions.
   */
  lemma FindFilteredSound(rows: seq<SessionRow>, userId: Option<Uuid>, startDate: Option<Date>,
                          endDate: Option<Date>, limit: nat)
    ensures var r := FindFilteredSessions(rows, userId, startDate, endDate, limit);
      && |r| <= limit
      && (forall x :: x in r ==> x in rows && userId.Some? && x.userId == userId)
      && (forall x :: x in r ==> (startDate.None? || x.details.startDate >= startDate.value))
      && (forall x :: x in r ==> (endDate.None? || x.details.startDate <= endDate.value))
      && Ordering.SortedDesc(r, StartKey)
  {
    var m := Matching(rows, userId, startDate, endDate);
    Ordering.TopPage(m, StartKey, limit);
    var r := FindFilteredSessions(rows, userId, startDate, endDate, limit);
    forall x | x in r ensures x in rows && RowMatches(x, userId, startDate, endDate) {
      assert x in multiset(r);
      assert x in multiset(m);
    }
  }

  /**
   * The page holds min(limit, matches) sessions, all matches, and any matching
   * session left out starts no later than every session on the page.
   */
  lemma FindFilteredComplete(rows: seq<SessionRow>, userId: Option<Uuid>, startDate: Option<Date>,
                             endDate: Option<Date>, limit: nat)
    ensures var m := Matching(rows, userId, startDate, endDate);
      var r := FindFilteredSessions(rows, userId, startDate, endDate, limit);
      && multiset(r) <= multiset(m)
      && |r| == (if limit < |m| then limit else |m|)
      && (|m| <= limit ==> multiset(r) == multiset(m))
      && (forall x :: x in m && multiset(r)[x] < multiset(m)[x] ==>
            forall i :: 0 <= i < |r| ==> StartKey(r[i]) >= StartKey(x))
  {
    var m := Matching(rows, userId, startDate, endDate);
    Ordering.TopPage(m, StartKey, limit);
    Ordering.PageKeepsTheTop(m, StartKey, limit);
  }

  /** With both bounds null, exactly the user's sessions match, whatever their dates and sport. */
  lemma NullBoundsMatchOwner(r: SessionRow, userId: Uuid)
    ensures RowMatches(r, Some(userId), None, None) <==> r.userId == Some(userId)
  {
  }

  /** A null user id matches nothing, so the query then returns an empty page. */
  lemma NullUserFindsNothing(rows: seq<SessionRow>, startDate: Option<Date>, endDate: Option<Date>, limit: nat)
    ensures FindFilteredSessions(rows, None, startDate, endDate, limit) == []
  {
    NoMatchWithoutUser(rows, startDate, endDate);
  }

  lemma {:induction false} NoMatchWithoutUser(rows: seq<SessionRow>, startDate: Option<Date>, endDate: Option<Date>)
    ensures Matching(rows, None, startDate, endDate) == []
    decreases |rows|
  {
    if rows != [] {
      FilterCons(rows, RowTest(None, startDate, endDate));
      NoMatchWithoutUser(rows[1..], startDate, endDate);
    }
  }

  // ---------------------------------------------------------------------------
  // The table (the JpaRepository side of the DAO).
  // ---------------------------------------------------------------------------

  function RowOf(s: TrainingSession): SessionRow
    reads s, s.user
  {
    SessionRow(s.Details(), if s.user == null then None else s.user.id)
  }

  /** The owners a table's sessions refer to. */
  function Owners(ss: seq<TrainingSession>): set<object>
    reads ss
  {
    set s | s in ss && s.user != null :: s.user as object
  }

  function RowsOf(ss: seq<TrainingSession>): (rows: seq<SessionRow>)
    reads ss, Owners(ss)
    ensures |rows| == |ss|
    ensures forall k :: 0 <= k < |ss| ==> rows[k].details == ss[k].Details()
  {
    if ss == [] then []
    else
      assert Owners(ss[1..]) <= Owners(ss);
      [RowOf(ss[0])] + RowsOf(ss[1..])
  }

  class SessionStore {
    var rows: seq<TrainingSession>
    var nextId: nat

    /** Saved sessions are distinct and have distinct ids below the id counter. */
    ghost predicate Valid()
      reads this, rows
    {
      && NoDup(rows)
      && (forall x :: x in rows ==> x.id.Some? && x.id.value < nextId)
      && (forall x, y :: x in rows && y in rows && x != y ==> x.id != y.id)
    }

    constructor ()
      ensures Valid() && rows == []
    {
      rows := [];
      nextId := 0;
    }

    /** The rows the query runs over. */
    function Table(): seq<SessionRow>
      reads this, rows, Owners(rows)
    {
      RowsOf(rows)
    }

    /** `findById`: the saved session with this id, if any. */
    function FindById(id: Uuid): (r: Option<TrainingSession>)
      reads this, rows
      ensures r.Some? ==> r.value in rows && r.value.id == Some(id)
      ensures r.None? ==> forall s :: s in rows ==> s.id != Some(id)
    {
      Find(rows, id)
    }

    static function Find(ss: seq<TrainingSession>, id: Uuid): (r: Option<TrainingSession>)
      reads ss
      ensures r.Some? ==> r.value in ss && r.value.id == Some(id)
      ensures r.None? ==> forall s :: s in ss ==> s.id != Some(id)
    {
      if ss == [] then None
      else if ss[0].id == Some(id) then Some(ss[0])
      else Find(ss[1..], id)
    }

    /** `save`: a new session gets the next id and is appended; a stored one is left as it is. */
    method Save(s: TrainingSession)
      requires Valid()
      requires s in rows || s.id.None?
      modifies this, s
      ensures Valid()
      ensures rows == if s in old(rows) then old(rows) else old(rows) + [s]
      ensures s.id.Some? && (s in old(rows) ==> s.id == old(s.id))
      ensures s.Details() == old(s.Details()).(id := s.id) && s.user == old(s.user)
      ensures forall x :: x in old(rows) ==> x.id == old(x.id)
    {
      if s !in rows {
        s.id := Some(nextId);
        rows := rows + [s];
        nextId := nextId + 1;
      }
    }

    /** `delete`: removes the session from the table; every other session stays, in order. */
    method Delete(s: TrainingSession)
      requires Valid()
      modifies this
      ensures Valid()
      ensures rows == RemoveFirst<TrainingSession>(old(rows), s)
      ensures s !in rows
      ensures forall x :: x in old(rows) && x != s ==> x in rows
      ensures nextId == old(nextId)
    {
      var kept := RemoveFirst<TrainingSession>(rows, s);
      RemoveFirstSpec<TrainingSession>(rows, s);
      rows := kept;
    }
  }
}
