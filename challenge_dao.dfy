/**
 * `ChallengeDAO`: the filtered, ordered, paged challenge query and `findByCreator`
 * as functions over the table's rows, plus the in-memory table itself.
 */
module ChallengeDao {
  import opened Wrappers
  import opened Domain
  import opened Lists
  import Ordering
  import DateRange
  import opened Entities

  /** A challenge as the query sees it: its columns, its participants' ids and its creator's id. */
  datatype ChallengeRow = ChallengeRow(details: ChallengeDetails, participantIds: seq<Option<Uuid>>, creatorId: Option<Uuid>)

  /** The `ORDER BY c.startDate` key. */
  function StartKey(r: ChallengeRow): Date {
    r.details.startDate
  }

  /**
   * The sport and date conditions of the WHERE clause; a null argument imposes no
   * constraint. The dates test overlap: the challenge starts by `endDate` and ends
   * on or after `startDate`.
   */
  predicate ColumnsMatch(r: ChallengeRow, startDate: Option<Date>, endDate: Option<Date>, sport: Option<SportType>) {
    && (sport.None? || r.details.sport == sport.value)
    && (endDate.None? || r.details.startDate <= endDate.value)
    && (startDate.None? || r.details.endDate >= startDate.value)
  }

  // ---------------------------------------------------------------------------
  // The query as written: `SELECT c FROM Challenge c JOIN c.users u WHERE ...`
  // produces one result row per (challenge, participant) pair that passes.
  // ---------------------------------------------------------------------------

  /** The WHERE clause on one join row: `(:userId IS NULL OR u.id = :userId) AND ...`. */
  predicate PairMatches(r: ChallengeRow, participantId: Option<Uuid>, userId: Option<Uuid>,
                        startDate: Option<Date>, endDate: Option<Date>, sport: Option<SportType>) {
    (userId.None? || participantId == userId) && ColumnsMatch(r, startDate, endDate, sport)
  }

  /** The join rows of one challenge (one per participant in `ids`) that pass the WHERE clause. */
  function JoinRowsOf(r: ChallengeRow, ids: seq<Option<Uuid>>, userId: Option<Uuid>,
                      startDate: Option<Date>, endDate: Option<Date>, sport: Option<SportType>): (out: seq<ChallengeRow>)
    ensures |out| <= |ids|
    ensures forall x :: x in out ==> x == r
    ensures out != [] ==> ColumnsMatch(r, startDate, endDate, sport) && (userId.None? || userId in ids)
  {
    if ids == [] then []
    else (if PairMatches(r, ids[0], userId, startDate, endDate, sport) then [r] else [])
         + JoinRowsOf(r, ids[1..], userId, startDate, endDate, sport)
  }

  /** The inner join of challenges with their participants, filtered, in table order. */
  function JoinWhere(rows: seq<ChallengeRow>, userId: Option<Uuid>,
                     startDate: Option<Date>, endDate: Option<Date>, sport: Option<SportType>): (out: seq<ChallengeRow>)
    ensures forall x :: x in out ==> x in rows && x.participantIds != []
    ensures forall x :: x in out ==> RowMatches(x, userId, startDate, endDate, sport)
  {
    if rows == [] then []
    else
      assert rows == [rows[0]] + rows[1..];
      JoinRowsOf(rows[0], rows[0].participantIds, userId, startDate, endDate, sport)
      + JoinWhere(rows[1..], userId, startDate, endDate, sport)
  }

  /** `findFilteredChallenges` exactly as the JPQL reads: join, filter, order, first page. */
  function FindFilteredChallengesAsWritten(rows: seq<ChallengeRow>, userId: Option<Uuid>, startDate: Option<Date>,
                                           endDate: Option<Date>, sport: Option<SportType>, limit: nat): seq<ChallengeRow>
  {
    Ordering.FirstPage(Ordering.SortDesc(JoinWhere(rows, userId, startDate, endDate, sport), StartKey), limit)
  }

  // ---------------------------------------------------------------------------
  // The query as intended: each matching challenge once.
  // ---------------------------------------------------------------------------

  /** The WHERE clause on a challenge: the user (if given) is a participant, and the columns match. */
  predicate RowMatches(r: ChallengeRow, userId: Option<Uuid>,
                       startDate: Option<Date>, endDate: Option<Date>, sport: Option<SportType>) {
    (userId.None? || userId in r.participantIds) && ColumnsMatch(r, startDate, endDate, sport)
  }

  /** `RowMatches` as a filter test. */
  function RowTest(userId: Option<Uuid>, startDate: Option<Date>, endDate: Option<Date>, sport: Option<SportType>)
    : ChallengeRow -> bool
  {
    r => RowMatches(r, userId, startDate, endDate, sport)
  }

  /** The challenges that pass the filters, in table order. */
  function Matching(rows: seq<ChallengeRow>, userId: Option<Uuid>, startDate: Option<Date>,
                    endDate: Option<Date>, sport: Option<SportType>): seq<ChallengeRow>
  {
    Filter(rows, RowTest(userId, startDate, endDate, sport))
  }

  /** `findFilteredChallenges` with each challenge listed once: filter, order by start date descending, first page. */
  function FindFilteredChallenges(rows: seq<ChallengeRow>, userId: Option<Uuid>, startDate: Option<Date>,
                                  endDate: Option<Date>, sport: Option<SportType>, limit: nat): seq<ChallengeRow>
  {
    Ordering.FirstPage(Ordering.SortDesc(Matching(rows, userId, startDate, endDate, sport), StartKey), limit)
  }

  /**
   * Every returned challenge has the user among its participants (when a user is
   * given), the sport (when given) and an overlapping date range; the page is
   * ordered by start date, newest first, and holds at most `limit` challenges.
   */
  lemma FindFilteredSound(rows: seq<ChallengeRow>, userId: Option<Uuid>, startDate: Option<Date>,
                          endDate: Option<Date>, sport: Option<SportType>, limit: nat)
    ensures var r := FindFilteredChallenges(rows, userId, startDate, endDate, sport, limit);
      && |r| <= limit
      && (forall x :: x in r ==> x in rows && RowMatches(x, userId, startDate, endDate, sport))
      && Ordering.SortedDesc(r, StartKey)
  {
    var m := Matching(rows, userId, startDate, endDate, sport);
    Ordering.TopPage(m, StartKey, limit);
    var r := FindFilteredChallenges(rows, userId, startDate, endDate, sport, limit);
    forall x | x in r ensures x in rows && RowMatches(x, userId, startDate, endDate, sport) {
      assert x in multiset(r);
      assert x in multiset(m);
    }
  }

  /**
   * The query as written returns only challenges that have at least one participant
   * (the join is an inner join), that pass the filters, newest first, at most `limit` rows.
   */
  lemma FindFilteredAsWrittenSound(rows: seq<ChallengeRow>, userId: Option<Uuid>, startDate: Option<Date>,
                                   endDate: Option<Date>, sport: Option<SportType>, limit: nat)
    ensures var r := FindFilteredChallengesAsWritten(rows, userId, startDate, endDate, sport, limit);
      && |r| <= limit
      && (forall x :: x in r ==> x in rows && x.participantIds != [] && RowMatches(x, userId, startDate, endDate, sport))
      && Ordering.SortedDesc(r, StartKey)
  {
    var j := JoinWhere(rows, userId, startDate, endDate, sport);
    Ordering.TopPage(j, StartKey, limit);
    var r := FindFilteredChallengesAsWritten(rows, userId, startDate, endDate, sport, limit);
    forall x | x in r ensures x in j {
      assert x in multiset(r);
      assert x in multiset(j);
    }
  }

  /**
   * Nothing is lost but what the page cuts off: the page holds min(limit, matches)
   * challenges, all from the matches, and any match left out starts no later than
   * every challenge on the page.
   */
  lemma FindFilteredComplete(rows: seq<ChallengeRow>, userId: Option<Uuid>, startDate: Option<Date>,
                             endDate: Option<Date>, sport: Option<SportType>, limit: nat)
    ensures var m := Matching(rows, userId, startDate, endDate, sport);
      var r := FindFilteredChallenges(rows, userId, startDate, endDate, sport, limit);
      && multiset(r) <= multiset(m)
      && |r| == (if limit < |m| then limit else |m|)
      && (|m| <= limit ==> multiset(r) == multiset(m))
      && (forall x :: x in m && multiset(r)[x] < multiset(m)[x] ==>
            forall i :: 0 <= i < |r| ==> StartKey(r[i]) >= StartKey(x))
  {
    var m := Matching(rows, userId, startDate, endDate, sport);
    Ordering.TopPage(m, StartKey, limit);
    Ordering.PageKeepsTheTop(m, StartKey, limit);
  }

  /** With every filter null, a challenge matches whatever its columns. */
  lemma NullFiltersMatchAll(r: ChallengeRow)
    ensures RowMatches(r, None, None, None, None)
  {
  }

  /**
   * On a challenge whose own dates are ordered and a valid filter window, the date
   * test of the query is exactly "the challenge shares at least one day with the window".
   */
  lemma DateTestIsOverlap(r: ChallengeRow, startDate: Option<Date>, endDate: Option<Date>)
    requires r.details.startDate <= r.details.endDate
    requires DateRange.IsValid(startDate, endDate)
    ensures ColumnsMatch(r, startDate, endDate, None) <==>
            exists d :: r.details.startDate <= d <= r.details.endDate && DateRange.Within(d, startDate, endDate)
  {
    if ColumnsMatch(r, startDate, endDate, None) {
      var d := if startDate.Some? && startDate.value > r.details.startDate then startDate.value else r.details.startDate;
      assert r.details.startDate <= d <= r.details.endDate && DateRange.Within(d, startDate, endDate);
    }
  }

  /**
   * When a user is given and participant lists have no duplicates, the join yields
   * each matching challenge exactly once, so the query as written agrees with the intended one.
   */
  lemma AsWrittenAgreesForUser(rows: seq<ChallengeRow>, userId: Uuid, startDate: Option<Date>,
                               endDate: Option<Date>, sport: Option<SportType>, limit: nat)
    requires forall r :: r in rows ==> NoDup(r.participantIds)
    ensures FindFilteredChallengesAsWritten(rows, Some(userId), startDate, endDate, sport, limit)
         == FindFilteredChallenges(rows, Some(userId), startDate, endDate, sport, limit)
  {
    JoinFilterForUser(rows, userId, startDate, endDate, sport);
  }

  lemma {:induction false} JoinFilterForUser(rows: seq<ChallengeRow>, userId: Uuid, startDate: Option<Date>,
                                             endDate: Option<Date>, sport: Option<SportType>)
    requires forall r :: r in rows ==> NoDup(r.participantIds)
    ensures JoinWhere(rows, Some(userId), startDate, endDate, sport) == Matching(rows, Some(userId), startDate, endDate, sport)
    decreases |rows|
  {
    if rows != [] {
      var r := rows[0];
      assert rows == [r] + rows[1..];
      JoinFilterForUser(rows[1..], userId, startDate, endDate, sport);
      OneRowForUser(r, r.participantIds, userId, startDate, endDate, sport);
      FilterCons(rows, RowTest(Some(userId), startDate, endDate, sport));
    }
  }

  /** Within one challenge, the passing join rows number one if the user takes part (once), else none. */
  lemma {:induction false} OneRowForUser(r: ChallengeRow, ids: seq<Option<Uuid>>, userId: Uuid,
                                         startDate: Option<Date>, endDate: Option<Date>, sport: Option<SportType>)
    requires NoDup(ids)
    ensures JoinRowsOf(r, ids, Some(userId), startDate, endDate, sport)
         == if Some(userId) in ids && ColumnsMatch(r, startDate, endDate, sport) then [r] else []
    decreases |ids|
  {
    if ids != [] {
      NoDupTail(ids);
      OneRowForUser(r, ids[1..], userId, startDate, endDate, sport);
      assert ids == [ids[0]] + ids[1..];
    }
  }

  /** With no user filter, a matching challenge yields one join row per participant, a failing one none. */
  lemma {:induction false} NullUserRowPerParticipant(r: ChallengeRow, ids: seq<Option<Uuid>>,
                                                     startDate: Option<Date>, endDate: Option<Date>, sport: Option<SportType>)
    ensures |JoinRowsOf(r, ids, None, startDate, endDate, sport)| == if ColumnsMatch(r, startDate, endDate, sport) then |ids| else 0
    decreases |ids|
  {
    if ids != [] {
      NullUserRowPerParticipant(r, ids[1..], startDate, endDate, sport);
    }
  }

  /** A table with one challenge that has two participants. */
  function TwoParticipantTable(): seq<ChallengeRow> {
    [ChallengeRow(ChallengeDetails(Some(1), "Marathon", 10, 40, 42.0, Distancia, SportType("RUNNING")), [Some(7), Some(8)], Some(7))]
  }

  /**
   * The discrepancy: listing challenges with no user filter (as getActiveChallenges
   * does) returns the one challenge twice, once per participant.
   */
  lemma AsWrittenDuplicatesChallenges()
    ensures |FindFilteredChallengesAsWritten(TwoParticipantTable(), None, None, None, None, 10)| == 2
    ensures |FindFilteredChallenges(TwoParticipantTable(), None, None, None, None, 10)| == 1
  {
    var rows := TwoParticipantTable();
    assert JoinWhere(rows, None, None, None, None) == [rows[0], rows[0]];
    assert Matching(rows, None, None, None, None) == rows;
  }

  /** `findByCreator`: exactly the challenges whose creator is the given user, in table order. */
  function FindByCreator(rows: seq<ChallengeRow>, creatorId: Uuid): (r: seq<ChallengeRow>)
    ensures forall x :: x in r ==> x in rows && x.creatorId == Some(creatorId)
    ensures forall x :: x in rows && x.creatorId == Some(creatorId) ==> x in r
  {
    Filter(rows, (x: ChallengeRow) => x.creatorId == Some(creatorId))
  }

  // ---------------------------------------------------------------------------
  // The table (the JpaRepository side of the DAO).
  // ---------------------------------------------------------------------------

  function IdsOf(users: seq<User>): (ids: seq<Option<Uuid>>)
    reads users
    ensures |ids| == |users|
    ensures forall k :: 0 <= k < |users| ==> ids[k] == users[k].id
  {
    if users == [] then [] else [users[0].id] + IdsOf(users[1..])
  }

  /** What the query reads of one challenge. */
  function RowOf(c: Challenge): ChallengeRow
    reads c, c.users, c.creator
  {
    ChallengeRow(c.Details(), IdsOf(c.users), if c.creator == null then None else c.creator.id)
  }

  /** The participants and creators a table's rows refer to. */
  function Related(cs: seq<Challenge>): set<object>
    reads cs
  {
    (set c, u | c in cs && u in c.users :: u as object) + (set c | c in cs && c.creator != null :: c.creator as object)
  }

  function RowsOf(cs: seq<Challenge>): (rows: seq<ChallengeRow>)
    reads cs, Related(cs)
    ensures |rows| == |cs|
    ensures forall k :: 0 <= k < |cs| ==> rows[k].details == cs[k].Details()
  {
    if cs == [] then []
    else
      assert Related(cs[1..]) <= Related(cs);
      assert forall u :: u in cs[0].users ==> u in Related(cs);
      [RowOf(cs[0])] + RowsOf(cs[1..])
  }

  class ChallengeStore {
    var rows: seq<Challenge>
    var nextId: nat

    /**
     * Saved challenges have distinct ids below the id counter, a creator, and
     * duplicate-free participant lists.
     */
    ghost predicate Valid()
      reads this, rows
    {
      && NoDup(rows)
      && (forall x :: x in rows ==> x.id.Some? && x.id.value < nextId)
      && (forall x, y :: x in rows && y in rows && x != y ==> x.id != y.id)
      && (forall x :: x in rows ==> x.creator != null && NoDup(x.users))
    }

    constructor ()
      ensures Valid() && rows == []
    {
      rows := [];
      nextId := 0;
    }

    /** The rows the queries run over. */
    function Table(): seq<ChallengeRow>
      reads this, rows, Related(rows)
    {
      RowsOf(rows)
    }

    /** `findById`: the saved challenge with this id, if any. */
    function FindById(id: Uuid): (r: Option<Challenge>)
      reads this, rows
      ensures r.Some? ==> r.value in rows && r.value.id == Some(id)
      ensures r.None? ==> forall c :: c in rows ==> c.id != Some(id)
    {
      Find(rows, id)
    }

    static function Find(cs: seq<Challenge>, id: Uuid): (r: Option<Challenge>)
      reads cs
      ensures r.Some? ==> r.value in cs && r.value.id == Some(id)
      ensures r.None? ==> forall c :: c in cs ==> c.id != Some(id)
    {
      if cs == [] then None
      else if cs[0].id == Some(id) then Some(cs[0])
      else Find(cs[1..], id)
    }

    /**
     * `save`: a new challenge gets the next id and is appended; saving a stored
     * challenge changes nothing.
     */
    method Save(c: Challenge)
      requires Valid()
      requires c in rows || (c.id.None? && c.creator != null && NoDup(c.users))
      modifies this, c
      ensures Valid()
      ensures rows == if c in old(rows) then old(rows) else old(rows) + [c]
      ensures c.id.Some? && (c in old(rows) ==> c.id == old(c.id))
      ensures c.Details() == old(c.Details()).(id := c.id)
      ensures c.users == old(c.users) && c.creator == old(c.creator)
      ensures forall x :: x in old(rows) ==> x.id == old(x.id)
    {
      if c !in rows {
        c.id := Some(nextId);
        rows := rows + [c];
        nextId := nextId + 1;
      }
    }
  }
}
