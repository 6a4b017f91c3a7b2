/** `com.strava.dto.ChallengeDTO`: the challenge as the server's API reads and writes it. */
module ChallengeDtos {
  import opened Wrappers
  import opened Domain

  datatype ChallengeDto = ChallengeDto(
    id: Option<Uuid>,
    name: Option<string>,
    startDate: Option<Date>,
    endDate: Option<Date>,
    objectiveValue: Option<real>,
    objectiveType: Option<ObjectiveType>,
    sport: Option<SportType>,
    progress: Option<real>,
    creatorId: Option<Uuid>)
  {
    /** The date invariant both constructors establish. */
    predicate DatesOrdered() {
      Ordered(startDate, endDate)
    }

    /**
     * `toMap`: exactly the eight keys id, name, startDate, endDate, objectiveValue,
     * objectiveType, sport and creatorId (a null field is stored as a null value);
     * progress is never included.
     */
    function ToMap(): (m: map<string, Field>)
      ensures m.Keys == MapKeys
      ensures "progress" !in m
    {
      map[
        "id" := if id.Some? then IdField(id.value) else Null,
        "name" := if name.Some? then TextField(name.value) else Null,
        "startDate" := if startDate.Some? then DateField(startDate.value) else Null,
        "endDate" := if endDate.Some? then DateField(endDate.value) else Null,
        "objectiveValue" := if objectiveValue.Some? then NumberField(objectiveValue.value) else Null,
        "objectiveType" := if objectiveType.Some? then ObjectiveField(objectiveType.value) else Null,
        "sport" := if sport.Some? then SportField(sport.value) else Null,
        "creatorId" := if creatorId.Some? then IdField(creatorId.value) else Null
      ]
    }
  }

  /** The values `toMap` puts in its `Map<String, Object>`. */
  datatype Field =
    | Null
    | IdField(uuid: Uuid)
    | TextField(text: string)
    | DateField(date: Date)
    | NumberField(number: real)
    | ObjectiveField(objective: ObjectiveType)
    | SportField(sportType: SportType)

  const MapKeys: set<string> :=
    {"id", "name", "startDate", "endDate", "objectiveValue", "objectiveType", "sport", "creatorId"}

  /** Start not after end, whenever both are present. */
  predicate Ordered(start: Option<Date>, end: Option<Date>) {
    start.None? || end.None? || start.value <= end.value
  }

  /**
   * `swapDatesIfNecessary` on the pair (startDate, endDate): swaps only when both are
   * present and out of order, so the result is (min, max) of the two dates.
   */
  function SwapDatesIfNecessary(start: Option<Date>, end: Option<Date>): (r: (Option<Date>, Option<Date>))
    ensures Ordered(r.0, r.1)
    ensures Ordered(start, end) ==> r == (start, end)
    ensures start.None? || end.None? ==> r == (start, end)
    ensures start.Some? && end.Some? ==>
      r.0.Some? && r.1.Some? &&
      r.0.value == (if start.value <= end.value then start.value else end.value) &&
      r.1.value == (if start.value <= end.value then end.value else start.value)
  {
    if start.Some? && end.Some? && start.value > end.value then (end, start) else (start, end)
  }

  /** A second swap changes nothing. */
  lemma SwapIdempotent(start: Option<Date>, end: Option<Date>)
    ensures var r := SwapDatesIfNecessary(start, end); SwapDatesIfNecessary(r.0, r.1) == r
  {
  }

  /**
   * The JSON creator: stores the six given fields, then swaps the dates if needed;
   * id, progress and creatorId stay null.
   */
  function Create(
    name: Option<string>, startDate: Option<Date>, endDate: Option<Date>,
    objectiveValue: Option<real>, objectiveType: Option<ObjectiveType>, sport: Option<SportType>): (d: ChallengeDto)
    ensures d.DatesOrdered()
    ensures d.name == name && d.objectiveValue == objectiveValue
    ensures d.objectiveType == objectiveType && d.sport == sport
    ensures d.id.None? && d.progress.None? && d.creatorId.None?
    ensures multiset{d.startDate, d.endDate} == multiset{startDate, endDate}
    ensures Ordered(startDate, endDate) ==> d.startDate == startDate && d.endDate == endDate
  {
    var dates := SwapDatesIfNecessary(startDate, endDate);
    ChallengeDto(None, name, dates.0, dates.1, objectiveValue, objectiveType, sport, None, creatorId := None)
  }

  /**
   * `ChallengeDTO(Challenge)`, over the entity's column values: copies id and every
   * field, takes creatorId from the creator, and orders the two dates.
   */
  function OfEntity(
    id: Option<Uuid>, name: string, startDate: Date, endDate: Date,
    objectiveValue: real, objectiveType: ObjectiveType, sport: SportType, creatorId: Option<Uuid>): (d: ChallengeDto)
    ensures d.DatesOrdered()
    ensures d.id == id && d.creatorId == creatorId && d.progress.None?
    ensures d.name == Some(name) && d.objectiveValue == Some(objectiveValue)
    ensures d.objectiveType == Some(objectiveType) && d.sport == Some(sport)
    ensures d.startDate.Some? && d.endDate.Some?
    ensures multiset{d.startDate.value, d.endDate.value} == multiset{startDate, endDate}
  {
    var dates := SwapDatesIfNecessary(Some(startDate), Some(endDate));
    ChallengeDto(id, Some(name), dates.0, dates.1, Some(objectiveValue), Some(objectiveType), Some(sport), None, creatorId)
  }

  /** Reads a DTO back from a `toMap` map: the inverse of ToMap up to progress. */
  function FromMap(m: map<string, Field>): (d: ChallengeDto)
  {
    ChallengeDto(
      if "id" in m && m["id"].IdField? then Some(m["id"].uuid) else None,
      if "name" in m && m["name"].TextField? then Some(m["name"].text) else None,
      if "startDate" in m && m["startDate"].DateField? then Some(m["startDate"].date) else None,
      if "endDate" in m && m["endDate"].DateField? then Some(m["endDate"].date) else None,
      if "objectiveValue" in m && m["objectiveValue"].NumberField? then Some(m["objectiveValue"].number) else None,
      if "objectiveType" in m && m["objectiveType"].ObjectiveField? then Some(m["objectiveType"].objective) else None,
      if "sport" in m && m["sport"].SportField? then Some(m["sport"].sportType) else None,
      None,
      if "creatorId" in m && m["creatorId"].IdField? then Some(m["creatorId"].uuid) else None)
  }

  /** `toMap` loses nothing but the progress. */
  lemma ToMapRoundTrip(d: ChallengeDto)
    ensures FromMap(d.ToMap()) == d.(progress := None)
  {
  }
}
