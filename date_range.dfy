/**
 * The optional date window shared by every filter object: `isValidDateRange`
 * exists in four identical copies (the server's FilterDTO, ChallengeFilterDTO and
 * SessionFilterDTO, and the client's FilterDTO), all of which call this one.
 */
module DateRange {
  import opened Wrappers
  import opened Domain

  /** Day `d` satisfies the optional lower bound `start` and upper bound `end`. */
  predicate Within(d: Date, start: Option<Date>, end: Option<Date>) {
    (start.None? || start.value <= d) && (end.None? || d <= end.value)
  }

  /**
   * `isValidDateRange`: false only when both dates are given and the end is before
   * the start. Equivalently, the window admits at least one day.
   */
  function IsValid(start: Option<Date>, end: Option<Date>): (b: bool)
    ensures b <==> exists d :: Within(d, start, end)
    ensures start.None? || end.None? ==> b
    ensures start.Some? && end.Some? ==> (b <==> start.value <= end.value)
  {
    var b := if start.Some? && end.Some? then !(end.value < start.value) else true;
    var day := if start.Some? then start.value else if end.Some? then end.value else 0;
    assert b ==> Within(day, start, end);
    b
  }
}

/** `com.strava.dto.FilterDTO`, the filter the server's list operations receive. */
module ServerFilter {
  import opened Wrappers
  import opened Domain
  import DateRange

  /** The JSON creator stores all four values as given; any of them may be null. */
  datatype FilterDto = FilterDto(startDate: Option<Date>, endDate: Option<Date>, sport: Option<SportType>, limit: Option<int>)
  {
    /** Valid iff some day lies within both bounds; true whenever a bound is missing. */
    function IsValidDateRange(): (b: bool)
      ensures b <==> exists d :: DateRange.Within(d, startDate, endDate)
      ensures startDate.None? || endDate.None? ==> b
    {
      DateRange.IsValid(startDate, endDate)
    }
  }
}

/** `com.strava.dto.ChallengeFilterDTO`: the same filter built field by field with setters. */
module ChallengeFilter {
  import opened Wrappers
  import opened Domain
  import DateRange

  datatype ChallengeFilterDto = ChallengeFilterDto(startDate: Option<Date>, endDate: Option<Date>, sport: Option<SportType>, limit: Option<int>)
  {
    /** Valid iff some day lies within both bounds; true whenever a bound is missing. */
    function IsValidDateRange(): (b: bool)
      ensures b <==> exists d :: DateRange.Within(d, startDate, endDate)
      ensures startDate.None? || endDate.None? ==> b
    {
      DateRange.IsValid(startDate, endDate)
    }
  }

  /** A freshly constructed filter: every field null, hence a valid (unbounded) range. */
  function Default(): (f: ChallengeFilterDto)
    ensures f.startDate.None? && f.endDate.None? && f.sport.None? && f.limit.None?
    ensures f.IsValidDateRange()
  {
    ChallengeFilterDto(None, None, None, None)
  }
}

/** `com.strava.dto.SessionFilterDTO`: dates and limit only, with no sport field. */
module SessionFilter {
  import opened Wrappers
  import opened Domain
  import DateRange

  datatype SessionFilterDto = SessionFilterDto(startDate: Option<Date>, endDate: Option<Date>, limit: Option<int>)
  {
    /** Valid iff some day lies within both bounds; true whenever a bound is missing. */
    function IsValidDateRange(): (b: bool)
      ensures b <==> exists d :: DateRange.Within(d, startDate, endDate)
      ensures startDate.None? || endDate.None? ==> b
    {
      DateRange.IsValid(startDate, endDate)
    }
  }

  /** A freshly constructed filter: every field null, hence a valid (unbounded) range. */
  function Default(): (f: SessionFilterDto)
    ensures f.startDate.None? && f.endDate.None? && f.limit.None?
    ensures f.IsValidDateRange()
  {
    SessionFilterDto(None, None, None)
  }
}

/** `com.cliente.dto.FilterDTO`, the filter the web client turns into a query string. */
module ClientFilter {
  import opened Wrappers
  import opened Domain
  import DateRange

  datatype FilterDto = FilterDto(startDate: Option<Date>, endDate: Option<Date>, sport: Option<SportType>, limit: Option<int>)
  {
    /** Valid iff some day lies within both bounds; true whenever a bound is missing. */
    function IsValidDateRange(): (b: bool)
      ensures b <==> exists d :: DateRange.Within(d, startDate, endDate)
      ensures startDate.None? || endDate.None? ==> b
    {
      DateRange.IsValid(startDate, endDate)
    }
  }

  /** The empty constructor: every field null. */
  function Empty(): (f: FilterDto)
    ensures f.startDate.None? && f.endDate.None? && f.sport.None? && f.limit.None?
    ensures f.IsValidDateRange()
  {
    FilterDto(None, None, None, None)
  }

  /** The three-argument constructor: sport and both dates as given, no limit. */
  function New(sport: Option<SportType>, startDate: Option<Date>, endDate: Option<Date>): (f: FilterDto)
    ensures f.sport == sport && f.startDate == startDate && f.endDate == endDate
    ensures f.limit.None?
  {
    FilterDto(startDate, endDate, sport, None)
  }
}
