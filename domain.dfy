/** Value types shared by the backend, the client and the auth services. */
module Domain {

  /** A UUID or a database id. JPA assigns one when an entity is first saved. */
  type Uuid = nat

  /** A `LocalDate`, as a day number: only comparisons are ever made on dates. */
  type Date = int

  /** A time of day (`LocalTime`), in minutes after midnight. */
  type Time = int

  /** `Integer.MAX_VALUE`, the "no limit" page size used by the services. */
  const IntegerMaxValue: int := 0x7fff_ffff

  /** The enum constant names Java uses for `SportType`: non-empty identifiers. */
  predicate IsEnumName(s: string) {
    |s| > 0 && forall i :: 0 <= i < |s| ==> IsIdentChar(s[i])
  }

  predicate IsIdentChar(c: char) {
    ('A' <= c <= 'Z') || ('a' <= c <= 'z') || ('0' <= c <= '9') || c == '_'
  }

  type SportName = s: string | IsEnumName(s) witness "RUNNING"

  /** `SportType`: an enum whose constants are only ever compared and printed by name. */
  datatype SportType = SportType(name: SportName)

  /** `ObjectiveType`: the quantity a challenge counts. */
  datatype ObjectiveType = Distancia | Tiempo

  /** `AuthProvider`: the service that owns a user's credentials. */
  datatype AuthProvider = Google | Meta
}
