/**
 * What a server service operation produces: a `ResponseWrapper` whose data map
 * holds one of the value kinds below, or an exception that escapes the service.
 */
module Outcomes {
  import opened Wrappers
  import opened Domain
  import opened ChallengeDtos
  import opened Entities
  import opened ServerResponse

  /** `UserProgressDTO`: one participant's progress in a challenge. */
  datatype UserProgress = UserProgress(userId: Option<Uuid>, name: string, progress: real)

  /** The values the services put into a response's data map. */
  datatype Value =
    | Text(text: string)
    | Id(id: Option<Uuid>)
    | Flag(flag: bool)
    | Details(details: map<string, string>)
    | Challenges(challenges: seq<ChallengeDto>)
    | Participants(participants: seq<UserProgress>)
    | Sessions(sessions: seq<TrainingSessionDto>)
    | Column(column: Field)

  /** The exceptions a service lets escape. */
  datatype Failure =
    | InvalidToken(message: string)   // `InvalidTokenException` from `TokenService`
    | IncorrectResultSize             // a single-result query matched more than one row
    | IllegalArgument                 // `PageRequest.of` with a page size below one
    | NumberFormat                    // `BigDecimal.valueOf` of an infinite or NaN progress
    | NullPointer                     // a null owner or creator dereferenced

  datatype Outcome = Reply(response: ResponseWrapper<Value>) | Thrown(failure: Failure)

  /** `new ResponseWrapper(status, key, text)`. */
  function Message(status: int, key: string, text: string): (o: Outcome)
    ensures o.Reply? && o.response.statusCode == status
    ensures o.response.data == map[key := Text(text)]
  {
    Reply(ServerResponse.Of(status, key, Text(text)))
  }
}
