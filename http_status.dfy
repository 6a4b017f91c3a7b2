/** Spring's `HttpStatus.resolve` and the 500 fallback both ResponseWrapper classes apply. */
module HttpStatus {

  const InternalServerError: int := 500

  /** The codes that are constants of Spring Framework 6's `HttpStatus` enum. */
  predicate IsKnown(code: int) {
    || 100 <= code <= 103
    || 200 <= code <= 208 || code == 226
    || 300 <= code <= 305 || code == 307 || code == 308
    || 400 <= code <= 426 || code == 428 || code == 429 || code == 431 || code == 451
    || 500 <= code <= 511
  }

  /** `HttpStatus.resolve(code)`, replaced by INTERNAL_SERVER_ERROR when it is null. */
  function ResolveOrDefault(code: int): (s: int)
    ensures IsKnown(s)
    ensures IsKnown(code) ==> s == code
    ensures !IsKnown(code) ==> s == InternalServerError
  {
    if IsKnown(code) then code else InternalServerError
  }
}

/** `com.strava.dto.ResponseWrapper`: a status code and a map of named values. */
module ServerResponse {
  import HttpStatus

  datatype ResponseEntity<B> = ResponseEntity(status: int, body: B)

  datatype ResponseWrapper<V> = ResponseWrapper(statusCode: int, data: map<string, V>)
  {
    /** The entity sent to the client: a known status or 500, and exactly the data map as body. */
    function ToResponseEntity(): (e: ResponseEntity<map<string, V>>)
      ensures e.body == data
      ensures HttpStatus.IsKnown(e.status)
      ensures e.status == statusCode || (e.status == HttpStatus.InternalServerError && !HttpStatus.IsKnown(statusCode))
    {
      ResponseEntity(HttpStatus.ResolveOrDefault(statusCode), data)
    }
  }

  /** The (code, key, value) constructor: a data map holding exactly `key -> value`. */
  function Of<V>(statusCode: int, key: string, value: V): (r: ResponseWrapper<V>)
    ensures r.statusCode == statusCode
    ensures r.data.Keys == {key} && r.data[key] == value
  {
    ResponseWrapper(statusCode, map[key := value])
  }
}

/** `com.cliente.dto.ResponseWrapper<T>`: status, optional message and optional data. */
module ClientResponse {
  import opened Wrappers
  import HttpStatus

  const NoContent: string := "No content available"

  /** What `toResponseEntity` puts in the body: the data, or else a message. */
  datatype Body<T> = DataBody(data: T) | MessageBody(message: string)

  datatype ResponseEntity<T> = ResponseEntity(status: int, body: Body<T>)

  datatype ResponseWrapper<T> = ResponseWrapper(statusCode: int, message: Option<string>, data: Option<T>)
  {
    /**
     * A known status or 500; the body is the data when present, else the message,
     * else the fixed "No content available" text.
     */
    function ToResponseEntity(): (e: ResponseEntity<T>)
      ensures HttpStatus.IsKnown(e.status)
      ensures HttpStatus.IsKnown(statusCode) ==> e.status == statusCode
      ensures !HttpStatus.IsKnown(statusCode) ==> e.status == HttpStatus.InternalServerError
      ensures data.Some? ==> e.body == DataBody(data.value)
      ensures data.None? && message.Some? ==> e.body == MessageBody(message.value)
      ensures data.None? && message.None? ==> e.body == MessageBody(NoContent)
    {
      var responseMessage := if message.Some? then message.value else NoContent;
      var body := if data.Some? then DataBody(data.value) else MessageBody(responseMessage);
      ResponseEntity(HttpStatus.ResolveOrDefault(statusCode), body)
    }
  }
}
