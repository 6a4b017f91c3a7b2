/**
 * `com.cliente.service.ServiceProxy`: the web client's HTTP gateway to the server.
 * Executing requests and parsing JSON are left out; what is modelled is how a
 * reply's status is classified, how the list URLs are built and when the
 * Authorization header is set.
 */
module ServiceProxy {
  import opened Wrappers
  import opened Domain
  import opened Text
  import opened Json
  import ClientFilter

  const ServerBaseUrl: string := "http://localhost:8080"

  /** What `handleRequest` turns a reply into. */
  datatype Handled =
    | Success(data: map<string, Json>)          // SuccessResponseDTO
    | ClientError(errors: map<string, string>)  // ClientErrorResponseDTO
    | NoResponse                                // null

  /** The status ranges `handleRequest` tells apart. */
  datatype StatusClass = SuccessClass | ClientErrorClass | Unexpected

  function Classify(status: int): (c: StatusClass)
    ensures c == SuccessClass <==> 200 <= status < 300
    ensures c == ClientErrorClass <==> 400 <= status < 500
    ensures c == Unexpected <==> !(200 <= status < 300) && !(400 <= status < 500)
  {
    if status >= 200 && status < 300 then SuccessClass
    else if status >= 400 && status < 500 then ClientErrorClass
    else Unexpected
  }

  /**
   * The reply handler inside `handleRequest`: 2xx wraps the parsed body, 4xx
   * flattens it into a `ClientErrorResponseDTO` (`errors`, the flattening's
   * result, None when it threw), anything else is null.
   */
  function Handle(status: int, body: map<string, Json>, errors: Option<map<string, string>>): (r: Result<Handled, string>)
    ensures 200 <= status < 300 ==> r == Ok(Success(body))
    ensures 400 <= status < 500 && errors.Some? ==> r == Ok(ClientError(errors.value))
    ensures 400 <= status < 500 && errors.None? ==> r.Err?
    ensures Classify(status) == Unexpected ==> r == Ok(NoResponse)
  {
    match Classify(status)
    case SuccessClass => Ok(Success(body))
    case ClientErrorClass => if errors.Some? then Ok(ClientError(errors.value)) else Err("NullPointerException")
    case Unexpected => Ok(NoResponse)
  }

  /** `setAuthHeader`: Authorization is set to the token iff it is non-null. */
  function SetAuthHeader(headers: map<string, string>, token: Option<string>): (h: map<string, string>)
    ensures token.Some? ==> "Authorization" in h && h["Authorization"] == token.value
    ensures token.None? ==> h == headers
    ensures forall k :: k != "Authorization" ==> (k in h <==> k in headers) && (k in h ==> h[k] == headers[k])
  {
    if token.Some? then headers["Authorization" := token.value] else headers
  }

  /**
   * The parameters the filter contributes, in the order they are appended:
   * startDate, endDate, sport (when its name is non-empty) and limit, each iff
   * the field is non-null. `dateText` is `LocalDate.toString`.
   */
  function Params(f: ClientFilter.FilterDto, dateText: Date -> string): seq<string> {
    (if f.startDate.Some? then ["startDate=" + dateText(f.startDate.value)] else [])
    + (if f.endDate.Some? then ["endDate=" + dateText(f.endDate.value)] else [])
    + (if f.sport.Some? && |f.sport.value.name| > 0 then ["sport=" + f.sport.value.name] else [])
    + (if f.limit.Some? then ["limit=" + IntToString(f.limit.value)] else [])
  }

  /** Each part followed by '&': what the StringBuilder holds after the prefix. */
  function Terminated(parts: seq<string>): string {
    if parts == [] then "" else parts[0] + "&" + Terminated(parts[1..])
  }

  /** Dropping the last '&' of the terminated parts joins them with single '&'s. */
  lemma {:induction false} TrimTerminated(parts: seq<string>)
    requires parts != []
    ensures |Terminated(parts)| > 0 && Terminated(parts)[|Terminated(parts)| - 1] == '&'
    ensures Terminated(parts)[..|Terminated(parts)| - 1] == Join(parts, '&')
    decreases |parts|
  {
    if |parts| == 1 {
      assert Terminated(parts) == parts[0] + "&";
    } else {
      TrimTerminated(parts[1..]);
      var rest := Terminated(parts[1..]);
      assert Terminated(parts) == parts[0] + "&" + rest;
      assert (parts[0] + "&" + rest)[..|parts[0] + "&" + rest| - 1] == parts[0] + "&" + rest[..|rest| - 1];
    }
  }

  /** Appending one more terminated part. */
  lemma {:induction false} TerminatedSnoc(parts: seq<string>, x: string)
    ensures Terminated(parts + [x]) == Terminated(parts) + x + "&"
    decreases |parts|
  {
    if parts == [] {
      assert [x][1..] == [];
    } else {
      assert (parts + [x])[1..] == parts[1..] + [x];
      TerminatedSnoc(parts[1..], x);
    }
  }

  /** The URL `getUserSessions` (path "/sessions") and `getActiveChallenges` (path "/challenges") request. */
  function Url(path: string, f: ClientFilter.FilterDto, dateText: Date -> string): string {
    ServerBaseUrl + path + "?" + Join(Params(f, dateText), '&')
  }

  /** One `append(key).append(value).append("&")` step on a builder holding `prefix` and `parts`. */
  lemma AppendParam(builder: string, prefix: string, parts: seq<string>, key: string, value: string)
    requires builder == prefix + Terminated(parts)
    ensures builder + key + value + "&" == prefix + Terminated(parts + [key + value])
  {
    TerminatedSnoc(parts, key + value);
  }

  /** Cutting the last character of a non-empty suffix. */
  lemma TrimLast(prefix: string, t: string)
    requires |t| > 0
    ensures (prefix + t)[..|prefix + t| - 1] == prefix + t[..|t| - 1]
  {
  }

  /**
   * The URL builder of `getUserSessions` and `getActiveChallenges`: append
   * `key=value&` for every non-null field, then cut one trailing '&'.
   */
  method BuildUrl(path: string, f: ClientFilter.FilterDto, dateText: Date -> string) returns (url: string)
    ensures url == Url(path, f, dateText)
  {
    var prefix := ServerBaseUrl + path + "?";
    var builder := AppendParams(prefix, f, dateText);
    ghost var parts := Params(f, dateText);
    url := builder;
    if parts == [] {
      assert url == prefix && url[|url| - 1] == '?';
    } else {
      TrimTerminated(parts);
      TrimLast(prefix, Terminated(parts));
    }
    if |url| > 0 && url[|url| - 1] == '&' {
      url := url[..|url| - 1];
    }
  }

  /** The four conditional appends of the URL builder. */
  method AppendParams(prefix: string, f: ClientFilter.FilterDto, dateText: Date -> string) returns (builder: string)
    ensures builder == prefix + Terminated(Params(f, dateText))
  {
    builder := prefix;
    ghost var appended: seq<string> := [];
    if f.startDate.Some? {
      AppendParam(builder, prefix, appended, "startDate=", dateText(f.startDate.value));
      builder := builder + "startDate=" + dateText(f.startDate.value) + "&";
      appended := appended + ["startDate=" + dateText(f.startDate.value)];
    }
    assert builder == prefix + Terminated(appended);
    if f.endDate.Some? {
      AppendParam(builder, prefix, appended, "endDate=", dateText(f.endDate.value));
      builder := builder + "endDate=" + dateText(f.endDate.value) + "&";
      appended := appended + ["endDate=" + dateText(f.endDate.value)];
    }
    assert builder == prefix + Terminated(appended);
    if f.sport.Some? && |f.sport.value.name| > 0 {
      AppendParam(builder, prefix, appended, "sport=", f.sport.value.name);
      builder := builder + "sport=" + f.sport.value.name + "&";
      appended := appended + ["sport=" + f.sport.value.name];
    }
    assert builder == prefix + Terminated(appended);
    if f.limit.Some? {
      AppendParam(builder, prefix, appended, "limit=", IntToString(f.limit.value));
      builder := builder + "limit=" + IntToString(f.limit.value) + "&";
      appended := appended + ["limit=" + IntToString(f.limit.value)];
    }
    assert builder == prefix + Terminated(appended);
    assert appended == Params(f, dateText);
  }

  /** `part` has the form `keyEq` + value, where `keyEq` is a key followed by '='. */
  predicate HasKey(part: string, keyEq: string) {
    |keyEq| <= |part| && part[..|keyEq|] == keyEq
  }

  /** What the server reads back for one key (`getParameterValues`): every value given for it, in order. */
  function ValuesOf(parts: seq<string>, keyEq: string): seq<string> {
    if parts == [] then []
    else (if HasKey(parts[0], keyEq) then [parts[0][|keyEq|..]] else []) + ValuesOf(parts[1..], keyEq)
  }

  lemma {:induction false} ValuesOfAppend(a: seq<string>, b: seq<string>, keyEq: string)
    ensures ValuesOf(a + b, keyEq) == ValuesOf(a, keyEq) + ValuesOf(b, keyEq)
    decreases |a|
  {
    if a != [] {
      assert (a + b)[0] == a[0] && (a + b)[1..] == a[1..] + b;
      ValuesOfAppend(a[1..], b, keyEq);
    } else {
      assert a + b == b;
    }
  }

  /** The four keys the URL builder writes. */
  predicate IsQueryKey(keyEq: string) {
    keyEq in {"startDate=", "endDate=", "sport=", "limit="}
  }

  /** Reading one key back from the piece one conditional append contributes. */
  lemma PieceValues(present: bool, key: string, value: string, keyEq: string)
    requires IsQueryKey(key) && IsQueryKey(keyEq)
    ensures ValuesOf(if present then [key + value] else [], keyEq) == if present && key == keyEq then [value] else []
  {
    if present {
      var part := key + value;
      assert part[0] == key[0] && part[1] == key[1];
      if key == keyEq {
        assert part[..|keyEq|] == keyEq && part[|keyEq|..] == value;
      } else {
        assert key[0] != keyEq[0] || key[1] != keyEq[1];
        assert !HasKey(part, keyEq);
      }
      assert ValuesOf([part], keyEq) == (if HasKey(part, keyEq) then [part[|keyEq|..]] else []) + ValuesOf([], keyEq);
    }
  }

  /** The query string of a URL built for `f`. */
  function Query(f: ClientFilter.FilterDto, dateText: Date -> string): string {
    Join(Params(f, dateText), '&')
  }

  /** `LocalDate.toString` of the filter's dates contains no '&' (ISO dates never do). */
  predicate DatesPlain(f: ClientFilter.FilterDto, dateText: Date -> string) {
    && (f.startDate.Some? ==> '&' !in dateText(f.startDate.value))
    && (f.endDate.Some? ==> '&' !in dateText(f.endDate.value))
  }

  /** No parameter holds the separator: limits are digits, sport names identifiers. */
  lemma ParamsPlain(f: ClientFilter.FilterDto, dateText: Date -> string)
    requires DatesPlain(f, dateText)
    ensures forall k :: 0 <= k < |Params(f, dateText)| ==> '&' !in Params(f, dateText)[k]
  {
    if f.limit.Some? {
      IntToStringShape(f.limit.value);
    }
    if f.sport.Some? {
      var name := f.sport.value.name;
      assert forall i :: 0 <= i < |name| ==> IsIdentChar(name[i]);
    }
  }

  /** What reading key `keyEq` back from the parameter list gives, piece by piece. */
  lemma ParamsValues(f: ClientFilter.FilterDto, dateText: Date -> string, keyEq: string)
    requires IsQueryKey(keyEq)
    ensures ValuesOf(Params(f, dateText), keyEq) ==
      (if f.startDate.Some? && keyEq == "startDate=" then [dateText(f.startDate.value)] else [])
      + (if f.endDate.Some? && keyEq == "endDate=" then [dateText(f.endDate.value)] else [])
      + (if f.sport.Some? && keyEq == "sport=" then [f.sport.value.name] else [])
      + (if f.limit.Some? && keyEq == "limit=" then [IntToString(f.limit.value)] else [])
  {
    var a := if f.startDate.Some? then ["startDate=" + dateText(f.startDate.value)] else [];
    var b := if f.endDate.Some? then ["endDate=" + dateText(f.endDate.value)] else [];
    var c := if f.sport.Some? then ["sport=" + f.sport.value.name] else [];
    var d := if f.limit.Some? then ["limit=" + IntToString(f.limit.value)] else [];
    assert Params(f, dateText) == a + b + c + d;
    ValuesOfAppend(a + b + c, d, keyEq);
    ValuesOfAppend(a + b, c, keyEq);
    ValuesOfAppend(a, b, keyEq);
    PieceValues(f.startDate.Some?, "startDate=", if f.startDate.Some? then dateText(f.startDate.value) else "", keyEq);
    PieceValues(f.endDate.Some?, "endDate=", if f.endDate.Some? then dateText(f.endDate.value) else "", keyEq);
    PieceValues(f.sport.Some?, "sport=", if f.sport.Some? then f.sport.value.name else "", keyEq);
    PieceValues(f.limit.Some?, "limit=", if f.limit.Some? then IntToString(f.limit.value) else "", keyEq);
  }

  /**
   * Splitting the query at '&' and reading each key back gives exactly the
   * filter's non-null fields: every parameter appears once when its field is set
   * (the sport by its name) and not at all otherwise.
   */
  lemma QueryRecoversFilter(f: ClientFilter.FilterDto, dateText: Date -> string)
    requires DatesPlain(f, dateText)
    ensures var parts := SplitAll(Query(f, dateText), '&');
      && ValuesOf(parts, "startDate=") == (if f.startDate.Some? then [dateText(f.startDate.value)] else [])
      && ValuesOf(parts, "endDate=") == (if f.endDate.Some? then [dateText(f.endDate.value)] else [])
      && ValuesOf(parts, "sport=") == (if f.sport.Some? then [f.sport.value.name] else [])
      && ValuesOf(parts, "limit=") == (if f.limit.Some? then [IntToString(f.limit.value)] else [])
  {
    var ps := Params(f, dateText);
    var parts := SplitAll(Query(f, dateText), '&');
    ParamsValues(f, dateText, "startDate=");
    ParamsValues(f, dateText, "endDate=");
    ParamsValues(f, dateText, "sport=");
    ParamsValues(f, dateText, "limit=");
    if ps == [] {
      assert parts == [""];
      assert f.startDate.None? && f.endDate.None? && f.sport.None? && f.limit.None?;
      forall keyEq | IsQueryKey(keyEq) ensures ValuesOf(parts, keyEq) == [] {
        assert !HasKey("", keyEq);
      }
    } else {
      ParamsPlain(f, dateText);
      SplitJoin(ps, '&');
      assert parts == ps;
    }
  }

  /**
   * The URL starts with the base URL and path followed by '?', and never ends
   * with '&'; with no filter field set it is exactly that prefix.
   */
  lemma UrlShape(path: string, f: ClientFilter.FilterDto, dateText: Date -> string)
    requires DatesPlain(f, dateText)
    ensures var url := Url(path, f, dateText);
      && url[..|ServerBaseUrl + path| + 1] == ServerBaseUrl + path + "?"
      && url[|url| - 1] != '&'
      && (f.startDate.None? && f.endDate.None? && f.sport.None? && f.limit.None? ==> url == ServerBaseUrl + path + "?")
  {
    var ps := Params(f, dateText);
    if ps != [] {
      ParamsPlain(f, dateText);
      JoinLast(ps, '&');
      var last := ps[|ps| - 1];
      assert last[|last| - 1] in last;
    }
  }
}
