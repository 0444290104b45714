/** The fetch and its validation: the status check of `get_api_answer` over an
    abstract HTTP outcome, and `check_response` over the decoded body. */
module Api {
  import opened Wrappers
  import opened Json
  import opened Errors

  /** What one `requests.get` to the endpoint produced: the call raised, or an
      answer with a status code and a body that decodes to JSON or not. */
  datatype FetchOutcome =
    | TransportFailure
    | Answer(statusCode: int, body: Option<Json>)

  /** `HTTPStatus.OK`. */
  const HttpOk: int := 200

  /** `get_api_answer` once the request is made: the decoded body of a 200
      answer, and an exception otherwise. */
  function GetApiAnswer(outcome: FetchOutcome): (r: Result<Json, Error>)
    ensures r.Ok? <==> outcome.Answer? && outcome.statusCode == HttpOk && outcome.body.Some?
    ensures r.Ok? ==> r.value == outcome.body.value
    ensures outcome.TransportFailure? ==> r == Err(Unreachable)
    ensures outcome.Answer? && outcome.statusCode != HttpOk ==> r == Err(NotOk(outcome.statusCode))
  {
    match outcome
    case TransportFailure => Err(Unreachable)
    case Answer(code, body) =>
      if code != HttpOk then Err(NotOk(code))
      else if body.None? then Err(BodyNotJson)
      else Ok(body.value)
  }

  /** `check_response`: the answer must be a dict holding `homeworks` and
      `current_date`, with `homeworks` a list, which is returned as it is.
      Absent keys are reported before the type of `homeworks` is looked at,
      and `homeworks` before `current_date`. */
  function CheckResponse(response: Json): (r: Result<seq<Json>, Error>)
    ensures r.Ok? <==> HasKey(response, "homeworks") && HasKey(response, "current_date")
                       && Get(response.entries, "homeworks").value.JList?
    ensures r.Ok? ==> Get(response.entries, "homeworks") == Some(JList(r.value))
    ensures !response.JObj? ==> r == Err(NotADict)
    ensures response.JObj? && !HasKey(response, "homeworks") ==> r == Err(MissingKey("homeworks"))
    ensures (HasKey(response, "homeworks") && !HasKey(response, "current_date"))
              ==> r == Err(MissingKey("current_date"))
    ensures (HasKey(response, "homeworks") && HasKey(response, "current_date")
             && !Get(response.entries, "homeworks").value.JList?)
              ==> r == Err(HomeworksNotList)
  {
    if !response.JObj? then Err(NotADict)
    else
      var homework := Get(response.entries, "homeworks");
      var currentDate := Get(response.entries, "current_date");
      if homework.None? then Err(MissingKey("homeworks"))
      else if currentDate.None? then Err(MissingKey("current_date"))
      else if !homework.value.JList? then Err(HomeworksNotList)
      else Ok(homework.value.items)
  }
}
