/** The exceptions a poll tick can raise, one constructor per way the code
    fails; Python's exception classes are not kept apart. */
module Errors {

  datatype Error =
    /** `requests.get` raised: `response` is then unbound (UnboundLocalError). */
    | Unreachable
    /** The status code is not 200: the misspelt `logging.erorr` raises
        AttributeError before UnavailableServer is reached. */
    | NotOk(statusCode: int)
    /** `response.json()` could not decode the body. */
    | BodyNotJson
    /** The decoded answer is not a dict (TypeError). */
    | NotADict
    /** A key of the answer is absent: `homeworks` (TypeError, raised while
        matching the `except ValueError(...)` clause) or `current_date` (KeyError). */
    | MissingKey(key: string)
    /** `homeworks` is not a list (TypeError). */
    | HomeworksNotList
    /** A record is not a dict or has no `homework_name` (TypeError, raised while
        matching the `except KeyError(...)` clause). */
    | NoHomeworkName
    /** A record's status is absent or not one of the three known ones
        (UnexpectedStatusError). */
    | UnexpectedStatus
    /** The verdict equals the previous one (bare Exception). */
    | StatusUnchanged
}
