# Homework-status bot: a Dafny model of its decision logic

The bot polls the Practicum homework-status API and forwards status changes to
one Telegram chat. This project models its decision logic in `homework.py`:

- the start-up token gate (`check_tokens` and its use in `main`);
- the status check of `get_api_answer`, applied to an abstract fetch outcome;
- the response validator `check_response`;
- the status translator `parse_status` with the `HOMEWORK_VERDICTS` table;
- one pass of `main`'s `while` loop, as a method of a `Poller` class whose
  state is the `timestamp` together with the traffic it produced.

Files and modules:

- `wrappers.dfy` (`Wrappers`): `Option` and `Result`.
- `json.dfy` (`Json`): decoded JSON values, dict lookup, and Python's `str()`/`repr()`
  as an f-string applies them to a `homework_name`.
- `errors.dfy` (`Errors`): one constructor per way a tick can raise.
- `tokens.dfy` (`Tokens`): `check_tokens` with Python's `and` chain reproduced exactly.
- `api.dfy` (`Api`): the fetch outcome, `get_api_answer`'s status check and `check_response`.
- `status.dfy` (`Status`): `HOMEWORK_VERDICTS` and `parse_status`.
- `poller.dfy` (`Poll`): a pure specification of a tick (`TickSpec`) and of several
  ticks (`Run`), the lemmas about them, the `Poller` class and `Start`.

Modelling decisions:

- A dict is an insertion-ordered list of entries, so that `str()` of a
  dict-valued `homework_name` comes out in Python's order. Lookup returns the
  first entry with the key. A `JObj` whose keys repeat stands for no Python
  dict. On entries with distinct keys (`DistinctKeys`), lookup finds the one
  entry stored under the key (`GetDistinct`).
- Python's `except ValueError('...')` and `except KeyError('...')` name
  exception instances. Matching a raised exception against an instance raises
  TypeError, so a missing `homeworks` key still fails. So does a missing
  `homework_name` or a record that is not a dict. The expression
  `(homework and current_date)` cannot raise, so it is not modelled.
- A non-200 answer first reaches the misspelt `logging.erorr`, which raises
  AttributeError. A transport failure leaves `response` unbound. Either way the
  tick fails; `Errors.NotOk` and `Errors.Unreachable` name these cases.
- `last_verdict` is a local set to `''` on every call of `parse_status`. Every
  verdict is non-empty, so the "status unchanged" branch is unreachable:
  `ParseStatus` never returns `Err(StatusUnchanged)`.
- `check_tokens` returns `True` or `None`, modelled as `Some(true)` and `None`.
  A token that is set but empty stops the `and` chain and is not `None`. The gate
  therefore passes when the first falsy token is empty, even if a later token is
  missing (`EmptyTokenHidesMissingOne`).
- The source never checks the type of `current_date`; `timestamp` becomes
  whatever the answer holds. `timestamp` is therefore a JSON value, and it starts
  as `JInt(now)`.
- The request, the bot and the clock are outside the model. Each tick receives
  the fetch outcome as a parameter, and the `from_date` of every request is
  recorded in the ghost field `queries`. Every message handed to the bot is
  recorded in the ghost field `sent`, and the ones the chat accepted in
  `delivered`. Whether the `i`-th send of a tick is accepted is a parameter. A
  send the chat refuses is swallowed by `send_message` and changes nothing else.
- `parse_status` is pure, so the loop's specification is stated over the
  sequence of its results (`Parsed`, `Sends`). The loop itself still calls
  `ParseStatus` record by record and stops at the first failure.

What the code does in the cases a reader might expect otherwise:

- The bot never sends a failure notification. The text built at
  homework.py:133 is assigned and dropped. `TickSendsStatusChanges` and
  `RunSendsStatusChanges` prove that only status-change messages reach the chat.
- The same status is reported again on every tick that returns it.
  `last_verdict` is a local reset on every call of `parse_status`.
- An unknown status ends the tick. The records before it have already been
  sent, the records after it are not looked at, and the timestamp is kept
  (`TickFailure`).
- The timestamp can move back. An answer dated earlier replaces it
  (`TimestampCanMoveBack`).

## Model

| member | source | states |
|---|---|---|
| `Json.Get` | homework.py:80-81 | a dict lookup finds nothing exactly when no entry has the key; a value it finds is stored under that key |
| `Json.GetDistinct` | homework.py:80-81 | in a dict whose keys are distinct, looking up a key finds the value of the one entry stored under it |
| `Json.DigitsRoundTrip` | homework.py:108 | the decimal digits an int name is rendered with read back as that number |
| `Json.StrReprPlain` | homework.py:108 | `repr()` of text with no quote, backslash or control character is that text between single quotes |
| `Json.IntStrRoundTrip` | homework.py:108 | `str()` of an int reads back as that int, sign included |
| `Json.Repr` | homework.py:108 | `repr()` of a value inside a list or dict rendering: a str is quoted with matching quotes, a list is bracketed, a dict is braced; beyond `StrReprPlain`, `IntStrRoundTrip` and `DigitsRoundTrip`, no lemma states a property of it |
| `Json.Str` | homework.py:108 | what the f-string inserts for `homework_name`: a str name as it is, an int name as digits that read back as that int |
| `Tokens.Truthy` | homework.py:38 | the truthiness the `and` chain tests: a token is truthy when it is set and non-empty; it has no contract of its own, and `PyAnd` and `CheckTokensRejectsIff` are stated over it |
| `Tokens.PyAnd` | homework.py:38 | Python's `a and b` is truthy exactly when both are, and is one of its operands |
| `Tokens.CheckTokens` | homework.py:36-39 | the gate returns `True` or `None`, and `True` whenever all three tokens are set and non-empty |
| `Tokens.CheckTokensRejectsIff` | homework.py:36-39 | the gate returns `None` exactly when the first missing-or-empty token is missing (`None`) |
| `Tokens.EmptyTokenHidesMissingOne` | homework.py:38 | an empty first token lets the gate pass although the other two are missing |
| `Api.GetApiAnswer` | homework.py:58-68 | a fetch succeeds exactly for a 200 answer whose body decodes, and returns that body; a transport failure or any other status code fails |
| `Api.CheckResponse` | homework.py:71-88 | accepts exactly a dict holding `homeworks` and `current_date` with `homeworks` a list, and returns that list unchanged; a non-dict, a missing key (`homeworks` reported first) or a non-list fails, with no value |
| `Status.IsKnownStatus` | homework.py:98-100 | a status passes the `STATUS` check only if it is a str with a non-empty verdict in the table |
| `Status.ChangedMessage` | homework.py:108 | the message opens with the status-change prefix, ends with the verdict, and carries a str name verbatim right after the prefix |
| `Status.ParseStatus` | homework.py:91-108 | a non-dict or a record without `homework_name` fails whatever its status; otherwise an absent or unknown status fails; a known status gives `Изменился статус проверки работы "<name>". <verdict>` with the verdict from the table; the "unchanged" failure never occurs |
| `Status.VerdictsNonEmpty` | homework.py:29-33 | every accepted status has a verdict in the table, and no verdict is empty |
| `Status.ChangedMessageHasPrefix` | homework.py:108 | every message `parse_status` returns opens with the status-change prefix |
| `Status.MessageDeterminesStatus` | homework.py:29-33 | for one name, two known statuses give the same message only if they are the same status |
| `Poll.ParsedPointwise` | homework.py:127-128 | the results list has one entry per record, and entry `k` is what `parse_status` returns for record `k` |
| `Poll.Sends` | homework.py:127-129 | the record loop sends at most one message per record, and exactly one per record when no record raises |
| `Poll.SendsCompletes` | homework.py:127-129 | the record loop finishes exactly when no record fails, and then sends each record's message in list order |
| `Poll.SendsStops` | homework.py:127-129 | a loop that stops early stops at the first failing record, after sending exactly the messages of the records before it |
| `Poll.SendsOnlyMessages` | homework.py:127-129 | everything the record loop sends is a message some record translated to |
| `Poll.TickSpec` | homework.py:121-133 | one pass of the loop body; an answer that fails the fetch or validation sends nothing and raises, a failing pass keeps the timestamp, and only a validated answer can succeed |
| `Poll.TickSuccess` | homework.py:121-130 | a tick succeeds exactly when the fetch returns a valid answer and no record fails; it then sends one message per record in order and sets the timestamp to `current_date` |
| `Poll.TickEmpty` | homework.py:124-130 | a valid answer with no records sends nothing, succeeds, and still moves the timestamp to `current_date` |
| `Poll.TickFailure` | homework.py:121-133 | a failing tick keeps the timestamp; a failed fetch or validation sends nothing; a failing record ends the loop after the messages of the records before it |
| `Poll.TickSendsStatusChanges` | homework.py:127-133 | a tick sends only status-change messages, never a failure notice |
| `Poll.Run` | homework.py:120-135 | finitely many passes of the loop, each from the timestamp the previous one left; it has no contract of its own, and the three `Run` lemmas below are stated over it |
| `Poll.RunSendsStatusChanges` | homework.py:120-135 | over any sequence of ticks the chat only receives status-change messages |
| `Poll.RunFailingKeepsTimestamp` | homework.py:120-135 | ticks whose fetch or validation fails send nothing and leave the timestamp where it was |
| `Poll.RunFailingTicksKeepTimestamp` | homework.py:120-135 | ticks that all raise, at the fetch, the validation or a record, leave the timestamp where it was |
| `Poll.RunTimestampFromServer` | homework.py:118-130 | after any ticks the timestamp is either the start time or the `current_date` of one of the valid answers |
| `Poll.TimestampCanMoveBack` | homework.py:130 | an answer dated before the current timestamp moves the timestamp back to that date |
| `Poll.OneRecordTick` | homework.py:121-130 | a 200 answer with one known record sends that record's message and moves the timestamp to its date |
| `Poll.ReviewThenApprove` | homework.py:121-130 | `hw1` under review at date 100 and then approved at date 200 produce one message each, with the table's verdicts, and timestamps 100 and then 200 |
| `Poll.Poller.constructor` | homework.py:117-118 | the bot starts at `now`, having made no request and sent nothing |
| `Poll.Poller.SendMessage` | homework.py:42-52 | a send hands the message over and records it as delivered only if the chat accepts it; a refused send changes nothing else |
| `Poll.Poller.SendAll` | homework.py:127-129 | the record loop sends what the specification `Sends` says and returns its failure; delivery outcomes affect only `delivered` |
| `Poll.Poller.Tick` | homework.py:121-133 | one loop pass records a request from the old timestamp; its messages, new timestamp and caught exception are exactly those of `TickSpec` |
| `Poll.Start` | homework.py:111-118 | `main` exits, with no bot and no request, exactly when the gate returns `None`; otherwise it starts polling from `now` |

## Left out

- HTTP and JSON decoding: `requests.get` and `response.json()` are foreign I/O. A fetch is an abstract outcome: the call raised, or a status code with a body that decoded or did not. The `Authorization` header and the endpoint URL are not modelled; the `from_date` parameter is recorded in `queries`.
- The Telegram bot is foreign code. `telegram.Bot(token=...)` may reject a malformed token at start-up; the model does not capture this. `bot.send_message` is reduced to "accepted or not".
- Logging, `load_dotenv`/`os.getenv`, `time.time()`, `time.sleep(RETRY_PERIOD)` and the infinite `while True` are left out. The tokens and the start time are parameters; one tick is a method, and finitely many ticks are the function `Run`.
- The text `Сбой в работе программы: {error}` built at homework.py:133 is never sent, so its wording (Python's `str()` of each exception) is not modelled.
- exception.py holds only empty exception classes. They are represented by the `Errors.Error` datatype, and Python's exception classes are not distinguished.
- Floating-point JSON numbers are not modelled. A float `current_date` or `homework_name` cannot be expressed.
- Json.Repr: non-ASCII characters that Python considers non-printable are escaped by `repr()`; the model keeps every non-ASCII character as it is. Only ASCII control characters are escaped.
- JSON objects with duplicate keys: Python's decoder keeps the last value under each key, while `Json.Get` takes the first entry. A `JObj` whose keys repeat stands for no Python dict. Only `GetDistinct` requires distinct keys. The tick and run lemmas do not, so on a body with a repeated key they describe first-entry lookup, not Python's last value. For example, they call a tick on `{"homeworks": [], "homeworks": 5, "current_date": 1}` a success, where Python decodes `homeworks` as 5 and raises TypeError at homework.py:86-87.
- Integers longer than 4300 digits: Python's decoder refuses them and `str()` refuses to render them; the model admits and renders integers of any size.
