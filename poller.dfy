/** The bot's main loop: start-up through the token gate, then ticks that fetch,
    validate, translate each record and hand its message to the chat. */
module Poll {
  import opened Wrappers
  import opened Json
  import opened Errors
  import opened Api
  import opened Status
  import opened Tokens

  // ---- What a tick does, as values ----

  /** `parse_status` applied to each record, in list order. */
  function Parsed(homeworks: seq<Json>): seq<Result<string, Error>>
    decreases |homeworks|
  {
    if homeworks == [] then [] else [ParseStatus(homeworks[0])] + Parsed(homeworks[1..])
  }

  /** The `k`-th result is what `parse_status` returns for the `k`-th record. */
  lemma {:induction false} ParsedPointwise(homeworks: seq<Json>)
    ensures |Parsed(homeworks)| == |homeworks|
    ensures forall k :: 0 <= k < |homeworks| ==> Parsed(homeworks)[k] == ParseStatus(homeworks[k])
    decreases |homeworks|
  {
    if homeworks != [] {
      ParsedPointwise(homeworks[1..]);
      assert forall k :: 1 <= k < |homeworks| ==> homeworks[1..][k - 1] == homeworks[k];
    }
  }

  /** The `for homework in homeworks` loop, given what `parse_status` returns
      for each record: the messages sent before the first record it raises
      for, and that exception. */
  function Sends(results: seq<Result<string, Error>>): (r: (seq<string>, Option<Error>))
    ensures |r.0| <= |results|
    ensures r.1.None? ==> |r.0| == |results|
    decreases |results|
  {
    if results == [] then ([], None)
    else match results[0]
      case Err(e) => ([], Some(e))
      case Ok(m) =>
        var rest := Sends(results[1..]);
        ([m] + rest.0, rest.1)
  }

  /** The loop runs to its end exactly when no record raises, and it then
      sends every record's message, in list order. */
  lemma {:induction false} SendsCompletes(results: seq<Result<string, Error>>)
    ensures Sends(results).1.None? <==> forall i :: 0 <= i < |results| ==> results[i].Ok?
    ensures Sends(results).1.None? ==>
              |Sends(results).0| == |results|
              && forall i :: 0 <= i < |results| ==> Sends(results).0[i] == results[i].value
    decreases |results|
  {
    if results != [] {
      var tail := results[1..];
      SendsCompletes(tail);
      assert forall i :: 1 <= i < |results| ==> results[i] == tail[i - 1];
    }
  }

  /** When the loop stops early it stops at the first record that raises,
      after sending the messages of all the records before it. */
  lemma {:induction false} SendsStops(results: seq<Result<string, Error>>)
    requires Sends(results).1.Some?
    ensures exists k :: 0 <= k < |results| && results[k] == Err(Sends(results).1.value)
                        && |Sends(results).0| == k
                        && forall j :: 0 <= j < k ==> results[j].Ok? && Sends(results).0[j] == results[j].value
    decreases |results|
  {
    var tail := results[1..];
    if results[0].Ok? {
      SendsStops(tail);
      var k :| 0 <= k < |tail| && tail[k] == Err(Sends(tail).1.value)
               && |Sends(tail).0| == k
               && forall j :: 0 <= j < k ==> tail[j].Ok? && Sends(tail).0[j] == tail[j].value;
      assert forall j :: 1 <= j <= k ==> results[j] == tail[j - 1];
      assert results[k + 1] == Err(Sends(results).1.value);
    }
  }

  /** Everything the loop sends is a message some record translated to. */
  lemma {:induction false} SendsOnlyMessages(results: seq<Result<string, Error>>)
    ensures forall m :: m in Sends(results).0 ==> Ok(m) in results
    decreases |results|
  {
    if results != [] && results[0].Ok? {
      SendsOnlyMessages(results[1..]);
    }
  }

  /** What one tick did: the messages handed to the bot, the timestamp after it,
      and the exception caught at the end of the loop body, if any. */
  datatype Step = Step(sent: seq<string>, timestamp: Json, failure: Option<Error>)

  /** One pass of the body of `main`'s `while` loop, from `timestamp`, when the
      request produced `outcome`. */
  function TickSpec(timestamp: Json, outcome: FetchOutcome): (r: Step)
    ensures !Validated(outcome) ==> r == Step([], timestamp, r.failure) && r.failure.Some?
    ensures r.failure.Some? ==> r.timestamp == timestamp
    ensures r.failure.None? ==> Validated(outcome)
  {
    match GetApiAnswer(outcome)
    case Err(e) => Step([], timestamp, Some(e))
    case Ok(response) =>
      match CheckResponse(response)
      case Err(e) => Step([], timestamp, Some(e))
      case Ok(_) =>
        var homeworks := Get(response.entries, "homeworks").value.items;
        var notified := Sends(Parsed(homeworks));
        if notified.1.Some? then Step(notified.0, timestamp, notified.1)
        else Step(notified.0, Get(response.entries, "current_date").value, None)
  }

  /** The request got a 200 answer whose body decoded and passed `check_response`. */
  predicate Validated(outcome: FetchOutcome) {
    GetApiAnswer(outcome).Ok? && CheckResponse(GetApiAnswer(outcome).value).Ok?
  }

  /** The records of the answer `outcome` carries, once it passed validation. */
  function Homeworks(outcome: FetchOutcome): seq<Json>
    requires Validated(outcome)
  {
    CheckResponse(GetApiAnswer(outcome).value).value
  }

  /** A tick succeeds exactly when the answer is a valid 200 answer and no
      record makes `parse_status` raise; it then sends one message per record,
      in order, and moves the timestamp to the answer's `current_date`. */
  lemma TickSuccess(timestamp: Json, outcome: FetchOutcome)
    ensures TickSpec(timestamp, outcome).failure.None? <==>
            Validated(outcome)
            && forall i :: 0 <= i < |Homeworks(outcome)| ==> ParseStatus(Homeworks(outcome)[i]).Ok?
    ensures TickSpec(timestamp, outcome).failure.None? ==>
              var sent := TickSpec(timestamp, outcome).sent;
              |sent| == |Homeworks(outcome)|
              && (forall i :: 0 <= i < |sent| ==> sent[i] == ParseStatus(Homeworks(outcome)[i]).value)
              && TickSpec(timestamp, outcome).timestamp
                 == Get(GetApiAnswer(outcome).value.entries, "current_date").value
  {
    if Validated(outcome) {
      ParsedPointwise(Homeworks(outcome));
      SendsCompletes(Parsed(Homeworks(outcome)));
    }
  }

  /** A valid answer with no records sends nothing and still moves the timestamp. */
  lemma TickEmpty(timestamp: Json, outcome: FetchOutcome)
    requires Validated(outcome) && Homeworks(outcome) == []
    ensures TickSpec(timestamp, outcome).sent == []
    ensures TickSpec(timestamp, outcome).failure == None
    ensures TickSpec(timestamp, outcome).timestamp
              == Get(GetApiAnswer(outcome).value.entries, "current_date").value
  {
  }

  /** A failed tick keeps the timestamp. A failed fetch or validation sends
      nothing; a record that makes `parse_status` raise stops the loop after the
      messages of the records before it. */
  lemma TickFailure(timestamp: Json, outcome: FetchOutcome)
    requires TickSpec(timestamp, outcome).failure.Some?
    ensures TickSpec(timestamp, outcome).timestamp == timestamp
    ensures !Validated(outcome) ==> TickSpec(timestamp, outcome).sent == []
    ensures Validated(outcome) ==>
              var homeworks, sent := Homeworks(outcome), TickSpec(timestamp, outcome).sent;
              exists k :: 0 <= k < |homeworks| && ParseStatus(homeworks[k]).Err?
                          && |sent| == k
                          && forall j :: 0 <= j < k ==>
                               ParseStatus(homeworks[j]).Ok? && sent[j] == ParseStatus(homeworks[j]).value
  {
    if Validated(outcome) {
      ParsedPointwise(Homeworks(outcome));
      SendsStops(Parsed(Homeworks(outcome)));
    }
  }

  /** No tick ever sends a failure notice: everything sent is a status change. */
  lemma TickSendsStatusChanges(timestamp: Json, outcome: FetchOutcome)
    ensures forall m :: m in TickSpec(timestamp, outcome).sent ==> ChangedPrefix <= m
  {
    if Validated(outcome) {
      var results := Parsed(Homeworks(outcome));
      ParsedPointwise(Homeworks(outcome));
      SendsOnlyMessages(results);
      forall m | m in TickSpec(timestamp, outcome).sent
        ensures ChangedPrefix <= m
      {
        var i :| 0 <= i < |results| && results[i] == Ok(m);
        ChangedMessageHasPrefix(Homeworks(outcome)[i]);
      }
    }
  }

  // ---- Several ticks ----

  /** Ticks over a finite sequence of fetch outcomes: the final timestamp and
      every message sent, in order. */
  function Run(timestamp: Json, outcomes: seq<FetchOutcome>): (Json, seq<string>)
    decreases |outcomes|
  {
    if outcomes == [] then (timestamp, [])
    else
      var step := TickSpec(timestamp, outcomes[0]);
      var rest := Run(step.timestamp, outcomes[1..]);
      (rest.0, step.sent + rest.1)
  }

  /** However the ticks go, the chat only ever receives status-change messages. */
  lemma {:induction false} RunSendsStatusChanges(timestamp: Json, outcomes: seq<FetchOutcome>)
    ensures forall m :: m in Run(timestamp, outcomes).1 ==> ChangedPrefix <= m
    decreases |outcomes|
  {
    if outcomes != [] {
      TickSendsStatusChanges(timestamp, outcomes[0]);
      RunSendsStatusChanges(TickSpec(timestamp, outcomes[0]).timestamp, outcomes[1..]);
    }
  }

  /** Ticks whose fetch or validation fails send nothing and leave the
      timestamp where it was. */
  lemma {:induction false} RunFailingKeepsTimestamp(timestamp: Json, outcomes: seq<FetchOutcome>)
    requires forall i :: 0 <= i < |outcomes| ==> !Validated(outcomes[i])
    ensures Run(timestamp, outcomes) == (timestamp, [])
    decreases |outcomes|
  {
    if outcomes != [] {
      var step := TickSpec(timestamp, outcomes[0]);
      assert step.sent == [] && step.timestamp == timestamp;
      RunFailingKeepsTimestamp(timestamp, outcomes[1..]);
      var rest := Run(timestamp, outcomes[1..]);
      assert rest == (timestamp, []);
      assert Run(timestamp, outcomes) == (rest.0, step.sent + rest.1);
      assert step.sent + rest.1 == [];
    }
  }

  /** Ticks that all raise, at any point of the loop body, leave the timestamp
      where it was, whatever messages went out before the failure. */
  lemma {:induction false} RunFailingTicksKeepTimestamp(timestamp: Json, outcomes: seq<FetchOutcome>)
    requires forall i :: 0 <= i < |outcomes| ==> TickSpec(timestamp, outcomes[i]).failure.Some?
    ensures Run(timestamp, outcomes).0 == timestamp
    decreases |outcomes|
  {
    if outcomes != [] {
      var step := TickSpec(timestamp, outcomes[0]);
      assert step.timestamp == timestamp;
      assert forall i :: 0 <= i < |outcomes| - 1 ==> outcomes[1..][i] == outcomes[i + 1];
      RunFailingTicksKeepTimestamp(timestamp, outcomes[1..]);
    }
  }

  /** The timestamp after any ticks is the one polling started from or the
      `current_date` of one of the answers. */
  lemma {:induction false} RunTimestampFromServer(timestamp: Json, outcomes: seq<FetchOutcome>)
    ensures var final := Run(timestamp, outcomes).0;
            final == timestamp
            || exists i :: 0 <= i < |outcomes| && Validated(outcomes[i])
                           && final == Get(GetApiAnswer(outcomes[i]).value.entries, "current_date").value
    decreases |outcomes|
  {
    if outcomes != [] {
      var step := TickSpec(timestamp, outcomes[0]);
      RunTimestampFromServer(step.timestamp, outcomes[1..]);
      var final := Run(timestamp, outcomes).0;
      assert final == Run(step.timestamp, outcomes[1..]).0;
      if final != timestamp {
        if final == step.timestamp {
          assert Validated(outcomes[0]);
        } else {
          var i :| 0 <= i < |outcomes| - 1 && Validated(outcomes[1..][i])
                   && final == Get(GetApiAnswer(outcomes[1..][i]).value.entries, "current_date").value;
          assert outcomes[1..][i] == outcomes[i + 1];
        }
      }
    }
  }

  /** Nothing keeps the timestamp from going back: an answer dated before the
      current timestamp moves it there. */
  lemma TimestampCanMoveBack()
    ensures TickSpec(JInt(200), Answer(200, Some(Body([], 100)))).timestamp == JInt(100)
  {
  }

  function Record(name: string, status: string): Json {
    JObj([("homework_name", JStr(name)), ("status", JStr(status))])
  }

  function Body(homeworks: seq<Json>, currentDate: int): Json {
    JObj([("homeworks", JList(homeworks)), ("current_date", JInt(currentDate))])
  }

  /** A 200 answer holding one known record moves the timestamp to its date
      and sends that record's message. */
  lemma OneRecordTick(timestamp: Json, name: string, status: string, date: int)
    requires status in KnownStatuses
    ensures TickSpec(timestamp, Answer(200, Some(Body([Record(name, status)], date))))
              == Step([ChangedMessage(JStr(name), Verdicts[status])], JInt(date), None)
  {
    var record := Record(name, status);
    assert Get(record.entries, "homework_name") == Some(JStr(name));
    assert Get(record.entries, "status") == Some(JStr(status));
    var message := ParseStatus(record);
    assert message == Ok(ChangedMessage(JStr(name), Verdicts[status]));
    assert Parsed([record]) == [message];
    assert [message][1..] == [];
    assert Sends([message][1..]) == ([], None);
    assert [message.value] + [] == [message.value];
    assert Sends([message]) == ([message.value], None);
    var body := Body([record], date);
    assert Get(body.entries, "homeworks") == Some(JList([record]));
    assert Get(body.entries, "current_date") == Some(JInt(date));
  }

  /** Two ticks: `hw1` under review at date 100, then approved at date 200. Each
      tick sends one message with the verdict of the table and moves the
      timestamp to the reported date, which the second fetch is made from. */
  lemma ReviewThenApprove(start: int)
    ensures var first := TickSpec(JInt(start), Answer(200, Some(Body([Record("hw1", "reviewing")], 100))));
            first == Step([ChangedPrefix + "hw1" + "\". " + "Работа взята на проверку ревьюером."],
                          JInt(100), None)
    ensures var second := TickSpec(JInt(100), Answer(200, Some(Body([Record("hw1", "approved")], 200))));
            second == Step([ChangedPrefix + "hw1" + "\". " + "Работа проверена: ревьюеру всё понравилось. Ура!"],
                           JInt(200), None)
  {
    OneRecordTick(JInt(start), "hw1", "reviewing", 100);
    OneRecordTick(JInt(100), "hw1", "approved", 200);
  }

  // ---- The bot's state ----

  /** The messages of `messages` the chat accepts, when the `i`-th send of a
      tick is accepted exactly if `i < |delivery|` and `delivery[i]`. */
  function Accepted(messages: seq<string>, delivery: seq<bool>): seq<string>
    decreases |messages|
  {
    if messages == [] then []
    else
      var last := |messages| - 1;
      Accepted(messages[..last], delivery)
        + (if last < |delivery| && delivery[last] then [messages[last]] else [])
  }

  /** One more send adds its message to the accepted ones when the chat takes it. */
  lemma AcceptedSnoc(messages: seq<string>, message: string, delivery: seq<bool>)
    ensures Accepted(messages + [message], delivery)
            == Accepted(messages, delivery)
               + (if |messages| < |delivery| && delivery[|messages|] then [message] else [])
  {
  }

  /** Once the records before position `|produced|` have all been translated,
      to `produced`, the loop has sent `produced` and goes on from there. */
  lemma {:induction false} SendsAfterPrefix(results: seq<Result<string, Error>>, produced: seq<string>)
    requires |produced| <= |results|
    requires forall k :: 0 <= k < |produced| ==> results[k] == Ok(produced[k])
    ensures Sends(results).0 == produced + Sends(results[|produced|..]).0
    ensures Sends(results).1 == Sends(results[|produced|..]).1
    decreases |produced|
  {
    if produced == [] {
      assert results[0..] == results;
    } else {
      SendsAfterPrefix(results[1..], produced[1..]);
      assert results[1..][|produced| - 1..] == results[|produced|..];
      assert produced == [produced[0]] + produced[1..];
    }
  }

  /** `results[k]` is what `parse_status` returns for the `k`-th record. */
  ghost predicate TranslatedAt(homeworks: seq<Json>, results: seq<Result<string, Error>>, k: nat)
    requires k < |homeworks| && k < |results|
  {
    results[k] == ParseStatus(homeworks[k])
  }

  /** One step of the loop over the results from position `i` on. */
  lemma SendsFrom(results: seq<Result<string, Error>>, i: nat)
    requires i < |results|
    ensures results[i].Err? ==> Sends(results[i..]) == ([], Some(results[i].error))
    ensures results[i].Ok? ==>
              Sends(results[i..]) == ([results[i].value] + Sends(results[i + 1..]).0, Sends(results[i + 1..]).1)
  {
  }

  /** The running bot: the `timestamp` of `main`, and the traffic it produced. */
  class Poller {
    /** The `from_date` of the next request. */
    var timestamp: Json
    /** The `from_date` of every request made so far. */
    ghost var queries: seq<Json>
    /** Every message handed to `bot.send_message`. */
    ghost var sent: seq<string>
    /** The handed-over messages the chat accepted. */
    ghost var delivered: seq<string>

    /** The state right after start-up, at time `now` (`int(time.time())`). */
    constructor (now: int)
      ensures timestamp == JInt(now) && queries == [] && sent == [] && delivered == []
    {
      timestamp := JInt(now);
      queries := [];
      sent := [];
      delivered := [];
    }

    /** `send_message`: the message goes to the bot; when the chat does not
        accept it (`accepted` false) the error is logged and swallowed. */
    method SendMessage(message: string, accepted: bool)
      modifies this
      ensures sent == old(sent) + [message]
      ensures delivered == old(delivered) + (if accepted then [message] else [])
      ensures timestamp == old(timestamp) && queries == old(queries)
    {
      sent := sent + [message];
      if accepted {
        delivered := delivered + [message];
      }
    }

    /** The `for homework in homeworks` loop: one send per record until
        `parse_status` raises; `results` holds what it returns for each record.
        The `i`-th send is accepted as `delivery` says. */
    method SendAll(homeworks: seq<Json>, ghost results: seq<Result<string, Error>>, delivery: seq<bool>)
      returns (failure: Option<Error>)
      requires |results| == |homeworks|
      requires forall k :: 0 <= k < |homeworks| ==> TranslatedAt(homeworks, results, k)
      modifies this
      ensures sent == old(sent) + Sends(results).0
      ensures failure == Sends(results).1
      ensures delivered == old(delivered) + Accepted(Sends(results).0, delivery)
      ensures timestamp == old(timestamp) && queries == old(queries)
    {
      ghost var produced: seq<string> := [];
      var i := 0;
      while i < |homeworks|
        invariant 0 <= i <= |homeworks|
        invariant queries == old(queries) && timestamp == old(timestamp)
        invariant sent == old(sent) + produced
        invariant delivered == old(delivered) + Accepted(produced, delivery)
        invariant |produced| == i
        invariant forall k :: 0 <= k < i ==> results[k] == Ok(produced[k])
      {
        var message := ParseStatus(homeworks[i]);
        assert TranslatedAt(homeworks, results, i);
        if message.Err? {
          SendsAfterPrefix(results, produced);
          SendsFrom(results, i);
          assert produced + [] == produced;
          return Some(message.error);
        }
        SendMessage(message.value, i < |delivery| && delivery[i]);
        AcceptedSnoc(produced, message.value, delivery);
        produced := produced + [message.value];
        i := i + 1;
      }
      SendsAfterPrefix(results, produced);
      assert results[i..] == [];
      assert produced + [] == produced;
      return None;
    }

    /** One pass of the loop body: a request from the current timestamp that
        produced `outcome`, then validation and one send per record. The caught
        exception is returned; its text (built for nobody) is never sent.
        Whether the chat accepts a message changes nothing but `delivered`. */
    method Tick(outcome: FetchOutcome, delivery: seq<bool>) returns (failure: Option<Error>)
      modifies this
      ensures queries == old(queries) + [old(timestamp)]
      ensures sent == old(sent) + TickSpec(old(timestamp), outcome).sent
      ensures timestamp == TickSpec(old(timestamp), outcome).timestamp
      ensures failure == TickSpec(old(timestamp), outcome).failure
      ensures delivered == old(delivered) + Accepted(TickSpec(old(timestamp), outcome).sent, delivery)
    {
      queries := queries + [timestamp];
      var answer := GetApiAnswer(outcome);
      if answer.Err? {
        return Some(answer.error);
      }
      var response := answer.value;
      var checked := CheckResponse(response);
      if checked.Err? {
        return Some(checked.error);
      }
      var homeworks := Get(response.entries, "homeworks").value.items;
      ghost var results := Parsed(homeworks);
      ParsedPointwise(homeworks);
      assert forall k :: 0 <= k < |homeworks| ==> TranslatedAt(homeworks, results, k);
      failure := SendAll(homeworks, results, delivery);
      if failure.None? {
        timestamp := Get(response.entries, "current_date").value;
      }
    }
  }

  /** `main` up to its loop: with tokens that fail the gate it exits before a
      bot exists or any request is made; otherwise it starts polling from `now`. */
  method Start(practicum: Option<string>, telegram: Option<string>, chatId: Option<string>, now: int)
    returns (poller: Poller?)
    ensures poller == null <==> CheckTokens(practicum, telegram, chatId) == None
    ensures poller != null ==> fresh(poller) && poller.timestamp == JInt(now)
                               && poller.queries == [] && poller.sent == [] && poller.delivered == []
  {
    if CheckTokens(practicum, telegram, chatId) == None {
      return null;
    }
    poller := new Poller(now);
  }
}
