/** The start-up gate of the bot: `check_tokens` over the three credentials
    read from the environment, each absent (`None`) or a string, possibly empty. */
module Tokens {
  import opened Wrappers

  /** Python truthiness of an environment value: present and non-empty. */
  predicate Truthy(t: Option<string>) {
    t.Some? && t.value != ""
  }

  /** Python's `a and b`: `a` itself when it is falsy, otherwise `b`. */
  function PyAnd(a: Option<string>, b: Option<string>): (r: Option<string>)
    ensures Truthy(r) <==> Truthy(a) && Truthy(b)
    ensures r == a || r == b
  {
    if Truthy(a) then b else a
  }

  /** `check_tokens()` with the practicum token, the bot token and the chat id:
      `Some(true)` stands for Python's `True`, `None` for the implicit `None`
      returned when the `if` does not fire. */
  function CheckTokens(practicum: Option<string>, telegram: Option<string>, chatId: Option<string>): (r: Option<bool>)
    ensures r == None || r == Some(true)
    ensures Truthy(practicum) && Truthy(telegram) && Truthy(chatId) ==> r == Some(true)
  {
    if PyAnd(PyAnd(practicum, telegram), chatId) != None then Some(true) else None
  }

  /** The position of the first token that is missing or empty, if any. */
  function FirstFalsy(tokens: seq<Option<string>>): (r: Option<nat>)
    ensures r.None? <==> forall i :: 0 <= i < |tokens| ==> Truthy(tokens[i])
    ensures r.Some? ==> r.value < |tokens| && !Truthy(tokens[r.value])
                         && forall i :: 0 <= i < r.value ==> Truthy(tokens[i])
    decreases |tokens|
  {
    if tokens == [] then None
    else if !Truthy(tokens[0]) then Some(0)
    else
      var r := FirstFalsy(tokens[1..]);
      if r.None? then None else Some(r.value + 1)
  }

  /** `main` stops at start-up exactly when the first token that is missing or
      empty is missing; a first falsy token that is the empty string lets the
      bot start whatever follows it. */
  lemma CheckTokensRejectsIff(practicum: Option<string>, telegram: Option<string>, chatId: Option<string>)
    ensures (CheckTokens(practicum, telegram, chatId) == None) <==>
            (var first := FirstFalsy([practicum, telegram, chatId]);
             first.Some? && [practicum, telegram, chatId][first.value] == None)
  {
    var ts := [practicum, telegram, chatId];
    assert ts[1..] == [telegram, chatId];
    assert ts[1..][1..] == [chatId];
    assert ts[1..][1..][1..] == [];
    if !Truthy(practicum) {
      assert FirstFalsy(ts) == Some(0);
    } else if !Truthy(telegram) {
      assert FirstFalsy(ts[1..]) == Some(0);
      assert FirstFalsy(ts) == Some(1);
    } else if !Truthy(chatId) {
      assert FirstFalsy(ts[1..][1..]) == Some(0);
      assert FirstFalsy(ts) == Some(2);
    } else {
      assert FirstFalsy(ts) == None;
    }
  }

  /** An absent token does not stop the bot when an earlier token is empty:
      the `and` chain stops at the empty string, which is not `None`. */
  lemma EmptyTokenHidesMissingOne()
    ensures CheckTokens(Some(""), None, None) == Some(true)
    ensures FirstFalsy([Some(""), None, None]) == Some(0)
  {
  }
}
