/** The status translator: `parse_status` and the `HOMEWORK_VERDICTS` table. */
module Status {
  import opened Wrappers
  import opened Json
  import opened Errors

  /** `HOMEWORK_VERDICTS`: the review status of a homework to its verdict. */
  const Verdicts: map<string, string> := map[
    "approved" := "Работа проверена: ревьюеру всё понравилось. Ура!",
    "reviewing" := "Работа взята на проверку ревьюером.",
    "rejected" := "Работа проверена: у ревьюера есть замечания."
  ]

  /** The statuses `parse_status` accepts, as its local `STATUS` list holds them. */
  const KnownStatuses: seq<string> := ["reviewing", "approved", "rejected"]

  /** The opening of every status-change message, up to the name. */
  const ChangedPrefix: string := "Изменился статус проверки работы \""

  /** The f-string `parse_status` returns for a record named `name`. */
  function ChangedMessage(name: Json, verdict: string): (r: string)
    ensures ChangedPrefix <= r
    ensures |r| >= |verdict| && r[|r| - |verdict|..] == verdict
    ensures name.JStr? ==> |ChangedPrefix| + |name.s| <= |r| && r[|ChangedPrefix|..|ChangedPrefix| + |name.s|] == name.s
  {
    ChangedPrefix + Str(name) + "\". " + verdict
  }

  /** True when `status` (the result of `homework.get('status')`) is in `STATUS`:
      only a str can equal one of its entries. */
  predicate IsKnownStatus(status: Option<Json>)
    ensures IsKnownStatus(status) ==> status.Some? && status.value.JStr?
                                      && status.value.s in Verdicts && Verdicts[status.value.s] != ""
  {
    status.Some? && status.value.JStr? && status.value.s in KnownStatuses
  }

  /** `parse_status(homework)`. The name is looked up first and its absence, or
      a record that is not a dict at all, is an error whatever the status; then
      the status must be one of the three known ones. `last_verdict` is a local
      that starts as `''` on every call. */
  function ParseStatus(homework: Json): (r: Result<string, Error>)
    ensures !HasKey(homework, "homework_name") ==> r == Err(NoHomeworkName)
    ensures (HasKey(homework, "homework_name") && !IsKnownStatus(Get(homework.entries, "status")))
              ==> r == Err(UnexpectedStatus)
    ensures r.Ok? <==> HasKey(homework, "homework_name") && IsKnownStatus(Get(homework.entries, "status"))
    ensures r.Ok? ==> r.value == ChangedMessage(Get(homework.entries, "homework_name").value,
                                                Verdicts[Get(homework.entries, "status").value.s])
    ensures r != Err(StatusUnchanged)
  {
    var lastVerdict := "";
    if !HasKey(homework, "homework_name") then Err(NoHomeworkName)
    else
      var name := Get(homework.entries, "homework_name").value;
      var status := Get(homework.entries, "status");
      if !IsKnownStatus(status) then Err(UnexpectedStatus)
      else
        var verdict := Verdicts[status.value.s];
        if verdict == lastVerdict then Err(StatusUnchanged)
        else Ok(ChangedMessage(name, verdict))
  }

  /** Every verdict in the table is a non-empty string, so none equals the
      fresh `last_verdict` and the "unchanged" branch cannot fire. */
  lemma VerdictsNonEmpty()
    ensures forall s :: s in KnownStatuses ==> s in Verdicts && Verdicts[s] != ""
  {
  }

  /** Every message `parse_status` returns opens with the status-change prefix. */
  lemma ChangedMessageHasPrefix(homework: Json)
    requires ParseStatus(homework).Ok?
    ensures ChangedPrefix <= ParseStatus(homework).value
  {
  }

  /** For one name, the message tells the three statuses apart: two known
      statuses give the same message only when they are the same status. */
  lemma MessageDeterminesStatus(name: Json, s1: string, s2: string)
    requires s1 in KnownStatuses && s2 in KnownStatuses
    requires ChangedMessage(name, Verdicts[s1]) == ChangedMessage(name, Verdicts[s2])
    ensures s1 == s2
  {
  }
}
