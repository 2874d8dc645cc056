/** The records of the script library (types.ts). */
module Types {

  datatype Option<+T> = None | Some(value: T)

  /** Per-script practice statistics. `lastPracticedAt` is a millisecond
      timestamp, or None for the JavaScript `null` of a never-practised script. */
  datatype Stats = Stats(successCount: nat, failCount: nat, lastPracticedAt: Option<int>)

  /** One saved answer script. The id and the text fields are opaque strings. */
  datatype ScriptItem = ScriptItem(
    id: string,
    question: string,
    koreanAnswer: string,
    englishScript: string,
    logicFlow: seq<string>,
    createdAt: int,
    stats: Stats)

  /** The outcome of answering one script in a practice session. */
  datatype SessionResult = SessionResult(scriptId: string, success: bool)

  /** JavaScript truthiness of a timestamp: `null` and `0` are both falsy. */
  predicate Practised(t: Option<int>)
  {
    t.Some? && t.value != 0
  }

  /** The JavaScript expression `t || 0`: a falsy timestamp reads as 0. */
  function TimestampOr0(t: Option<int>): (r: int)
    ensures Practised(t) ==> r == t.value
    ensures !Practised(t) ==> r == 0
  {
    match t
    case None => 0
    case Some(v) => v
  }
}
