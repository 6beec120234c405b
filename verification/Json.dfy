/** A parsed JSON document. */
module Json {

  /** An object's key: one of the names a persisted hunt uses, or any other text. */
  datatype Key =
    | Version | StageKey | Candidates | Pending | Queue | InFlight | Parent | GuiltyHalves | Level
    | Found | NoReproduce | LaunchesDone | ObservedFailureTime | Loaded | Armed | Vector | Workload
    | Text(text: string)

  datatype Json =
    | Null
    | Bool(b: bool)
    | Int(n: int)
    | Real(x: real)
    | Str(s: string)
    | List(items: seq<Json>)
    | Object(fields: map<Key, Json>)
}
