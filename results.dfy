/** Outcomes shared by every part of the model: an optional value, the
    failures the service tells apart, and a value-or-failure result. */
module Results {

  datatype Option<+T> = None | Some(value: T)

  /** The failures of the service. Go carries them as error strings built
      with fmt.Errorf; the model keeps the information those strings carry. */
  datatype Error =
    | HttpStatus(code: int)       // an upstream answered with a status other than 200
    | Transport                   // the request failed (network, timeout, cancelled context)
    | Decode                      // the body is not the JSON the caller expects
    | NotFound(name: string)      // "'<name>' not found": the name resolved to no id
    | NoEntries                   // "no entries found" / "not found <name>": an empty id list
    | NoKills(id: int)            // "no kills for id <id>": an empty kill reference list
    | InvalidShip(id: int)        // "invalid ship id <id>": the names endpoint knew no such type
    | InvalidCharacter(name: string)  // legacy "invalid character name <name>"
    | InvalidCorporation(id: int)     // legacy "invalid corporation id <id>"
    | InvalidAlliance(id: int)        // legacy "invalid alliance id <id>"
    | FetchFailed(id: int)            // legacy "error fetching <id>" and friends
    | TypeAssertion(key: string)  // a cached value of the other dynamic type: Go panics here

  datatype Result<+T> = Ok(value: T) | Err(error: Error) {

    predicate IsFailure() {
      Err?
    }

    function PropagateFailure<U>(): Result<U>
      requires Err?
    {
      Err(error)
    }

    function Extract(): T
      requires Ok?
    {
      value
    }
  }
}
