/** Option, the error taxonomy and a failure-compatible Result shared by every module. */
module Outcomes {

  datatype Option<+T> = None | Some(value: T)

  /** Why a pattern could not be composed or a line could not be digested. */
  datatype Error =
    | Grammar(rule: string)         // the pattern does not start with the named grammar rule
    | NoConsumer(name: string)      // an instruction name matches no consumer and no alias
    | NoModifier(name: string)      // a modifier name matches no modifier
    | StackOverflow(name: string)   // alias expansion ran deeper than the fuel allows
    | Thrown(reason: string)        // a consumer or modifier raised an exception

  datatype Result<+T> = Ok(value: T) | Err(error: Error) {

    predicate IsFailure() {
      Err?
    }

    function PropagateFailure<U>(): Result<U>
      requires Err?
    {
      Err(error)
    }

    function Extract(): T
      requires Ok?
    {
      value
    }
  }
}
