/** The four results a case can have (matrix.cpp). */
module CaseOutcome {
  datatype Outcome = Pass | Fail | Skip | Error

  /** The counter a record's result text is added to; any other text counts as an error. */
  function OutcomeOf(result: string): Outcome {
    if result == "pass" then Pass
    else if result == "fail" then Fail
    else if result == "skip" then Skip
    else Error
  }
}
