/** The finding record that rule checkers create and output structures print. */
module Findings {

  /**
   * An `AnalysisIssue`: the method (or class) it was found in, the number of the
   * violated rule, a human-readable cause and the source paths of the scan.
   */
  datatype AnalysisIssue = AnalysisIssue(
    methodName: string,
    ruleId: int,
    cause: string,
    sourcePaths: seq<string>)
}
