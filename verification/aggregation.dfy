/**
 Extraction of results from the output of an aggregation call
 (`Report._get_result_list` and `Report._get_result`).

 The output of a call is `{ok, result}`: `ok` is modelled as the flag
 "ok equals 1.0" and `result` as an optional list of rows.
 */
module Aggregation {
  import opened Wrappers

  datatype AggOutput<T> = AggOutput(ok: bool, result: Option<seq<T>>)

  /** The exception both helpers raise: `APIReportException`. */
  datatype ReportError = ReportError

  /**
   The list of rows, when the call succeeded and returned at least one row;
   otherwise the report exception.
   */
  function GetResultList<T>(output: AggOutput<T>): (r: Result<seq<T>, ReportError>)
    ensures r.Success? <==> output.ok && output.result.Some? && |output.result.value| > 0
    ensures r.Success? ==> r.value == output.result.value && |r.value| > 0
  {
    if output.ok then
      match output.result
      case Some(rows) => if |rows| > 0 then Success(rows) else Failure(ReportError)
      case None => Failure(ReportError)
    else Failure(ReportError)
  }

  /** The single row of a call that returned exactly one row; otherwise the report exception. */
  function GetResult<T>(output: AggOutput<T>): (r: Result<T, ReportError>)
    ensures r.Success? <==> output.ok && output.result.Some? && |output.result.value| == 1
    ensures r.Success? ==> output.result.value == [r.value]
  {
    var rows :- GetResultList(output);
    if |rows| == 1 then Success(rows[0]) else Failure(ReportError)
  }

  /**
   The rows a caller that tolerates failure folds in: the list, or nothing
   when extraction raised (`except APIReportException: results = []`).
   */
  function RowsOrEmpty<T>(output: AggOutput<T>): (rows: seq<T>)
    ensures output.ok && output.result.Some? ==> rows == output.result.value
    ensures !(output.ok && output.result.Some?) ==> rows == []
  {
    match GetResultList(output)
    case Success(rows) => rows
    case Failure(_) => []
  }

  /** A single-row result is also a list result, of length one. */
  lemma GetResultRefinesList<T>(output: AggOutput<T>)
    requires GetResult(output).Success?
    ensures GetResultList(output) == Success([GetResult(output).value])
  {
  }
}
