/**
 * Checking pasted route text before it is applied, and the live statistics
 * shown while the user edits it.
 */
module RouteValidation {
  import opened Text
  import opened Seqs
  import opened Values
  import opened Records
  import opened RouteParser

  const BlankError := "Please paste the optimized route data"
  const FormatError := "No valid route entries found. Format should be: id: address"

  /** The lines of the text that pass `/^\d+:/.test`. */
  function ValidLines(text: string): seq<string> {
    Filter(Split(text, '\n'), IsRouteLine)
  }

  /** The error shown afterwards, the text handed to `onApply` (if it was called), and the result. */
  datatype Validation = Validation(error: string, applied: Option<string>, ok: bool)

  /**
   * `validateAndApply`: blank text and text without route lines are refused
   * with their messages; otherwise `onApply` gets the raw text and the error
   * is left as it was.
   */
  function ValidateAndApply(text: string, error: string): (v: Validation)
    ensures v.ok <==> v.applied.Some?
    ensures v.applied.Some? ==> v.applied.value == text && v.error == error
    ensures !v.ok ==> v.error == (if Trim(text) == "" then BlankError else FormatError)
  {
    if Trim(text) == "" then Validation(BlankError, None, false)
    else if |ValidLines(text)| == 0 then Validation(FormatError, None, false)
    else Validation(error, Some(text), true)
  }

  /** A route line starts with a digit, which is not blank. */
  lemma RouteLineNotBlank(line: string)
    requires IsRouteLine(line)
    ensures |line| > 0 && line[0] in line && !IsWhitespace(line[0])
  {
  }

  /** A blank text has no route line: a route line starts with a digit, and a blank text has none. */
  lemma {:induction false} BlankHasNoRouteLine(text: string)
    requires IsBlank(text)
    ensures |ValidLines(text)| == 0
  {
    var lines := Split(text, '\n');
    if |ValidLines(text)| > 0 {
      var line := ValidLines(text)[0];
      RouteLineNotBlank(line);
      FilterMembers(lines, IsRouteLine, line);
      var i :| 0 <= i < |lines| && lines[i] == line;
      PartInJoin(lines, ['\n'], i, line[0]);
      JoinSplit(text, '\n');
    }
  }

  /** Accepted exactly when the parser finds at least one route entry: both read the same line prefix. */
  lemma {:induction false} ValidIffParsed(text: string, error: string)
    ensures ValidateAndApply(text, error).ok <==> |ParseOptimizedRoute(text)| > 0
  {
    ParseNonEmptyIff(text);
    TrimEmptyIffBlank(text);
    if Trim(text) == "" {
      BlankHasNoRouteLine(text);
    }
  }

  /** The error and statistics the validation effect shows. */
  datatype Feedback = Feedback(error: string, stats: Option<MatchStats>)

  /** The validation effect: silent for blank text, the format error without route lines, otherwise statistics. */
  function ValidationEffect(text: string, deliveries: seq<Delivery>): (f: Feedback)
    ensures Trim(text) == "" ==> f == Feedback("", None)
    ensures f.stats.Some? <==> |ParseOptimizedRoute(text)| > 0
    ensures f.stats.Some? ==> f.error == "" && f.stats.value == CalculateMatchStats(deliveries, ParseOptimizedRoute(text))
    ensures f.stats.None? && Trim(text) != "" ==> f.error == FormatError
  {
    ValidIffParsed(text, "");
    if Trim(text) == "" then Feedback("", None)
    else if |ValidLines(text)| == 0 then Feedback(FormatError, None)
    else Feedback("", Some(CalculateMatchStats(deliveries, ParseOptimizedRoute(text))))
  }
}
