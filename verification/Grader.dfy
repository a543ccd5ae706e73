/** Grading of outputs: exact comparison and comparison of the tokens between single spaces. */
module Grader {
  import opened Text

  /** The index loop over the two token lists. */
  method SameTokens(expectedTokens: seq<string>, outputTokens: seq<string>) returns (ok: bool)
    ensures ok <==> expectedTokens == outputTokens
  {
    if |expectedTokens| != |outputTokens| {
      return false;
    }
    for i := 0 to |expectedTokens|
      invariant forall k :: 0 <= k < i ==> expectedTokens[k] == outputTokens[k]
    {
      if expectedTokens[i] != outputTokens[i] {
        return false;
      }
    }
    return true;
  }

  /** gradeTokenMatching accepts exactly the outputs gradeStringMatching accepts, on every input. */
  method GradeTokenMatching(expected: string, output: string) returns (ok: bool)
    ensures ok <==> expected == output
  {
    JoinSplit(expected, ' ');
    JoinSplit(output, ' ');
    ok := SameTokens(Split(expected, ' '), Split(output, ' '));
  }

  datatype Response = Graded(ok: bool) | Unsupported

  /** The dispatch on the requested grader; an unknown name is an error. */
  method Grade(useGrader: string, expected: string, output: string) returns (g: Response)
    ensures g.Graded? <==> useGrader == "string" || useGrader == "token"
    ensures g.Graded? ==> g.ok == (expected == output)
  {
    match useGrader
    case "string" => g := Graded(expected == output);
    case "token" =>
      var ok := GradeTokenMatching(expected, output);
      g := Graded(ok);
    case _ => g := Unsupported;
  }
}
