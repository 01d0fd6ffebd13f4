/** `f5_check_response_code`: the response code is judged against a table
    of codes each HTTP method accepts, with any 2xx code as a fallback. */
module Classifier {
  import opened Options
  import opened Text

  /** The three return values, 0, 1 and 2. */
  datatype CodeClass = Fail | SuccessMethod | Success2xx
  {
    function Code(): int
    {
      match this
      case Fail => 0
      case SuccessMethod => 1
      case Success2xx => 2
    }
  }

  /** The `okCodes` table, built afresh on each call; with `extend404`
      (a `mode` argument was passed) GET also accepts 404. */
  function OkCodes(httpMethod: string, extend404: bool): Option<seq<int>>
  {
    if httpMethod == "GET" then Some([200, 204] + (if extend404 then [404] else []))
    else if httpMethod == "POST" then Some([200, 201, 202])
    else if httpMethod == "PUT" then Some([200, 202])
    else if httpMethod == "PATCH" then Some([200, 202])
    else if httpMethod == "DELETE" then Some([200, 202, 204])
    else None
  }

  /** The class of a response code: every code a method's table accepts is
      a 2xx code, except the extra 404 for GET, so a code passes exactly
      when it is 2xx or it is that 404. */
  function Classify(httpMethod: string, code: int, extend404: bool): (r: CodeClass)
    ensures r != Fail <==> 200 <= code < 300 || (extend404 && httpMethod == "GET" && code == 404)
    ensures r == Success2xx ==> 200 <= code < 300
    ensures r == SuccessMethod <==> OkCodes(httpMethod, extend404).Some? && code in OkCodes(httpMethod, extend404).value
  {
    var ok := OkCodes(httpMethod, extend404);
    if ok.Some? && code in ok.value then SuccessMethod
    else if 200 <= code < 300 then Success2xx
    else Fail
  }

  /** The ledger entry's base name, `"[" + method + " Response Code]="`. */
  function CodeTestName(httpMethod: string): string
  {
    "[" + httpMethod + " Response Code]="
  }

  /** The 404 extension changes the verdict of no code but 404 on GET, and
      since the table is rebuilt, no call but the one passing `mode`. */
  lemma ExtensionOnlyGet404(httpMethod: string, code: int)
    requires !(httpMethod == "GET" && code == 404)
    ensures Classify(httpMethod, code, true) == Classify(httpMethod, code, false)
  {
  }
}
