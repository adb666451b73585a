/** `checkResponseStatus`: the HTTP status classification applied to every
    retrieved response. Reason phrases follow section 15 of RFC 9110, and 429
    section 4 of RFC 6585. */
module Http {

  import opened Results
  import opened Decimal
  import opened Js

  /** A response as the dashboard sees it: where it came from, its status and its body. */
  datatype Response = Response(url: string, status: int, body: string)

  /** `response.ok`: a status in the 2xx range. */
  predicate IsOk(r: Response) {
    200 <= r.status <= 299
  }

  /** `httpErrorStatusCodes`: the closed table of reason phrases. */
  const HttpErrorStatusCodes: map<int, string> := map[
    400 := "Bad Request",
    401 := "Unauthorized",
    403 := "Forbidden",
    404 := "Not Found",
    405 := "Method Not Allowed",
    408 := "Request Timeout",
    429 := "Too Many Requests",
    500 := "Internal Server Error",
    502 := "Bad Gateway",
    503 := "Service Unavailable"
  ]

  /** `checkResponseStatus(response)`: throws for every status in [400, 600), with the
      table's reason where it has one and a generic message otherwise, and hands
      every other response on unchanged. */
  function CheckResponseStatus(response: Response): (r: Result<Response, JsError>)
    ensures r.Success? <==> !(400 <= response.status < 600)
    ensures r.Success? ==> r.value == response
    ensures response.status in HttpErrorStatusCodes ==>
              r == Failure(Error(response.url + ": " + HttpErrorStatusCodes[response.status]))
    ensures 400 <= response.status < 600 && response.status !in HttpErrorStatusCodes ==>
              r == Failure(Error(response.url + " Error " + IntToString(response.status)))
  {
    var s := response.status;
    var msg :=
      if s in HttpErrorStatusCodes then Some(response.url + ": " + HttpErrorStatusCodes[s])
      else if 400 <= s < 600 then Some(response.url + " Error " + IntToString(s))
      else None;
    match msg
    case Some(m) => Failure(Error(m))
    case None => Success(response)
  }

  /** Every tabled status is a client or server error, so an ok response always
      passes the check. */
  lemma OkResponsePasses(response: Response)
    requires IsOk(response)
    ensures CheckResponseStatus(response) == Success(response)
  {
  }
}
