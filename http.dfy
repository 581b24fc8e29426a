/** The slice of the Fetch API the client uses: requests it sends, the
    responses or network failures that come back, and the common
    "throw unless `response.ok`, else `response.json()`" step. The network
    itself is not modelled: every settled `fetch` is an input. */
module Http {
  import opened Js

  /** A `File` chosen in the browser, known by its name. */
  datatype File = File(name: string)

  /** A `FormData` value: a string, or a file sent as a blob. */
  datatype FormValue = Text(s: string) | Blob(file: File)

  /** One `formData.append(name, value)`. */
  datatype FormEntry = FormEntry(name: string, value: FormValue)

  /** The `body` of a request: none, `JSON.stringify` of a value, or a
      `FormData` whose entries are listed in append order. */
  datatype RequestBody =
    | NoBody
    | JsonText(value: Json)
    | Multipart(entries: seq<FormEntry>)

  /** The `RequestInit` a caller passes: method, plain-object headers, body. */
  datatype RequestOptions = RequestOptions(httpMethod: string, headers: map<string, string>, body: RequestBody)

  /** `{}`: a GET with no headers and no body. */
  const NoOptions := RequestOptions("GET", map[], NoBody)

  /** One request as it leaves the client. */
  datatype Request = Request(url: string, httpMethod: string, headers: map<string, string>, body: RequestBody)

  /** The body of a response as `response.json()` sees it: a JSON value, or
      text that does not parse, with the SyntaxError message. */
  datatype ResponseBody = JsonBody(value: Json) | NotJson(parseError: string)

  datatype Response = Response(status: int, body: ResponseBody)

  /** `response.ok`: a status in the range 200 to 299. */
  predicate IsOk(r: Response) {
    200 <= r.status <= 299
  }

  /** A settled `fetch`: a response, or a rejection (a network failure, or an
      error thrown further up) with its message. */
  datatype Settled = Resolved(response: Response) | Rejected(message: string)

  /** `if (!response.ok) throw new Error(failure); return response.json()`
      after awaiting a settled request: a rejection propagates, a status
      outside 200-299 becomes `failure`, and an OK body that is not JSON
      rejects with the parse error. */
  function ExpectOk(s: Settled, failure: string): (r: Result<Json>)
    ensures r.Ok? <==> s.Resolved? && IsOk(s.response) && s.response.body.JsonBody?
    ensures r.Ok? ==> r.value == s.response.body.value
    ensures s.Rejected? ==> r == Err(s.message)
    ensures s.Resolved? && !IsOk(s.response) ==> r == Err(failure)
    ensures s.Resolved? && IsOk(s.response) && s.response.body.NotJson? ==> r == Err(s.response.body.parseError)
  {
    match s
    case Rejected(m) => Err(m)
    case Resolved(response) =>
      if !IsOk(response) then Err(failure)
      else
        match response.body
        case NotJson(e) => Err(e)
        case JsonBody(v) => Ok(v)
  }
}
