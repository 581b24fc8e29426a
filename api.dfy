/** The REST client of lib/api.ts: how each call builds its URL, query and
    form body, which request it hands to the authenticated client, and how
    the settled response becomes a value or an error. */
module Api {
  import opened Js
  import opened JsStrings
  import opened Http
  import opened UrlEncoding
  import opened Auth

  /** A listing as the server returns it. */
  datatype Book = Book(
    id: int,
    title: string,
    author: string,
    description: string,
    imageUrl: string,
    phoneNumber: string,
    location: string,
    ownerUsername: string,
    createdAt: string,
    updatedAt: string,
    isActive: bool)

  // ---------------------------------------------------------------- URLs

  function BooksUrl(base: string): string {
    base + "/api/books/"
  }

  /** `${BASE_URL}/api/books/${id}/`. */
  function BookUrl(base: string, id: int): string {
    base + "/api/books/" + IntToString(id) + "/"
  }

  /** Distinct ids give distinct book URLs, so a get, update or delete
      always addresses the book it was asked for. */
  lemma BookUrlInjective(base: string, id1: int, id2: int)
    requires BookUrl(base, id1) == BookUrl(base, id2)
    ensures id1 == id2
  {
    var prefix := base + "/api/books/";
    var u1, u2 := BookUrl(base, id1), BookUrl(base, id2);
    assert u1[|prefix|..|u1| - 1] == IntToString(id1);
    assert u2[|prefix|..|u2| - 1] == IntToString(id2);
    IntToStringInjective(id1, id2);
  }

  /** Different integers have different decimal texts. */
  lemma IntToStringInjective(i: int, j: int)
    requires IntToString(i) == IntToString(j)
    ensures i == j
  {
    if i >= 0 && j >= 0 {
      DecimalRoundTrip(i);
      DecimalRoundTrip(j);
    } else if i < 0 && j < 0 {
      assert IntToString(i)[1..] == NatToDecimal(-i);
      assert IntToString(j)[1..] == NatToDecimal(-j);
      DecimalRoundTrip(-i);
      DecimalRoundTrip(-j);
    }
  }

  // ---------------------------------------------------------- searchBooks

  /** The `params` argument of `searchBooks`. */
  datatype SearchQuery = SearchQuery(q: Option<string>, titles: Option<seq<string>>, authors: Option<seq<string>>)

  function OrEmpty(xs: Option<seq<string>>): seq<string> {
    if xs.Some? then xs.value else []
  }

  /** One `(key, x)` pair per element of `xs`, in order. */
  function Tagged(key: string, xs: seq<string>): seq<(string, string)> {
    seq(|xs|, i requires 0 <= i < |xs| => (key, xs[i]))
  }

  /** The pairs `searchBooks` appends to its `URLSearchParams`: `q` only when
      it is a non-empty string, then every title, then every author. An
      empty title or author list contributes nothing; an empty title or
      author string is still sent. */
  function SearchPairs(p: SearchQuery): (r: seq<(string, string)>)
    ensures var off := if p.q.Some? && p.q.value != "" then 1 else 0;
            var ts, aus := OrEmpty(p.titles), OrEmpty(p.authors);
            && |r| == off + |ts| + |aus|
            && (off == 1 ==> r[0] == ("q", p.q.value))
            && (forall i :: 0 <= i < |ts| ==> r[off + i] == ("titles", ts[i]))
            && (forall j :: 0 <= j < |aus| ==> r[off + |ts| + j] == ("authors", aus[j]))
  {
    (if p.q.Some? && p.q.value != "" then [("q", p.q.value)] else [])
    + Tagged("titles", OrEmpty(p.titles)) + Tagged("authors", OrEmpty(p.authors))
  }

  /** No pair of the search is a `q` pair unless `q` was given and
      non-empty, and every pair is keyed `q`, `titles` or `authors`. */
  lemma SearchPairKeys(p: SearchQuery)
    ensures forall k :: 0 <= k < |SearchPairs(p)| ==>
              SearchPairs(p)[k].0 in {"q", "titles", "authors"}
              && (SearchPairs(p)[k].0 == "q" <==> k == 0 && p.q.Some? && p.q.value != "")
  {
    var r := SearchPairs(p);
    var off := if p.q.Some? && p.q.value != "" then 1 else 0;
    var ts := OrEmpty(p.titles);
    forall k | 0 <= k < |r|
      ensures r[k].0 in {"q", "titles", "authors"} && (r[k].0 == "q" <==> k == 0 && off == 1)
    {
      if k < off {
      } else if k < off + |ts| {
        assert r[off + (k - off)].0 == "titles";
      } else {
        assert r[off + |ts| + (k - off - |ts|)].0 == "authors";
      }
    }
  }

  /** `xs.forEach((x) => searchParams.append(key, x))`. */
  method AppendAll(params: seq<(string, string)>, key: string, xs: seq<string>)
    returns (out: seq<(string, string)>)
    ensures out == params + Tagged(key, xs)
  {
    out := params;
    var i := 0;
    while i < |xs|
      invariant 0 <= i <= |xs|
      invariant out == params + Tagged(key, xs[..i])
    {
      assert Tagged(key, xs[..i + 1]) == Tagged(key, xs[..i]) + [(key, xs[i])];
      out := out + [(key, xs[i])];
      i := i + 1;
    }
    assert xs[..i] == xs;
  }

  /** The `searchParams.append` calls of `searchBooks`. */
  method BuildSearchParams(p: SearchQuery) returns (params: seq<(string, string)>)
    ensures params == SearchPairs(p)
  {
    params := [];
    if p.q.Some? && p.q.value != "" {
      params := params + [("q", p.q.value)];
    }
    if p.titles.Some? {
      params := AppendAll(params, "titles", p.titles.value);
    }
    if p.authors.Some? {
      params := AppendAll(params, "authors", p.authors.value);
    }
  }

  const SearchPrefix := "/api/books/search/?"

  /** `${BASE_URL}/api/books/search/?${searchParams.toString()}`. */
  function SearchUrl(base: string, p: SearchQuery): string {
    base + SearchPrefix + Serialize(SearchPairs(p))
  }

  /** The server reads the search URL's query back as exactly the pairs
      `searchBooks` appended, in order. */
  lemma SearchUrlRoundTrip(base: string, p: SearchQuery)
    ensures var u, prefix := SearchUrl(base, p), base + SearchPrefix;
            |prefix| <= |u| && u[..|prefix|] == prefix
            && ParseQuery(u[|prefix|..]) == Some(SearchPairs(p))
  {
    var u, prefix := SearchUrl(base, p), base + SearchPrefix;
    assert u[|prefix|..] == Serialize(SearchPairs(p));
    ParseSerialize(SearchPairs(p));
  }

  // ----------------------------------------------------------- createBook

  /** The `bookData` argument of `createBook`. */
  datatype CreateBookData = CreateBookData(
    title: string,
    author: Option<string>,
    description: Option<string>,
    location: string,
    phoneNumber: Option<string>,
    image: Option<File>)

  /** `if (value) formData.append(name, value)` for an optional string. */
  function OptionalText(name: string, v: Option<string>): seq<FormEntry> {
    if v.Some? && v.value != "" then [FormEntry(name, Text(v.value))] else []
  }

  /** The form `createBook` posts: title and location always, first and in
      that order; then author, description, phone number and image, each
      only when present and, for strings, non-empty. */
  function CreateBookForm(d: CreateBookData): (r: seq<FormEntry>)
    ensures 2 <= |r| <= 6
    ensures r[0] == FormEntry("title", Text(d.title)) && r[1] == FormEntry("location", Text(d.location))
  {
    [FormEntry("title", Text(d.title)), FormEntry("location", Text(d.location))]
    + OptionalText("author", d.author)
    + OptionalText("description", d.description)
    + OptionalText("phone_number", d.phoneNumber)
    + (if d.image.Some? then [FormEntry("image", Blob(d.image.value))] else [])
  }

  /** Where a field name comes in the order `createBook` appends fields. */
  function CreateRank(name: string): int {
    if name == "title" then 0
    else if name == "location" then 1
    else if name == "author" then 2
    else if name == "description" then 3
    else if name == "phone_number" then 4
    else if name == "image" then 5
    else 6
  }

  /** The entries come in strictly increasing append order. */
  predicate InCreateOrder(r: seq<FormEntry>) {
    forall i, j :: 0 <= i < j < |r| ==> CreateRank(r[i].name) < CreateRank(r[j].name)
  }

  /** Every entry of `r` ranks in [lo, hi). */
  predicate RanksWithin(r: seq<FormEntry>, lo: int, hi: int) {
    forall i :: 0 <= i < |r| ==> lo <= CreateRank(r[i].name) < hi
  }

  lemma InCreateOrderConcat(x: seq<FormEntry>, y: seq<FormEntry>, lo: int, mid: int, hi: int)
    requires InCreateOrder(x) && InCreateOrder(y)
    requires lo <= mid <= hi && RanksWithin(x, lo, mid) && RanksWithin(y, mid, hi)
    ensures InCreateOrder(x + y) && RanksWithin(x + y, lo, hi)
  {
    var r := x + y;
    forall i | 0 <= i < |r| ensures lo <= CreateRank(r[i].name) < hi {
      if i >= |x| {
        assert r[i] == y[i - |x|];
      } else {
        assert r[i] == x[i];
      }
    }
    forall i, j | 0 <= i < j < |r| ensures CreateRank(r[i].name) < CreateRank(r[j].name) {
      if j < |x| {
        assert r[i] == x[i] && r[j] == x[j];
      } else if i >= |x| {
        assert r[i] == y[i - |x|] && r[j] == y[j - |x|];
      } else {
        assert r[i] == x[i] && r[j] == y[j - |x|];
      }
    }
  }

  /** The fields come in append order, each at most once, and every name
      is one of the six fields `createBook` appends. */
  lemma CreateBookFormOrder(d: CreateBookData)
    ensures InCreateOrder(CreateBookForm(d))
    ensures RanksWithin(CreateBookForm(d), 0, 6)
  {
    var head := [FormEntry("title", Text(d.title)), FormEntry("location", Text(d.location))];
    var a := OptionalText("author", d.author);
    var b := OptionalText("description", d.description);
    var c := OptionalText("phone_number", d.phoneNumber);
    var e: seq<FormEntry> := if d.image.Some? then [FormEntry("image", Blob(d.image.value))] else [];
    assert RanksWithin(head, 0, 2);
    InCreateOrderConcat(head, a, 0, 2, 3);
    InCreateOrderConcat(head + a, b, 0, 3, 4);
    InCreateOrderConcat(head + a + b, c, 0, 4, 5);
    InCreateOrderConcat(head + a + b + c, e, 0, 5, 6);
  }

  /** An optional text field is sent exactly when it is present and
      non-empty, with its own value. */
  lemma CreateBookFormText(d: CreateBookData, name: string, field: Option<string>, v: FormValue)
    requires (name, field) in {("author", d.author), ("description", d.description), ("phone_number", d.phoneNumber)}
    ensures FormEntry(name, v) in CreateBookForm(d) <==> field.Some? && field.value != "" && v == Text(field.value)
  {
    var r := CreateBookForm(d);
    var others := [FormEntry("title", Text(d.title)), FormEntry("location", Text(d.location))];
    assert r == others + OptionalText("author", d.author) + OptionalText("description", d.description)
                + OptionalText("phone_number", d.phoneNumber)
                + (if d.image.Some? then [FormEntry("image", Blob(d.image.value))] else []);
  }

  /** The image is sent exactly when one was given. */
  lemma CreateBookFormImage(d: CreateBookData, v: FormValue)
    ensures FormEntry("image", v) in CreateBookForm(d) <==> d.image.Some? && v == Blob(d.image.value)
  {
    var r := CreateBookForm(d);
    var others := [FormEntry("title", Text(d.title)), FormEntry("location", Text(d.location))]
                  + OptionalText("author", d.author) + OptionalText("description", d.description)
                  + OptionalText("phone_number", d.phoneNumber);
    assert forall k :: 0 <= k < |others| ==> others[k].name != "image";
    assert r == others + (if d.image.Some? then [FormEntry("image", Blob(d.image.value))] else []);
  }

  // ----------------------------------------------------------- updateBook

  /** A property value of the `Partial<CreateBookData>` passed to
      `updateBook`, as `Object.entries` yields it. */
  datatype JsValue = Undefined | Null | Str(s: string) | FileValue(file: File) | OtherValue

  /** What one entry contributes to the form: a file only under `image`, a
      string under any key (the empty string included), nothing otherwise. */
  function UpdateEntry(key: string, value: JsValue): (r: Option<FormEntry>)
    ensures r.Some? <==> value.Str? || (key == "image" && value.FileValue?)
    ensures r.Some? ==> r.value.name == key
    ensures value.Str? ==> r == Some(FormEntry(key, Text(value.s)))
    ensures r.Some? && r.value.value.Blob? ==> key == "image" && value == FileValue(r.value.value.file)
  {
    match value
    case Str(s) => Some(FormEntry(key, Text(s)))
    case FileValue(f) => if key == "image" then Some(FormEntry(key, Blob(f))) else None
    case _ => None
  }

  /** The form `updateBook` sends, entry by entry in `Object.entries` order. */
  function UpdateEntries(fields: seq<(string, JsValue)>): (r: seq<FormEntry>)
    ensures |r| <= |fields|
  {
    if fields == [] then []
    else
      var last := fields[|fields| - 1];
      UpdateEntries(fields[..|fields| - 1])
      + (match UpdateEntry(last.0, last.1) case Some(e) => [e] case None => [])
  }

  /** The `Object.entries(bookData).forEach(...)` loop of `updateBook`. */
  method UpdateBookForm(fields: seq<(string, JsValue)>) returns (form: seq<FormEntry>)
    ensures form == UpdateEntries(fields)
  {
    form := [];
    var i := 0;
    while i < |fields|
      invariant 0 <= i <= |fields|
      invariant form == UpdateEntries(fields[..i])
    {
      var (key, value) := fields[i];
      assert fields[..i + 1][..i] == fields[..i];
      if value != Undefined && value != Null {
        if key == "image" && value.FileValue? {
          form := form + [FormEntry(key, Blob(value.file))];
        } else if value.Str? {
          form := form + [FormEntry(key, Text(value.s))];
        }
      }
      i := i + 1;
    }
    assert fields[..i] == fields;
  }

  /** An entry is in the update form exactly when some property produced it. */
  lemma {:induction false} UpdateEntriesMembership(fields: seq<(string, JsValue)>, e: FormEntry)
    ensures e in UpdateEntries(fields) <==>
            exists i :: 0 <= i < |fields| && UpdateEntry(fields[i].0, fields[i].1) == Some(e)
  {
    if fields != [] {
      var init := fields[..|fields| - 1];
      UpdateEntriesMembership(init, e);
      if e in UpdateEntries(init) {
        var i :| 0 <= i < |init| && UpdateEntry(init[i].0, init[i].1) == Some(e);
        assert fields[i] == init[i];
      }
      forall i | 0 <= i < |init| && UpdateEntry(fields[i].0, fields[i].1) == Some(e)
        ensures e in UpdateEntries(init)
      {
        assert fields[i] == init[i];
      }
    }
  }

  /** The two omission rules differ on the empty string: `createBook` drops
      an empty author, `updateBook` sends it. */
  lemma EmptyStringCreateVsUpdate(d: CreateBookData, fields: seq<(string, JsValue)>)
    requires d.author == Some("")
    requires ("author", Str("")) in fields
    ensures FormEntry("author", Text("")) !in CreateBookForm(d)
    ensures FormEntry("author", Text("")) in UpdateEntries(fields)
  {
    CreateBookFormText(d, "author", d.author, Text(""));
    var i :| 0 <= i < |fields| && fields[i] == ("author", Str(""));
    UpdateEntriesMembership(fields, FormEntry("author", Text("")));
  }

  // --------------------------------------------------------- AI advice

  const AdvicePath := "/api/ai/books/advice/"

  /** `${BASE_URL}/api/ai/books/advice/?prompt=${encodeURIComponent(prompt)}`. */
  function AdviceUrl(base: string, prompt: string): string {
    base + AdvicePath + "?prompt=" + EncodeUriComponent(prompt)
  }

  /** Whatever the prompt, the server reads the advice URL's query as the
      single parameter `prompt` carrying exactly that prompt. */
  lemma AdviceUrlRoundTrip(base: string, prompt: string)
    ensures var u, prefix := AdviceUrl(base, prompt), base + AdvicePath + "?";
            |prefix| <= |u| && u[..|prefix|] == prefix
            && ParseQuery(u[|prefix|..]) == Some([("prompt", prompt)])
  {
    var u, prefix := AdviceUrl(base, prompt), base + AdvicePath + "?";
    assert u[|prefix|..] == "prompt" + "=" + EncodeUriComponent(prompt);
    AdviceQuery(prompt);
  }

  lemma AdviceQuery(prompt: string)
    ensures ParseQuery("prompt" + "=" + EncodeUriComponent(prompt)) == Some([("prompt", prompt)])
  {
    PercentEncodeNoDelimiters(UriComponent, prompt);
    UriComponentRoundTrip(prompt);
    PromptName();
    ParseOnePair("prompt", EncodeUriComponent(prompt));
  }

  lemma PromptName()
    ensures NoDelimiters("prompt") && FormDecode("prompt") == Some("prompt")
  {
    var s := "prompt";
    assert forall i :: 0 <= i < |s| ==> 'a' <= s[i] <= 'z';
    FormDecodePlain(s);
  }

  /** The JSON body `getBookAdvicePost` sends. */
  function AdvicePostBody(prompt: string): Json {
    JObject(map["prompt" := JString(prompt)])
  }

  // ------------------------------------------------------- the API calls

  /** One call of the `bookxAPI` object with its arguments. */
  datatype ApiCall =
    | GetAllBooks
    | SearchBooks(query: SearchQuery)
    | GetBook(id: int)
    | CreateBook(data: CreateBookData)
    | UpdateBook(bookId: int, fields: seq<(string, JsValue)>)
    | DeleteBook(deleteId: int)
    | GetBookAdvice(prompt: string)
    | GetBookAdvicePost(postPrompt: string)

  /** The book a get, update or delete addresses. */
  function BookId(call: ApiCall): int
    requires call.GetBook? || call.UpdateBook? || call.DeleteBook?
  {
    match call
    case GetBook(id) => id
    case UpdateBook(id, _) => id
    case DeleteBook(id) => id
  }

  /** The URL and options each call hands to `makeAuthenticatedRequest`.
      `BASE_URL` is read from the same variable, with the same fallback, as
      the authentication service's base URL, so both are `base`. */
  function Endpoint(base: string, call: ApiCall): (r: (string, RequestOptions))
    ensures |base| <= |r.0| && r.0[..|base|] == base
    ensures r.1.headers == map[]
    ensures r.1.httpMethod == "GET" <==> call.GetAllBooks? || call.SearchBooks? || call.GetBook? || call.GetBookAdvice?
    ensures r.1.httpMethod == "POST" <==> call.CreateBook? || call.GetBookAdvicePost?
    ensures r.1.body.Multipart? <==> call.CreateBook? || call.UpdateBook?
    ensures call.GetBook? || call.UpdateBook? || call.DeleteBook? ==> r.0 == BookUrl(base, BookId(call))
  {
    match call
    case GetAllBooks => (BooksUrl(base), NoOptions)
    case SearchBooks(p) => (SearchUrl(base, p), NoOptions)
    case GetBook(id) => (BookUrl(base, id), NoOptions)
    case CreateBook(d) => (BooksUrl(base), RequestOptions("POST", map[], Multipart(CreateBookForm(d))))
    case UpdateBook(id, fields) => (BookUrl(base, id), RequestOptions("PATCH", map[], Multipart(UpdateEntries(fields))))
    case DeleteBook(id) => (BookUrl(base, id), RequestOptions("DELETE", map[], NoBody))
    case GetBookAdvice(prompt) => (AdviceUrl(base, prompt), NoOptions)
    case GetBookAdvicePost(prompt) => (base + AdvicePath, RequestOptions("POST", map[], JsonText(AdvicePostBody(prompt))))
  }

  /** The error each call throws for a non-OK status (`createBook` may
      throw the server's `detail` instead; see CreateBookFailure). */
  function FailureMessage(call: ApiCall): (m: string)
    ensures |m| > |"Failed to "| && m[..|"Failed to "|] == "Failed to "
    ensures m == "Failed to get AI advice" <==> call.GetBookAdvice? || call.GetBookAdvicePost?
  {
    match call
    case GetAllBooks => "Failed to fetch books"
    case SearchBooks(_) => "Failed to search books"
    case GetBook(_) => "Failed to fetch book"
    case CreateBook(_) => "Failed to create book"
    case UpdateBook(_, _) => "Failed to update book"
    case DeleteBook(_) => "Failed to delete book"
    case GetBookAdvice(_) => "Failed to get AI advice"
    case GetBookAdvicePost(_) => "Failed to get AI advice"
  }

  /** The message `createBook` throws for a non-OK response: the body is
      parsed (an unparseable body counts as `{}`), and its `detail` is used
      when truthy, converted to a string. A `null` body makes reading
      `detail` itself throw a TypeError. */
  function CreateBookFailure(body: ResponseBody): (m: string)
    ensures body.NotJson? ==> m == "Failed to create book"
    ensures body == JsonBody(JNull) ==> m == "Cannot read properties of null (reading 'detail')"
    ensures body.JsonBody? && body.value.JObject? && "detail" in body.value.fields
            && body.value.fields["detail"].JString? && body.value.fields["detail"].s != ""
            ==> m == body.value.fields["detail"].s
    ensures body.JsonBody? && body.value.JObject? && "detail" in body.value.fields
            && Truthy(body.value.fields["detail"])
            ==> m == ToString(body.value.fields["detail"])
    ensures body.JsonBody? && body.value != JNull
            && !(body.value.JObject? && "detail" in body.value.fields && Truthy(body.value.fields["detail"]))
            ==> m == "Failed to create book"
  {
    var errorData := if body.JsonBody? then body.value else JObject(map[]);
    match Property(errorData, "detail")
    case Err(typeError) => typeError
    case Ok(detail) => if detail.Some? && Truthy(detail.value) then ToString(detail.value) else "Failed to create book"
  }

  /** What a call settles to, given what `makeAuthenticatedRequest` settled
      to: a rejection propagates; a non-OK status becomes the call's error;
      otherwise the parsed body, or nothing for `deleteBook`, which does not
      read the body. */
  function CallResult(call: ApiCall, s: Settled): (r: Result<Option<Json>>)
    ensures s.Rejected? ==> r == Err(s.message)
    ensures s.Resolved? && !IsOk(s.response) && !call.CreateBook? ==> r == Err(FailureMessage(call))
    ensures s.Resolved? && !IsOk(s.response) && call.CreateBook? ==> r == Err(CreateBookFailure(s.response.body))
    ensures s.Resolved? && IsOk(s.response) && call.DeleteBook? ==> r == Ok(None)
    ensures s.Resolved? && IsOk(s.response) && !call.DeleteBook? ==>
              (r.Ok? <==> s.response.body.JsonBody?) && (r.Ok? ==> r == Ok(Some(s.response.body.value)))
    ensures r.Ok? ==> s.Resolved? && IsOk(s.response)
  {
    match s
    case Rejected(m) => Err(m)
    case Resolved(response) =>
      if !IsOk(response) then
        if call.CreateBook? then Err(CreateBookFailure(response.body)) else Err(FailureMessage(call))
      else if call.DeleteBook? then Ok(None)
      else
        match ExpectOk(s, FailureMessage(call))
        case Ok(v) => Ok(Some(v))
        case Err(m) => Err(m)
  }

  /** One `bookxAPI` call end to end: build the request, send it through
      the authenticated client (with the settlement of each request it may
      send supplied), and map the outcome. */
  method Call(auth: AuthService, call: ApiCall, first: Settled, refreshed: Settled, retry: Settled)
    returns (r: Result<Option<Json>>, requests: seq<Request>)
    modifies auth
    ensures var (url, options) := Endpoint(auth.baseUrl, call);
            var f := RequestFlow(auth.baseUrl, old(auth.GetAccessToken()), old(auth.GetRefreshToken()),
                                 url, options, first, refreshed, retry);
            && r == CallResult(call, f.result) && requests == f.requests
            && auth.storage == ApplyEffect(old(auth.storage), f.effect)
            && auth.location == (if f.effect.ClearAndRedirect? then Some("/") else old(auth.location))
  {
    var base := auth.baseUrl;
    var url: string;
    var options: RequestOptions;
    match call {
      case SearchBooks(p) =>
        var params := BuildSearchParams(p);
        url, options := base + SearchPrefix + Serialize(params), NoOptions;
      case UpdateBook(id, fields) =>
        var form := UpdateBookForm(fields);
        url, options := BookUrl(base, id), RequestOptions("PATCH", map[], Multipart(form));
      case _ =>
        url, options := Endpoint(base, call).0, Endpoint(base, call).1;
    }
    var settled;
    settled, requests := auth.MakeAuthenticatedRequest(url, options, first, refreshed, retry);
    r := CallResult(call, settled);
  }

  // ---------------------------------------------------------- healthCheck

  /** `healthCheck` never rejects: it is `response.ok`, or false when the
      request fails. */
  function HealthCheck(s: Settled): (healthy: bool)
    ensures healthy <==> s.Resolved? && 200 <= s.response.status <= 299
  {
    match s
    case Rejected(_) => false
    case Resolved(response) => IsOk(response)
  }
}
