# BookSwap client — a verified Dafny model

BookSwap is a community book-exchange site. Its Next.js client keeps a JWT
token pair in the browser's `localStorage`. It sends every API call through
an authenticated `fetch` wrapper, which refreshes the access token once on
a 401 and retries. On top of that sit three components:

- an AI "book advisor" chat that turns the server's advice into a numbered
  reply and a list of recommended books;
- a listing panel that shows search results, recommendations or the whole
  listing;
- a modal that posts a new book ad as multipart form data.

This project models that client in Dafny and proves what each piece
promises:

- **Strings and encodings** (`js_strings.dfy`, `js.dfy`, `seqs.dfy`,
  `utf8.dfy`, `url_encoding.dfy`). These cover the JavaScript string
  operations the client relies on: `trim`, `toLowerCase`, `includes`,
  number-to-text and property access on parsed JSON. They also cover the
  two query encoders it uses, `URLSearchParams` (the
  application/x-www-form-urlencoded serializer of the WHATWG URL Standard,
  section 5.2) and `encodeURIComponent` (ECMA-262, section 19.2.6.5).
  Each encoder has a decoder beside it, and the round trips are proved.
  The encoders work over UTF-8 (Unicode Standard, Table 3-7).
- **HTTP** (`http.dfy`): requests, responses, settled promises, and the
  common "throw unless `response.ok`, else parse JSON" step.
- **Authentication** (`auth.dfy`, lib/auth.ts): the `AuthService` class
  with its token store, and the request flow of `makeAuthenticatedRequest`.
  That flow is the request, an optional refresh, and an optional retry or
  sign-out.
- **REST client** (`api.dfy`, lib/api.ts): each `bookxAPI` call's URL,
  query, form body and error message. The loops that build the search
  parameters and the update form are proved against their specification
  functions.
- **Components** (`chat_bot.dfy`, `books_display.dfy`,
  `create_book_modal.dfy`): each component is a class whose fields are its
  React state. Each event handler is a method.
  - The chat's and the modal's async handlers are split at the `await`.
    One method runs up to the request; another runs once it has settled.
  - The listing's two `useEffect`s are methods, called in the order React
    runs them when their dependencies change.

The network, the clock and the user are parameters. A method that sends
requests takes, for each request it may send, how that request settles
(`first`, `refreshed`, `retry`). It returns the requests it sent.

The REST client reads `BASE_URL` from the same environment variable, with
the same fallback, as the authentication service (lib/api.ts:3,
lib/auth.ts:12). The model therefore uses the service's `baseUrl` for both.

## Model

| member | source | states |
|---|---|---|
| JsStrings.Trim | components/chat-bot.tsx:46 | `trim()` gives a string no longer than its input that neither starts nor ends with white space |
| JsStrings.TrimCutsWhiteSpace | components/chat-bot.tsx:46 | the trimmed string is a contiguous piece of the input with only white space before and after it |
| JsStrings.TrimEmptyIffAllWhiteSpace | components/books-display.tsx:40 | `!s.trim()` holds exactly when every character is white space |
| JsStrings.TrimIdempotent | components/create-book-modal.tsx:52-56 | trimming a trimmed string changes nothing |
| JsStrings.ToLower | components/books-display.tsx:43-45 | `toLowerCase` keeps the length and lower-cases character by character |
| JsStrings.IncludesIffOccurs | components/books-display.tsx:43-45 | `includes` is true exactly when the needle occurs at some index |
| JsStrings.DecimalRoundTrip | components/chat-bot.tsx:68 | the decimal text of a number reads back as that number |
| JsStrings.IntToString | lib/api.ts:85 | for an id below 10^21 in magnitude, its text is digits, with a leading minus exactly for negatives |
| Js.Property | lib/api.ts:120-121 | reading a property of `null` throws a TypeError, of an object gives the field if present, of anything else gives undefined |
| Seqs.FilterMembership | components/books-display.tsx:41-46 | `filter` keeps exactly the elements that pass |
| Seqs.FilterIsSubsequence | components/books-display.tsx:41-46 | `filter` keeps the original order |
| Seqs.FilterCount | components/books-display.tsx:41-46 | `filter` keeps each passing element as often as it occurs and no other: nothing is duplicated or dropped |
| Utf8.EncodeScalar | lib/api.ts:165 | a code point takes 1 to 4 bytes, one exactly for ASCII, with continuation bytes only after the first |
| Utf8.DecodeEncode | lib/api.ts:165 | decoding the UTF-8 encoding of a string gives the string back |
| UrlEncoding.FormDecodeEncode | lib/api.ts:74-76 | the form-urlencoded serializer's encoding of a string decodes back to it |
| UrlEncoding.UriComponentRoundTrip | lib/api.ts:165 | `encodeURIComponent` output decodes back to the input, as a URI component and as a form value |
| UrlEncoding.PercentEncodeNoDelimiters | lib/api.ts:74-76 | encoded names and values never contain `&`, `=` or `#` |
| UrlEncoding.ParseSerialize | lib/api.ts:74-76 | parsing the serialized query gives back exactly the appended pairs, in order |
| UrlEncoding.ParseOnePair | lib/api.ts:165 | a `name=value` query with delimiter-free parts parses to that one decoded pair |
| Http.ExpectOk | lib/auth.ts:23-27 | a non-OK status throws the given message; an OK one gives the parsed body or its parse error; a rejection propagates |
| Auth.BaseUrl | lib/auth.ts:12 | an unset or empty environment variable falls back to the default URL; otherwise the variable is used |
| Auth.AuthorizationValue | lib/auth.ts:73-79 | the header is empty exactly when there is no (non-empty) token, else `Bearer <token>` |
| Auth.AuthorizedRequest | lib/auth.ts:73-82 | the first fetch keeps the caller's URL, method, body and other headers, and sets `Authorization` and `Content-Type: application/json` |
| Auth.WithAuthHeaders | lib/auth.ts:77-81 | the caller's headers are kept except that `Authorization` and `Content-Type: application/json` are set over them |
| Auth.RefreshResult | lib/auth.ts:30-44 | refresh gives the parsed body, and only for an OK JSON response; "Token refresh failed" for a non-OK status, and passes on a network error |
| Auth.RefreshedAccess | lib/auth.ts:89-90 | the stored access value is the body's `access` converted to a string ("null", digits, and so on); "undefined" when missing; a failed refresh or a `null` body goes to the catch |
| Auth.RequestFlow | lib/auth.ts:72-109 | one authorized request; only a 401 with a stored refresh token triggers one refresh; a good refresh stores the token and returns the retry; a failed one returns the 401 and signs out |
| Auth.AuthService.constructor | lib/auth.ts:11-12 | the service starts with the configured base URL over the given store |
| Auth.AuthService.IsAuthenticated | lib/auth.ts:68-70 | authenticated exactly when a window exists and a non-empty access token is stored |
| Auth.AuthService.GetAccessToken | lib/auth.ts:46-49 | a token is read exactly when a window exists and one is stored, and it is the stored one |
| Auth.AuthService.GetRefreshToken | lib/auth.ts:51-54 | a refresh token is read exactly when a window exists and one is stored, and it is the stored one |
| Auth.AuthService.NoWindowNoTokens | lib/auth.ts:46-54 | without a window both getters give null, whatever is stored |
| Auth.AuthService.SetTokens | lib/auth.ts:56-60 | with a window both tokens are stored and read back; without one nothing changes |
| Auth.AuthService.ClearTokens | lib/auth.ts:62-66 | afterwards no token can be read; with a window exactly the two keys are removed |
| Auth.AuthService.MakeAuthenticatedRequest | lib/auth.ts:72-109 | result, requests sent, store and location follow RequestFlow; a retry keeps the refresh token; a failed refresh signs out and redirects to "/" |
| Auth.MultipartSentAsJson | lib/auth.ts:75-82 | a multipart body is still labelled `Content-Type: application/json` |
| Api.IntToStringInjective | lib/api.ts:85 | different ids have different texts |
| Api.BookUrlInjective | lib/api.ts:84-90 | different ids give different book URLs |
| Api.SearchPairs | lib/api.ts:60-72 | `q` first and only when non-empty, then every title, then every author, in order |
| Api.SearchPairKeys | lib/api.ts:62-72 | every pair is keyed `q`, `titles` or `authors`, and `q` appears only first and only when given |
| Api.AppendAll | lib/api.ts:66-72 | the `forEach` appends one pair per element, in order |
| Api.BuildSearchParams | lib/api.ts:60-72 | the appends build exactly SearchPairs |
| Api.SearchUrlRoundTrip | lib/api.ts:74-76 | the server parses the search URL's query back to exactly the appended pairs |
| Api.CreateBookForm | lib/api.ts:92-112 | the form has 2 to 6 entries, title then location first |
| Api.CreateBookFormOrder | lib/api.ts:95-112 | fields come in append order, each at most once, and only the six known fields appear |
| Api.CreateBookFormText | lib/api.ts:98-108 | an optional text field is sent exactly when present and non-empty, with its value |
| Api.CreateBookFormImage | lib/api.ts:110-112 | the image is sent exactly when given |
| Api.UpdateEntry | lib/api.ts:131-137 | a string is sent under any key, a file only under `image`, anything else dropped |
| Api.UpdateEntries | lib/api.ts:127-138 | the `forEach` appends at most one entry per property |
| Api.UpdateBookForm | lib/api.ts:128-138 | the loop builds exactly UpdateEntries |
| Api.UpdateEntriesMembership | lib/api.ts:130-138 | an entry is in the update form exactly when some property produced it |
| Api.EmptyStringCreateVsUpdate | lib/api.ts:98-138 | an empty author is dropped by createBook but sent by updateBook |
| Api.AdviceUrlRoundTrip | lib/api.ts:163-166 | for any prompt, the server reads the advice URL's query as the single pair `prompt` = that prompt |
| Api.AdviceQuery | lib/api.ts:165 | the `prompt=` query parses to the prompt |
| Api.CreateBookFailure | lib/api.ts:119-122 | a non-OK createBook throws the truthy `detail` converted to a string (a number as its digits, an object as "[object Object]"), else "Failed to create book"; a `null` body throws a TypeError |
| Api.Endpoint | lib/api.ts:47-186 | every URL starts with the base URL and no call adds headers; exactly the four reads use GET; exactly createBook and the advice POST use POST; exactly create and update send multipart; get, update and delete address the book's own URL |
| Api.FailureMessage | lib/api.ts:50-182 | every call's error starts with "Failed to "; the two advice calls, and only they, share "Failed to get AI advice" |
| Api.CallResult | lib/api.ts:47-186 | a rejection propagates; a non-OK status gives the call's own message; OK gives the parsed body, or nothing for delete |
| Api.Call | lib/api.ts:47-186 | each call sends its endpoint through the authenticated request flow and maps the outcome by CallResult |
| Api.HealthCheck | lib/api.ts:189-196 | healthy exactly when the fetch resolves with a 2xx status; never throws |
| Chat.ReplyNumbering | components/chat-bot.tsx:64-69 | the i-th reply line begins with the number i+1 followed by that suggestion's title, author and reason |
| Chat.SuggestionLine | components/chat-bot.tsx:68 | each line ends in a newline and names the bold title and the author right after its number |
| Chat.Reply | components/chat-bot.tsx:67-69 | the reply starts with the fixed introduction; with no suggestions it is the introduction alone, with one it is the introduction and that line |
| Chat.Recommend | components/chat-bot.tsx:76-89 | matched books first; else a search with the filter's titles and authors when any, with [] on failure; else nothing |
| Chat.FallbackSearchHasNoQuery | components/chat-bot.tsx:78-81 | the fallback search sends only titles and authors, never `q` |
| Chat.ChatBot.constructor | components/chat-bot.tsx:25-35 | the chat starts with the greeting alone, an empty input, not loading |
| Chat.ChatBot.ChangeInput | components/chat-bot.tsx:192 | typing changes only the input |
| Chat.ChatBot.CanSend | components/chat-bot.tsx:46 | an empty input, or a request in flight, never sends |
| Chat.ChatBot.CanSendIff | components/chat-bot.tsx:46 | a send goes through exactly when the input is not all white space and nothing is loading |
| Chat.ChatBot.SendMessage | components/chat-bot.tsx:45-58 | a guarded send appends the untrimmed input, clears it, sets loading and sends it as the prompt; otherwise nothing changes |
| Chat.ChatBot.ReceiveAdvice | components/chat-bot.tsx:60-101 | success appends the numbered reply and recommends by Recommend; failure appends the apology and recommends nothing; loading ends |
| Chat.ChatBot.HandleSendMessage | components/chat-bot.tsx:45-102 | a send appends the untrimmed user message, then the reply when the advice arrives or the apology when it fails; it returns Recommend's step only on success, keeps the greeting first, and ends not loading |
| Listing.MatchesIff | components/books-display.tsx:41-46 | a book matches exactly when the lower-cased query occurs in its lower-cased title, author or description |
| Listing.SearchResultsSpec | components/books-display.tsx:41-46 | the search keeps exactly the matching listed books, each as often as it is listed, in listing order |
| Listing.Shown | components/books-display.tsx:29-51 | after both effects: search results for a non-blank query, else recommendations if any, else the listing |
| Listing.RecommendationDisplay | components/books-display.tsx:30-36 | the recommendations when there are any, else the whole listing |
| Listing.SearchDisplay | components/books-display.tsx:39-51 | a non-blank query shows exactly the matching listed books in order; a blank one shows the listing without recommendations and keeps the display otherwise |
| Listing.SearchIgnoresRecommendations | components/books-display.tsx:39-51 | a non-blank query searches the whole listing, whatever was recommended |
| Listing.SearchAllMatch | components/books-display.tsx:40-47 | a query every book matches shows the whole listing |
| Listing.SearchNoneMatch | components/books-display.tsx:40-47 | a query no book matches empties the panel, even with recommendations |
| Listing.ClearingSearchKeepsResults | components/books-display.tsx:39-51 | clearing the query while recommendations exist leaves the search results on screen |
| Listing.ClearingSearchExample | components/books-display.tsx:39-51 | with "dune" recommended, searching "emma" then clearing keeps "emma" shown |
| Listing.UntrimmedQueryExample | components/books-display.tsx:40-45 | the query " dune" passes the blank check but misses the book "dune" |
| Listing.ContactInfo | components/books-display.tsx:86 | the phone number when there is one, else "through their profile" |
| Listing.OrderMessage | components/books-display.tsx:85-88 | the order alert quotes the book's title and then names its owner |
| Listing.OrderMessageContact | components/books-display.tsx:85-88 | the order alert contains the phone number, or the profile hint without one |
| Listing.ContactOwner | components/books-display.tsx:77-83 | dial `tel:` + the number exactly when the book has one, else alert |
| Listing.BooksDisplay.Mount | components/books-display.tsx:17-36 | mounting shows the recommendations passed in, with the listing still loading |
| Listing.BooksDisplay.RecommendationEffect | components/books-display.tsx:30-36 | shows the recommendations if any, else the listing |
| Listing.BooksDisplay.SearchEffect | components/books-display.tsx:39-51 | a non-blank query shows the search results; a blank one shows the listing without recommendations, else keeps the display |
| Listing.BooksDisplay.ReceiveFilteredBooks | components/books-display.tsx:29-51 | new recommendations show Shown of the new state |
| Listing.BooksDisplay.ChangeSearchQuery | components/books-display.tsx:38-51 | a changed query runs only the search effect; the same query changes nothing |
| Listing.BooksDisplay.FetchAllBooks | components/books-display.tsx:53-63 | success replaces the listing and shows Shown of it; failure keeps everything; loading ends |
| Listing.BooksDisplay.HandleRefresh | components/books-display.tsx:65-75 | refetches, calls `onRefresh` when given whatever the outcome, and ends not refreshing |
| Modal.BlankToNone | components/create-book-modal.tsx:53-56 | a blank input becomes undefined, anything else its non-empty trimmed text |
| Modal.Payload | components/create-book-modal.tsx:51-58 | title and location are trimmed; each optional field is left out exactly when blank, else trimmed and non-empty; the image is passed as chosen |
| Modal.SubmitDisabledIff | components/create-book-modal.tsx:246 | submit is disabled exactly while loading or while title or location is all white space |
| Modal.EnabledSubmitRequired | components/create-book-modal.tsx:51-58 | an allowed submit posts the trimmed, non-empty title and location first |
| Modal.PayloadOptionalField | components/create-book-modal.tsx:53-56 | an optional input is posted exactly when not blank, as its trimmed non-empty text |
| Modal.PayloadImage | components/create-book-modal.tsx:57 | the image is posted exactly when one was chosen |
| Modal.CreateBookModal.constructor | components/create-book-modal.tsx:21-31 | the form starts empty, with no image, no error, not loading |
| Modal.CreateBookModal.Edit | components/create-book-modal.tsx:167 | typing changes only the fields |
| Modal.CreateBookModal.ChooseImage | components/create-book-modal.tsx:33-43 | a chosen file replaces the image; no file keeps it |
| Modal.CreateBookModal.PreviewLoaded | components/create-book-modal.tsx:38-40 | the loaded data URL becomes the preview |
| Modal.CreateBookModal.BeginSubmit | components/create-book-modal.tsx:45-58 | sets loading, clears the error and builds the payload from the fields |
| Modal.CreateBookModal.CompleteSubmit | components/create-book-modal.tsx:59-81 | success resets the form and calls close, then `onBookCreated` if given; failure shows the message or the fallback; loading ends |
| Modal.CreateBookModal.HandleClose | components/create-book-modal.tsx:83-98 | ignored while loading; otherwise calls close and resets the form, image, preview and error |

## Left out

- JsStrings.ToLower: full Unicode `toLowerCase` is not modelled. `ToLower` maps only `A`–`Z`. Other letters keep their case, so the search is case-insensitive only for ASCII.
- Lone surrogates: the UTF-8 encoder takes whole code points. A string with a lone surrogate, on which `encodeURIComponent` throws, is not modelled.
- Replacement on decode: `PercentDecode` and `Decode` are the partners the round trips need. They fail on malformed input where the WHATWG parser would substitute U+FFFD.
- JsStrings.IntToString: numbers are unbounded integers printed in full. JavaScript's exponent form for magnitudes of 10^21 and above (`1e+21`), and the rounding of integers beyond 2^53 to the nearest double, are not modelled. Book URLs, `Js.ToString` of a number, a stored `access` and a thrown `detail` are therefore exact only below those bounds.
- Js.ToString: numbers in JSON are integers. Floating-point formatting of a non-integral `detail` value is not modelled.
- Header names: they are exact map keys. Header names that differ only in case, and `Headers` objects passed as options, are not modelled.
- JSON: bodies are `Json` values. Key order, parse errors other than "not JSON", and typed decoding of a `Book` from JSON are not modelled.
- Browser effects: `fetch`, `response.json()`, `FileReader`, `alert` and `window.open` are results passed in or values returned (ContactAction, Callback). They are not performed.
- Concurrency: the two halves of a handler run back to back, and nothing else runs in between. Interleaved handlers and requests that overlap in flight are not modelled.
- Chat.ChatBot.ReceiveAdvice: an advice body whose shape is malformed, so that reading `ai.suggested_books` throws, counts as a failed advice request. It appends the apology, as the catch does.
- Listing.BooksDisplay.ReceiveFilteredBooks: every new `filteredBooks` prop counts as a change. React compares arrays by identity, which a value model cannot express.
- React batching and intermediate renders: only the state after each handler and its effects is modelled. This includes the render with `isRefreshing` on during a refresh.
- Message ids and timestamps (`Date.now()`, `new Date()`), and scrolling to the newest message.
- The Enter key and the send button: both only call the guarded `handleSendMessage`, which is modelled.
- `login` (lib/auth.ts:14-28): not modelled. Its result is the same `ExpectOk` step that Auth.RefreshResult applies to `refreshToken`, with "Login failed" as the message. Nothing in the client core uses its tokens; the login page stores them with `setTokens`.
- `healthCheck`'s request, a plain GET of `/api/health/` without the authenticated client, is not built as a value. Api.HealthCheck models its outcome.
- Components outside the client core: pages, layout and the login form, which call `login`, `setTokens` and the components.
