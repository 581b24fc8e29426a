/** The listing panel of components/books-display.tsx: the books it shows,
    derived from the full listing, the chat's recommendations and the
    search box by two effects that run on different dependencies; the
    fetch and refresh handlers; and the contact texts. */
module Listing {
  import opened Js
  import opened JsStrings
  import opened Seqs
  import opened Api

  /** The search predicate: the lower-cased title, author or description
      contains the lower-cased query. The query is not trimmed here. */
  predicate Matches(b: Book, query: string) {
    var q := ToLower(query);
    Includes(ToLower(b.title), q) || Includes(ToLower(b.author), q) || Includes(ToLower(b.description), q)
  }

  function MatchesQuery(query: string): Book -> bool {
    b => Matches(b, query)
  }

  /** `allBooks.filter(...)` with the search predicate. */
  function SearchResults(books: seq<Book>, query: string): seq<Book> {
    Filter(books, MatchesQuery(query))
  }

  /** Matching is case-insensitive substring search on the three fields. */
  lemma MatchesIff(b: Book, query: string)
    ensures Matches(b, query) <==>
              || (exists i :: OccursAt(ToLower(b.title), ToLower(query), i))
              || (exists i :: OccursAt(ToLower(b.author), ToLower(query), i))
              || (exists i :: OccursAt(ToLower(b.description), ToLower(query), i))
  {
    IncludesIffOccurs(ToLower(b.title), ToLower(query));
    IncludesIffOccurs(ToLower(b.author), ToLower(query));
    IncludesIffOccurs(ToLower(b.description), ToLower(query));
    assert Matches(b, query) <==>
      Includes(ToLower(b.title), ToLower(query)) || Includes(ToLower(b.author), ToLower(query))
      || Includes(ToLower(b.description), ToLower(query));
  }

  /** The search keeps exactly the listed books that match, each as often
      as it is listed, in listing order. */
  lemma SearchResultsSpec(books: seq<Book>, query: string)
    ensures forall b :: b in SearchResults(books, query) <==> b in books && Matches(b, query)
    ensures IsSubsequence(SearchResults(books, query), books)
    ensures forall b :: multiset(SearchResults(books, query))[b] == if Matches(b, query) then multiset(books)[b] else 0
  {
    forall b ensures b in SearchResults(books, query) <==> b in books && Matches(b, query) {
      FilterMembership(books, MatchesQuery(query), b);
    }
    forall b ensures multiset(SearchResults(books, query))[b] == if Matches(b, query) then multiset(books)[b] else 0 {
      FilterCount(books, MatchesQuery(query), b);
    }
    FilterIsSubsequence(books, MatchesQuery(query));
  }

  /** The first effect (dependencies `filteredBooks`, `allBooks`): the
      recommendations when there are any, else the whole listing. */
  function RecommendationDisplay(filtered: seq<Book>, all: seq<Book>): (r: seq<Book>)
    ensures |filtered| > 0 ==> r == filtered
    ensures |filtered| == 0 ==> r == all
  {
    if |filtered| > 0 then filtered else all
  }

  /** The second effect (dependencies `searchQuery`, `allBooks`,
      `filteredBooks`): a non-blank query shows the matching listed books;
      a blank one shows the listing when there are no recommendations, and
      otherwise leaves the display as it was. */
  function SearchDisplay(current: seq<Book>, filtered: seq<Book>, all: seq<Book>, query: string): (r: seq<Book>)
    ensures Trim(query) != "" ==> r == SearchResults(all, query)
    ensures Trim(query) != "" ==> IsSubsequence(r, all) && forall b :: b in r <==> b in all && Matches(b, query)
    ensures Trim(query) == "" && |filtered| == 0 ==> r == all
    ensures Trim(query) == "" && |filtered| > 0 ==> r == current
  {
    SearchResultsSpec(all, query);
    if Trim(query) != "" then SearchResults(all, query)
    else if |filtered| == 0 then all
    else current
  }

  /** What is shown after both effects have run, in order: search results
      for a non-blank query, else the recommendations if any, else the
      listing. */
  function Shown(filtered: seq<Book>, all: seq<Book>, query: string): (r: seq<Book>)
    ensures Trim(query) != "" ==> r == SearchResults(all, query)
    ensures Trim(query) == "" && |filtered| > 0 ==> r == filtered
    ensures Trim(query) == "" && |filtered| == 0 ==> r == all
  {
    SearchDisplay(RecommendationDisplay(filtered, all), filtered, all, query)
  }

  /** A non-blank query hides the recommendations: the search runs over the
      whole listing, whatever was recommended. */
  lemma SearchIgnoresRecommendations(f1: seq<Book>, f2: seq<Book>, all: seq<Book>, query: string)
    requires Trim(query) != ""
    ensures Shown(f1, all, query) == Shown(f2, all, query)
    ensures IsSubsequence(Shown(f1, all, query), all)
  {
    SearchResultsSpec(all, query);
  }

  /** A query every listed book matches shows the whole listing, in order. */
  lemma SearchAllMatch(filtered: seq<Book>, all: seq<Book>, query: string)
    requires Trim(query) != ""
    requires forall i :: 0 <= i < |all| ==> Matches(all[i], query)
    ensures Shown(filtered, all, query) == all
  {
    FilterAllPass(all, MatchesQuery(query));
  }

  /** A query no listed book matches empties the panel, even when
      recommendations exist. */
  lemma SearchNoneMatch(filtered: seq<Book>, all: seq<Book>, query: string)
    requires Trim(query) != ""
    requires forall i :: 0 <= i < |all| ==> !Matches(all[i], query)
    ensures Shown(filtered, all, query) == []
  {
    FilterNonePass(all, MatchesQuery(query));
  }

  /** Clearing the search while recommendations exist runs only the second
      effect, which then keeps the display: the search results stay on
      screen and the recommendations do not come back. */
  lemma ClearingSearchKeepsResults(filtered: seq<Book>, all: seq<Book>, query: string)
    requires |filtered| > 0 && Trim(query) != ""
    ensures var searching := SearchDisplay(filtered, filtered, all, query);
            SearchDisplay(searching, filtered, all, "") == SearchResults(all, query)
  {
    assert Trim("") == "";
  }

  /** An instance: "dune" is recommended, the listing holds "dune" and
      "emma"; searching "emma" and then clearing the box leaves "emma" on
      screen, not the recommended "dune". */
  lemma ClearingSearchExample()
    ensures var dune, emma := TitleOnly(1, "dune"), TitleOnly(2, "emma");
            var searching := SearchDisplay([dune], [dune], [dune, emma], "emma");
            && searching == [emma]
            && SearchDisplay(searching, [dune], [dune, emma], "") == [emma]
  {
    assert 'a' <= "emma"[0] <= 'z';
    NotBlank("emma");
    SearchEmma();
    assert Trim("") == "";
  }

  lemma SearchEmma()
    ensures SearchResults([TitleOnly(1, "dune"), TitleOnly(2, "emma")], "emma") == [TitleOnly(2, "emma")]
  {
    var dune, emma := TitleOnly(1, "dune"), TitleOnly(2, "emma");
    DuneMissesEmma();
    EmmaMatchesEmma();
    var all := [dune, emma];
    assert all[1..] == [emma] && all[1..][1..] == [];
  }

  lemma DuneMissesEmma()
    ensures !Matches(TitleOnly(1, "dune"), "emma")
  {
    MatchTitleOnly(1, "dune", "emma");
    assert "dune"[..4][0] != "emma"[0];
    assert |"dune"[1..]| < 4;
  }

  lemma EmmaMatchesEmma()
    ensures Matches(TitleOnly(2, "emma"), "emma")
  {
    MatchTitleOnly(2, "emma", "emma");
    assert Includes("emma", "emma");
  }

  /** The blank check trims the query but matching does not: a query with
      a leading space is searched for as typed, so it misses a title it
      would match without the space. */
  lemma UntrimmedQueryExample()
    ensures var dune := TitleOnly(1, "dune");
            Trim(" dune") != "" && Matches(dune, "dune") && !Matches(dune, " dune")
  {
    SpaceDuneNotBlank();
    DuneMatchesDune();
    DuneMissesSpaceDune();
  }

  lemma SpaceDuneNotBlank()
    ensures Trim(" dune") != ""
  {
    assert 'a' <= " dune"[1] <= 'z';
    NotBlank(" dune");
  }

  lemma DuneMissesSpaceDune()
    ensures !Matches(TitleOnly(1, "dune"), " dune")
  {
    MatchTitleOnly(1, "dune", " dune");
  }

  lemma DuneMatchesDune()
    ensures Matches(TitleOnly(1, "dune"), "dune")
  {
    MatchTitleOnly(1, "dune", "dune");
    assert Includes("dune", "dune");
  }

  /** A listing with only a title; the examples write their titles in
      lower case. */
  function TitleOnly(id: int, title: string): Book {
    Book(id, title, "", "", "", "", "", "", "", "", true)
  }

  lemma MatchTitleOnly(id: int, title: string, query: string)
    requires forall i :: 0 <= i < |title| ==> 'a' <= title[i] <= 'z'
    requires forall i :: 0 <= i < |query| ==> query[i] == ' ' || 'a' <= query[i] <= 'z'
    requires |query| > 0
    ensures Matches(TitleOnly(id, title), query) <==> Includes(title, query)
  {
    ToLowerNoUpper(title);
    ToLowerNoUpper(query);
    ToLowerNoUpper("");
  }

  lemma NotBlank(s: string)
    requires exists i :: 0 <= i < |s| && 'a' <= s[i] <= 'z'
    ensures Trim(s) != ""
  {
    TrimEmptyIffAllWhiteSpace(s);
  }

  /** `contactInfo` in `handleOrderBook`. */
  function ContactInfo(b: Book): (r: string)
    ensures b.phoneNumber != "" ==> r == "at " + b.phoneNumber
    ensures b.phoneNumber == "" ==> r == "through their profile"
  {
    if b.phoneNumber != "" then "at " + b.phoneNumber else "through their profile"
  }

  /** The alert `handleOrderBook` shows: it quotes the book's title and
      then names its owner. */
  function OrderMessage(b: Book): (m: string)
    ensures OccursAt(m, "\"" + b.title + "\"", |"Interested in "|)
    ensures OccursAt(m, b.ownerUsername, |"Interested in \"" + b.title + "\"? Contact "|)
  {
    var head := "Interested in \"" + b.title + "\"? Contact ";
    var msg := head + b.ownerUsername + " " + ContactInfo(b) + " to arrange the exchange!";
    assert msg[|"Interested in "|..|"Interested in "| + |"\"" + b.title + "\""|] == "\"" + b.title + "\"";
    assert msg[|head|..|head| + |b.ownerUsername|] == b.ownerUsername;
    msg
  }

  /** The order message gives the owner's phone number when the listing
      has one, and points to the profile otherwise. */
  lemma OrderMessageContact(b: Book)
    ensures b.phoneNumber != "" ==> Includes(OrderMessage(b), "at " + b.phoneNumber)
    ensures b.phoneNumber == "" ==> Includes(OrderMessage(b), "through their profile")
  {
    var m := OrderMessage(b);
    var head := "Interested in \"" + b.title + "\"? Contact " + b.ownerUsername + " ";
    var info := ContactInfo(b);
    assert m == head + info + " to arrange the exchange!";
    assert m[|head|..|head| + |info|] == info;
    assert OccursAt(m, info, |head|);
    IncludesIffOccurs(m, info);
  }

  /** What `handleContactOwner` does: dial the number, or tell the user
      whom to contact. */
  datatype ContactAction = OpenUrl(url: string) | Alert(text: string)

  function ContactOwner(b: Book): (a: ContactAction)
    ensures a.OpenUrl? <==> b.phoneNumber != ""
    ensures a.OpenUrl? ==> a.url == "tel:" + b.phoneNumber
  {
    if b.phoneNumber != "" then OpenUrl("tel:" + b.phoneNumber)
    else Alert("Contact " + b.ownerUsername + " for this book")
  }

  /** The state of the panel: the `filteredBooks` prop and the component's
      `allBooks`, `displayBooks`, `searchQuery`, `isLoading`, `isRefreshing`. */
  class BooksDisplay {
    var filteredBooks: seq<Book>
    var allBooks: seq<Book>
    var displayBooks: seq<Book>
    var searchQuery: string
    var isLoading: bool
    var isRefreshing: bool

    /** The panel shows either the recommendations or books from the listing,
        in listing order. */
    predicate Valid()
      reads this
    {
      displayBooks == filteredBooks || IsSubsequence(displayBooks, allBooks)
    }

    /** Mounting: the initial state, then both effects; the fetch of the
        listing has started and is pending. The recommendations passed in
        are shown. */
    constructor Mount(filtered: seq<Book>)
      ensures Valid()
      ensures filteredBooks == filtered && allBooks == [] && displayBooks == filtered
      ensures searchQuery == "" && isLoading && !isRefreshing
    {
      filteredBooks := filtered;
      allBooks := [];
      displayBooks := [];
      searchQuery := "";
      isLoading := true;
      isRefreshing := false;
      new;
      RecommendationEffect();
      SearchEffect();
    }

    /** The first effect. */
    method RecommendationEffect()
      modifies this
      ensures Valid()
      ensures displayBooks == RecommendationDisplay(filteredBooks, allBooks)
      ensures filteredBooks == old(filteredBooks) && allBooks == old(allBooks) && searchQuery == old(searchQuery)
      ensures isLoading == old(isLoading) && isRefreshing == old(isRefreshing)
    {
      if |filteredBooks| > 0 {
        displayBooks := filteredBooks;
      } else {
        displayBooks := allBooks;
        IsSubsequenceRefl(allBooks);
      }
    }

    /** The second effect. */
    method SearchEffect()
      requires Valid()
      modifies this
      ensures Valid()
      ensures displayBooks == SearchDisplay(old(displayBooks), filteredBooks, allBooks, searchQuery)
      ensures filteredBooks == old(filteredBooks) && allBooks == old(allBooks) && searchQuery == old(searchQuery)
      ensures isLoading == old(isLoading) && isRefreshing == old(isRefreshing)
    {
      if Trim(searchQuery) != "" {
        displayBooks := Filter(allBooks, MatchesQuery(searchQuery));
        SearchResultsSpec(allBooks, searchQuery);
      } else if |filteredBooks| == 0 {
        displayBooks := allBooks;
        IsSubsequenceRefl(allBooks);
      }
    }

    /** New recommendations arrive as a new `filteredBooks` array: both
        effects run. */
    method ReceiveFilteredBooks(books: seq<Book>)
      modifies this
      ensures Valid()
      ensures filteredBooks == books && displayBooks == Shown(books, allBooks, searchQuery)
      ensures allBooks == old(allBooks) && searchQuery == old(searchQuery)
      ensures isLoading == old(isLoading) && isRefreshing == old(isRefreshing)
    {
      filteredBooks := books;
      RecommendationEffect();
      SearchEffect();
    }

    /** Typing in the search box: a changed query runs only the second
        effect; the same query re-renders nothing. */
    method ChangeSearchQuery(query: string)
      requires Valid()
      modifies this
      ensures Valid()
      ensures searchQuery == query
      ensures displayBooks == (if query == old(searchQuery) then old(displayBooks)
                               else SearchDisplay(old(displayBooks), filteredBooks, allBooks, query))
      ensures filteredBooks == old(filteredBooks) && allBooks == old(allBooks)
      ensures isLoading == old(isLoading) && isRefreshing == old(isRefreshing)
    {
      if query != searchQuery {
        searchQuery := query;
        SearchEffect();
      }
    }

    /** `fetchAllBooks` once `getAllBooks` has settled. On success the
        handler sets the listing and the display to the fetched books, and
        the new `allBooks` then runs both effects, so what stays on screen is
        Shown of the new listing; on failure nothing but the loading flag
        changes. */
    method FetchAllBooks(outcome: Result<seq<Book>>)
      requires Valid()
      modifies this
      ensures Valid()
      ensures !isLoading
      ensures outcome.Ok? ==> allBooks == outcome.value
                              && displayBooks == Shown(filteredBooks, outcome.value, searchQuery)
      ensures outcome.Err? ==> allBooks == old(allBooks) && displayBooks == old(displayBooks)
      ensures filteredBooks == old(filteredBooks) && searchQuery == old(searchQuery)
      ensures isRefreshing == old(isRefreshing)
    {
      if outcome.Ok? {
        allBooks := outcome.value;
        displayBooks := outcome.value;
        RecommendationEffect();
        SearchEffect();
      }
      isLoading := false;
    }

    /** `handleRefresh`: refetch, then call `onRefresh` when given. The
        fetch never throws, so `onRefresh` is called whatever the outcome,
        and the refreshing flag ends off. */
    method HandleRefresh(outcome: Result<seq<Book>>, hasOnRefresh: bool)
      returns (refreshCalled: bool)
      requires Valid()
      modifies this
      ensures Valid()
      ensures refreshCalled == hasOnRefresh
      ensures !isRefreshing && !isLoading
      ensures outcome.Ok? ==> allBooks == outcome.value
                              && displayBooks == Shown(filteredBooks, outcome.value, searchQuery)
      ensures outcome.Err? ==> allBooks == old(allBooks) && displayBooks == old(displayBooks)
      ensures filteredBooks == old(filteredBooks) && searchQuery == old(searchQuery)
    {
      isRefreshing := true;
      FetchAllBooks(outcome);
      refreshCalled := hasOnRefresh;
      isRefreshing := false;
    }
  }
}
