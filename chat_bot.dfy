/** The AI advisor chat of components/chat-bot.tsx: the guard on sending,
    the append-only message list, the reply that lists the suggested books,
    and the three-tier choice of which books to recommend. */
module Chat {
  import opened Js
  import opened JsStrings
  import opened Api

  datatype Sender = User | Bot

  /** A chat message; its id and timestamp are left out. */
  datatype Message = Message(sender: Sender, content: string)

  const Greeting := "Hi! I'm your AI book advisor. Tell me what you're looking for - a specific genre, mood, or topic - and I'll recommend books from our community!"
  const Apology := "Sorry, I'm having trouble connecting right now. Please try again later."
  const ReplyIntro := "Based on your request, I found some great recommendations! Here's what I suggest:\n\n"

  /** One entry of `ai.suggested_books`. */
  datatype Suggestion = Suggestion(title: string, author: string, why: string)

  /** `filter_query`: optional title and author lists. */
  datatype FilterQuery = FilterQuery(titles: Option<seq<string>>, authors: Option<seq<string>>)

  /** The parts of an advice response the chat reads. */
  datatype Advice = Advice(suggested: seq<Suggestion>, matched: Option<seq<Book>>, filter: Option<FilterQuery>)

  /** The line for the suggestion at (zero-based) position `i`: its number,
      then the bold title and the author, and it ends in a newline. */
  function SuggestionLine(i: nat, s: Suggestion): (line: string)
    ensures |line| > 0 && line[|line| - 1] == '\n'
    ensures OccursAt(line, "**" + s.title + "** by " + s.author, |NatToDecimal(i + 1)| + 2)
  {
    var num := NatToDecimal(i + 1);
    var named := "**" + s.title + "** by " + s.author;
    var text := num + ". " + named + "\n   " + s.why + "\n";
    assert text[|num| + 2..|num| + 2 + |named|] == named;
    text
  }

  function SuggestionLines(ss: seq<Suggestion>): (lines: seq<string>)
    ensures |lines| == |ss|
  {
    seq(|ss|, i requires 0 <= i < |ss| => SuggestionLine(i, ss[i]))
  }

  /** The bot's reply: the fixed introduction, then the numbered lines
      joined by newlines. */
  function Reply(ss: seq<Suggestion>): (r: string)
    ensures |ReplyIntro| <= |r| && r[..|ReplyIntro|] == ReplyIntro
    ensures ss == [] ==> r == ReplyIntro
    ensures |ss| == 1 ==> r == ReplyIntro + SuggestionLine(0, ss[0])
  {
    ReplyIntro + Join(SuggestionLines(ss), "\n")
  }

  /** The suggestions are numbered 1 to n in the order the server returned
      them: the number in front of the i-th line reads as i + 1, and the
      line then names that suggestion's title. */
  lemma ReplyNumbering(ss: seq<Suggestion>, i: nat)
    requires i < |ss|
    ensures var line := SuggestionLines(ss)[i];
            var k := IndexOf(line, '.');
            && k < |line|
            && (forall c :: 0 <= c < k ==> IsDigit(line[c]))
            && DecimalValue(line[..k]) == i + 1
            && line[k..] == ". **" + ss[i].title + "** by " + ss[i].author + "\n   " + ss[i].why + "\n"
  {
    var line := SuggestionLines(ss)[i];
    var num := NatToDecimal(i + 1);
    assert line == num + (". **" + ss[i].title + "** by " + ss[i].author + "\n   " + ss[i].why + "\n");
    assert line[|num|] == '.';
    assert forall c :: 0 <= c < |num| ==> line[c] == num[c] && line[c] != '.';
    assert IndexOf(line, '.') == |num|;
    assert line[..|num|] == num;
    DecimalRoundTrip(i + 1);
  }

  /** `filter_query && (titles?.length > 0 || authors?.length > 0)`. */
  predicate HasFilter(f: Option<FilterQuery>) {
    f.Some? && (|OrEmpty(f.value.titles)| > 0 || |OrEmpty(f.value.authors)| > 0)
  }

  /** `searchBooks(data.filter_query)`: the filter's lists, no `q`. */
  function FilterSearch(f: FilterQuery): SearchQuery {
    SearchQuery(None, f.titles, f.authors)
  }

  /** The recommendations step: the search it issued, if any, and the
      books passed to `onRecommendations`. */
  datatype RecommendationStep = RecommendationStep(searched: Option<SearchQuery>, books: seq<Book>)

  /** The three tiers: the matched books when there are any; otherwise, when
      the filter names titles or authors, the result of searching for them
      (`[]` when the search fails); otherwise nothing. */
  function Recommend(a: Advice, search: Result<seq<Book>>): (r: RecommendationStep)
    ensures a.matched.Some? && |a.matched.value| > 0 ==> r == RecommendationStep(None, a.matched.value)
    ensures r.searched.Some? <==> !(a.matched.Some? && |a.matched.value| > 0) && HasFilter(a.filter)
    ensures r.searched.Some? ==>
              && r.searched.value == FilterSearch(a.filter.value)
              && r.books == (if search.Ok? then search.value else [])
    ensures !(a.matched.Some? && |a.matched.value| > 0) && !HasFilter(a.filter) ==> r.books == []
  {
    if a.matched.Some? && |a.matched.value| > 0 then RecommendationStep(None, a.matched.value)
    else if HasFilter(a.filter) then
      RecommendationStep(Some(FilterSearch(a.filter.value)), if search.Ok? then search.value else [])
    else RecommendationStep(None, [])
  }

  /** The search the chat falls back on sends only `titles` and `authors`
      pairs, never a `q`. The source forwards `filter_query` whole; this
      holds for the documented filter shape, which has no `q` field. */
  lemma FallbackSearchHasNoQuery(a: Advice, search: Result<seq<Book>>)
    requires Recommend(a, search).searched.Some?
    ensures var pairs := SearchPairs(Recommend(a, search).searched.value);
            forall k :: 0 <= k < |pairs| ==> pairs[k].0 == "titles" || pairs[k].0 == "authors"
  {
    SearchPairKeys(Recommend(a, search).searched.value);
  }

  /** The chat's state: `messages`, `inputValue`, `isLoading`. */
  class ChatBot {
    var messages: seq<Message>
    var inputValue: string
    var isLoading: bool

    /** The greeting stays first; the list only grows. */
    predicate Valid()
      reads this
    {
      |messages| >= 1 && messages[0] == Message(Bot, Greeting)
    }

    constructor()
      ensures Valid()
      ensures messages == [Message(Bot, Greeting)] && inputValue == "" && !isLoading
    {
      messages := [Message(Bot, Greeting)];
      inputValue := "";
      isLoading := false;
    }

    /** Typing into the input. */
    method ChangeInput(v: string)
      modifies this
      ensures inputValue == v && messages == old(messages) && isLoading == old(isLoading)
    {
      inputValue := v;
    }

    /** The guard of `handleSendMessage`: a blank input (after trimming) or
        a request in flight blocks the send. */
    predicate CanSend()
      reads this
      ensures CanSend() ==> inputValue != "" && !isLoading
    {
      Trim(inputValue) != "" && !isLoading
    }

    /** The guard blocks exactly the inputs made only of white space (the
        empty one included) and every send while a request is in flight. */
    lemma CanSendIff()
      ensures CanSend() <==> !AllWhiteSpace(inputValue) && !isLoading
    {
      TrimEmptyIffAllWhiteSpace(inputValue);
    }

    /** `handleSendMessage` up to the advice request: when the guard lets it
        through, the untrimmed input is appended as a user message, the
        input cleared and loading set, and the prompt to send is returned;
        otherwise nothing changes. */
    method SendMessage() returns (prompt: Option<string>)
      requires Valid()
      modifies this
      ensures Valid()
      ensures !old(CanSend()) ==>
                && prompt == None && messages == old(messages)
                && inputValue == old(inputValue) && isLoading == old(isLoading)
      ensures old(CanSend()) ==>
                && prompt == Some(old(inputValue))
                && messages == old(messages) + [Message(User, old(inputValue))]
                && inputValue == "" && isLoading
    {
      if Trim(inputValue) == "" || isLoading {
        return None;
      }
      messages := messages + [Message(User, inputValue)];
      var currentInput := inputValue;
      inputValue := "";
      isLoading := true;
      return Some(currentInput);
    }

    /** `handleSendMessage` after the advice request settles (and, in the
        second tier, after the search settles): the reply or the apology is
        appended, the recommendations are chosen, and loading ends. A failed
        advice request recommends nothing. */
    method ReceiveAdvice(advice: Result<Advice>, search: Result<seq<Book>>)
      returns (step: Option<RecommendationStep>)
      requires Valid()
      modifies this
      ensures Valid()
      ensures advice.Err? ==> messages == old(messages) + [Message(Bot, Apology)] && step == None
      ensures advice.Ok? ==>
                && messages == old(messages) + [Message(Bot, Reply(advice.value.suggested))]
                && step == Some(Recommend(advice.value, search))
      ensures !isLoading && inputValue == old(inputValue)
    {
      if advice.Ok? {
        var data := advice.value;
        messages := messages + [Message(Bot, Reply(data.suggested))];
        if data.matched.Some? && |data.matched.value| > 0 {
          step := Some(RecommendationStep(None, data.matched.value));
        } else if HasFilter(data.filter) {
          var results := if search.Ok? then search.value else [];
          step := Some(RecommendationStep(Some(FilterSearch(data.filter.value)), results));
        } else {
          step := Some(RecommendationStep(None, []));
        }
      } else {
        messages := messages + [Message(Bot, Apology)];
        step := None;
      }
      isLoading := false;
    }

    /** A whole `handleSendMessage` with nothing typed in between: a guarded
        send adds exactly the user message and then the reply (or the
        apology), hands on Recommend's step when the advice arrived, and
        ends with loading off. */
    method HandleSendMessage(advice: Result<Advice>, search: Result<seq<Book>>)
      returns (prompt: Option<string>, step: Option<RecommendationStep>)
      requires Valid()
      modifies this
      ensures Valid()
      ensures !old(CanSend()) ==>
                && prompt == None && step == None && messages == old(messages)
                && inputValue == old(inputValue) && isLoading == old(isLoading)
      ensures old(CanSend()) ==>
                && prompt == Some(old(inputValue))
                && messages == old(messages) + [Message(User, old(inputValue)),
                     Message(Bot, if advice.Ok? then Reply(advice.value.suggested) else Apology)]
                && step == (if advice.Ok? then Some(Recommend(advice.value, search)) else None)
                && inputValue == "" && !isLoading
    {
      step := None;
      prompt := SendMessage();
      if prompt.Some? {
        step := ReceiveAdvice(advice, search);
      }
    }
  }
}
