/**
 * The two intent handlers of the speechlet: a first request searches QuoDB, reads the first
 * page and stores the whole result list and a cursor in the session; each "next" request reads
 * the page at the cursor and writes the advanced cursor back.
 */
module Pagination {
  import opened Wrappers
  import opened PathEscape
  import opened ResultParser
  import opened Rendering

  /** Number of movies read out per request. */
  const PAGINATION_SIZE: nat := 1

  /** Session attribute key of the cursor (modelled by `Session.index`). */
  const SESSION_INDEX := "index"

  /** Session attribute key of the result list (modelled by `Session.text`). */
  const SESSION_TEXT := "text"

  /** Intent slot that carries the spoken quote. */
  const SLOT_PHRASE := "phrase"

  /** The QuoDB search endpoint; the escaped phrase is appended as the last path segment. */
  const URL_PREFIX := "http://api.quodb.com/search/"

  const NOT_FOUND_SPEECH := "QuoDB could not find a movie for your quote. Sorry. "
  const FIRST_QUESTION := " There more movies with a similar quote, would you like to get another movie?"
  const USAGE_HINT := "With Find My Quote, you can get movie information for any quote you say. For example, you could say 'No, I am your father'"
  const NEXT_CARD_TITLE := "Other movies with similar quotes"
  const NO_MORE_SPEECH := "There are no more matching movies for this quote."
  const NEXT_QUESTION_SPEECH := " Want to go deeper into movie awesomeness, and get more movies for this quote?"
  const NEXT_QUESTION_CARD := " Want to go deeper into movie awesomeness, and get more movies for this quote??"
  const NEXT_REPROMPT := "Do you want to know more about what happened on this date?"

  /** The Java exceptions the handlers can throw. */
  datatype Exception = NullPointer | IndexOutOfBounds

  /** An intent slot; its value is null when the user filled nothing in. */
  datatype Slot = Slot(value: Option<string>)

  datatype Intent = Intent(name: string, slots: map<string, Slot>)

  /** The two attributes the handlers keep in the host's session. */
  class Session {
    /** The attribute under SESSION_TEXT: every sentence of the current search, or absent. */
    var text: Option<seq<string>>
    /** The attribute under SESSION_INDEX: the position of the next sentence to read, or absent. */
    var index: Option<int>

    /** A new conversation, with neither attribute set. */
    constructor ()
      ensures text == None && index == None
      ensures Valid()
    {
      text := None;
      index := None;
    }

    /**
     * What the handlers keep true: no search yet (both absent), or a search whose first page
     * has been read and whose cursor lies within the result list.
     */
    ghost predicate Valid()
      reads this
    {
      (text.Some? <==> index.Some?)
      && (index.Some? ==> PAGINATION_SIZE <= index.value <= |text.value|)
    }
  }

  /** `getPhrase`: the phrase slot's value, "null" for a null intent; a missing slot throws. */
  function GetPhrase(intent: Option<Intent>): (r: Result<Option<string>, Exception>)
    ensures intent.None? ==> r == Ok(Some("null"))
    ensures r.Err? <==> intent.Some? && SLOT_PHRASE !in intent.value.slots
    ensures r.Err? ==> r.error == NullPointer
    ensures r.Ok? && intent.Some? ==> r.value == intent.value.slots[SLOT_PHRASE].value
  {
    match intent
    case None => Ok(Some("null"))
    case Some(i) => if SLOT_PHRASE in i.slots then Ok(i.slots[SLOT_PHRASE].value) else Err(NullPointer)
  }

  /** The request carries a non-null phrase. */
  predicate HasPhrase(intent: Option<Intent>) {
    GetPhrase(intent).Ok? && GetPhrase(intent).value.Some?
  }

  function Phrase(intent: Option<Intent>): string
    requires HasPhrase(intent)
  {
    GetPhrase(intent).value.value
  }

  /** The result list for a phrase, given what the QuoDB lookup of each URL yields. */
  function SearchResults(phrase: string, lookup: string -> Payload): seq<string> {
    MovieList(lookup(URL_PREFIX + EscapeSpaces(phrase)))
  }

  function Min(a: int, b: int): int {
    if a <= b then a else b
  }

  /**
   * Where the loop of `handleNextEventRequest` stops when it starts at `index` inside a list of
   * `n` sentences: it reads at least one and at most PAGINATION_SIZE, and fewer only at the end.
   */
  function PageEnd(index: int, n: int): (next: int)
    requires 0 <= index < n
    ensures index < next <= n
    ensures next - index <= PAGINATION_SIZE
    ensures next < n ==> next - index == PAGINATION_SIZE
  {
    if index + PAGINATION_SIZE < n then index + PAGINATION_SIZE else n
  }

  /** The cursor after one "next" request on a valid session: unchanged once the list is used up. */
  function Advance(index: int, n: int): (next: int)
    requires 0 <= index <= n
    ensures index <= next <= n
    ensures next == index <==> index == n
  {
    if index >= n then index else PageEnd(index, n)
  }

  /** The cursor after `k` further "next" requests. */
  function AdvanceTimes(k: nat, index: int, n: int): (next: int)
    requires 0 <= index <= n
    ensures index <= next <= n
  {
    if k == 0 then index else Advance(AdvanceTimes(k - 1, index, n), n)
  }

  /** Each "next" request moves the cursor on by one page until it reaches the end. */
  lemma {:induction false} AdvanceTimesIsMin(k: nat, index: int, n: int)
    requires 0 <= index <= n
    ensures AdvanceTimes(k, index, n) == Min(index + k * PAGINATION_SIZE, n)
  {
    if k > 0 {
      AdvanceTimesIsMin(k - 1, index, n);
    }
  }

  /**
   * After the first page of a non-empty search, exactly n - 1 "next" requests read the rest:
   * every earlier one leaves sentences to read, and from then on the cursor stays at the end.
   */
  lemma ConversationExhausts(n: int, k: nat)
    requires PAGINATION_SIZE <= n
    ensures k < n - 1 ==> AdvanceTimes(k, PAGINATION_SIZE, n) < n
    ensures k >= n - 1 ==> AdvanceTimes(k, PAGINATION_SIZE, n) == n
  {
    AdvanceTimesIsMin(k, PAGINATION_SIZE, n);
  }

  /** Reading two consecutive pages speaks the same paragraphs as reading their union at once. */
  lemma PagesConcatenate(events: seq<string>, a: nat, b: nat, c: nat)
    requires a <= b <= c <= |events|
    ensures Paragraphs(events[a..b]) + Paragraphs(events[b..c]) == Paragraphs(events[a..c])
    ensures Joined(events[a..b], "", " ") + Joined(events[b..c], "", " ") == Joined(events[a..c], "", " ")
  {
    assert events[a..c] == events[a..b] + events[b..c];
    JoinedAppend(events[a..b], events[b..c], "<p>", "</p> ");
    JoinedAppend(events[a..b], events[b..c], "", " ");
  }

  /** The answer to "next" without a result list in the session. */
  function UsageResponse(): Response {
    Ask(Speak(USAGE_HINT), NEXT_REPROMPT, Card(NEXT_CARD_TITLE, ""))
  }

  /** The answer to "next" once the cursor has reached the end of the list. */
  function NoMoreResponse(): Response {
    Ask(Speak(NO_MORE_SPEECH), NEXT_REPROMPT, Card(NEXT_CARD_TITLE, ""))
  }

  /**
   * `handleFirstEventRequest`, with the QuoDB download given as `lookup` (the payload fetched
   * for each URL). A request without a phrase throws. An empty result list ends the
   * conversation with an apology and leaves the session alone. Otherwise the first page is read
   * out with the continuation question, and the session is reset to the new list with the
   * cursor just past the first page, whatever it held before.
   */
  method HandleFirstEventRequest(intent: Option<Intent>, lookup: string -> Payload, session: Session)
    returns (r: Result<Response, Exception>)
    modifies session
    ensures r.Err? <==> !HasPhrase(intent)
    ensures r.Err? ==> r.error == NullPointer && unchanged(session)
    ensures HasPhrase(intent) && SearchResults(Phrase(intent), lookup) == [] ==>
              r == Ok(Tell(Speak(NOT_FOUND_SPEECH))) && unchanged(session)
    ensures HasPhrase(intent) && SearchResults(Phrase(intent), lookup) != [] ==>
              var p, events := Phrase(intent), SearchResults(Phrase(intent), lookup);
              && PAGINATION_SIZE <= |events|
              && session.text == Some(events)
              && session.index == Some(PAGINATION_SIZE)
              && r == Ok(Ask(
                   Speak("<p>For " + p + "</p> " + Paragraphs(events[..PAGINATION_SIZE]) + FIRST_QUESTION),
                   USAGE_HINT,
                   Card("Movies for " + p, "For " + p + ", " + Joined(events[..PAGINATION_SIZE], "", "\n") + FIRST_QUESTION)))
    ensures old(session.Valid()) ==> session.Valid()
  {
    var got := GetPhrase(intent);
    if got.Err? {
      // intent.getSlot(SLOT_PHRASE) is null
      return Err(got.error);
    }
    if got.value.None? {
      // phrase.equals(null) on a null phrase
      return Err(NullPointer);
    }
    // A non-null phrase never equals null, so the "could not understand" branch is never taken.
    var phrase := got.value.value;
    var cardTitle := "Movies for " + phrase;
    var apiReadyPhrase := EscapeSpaces(phrase);
    var events := ParseMovieJson(lookup(URL_PREFIX + apiReadyPhrase));
    if |events| == 0 {
      return Ok(Tell(Speak(NOT_FOUND_SPEECH)));
    }
    var speech, card := ReadFirstPage(phrase, events);
    session.index := Some(PAGINATION_SIZE);
    session.text := Some(events);
    r := Ok(Ask(Speak(speech), USAGE_HINT, Card(cardTitle, card)));
  }

  /**
   * The builder loop of `handleFirstEventRequest`: the "For" header, the first PAGINATION_SIZE
   * sentences (as paragraphs in speech, one per line on the card), then the continuation question.
   */
  method ReadFirstPage(phrase: string, events: seq<string>) returns (speech: string, card: string)
    requires PAGINATION_SIZE <= |events|
    ensures speech == "<p>For " + phrase + "</p> " + Paragraphs(events[..PAGINATION_SIZE]) + FIRST_QUESTION
    ensures card == "For " + phrase + ", " + Joined(events[..PAGINATION_SIZE], "", "\n") + FIRST_QUESTION
  {
    var speechPrefixContent := "<p>For " + phrase + "</p> ";
    var cardPrefixContent := "For " + phrase + ", ";
    speech := speechPrefixContent;
    card := cardPrefixContent;
    for i := 0 to PAGINATION_SIZE
      invariant speech == speechPrefixContent + Paragraphs(events[..i])
      invariant card == cardPrefixContent + Joined(events[..i], "", "\n")
    {
      assert events[..i + 1] == events[..i] + [events[i]];
      JoinedSnoc(events[..i], events[i], "<p>", "</p> ");
      JoinedSnoc(events[..i], events[i], "", "\n");
      speech := speech + "<p>" + events[i] + "</p> ";
      card := card + events[i] + "\n";
    }
    speech := speech + FIRST_QUESTION;
    card := card + FIRST_QUESTION;
  }

  /**
   * What a "next" request does once both attributes are present: past the end it says there is
   * nothing more; a negative cursor throws; otherwise it reads the page from the cursor, asks
   * whether to go on exactly when sentences remain, and stores the advanced cursor.
   */
  twostate predicate ServesNextPage(session: Session, new r: Result<Response, Exception>)
    reads session
    requires old(session.text).Some? && old(session.index).Some?
  {
    var events, index := old(session.text).value, old(session.index).value;
    if index >= |events| then
      r == Ok(NoMoreResponse()) && unchanged(session)
    else if index < 0 then
      r == Err(IndexOutOfBounds) && unchanged(session)
    else
      var next := PageEnd(index, |events|);
      var more := next < |events|;
      && session.text == old(session.text)
      && session.index == Some(next)
      && r == Ok(Ask(
           Speak(Paragraphs(events[index..next]) + (if more then NEXT_QUESTION_SPEECH else "")),
           NEXT_REPROMPT,
           Card(NEXT_CARD_TITLE, Joined(events[index..next], "", " ") + (if more then NEXT_QUESTION_CARD else ""))))
  }

  /**
   * `handleNextEventRequest`. The cursor is unboxed before the result list is checked, so a
   * session without a cursor throws, a new one included. On a valid session with a cursor it
   * never throws and moves the cursor as `Advance` says; every valid session stays valid.
   */
  method HandleNextEventRequest(session: Session) returns (r: Result<Response, Exception>)
    modifies session
    ensures old(session.index).None? ==> r == Err(NullPointer) && unchanged(session)
    ensures old(session.index).Some? && old(session.text).None? ==>
              r == Ok(UsageResponse()) && unchanged(session)
    ensures old(session.index).Some? && old(session.text).Some? ==> ServesNextPage(session, r)
    ensures old(session.Valid()) ==> session.Valid()
    ensures old(session.Valid()) && old(session.index).Some? ==>
              && r.Ok?
              && session.index == Some(Advance(old(session.index).value, |old(session.text).value|))
  {
    var events := session.text;
    if session.index.None? {
      // (Integer) session.getAttribute(SESSION_INDEX) unboxes null
      return Err(NullPointer);
    }
    var index := session.index.value;
    if events.None? {
      return Ok(UsageResponse());
    }
    var ev := events.value;
    if index >= |ev| {
      return Ok(NoMoreResponse());
    }
    if index < 0 {
      // events.get(index) in the first iteration, before anything is appended or stored
      return Err(IndexOutOfBounds);
    }
    ghost var start := index;
    var speech, card := "", "";
    var i := 0;
    while i < PAGINATION_SIZE && index < |ev|
      invariant 0 <= i <= PAGINATION_SIZE
      invariant index == start + i && index <= |ev|
      invariant speech == Paragraphs(ev[start..index])
      invariant card == Joined(ev[start..index], "", " ")
      invariant unchanged(session)
      decreases PAGINATION_SIZE - i
    {
      assert ev[start..index + 1] == ev[start..index] + [ev[index]];
      JoinedSnoc(ev[start..index], ev[index], "<p>", "</p> ");
      JoinedSnoc(ev[start..index], ev[index], "", " ");
      speech := speech + "<p>" + ev[index] + "</p> ";
      card := card + ev[index] + " ";
      index := index + 1;
      i := i + 1;
    }
    assert index == PageEnd(start, |ev|);
    if index < |ev| {
      speech := speech + NEXT_QUESTION_SPEECH;
      card := card + NEXT_QUESTION_CARD;
    } else {
      // On the last page the question part of the page is empty.
      assert speech + (if index < |ev| then NEXT_QUESTION_SPEECH else "") == speech;
      assert card + (if index < |ev| then NEXT_QUESTION_CARD else "") == card;
    }
    session.index := Some(index);
    r := Ok(Ask(Speak(speech), NEXT_REPROMPT, Card(NEXT_CARD_TITLE, card)));
  }

  /**
   * `handleNextEventRequest` with the `events == null` test made before the cursor is unboxed,
   * as its instructional branch intends: a conversation without a search gets the usage hint.
   */
  method HandleNextEventRequestChecked(session: Session) returns (r: Result<Response, Exception>)
    modifies session
    ensures old(session.text).None? ==> r == Ok(UsageResponse()) && unchanged(session)
    ensures old(session.text).Some? && old(session.index).None? ==>
              r == Err(NullPointer) && unchanged(session)
    ensures old(session.text).Some? && old(session.index).Some? ==> ServesNextPage(session, r)
    ensures old(session.Valid()) ==> r.Ok? && session.Valid()
  {
    if session.text.None? {
      return Ok(UsageResponse());
    }
    r := HandleNextEventRequest(session);
  }

  /** "Next" as the first request of a conversation throws instead of giving the usage hint. */
  method NextOnNewSession() returns (r: Result<Response, Exception>)
    ensures r == Err(NullPointer)
  {
    var session := new Session();
    r := HandleNextEventRequest(session);
  }

  /** With the test reordered, the same request gets the usage hint. */
  method CheckedNextOnNewSession() returns (r: Result<Response, Exception>)
    ensures r == Ok(UsageResponse())
  {
    var session := new Session();
    r := HandleNextEventRequestChecked(session);
  }

  /**
   * A conversation over three matches: the first request reads match 0, two "next" requests read
   * matches 1 and 2 (only the first of them ends with the continuation question), and a further
   * one has nothing left and leaves the cursor where it is.
   */
  method ThreeMatchConversation(phrase: string, d0: Doc, d1: Doc, d2: Doc)
  {
    var session := StartThreeMatchSearch(phrase, d0, d1, d2);
    ghost var events := MovieList(Docs([d0, d1, d2]));
    assert events[1..2] == [MovieText(1, d1)];
    var r := HandleNextEventRequest(session);
    assert r.Ok? && session.index == Some(2) && session.text == Some(events);
    assert r.value.ssml == Speak(Paragraphs([MovieText(1, d1)]) + NEXT_QUESTION_SPEECH);
    FinishThreeMatchConversation(session, d0, d1, d2);
  }

  /** The last two "next" requests of that conversation. */
  method FinishThreeMatchConversation(session: Session, d0: Doc, d1: Doc, d2: Doc)
    requires session.text == Some(MovieList(Docs([d0, d1, d2]))) && session.index == Some(2)
    modifies session
  {
    ghost var events := MovieList(Docs([d0, d1, d2]));
    assert |events| == 3 && events[2..3] == [MovieText(2, d2)];
    var r := HandleNextEventRequest(session);
    assert r.Ok? && session.index == Some(3);
    assert r.value.ssml == Speak(Paragraphs([MovieText(2, d2)]));
    r := HandleNextEventRequest(session);
    assert r == Ok(NoMoreResponse()) && session.index == Some(3);
  }

  /** The first request of that conversation: it reads match 0 and stores all three sentences. */
  method StartThreeMatchSearch(phrase: string, d0: Doc, d1: Doc, d2: Doc) returns (session: Session)
    ensures fresh(session)
    ensures session.text == Some(MovieList(Docs([d0, d1, d2]))) && session.index == Some(1)
    ensures |MovieList(Docs([d0, d1, d2]))| == 3
  {
    var intent := Some(Intent("GetFirstMovieIntent", map[SLOT_PHRASE := Slot(Some(phrase))]));
    session := new Session();
    var r := HandleFirstEventRequest(intent, _ => Docs([d0, d1, d2]), session);
    assert MovieList(Docs([d0, d1, d2]))[..1] == [MovieText(0, d0)];
    assert r.value.ssml == Speak("<p>For " + phrase + "</p> " + Paragraphs([MovieText(0, d0)]) + FIRST_QUESTION);
  }

  /**
   * The search handler alone, when a search finds nothing: a session that a two-match search
   * filled keeps both attributes as they were, and the answer is the "not found" tell. A tell
   * ends the conversation, so those attributes are never read again.
   */
  method EmptySearchLeavesSession(phrase: string, other: string, d0: Doc, d1: Doc)
  {
    var session := new Session();
    var first := Some(Intent("GetFirstMovieIntent", map[SLOT_PHRASE := Slot(Some(phrase))]));
    var r := HandleFirstEventRequest(first, _ => Docs([d0, d1]), session);
    ghost var events := MovieList(Docs([d0, d1]));
    assert |events| == 2;
    assert session.text == Some(events) && session.index == Some(1);
    var second := Some(Intent("GetFirstMovieIntent", map[SLOT_PHRASE := Slot(Some(other))]));
    r := HandleFirstEventRequest(second, _ => Docs([]), session);
    assert r == Ok(Tell(Speak(NOT_FOUND_SPEECH)));
    assert session.text == Some(events) && session.index == Some(1);
  }
}
