# FindMyQuote speechlet: session-backed pagination, in Dafny

This project models the core of `FindMyQuoteSpeechlet`, a voice skill that finds the movie a
quote comes from. A first request ("GetFirstMovieIntent") takes the spoken phrase from the
intent, escapes its spaces for the QuoDB search URL, turns the documents QuoDB returns into one
sentence per movie, reads out the first page and stores the full list and a cursor in the
conversation's session. Each later "next" request ("GetNextMovieIntent") reads the page at the
cursor, asks whether to go on only when sentences remain, and writes the advanced cursor back.

Modules, one per part of the source file:

- `Wrappers`: `Option` (a Java reference that may be null, a session attribute that may be
  absent) and `Result` (a value, or the exception a call throws).
- `Decimal`: `Integer.toString` on a Java `int`, and the parse that inverts it.
- `PathEscape`: `replaceAll(" ", "%20")` on the phrase, and `replaceAll("%20", " ")` to state
  exactly when the escaping can be undone.
- `ResultParser`: `parseMovieJson` over already-decoded documents (`Doc`: title, year,
  phrase). The empty text that a failed download yields is the `EmptyText` payload.
- `Rendering`: the builder output (`Joined`, `Paragraphs`), the `<speak>` wrapper, and the
  response record (`Tell`, or `Ask` with a reprompt and a `Card`).
- `Pagination`: the constants `PAGINATION_SIZE` (1), `SESSION_INDEX`, `SESSION_TEXT`, the
  `Session` class with the two attributes as fields (`text`, `index`), `getPhrase`, the two
  handlers as methods with their loops, and the cursor arithmetic.

The session's states are: no search (both attributes absent), active (cursor below the list
length) and exhausted (cursor at the list length). `Session.Valid()` is the invariant both
handlers keep: the attributes are present together and `PAGINATION_SIZE <= index <= |text|`.
`ThreeMatchConversation` is a client that runs one conversation over three matches through
the handlers' contracts, and asserts what each step speaks and where the cursor ends up.

Where the code and the intended design differ, the model follows the code:

- An empty payload gives a one-element list holding the apology sentence, not an empty list.
  So a failed download reaches the first page as if it were a match. Only a payload whose
  `docs` array is empty gives the "QuoDB could not find a movie" response.
- The first page always ends with "There more movies with a similar quote…", even when the
  search found a single movie.
- The first item's prefix is "The quote is possibly, ". The page header is a separate
  `<p>For phrase</p>` paragraph.
- A "next" request in a session without a cursor throws (see Findings). It does not give the
  usage hint.
- Nothing is XML-escaped before it goes into the speech. A phrase, title or quote holding `&`
  or `<` (a title such as "Dumb & Dumber") makes the output invalid SSML. `Speak` only
  promises the `<speak>` wrapper around the unchanged body.
- A search that finds nothing (an empty `docs` array) writes nothing to the session. The tell
  response ends the conversation, so the old attributes are never read again.
  `EmptySearchLeavesSession` runs this through the handler's contract.
- The first page's card separates items with a newline. Later pages' cards use a space, and
  their continuation question ends in "??".

## Model

| member | source | states |
|---|---|---|
| `Decimal.NatToDecimal` | src/main/java/findmyquote/FindMyQuoteSpeechlet.java:391 | the digits of a year's magnitude are at least one decimal digit, with no leading zero unless the value is 0 |
| `Decimal.IntToDecimal` | src/main/java/findmyquote/FindMyQuoteSpeechlet.java:391 | `Integer.toString` is non-empty and starts with '-' exactly for a negative year |
| `Decimal.DecimalRoundTrip` | src/main/java/findmyquote/FindMyQuoteSpeechlet.java:391 | the year as written is a well-formed decimal that reads back as the same number |
| `PathEscape.EscapeSpaces` | src/main/java/findmyquote/FindMyQuoteSpeechlet.java:217-218 | the path-ready phrase holds no space and is at least as long as the phrase |
| `PathEscape.EscapeConcat` | src/main/java/findmyquote/FindMyQuoteSpeechlet.java:218 | escaping works character by character: it distributes over concatenation |
| `PathEscape.EscapeChar` | src/main/java/findmyquote/FindMyQuoteSpeechlet.java:218 | a space becomes "%20" and every other character is kept |
| `PathEscape.EscapeKeepsSpaceFree` | src/main/java/findmyquote/FindMyQuoteSpeechlet.java:218 | a phrase without spaces is left unchanged |
| `PathEscape.EscapeIdempotent` | src/main/java/findmyquote/FindMyQuoteSpeechlet.java:218 | escaping twice is the same as escaping once |
| `PathEscape.UnescapeSpaces` | src/main/java/findmyquote/FindMyQuoteSpeechlet.java:218 | the reverse replacement never lengthens a string, and keeps its length exactly when there is no "%20" to replace |
| `PathEscape.EscapedStarts20` | src/main/java/findmyquote/FindMyQuoteSpeechlet.java:218 | an escaped phrase begins with "20" only if the phrase does |
| `PathEscape.UnescapeInvertsEscape` | src/main/java/findmyquote/FindMyQuoteSpeechlet.java:218 | a phrase with no literal "%20" is recovered by replacing "%20" with spaces |
| `PathEscape.UnescapeEscapeShrinks` | src/main/java/findmyquote/FindMyQuoteSpeechlet.java:218 | escaping then unescaping strictly shortens a phrase that holds a literal "%20" |
| `PathEscape.EscapeRoundTripIff` | src/main/java/findmyquote/FindMyQuoteSpeechlet.java:218 | unescaping recovers the phrase if and only if the phrase held no literal "%20" |
| `ResultParser.MovieText` | src/main/java/findmyquote/FindMyQuoteSpeechlet.java:393-402 | the two item templates: "The quote is possibly, " at position 0, "Another matching quote is, " after it, then the quote, ", from the movie ", the title, ", which came out in " and the year (properties in `MovieTextPrefix` and `MovieTextYear`) |
| `ResultParser.MovieList` | src/main/java/findmyquote/FindMyQuoteSpeechlet.java:374-406 | the list `parseMovieJson` returns: the apology alone for an empty text, otherwise `MovieText(i, docs[i])` for each position (the method `ParseMovieJson` is proved against it) |
| `ResultParser.ParseMovieJson` | src/main/java/findmyquote/FindMyQuoteSpeechlet.java:374-406 | an empty text gives exactly the one apology sentence; N documents give N sentences in document order, the i-th from the i-th document alone, with the first-item template at 0 and the other template after |
| `ResultParser.ParseDocs` | src/main/java/findmyquote/FindMyQuoteSpeechlet.java:387-404 | the loop over the `docs` array yields one sentence per document, in order, each from its own document and position |
| `ResultParser.MovieTextPrefix` | src/main/java/findmyquote/FindMyQuoteSpeechlet.java:393-402 | a sentence starts with "The quote is possibly, " iff it is at position 0, and with "Another matching quote is, " iff it is at a later position |
| `ResultParser.MovieTextYear` | src/main/java/findmyquote/FindMyQuoteSpeechlet.java:390-396 | every sentence ends with ", which came out in " and the year, and that tail reads back as the document's year |
| `ResultParser.MovieListPrefixes` | src/main/java/findmyquote/FindMyQuoteSpeechlet.java:387-404 | in the parsed list, the prefix depends on the absolute position only, so later pages never repeat the first-item prefix |
| `Rendering.Joined` | src/main/java/findmyquote/FindMyQuoteSpeechlet.java:305-310 | what a `StringBuilder` holds after appending `open + item + close` for each item in order (properties in `JoinedAppend` and `JoinedSnoc`) |
| `Rendering.Paragraphs` | src/main/java/findmyquote/FindMyQuoteSpeechlet.java:236-242 | the speech items, each as `<p>` + item + `</p> `, as both builder loops append them |
| `Rendering.JoinedAppend` | src/main/java/findmyquote/FindMyQuoteSpeechlet.java:303-312 | appending the rendering of two runs of items equals rendering their concatenation |
| `Rendering.JoinedSnoc` | src/main/java/findmyquote/FindMyQuoteSpeechlet.java:306-310 | one builder step appends `open + item + close` to the rendering so far |
| `Rendering.Speak` | src/main/java/findmyquote/FindMyQuoteSpeechlet.java:328 | the output speech is wrapped in `<speak>`…`</speak>` and the body between them is exactly what the handler built |
| `Pagination.Session.constructor` | src/main/java/findmyquote/FindMyQuoteSpeechlet.java:104-111 | a new conversation has neither attribute, which satisfies the session invariant |
| `Pagination.GetPhrase` | src/main/java/findmyquote/FindMyQuoteSpeechlet.java:190-197 | a null intent gives the string "null"; a missing phrase slot throws; otherwise the slot's value, which may be null |
| `Pagination.SearchResults` | src/main/java/findmyquote/FindMyQuoteSpeechlet.java:218-220 | the result list for a phrase: `parseMovieJson` of what the lookup yields for the URL prefix followed by the escaped phrase |
| `Pagination.PageEnd` | src/main/java/findmyquote/FindMyQuoteSpeechlet.java:305-312 | from a cursor inside the list, the loop reads at least one and at most PAGINATION_SIZE sentences, and fewer only at the end of the list |
| `Pagination.Advance` | src/main/java/findmyquote/FindMyQuoteSpeechlet.java:299-317 | a "next" request never moves the cursor back or past the end, and leaves it where it is exactly when it is at the end |
| `Pagination.AdvanceTimes` | src/main/java/findmyquote/FindMyQuoteSpeechlet.java:299-317 | any number of "next" requests keep the cursor between its start and the list length |
| `Pagination.AdvanceTimesIsMin` | src/main/java/findmyquote/FindMyQuoteSpeechlet.java:305-317 | after k "next" requests the cursor is min(start + k * PAGINATION_SIZE, length) |
| `Pagination.ConversationExhausts` | src/main/java/findmyquote/FindMyQuoteSpeechlet.java:258-317 | after the first page of n sentences, fewer than n - 1 "next" requests leave sentences to read; n - 1 or more leave the cursor exactly at the end |
| `Pagination.PagesConcatenate` | src/main/java/findmyquote/FindMyQuoteSpeechlet.java:303-312 | consecutive pages, in speech and on the card, together render exactly the sentences between the first page's start and the last page's end, in order |
| `Pagination.HandleFirstEventRequest` | src/main/java/findmyquote/FindMyQuoteSpeechlet.java:209-264 | no phrase throws and changes nothing; an empty result list gives the "could not find" tell response and changes nothing; otherwise the exact first-page speech and card, with text set to the whole list and index to PAGINATION_SIZE whatever the session held; the session invariant is kept |
| `Pagination.ReadFirstPage` | src/main/java/findmyquote/FindMyQuoteSpeechlet.java:232-245 | the first-page speech is the "For" header, the first PAGINATION_SIZE sentences as paragraphs and the question; the card is the same sentences one per line |
| `Pagination.UsageResponse` | src/main/java/findmyquote/FindMyQuoteSpeechlet.java:295-298 | the ask response with the usage hint as speech, the next-request reprompt and a card titled "Other movies with similar quotes" with empty content |
| `Pagination.NoMoreResponse` | src/main/java/findmyquote/FindMyQuoteSpeechlet.java:299-301 | the ask response saying there are no more matching movies, with the same reprompt and an empty card |
| `Pagination.ServesNextPage` | src/main/java/findmyquote/FindMyQuoteSpeechlet.java:299-320 | once both attributes are present: at or past the end, the no-more response and no write; a negative cursor throws and writes nothing; otherwise exactly `events[index..PageEnd]` in speech and on the card, the question iff sentences remain, the list kept and the cursor set to `PageEnd` |
| `Pagination.HandleNextEventRequest` | src/main/java/findmyquote/FindMyQuoteSpeechlet.java:289-331 | a missing cursor throws; a missing list gives the usage hint; a cursor at or past the end says there is nothing more and writes nothing; a negative cursor throws; otherwise it reads exactly `events[index..PageEnd]`, asks to go on iff the new cursor is below the length, and stores the new cursor; a valid session with a cursor never throws and moves as `Advance` says |
| `Pagination.HandleNextEventRequestChecked` | src/main/java/findmyquote/FindMyQuoteSpeechlet.java:291-298 | with the list tested before the cursor is unboxed, a session without a list gets the usage hint, and a valid session never throws |
| `Pagination.NextOnNewSession` | src/main/java/findmyquote/FindMyQuoteSpeechlet.java:291-292 | a "next" request as the first request of a conversation throws a null-pointer exception |
| `Pagination.CheckedNextOnNewSession` | src/main/java/findmyquote/FindMyQuoteSpeechlet.java:295-298 | with the reordered test, the same request gets the usage hint |

## Findings

| source | as written | input that shows it | evidently intended | confidence | as-written member | corrected member |
|---|---|---|---|---|---|---|
| src/main/java/findmyquote/FindMyQuoteSpeechlet.java:291-298 | `(Integer) session.getAttribute(SESSION_INDEX)` unboxes the cursor before `events == null` is tested, so a missing cursor throws a null-pointer exception | a "next" request in a conversation that has not searched yet (neither attribute set) | the `events == null` branch answers with the usage hint | not executed | `Pagination.NextOnNewSession` | `Pagination.HandleNextEventRequestChecked` |

## Left out

- The QuoDB download (`getJsonEventsFromQuoDB`, :342-365) is network I/O. `HandleFirstEventRequest` takes its outcome as the parameter `lookup`: the payload fetched for each URL, with any `IOException` already folded to `EmptyText`.
- JSON decoding in `parseMovieJson` (:383-392) belongs to the org.json library. The model takes the decoded `docs` array. A malformed payload, which makes the code throw a `JSONException` it does not catch, is not modelled.
- `newAskResponse`, `SimpleCard`, `SsmlOutputSpeech` and `SpeechletResponse` belong to the host SDK. `Response` is a record of the strings and the tell/ask choice they carry.
- `onSessionStarted`, `onSessionEnded` and `onLaunch` only log. The intent dispatch and canned texts of `onIntent` (:131-156) and `getWelcomeResponse` are thin dispatch and are not modelled.
- The "could not understand your quote" branch (:265-273) cannot be reached. `phrase.equals(null)` is false for every non-null phrase, and a null phrase throws before the test. The model keeps the throw and omits the branch.
- The host may serialize session attributes between requests. The model keeps them as typed fields, so the casts at :291-292 never fail with a `ClassCastException`.
- Logging and `System.out.println` are not modelled.
- `ReadFirstPage` requires at least PAGINATION_SIZE results. With PAGINATION_SIZE = 1, every non-empty list meets this, so the `IndexOutOfBoundsException` that a larger constant would cause on a short list is not modelled.
