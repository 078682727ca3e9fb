/**
 * The two encodings a response carries: SSML speech (items as `<p>` paragraphs inside a
 * `<speak>` root) and the plain text of a simple card, plus the response record itself.
 */
module Rendering {

  /** What the string builders hold after appending `open + item + close` for each item in turn. */
  function Joined(items: seq<string>, open: string, close: string): string
    decreases |items|
  {
    if items == [] then ""
    else Joined(items[..|items| - 1], open, close) + open + items[|items| - 1] + close
  }

  /** Rendering consecutive runs of items and concatenating equals rendering the whole run. */
  lemma {:induction false} JoinedAppend(a: seq<string>, b: seq<string>, open: string, close: string)
    ensures Joined(a + b, open, close) == Joined(a, open, close) + Joined(b, open, close)
    decreases |b|
  {
    if b == [] {
      assert a + b == a;
    } else {
      var b' := b[..|b| - 1];
      var x := b[|b| - 1];
      assert (a + b)[..|a + b| - 1] == a + b';
      assert (a + b)[|a + b| - 1] == x;
      JoinedAppend(a, b', open, close);
      calc {
        Joined(a + b, open, close);
        Joined(a + b', open, close) + open + x + close;
        (Joined(a, open, close) + Joined(b', open, close)) + open + x + close;
        Joined(a, open, close) + (Joined(b', open, close) + open + x + close);
        Joined(a, open, close) + Joined(b, open, close);
      }
    }
  }

  /** One step of a builder loop: the rendering of `items + [x]` extends that of `items`. */
  lemma JoinedSnoc(items: seq<string>, x: string, open: string, close: string)
    ensures Joined(items + [x], open, close) == Joined(items, open, close) + open + x + close
  {
  }

  /** Speech items: each one a `<p>` paragraph followed by a space. */
  function Paragraphs(items: seq<string>): string {
    Joined(items, "<p>", "</p> ")
  }

  const SPEAK_OPEN := "<speak>"
  const SPEAK_CLOSE := "</speak>"

  /** Text wrapped in the SSML root element (nothing is said about what lies between the tags). */
  predicate IsSpeech(ssml: string) {
    |SPEAK_OPEN| + |SPEAK_CLOSE| <= |ssml|
    && ssml[..|SPEAK_OPEN|] == SPEAK_OPEN
    && ssml[|ssml| - |SPEAK_CLOSE|..] == SPEAK_CLOSE
  }

  /**
   * `"<speak>" + body + "</speak>"`: text wrapped in the SSML root element, from which the body is
   * recovered unchanged. The body is not XML-escaped, so a title or quote holding `&` or `<`
   * makes the result invalid SSML.
   */
  function Speak(body: string): (ssml: string)
    ensures IsSpeech(ssml)
    ensures ssml[|SPEAK_OPEN|..|ssml| - |SPEAK_CLOSE|] == body
  {
    SPEAK_OPEN + body + SPEAK_CLOSE
  }

  /** A `SimpleCard`: a title and plain-text content. */
  datatype Card = Card(title: string, content: string)

  /**
   * A `SpeechletResponse` with SSML output speech: a tell response ends the session; an ask
   * response keeps it open with a plain-text reprompt and carries a card.
   */
  datatype Response =
    | Tell(ssml: string)
    | Ask(ssml: string, reprompt: string, card: Card)
}
