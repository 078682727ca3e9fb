/**
 * `parseMovieJson`: the decoded QuoDB documents become the ordered list of sentences the
 * skill reads out, one per document.
 */
module ResultParser {
  import opened Decimal

  /** One element of the `docs` array: its `title`, its `year` (read with `getInt`) and its `phrase`. */
  datatype Doc = Doc(title: string, year: Int32, phrase: string)

  /**
   * The text handed to `parseMovieJson`: the empty string that a failed download folds to,
   * or a JSON object whose `docs` array has already been decoded.
   */
  datatype Payload = EmptyText | Docs(docs: seq<Doc>)

  const APOLOGY := "I'm sorry, I could not find a movie for your quote. I am still learning. Please don't hate me..."
  const FIRST_PREFIX := "The quote is possibly, "
  const ANOTHER_PREFIX := "Another matching quote is, "
  const MOVIE_LEAD := ", from the movie "
  const YEAR_LEAD := ", which came out in "

  predicate StartsWith(s: string, prefix: string) {
    |prefix| <= |s| && s[..|prefix|] == prefix
  }

  predicate EndsWith(s: string, suffix: string) {
    |suffix| <= |s| && s[|s| - |suffix|..] == suffix
  }

  /** The sentence for the document at position `i` of the `docs` array. */
  function MovieText(i: nat, d: Doc): string {
    (if i == 0 then FIRST_PREFIX else ANOTHER_PREFIX)
    + d.phrase + MOVIE_LEAD + d.title + YEAR_LEAD + IntToDecimal(d.year)
  }

  /** The list `parseMovieJson` returns for a payload. */
  function MovieList(p: Payload): seq<string> {
    match p
    case EmptyText => [APOLOGY]
    case Docs(docs) => seq(|docs|, i requires 0 <= i < |docs| => MovieText(i, docs[i]))
  }

  /**
   * `parseMovieJson`: an empty text gives the one apology sentence; otherwise one sentence per
   * document, in document order, the i-th made from the i-th document alone.
   */
  method ParseMovieJson(p: Payload) returns (movies: seq<string>)
    ensures movies == MovieList(p)
    ensures p.EmptyText? ==> movies == [APOLOGY]
    ensures p.Docs? ==> |movies| == |p.docs|
    ensures p.Docs? ==> forall i :: 0 <= i < |movies| ==> movies[i] == MovieText(i, p.docs[i])
  {
    if p.EmptyText? {
      return [APOLOGY];
    }
    movies := ParseDocs(p.docs);
  }

  /** The loop of `parseMovieJson` over the `docs` array. */
  method ParseDocs(docs: seq<Doc>) returns (movies: seq<string>)
    ensures |movies| == |docs|
    ensures forall i :: 0 <= i < |movies| ==> movies[i] == MovieText(i, docs[i])
  {
    movies := [];
    for i := 0 to |docs|
      invariant |movies| == i
      invariant forall k :: 0 <= k < i ==> movies[k] == MovieText(k, docs[k])
    {
      var movieText := MovieText(i, docs[i]);
      movies := movies + [movieText];
    }
  }

  /** The first-item prefix marks position 0 and the other prefix every later position. */
  lemma MovieTextPrefix(i: nat, d: Doc)
    ensures StartsWith(MovieText(i, d), FIRST_PREFIX) <==> i == 0
    ensures StartsWith(MovieText(i, d), ANOTHER_PREFIX) <==> i > 0
  {
    var rest := d.phrase + MOVIE_LEAD + d.title + YEAR_LEAD + IntToDecimal(d.year);
    var prefix := if i == 0 then FIRST_PREFIX else ANOTHER_PREFIX;
    var other := if i == 0 then ANOTHER_PREFIX else FIRST_PREFIX;
    assert MovieText(i, d) == prefix + rest;
    PrefixOfConcat(prefix, rest);
    assert FIRST_PREFIX[0] == 'T' && ANOTHER_PREFIX[0] == 'A';
    FirstCharDecides(prefix + rest, prefix, other);
  }

  lemma PrefixOfConcat(prefix: string, rest: string)
    ensures StartsWith(prefix + rest, prefix)
  {
  }

  /** Two prefixes that differ in their first character cannot both begin the same string. */
  lemma FirstCharDecides(s: string, p: string, q: string)
    requires StartsWith(s, p) && p != [] && q != [] && p[0] != q[0]
    ensures !StartsWith(s, q)
  {
  }

  /** Every sentence ends with the document's year, which reads back as that year. */
  lemma MovieTextYear(i: nat, d: Doc)
    ensures EndsWith(MovieText(i, d), YEAR_LEAD + IntToDecimal(d.year))
    ensures var s, y := MovieText(i, d), IntToDecimal(d.year);
            IsDecimal(s[|s| - |y|..]) && DecimalValue(s[|s| - |y|..]) == d.year
  {
    var y := IntToDecimal(d.year);
    var front := (if i == 0 then FIRST_PREFIX else ANOTHER_PREFIX) + d.phrase + MOVIE_LEAD + d.title;
    var s := MovieText(i, d);
    assert s == front + (YEAR_LEAD + y);
    assert s[|s| - |YEAR_LEAD + y|..] == YEAR_LEAD + y;
    assert s[|s| - |y|..] == y;
    DecimalRoundTrip(d.year);
  }

  /** In the list for a decoded payload, only the item at position 0 uses the first-item prefix. */
  lemma MovieListPrefixes(docs: seq<Doc>, k: nat)
    requires k < |docs|
    ensures StartsWith(MovieList(Docs(docs))[k], FIRST_PREFIX) <==> k == 0
    ensures StartsWith(MovieList(Docs(docs))[k], ANOTHER_PREFIX) <==> k > 0
  {
    MovieTextPrefix(k, docs[k]);
  }
}
