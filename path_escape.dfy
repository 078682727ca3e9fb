/**
 * The escaping that turns a spoken phrase into a path segment of the QuoDB search URL
 * (`phrase.replaceAll(" ", "%20")`), and the reverse replacement used to state what it loses.
 */
module PathEscape {

  /** Every space becomes "%20"; every other character is kept, in order. */
  function EscapeSpaces(s: string): (r: string)
    ensures forall i :: 0 <= i < |r| ==> r[i] != ' '
    ensures |s| <= |r|
    decreases |s|
  {
    if s == [] then [] else (if s[0] == ' ' then "%20" else [s[0]]) + EscapeSpaces(s[1..])
  }

  predicate StartsWithPercent20(s: string) {
    3 <= |s| && s[0] == '%' && s[1] == '2' && s[2] == '0'
  }

  /** `s` holds the three characters "%20" somewhere. */
  predicate ContainsPercent20(s: string)
    decreases |s|
  {
    3 <= |s| && (StartsWithPercent20(s) || ContainsPercent20(s[1..]))
  }

  /**
   * `replaceAll("%20", " ")`: scanning left to right, each occurrence of "%20" becomes one space.
   * The result is exactly as long as the input if and only if there was nothing to replace.
   */
  function UnescapeSpaces(s: string): (r: string)
    ensures |r| <= |s|
    ensures |r| == |s| <==> !ContainsPercent20(s)
    decreases |s|
  {
    if StartsWithPercent20(s) then " " + UnescapeSpaces(s[3..])
    else if s == [] then []
    else [s[0]] + UnescapeSpaces(s[1..])
  }

  /** Escaping works character by character: it distributes over concatenation. */
  lemma {:induction false} EscapeConcat(a: string, b: string)
    ensures EscapeSpaces(a + b) == EscapeSpaces(a) + EscapeSpaces(b)
    decreases |a|
  {
    if a == [] {
      assert a + b == b;
    } else {
      var head := if a[0] == ' ' then "%20" else [a[0]];
      assert (a + b)[0] == a[0];
      assert (a + b)[1..] == a[1..] + b;
      EscapeConcat(a[1..], b);
      calc {
        EscapeSpaces(a + b);
        head + EscapeSpaces(a[1..] + b);
        head + (EscapeSpaces(a[1..]) + EscapeSpaces(b));
        (head + EscapeSpaces(a[1..])) + EscapeSpaces(b);
        EscapeSpaces(a) + EscapeSpaces(b);
      }
    }
  }

  /** A character other than a space is kept as it is; a space becomes "%20". */
  lemma EscapeChar(c: char)
    ensures EscapeSpaces([c]) == if c == ' ' then "%20" else [c]
  {
  }

  /** A phrase without spaces is already path-ready. */
  lemma {:induction false} EscapeKeepsSpaceFree(s: string)
    requires forall i :: 0 <= i < |s| ==> s[i] != ' '
    ensures EscapeSpaces(s) == s
    decreases |s|
  {
    if s != [] {
      assert s[0] != ' ';
      EscapeKeepsSpaceFree(s[1..]);
    }
  }

  /** Escaping an escaped phrase changes nothing. */
  lemma EscapeIdempotent(s: string)
    ensures EscapeSpaces(EscapeSpaces(s)) == EscapeSpaces(s)
  {
    EscapeKeepsSpaceFree(EscapeSpaces(s));
  }

  /** An escaped string begins with "20" only when the original does. */
  lemma EscapedStarts20(s: string)
    ensures (2 <= |EscapeSpaces(s)| && EscapeSpaces(s)[0] == '2' && EscapeSpaces(s)[1] == '0')
            ==> (2 <= |s| && s[0] == '2' && s[1] == '0')
  {
    var e := EscapeSpaces(s);
    if 2 <= |e| && e[0] == '2' && e[1] == '0' {
      assert s != [];
      assert s[0] != ' ';
      var t := EscapeSpaces(s[1..]);
      assert e == [s[0]] + t;
      assert t != [] && t[0] == '0';
      assert s[1..] != [];
      assert s[1..][0] != ' ';
    }
  }

  /** Without a literal "%20" in the phrase, replacing "%20" back by spaces recovers it. */
  lemma {:induction false} UnescapeInvertsEscape(s: string)
    requires !ContainsPercent20(s)
    ensures UnescapeSpaces(EscapeSpaces(s)) == s
    decreases |s|
  {
    if s != [] {
      assert !ContainsPercent20(s[1..]);
      UnescapeInvertsEscape(s[1..]);
      var t := EscapeSpaces(s[1..]);
      if s[0] == ' ' {
        assert EscapeSpaces(s) == "%20" + t;
        assert ("%20" + t)[3..] == t;
      } else {
        var e := [s[0]] + t;
        assert EscapeSpaces(s) == e;
        EscapedStarts20(s[1..]);
        assert !StartsWithPercent20(e);
        assert e[1..] == t;
      }
    }
  }

  /** Escaping then unescaping never lengthens a phrase, and shortens one that holds "%20". */
  lemma {:induction false} UnescapeEscapeShrinks(s: string)
    ensures |UnescapeSpaces(EscapeSpaces(s))| <= |s|
    ensures ContainsPercent20(s) ==> |UnescapeSpaces(EscapeSpaces(s))| < |s|
    decreases |s|
  {
    if s != [] {
      var t := EscapeSpaces(s[1..]);
      if s[0] == ' ' {
        assert EscapeSpaces(s) == "%20" + t;
        assert ("%20" + t)[3..] == t;
        assert ContainsPercent20(s) ==> ContainsPercent20(s[1..]);
        UnescapeEscapeShrinks(s[1..]);
      } else if StartsWithPercent20(s) {
        var u := EscapeSpaces(s[3..]);
        assert s[1..][1..] == s[2..] && s[2..][1..] == s[3..];
        assert t == ['2'] + EscapeSpaces(s[2..]);
        assert EscapeSpaces(s[2..]) == ['0'] + u;
        assert EscapeSpaces(s) == "%20" + u;
        assert ("%20" + u)[3..] == u;
        UnescapeEscapeShrinks(s[3..]);
      } else {
        var e := [s[0]] + t;
        assert EscapeSpaces(s) == e;
        EscapedStarts20(s[1..]);
        assert !StartsWithPercent20(e);
        assert e[1..] == t;
        assert ContainsPercent20(s) ==> ContainsPercent20(s[1..]);
        UnescapeEscapeShrinks(s[1..]);
      }
    }
  }

  /** Unescaping the path-ready phrase gives back the phrase exactly when it held no literal "%20". */
  lemma EscapeRoundTripIff(s: string)
    ensures UnescapeSpaces(EscapeSpaces(s)) == s <==> !ContainsPercent20(s)
  {
    if ContainsPercent20(s) {
      UnescapeEscapeShrinks(s);
    } else {
      UnescapeInvertsEscape(s);
    }
  }
}
