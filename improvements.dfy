/** The page-level `escapeHtml`: five chained global replacements, `&` first, then
    `<`, `>`, `"` and `'`. */
module Improvements {
  import opened Text
  import opened HtmlEntities
  import App

  /** `s.replace(/c/g, rep)`: every occurrence of `c`, left to right, becomes `rep`. */
  function ReplaceAll(s: string, c: char, rep: string): (r: string)
    ensures c !in rep ==> c !in r
    ensures forall x :: x in r ==> x in s || x in rep
    ensures |r| == |s| + Count(s, c) * (|rep| - 1)
  {
    if s == [] then [] else (if s[0] == c then rep else [s[0]]) + ReplaceAll(s[1..], c, rep)
  }

  /** The escaper as written: the five replacements applied one after the other. No
      later step brings back a character an earlier one removed, so the result holds
      none of `<`, `>`, `"`, `'`. */
  function EscapeHtml(s: string): (r: string)
    ensures '<' !in r && '>' !in r && '"' !in r && '\'' !in r
  {
    var s1 := ReplaceAll(s, '&', Amp);
    var s2 := ReplaceAll(s1, '<', Lt);
    var s3 := ReplaceAll(s2, '>', Gt);
    var s4 := ReplaceAll(s3, '"', Quot);
    ReplaceAll(s4, '\'', Apos)
  }

  /** The single-pass reading: each character replaced by its reference when it is one
      of the five, kept otherwise. The result holds none of `<`, `>`, `"`, `'`. */
  function EscapeChars(s: string): (r: string)
    ensures '<' !in r && '>' !in r && '"' !in r && '\'' !in r
  {
    if s == [] then [] else (if IsMarkup(s[0]) then EntityFor(s[0]) else [s[0]]) + EscapeChars(s[1..])
  }

  lemma {:induction false} ReplaceAllAppend(a: string, b: string, c: char, rep: string)
    ensures ReplaceAll(a + b, c, rep) == ReplaceAll(a, c, rep) + ReplaceAll(b, c, rep)
  {
    if a == [] {
      assert a + b == b;
    } else {
      assert (a + b)[0] == a[0];
      assert (a + b)[1..] == a[1..] + b;
      ReplaceAllAppend(a[1..], b, c, rep);
    }
  }

  lemma {:induction false} ReplaceAllAbsent(s: string, c: char, rep: string)
    requires c !in s
    ensures ReplaceAll(s, c, rep) == s
  {
    if s != [] {
      assert s[0] in s;
      assert forall x :: x in s[1..] ==> x in s;
      ReplaceAllAbsent(s[1..], c, rep);
      assert s == [s[0]] + s[1..];
    }
  }

  /** The chain distributes over concatenation. */
  lemma EscapeHtmlAppend(a: string, b: string)
    ensures EscapeHtml(a + b) == EscapeHtml(a) + EscapeHtml(b)
  {
    var a1, b1 := ReplaceAll(a, '&', Amp), ReplaceAll(b, '&', Amp);
    ReplaceAllAppend(a, b, '&', Amp);
    var a2, b2 := ReplaceAll(a1, '<', Lt), ReplaceAll(b1, '<', Lt);
    ReplaceAllAppend(a1, b1, '<', Lt);
    var a3, b3 := ReplaceAll(a2, '>', Gt), ReplaceAll(b2, '>', Gt);
    ReplaceAllAppend(a2, b2, '>', Gt);
    var a4, b4 := ReplaceAll(a3, '"', Quot), ReplaceAll(b3, '"', Quot);
    ReplaceAllAppend(a3, b3, '"', Quot);
    ReplaceAllAppend(a4, b4, '\'', Apos);
  }

  /** On one character the chain is the table lookup: the references inserted by an
      earlier step hold no character that a later step replaces. */
  lemma EscapeHtmlOneChar(c: char)
    ensures EscapeHtml([c]) == if IsMarkup(c) then EntityFor(c) else [c]
  {
    ReplaceAllOne(c, '&', Amp);
    if c == '&' {
      LastFourStepsKeep(Amp);
    } else if c == '<' {
      ReplaceAllOne(c, '<', Lt);
      LastThreeStepsKeep(Lt);
    } else if c == '>' {
      ReplaceAllOne(c, '<', Lt);
      ReplaceAllOne(c, '>', Gt);
      LastTwoStepsKeep(Gt);
    } else if c == '"' {
      ReplaceAllOne(c, '<', Lt);
      ReplaceAllOne(c, '>', Gt);
      ReplaceAllOne(c, '"', Quot);
      ReplaceAllAbsent(Quot, '\'', Apos);
    } else {
      ReplaceAllOne(c, '<', Lt);
      ReplaceAllOne(c, '>', Gt);
      ReplaceAllOne(c, '"', Quot);
      ReplaceAllOne(c, '\'', Apos);
    }
  }

  /** The last two steps of the chain leave a string without `"` and `'` unchanged. */
  lemma LastTwoStepsKeep(t: string)
    requires '"' !in t && '\'' !in t
    ensures ReplaceAll(ReplaceAll(t, '"', Quot), '\'', Apos) == t
  {
    ReplaceAllAbsent(t, '"', Quot);
    ReplaceAllAbsent(t, '\'', Apos);
  }

  /** The last three steps leave a string without `>`, `"` and `'` unchanged. */
  lemma LastThreeStepsKeep(t: string)
    requires '>' !in t && '"' !in t && '\'' !in t
    ensures ReplaceAll(ReplaceAll(ReplaceAll(t, '>', Gt), '"', Quot), '\'', Apos) == t
  {
    ReplaceAllAbsent(t, '>', Gt);
    LastTwoStepsKeep(t);
  }

  /** The last four steps leave a string without `<`, `>`, `"` and `'` unchanged. */
  lemma LastFourStepsKeep(t: string)
    requires '<' !in t && '>' !in t && '"' !in t && '\'' !in t
    ensures ReplaceAll(ReplaceAll(ReplaceAll(ReplaceAll(t, '<', Lt), '>', Gt), '"', Quot), '\'', Apos) == t
  {
    ReplaceAllAbsent(t, '<', Lt);
    LastThreeStepsKeep(t);
  }

  lemma ReplaceAllOne(c: char, x: char, rep: string)
    ensures ReplaceAll([c], x, rep) == if c == x then rep else [c]
  {
    assert [c][1..] == [];
  }

  /** Because `&` is replaced first, the chain equals the single-pass substitution. */
  lemma {:induction false} ChainIsSinglePass(s: string)
    ensures EscapeHtml(s) == EscapeChars(s)
  {
    if s != [] {
      assert s == [s[0]] + s[1..];
      EscapeHtmlAppend([s[0]], s[1..]);
      EscapeHtmlOneChar(s[0]);
      ChainIsSinglePass(s[1..]);
    }
  }

  /** Every `&` of the output opens one of the five references. */
  lemma {:induction false} EscapeHtmlAmps(s: string)
    ensures AmpsOpenEntities(EscapeHtml(s))
  {
    EscapeCharsAmps(s);
    ChainIsSinglePass(s);
  }

  lemma {:induction false} EscapeCharsAmps(s: string)
    ensures AmpsOpenEntities(EscapeChars(s))
  {
    if s != [] {
      EscapeCharsAmps(s[1..]);
      AmpsOpenEntitiesCons(if IsMarkup(s[0]) then EntityFor(s[0]) else [s[0]], EscapeChars(s[1..]));
    }
  }

  /** Output length: `&` and `'` add four characters, `<` and `>` three, `"` five. */
  lemma EscapeHtmlLength(s: string)
    ensures |EscapeHtml(s)| == |s| + 4 * Count(s, '&') + 3 * (Count(s, '<') + Count(s, '>'))
                               + 5 * Count(s, '"') + 4 * Count(s, '\'')
  {
    ChainIsSinglePass(s);
    EscapeCharsLength(s);
  }

  lemma {:induction false} EscapeCharsLength(s: string)
    ensures |EscapeChars(s)| == |s| + 4 * Count(s, '&') + 3 * (Count(s, '<') + Count(s, '>'))
                                + 5 * Count(s, '"') + 4 * Count(s, '\'')
  {
    if s != [] {
      EscapeCharsLength(s[1..]);
    }
  }

  /** Decoding the five references recovers the original string. */
  lemma EscapeHtmlRoundTrip(s: string)
    ensures Unescape(EscapeHtml(s)) == s
  {
    ChainIsSinglePass(s);
    EscapeCharsRoundTrip(s);
  }

  lemma {:induction false} EscapeCharsRoundTrip(s: string)
    ensures Unescape(EscapeChars(s)) == s
  {
    if s != [] {
      var c := s[0];
      EscapeCharsRoundTrip(s[1..]);
      if IsMarkup(c) {
        UnescapeEntity(c, EscapeChars(s[1..]));
      } else {
        UnescapePlain(c, EscapeChars(s[1..]));
      }
      assert s == [c] + s[1..];
    }
  }

  /** On text without a single quote the page's escaper and the client's agree. */
  lemma {:induction false} AgreesWithClientEscaper(s: string)
    requires '\'' !in s
    ensures EscapeHtml(s) == App.EscapeHtml(s)
  {
    ChainIsSinglePass(s);
    EscapeCharsAgree(s);
  }

  lemma {:induction false} EscapeCharsAgree(s: string)
    requires '\'' !in s
    ensures EscapeChars(s) == App.EscapeHtml(s)
  {
    if s != [] {
      assert s[0] in s;
      assert forall x :: x in s[1..] ==> x in s;
      EscapeCharsAgree(s[1..]);
    }
  }

  /** The client's escaper differs exactly on the single quote: for `'` it leaves the
      character where this one writes `&#39;`. */
  lemma ClientKeepsQuote()
    ensures App.EscapeHtml("'") == "'" && EscapeHtml("'") == Apos
  {
  }
}
