/** The five HTML character references the two escapers produce, and a decoder for
    them. The decoder is not part of the storefront; it is the inverse against which
    both escapers are proved. */
module HtmlEntities {
  import opened Text

  const Amp: string := "&amp;"
  const Lt: string := "&lt;"
  const Gt: string := "&gt;"
  const Quot: string := "&quot;"
  const Apos: string := "&#39;"

  /** The characters that carry meaning in HTML markup and attribute values. */
  predicate IsMarkup(c: char)
  {
    c == '&' || c == '<' || c == '>' || c == '"' || c == '\''
  }

  /** The character reference that stands for a markup character. */
  function EntityFor(c: char): (e: string)
    requires IsMarkup(c)
  {
    if c == '&' then Amp
    else if c == '<' then Lt
    else if c == '>' then Gt
    else if c == '"' then Quot
    else Apos
  }

  predicate StartsWithEntity(s: string)
  {
    StartsWith(s, Amp) || StartsWith(s, Lt) || StartsWith(s, Gt) ||
    StartsWith(s, Quot) || StartsWith(s, Apos)
  }

  /** Every `&` in `s` is the first character of one of the five references, so no
      ampersand of the original text survives unescaped. */
  predicate AmpsOpenEntities(s: string)
  {
    forall i :: 0 <= i < |s| && s[i] == '&' ==> StartsWithEntity(s[i..])
  }

  /** Replaces each of the five references by its character, scanning left to right;
      every other character is kept. */
  function Unescape(s: string): string
    decreases |s|
  {
    if s == [] then []
    else if StartsWith(s, Amp) then "&" + Unescape(s[|Amp|..])
    else if StartsWith(s, Lt) then "<" + Unescape(s[|Lt|..])
    else if StartsWith(s, Gt) then ">" + Unescape(s[|Gt|..])
    else if StartsWith(s, Quot) then "\"" + Unescape(s[|Quot|..])
    else if StartsWith(s, Apos) then "'" + Unescape(s[|Apos|..])
    else [s[0]] + Unescape(s[1..])
  }

  /** A character other than `&` decodes to itself. */
  lemma UnescapePlain(c: char, rest: string)
    requires c != '&'
    ensures Unescape([c] + rest) == [c] + Unescape(rest)
  {
    var s := [c] + rest;
    assert !StartsWith(s, Amp) && !StartsWith(s, Lt) && !StartsWith(s, Gt) by {
      assert s[0] == c;
    }
    assert !StartsWith(s, Quot) && !StartsWith(s, Apos) by {
      assert s[0] == c;
    }
    assert s[1..] == rest;
  }

  /** A reference decodes to the character it stands for. */
  lemma UnescapeEntity(c: char, rest: string)
    requires IsMarkup(c)
    ensures Unescape(EntityFor(c) + rest) == [c] + Unescape(rest)
  {
    var e := EntityFor(c);
    var s := e + rest;
    assert s[..|e|] == e;
    assert s[|e|..] == rest;
    assert s[0] == '&';
    if c != '&' {
      assert s[1] == e[1] != 'a';
      assert !StartsWith(s, Amp) by { if |Amp| <= |s| { assert s[..|Amp|][1] == s[1]; } }
    }
    if c != '&' && c != '<' {
      assert !StartsWith(s, Lt) by { if |Lt| <= |s| { assert s[..|Lt|][1] == s[1]; } }
    }
    if c != '&' && c != '<' && c != '>' {
      assert !StartsWith(s, Gt) by { if |Gt| <= |s| { assert s[..|Gt|][1] == s[1]; } }
    }
    if c == '\'' {
      assert !StartsWith(s, Quot) by { if |Quot| <= |s| { assert s[..|Quot|][1] == s[1]; } }
    }
  }

  /** Prepending a reference, or a character other than `&`, keeps AmpsOpenEntities. */
  lemma AmpsOpenEntitiesCons(token: string, rest: string)
    requires (|token| == 1 && token[0] != '&') || (exists c :: IsMarkup(c) && token == EntityFor(c))
    requires AmpsOpenEntities(rest)
    ensures AmpsOpenEntities(token + rest)
  {
    var s := token + rest;
    forall i | 0 <= i < |s| && s[i] == '&' ensures StartsWithEntity(s[i..]) {
      if i < |token| {
        assert token[i] == '&';
        assert i == 0;
        StartsWithAppend(token, token, rest);
        assert s[i..] == s;
      } else {
        assert s[i..] == rest[i - |token|..];
        assert rest[i - |token|] == '&';
      }
    }
  }
}
