/** html.EscapeString and its inverse, for the five references it writes. */
module Escape {
  import opened Text

  function EscapeChar(c: char): (r: string)
    ensures r != ""
  {
    match c
    case '<' => "&lt;"
    case '>' => "&gt;"
    case '&' => "&amp;"
    case '\'' => "&#39;"
    case '"' => "&#34;"
    case _ => [c]
  }

  function EscapeString(s: string): (r: string)
    ensures s == "" <==> r == ""
  {
    if s == "" then "" else EscapeChar(s[0]) + EscapeString(s[1..])
  }

  /** The character that text begins with, and how many characters it is written with. */
  function Reference(s: string): (r: (char, nat))
    requires s != ""
    ensures 1 <= r.1 <= |s|
  {
    if s[0] != '&' then (s[0], 1)
    else if |s| >= 4 && s[1] == 'l' && s[2] == 't' && s[3] == ';' then ('<', 4)
    else if |s| >= 4 && s[1] == 'g' && s[2] == 't' && s[3] == ';' then ('>', 4)
    else if |s| >= 5 && s[1] == 'a' && s[2] == 'm' && s[3] == 'p' && s[4] == ';' then ('&', 5)
    else if |s| >= 5 && s[1] == '#' && s[2] == '3' && s[3] == '9' && s[4] == ';' then ('\'', 5)
    else if |s| >= 5 && s[1] == '#' && s[2] == '3' && s[3] == '4' && s[4] == ';' then ('"', 5)
    else ('&', 1)
  }

  function UnescapeString(s: string): string {
    if s == "" then "" else [Reference(s).0] + UnescapeString(s[Reference(s).1..])
  }

  lemma ReferenceIs(c: char, t: string)
    ensures Reference(EscapeChar(c) + t) == (c, |EscapeChar(c)|)
  {
    var e := EscapeChar(c);
    var s := e + t;
    assert s[0] == e[0];
    if c in "<>&'\"" {
      assert s[1] == e[1] && s[2] == e[2] && s[3] == e[3];
    }
  }

  lemma UnescapeOne(c: char, t: string)
    ensures UnescapeString(EscapeChar(c) + t) == [c] + UnescapeString(t)
  {
    hide EscapeChar, Reference;
    ReferenceIs(c, t);
    assert (EscapeChar(c) + t)[|EscapeChar(c)|..] == t;
  }

  lemma {:induction false} EscapeRoundTrip(s: string)
    ensures UnescapeString(EscapeString(s)) == s
  {
    if s != "" {
      hide UnescapeString, EscapeChar;
      EscapeRoundTrip(s[1..]);
      UnescapeOne(s[0], EscapeString(s[1..]));
    }
  }

  lemma {:induction false} EscapeConcat(a: string, b: string)
    ensures EscapeString(a + b) == EscapeString(a) + EscapeString(b)
  {
    hide EscapeChar;
    if a == "" {
      assert a + b == b;
    } else {
      EscapeConcat(a[1..], b);
      assert (a + b)[0] == a[0] && (a + b)[1..] == a[1..] + b;
      Assoc(EscapeChar(a[0]), EscapeString(a[1..]), EscapeString(b));
    }
  }

  /** Escaped data holds no character that could open, close or quote markup. */
  lemma {:induction false} EscapeIsInert(s: string)
    ensures forall c :: c in EscapeString(s) ==> c != '<' && c != '>' && c != '"' && c != '\''
  {
    if s != "" {
      EscapeIsInert(s[1..]);
    }
  }

  /** Space stands for itself, and nothing else is written with space at either end. */
  lemma EscapeSpace(c: char)
    ensures IsSpace(c) ==> EscapeChar(c) == [c]
    ensures !IsSpace(c) ==> !IsSpace(EscapeChar(c)[0]) && !IsSpace(EscapeChar(c)[|EscapeChar(c)| - 1])
  {
  }

  lemma {:induction false} EscapeTrimLeft(s: string)
    ensures TrimLeft(EscapeString(s)) == EscapeString(TrimLeft(s))
  {
    hide EscapeChar, IsSpace;
    if s != "" {
      EscapeSpace(s[0]);
      assert EscapeString(s)[0] == EscapeChar(s[0])[0];
      if IsSpace(s[0]) {
        assert EscapeString(s)[1..] == EscapeString(s[1..]);
        EscapeTrimLeft(s[1..]);
      }
    }
  }

  lemma EscapeSnoc(s: string, c: char)
    ensures EscapeString(s + [c]) == EscapeString(s) + EscapeChar(c)
  {
    hide EscapeChar;
    EscapeConcat(s, [c]);
    assert EscapeString([c]) == EscapeChar(c) + EscapeString([c][1..]);
  }

  lemma {:induction false} EscapeTrimRight(s: string)
    ensures TrimRight(EscapeString(s)) == EscapeString(TrimRight(s))
  {
    if s != "" {
      hide EscapeChar, IsSpace, EscapeString;
      var n := |s| - 1;
      assert s == s[..n] + [s[n]];
      EscapeSnoc(s[..n], s[n]);
      EscapeSpace(s[n]);
      var e, l := EscapeString(s[..n]), EscapeChar(s[n]);
      assert (e + l)[|e + l| - 1] == l[|l| - 1];
      if IsSpace(s[n]) {
        assert (e + l)[..|e + l| - 1] == e;
        EscapeTrimRight(s[..n]);
      }
    }
  }

  /** Trimming escaped text trims the text. */
  lemma EscapeTrim(s: string)
    ensures TrimSpace(EscapeString(s)) == EscapeString(TrimSpace(s))
    ensures UnescapeString(TrimSpace(EscapeString(s))) == TrimSpace(s)
  {
    EscapeTrimLeft(s);
    EscapeTrimRight(TrimLeft(s));
    EscapeRoundTrip(TrimSpace(s));
  }
}
