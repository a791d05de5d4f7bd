/** How the parser reads each piece of markup that the printer writes. */
module Reading {
  import opened Text
  import opened Escape
  import opened Adf
  import opened Storage
  import opened Markup
  import opened Closing
  import opened HtmlReader
  import opened StorageNested

  // ---- tag names ----

  lemma NoTrim(s: string)
    requires s != "" && !IsSpace(s[0]) && !IsSpace(s[|s| - 1])
    ensures TrimSpace(s) == s
  {
  }

  lemma {:induction false} UpToSpaceIs(name: string, rest: string)
    requires forall c :: c in name ==> c !in " \t\n"
    requires rest == "" || rest[0] == ' '
    ensures UpToSpace(name + rest) == name
  {
    if name != "" {
      assert (name + rest)[1..] == name[1..] + rest;
      UpToSpaceIs(name[1..], rest);
    }
  }

  lemma PlainFacts(name: string)
    requires PlainName(name)
    ensures IsLower(name) && ToLower(name) == name
    ensures forall c :: c in name ==> !IsSpace(c) && c !in " \t\n" && c != '/' && c != '!' && c != '"'
    ensures name[0] in name && name[|name| - 1] in name
  {
    LowerId(name);
  }

  /** The name of a tag that ends with something visible. */
  lemma TagNameIs(name: string, rest: string)
    requires PlainName(name)
    requires rest == "" || (rest[0] == ' ' && !IsSpace(rest[|rest| - 1]))
    ensures TagName(name + rest) == name
  {
    PlainFacts(name);
    var tag := name + rest;
    assert tag[0] == name[0];
    assert tag[|tag| - 1] == if rest == "" then name[|name| - 1] else rest[|rest| - 1];
    NoTrim(tag);
    UpToSpaceIs(name, rest);
    assert TrimSlash(name) == name;
  }

  lemma TagNameSimple(name: string)
    requires PlainName(name)
    ensures TagName(name) == name
  {
    TagNameIs(name, "");
    assert name + "" == name;
  }

  lemma TagNameAttr(name: string, key: string, value: string)
    requires PlainName(name)
    ensures TagName(Attr(name, key, value)) == name
    ensures TagName(Attr(name, key, value) + " /") == name
  {
    var rest := " " + key + "=\"" + value + "\"";
    assert Attr(name, key, value) == name + rest;
    TagNameIs(name, rest);
    assert Attr(name, key, value) + " /" == name + (rest + " /");
    TagNameIs(name, rest + " /");
  }

  lemma TagNameClosed(name: string)
    requires PlainName(name)
    ensures TagName(name + "/") == name
  {
    PlainFacts(name);
    var tag := name + "/";
    NoTrim(tag);
    UpToSpaceIs(tag, "");
    assert tag + "" == tag;
    assert tag[..|tag| - 1] == name;
  }

  // ---- the next element ----

  lemma ElemLength(tag: string, name: string, body: string, more: string)
    ensures var s := Elem(tag, name, body) + more;
            && |Elem(tag, name, body)| == |tag| + |body| + |name| + 5
            && s[1..|tag| + 1] == tag
            && s[|tag| + 2..] == body + ("</" + name + ">") + more
            && s[|Elem(tag, name, body)|..] == more
  {
    var s := Elem(tag, name, body) + more;
    assert s == "<" + tag + (">" + body + "</" + name + ">" + more);
    assert s == ("<" + tag + ">") + (body + ("</" + name + ">") + more);
  }

  /** An element the printer writes is read back whole. */
  lemma ElementAt(tag: string, name: string, body: string, more: string)
    requires OpenTag(tag, name) && PlainName(name) && TagName(tag) == name && WellNested(body)
    ensures ElementOf(Elem(tag, name, body) + more) == Element(name, tag, body, |Elem(tag, name, body)|)
    ensures (Elem(tag, name, body) + more)[|Elem(tag, name, body)|..] == more
  {
    hide WellNested, TagName, ClosingIn, Elem;
    var s := Elem(tag, name, body) + more;
    ElemLength(tag, name, body, more);
    TagEnds(tag, name, body, more);
    CloseFound(body, name, more);
    PlainFacts(name);
    assert !("!" <= tag) by { StartsWithName(tag, name); }
    assert s[|tag| + 2..][..|body|] == body;
  }

  lemma StartsWithName(tag: string, name: string)
    requires OpenTag(tag, name) && PlainName(name)
    ensures tag != "" && tag[0] != '!'
  {
    PlainFacts(name);
    assert ToLower(tag)[0] == name[0];
  }

  lemma TagEnds(tag: string, name: string, body: string, more: string)
    requires '>' !in tag
    ensures IndexByte(Elem(tag, name, body) + more, '<') == 0
    ensures IndexByte(Elem(tag, name, body) + more, '>') == |tag| + 1
  {
    var s := Elem(tag, name, body) + more;
    assert s == "<" + tag + ">" + (body + "</" + name + ">" + more);
    assert s == ("<" + tag) + [">"[0]] + (body + "</" + name + ">" + more);
    IndexByteAfter("<" + tag, '>', body + "</" + name + ">" + more);
  }

  lemma CloseFound(body: string, name: string, more: string)
    requires PlainName(name) && WellNested(body)
    ensures ClosingIn(ToLower(body + ("</" + name + ">") + more), name, 0) == |body|
  {
    hide WellNested, ClosingIn;
    PlainFacts(name);
    var close := "</" + name + ">";
    LowerId(close);
    FindsMatchingClose("", body, name, close, more);
    assert "" + body + close + more == body + close + more;
  }

  /** A tag that closes itself is an element without content. */
  lemma EmptyAt(tag: string, name: string, more: string)
    requires '>' !in tag && SelfCloses(tag) && TagName(tag) == name && PlainName(name) && tag[0] != '!'
    ensures ElementOf("<" + tag + ">" + more) == Element(name, tag, "", |tag| + 2)
    ensures ("<" + tag + ">" + more)[|tag| + 2..] == more
  {
    hide TagName, ClosingIn;
    var s := "<" + tag + ">" + more;
    assert s == ("<" + tag) + [">"[0]] + more;
    IndexByteAfter("<" + tag, '>', more);
    assert s[1..|tag| + 1] == tag;
    assert tag[..1] != "!";
  }

  /** Data before the next tag. */
  lemma TextAt(text: string, more: string)
    requires text != "" && '<' !in text && more != "" && more[0] == '<'
    ensures ElementOf(text + more) == Element("", "", text, |text|)
    ensures (text + more)[|text|..] == more
  {
    assert text + more == text + ['<'] + more[1..];
    IndexByteAfter(text, '<', more[1..]);
    assert (text + more)[..|text|] == text;
  }

  lemma TextToEnd(text: string)
    requires '<' !in text
    ensures ElementOf(text) == NoElement
  {
  }

  // ---- attributes and macro parts ----

  /** The first attribute of markup, whatever follows it. */
  lemma AttributeAt(pre: string, key: string, value: string, post: string)
    requires IsLower(pre) && '"' !in pre && PlainName(key) && '"' !in value
    ensures AttributeValue(pre + (key + "=\"") + (value + "\"" + post), key) == UnescapeString(value)
  {
    hide Index, ToLower, IndexByte, UnescapeString, PlainName, IsLower;
    var pat, after := key + "=\"", value + "\"" + post;
    var source := pre + pat + after;
    LowerParts(pre, key, after);
    PlainFacts(key);
    QuoteDecides(pre, key, ToLower(after));
    assert source[|pre| + |key| + 2..] == after;
    assert after == value + ['"'] + post;
    IndexByteAfter(value, '"', post);
    assert after[..|value|] == value;
  }

  lemma LowerParts(pre: string, key: string, after: string)
    requires IsLower(pre) && PlainName(key)
    ensures ToLower(pre + (key + "=\"") + after) == pre + (key + "=\"") + ToLower(after)
  {
    PlainFacts(key);
    var low := pre + (key + "=\"");
    LowerConcat(low, after);
    LowerId(low);
  }

  lemma AttributeIs(name: string, key: string, value: string, post: string)
    requires PlainName(name) && PlainName(key) && '"' !in value
    ensures AttributeValue(Attr(name, key, value) + post, key) == UnescapeString(value)
    ensures AttributeValue("<" + (Attr(name, key, value) + post), key) == UnescapeString(value)
  {
    hide AttributeValue;
    PlainFacts(name);
    AttributeAt(name + " ", key, value, post);
    AttributeAt("<" + name + " ", key, value, post);
    AttrParts(name, key, value, post);
  }

  lemma AttrParts(name: string, key: string, value: string, post: string)
    ensures Attr(name, key, value) + post == (name + " ") + (key + "=\"") + (value + "\"" + post)
    ensures "<" + (Attr(name, key, value) + post) == ("<" + name + " ") + (key + "=\"") + (value + "\"" + post)
  {
  }

  lemma QuoteDecides(pre: string, key: string, after: string)
    requires '"' !in pre && '"' !in key
    ensures Index(pre + (key + "=\"") + after, key + "=\"") == |pre|
  {
    var s, pat := pre + (key + "=\"") + after, key + "=\"";
    var head := pre + key + "=";
    forall j | 0 <= j < |pre| ensures !(pat <= s[j..]) {
      assert pat[|key| + 1] == '"';
      assert s[j..][|key| + 1] == head[j + |key| + 1] && head[j + |key| + 1] in head;
    }
    assert s[|pre|..] == pat + after;
    IndexFirst(s, pat, |pre|);
    IndexFirst(s, pat, Index(s, pat));
  }

  lemma Bracketed(s: string, end: nat)
    requires 0 < end < |s| && s[0] == '<' && s[end] == '>'
    ensures s == "<" + s[1..end] + ">" + s[end + 1..]
  {
    var r := "<" + s[1..end] + ">" + s[end + 1..];
    assert |r| == |s|;
    assert forall i :: 0 <= i < |s| ==> r[i] == s[i];
  }

  /** The tag that complete markup begins with. */
  lemma LeadingTag(s: string)
    requires Complete(s) && s != "" && s[0] == '<'
    ensures var end := IndexByte(s, '>');
            && 0 < end < |s| && Complete(s[end + 1..]) && Tags(s) == [s[1..end]] + Tags(s[end + 1..])
            && '<' !in s[1..end] && '>' !in s[1..end]
  {
  }

  /** A whole tag is found where it first stands among the tags. */
  lemma {:induction false} FirstTag(s: string, t: string, rest: string)
    requires Complete(s) && t !in Tags(s) && '<' !in t && '>' !in t
    ensures Index(s + ("<" + t + ">") + rest, "<" + t + ">") == |s|
    decreases |s|
  {
    var pat := "<" + t + ">";
    var all := s + pat + rest;
    if s == "" {
      assert all == pat + rest;
    } else if s[0] != '<' {
      FirstTag(s[1..], t, rest);
      assert all[1..] == s[1..] + pat + rest;
      IndexSkip(all, pat, 1);
    } else {
      LeadingTag(s);
      hide Complete, Tags, Index, IndexByte;
      var end := IndexByte(s, '>');
      Bracketed(s, end);
      var tag, more := s[1..end], s[end + 1..];
      FirstTag(more, t, rest);
      PassTag(tag, more + pat + rest, t);
      Assoc("<" + tag + ">", more, pat);
      Assoc("<" + tag + ">", more + pat, rest);
    }
  }

  lemma {:induction false} NoTag(s: string, t: string)
    requires Complete(s) && t !in Tags(s) && '<' !in t && '>' !in t
    ensures Index(s, "<" + t + ">") == -1
    decreases |s|
  {
    var pat := "<" + t + ">";
    if s == "" {
    } else if s[0] != '<' {
      NoTag(s[1..], t);
      IndexSkip(s, pat, 1);
    } else {
      LeadingTag(s);
      hide Complete, Tags, Index, IndexByte;
      var end := IndexByte(s, '>');
      Bracketed(s, end);
      NoTag(s[end + 1..], t);
      PassTag(s[1..end], s[end + 1..], t);
    }
  }

  lemma PassTag(tag: string, more: string, t: string)
    requires tag != t && '<' !in tag && '>' !in tag && '<' !in t && '>' !in t
    ensures var pat := "<" + t + ">";
            Index("<" + tag + ">" + more, pat) == After(|tag| + 2, Index(more, pat))
  {
    var pat, all := "<" + t + ">", "<" + tag + ">" + more;
    DifferentTag(tag, more, t);
    assert all[1..] == tag + ">" + more;
    assert all[1..][|tag| + 1..] == more;
    assert forall j :: 0 <= j < |tag| ==> tag[j] in tag;
    IndexSkip(all[1..], pat, |tag| + 1);
  }

  lemma DifferentTag(tag: string, more: string, t: string)
    requires tag != t && '>' !in tag && '>' !in t
    ensures !("<" + t + ">" <= "<" + tag + ">" + more)
  {
    var pat, all := "<" + t + ">", "<" + tag + ">" + more;
    if |t| < |tag| {
      assert pat[|t| + 1] == '>' && all[|t| + 1] == tag[|t|] && tag[|t|] in tag;
    } else if |tag| < |t| {
      assert all[|tag| + 1] == '>' && pat[|tag| + 1] == t[|tag|] && t[|tag|] in t;
    } else {
      var j :| 0 <= j < |t| && t[j] != tag[j];
      assert pat[j + 1] == t[j] && all[j + 1] == tag[j];
    }
  }
}
