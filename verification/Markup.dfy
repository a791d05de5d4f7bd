/** What it means for markup to be well nested: an independent reading of its tags. */
module Markup {
  import opened Text
  import opened Adf
  import opened Storage

  /** Character data and whole tags only: every '<' is closed by a '>' before the next '<'. */
  predicate Complete(s: string) {
    if s == "" then true
    else if s[0] != '<' then Complete(s[1..])
    else
      var end := IndexByte(s, '>');
      end >= 0 && '<' !in s[1..end] && Complete(s[end + 1..])
  }

  /** The tags of the markup in order, each without its angle brackets. */
  function Tags(s: string): seq<string>
    requires Complete(s)
  {
    if s == "" then []
    else if s[0] != '<' then Tags(s[1..])
    else
      var end := IndexByte(s, '>');
      [s[1..end]] + Tags(s[end + 1..])
  }

  predicate Boundary(c: char) { c in " \t\r\n>/" }

  /** The element name a tag starts with. */
  function NameOf(tag: string): (name: string)
    ensures name <= tag
    ensures forall c :: c in name ==> !Boundary(c)
    ensures |name| < |tag| ==> Boundary(tag[|name|])
  {
    if tag == "" || Boundary(tag[0]) then "" else [tag[0]] + NameOf(tag[1..])
  }

  predicate Closes(tag: string) { tag != "" && tag[0] == '/' }

  predicate SelfCloses(tag: string) { tag != "" && tag[|tag| - 1] == '/' }

  /** Reading tags with a stack of open elements; None when a close does not match. */
  function Run(tags: seq<string>, stack: seq<string>): Option<seq<string>> {
    if tags == [] then Some(stack)
    else
      var t := ToLower(tags[0]);
      if Closes(t) then
        if stack != [] && t[1..] == stack[0] then Run(tags[1..], stack[1..]) else None
      else if NameOf(t) == "" then None
      else if SelfCloses(t) then Run(tags[1..], stack)
      else Run(tags[1..], [NameOf(t)] + stack)
  }

  /** The open elements after one more tag of well-nested markup. */
  function NextStack(t: string, stack: seq<string>): seq<string> {
    if Closes(t) then (if stack == [] then [] else stack[1..])
    else if SelfCloses(t) then stack
    else [NameOf(t)] + stack
  }

  predicate Readable(t: string, stack: seq<string>) {
    if Closes(t) then stack != [] && t[1..] == stack[0] else NameOf(t) != ""
  }

  /** Reading the tag that markup starts with. */
  lemma ReadTag(s: string, stack: seq<string>) returns (tag: string, rest: string)
    requires s != "" && s[0] == '<' && Complete(s) && Run(Tags(s), stack).Some?
    ensures s == "<" + tag + ">" + rest && |s| == |tag| + 2 + |rest| && '<' !in tag && '>' !in tag
    ensures Readable(ToLower(tag), stack)
    ensures Complete(rest) && Run(Tags(rest), NextStack(ToLower(tag), stack)) == Run(Tags(s), stack)
  {
    var end := IndexByte(s, '>');
    tag, rest := s[1..end], s[end + 1..];
    assert s == "<" + tag + ">" + rest;
    assert Tags(s) == [tag] + Tags(rest);
    assert Tags(s)[1..] == Tags(rest);
  }

  predicate WellNested(s: string) {
    Complete(s) && Run(Tags(s), []) == Some([])
  }

  lemma NestedComplete(s: string)
    requires WellNested(s)
    ensures Complete(s)
  {
  }

  // ---- composition ----

  lemma {:induction false} CompleteConcat(a: string, b: string)
    requires Complete(a)
    ensures Complete(a + b) <==> Complete(b)
    ensures Complete(b) ==> Tags(a + b) == Tags(a) + Tags(b)
  {
    if a == "" {
      assert a + b == b;
    } else if a[0] != '<' {
      CompleteConcat(a[1..], b);
      assert (a + b)[1..] == a[1..] + b;
    } else {
      var end := IndexByte(a, '>');
      IndexByteIs(a + b, '>', end);
      assert (a + b)[end + 1..] == a[end + 1..] + b && (a + b)[1..end] == a[1..end];
      TagFirst(a, end);
      TagFirst(a + b, end);
      hide Complete, Tags, IndexByte;
      CompleteConcat(a[end + 1..], b);
      if Complete(b) { Assoc([a[1..end]], Tags(a[end + 1..]), Tags(b)); }
    }
  }

  lemma TagFirst(s: string, end: nat)
    requires s != "" && s[0] == '<' && IndexByte(s, '>') == end
    ensures 0 < end < |s|
    ensures Complete(s) <==> '<' !in s[1..end] && Complete(s[end + 1..])
    ensures Complete(s) ==> Tags(s) == [s[1..end]] + Tags(s[end + 1..])
  {
    hide IndexByte;
  }

  lemma {:induction false} RunConcat(a: seq<string>, b: seq<string>, stack: seq<string>)
    ensures Run(a + b, stack) == match Run(a, stack) case None => None case Some(mid) => Run(b, mid)
  {
    if a == [] {
      assert a + b == b;
    } else {
      assert (a + b)[1..] == a[1..] + b;
      var t := ToLower(a[0]);
      if Closes(t) {
        if stack != [] && t[1..] == stack[0] {
          RunConcat(a[1..], b, stack[1..]);
        }
      } else if NameOf(t) != "" {
        if SelfCloses(t) {
          RunConcat(a[1..], b, stack);
        } else {
          RunConcat(a[1..], b, [NameOf(t)] + stack);
        }
      }
    }
  }

  /** Elements opened before do not change how markup is read. */
  lemma {:induction false} RunFrame(tags: seq<string>, stack: seq<string>, under: seq<string>)
    requires Run(tags, stack).Some?
    ensures Run(tags, stack + under) == Some(Run(tags, stack).value + under)
  {
    if tags != [] {
      var t := ToLower(tags[0]);
      if Closes(t) {
        assert (stack + under)[1..] == stack[1..] + under;
        RunFrame(tags[1..], stack[1..], under);
      } else if SelfCloses(t) {
        RunFrame(tags[1..], stack, under);
      } else {
        assert [NameOf(t)] + (stack + under) == [NameOf(t)] + stack + under;
        RunFrame(tags[1..], [NameOf(t)] + stack, under);
      }
    }
  }

  lemma NestedConcat(a: string, b: string)
    requires WellNested(a) && WellNested(b)
    ensures WellNested(a + b)
    ensures Tags(a + b) == Tags(a) + Tags(b)
  {
    CompleteConcat(a, b);
    RunConcat(Tags(a), Tags(b), []);
  }

  lemma {:induction false} NestedText(s: string)
    requires '<' !in s
    ensures WellNested(s) && Tags(s) == []
  {
    if s != "" {
      NestedText(s[1..]);
    }
  }

  lemma CompleteTag(tag: string)
    requires '<' !in tag && '>' !in tag
    ensures Complete("<" + tag + ">") && Tags("<" + tag + ">") == [tag]
  {
    var s := "<" + tag + ">";
    IndexByteIs(s, '>', |tag| + 1);
    assert s[1..|tag| + 1] == tag;
    assert s[|tag| + 2..] == "";
    assert Tags(s) == [tag] + Tags("");
  }

  /** A tag that opens the element `name`. */
  predicate OpenTag(tag: string, name: string) {
    && '<' !in tag && '>' !in tag
    && name != "" && IsLower(name)
    && NameOf(ToLower(tag)) == name
    && !SelfCloses(tag)
  }

  lemma OpenTagIs(name: string, rest: string)
    requires PlainName(name)
    requires '<' !in rest && '>' !in rest
    requires rest == "" || (rest[0] == ' ' && rest[|rest| - 1] != '/')
    ensures OpenTag(name + rest, name)
  {
    LowerConcat(name, rest);
    LowerId(name);
    NameOfIs(name, ToLower(rest));
    hide NameOf, IsLower, ToLower, Lower;
    assert !NameChar('<') && !NameChar('>') && !NameChar('/');
    if rest == "" {
      assert name + rest == name;
      assert name[|name| - 1] in name;
    } else {
      assert (name + rest)[|name + rest| - 1] == rest[|rest| - 1];
    }
  }

  lemma {:induction false} NameOfIs(name: string, rest: string)
    requires forall c :: c in name ==> !Boundary(c)
    requires rest == "" || Boundary(rest[0])
    ensures NameOf(name + rest) == name
  {
    if name != "" {
      assert (name + rest)[1..] == name[1..] + rest;
      NameOfIs(name[1..], rest);
    }
  }

  /** A lower-case element name: what the printer writes between '<' and '>'. */
  predicate PlainName(name: string) {
    name != "" && forall c :: c in name ==> NameChar(c)
  }

  predicate NameChar(c: char) {
    'a' <= c <= 'z' || IsDigit(c) || c == ':' || c == '-'
  }

  lemma OpenTagRuns(tag: string, name: string, tags: seq<string>)
    requires OpenTag(tag, name)
    requires Run(tags, []) == Some([])
    ensures Run([tag] + tags + ["/" + name], []) == Some([])
  {
    var close := "/" + name;
    OpenRuns(tag, name, tags + [close]);
    CloseRuns(name);
    hide Run, OpenTag;
    RunFrame(tags, [], [name]);
    assert [] + [name] == [name];
    RunConcat(tags, [close], [name]);
    Assoc([tag], tags, [close]);
  }

  lemma OpenRuns(tag: string, name: string, tags: seq<string>)
    requires OpenTag(tag, name)
    ensures Run([tag] + tags, []) == Run(tags, [name])
  {
    assert ([tag] + tags)[1..] == tags && [name] + [] == [name];
    assert !Closes(ToLower(tag)) && !SelfCloses(ToLower(tag));
    hide ToLower, NameOf;
  }

  lemma CloseRuns(name: string)
    requires IsLower(name)
    ensures Run(["/" + name], [name]) == Some([])
  {
    var close := "/" + name;
    LowerConcat("/", name);
    LowerId(name);
    assert ToLower(close) == close && close[1..] == name;
    var tags, stack := [close], [name];
    assert tags[1..] == [] && stack[1..] == [];
  }

  lemma NameIsInert(tag: string, name: string)
    requires OpenTag(tag, name)
    ensures '<' !in name && '>' !in name
  {
    var low := ToLower(tag);
    assert forall i :: 0 <= i < |name| ==> name[i] == low[i] == Lower(tag[i]);
    assert forall i :: 0 <= i < |tag| ==> tag[i] in tag;
    assert forall c :: c in name ==> !Boundary(c);
  }

  lemma CompleteAround(open: string, body: string, close: string)
    requires Complete(open) && Complete(body) && Complete(close)
    ensures Complete(open + body + close)
    ensures Tags(open + body + close) == Tags(open) + Tags(body) + Tags(close)
  {
    CompleteConcat(open, body);
    CompleteConcat(open + body, close);
  }

  lemma ElemParts(tag: string, name: string, body: string)
    ensures Elem(tag, name, body) == ("<" + tag + ">") + body + ("<" + ("/" + name) + ">")
  {
    assert "</" + name + ">" == "<" + ("/" + name) + ">";
  }

  lemma NestedElem(tag: string, name: string, body: string)
    requires OpenTag(tag, name) && WellNested(body)
    ensures WellNested(Elem(tag, name, body))
    ensures Tags(Elem(tag, name, body)) == [tag] + Tags(body) + ["/" + name]
  {
    ElemParts(tag, name, body);
    NameIsInert(tag, name);
    CompleteTag(tag);
    CompleteTag("/" + name);
    CompleteAround("<" + tag + ">", body, "<" + ("/" + name) + ">");
    OpenTagRuns(tag, name, Tags(body));
  }

  lemma NestedSimple(name: string, body: string)
    requires PlainName(name) && WellNested(body)
    ensures WellNested(Elem(name, name, body))
    ensures Tags(Elem(name, name, body)) == [name] + Tags(body) + ["/" + name]
  {
    OpenTagIs(name, "");
    assert name + "" == name;
    NestedElem(name, name, body);
  }

  /** An element that closes itself. */
  lemma NestedEmpty(tag: string)
    requires '<' !in tag && '>' !in tag && SelfCloses(tag) && NameOf(ToLower(tag)) != ""
    ensures WellNested("<" + tag + ">")
    ensures Tags("<" + tag + ">") == [tag]
  {
    CompleteTag(tag);
    var low := ToLower(tag);
    assert SelfCloses(low) && !Closes(low);
    assert Run([tag], []) == Run([], []);
  }
}
