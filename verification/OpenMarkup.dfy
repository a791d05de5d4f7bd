/** Markup whose last elements are left open, and what the parser makes of it. */
module OpenMarkup {
  import opened Text
  import opened Adf
  import opened Storage
  import opened Markup
  import opened Closing
  import opened HtmlReader
  import opened Reading

  /** Every close matches, but elements may still be open at the end. */
  predicate LeftOpen(s: string) {
    Complete(s) && Run(Tags(s), []).Some?
  }

  /** Well-nested markup before open markup leaves it open. */
  lemma OpenBehind(a: string, b: string)
    requires WellNested(a) && LeftOpen(b)
    ensures LeftOpen(a + b) && Tags(a + b) == Tags(a) + Tags(b)
  {
    hide Complete, Tags, Run;
    CompleteConcat(a, b);
    RunConcat(Tags(a), Tags(b), []);
  }

  /** An opening tag before open markup leaves one element more open. */
  lemma OpenInside(tag: string, name: string, s: string)
    requires OpenTag(tag, name) && LeftOpen(s)
    ensures LeftOpen("<" + tag + ">" + s) && Tags("<" + tag + ">" + s) == [tag] + Tags(s)
  {
    hide Complete, Tags;
    CompleteTag(tag);
    CompleteConcat("<" + tag + ">", s);
    RunFrame(Tags(s), [], [name]);
    assert [] + [name] == [name] && [name] + [] == [name];
    assert ([tag] + Tags(s))[1..] == Tags(s);
  }

  // ---- the search for a close tag ----

  lemma NoClose(low: string, name: string, depth: nat)
    requires Index(low, CloseOf(name)) < 0
    ensures ClosingIn(low, name, depth) == -1
  {
  }

  lemma LowerTag(tag: string, s: string)
    ensures ToLower("<" + tag + ">" + s) == "<" + ToLower(tag) + ">" + ToLower(s)
    ensures '<' !in tag && '>' !in tag ==> '<' !in ToLower(tag) && '>' !in ToLower(tag)
  {
    assert forall i :: 0 <= i < |tag| ==> tag[i] in tag;
  }

  lemma CountNext(t: string, name: string, stack: seq<string>)
    requires Readable(t, stack)
    ensures Count(NextStack(t, stack), name) == DepthAfter(t, name, Count(stack, name))
    ensures t == "/" + name ==> Count(stack, name) > 0
  {
    if !Closes(t) && !SelfCloses(t) {
      assert ([NameOf(t)] + stack)[1..] == stack;
    }
    if t == "/" + name { assert t[1..] == name; }
  }

  /** The tag is passed, or it closes an inner element: never the one that is sought. */
  lemma PassesTag(t: string, name: string, low: string, depth: nat)
    requires GoodName(name) && '<' !in t && '>' !in t && t != "" && (t == "/" + name ==> depth > 0)
    requires ClosingIn(low, name, DepthAfter(t, name, depth)) == -1
    ensures ClosingIn("<" + t + ">" + low, name, depth) == -1
  {
    hide ClosingIn, Index;
    var all := "<" + t + ">" + low;
    if t == "/" + name {
      OwnClose(name, low, depth);
      assert t[1..] == name;
      assert all == CloseOf(name) + low;
    } else if Index(low, CloseOf(name)) >= 0 {
      TagStep(t, name, low, depth);
    } else {
      CloseTagOf(name);
      PassTag(t, low, "/" + name);
      NoClose(all, name, depth);
    }
  }

  lemma CloseTagOf(name: string)
    requires GoodName(name)
    ensures CloseOf(name) == "<" + ("/" + name) + ">" && '<' !in "/" + name && '>' !in "/" + name
  {
  }

  lemma PassesText(s: string, name: string, depth: nat)
    requires s != "" && s[0] != '<' && ClosingIn(ToLower(s[1..]), name, depth) == -1
    ensures ClosingIn(ToLower(s), name, depth) == -1
  {
    hide ClosingIn;
    assert ToLower(s)[1..] == ToLower(s[1..]);
    assert CloseOf(name)[0] == '<' && OpenOf(name)[0] == '<' && ToLower(s)[0] == Lower(s[0]);
    PassFirst(ToLower(s), name, depth);
  }

  /** In markup that closes only what it opened, no close of an element opened before is found. */
  lemma {:induction false} NeverCloses(s: string, name: string, stack: seq<string>)
    requires GoodName(name) && Complete(s) && Run(Tags(s), stack).Some?
    ensures ClosingIn(ToLower(s), name, Count(stack, name)) == -1
    decreases |s|
  {
    hide ClosingIn, Index, GoodName;
    if s == "" {
      NothingInNothing(name);
      NoClose(ToLower(s), name, Count(stack, name));
    } else if s[0] != '<' {
      NeverCloses(s[1..], name, stack);
      PassesText(s, name, Count(stack, name));
    } else {
      var tag, rest := ReadTag(s, stack);
      hide Complete, Tags, Run;
      NeverCloses(rest, name, NextStack(ToLower(tag), stack));
      LowerTag(tag, rest);
      CountNext(ToLower(tag), name, stack);
      assert ToLower(tag) != "" by { NotNameless(ToLower(tag), stack); }
      PassesTag(ToLower(tag), name, ToLower(rest), Count(stack, name));
    }
  }

  lemma NothingInNothing(name: string)
    ensures Index(ToLower(""), CloseOf(name)) < 0
  {
  }

  lemma NotNameless(t: string, stack: seq<string>)
    requires Readable(t, stack)
    ensures t != ""
  {
  }

  /** An element whose close is not found takes all that is left. */
  lemma Unclosed(tag: string, name: string, rest: string)
    requires tag != "" && tag[0] != '!' && '>' !in tag && !SelfCloses(tag) && TagName(tag) == name != ""
    requires ClosingIn(ToLower(rest), name, 0) < 0
    ensures var s := "<" + tag + ">" + rest;
            ElementOf(s) == Element(name, tag, rest, |s|)
  {
    hide TagName, ClosingIn, SelfCloses, ToLower;
    var s := "<" + tag + ">" + rest;
    OwnTagEnds(tag, rest);
    assert s[1..|tag| + 1] == tag && s[|tag| + 2..] == rest;
    assert !("!" <= tag);
  }

  /** An element left open is read to the end of the markup. */
  lemma OpenElement(tag: string, name: string, rest: string)
    requires OpenTag(tag, name) && PlainName(name) && TagName(tag) == name && name <= tag && LeftOpen(rest)
    ensures var s := "<" + tag + ">" + rest;
            ElementOf(s) == Element(name, tag, rest, |s|)
  {
    hide TagName, ClosingIn, Complete, Tags, Run, ElementOf;
    PlainFacts(name);
    NeverCloses(rest, name, []);
    Unclosed(tag, name, rest);
  }
}
