/** findClosing: the search for an element's close tag, and why it finds the right one. */
module Closing {
  import opened Text
  import opened Adf
  import opened Storage
  import opened Markup

  function After(k: nat, r: int): int {
    if r < 0 then -1 else k + r
  }

  /** Whether the name found at `next` belongs to a tag that opens an element of that name. */
  predicate Opens(low: string, next: nat, after: nat)
    requires next <= |low|
  {
    && after < |low| && Boundary(low[after])
    && var end := IndexByte(low[next..], '>');
       end > 0 && low[next + end - 1] != '/'
  }

  function CloseOf(name: string): (r: string)
    ensures |r| == |name| + 3
  {
    "</" + name + ">"
  }

  function OpenOf(name: string): (r: string)
    ensures |r| == |name| + 1
  {
    "<" + name
  }

  /** What one round of the search meets first: nothing, another tag, or a close tag. */
  datatype Hit = Nothing | Inner(after: nat, opens: bool) | Close(at: nat)

  function Seek(low: string, name: string): (h: Hit)
    ensures h.Inner? ==> 0 < h.after <= |low|
    ensures h.Close? ==> h.at + |name| + 3 <= |low|
  {
    var closeAt := Index(low, CloseOf(name));
    var next := Index(low, OpenOf(name));
    if closeAt < 0 then Nothing
    else if 0 <= next < closeAt then
      Inner(next + 1 + |name|, Opens(low, next, next + 1 + |name|))
    else Close(closeAt)
  }

  /** Where in lower-cased markup the close of `name` lies, `depth` inner ones to be passed first. */
  function ClosingIn(low: string, name: string, depth: nat): (r: int)
    ensures r == -1 || 0 <= r <= |low| - |name| - 3
    decreases |low|
  {
    match Seek(low, name)
    case Nothing => -1
    case Inner(after, opens) =>
      After(after, ClosingIn(low[after..], name, if opens then depth + 1 else depth))
    case Close(at) =>
      if depth == 0 then at
      else After(at + |name| + 3, ClosingIn(low[at + |name| + 3..], name, depth - 1))
  }

  /** The scanning loop, on positions in the whole source. */
  method FindClosing(source: string, name: string, from: nat) returns (end: int)
    requires from <= |source|
    ensures end == After(from, ClosingIn(ToLower(source[from..]), name, 0))
  {
    hide Seek, ClosingIn, Index, CloseOf, OpenOf, ToLower, After, Opens;
    var lower := ToLower(source);
    LowerDrop(source, from);
    ghost var sought := After(from, ClosingIn(lower[from..], name, 0));
    var depth: nat, at := 0, from;
    while true
      invariant from <= at <= |source|
      invariant After(at, ClosingIn(lower[at..], name, depth)) == sought
      decreases |source| - at
    {
      RoundAt(lower, name, at, depth);
      var closeAt := Index(lower[at..], CloseOf(name));
      if closeAt < 0 {
        return -1;
      }
      closeAt := closeAt + at;
      var next := Index(lower[at..], OpenOf(name));
      if next >= 0 && next + at < closeAt {
        next := next + at;
        var after := next + 1 + |name|;
        if Opens(lower, next, after) {
          depth := depth + 1;
        }
        at := after;
      } else {
        if depth == 0 {
          return closeAt;
        }
        depth := depth - 1;
        at := closeAt + |name| + 3;
      }
    }
  }

  /** One round of the search from position `at`. */
  lemma RoundAt(lower: string, name: string, at: nat, depth: nat)
    requires at <= |lower|
    ensures After(at, ClosingIn(lower[at..], name, depth)) ==
            var c, n := Index(lower[at..], CloseOf(name)), Index(lower[at..], OpenOf(name));
            if c < 0 then -1
            else if 0 <= n < c then
              var after := at + n + 1 + |name|;
              After(after, ClosingIn(lower[after..], name, if Opens(lower, at + n, after) then depth + 1 else depth))
            else if depth == 0 then at + c
            else After(at + c + |name| + 3, ClosingIn(lower[at + c + |name| + 3..], name, depth - 1))
    ensures at + Index(lower[at..], CloseOf(name)) + |name| + 3 <= |lower| || Index(lower[at..], CloseOf(name)) < 0
    ensures at + Index(lower[at..], OpenOf(name)) + |name| + 1 <= |lower| || Index(lower[at..], OpenOf(name)) < 0
  {
    hide Seek, ClosingIn, Index, CloseOf, OpenOf, Opens;
    var low := lower[at..];
    SeekIs(low, name);
    Round(low, name, depth);
    var c, n := Index(low, CloseOf(name)), Index(low, OpenOf(name));
    if c >= 0 {
      if 0 <= n < c {
        OpensAt(lower, at, n, n + 1 + |name|);
        assert low[n + 1 + |name|..] == lower[at + n + 1 + |name|..];
      } else {
        assert low[c + |name| + 3..] == lower[at + c + |name| + 3..];
      }
    }
  }

  lemma OpensAt(lower: string, at: nat, next: nat, after: nat)
    requires at + next <= |lower|
    ensures Opens(lower[at..], next, after) == Opens(lower, at + next, at + after)
  {
    assert lower[at..][next..] == lower[at + next..];
  }

  lemma SeekIs(low: string, name: string)
    ensures Seek(low, name) ==
            var closeAt := Index(low, CloseOf(name));
            var next := Index(low, OpenOf(name));
            if closeAt < 0 then Nothing
            else if 0 <= next < closeAt then Inner(next + 1 + |name|, Opens(low, next, next + 1 + |name|))
            else Close(closeAt)
  {
  }

  lemma Round(low: string, name: string, depth: nat)
    ensures ClosingIn(low, name, depth) ==
            match Seek(low, name)
            case Nothing => -1
            case Inner(after, opens) =>
              After(after, ClosingIn(low[after..], name, if opens then depth + 1 else depth))
            case Close(at) =>
              if depth == 0 then at
              else After(at + |name| + 3, ClosingIn(low[at + |name| + 3..], name, depth - 1))
  {
    hide Seek;
  }

  // ---- the search step by step ----

  predicate GoodName(name: string) {
    name != "" && forall c :: c in name ==> !Boundary(c) && c != '<'
  }

  function Later(k: nat, h: Hit): Hit {
    match h
    case Nothing => Nothing
    case Inner(after, opens) => Inner(after + k, opens)
    case Close(at) => Close(at + k)
  }

  lemma IndexPast(s: string, pat: string)
    requires s != "" && !(pat <= s)
    ensures Index(s, pat) == After(1, Index(s[1..], pat))
  {
  }

  lemma SeekPast(low: string, name: string)
    requires low != "" && !(CloseOf(name) <= low) && !(OpenOf(name) <= low)
    ensures Seek(low, name) == Later(1, Seek(low[1..], name))
  {
    hide Index, CloseOf, OpenOf, IndexByte;
    var rest := low[1..];
    IndexPast(low, CloseOf(name));
    IndexPast(low, OpenOf(name));
    var n := Index(rest, OpenOf(name));
    if n >= 0 {
      assert low[n + 1..] == rest[n..];
    }
  }

  lemma SeekDecides(low: string, name: string, depth: nat)
    requires low != "" && Seek(low, name) == Later(1, Seek(low[1..], name))
    ensures ClosingIn(low, name, depth) == After(1, ClosingIn(low[1..], name, depth))
  {
    hide Seek;
    var rest := low[1..];
    match Seek(rest, name)
    case Nothing =>
    case Inner(after, _) => assert low[after + 1..] == rest[after..];
    case Close(at) => assert low[1 + at + |name| + 3..] == rest[at + |name| + 3..];
  }

  /** When neither pattern starts here, the search goes on behind this character. */
  lemma PassFirst(low: string, name: string, depth: nat)
    requires low != "" && !(CloseOf(name) <= low) && !(OpenOf(name) <= low)
    ensures ClosingIn(low, name, depth) == After(1, ClosingIn(low[1..], name, depth))
  {
    SeekPast(low, name);
    SeekDecides(low, name, depth);
  }

  lemma {:induction false} SkipChars(low: string, k: nat, name: string, depth: nat)
    requires k <= |low| && forall j :: 0 <= j < k ==> low[j] != '<'
    ensures ClosingIn(low, name, depth) == After(k, ClosingIn(low[k..], name, depth))
  {
    if k > 0 {
      assert CloseOf(name)[0] == '<' && OpenOf(name)[0] == '<';
      PassFirst(low, name, depth);
      SkipChars(low[1..], k - 1, name, depth);
      assert low[1..][k - 1..] == low[k..];
    } else {
      assert low[0..] == low;
    }
  }

  /** Two names without '>' that differ have close tags neither of which starts the other. */
  lemma {:induction false} OtherClose(t: string, name: string, low: string)
    requires '>' !in t && '>' !in name && t != name
    ensures !(CloseOf(name) <= "</" + t + ">" + low)
  {
    var all, close := "</" + t + ">" + low, CloseOf(name);
    if |t| < |name| {
      assert all[|t| + 2] == '>';
      assert close[|t| + 2] == name[|t|] && name[|t|] in name;
    } else if |name| < |t| {
      assert close[|name| + 2] == '>';
      assert all[|name| + 2] == t[|name|] && t[|name|] in t;
    } else {
      var j :| 0 <= j < |t| && t[j] != name[j];
      assert all[j + 2] == t[j] && close[j + 2] == name[j];
    }
  }

  /** A close tag of another name is passed over. */
  lemma SkipClose(t: string, name: string, low: string, depth: nat)
    requires GoodName(name) && '<' !in t && '>' !in t && Closes(t) && t[1..] != name
    requires Index(low, CloseOf(name)) >= 0
    ensures ClosingIn("<" + t + ">" + low, name, depth) == After(|t| + 2, ClosingIn(low, name, depth))
  {
    var all := "<" + t + ">" + low;
    assert all[1] == '/';
    assert OpenOf(name)[1] in name;
    OtherClose(t[1..], name, low);
    assert all == "</" + t[1..] + ">" + low;
    PassFirst(all, name, depth);
    SkipTag(t, low, all, name, depth);
  }

  lemma SkipTag(t: string, low: string, all: string, name: string, depth: nat)
    requires '<' !in t && all == "<" + t + ">" + low
    ensures ClosingIn(all[1..], name, depth) == After(|t| + 1, ClosingIn(low, name, depth))
  {
    assert all[1..] == t + ">" + low;
    assert all[1..][|t| + 1..] == low;
    SkipChars(all[1..], |t| + 1, name, depth);
  }

  /** The close tag searched for, with inner ones still open. */
  lemma OwnClose(name: string, low: string, depth: nat)
    requires GoodName(name)
    ensures Seek(CloseOf(name) + low, name) == Close(0)
    ensures depth > 0 ==>
              ClosingIn(CloseOf(name) + low, name, depth) == After(|name| + 3, ClosingIn(low, name, depth - 1))
    ensures ClosingIn(CloseOf(name) + low, name, 0) == 0
  {
    var all := CloseOf(name) + low;
    assert CloseOf(name) <= all;
    assert Index(all, OpenOf(name)) != 0 by {
      assert all[1] == '/';
      assert OpenOf(name)[1] in name;
    }
    SeekIs(all, name);
    hide Seek;
    assert all[0 + |name| + 3..] == low;
  }

  /** A tag that begins with the name: counted when it opens that very element. */
  lemma OwnName(t: string, name: string, low: string, depth: nat)
    requires GoodName(name) && '<' !in t && '>' !in t && name <= t
    requires Index(low, CloseOf(name)) >= 0
    ensures ClosingIn("<" + t + ">" + low, name, depth) ==
            After(|t| + 2, ClosingIn(low, name, if NameOf(t) == name && !SelfCloses(t) then depth + 1 else depth))
  {
    hide Seek, ClosingIn, Opens, Index, CloseOf, OpenOf;
    var all := "<" + t + ">" + low;
    var after := 1 + |name|;
    SeekOwn(t, name, low);
    Round(all, name, depth);
    var d := if NameOf(t) == name && !SelfCloses(t) then depth + 1 else depth;
    BehindName(t, name, low);
    SkipChars(all[after..], |t| - |name| + 1, name, d);
  }

  lemma BehindName(t: string, name: string, low: string)
    requires '<' !in t && name <= t
    ensures var rest := ("<" + t + ">" + low)[1 + |name|..];
            var k := |t| - |name| + 1;
            k <= |rest| && rest[k..] == low && forall j :: 0 <= j < k ==> rest[j] != '<'
  {
    var rest := ("<" + t + ">" + low)[1 + |name|..];
    assert rest == t[|name|..] + ">" + low;
    assert forall j :: 0 <= j < |t| ==> t[j] in t;
  }

  lemma SeekOwn(t: string, name: string, low: string)
    requires GoodName(name) && '<' !in t && '>' !in t && name <= t
    requires Index(low, CloseOf(name)) >= 0
    ensures Seek("<" + t + ">" + low, name) == Inner(1 + |name|, NameOf(t) == name && !SelfCloses(t))
  {
    var all := "<" + t + ">" + low;
    OpensOwn(t, name, low);
    CloseAhead(t, name, low);
    assert OpenOf(name) <= all;
    assert Index(all, OpenOf(name)) == 0;
    hide Opens, Index;
    SeekIs(all, name);
  }

  lemma OwnTagEnds(t: string, low: string)
    requires '>' !in t
    ensures var all := "<" + t + ">" + low;
            IndexByte(all, '>') == |t| + 1 && all[0..] == all && forall j :: 0 <= j < |t| ==> all[j + 1] == t[j]
  {
    var all := "<" + t + ">" + low;
    assert forall j :: 0 <= j < |t| ==> all[j + 1] == t[j] && t[j] in t;
    IndexByteIs(all, '>', |t| + 1);
  }

  lemma NameEnds(t: string, name: string)
    requires GoodName(name) && name <= t
    ensures NameOf(t) == name <==> |name| == |t| || Boundary(t[|name|])
  {
    assert t == name + t[|name|..];
    if |name| == |t| || Boundary(t[|name|]) {
      NameOfIs(name, t[|name|..]);
    } else {
      assert NameOf(t) != name;
    }
  }

  lemma OpensOwn(t: string, name: string, low: string)
    requires GoodName(name) && '>' !in t && name <= t
    ensures Opens("<" + t + ">" + low, 0, 1 + |name|) <==> NameOf(t) == name && !SelfCloses(t)
  {
    hide IndexByte, NameOf, GoodName;
    OwnTagEnds(t, low);
    NameEnds(t, name);
    var all := "<" + t + ">" + low;
    assert all[|t| + 1] == '>';
    assert all[1 + |name|] == if |name| < |t| then t[|name|] else '>';
  }

  lemma NotClosing(all: string, name: string)
    requires |all| > 1 && all[1] != '/'
    ensures !(CloseOf(name) <= all)
  {
    assert CloseOf(name)[1] == '/';
  }

  lemma CloseAhead(t: string, name: string, low: string)
    requires GoodName(name) && name <= t && Index(low, CloseOf(name)) >= 0
    ensures Index("<" + t + ">" + low, CloseOf(name)) > 0
  {
    hide CloseOf, Index;
    var all, pat := "<" + t + ">" + low, CloseOf(name);
    var j := Index(low, pat);
    IndexFirst(low, pat, j);
    assert all[|t| + 2 + j..] == low[j..];
    IndexFirst(all, pat, |t| + 2 + j);
    assert all[1] == t[0] == name[0] && name[0] in name;
    NotClosing(all, name);
    IndexFirst(all, pat, 0);
    assert all[0..] == all;
  }

  /** A tag that does not begin with the name is passed over. */
  lemma OtherName(t: string, name: string, low: string, depth: nat)
    requires GoodName(name) && '<' !in t && '>' !in t && t != "" && !Closes(t) && !(name <= t)
    ensures ClosingIn("<" + t + ">" + low, name, depth) == After(|t| + 2, ClosingIn(low, name, depth))
  {
    var all := "<" + t + ">" + low;
    assert all[1] == t[0];
    NotClosing(all, name);
    assert !(OpenOf(name) <= all) by {
      if |name| <= |t| {
        var j :| 0 <= j < |name| && name[j] != t[j];
        assert OpenOf(name)[j + 1] == name[j] && all[j + 1] == t[j];
      } else {
        assert OpenOf(name)[|t| + 1] == name[|t|] && name[|t|] in name;
        assert all[|t| + 1] == '>';
      }
    }
    PassFirst(all, name, depth);
    SkipTag(t, low, all, name, depth);
  }

  function Count(stack: seq<string>, name: string): nat {
    if stack == [] then 0 else (if stack[0] == name then 1 else 0) + Count(stack[1..], name)
  }

  /** How deep the search is after reading one more tag. */
  function DepthAfter(t: string, name: string, depth: nat): nat {
    if Closes(t) then (if t[1..] == name && depth > 0 then depth - 1 else depth)
    else if NameOf(t) == name && !SelfCloses(t) then depth + 1 else depth
  }

  lemma TagStep(t: string, name: string, low: string, depth: nat)
    requires GoodName(name) && '<' !in t && '>' !in t && t != ""
    requires t == "/" + name ==> depth > 0
    requires Index(low, CloseOf(name)) >= 0
    ensures ClosingIn("<" + t + ">" + low, name, depth) ==
            After(|t| + 2, ClosingIn(low, name, DepthAfter(t, name, depth)))
  {
    hide Seek, ClosingIn, Index, Opens;
    if Closes(t) {
      assert t == "/" + t[1..];
      if t[1..] == name {
        OwnClose(name, low, depth);
        assert "<" + t + ">" + low == CloseOf(name) + low;
      } else {
        SkipClose(t, name, low, depth);
      }
    } else if name <= t {
      OwnName(t, name, low, depth);
    } else {
      OtherName(t, name, low, depth);
    }
  }

  /** Reading well-nested markup from a stack of open elements, the search ends at its end. */
  lemma {:induction false} Matching(s: string, name: string, tail: string, stack: seq<string>)
    requires GoodName(name) && CloseOf(name) <= tail
    requires Complete(s) && Run(Tags(s), stack) == Some([])
    ensures ClosingIn(ToLower(s) + tail, name, Count(stack, name)) == |s|
    decreases |s|
  {
    hide Seek, ClosingIn, Opens, CloseOf;
    if s == "" {
      assert stack == [];
      assert ToLower(s) + tail == tail;
      MatchingEnd(name, tail);
    } else if s[0] != '<' {
      Matching(s[1..], name, tail, stack);
      MatchingText(s, name, tail, Count(stack, name));
    } else {
      var tag, rest := ReadTag(s, stack);
      MatchingTag(tag, rest, name, tail, stack);
      hide Complete, Tags, Run, ToLower;
      Matching(rest, name, tail, NextStack(ToLower(tag), stack));
    }
  }

  lemma MatchingText(s: string, name: string, tail: string, depth: nat)
    requires s != "" && s[0] != '<'
    ensures ClosingIn(ToLower(s) + tail, name, depth) == After(1, ClosingIn(ToLower(s[1..]) + tail, name, depth))
  {
    var low := ToLower(s) + tail;
    assert low[1..] == ToLower(s[1..]) + tail;
    assert CloseOf(name)[0] == '<' && OpenOf(name)[0] == '<' && low[0] == Lower(s[0]);
    PassFirst(low, name, depth);
  }

  lemma MatchingEnd(name: string, tail: string)
    requires GoodName(name) && CloseOf(name) <= tail
    ensures ClosingIn(tail, name, 0) == 0
  {
    assert tail == CloseOf(name) + tail[|name| + 3..];
    OwnClose(name, tail[|name| + 3..], 0);
  }

  lemma MatchingTag(tag: string, s: string, name: string, tail: string, stack: seq<string>)
    requires GoodName(name) && CloseOf(name) <= tail
    requires '<' !in tag && '>' !in tag
    requires Readable(ToLower(tag), stack)
    ensures ClosingIn(ToLower("<" + tag + ">" + s) + tail, name, Count(stack, name)) ==
            After(|tag| + 2, ClosingIn(ToLower(s) + tail, name, Count(NextStack(ToLower(tag), stack), name)))
  {
    hide Seek, ClosingIn, Opens;
    var t, low := ToLower(tag), ToLower(s) + tail;
    assert ToLower("<" + tag + ">" + s) + tail == "<" + t + ">" + low;
    assert low[|s|..] == tail;
    IndexFirst(low, CloseOf(name), |s|);
    assert forall i :: 0 <= i < |tag| ==> tag[i] in tag;
    assert Count(NextStack(t, stack), name) == DepthAfter(t, name, Count(stack, name)) by {
      if !Closes(t) && !SelfCloses(t) {
        assert ([NameOf(t)] + stack)[1..] == stack;
      }
    }
    TagStep(t, name, low, Count(stack, name));
  }

  /**
   * On well-nested markup the search finds the close tag that matches: it passes inner elements
   * of the same name, elements whose names begin with it, and elements that close themselves.
   */
  lemma FindsMatchingClose(before: string, body: string, name: string, close: string, rest: string)
    requires GoodName(name) && WellNested(body) && ToLower(close) == CloseOf(name)
    ensures var source := before + body + close + rest;
            After(|before|, ClosingIn(ToLower(source[|before|..]), name, 0)) == |before| + |body|
  {
    hide ClosingIn;
    var tail := ToLower(close + rest);
    LowerConcat(close, rest);
    LowerConcat(body, close + rest);
    assert (before + body + close + rest)[|before|..] == body + (close + rest);
    Matching(body, name, tail, []);
  }
}
