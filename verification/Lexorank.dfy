/** Ranks that sort before, after and between others, and when one is found. */
module Lexorank {
  import opened Text
  import opened Adf

  // ---- ranks ----

  predicate Letter(c: char) {
    'A' <= c <= 'Z' || 'a' <= c <= 'z'
  }

  predicate IsRank(s: string) {
    forall i :: 0 <= i < |s| ==> Letter(s[i])
  }

  /** The place of a letter in the alphabet of two bands, the lower one first. */
  function Place(c: char): (i: nat)
    requires Letter(c)
    ensures i < 52 && At(i) == c
  {
    if c >= 'a' then 26 + (c as int - 'a' as int) else c as int - 'A' as int
  }

  function At(i: nat): (c: char)
    requires i < 52
    ensures Letter(c)
  {
    if i < 26 then ('A' as int + i) as char else ('a' as int + (i - 26)) as char
  }

  lemma AtRises(i: nat, j: nat)
    requires i < 52 && j < 52
    ensures At(i) < At(j) <==> i < j
    ensures Place(At(i)) == i
  {
  }

  /** Strings that differ first at some place are in the order of their letters there. */
  lemma {:induction false} BelowAt(a: string, b: string, k: nat)
    requires k < |b| && k <= |a| && a[..k] == b[..k] && (k == |a| || a[k] < b[k])
    ensures Below(a, b)
  {
    if k > 0 {
      assert a[0] == a[..k][0] && b[0] == b[..k][0];
      assert a[1..][..k - 1] == a[..k][1..] && b[1..][..k - 1] == b[..k][1..];
      BelowAt(a[1..], b[1..], k - 1);
    }
  }

  lemma {:induction false} BelowDiffers(a: string, b: string) returns (k: nat)
    requires Below(a, b)
    ensures k < |b| && k <= |a| && a[..k] == b[..k] && (k == |a| || a[k] < b[k])
  {
    if a == "" || a[0] < b[0] {
      k := 0;
    } else {
      var j := BelowDiffers(a[1..], b[1..]);
      k := j + 1;
      assert a[..k] == [a[0]] + a[1..][..j] && b[..k] == [b[0]] + b[1..][..j];
    }
  }

  predicate Ranked(s: string) {
    s != "" && IsRank(s)
  }

  // ---- before ----

  /** A rank below another: of its first letter above the lowest, the letter before it and the highest one. */
  function Before(s: string): (r: Option<string>)
    requires Ranked(s)
    ensures r.Some? ==> Ranked(r.value) && 2 <= |r.value| <= |s| + 1
  {
    if s[0] == 'A' then
      if |s| == 1 then None
      else
        var sub := Before(s[1..]);
        if sub.None? then None else Some(['A'] + sub.value)
    else Some([At(Place(s[0]) - 1)] + "z")
  }

  lemma {:induction false} BeforeIsBelow(s: string)
    requires Ranked(s) && Before(s).Some?
    ensures Below(Before(s).value, s)
  {
    if s[0] == 'A' {
      BeforeIsBelow(s[1..]);
      var r := Before(s).value;
      assert r[1..] == Before(s[1..]).value;
    } else {
      AtRises(Place(s[0]) - 1, Place(s[0]));
    }
  }

  predicate AllLowest(s: string) {
    forall i :: 0 <= i < |s| ==> s[i] == 'A'
  }

  /** None is found exactly below ranks of the lowest letter alone. */
  lemma {:induction false} BeforeExactly(s: string)
    requires Ranked(s)
    ensures Before(s).None? <==> AllLowest(s)
  {
    if s[0] == 'A' && |s| > 1 {
      BeforeExactly(s[1..]);
      assert s == [s[0]] + s[1..];
    }
  }

  /** Yet there is a rank below each of those but one. */
  lemma RoomBelow(s: string)
    requires Ranked(s)
    ensures (exists r :: Ranked(r) && Below(r, s)) <==> s != "A"
  {
    if s != "A" {
      var r := "A";
      assert Letter('A') && Below("", s[1..]) == (s[1..] != "");
      assert s[0] == 'A' ==> s == [s[0]] + s[1..] && s[1..] != "";
      assert Ranked(r) && Below(r, s);
    }
  }

  /** What is found is not the largest rank below, whatever it is. */
  lemma BeforeIsNotLargest(s: string)
    requires Ranked(s) && Before(s).Some?
    ensures var r := Before(s).value; Below(r, r + "z") && Below(r + "z", s)
    decreases s
  {
    var r := Before(s).value;
    BelowAt(r, r + "z", |r|);
    if s[0] == 'A' {
      BeforeIsNotLargest(s[1..]);
      assert (r + "z")[1..] == Before(s[1..]).value + "z";
    } else {
      AtRises(Place(s[0]) - 1, Place(s[0]));
      assert (r + "z")[0] == r[0];
    }
  }

  /** It is the largest of those no longer than itself that do not begin as the bound does. */
  lemma {:induction false} BeforeIsLargestOf(s: string, t: string)
    requires Ranked(s) && Before(s).Some? && Ranked(t) && Below(t, s)
    requires |t| <= |Before(s).value| && !(s[..|Before(s).value| - 1] <= t)
    ensures t == Before(s).value || Below(t, Before(s).value)
    decreases s
  {
    var r := Before(s).value;
    assert t == [t[0]] + t[1..];
    if s[0] == 'A' {
      var sub := Before(s[1..]).value;
      assert r[1..] == sub && t[0] == 'A';
      if t[1..] != "" {
        assert s[..|r| - 1] == ['A'] + s[1..][..|sub| - 1];
        BeforeIsLargestOf(s[1..], t[1..]);
      }
    } else {
      assert s[..1] == [s[0]] && t[0] != s[0];
      AtRises(Place(t[0]), Place(s[0]));
      AtRises(Place(t[0]), Place(s[0]) - 1);
      if t[0] == r[0] && t[1..] != "" {
        assert t[1..] == [t[1]] && r[1..] == "z" && t[1..][1..] == "";
      }
    }
  }

  // ---- after ----

  /** The last letter that can be raised, or -1. */
  function LastRaisable(s: string): (i: int)
    ensures -1 <= i < |s|
    ensures i >= 0 ==> s[i] != 'z'
    ensures forall j :: i < j < |s| ==> s[j] == 'z'
  {
    if s == "" then -1
    else if s[|s| - 1] != 'z' then |s| - 1
    else LastRaisable(s[..|s| - 1])
  }

  /** A rank above another: its last letter that can be raised, raised, or one more letter. */
  function AfterOf(s: string): (r: string)
    requires Ranked(s)
    ensures Ranked(r)
  {
    var i := LastRaisable(s);
    if i < 0 then s + [At(26)] else s[..i] + [At(Raised(s[i]))]
  }

  function Raised(c: char): (i: nat)
    requires Letter(c) && c != 'z'
    ensures i < 52 && c < At(i)
    ensures forall d :: Letter(d) && c < d ==> At(i) <= d
  {
    AtRises(Place(c), Place(c) + 1);
    Place(c) + 1
  }

  /** The answer is above, and so is a rank yet lower: it is never the smallest rank above. */
  lemma AfterIsAbove(s: string)
    requires Ranked(s)
    ensures Below(s, AfterOf(s)) && Below(s, s + "A") && Below(s + "A", AfterOf(s))
  {
    var i, r := LastRaisable(s), AfterOf(s);
    hide LastRaisable, Below;
    BelowAt(s, s + "A", |s|);
    if i < 0 {
      BelowAt(s, r, |s|);
      BelowAt(s + "A", r, |s|);
    } else {
      assert r[..i] == s[..i] && (s + "A")[..i] == s[..i];
      BelowAt(s, r, i);
      BelowAt(s + "A", r, i);
    }
  }

  lemma AfterShape(s: string)
    requires Ranked(s) && LastRaisable(s) >= 0
    ensures var i, r := LastRaisable(s), AfterOf(s);
            |r| == i + 1 && r[..i] == s[..i] && r[i] == At(Raised(s[i]))
  {
    hide LastRaisable, Raised, At;
  }

  lemma RaisedIsLeast(c: char, d: char)
    requires Letter(c) && Letter(d) && c < d
    ensures c != 'z' && At(Raised(c)) <= d
  {
    hide Raised, At, Place;
  }

  /** It is the smallest rank above that does not begin with the bound itself. */
  lemma AfterIsSmallestOf(s: string, t: string)
    requires Ranked(s) && Ranked(t) && Below(s, t) && !(s <= t)
    ensures t == AfterOf(s) || Below(AfterOf(s), t)
  {
    hide LastRaisable, Below, At, Raised, AfterOf;
    var k := BelowDiffers(s, t);
    assert k < |s| by { assert s[..|s|] == s; }
    assert Letter(s[k]) && Letter(t[k]);
    RaisedIsLeast(s[k], t[k]);
    var i, r := LastRaisable(s), AfterOf(s);
    assert k <= i;
    AfterShape(s);
    if k < i {
      assert r[..k] == s[..i][..k] == s[..k] && r[k] == s[..i][k];
      BelowAt(r, t, k);
    } else {
      EqualOrBelow(r, t);
    }
  }

  lemma EqualOrBelow(r: string, t: string)
    requires r != "" && |r| <= |t| && r[..|r| - 1] == t[..|r| - 1] && r[|r| - 1] <= t[|r| - 1]
    ensures t == r || Below(r, t)
  {
    hide Below;
    var i := |r| - 1;
    if r[i] < t[i] {
      BelowAt(r, t, i);
    } else if |t| > |r| {
      assert t[..|r|] == r[..|r|];
      BelowAt(r, t, |r|);
    }
  }

  /** The loop that raises the last letter that can be raised, or adds one. */
  method After(s: string) returns (r: string)
    requires Ranked(s)
    ensures r == AfterOf(s)
  {
    var i := |s| - 1;
    while i >= 0
      invariant -1 <= i < |s|
      invariant forall j :: i < j < |s| ==> s[j] == 'z'
    {
      if s[i] != 'z' {
        assert LastRaisable(s) == i;
        r := s[..i] + [At(Place(s[i]) + 1)];
        return;
      }
      i := i - 1;
    }
    r := s + [At(26)];
  }

  // ---- between ----

  /** The lower bound as the loop reads it: past its end it goes on with the lowest letter. */
  function LowerAt(a: string, i: nat): (n: nat)
    requires IsRank(a)
    ensures n < 52
  {
    if i < |a| then Place(a[i]) else 0
  }

  /** The upper bound as the loop reads it: past its end it goes on with its last letter. */
  function UpperAt(b: string, i: nat): (n: nat)
    requires Ranked(b)
    ensures n < 52
  {
    if i < |b| then Place(b[i]) else Place(b[|b| - 1])
  }

  /** A letter fits between. */
  predicate Gap(a: string, b: string, i: nat)
    requires IsRank(a) && Ranked(b)
  {
    UpperAt(b, i) - LowerAt(a, i) >= 2
  }

  /** The upper bound's own letter falls below the lower one's. */
  predicate Falls(a: string, b: string, i: nat)
    requires IsRank(a) && Ranked(b)
  {
    i < |b| && UpperAt(b, i) < LowerAt(a, i)
  }

  /** Where the loop finds a gap from some place on: not past a fall, and within its bound. */
  function GapFrom(a: string, b: string, i: nat): (gap: Option<nat>)
    requires IsRank(a) && Ranked(b)
    ensures gap.Some? ==> gap.value >= i && Gap(a, b, gap.value) && forall j :: i <= j < gap.value ==> !Falls(a, b, j)
    decreases |a| + |b| + 10 - i
  {
    if Falls(a, b, i) then None
    else if Gap(a, b, i) then Some(i)
    else if i > |a| + |b| + 8 then None
    else GapFrom(a, b, i + 1)
  }

  /** The first letters of the lower bound, padded with the lowest one. */
  function LowerPart(a: string, i: nat): (out: string)
    requires IsRank(a)
    ensures |out| == i && IsRank(out)
    ensures forall j :: 0 <= j < i ==> out[j] == if j < |a| then a[j] else 'A'
  {
    assert Letter('A');
    seq(i, j requires 0 <= j < i => if j < |a| then a[j] else 'A')
  }

  function MiddleLetter(a: string, b: string, i: nat): (c: char)
    requires IsRank(a) && Ranked(b) && Gap(a, b, i)
    ensures Letter(c) && LowerAt(a, i) < Place(c) < UpperAt(b, i)
  {
    At((LowerAt(a, i) + UpperAt(b, i)) / 2)
  }

  function BetweenOf(a: string, b: string): (r: Option<string>)
    requires IsRank(a) && Ranked(b)
    ensures r.Some? ==> Ranked(r.value)
  {
    match GapFrom(a, b, 0)
    case None => None
    case Some(i) => Some(LowerPart(a, i) + [MiddleLetter(a, b, i)])
  }

  lemma GapStep(a: string, b: string, i: nat)
    requires IsRank(a) && Ranked(b) && i <= |a| + |b| + 9
    ensures Falls(a, b, i) ==> GapFrom(a, b, i).None?
    ensures !Falls(a, b, i) && Gap(a, b, i) ==> GapFrom(a, b, i) == Some(i)
    ensures !Falls(a, b, i) && !Gap(a, b, i) ==>
              GapFrom(a, b, i) == if i > |a| + |b| + 8 then None else GapFrom(a, b, i + 1)
  {
    hide Falls, Gap;
  }

  /** The lower one's letters as long as no letter fits between, then the middle letter. */
  method Between(a: string, b: string) returns (r: Option<string>)
    requires Ranked(a) && Ranked(b)
    ensures r == BetweenOf(a, b)
  {
    assert Place('A') == 0 && At(0) == 'A';
    var out := "";
    var i := 0;
    assert out == LowerPart(a, 0);
    hide Place, At, GapFrom, LowerPart;
    while true
      invariant out == LowerPart(a, i) && i <= |a| + |b| + 9
      invariant GapFrom(a, b, i) == GapFrom(a, b, 0)
      decreases |a| + |b| + 9 - i
    {
      GapStep(a, b, i);
      var pastB := i >= |b|;
      var ia := if i < |a| then Place(a[i]) else 0;
      var ib := if pastB then Place(b[|b| - 1]) else Place(b[i]);
      if ib < ia && !pastB { return None; }
      if ib - ia >= 2 {
        return Some(out + [At((ia + ib) / 2)]);
      }
      LowerPartSnoc(a, i);
      out := out + [At(ia)];
      if i > |a| + |b| + 8 { return None; }
      i := i + 1;
    }
  }

  /** Past both bounds nothing changes any more, so the bound of the loop never matters. */
  lemma {:induction false} GapIsFound(a: string, b: string, i: nat, gap: nat)
    requires IsRank(a) && Ranked(b)
    requires i <= gap && Gap(a, b, gap) && forall j :: i <= j < gap ==> !Falls(a, b, j)
    requires i <= |a| + |b|
    ensures GapFrom(a, b, i).Some?
    decreases gap - i
  {
    hide Gap, Falls;
    if i == gap {
      NotBoth(a, b, i);
    } else if i == |a| + |b| {
      StaysAlike(a, b, i, gap);
    } else {
      GapIsFound(a, b, i + 1, gap);
    }
  }

  lemma NotBoth(a: string, b: string, i: nat)
    requires IsRank(a) && Ranked(b) && Gap(a, b, i)
    ensures !Falls(a, b, i)
  {
  }

  lemma StaysAlike(a: string, b: string, i: nat, j: nat)
    requires IsRank(a) && Ranked(b) && |a| + |b| <= i && i <= j
    ensures Gap(a, b, i) == Gap(a, b, j)
  {
  }

  /**
   * Exactly when a rank between is found: somewhere a letter fits between the bounds, padded,
   * and before that the upper bound never falls below the lower one.
   */
  lemma BetweenExactly(a: string, b: string)
    requires IsRank(a) && Ranked(b)
    ensures BetweenOf(a, b).Some? <==>
            exists gap: nat :: Gap(a, b, gap) && forall j: nat :: j < gap ==> !Falls(a, b, j)
  {
    hide Gap, Falls, MiddleLetter;
    if gap: nat :| Gap(a, b, gap) && forall j: nat :: j < gap ==> !Falls(a, b, j) {
      GapIsFound(a, b, 0, gap);
    }
  }

  /** What has been written is below the upper bound, whatever is added to it. */
  predicate Settled(out: string, b: string) {
    exists k :: 0 <= k < |out| && k < |b| && out[..k] == b[..k] && out[k] < b[k]
  }

  lemma SettledBelow(out: string, more: string, b: string)
    requires Settled(out, b)
    ensures Below(out + more, b)
  {
    var k :| 0 <= k < |out| && k < |b| && out[..k] == b[..k] && out[k] < b[k];
    assert (out + more)[..k] == out[..k] && (out + more)[k] == out[k];
    BelowAt(out + more, b, k);
  }

  lemma SettledSnoc(out: string, c: char, b: string)
    requires Settled(out, b)
    ensures Settled(out + [c], b)
  {
    var k :| 0 <= k < |out| && k < |b| && out[..k] == b[..k] && out[k] < b[k];
    assert (out + [c])[..k] == out[..k] && (out + [c])[k] == out[k];
  }

  lemma LowerPartSnoc(a: string, i: nat)
    requires IsRank(a)
    ensures LowerPart(a, i + 1) == LowerPart(a, i) + [At(LowerAt(a, i))]
  {
  }

  /** Where the upper bound never falls, the lower one's letters go along it or below it. */
  lemma {:induction false} AlongOrBelow(a: string, b: string, n: nat)
    requires IsRank(a) && Ranked(b) && n <= |b| && forall j: nat :: j < n ==> !Falls(a, b, j)
    ensures LowerPart(a, n) == b[..n] || Settled(LowerPart(a, n), b)
  {
    if n > 0 {
      var i := n - 1;
      var out, c := LowerPart(a, i), At(LowerAt(a, i));
      AlongOrBelow(a, b, i);
      LowerPartSnoc(a, i);
      assert !Falls(a, b, i);
      hide Settled, Falls;
      if Settled(out, b) {
        SettledSnoc(out, c, b);
      } else {
        AtRises(LowerAt(a, i), UpperAt(b, i));
        NextLetter(out, c, b);
      }
    }
  }

  lemma NextLetter(out: string, c: char, b: string)
    requires |out| < |b| && out == b[..|out|] && c <= b[|out|]
    ensures out + [c] == b[..|out| + 1] || Settled(out + [c], b)
  {
    if c < b[|out|] {
      assert (out + [c])[..|out|] == b[..|out|] && (out + [c])[|out|] == c;
    }
  }

  lemma AboveLower(a: string, i: nat, c: char)
    requires IsRank(a) && Letter(c) && LowerAt(a, i) < Place(c)
    ensures Below(a, LowerPart(a, i) + [c])
  {
    var r := LowerPart(a, i) + [c];
    if i < |a| {
      AtRises(Place(a[i]), Place(c));
      assert r[..i] == a[..i];
      BelowAt(a, r, i);
    } else {
      assert r[..|a|] == a[..|a|];
      BelowAt(a, r, |a|);
    }
  }

  /** Having followed the upper bound to its end, the lower one is a part of it, padded. */
  lemma PastUpper(a: string, b: string)
    requires IsRank(a) && Ranked(b) && Below(a, b) && LowerPart(a, |b|) == b
    ensures |a| < |b| && b[|b| - 1] == 'A'
  {
    var k := BelowDiffers(a, b);
    assert k == |a|;
  }

  lemma BelowUpper(a: string, b: string, i: nat, c: char)
    requires IsRank(a) && Ranked(b) && Below(a, b) && Letter(c)
    requires LowerAt(a, i) < Place(c) < UpperAt(b, i) && forall j: nat :: j < i ==> !Falls(a, b, j)
    ensures Below(LowerPart(a, i) + [c], b)
  {
    hide Below, Settled, Falls;
    var out := LowerPart(a, i);
    if i < |b| {
      AlongOrBelow(a, b, i);
      if Settled(out, b) {
        SettledBelow(out, [c], b);
      } else {
        AtRises(Place(c), Place(b[i]));
        assert (out + [c])[..i] == b[..i];
        BelowAt(out + [c], b, i);
      }
    } else {
      AlongOrBelow(a, b, |b|);
      assert b[..|b|] == b;
      if LowerPart(a, |b|) == b { PastUpper(a, b); }
      var more := out[|b|..] + [c];
      assert out[..|b|] == LowerPart(a, |b|) && out + [c] == LowerPart(a, |b|) + more;
      SettledBelow(LowerPart(a, |b|), more, b);
    }
  }

  /** What is found lies strictly between. */
  lemma BetweenIsWithin(a: string, b: string)
    requires Ranked(a) && Ranked(b) && Below(a, b) && BetweenOf(a, b).Some?
    ensures Below(a, BetweenOf(a, b).value) && Below(BetweenOf(a, b).value, b)
  {
    hide Below, Falls, Gap, Place, At;
    var i := GapFrom(a, b, 0).value;
    var c := MiddleLetter(a, b, i);
    AboveLower(a, i, c);
    BelowUpper(a, b, i, c);
  }

  /** There is a rank between two unless the upper one is the lower one and the lowest letter. */
  lemma RoomBetween(a: string, b: string)
    requires Ranked(a) && Ranked(b) && Below(a, b)
    ensures (exists r :: Ranked(r) && Below(a, r) && Below(r, b)) <==> b != a + "A"
  {
    if b == a + "A" {
      forall r | Ranked(r) && Below(a, r) ensures !Below(r, b) { NothingBetween(a, r); }
    } else {
      var r := RankBetween(a, b);
    }
  }

  lemma {:induction false} NothingBetween(a: string, r: string)
    requires IsRank(a) && IsRank(r) && Below(a, r)
    ensures !Below(r, a + "A")
  {
    if a == "" {
      assert "" + "A" == "A" && Letter(r[0]);
    } else if r[0] == a[0] {
      assert (a + "A")[1..] == a[1..] + "A";
      NothingBetween(a[1..], r[1..]);
    }
  }

  lemma RankBetween(a: string, b: string) returns (r: string)
    requires Ranked(a) && Ranked(b) && Below(a, b) && b != a + "A"
    ensures Ranked(r) && Below(a, r) && Below(r, b)
  {
    var k := BelowDiffers(a, b);
    hide Below;
    assert Letter('A');
    r := a + "A";
    assert r[..k] == a[..k] && r[..|a|] == a;
    BelowAt(a, r, |a|);
    if k < |a| {
      BelowAt(r, b, k);
    } else if b[|a|] != 'A' {
      assert Letter(b[|a|]);
      BelowAt(r, b, |a|);
    } else {
      assert r == b[..|a| + 1] && b == b[..|b|];
      BelowAt(r, b, |a| + 1);
    }
  }

  /** The first letter above the lowest, when another but the highest follows it. */
  predicate Lead(s: string, m: nat) {
    m + 1 < |s| && AllLowest(s[..m]) && s[m] != 'A' && s[m + 1] != 'z'
  }

  lemma {:induction false} BeforeShape(s: string, m: nat)
    requires Ranked(s) && Lead(s, m)
    ensures Before(s) == Some(s[..m] + [At(Place(s[m]) - 1)] + "z")
  {
    if m == 0 {
      var lower := [At(Place(s[0]) - 1)];
      assert s[..0] + lower == lower;
    } else {
      hide At, Place;
      assert s[0] == s[..m][0] == 'A' && s[1..][..m - 1] == s[..m][1..];
      BeforeShape(s[1..], m - 1);
      assert s[1..][m - 1] == s[m];
      var lower := [At(Place(s[m]) - 1)];
      assert ['A'] + (s[1..][..m - 1] + lower + "z") == s[..m] + lower + "z" by {
        assert s[..m] == ['A'] + s[1..][..m - 1];
      }
    }
  }

  /** Having ranked an issue below such a rank, no other is ever found between the two. */
  lemma BeforeLeavesNoGap(s: string, m: nat)
    requires Ranked(s) && Lead(s, m)
    ensures Before(s).Some? && BetweenOf(Before(s).value, s).None?
    ensures exists r :: Ranked(r) && Below(Before(s).value, r) && Below(r, s)
  {
    BeforeShape(s, m);
    BeforeIsBelow(s);
    var r := Before(s).value;
    hide Before, Below;
    assert forall i :: 0 <= i < m ==> r[i] == s[i] == s[..m][i] == 'A';
    assert r[m] == At(Place(s[m]) - 1) && r[m + 1] == 'z' && |r| == m + 2;
    AtRises(Place(s[m]) - 1, Place(s[m]));
    assert Place('z') == 51;
    AtRises(Place(s[m + 1]), 51);
    assert Falls(r, s, m + 1);
    assert forall gap: nat :: gap <= m ==> !Gap(r, s, gap);
    assert !Gap(r, s, m + 1);
    hide Gap, Falls;
    BetweenExactly(r, s);
    RoomBetween(r, s) by { assert r + "A" != s by { assert (r + "A")[m] == r[m] != s[m]; } }
  }

  // ---- the middle ----

  /** An empty bound is no bound. */
  predicate Within(lo: string, s: string, hi: string) {
    (lo != "" ==> Below(lo, s)) && (hi != "" ==> Below(s, hi))
  }

  function MidOf(a: string, b: string): (r: Option<string>)
    requires IsRank(a) && IsRank(b)
    ensures r.Some? ==> Ranked(r.value)
  {
    if a != "" && b != "" && !Below(a, b) then None
    else if a == "" && b == "" then Some("u")
    else if a == "" then Before(b)
    else if b == "" then Some(AfterOf(a))
    else BetweenOf(a, b)
  }

  method Mid(a: string, b: string) returns (r: Option<string>)
    requires IsRank(a) && IsRank(b)
    ensures r == MidOf(a, b)
  {
    if a != "" && b != "" && !Below(a, b) { return None; }
    if a == "" && b == "" { return Some("u"); }
    if a == "" {
      r := Before(b);
    } else if b == "" {
      var s := After(a);
      r := Some(s);
    } else {
      r := Between(a, b);
    }
  }

  /** What is found lies within the bounds. */
  lemma MidIsWithin(a: string, b: string)
    requires IsRank(a) && IsRank(b) && MidOf(a, b).Some?
    ensures Within(a, MidOf(a, b).value, b)
  {
    hide Below, BetweenOf, Before, AfterOf;
    if a != "" && b != "" {
      BetweenIsWithin(a, b);
    } else if b != "" {
      BeforeIsBelow(b);
    } else if a != "" {
      AfterIsAbove(a);
    }
  }

  /** Bounds between which a rank is found, told from their letters. */
  ghost predicate Finds(a: string, b: string)
    requires IsRank(a) && IsRank(b)
  {
    if a == "" then b == "" || !AllLowest(b)
    else b == "" || (Below(a, b) && exists gap: nat :: Gap(a, b, gap) && forall j: nat :: j < gap ==> !Falls(a, b, j))
  }

  lemma MidExactly(a: string, b: string)
    requires IsRank(a) && IsRank(b)
    ensures MidOf(a, b).Some? <==> Finds(a, b)
  {
    hide Below, BetweenOf, Before, AfterOf, Gap, Falls, AllLowest;
    if a != "" && b != "" {
      BetweenExactly(a, b);
    } else if b != "" {
      BeforeExactly(b);
    }
  }

  /** Two bounds one letter apart between which none is found, though there is room. */
  lemma MidGivesUp()
    ensures IsRank("az") && IsRank("bA") && MidOf("az", "bA").None?
    ensures Below("az", "azN") && Below("azN", "bA")
  {
    assert Falls("az", "bA", 1) && !Gap("az", "bA", 0) && !Gap("az", "bA", 1);
    hide Gap, Falls;
    MidExactly("az", "bA");
    BelowAt("az", "azN", 2);
    BelowAt("azN", "bA", 0);
  }

  /** A rank put below such a lowest one leaves no second rank to be put directly below it. */
  lemma SecondIsRefused(s: string, m: nat)
    requires Ranked(s) && Lead(s, m)
    ensures MidOf("", s).Some? && MidOf(MidOf("", s).value, s).None?
  {
    hide BetweenOf, Before;
    BeforeLeavesNoGap(s, m);
  }

  lemma RefusedAtOnce()
    ensures IsRank("tX") && IsRank("sz")
    ensures MidOf("", "tX") == Some("sz") && MidOf("sz", "tX").None?
  {
    assert Lead("tX", 0);
    BeforeShape("tX", 0);
    assert "tX"[..0] + [At(Place('t') - 1)] + "z" == "sz";
    SecondIsRefused("tX", 0);
  }
}
