/** Moving issues within one total order, one at a time and as a block. */
module Ranking {
  import opened Text

  // ---- one move ----

  function Without(s: seq<string>, gone: set<string>): (r: seq<string>)
    ensures forall x :: x in r <==> x in s && x !in gone
    ensures |r| <= |s|
  {
    if s == [] then []
    else if s[0] in gone then Without(s[1..], gone)
    else [s[0]] + Without(s[1..], gone)
  }

  function IndexOf(s: seq<string>, x: string): (i: nat)
    requires x in s
    ensures i < |s| && s[i] == x && x !in s[..i]
  {
    if s[0] == x then 0 else 1 + IndexOf(s[1..], x)
  }

  predicate Distinct(s: seq<string>) {
    forall i, j :: 0 <= i < j < |s| ==> s[i] != s[j]
  }

  /** An issue taken out of the order and put back directly after another. */
  function MoveAfter(order: seq<string>, x: string, anchor: string): seq<string>
    requires anchor in order && x != anchor
  {
    var rest := Without(order, {x});
    var i := IndexOf(rest, anchor);
    rest[..i + 1] + [x] + rest[i + 1..]
  }

  /** An issue taken out of the order and put back directly before another. */
  function MoveBefore(order: seq<string>, x: string, anchor: string): seq<string>
    requires anchor in order && x != anchor
  {
    var rest := Without(order, {x});
    var i := IndexOf(rest, anchor);
    rest[..i] + [x] + rest[i..]
  }

  lemma {:induction false} WithoutConcat(s: seq<string>, t: seq<string>, gone: set<string>)
    ensures Without(s + t, gone) == Without(s, gone) + Without(t, gone)
  {
    if s == [] {
      assert s + t == t;
    } else {
      WithoutConcat(s[1..], t, gone);
      assert (s + t)[0] == s[0] && (s + t)[1..] == s[1..] + t;
      if s[0] !in gone { Assoc([s[0]], Without(s[1..], gone), Without(t, gone)); }
    }
  }

  lemma {:induction false} WithoutTwice(s: seq<string>, gone: set<string>, more: set<string>)
    ensures Without(Without(s, gone), more) == Without(s, gone + more)
  {
    if s != [] {
      WithoutTwice(s[1..], gone, more);
      if s[0] !in gone { assert (Without(s, gone))[1..] == Without(s[1..], gone); }
    }
  }

  lemma {:induction false} WithoutNone(s: seq<string>, gone: set<string>)
    requires forall x :: x in s ==> x !in gone
    ensures Without(s, gone) == s
  {
    if s != [] { WithoutNone(s[1..], gone); }
  }

  lemma {:induction false} WithoutDistinct(s: seq<string>, gone: set<string>)
    requires Distinct(s)
    ensures Distinct(Without(s, gone))
  {
    if s != [] { WithoutDistinct(s[1..], gone); }
  }

  /** Where an element is, when it is known to be nowhere earlier. */
  lemma {:induction false} FoundAt(before: seq<string>, x: string, after: seq<string>)
    requires x !in before
    ensures IndexOf(before + [x] + after, x) == |before|
  {
    var s := before + [x] + after;
    if before != [] {
      assert s[1..] == before[1..] + [x] + after;
      FoundAt(before[1..], x, after);
    }
  }

  lemma WithoutAround(a: seq<string>, anchor: string, b: seq<string>, x: string)
    requires x != anchor
    ensures Without(a + [anchor] + b, {x}) == Without(a, {x}) + [anchor] + Without(b, {x})
  {
    WithoutConcat(a + [anchor], b, {x});
    WithoutConcat(a, [anchor], {x});
    assert Without([anchor], {x}) == [anchor];
  }

  lemma MovesAfter(a: seq<string>, anchor: string, b: seq<string>, x: string)
    requires anchor !in a && x != anchor
    ensures MoveAfter(a + [anchor] + b, x, anchor) == Without(a, {x}) + [anchor] + [x] + Without(b, {x})
  {
    hide Without;
    WithoutAround(a, anchor, b, x);
    FoundAt(Without(a, {x}), anchor, Without(b, {x}));
  }

  lemma MovesBefore(a: seq<string>, anchor: string, b: seq<string>, x: string)
    requires anchor !in a && x != anchor
    ensures MoveBefore(a + [anchor] + b, x, anchor) == Without(a, {x}) + [x] + [anchor] + Without(b, {x})
  {
    hide Without;
    WithoutAround(a, anchor, b, x);
    FoundAt(Without(a, {x}), anchor, Without(b, {x}));
  }

  // ---- a block of moves ----

  /** A block as it stands after its elements were put, one by one, directly after its end. */
  function KeepLast(xs: seq<string>): (block: seq<string>)
    ensures forall x :: x in block <==> x in xs
    ensures xs != [] ==> block != [] && block[|block| - 1] == xs[|xs| - 1]
  {
    if xs == [] then []
    else Without(KeepLast(xs[..|xs| - 1]), {xs[|xs| - 1]}) + [xs[|xs| - 1]]
  }

  /** A block as it stands after its elements, last first, were put directly before its start. */
  function KeepFirst(xs: seq<string>): (block: seq<string>)
    ensures forall x :: x in block <==> x in xs
    ensures xs != [] ==> block != [] && block[0] == xs[0]
  {
    if xs == [] then []
    else [xs[0]] + Without(KeepFirst(xs[1..]), {xs[0]})
  }

  function Elements(xs: seq<string>): set<string> {
    set x | x in xs
  }

  /** The order with a block in the place of the reference, and the block's elements nowhere else. */
  function Placed(order: seq<string>, reference: string, block: seq<string>): seq<string>
    requires reference in order
  {
    var i := IndexOf(order, reference);
    Without(order[..i], Elements(block)) + block + Without(order[i + 1..], Elements(block))
  }

  lemma {:induction false} KeepLastDistinct(xs: seq<string>)
    requires Distinct(xs)
    ensures KeepLast(xs) == xs
  {
    if xs != [] {
      var n := |xs| - 1;
      KeepLastDistinct(xs[..n]);
      WithoutNone(xs[..n], {xs[n]});
    }
  }

  lemma {:induction false} KeepFirstDistinct(xs: seq<string>)
    requires Distinct(xs)
    ensures KeepFirst(xs) == xs
  {
    if xs != [] {
      KeepFirstDistinct(xs[1..]);
      WithoutNone(xs[1..], {xs[0]});
    }
  }

  /** Whatever is put where, each element stands in the block once. */
  lemma {:induction false} NoRepeats(xs: seq<string>)
    ensures Distinct(KeepLast(xs)) && Distinct(KeepFirst(xs))
    decreases |xs|
  {
    if xs != [] {
      var n := |xs| - 1;
      NoRepeats(xs[..n]);
      WithoutDistinct(KeepLast(xs[..n]), {xs[n]});
      NoRepeats(xs[1..]);
      WithoutDistinct(KeepFirst(xs[1..]), {xs[0]});
    }
  }

  /** Moving one more issue after the last of a block makes it the last of the block. */
  lemma AfterBlock(p: seq<string>, block: seq<string>, last: string, q: seq<string>, x: string)
    requires last !in p + block && x != last
    ensures MoveAfter(p + block + [last] + q, x, last) ==
            Without(p, {x}) + (Without(block, {x}) + [last] + [x]) + Without(q, {x})
  {
    hide Without, MoveAfter;
    MovesAfter(p + block, last, q, x);
    WithoutConcat(p, block, {x});
    var p', b', q' := Without(p, {x}), Without(block, {x}), Without(q, {x});
    Assoc(p', b', [last]);
    Assoc(p', b' + [last], [x]);
  }

  /** Moving one more issue before the first of a block makes it the first of the block. */
  lemma BeforeBlock(p: seq<string>, first: string, block: seq<string>, q: seq<string>, x: string)
    requires first !in p && x != first
    ensures MoveBefore(p + [first] + (block + q), x, first) ==
            Without(p, {x}) + ([x] + [first] + Without(block, {x})) + Without(q, {x})
  {
    hide Without, MoveBefore;
    MovesBefore(p, first, block + q, x);
    WithoutConcat(block, q, {x});
    var p', b', q' := Without(p, {x}), Without(block, {x}), Without(q, {x});
    Assoc(p' + [x] + [first], b', q');
    Assoc(p', [x], [first]);
    Assoc(p', [x] + [first], b');
  }

  // ---- moves that follow one another ----

  /** No issue is moved around itself. */
  predicate Chain(xs: seq<string>) {
    forall i :: 0 < i < |xs| ==> xs[i - 1] != xs[i]
  }

  /** Each issue moved directly after the one before it, the first after the reference. */
  function RankedAfter(order: seq<string>, reference: string, xs: seq<string>): (ranked: seq<string>)
    requires reference in order && Chain([reference] + xs)
    ensures ([reference] + xs)[|xs|] in ranked
  {
    if xs == [] then order
    else
      var n := |xs| - 1;
      var anchors := [reference] + xs;
      assert anchors[..|anchors| - 1] == [reference] + xs[..n];
      assert Chain(anchors[..|anchors| - 1]);
      assert anchors[n] != anchors[n + 1];
      MoveAfter(RankedAfter(order, reference, xs[..n]), xs[n], anchors[n])
  }

  /** Each issue, the last first, moved directly before the one after it, the last before the reference. */
  function RankedBefore(order: seq<string>, reference: string, xs: seq<string>): (ranked: seq<string>)
    requires reference in order && Chain(xs + [reference])
    ensures (xs + [reference])[0] in ranked
  {
    if xs == [] then order
    else
      var anchors := xs + [reference];
      assert anchors[1..] == xs[1..] + [reference];
      assert forall i :: 0 < i < |anchors[1..]| ==> anchors[1..][i - 1] == anchors[i] && anchors[1..][i] == anchors[i + 1];
      assert anchors[0] != anchors[1];
      MoveBefore(RankedBefore(order, reference, xs[1..]), xs[0], anchors[1])
  }

  lemma KeepLastSnoc(xs: seq<string>, x: string)
    ensures KeepLast(xs + [x]) == Without(KeepLast(xs), {x}) + [x]
  {
    hide Without;
    assert (xs + [x])[..|xs|] == xs;
  }

  lemma KeepFirstCons(x: string, xs: seq<string>)
    ensures KeepFirst([x] + xs) == [x] + Without(KeepFirst(xs), {x})
  {
    hide Without;
    assert ([x] + xs)[1..] == xs;
  }

  lemma KeepsOne(x: string)
    ensures KeepLast([x]) == [x] && KeepFirst([x]) == [x]
  {
    KeepLastSnoc([], x);
    KeepFirstCons(x, []);
  }

  lemma PlacedAlone(order: seq<string>, reference: string)
    requires Distinct(order) && reference in order
    ensures Placed(order, reference, [reference]) == order
  {
    var i := IndexOf(order, reference);
    WithoutNone(order[..i], {reference});
    WithoutNone(order[i + 1..], {reference});
    assert Elements([reference]) == {reference};
    assert order[..i] + [reference] + order[i + 1..] == order;
  }

  lemma WithoutLast(init: seq<string>, last: string, x: string)
    requires x != last
    ensures Without(init + [last], {x}) == Without(init, {x}) + [last]
  {
    WithoutConcat(init, [last], {x});
    assert Without([last], {x}) == [last];
  }

  lemma WithoutFirst(first: string, tail: seq<string>, x: string)
    requires x != first
    ensures Without([first] + tail, {x}) == [first] + Without(tail, {x})
  {
    WithoutConcat([first], tail, {x});
    assert Without([first], {x}) == [first];
  }

  /** A block that grows at its end, between what is left of the issues before and after it. */
  lemma GrowsAfter(before: seq<string>, init: seq<string>, last: string, after: seq<string>, gone: set<string>, x: string)
    requires last in gone && last !in init && x != last
    ensures last in Without(before, gone) + (init + [last]) + Without(after, gone)
    ensures MoveAfter(Without(before, gone) + (init + [last]) + Without(after, gone), x, last) ==
            Without(before, gone + {x}) + (Without(init + [last], {x}) + [x]) + Without(after, gone + {x})
  {
    var p, q := Without(before, gone), Without(after, gone);
    hide Without, MoveAfter;
    assert last !in p + init;
    assert last in [last] && last in init + [last] && last in p + (init + [last]);
    Assoc(p, init, [last]);
    AfterBlock(p, init, last, q, x);
    WithoutLast(init, last, x);
    WithoutTwice(before, gone, {x});
    WithoutTwice(after, gone, {x});
  }

  lemma GrowsBefore(before: seq<string>, first: string, tail: seq<string>, after: seq<string>, gone: set<string>, x: string)
    requires first in gone && x != first
    ensures first in Without(before, gone) + ([first] + tail) + Without(after, gone)
    ensures MoveBefore(Without(before, gone) + ([first] + tail) + Without(after, gone), x, first) ==
            Without(before, gone + {x}) + ([x] + Without([first] + tail, {x})) + Without(after, gone + {x})
  {
    var p, q := Without(before, gone), Without(after, gone);
    hide Without, MoveBefore;
    assert first in [first] && first in [first] + tail && first in p + ([first] + tail);
    Assoc(p, [first], tail);
    Assoc(p + [first], tail, q);
    BeforeBlock(p, first, tail, q, x);
    WithoutFirst(first, tail, x);
    Assoc([x], [first], Without(tail, {x}));
    WithoutTwice(before, gone, {x});
    WithoutTwice(after, gone, {x});
  }

  /** One more move after a placed block places the block it makes. */
  lemma PlaceAfter(order: seq<string>, reference: string, init: seq<string>, last: string, x: string)
    requires reference in order && last !in init && x != last
    ensures last in Placed(order, reference, init + [last])
    ensures MoveAfter(Placed(order, reference, init + [last]), x, last) ==
            Placed(order, reference, Without(init + [last], {x}) + [x])
  {
    hide Without, MoveAfter, IndexOf;
    var i, block := IndexOf(order, reference), init + [last];
    GrowsAfter(order[..i], init, last, order[i + 1..], Elements(block), x);
    assert Elements(Without(block, {x}) + [x]) == Elements(block) + {x};
  }

  lemma PlaceBefore(order: seq<string>, reference: string, block: seq<string>, x: string)
    requires reference in order && block != [] && x != block[0]
    ensures block[0] in Placed(order, reference, block)
    ensures MoveBefore(Placed(order, reference, block), x, block[0]) ==
            Placed(order, reference, [x] + Without(block, {x}))
  {
    hide Without, MoveBefore, IndexOf;
    var i := IndexOf(order, reference);
    assert block == [block[0]] + block[1..];
    GrowsBefore(order[..i], block[0], block[1..], order[i + 1..], Elements(block), x);
    assert Elements([x] + Without(block, {x})) == Elements(block) + {x};
  }

  lemma ChainEnds(xs: seq<string>, x: string)
    requires xs != [] && Chain(xs + [x])
    ensures Chain(xs) && xs[|xs| - 1] != x
  {
    var all := xs + [x];
    assert all[|xs| - 1] != all[|xs|];
    assert forall i :: 0 <= i < |xs| ==> all[i] == xs[i];
  }

  /**
   * Moves that follow one another after a reference leave a block in the reference's place: the
   * reference and the issues moved, each where it was moved last, and every other issue as it was.
   */
  lemma {:induction false} RankedAfterPlaces(order: seq<string>, reference: string, xs: seq<string>)
    requires Distinct(order) && reference in order && Chain([reference] + xs)
    ensures RankedAfter(order, reference, xs) == Placed(order, reference, KeepLast([reference] + xs))
  {
    hide Placed, MoveAfter, Without, Distinct;
    if xs == [] {
      KeepsOne(reference);
      PlacedAlone(order, reference);
    } else {
      var n := |xs| - 1;
      var anchors := [reference] + xs[..n];
      assert [reference] + xs == anchors + [xs[n]];
      ChainEnds(anchors, xs[n]);
      hide Chain;
      RankedAfterPlaces(order, reference, xs[..n]);
      var last := anchors[n];
      assert anchors == anchors[..n] + [last];
      KeepLastSnoc(anchors[..n], last);
      PlaceAfter(order, reference, Without(KeepLast(anchors[..n]), {last}), last, xs[n]);
      KeepLastSnoc(anchors, xs[n]);
    }
  }

  /** The same for moves before a reference, the last issue first. */
  lemma {:induction false} RankedBeforePlaces(order: seq<string>, reference: string, xs: seq<string>)
    requires Distinct(order) && reference in order && Chain(xs + [reference])
    ensures RankedBefore(order, reference, xs) == Placed(order, reference, KeepFirst(xs + [reference]))
  {
    hide Placed, MoveBefore, Without, Distinct;
    if xs == [] {
      KeepsOne(reference);
      assert [] + [reference] == [reference];
      PlacedAlone(order, reference);
    } else {
      var anchors := xs[1..] + [reference];
      var all := xs + [reference];
      assert all == [xs[0]] + anchors && all[1..] == anchors;
      assert forall i :: 0 < i < |anchors| ==> anchors[i - 1] == all[i] && anchors[i] == all[i + 1];
      assert all[0] != all[1];
      RankedBeforePlaces(order, reference, xs[1..]);
      PlaceBefore(order, reference, KeepFirst(anchors), xs[0]);
      KeepFirstCons(xs[0], anchors);
    }
  }

  // ---- what a placed block keeps ----

  lemma {:induction false} WithoutAll(s: seq<string>, gone: set<string>)
    requires forall x :: x in s ==> x in gone
    ensures Without(s, gone) == []
  {
    if s != [] { WithoutAll(s[1..], gone); }
  }

  lemma DistinctParts(a: seq<string>, b: seq<string>)
    requires Distinct(a + b)
    ensures Distinct(a) && Distinct(b) && forall x :: x in a ==> x !in b
  {
    var s := a + b;
    assert forall i :: 0 <= i < |a| ==> s[i] == a[i];
    assert forall i :: 0 <= i < |b| ==> s[|a| + i] == b[i];
  }

  lemma DistinctJoin(a: seq<string>, b: seq<string>)
    requires Distinct(a) && Distinct(b) && forall x :: x in a ==> x !in b
    ensures Distinct(a + b)
  {
    var s := a + b;
    forall i, j | 0 <= i < j < |s| ensures s[i] != s[j] {
      assert s[i] == if i < |a| then a[i] else b[i - |a|];
      assert s[j] == if j < |a| then a[j] else b[j - |a|];
      if i < |a| <= j { assert a[i] in a && b[j - |a|] in b; }
    }
  }

  /** The issues outside the block keep the order they had, and no issue is lost or made. */
  lemma PlacedKeepsOthers(order: seq<string>, reference: string, block: seq<string>)
    requires reference in order && reference in block
    ensures Without(Placed(order, reference, block), Elements(block)) == Without(order, Elements(block))
    ensures forall x :: x in Placed(order, reference, block) <==> x in order || x in block
  {
    hide Without;
    var i, gone := IndexOf(order, reference), Elements(block);
    var before, after := order[..i], order[i + 1..];
    var p, q := Without(before, gone), Without(after, gone);
    assert order == before + [reference] + after;
    assert gone + gone == gone;
    WithoutConcat(p + block, q, gone);
    WithoutConcat(p, block, gone);
    WithoutTwice(before, gone, gone);
    WithoutTwice(after, gone, gone);
    WithoutAll(block, gone);
    WithoutConcat(before + [reference], after, gone);
    WithoutConcat(before, [reference], gone);
    WithoutAll([reference], gone);
  }

  /** A total order is still one. */
  lemma PlacedStaysDistinct(order: seq<string>, reference: string, block: seq<string>)
    requires reference in order && Distinct(order) && Distinct(block)
    ensures Distinct(Placed(order, reference, block))
  {
    hide Without, Distinct;
    var i, gone := IndexOf(order, reference), Elements(block);
    var before, after := order[..i], order[i + 1..];
    assert order == before + ([reference] + after);
    DistinctParts(before, [reference] + after);
    DistinctParts([reference], after);
    WithoutDistinct(before, gone);
    WithoutDistinct(after, gone);
    DistinctJoin(Without(before, gone), block);
    DistinctJoin(Without(before, gone) + block, Without(after, gone));
  }
}
