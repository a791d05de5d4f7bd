/** Requests of issue moves with the ranks of the site: what each issue's turn finds and leaves there. */
module RankedMoves {
  import opened Text
  import opened Adf
  import opened Ranking
  import opened IssueMoves
  import opened SiteRank
  import Lexorank

  /** An issue whose turn comes to be ranked around the anchor. */
  predicate Reaches(item: Item, anchor: string) {
    && item.issue.Some? && item.moveStatus == 0
    && anchor != "" && item.issue.value.id != anchor
    && !item.rank.Forbidden?
  }

  /** The bounds an issue is ranked between. */
  ghost predicate Around(ranks: map<string, string>, x: string, anchor: string, before: bool, lo: string, hi: string)
    requires anchor in ranks && anchor != ""
  {
    && Lexorank.IsRank(lo) && Lexorank.IsRank(hi)
    && Bounds(ranks, x, if before then anchor else "", if before then "" else anchor, lo, hi)
  }

  /** What an issue's turn makes of the ranks: its own is written when one is found, and else none. */
  ghost predicate Turn(ranks: map<string, string>, item: Item, anchor: string, before: bool, next: map<string, string>) {
    if !Reaches(item, anchor) then next == ranks
    else
      && anchor in ranks
      && exists lo, hi ::
           && Around(ranks, item.issue.value.id, anchor, before, lo, hi)
           && match Lexorank.MidOf(lo, hi)
              case None => item.rank == Broken && next == ranks
              case Some(rank) => item.rank.Ranked? && next == ranks[item.issue.value.id := rank]
  }

  /** There is one pair of bounds. */
  lemma AroundIsUnique(ranks: map<string, string>, x: string, anchor: string, before: bool, lo: string, hi: string, lo': string, hi': string)
    requires AllRanked(ranks) && anchor in ranks && anchor != ""
    requires Around(ranks, x, anchor, before, lo, hi) && Around(ranks, x, anchor, before, lo', hi')
    ensures lo == lo' && hi == hi'
  {
    hide HighestBelow, LowestAbove;
    BoundsAreUnique(ranks, x, ranks[anchor], if before then lo else hi, if before then lo' else hi');
  }

  /** An issue that is ranked succeeds exactly when a rank is found, and its entry says so. */
  lemma EntryTells(ranks: map<string, string>, item: Item, anchor: string, before: bool, next: map<string, string>, lo: string, hi: string)
    requires AllRanked(ranks) && Reaches(item, anchor) && Turn(ranks, item, anchor, before, next)
    requires Around(ranks, item.issue.value.id, anchor, before, lo, hi)
    ensures Succeeds(item, anchor) <==> Lexorank.Finds(lo, hi)
    ensures EntryFor(item, anchor).status == if Lexorank.Finds(lo, hi) then 200 else 500
  {
    hide Lexorank.MidOf, Lexorank.Finds, Bounds;
    var id := item.issue.value.id;
    var a, b :| Around(ranks, id, anchor, before, a, b) && match Lexorank.MidOf(a, b)
      case None => item.rank == Broken && next == ranks
      case Some(rank) => item.rank.Ranked? && next == ranks[id := rank];
    AroundIsUnique(ranks, id, anchor, before, a, b, lo, hi);
    Lexorank.MidExactly(lo, hi);
  }

  /** A turn that succeeds is the move in the order of ranks, and one that fails changes none. */
  lemma TurnMoves(order: seq<string>, ranks: map<string, string>, item: Item, anchor: string, before: bool, next: map<string, string>)
    requires AllRanked(ranks) && InRankOrder(order, ranks) && anchor in order && anchor != ""
    requires Turn(ranks, item, anchor, before, next)
    ensures AllRanked(next)
    ensures Succeeds(item, anchor) ==>
              InRankOrder(if before then MoveBefore(order, item.issue.value.id, anchor) else MoveAfter(order, item.issue.value.id, anchor), next)
    ensures !Succeeds(item, anchor) ==> next == ranks
  {
    hide Lexorank.MidOf, MoveBefore, MoveAfter, InRankOrder, HighestBelow, LowestAbove, JustBefore, JustAfter, Lexorank.Within;
    if Reaches(item, anchor) {
      var id := item.issue.value.id;
      var lo, hi :| Around(ranks, id, anchor, before, lo, hi) && match Lexorank.MidOf(lo, hi)
        case None => item.rank == Broken && next == ranks
        case Some(rank) => item.rank.Ranked? && next == ranks[id := rank];
      if Lexorank.MidOf(lo, hi).Some? {
        var rank := Lexorank.MidOf(lo, hi).value;
        Lexorank.MidIsWithin(lo, hi);
        if before {
          AboveAll(ranks, id, anchor, lo, rank);
          RankBeforeMoves(order, ranks, id, anchor, rank);
        } else {
          BelowAll(ranks, id, anchor, hi, rank);
          RankAfterMoves(order, ranks, id, anchor, rank);
        }
      }
    }
  }

  // ---- a whole request ----

  /** The ranks before and after each turn, first to last. */
  ghost predicate Forwards(items: seq<Item>, reference: string, trail: seq<map<string, string>>)
    requires Identified(items)
  {
    && |trail| == |items| + 1
    && forall k :: 0 <= k < |items| ==> Turn(trail[k], items[k], AnchorOf(items, reference, false, k), false, trail[k + 1])
  }

  /** The ranks after and before each turn, when the last issue comes first. */
  ghost predicate Backwards(items: seq<Item>, reference: string, trail: seq<map<string, string>>)
    requires Identified(items)
  {
    && |trail| == |items| + 1
    && forall k :: 0 <= k < |items| ==> Turn(trail[k + 1], items[k], AnchorOf(items, reference, true, k), true, trail[k])
  }

  lemma {:induction false} ForwardRanks(order: seq<string>, items: seq<Item>, reference: string, trail: seq<map<string, string>>, k: nat)
    requires Identified(items) && reference != "" && reference in order && k <= |items|
    requires Forwards(items, reference, trail) && AllRanked(trail[0]) && InRankOrder(order, trail[0])
    ensures Identified(items[..k]) && AllRanked(trail[k]) && InRankOrder(OrderAfter(order, items[..k], reference), trail[k])
    ensures AnchorAfter(items[..k], reference) in OrderAfter(order, items[..k], reference) && AnchorAfter(items[..k], reference) != ""
    decreases k
  {
    hide Turn, InRankOrder, OrderAfter, AnchorAfter, Succeeds, AllRanked, MoveAfter;
    if k == 0 {
      assert items[..0] == [];
      AfterNone(order, reference);
    } else {
      var i := k - 1;
      ForwardRanks(order, items, reference, trail, i);
      var anchor, now := AnchorAfter(items[..i], reference), OrderAfter(order, items[..i], reference);
      assert AnchorOf(items, reference, false, i) == anchor;
      TurnMoves(now, trail[i], items[i], anchor, false, trail[i + 1]);
      AfterOneMore(order, items, i, reference);
      if Succeeds(items[i], anchor) { MovedIn(now, items[i].issue.value.id, anchor); }
    }
  }

  lemma MovedIn(order: seq<string>, x: string, anchor: string)
    requires anchor in order && x != anchor
    ensures x in MoveAfter(order, x, anchor) && x in MoveBefore(order, x, anchor)
  {
    hide Without;
  }

  lemma {:induction false} BackwardRanks(order: seq<string>, items: seq<Item>, reference: string, trail: seq<map<string, string>>, k: nat)
    requires Identified(items) && reference != "" && reference in order && k <= |items|
    requires Backwards(items, reference, trail) && AllRanked(trail[|items|]) && InRankOrder(order, trail[|items|])
    ensures Identified(items[k..]) && AllRanked(trail[k])
    ensures var ids := Backward(items[k..], reference);
            && InRankOrder(RankedBefore(order, reference, ids), trail[k])
            && FirstOf(ids, reference) in RankedBefore(order, reference, ids) && FirstOf(ids, reference) != ""
    decreases |items| - k
  {
    hide Turn, InRankOrder, Backward, RankedBefore, FirstOf, Succeeds, AllRanked, MoveBefore, Chain;
    if k == |items| {
      assert items[k..] == [];
      BeforeNone(order, reference);
    } else {
      BackwardRanks(order, items, reference, trail, k + 1);
      var ids := Backward(items[k + 1..], reference);
      var anchor, now := FirstOf(ids, reference), RankedBefore(order, reference, ids);
      assert AnchorOf(items, reference, true, k) == anchor;
      TurnMoves(now, trail[k + 1], items[k], anchor, true, trail[k]);
      BeforeOneMore(order, items, k, reference);
      if Succeeds(items[k], anchor) { MovedIn(now, items[k].issue.value.id, anchor); }
    }
  }

  /**
   * A request on ranks that all differ: when it is done, the ranks put the issues in the order in
   * which the block of the request stands in the reference's place.
   */
  lemma RequestRanks(order: seq<string>, items: seq<Item>, reference: string, before: bool, trail: seq<map<string, string>>)
    requires Identified(items) && reference != "" && reference in order && Distinct(order)
    requires if before then Backwards(items, reference, trail) else Forwards(items, reference, trail)
    requires var start := if before then trail[|items|] else trail[0]; AllRanked(start) && InRankOrder(order, start)
    ensures var done := if before then trail[0] else trail[|items|];
            AllRanked(done) && InRankOrder(Placed(order, reference, IssueMoves.Block(items, reference, before)), done)
  {
    hide InRankOrder, AllRanked, Placed, Forward, Backward, KeepFirst, KeepLast, RankedAfter, RankedBefore, Turn, Distinct;
    if before {
      BackwardRanks(order, items, reference, trail, 0);
      assert items[0..] == items;
      RankedBeforePlaces(order, reference, Backward(items, reference));
    } else {
      ForwardRanks(order, items, reference, trail, |items|);
      assert items[..|items|] == items;
      RankedAfterPlaces(order, reference, Forward(items, reference));
    }
  }

  // ---- where none is found ----

  /** No issue but these two ranks below the reference. */
  ghost predicate Lowest(ranks: map<string, string>, reference: string, x: string, y: string)
    requires reference in ranks
  {
    forall z :: z in ranks && z != x && z != y ==> !Below(ranks[z], ranks[reference])
  }

  lemma NoneBelow(ranks: map<string, string>, reference: string, x: string, y: string, lo: string)
    requires AllRanked(ranks) && reference in ranks && Lowest(ranks, reference, x, y) && (y in ranks ==> !Below(ranks[y], ranks[reference]))
    requires HighestBelow(ranks, ranks.Keys, x, ranks[reference], lo)
    ensures lo == ""
  {
  }

  lemma OneBelow(ranks: map<string, string>, reference: string, x: string, y: string, lo: string)
    requires AllRanked(ranks) && reference in ranks && Lowest(ranks, reference, x, y)
    requires x in ranks && x != y && Below(ranks[x], ranks[reference])
    requires HighestBelow(ranks, ranks.Keys, y, ranks[reference], lo)
    ensures lo == ranks[x]
  {
    hide Below;
    BelowNothing(ranks[x]);
    BelowTotal(ranks[x], lo);
  }

  /**
   * Before a lowest reference whose rank has such a first letter, the first issue put there gets a
   * rank, and the next one to be put between the two gets none: its entry is a failure, and the
   * ranks stay as they are.
   */
  lemma NextIsRefused(ranks: map<string, string>, reference: string, m: nat, first: Item, next: Item,
                      later: map<string, string>, last: map<string, string>)
    requires AllRanked(ranks) && reference != "" && reference in ranks && Lexorank.Lead(ranks[reference], m)
    requires Reaches(first, reference) && Reaches(next, reference) && first.issue.value.id != next.issue.value.id
    requires Lowest(ranks, reference, first.issue.value.id, next.issue.value.id)
    requires next.issue.value.id in ranks ==> !Below(ranks[next.issue.value.id], ranks[reference])
    requires Turn(ranks, first, reference, true, later) && Turn(later, next, reference, true, last)
    ensures Succeeds(first, reference) && EntryFor(first, reference).status == 200
    ensures !Succeeds(next, reference) && EntryFor(next, reference).status == 500 && last == later
  {
    hide Lexorank.MidOf, Lexorank.Before, Lexorank.BetweenOf, Below;
    var x, y := first.issue.value.id, next.issue.value.id;
    var lo, hi :| Around(ranks, x, reference, true, lo, hi) && match Lexorank.MidOf(lo, hi)
      case None => first.rank == Broken && later == ranks
      case Some(rank) => first.rank.Ranked? && later == ranks[x := rank];
    NoneBelow(ranks, reference, x, y, lo);
    Lexorank.SecondIsRefused(ranks[reference], m);
    Lexorank.MidIsWithin("", ranks[reference]);
    var lo', hi' :| Around(later, y, reference, true, lo', hi') && match Lexorank.MidOf(lo', hi')
      case None => next.rank == Broken && last == later
      case Some(rank) => next.rank.Ranked? && last == later[y := rank];
    OneBelow(later, reference, x, y, lo');
  }
}
