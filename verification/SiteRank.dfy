/** An issue's rank directly before or after another's, and the move made by writing it. */
module SiteRank {
  import opened Text
  import opened Adf
  import opened Ranking
  import opened Lexorank

  predicate AllRanked(ranks: map<string, string>) {
    forall y :: y in ranks ==> Ranked(ranks[y])
  }

  /** The highest rank below another among the issues but one, or none. */
  ghost predicate HighestBelow(ranks: map<string, string>, ids: set<string>, skip: string, rank: string, lo: string) {
    && (forall y :: y in ids && y in ranks && y != skip && Below(ranks[y], rank) ==> ranks[y] == lo || Below(ranks[y], lo))
    && (lo == "" || (Below(lo, rank) && exists y :: y in ids && y in ranks && y != skip && ranks[y] == lo))
  }

  ghost predicate LowestAbove(ranks: map<string, string>, ids: set<string>, skip: string, rank: string, hi: string) {
    && (forall y :: y in ids && y in ranks && y != skip && Below(rank, ranks[y]) ==> hi != "" && (ranks[y] == hi || Below(hi, ranks[y])))
    && (hi == "" || (Below(rank, hi) && exists y :: y in ids && y in ranks && y != skip && ranks[y] == hi))
  }

  method MaxBelow(ranks: map<string, string>, skip: string, rank: string) returns (lo: string)
    requires AllRanked(ranks)
    ensures HighestBelow(ranks, ranks.Keys, skip, rank, lo)
  {
    lo := "";
    var rest := ranks.Keys;
    while rest != {}
      invariant rest <= ranks.Keys
      invariant HighestBelow(ranks, ranks.Keys - rest, skip, rank, lo)
    {
      var y :| y in rest;
      var s := ranks[y];
      if y != skip && Below(s, rank) {
        if lo == "" || Below(lo, s) {
          forall z | z in ranks.Keys - rest && z != skip && Below(ranks[z], rank) ensures ranks[z] == s || Below(ranks[z], s) {
            if lo != "" && ranks[z] != lo { BelowTransitive(ranks[z], lo, s); }
          }
          lo := s;
        } else {
          BelowTotal(lo, s);
        }
      }
      rest := rest - {y};
    }
  }

  method MinAbove(ranks: map<string, string>, skip: string, rank: string) returns (hi: string)
    requires AllRanked(ranks)
    ensures LowestAbove(ranks, ranks.Keys, skip, rank, hi)
  {
    hi := "";
    var rest := ranks.Keys;
    while rest != {}
      invariant rest <= ranks.Keys
      invariant LowestAbove(ranks, ranks.Keys - rest, skip, rank, hi)
    {
      var y :| y in rest;
      var s := ranks[y];
      if y != skip && Below(rank, s) {
        if hi == "" || Below(s, hi) {
          forall z | z in ranks.Keys - rest && z != skip && Below(rank, ranks[z]) ensures ranks[z] == s || Below(s, ranks[z]) {
            if hi != "" && ranks[z] != hi { BelowTransitive(s, hi, ranks[z]); }
          }
          hi := s;
        } else {
          BelowTotal(hi, s);
        }
      }
      rest := rest - {y};
    }
  }

  /** The rank lies below the reference's, and above those of all the others below it. */
  ghost predicate JustBefore(ranks: map<string, string>, x: string, reference: string, rank: string)
    requires reference in ranks
  {
    && Below(rank, ranks[reference])
    && forall y :: y in ranks && y != x && Below(ranks[y], ranks[reference]) ==> Below(ranks[y], rank)
  }

  ghost predicate JustAfter(ranks: map<string, string>, x: string, reference: string, rank: string)
    requires reference in ranks
  {
    && Below(ranks[reference], rank)
    && forall y :: y in ranks && y != x && Below(ranks[reference], ranks[y]) ==> Below(rank, ranks[y])
  }

  /** There is one highest rank below, and one lowest above. */
  lemma BoundsAreUnique(ranks: map<string, string>, x: string, rank: string, a: string, b: string)
    requires AllRanked(ranks)
    ensures HighestBelow(ranks, ranks.Keys, x, rank, a) && HighestBelow(ranks, ranks.Keys, x, rank, b) ==> a == b
    ensures LowestAbove(ranks, ranks.Keys, x, rank, a) && LowestAbove(ranks, ranks.Keys, x, rank, b) ==> a == b
  {
    BelowTotal(a, b);
    hide Below;
    BelowNothing(a);
    BelowNothing(b);
  }

  lemma BelowNothing(a: string)
    ensures !Below(a, "")
  {
  }

  lemma BoundIsRank(ranks: map<string, string>, x: string, rank: string, bound: string)
    requires AllRanked(ranks)
    requires HighestBelow(ranks, ranks.Keys, x, rank, bound) || LowestAbove(ranks, ranks.Keys, x, rank, bound)
    ensures IsRank(bound)
  {
    hide Below;
  }

  /** The bounds between which an issue is ranked around a reference. */
  ghost predicate Bounds(ranks: map<string, string>, x: string, beforeId: string, afterId: string, lo: string, hi: string)
    requires (if beforeId == "" then afterId else beforeId) in ranks
  {
    if beforeId != ""
    then hi == ranks[beforeId] && HighestBelow(ranks, ranks.Keys, x, hi, lo)
    else lo == ranks[afterId] && LowestAbove(ranks, ranks.Keys, x, lo, hi)
  }

  /**
   * The rank that puts an issue directly before or after another: none exactly when the
   * reference has no rank or no rank is found between it and its neighbour on that side.
   */
  method RankAround(ranks: map<string, string>, x: string, beforeId: string, afterId: string)
    returns (rank: Option<string>, ghost lo: string, ghost hi: string)
    requires AllRanked(ranks)
    ensures var reference := if beforeId == "" then afterId else beforeId;
            if reference !in ranks then rank.None?
            else
              && IsRank(lo) && IsRank(hi) && Bounds(ranks, x, beforeId, afterId, lo, hi)
              && rank == MidOf(lo, hi)
              && (rank.Some? <==> Finds(lo, hi))
              && (rank.Some? ==> if beforeId != "" then JustBefore(ranks, x, reference, rank.value)
                                 else JustAfter(ranks, x, reference, rank.value))
  {
    hide Below, MidOf, Finds, HighestBelow, LowestAbove, JustBefore, JustAfter;
    lo, hi := "", "";
    var reference := if beforeId == "" then afterId else beforeId;
    if reference !in ranks { return None, lo, hi; }
    var referenceRank := ranks[reference];
    if beforeId != "" {
      var below := MaxBelow(ranks, x, referenceRank);
      BoundIsRank(ranks, x, referenceRank, below);
      rank := Mid(below, referenceRank);
      lo, hi := below, referenceRank;
      MidExactly(lo, hi);
      if rank.Some? {
        MidIsWithin(lo, hi);
        AboveAll(ranks, x, reference, lo, rank.value);
      }
    } else {
      var above := MinAbove(ranks, x, referenceRank);
      BoundIsRank(ranks, x, referenceRank, above);
      rank := Mid(referenceRank, above);
      lo, hi := referenceRank, above;
      MidExactly(lo, hi);
      if rank.Some? {
        MidIsWithin(lo, hi);
        BelowAll(ranks, x, reference, hi, rank.value);
      }
    }
  }

  lemma AboveAll(ranks: map<string, string>, x: string, reference: string, lo: string, rank: string)
    requires AllRanked(ranks) && reference in ranks && HighestBelow(ranks, ranks.Keys, x, ranks[reference], lo)
    requires Within(lo, rank, ranks[reference])
    ensures JustBefore(ranks, x, reference, rank)
  {
    forall y | y in ranks && y != x && Below(ranks[y], ranks[reference]) ensures Below(ranks[y], rank) {
      if ranks[y] != lo { BelowTransitive(ranks[y], lo, rank); }
    }
  }

  lemma BelowAll(ranks: map<string, string>, x: string, reference: string, hi: string, rank: string)
    requires AllRanked(ranks) && reference in ranks && LowestAbove(ranks, ranks.Keys, x, ranks[reference], hi)
    requires Within(ranks[reference], rank, hi)
    ensures JustAfter(ranks, x, reference, rank)
  {
    forall y | y in ranks && y != x && Below(ranks[reference], ranks[y]) ensures Below(rank, ranks[y]) {
      if ranks[y] != hi { BelowTransitive(rank, hi, ranks[y]); }
    }
  }

  // ---- a rank is a move ----

  /** The issues in the order of their ranks, which are all different. */
  ghost predicate InRankOrder(order: seq<string>, ranks: map<string, string>) {
    && (forall i :: 0 <= i < |order| ==> order[i] in ranks)
    && (forall i, j :: 0 <= i < j < |order| ==> Below(ranks[order[i]], ranks[order[j]]))
  }

  lemma {:induction false} WithoutKeepsOrder(order: seq<string>, ranks: map<string, string>, gone: set<string>)
    requires InRankOrder(order, ranks)
    ensures InRankOrder(Without(order, gone), ranks)
  {
    if order != [] {
      var rest := Without(order[1..], gone);
      WithoutKeepsOrder(order[1..], ranks, gone);
      forall j | 0 <= j < |rest| ensures Below(ranks[order[0]], ranks[rest[j]]) {
        assert rest[j] in order[1..];
      }
    }
  }

  /** Put between those that rank below it and those that rank above, an issue keeps the order. */
  lemma InsertKeepsOrder(rest: seq<string>, ranks: map<string, string>, x: string, rank: string, i: nat)
    requires InRankOrder(rest, ranks) && x !in rest && i <= |rest|
    requires forall j :: 0 <= j < i ==> Below(ranks[rest[j]], rank)
    requires forall j :: i <= j < |rest| ==> Below(rank, ranks[rest[j]])
    ensures InRankOrder(rest[..i] + [x] + rest[i..], ranks[x := rank])
  {
    var s, m := rest[..i] + [x] + rest[i..], ranks[x := rank];
    assert forall j :: 0 <= j < |s| ==> s[j] == if j < i then rest[j] else if j == i then x else rest[j - 1];
    assert forall j :: 0 <= j < |rest| ==> rest[j] in rest;
  }

  /** Ranking an issue just before another moves it there in the order, and moves nothing else. */
  lemma RankBeforeMoves(order: seq<string>, ranks: map<string, string>, x: string, reference: string, rank: string)
    requires InRankOrder(order, ranks) && reference in order && x != reference
    requires reference in ranks && JustBefore(ranks, x, reference, rank)
    ensures InRankOrder(MoveBefore(order, x, reference), ranks[x := rank])
  {
    hide Below, Without;
    var rest := Without(order, {x});
    var i := IndexOf(rest, reference);
    WithoutKeepsOrder(order, ranks, {x});
    forall j | 0 <= j < i ensures Below(ranks[rest[j]], rank) {
      assert rest[j] in rest;
    }
    forall j | i <= j < |rest| ensures Below(rank, ranks[rest[j]]) {
      if i < j { BelowTransitive(rank, ranks[reference], ranks[rest[j]]); }
    }
    InsertKeepsOrder(rest, ranks, x, rank, i);
  }

  /** And just after another likewise. */
  lemma RankAfterMoves(order: seq<string>, ranks: map<string, string>, x: string, reference: string, rank: string)
    requires InRankOrder(order, ranks) && reference in order && x != reference
    requires reference in ranks && JustAfter(ranks, x, reference, rank)
    ensures InRankOrder(MoveAfter(order, x, reference), ranks[x := rank])
  {
    hide Below, Without;
    var rest := Without(order, {x});
    var i := IndexOf(rest, reference);
    WithoutKeepsOrder(order, ranks, {x});
    forall j | 0 <= j < i + 1 ensures Below(ranks[rest[j]], rank) {
      if j < i { BelowTransitive(ranks[rest[j]], ranks[reference], rank); }
    }
    forall j | i + 1 <= j < |rest| ensures Below(rank, ranks[rest[j]]) {
      assert rest[j] in rest;
    }
    InsertKeepsOrder(rest, ranks, x, rank, i + 1);
  }
}
