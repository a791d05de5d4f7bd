/** A request to move issues and rank them, as a block, around a reference. */
module IssueMoves {
  import opened Adf
  import opened Ranking

  datatype Found = Found(id: string, jiraId: int, key: string)

  datatype RankResult = Ranked | Forbidden(message: string) | Broken

  /**
   * An issue of the request, with what the repository answers when it is processed: the issue, if it
   * can be seen; the status the move fails with, or 0; and whether its rank can be written.
   */
  datatype Item = Item(ref: string, issue: Option<Found>, moveStatus: int, moveMessage: string, rank: RankResult)

  datatype Entry = Entry(issueId: int, issueKey: string, status: int, errors: seq<string>)

  datatype Answer = NoContent | MultiStatus(entries: seq<Entry>) | NotFound(ref: string)

  // ---- requests ----

  datatype RankRequest = RankRequest(issues: seq<string>, before: string, after: string, field: Option<int>)

  datatype Rejection = NoIssues | TooManyIssues | NoReference | TwoReferences | NoSuchField

  const MAX_ISSUES_PER_MOVE := 50

  function DecodeRankRequest(req: RankRequest, rankRequired: bool, rankField: int): Option<Rejection> {
    if |req.issues| == 0 then Some(NoIssues)
    else if |req.issues| > MAX_ISSUES_PER_MOVE then Some(TooManyIssues)
    else if rankRequired && req.before == "" && req.after == "" then Some(NoReference)
    else if req.before != "" && req.after != "" then Some(TwoReferences)
    else if req.field.Some? && req.field.value != rankField then Some(NoSuchField)
    else None
  }

  /** In a request that is let through, the two references joined are the one that is given. */
  lemma OneReference(req: RankRequest, rankRequired: bool, rankField: int)
    requires DecodeRankRequest(req, rankRequired, rankField).None?
    ensures req.before + req.after == if req.before != "" then req.before else req.after
    ensures rankRequired ==> req.before + req.after != ""
    ensures 1 <= |req.issues| <= 50
  {
    assert req.before == "" || req.after == "";
  }

  /**
   * A request is let through exactly when it has 1 to 50 issues, not both references, at least one where
   * one is called for, and no field but the rank; one that is not is rejected for the first of these it
   * does not meet.
   */
  lemma RejectedExactly(req: RankRequest, rankRequired: bool, rankField: int)
    ensures var counts := 1 <= |req.issues| <= 50;
            var referenced := rankRequired ==> req.before != "" || req.after != "";
            var single := req.before == "" || req.after == "";
            var known := req.field.None? || req.field.value == rankField;
            var rejection := DecodeRankRequest(req, rankRequired, rankField);
            && (rejection == None <==> counts && referenced && single && known)
            && (rejection == Some(NoIssues) <==> req.issues == [])
            && (rejection == Some(TooManyIssues) <==> |req.issues| > 50)
            && (rejection == Some(NoReference) <==> counts && !referenced)
            && (rejection == Some(TwoReferences) <==> counts && referenced && !single)
            && (rejection == Some(NoSuchField) <==> counts && referenced && single && !known)
  {
  }

  // ---- what becomes of each issue ----

  /** Whether an issue is moved, and ranked when there is an anchor to rank it around. */
  predicate Succeeds(item: Item, anchor: string): (ok: bool)
    ensures ok ==> item.issue.Some? && (anchor != "" ==> item.issue.value.id != anchor)
  {
    && item.issue.Some? && item.moveStatus == 0
    && (anchor == "" || (item.issue.value.id != anchor && item.rank.Ranked?))
  }

  function EntryFor(item: Item, anchor: string): Entry {
    if item.issue.None? then
      Entry(0, item.ref, 404, ["Issue does not exist or you do not have permission to see it."])
    else
      var e := Entry(item.issue.value.jiraId, item.issue.value.key, 200, []);
      if item.moveStatus != 0 then e.(status := item.moveStatus, errors := [item.moveMessage])
      else if anchor == "" then e
      else if item.issue.value.id == anchor then
        e.(status := 400, errors := ["An issue cannot be ranked relative to itself."])
      else
        match item.rank
        case Ranked => e
        case Forbidden(message) => e.(status := 403, errors := [message])
        case Broken => e.(status := 500, errors := ["The issue could not be ranked."])
  }

  /**
   * The entry of an issue: without one to be seen, 404 under the reference as it was sent. Otherwise it
   * bears the issue's id and key, and the status is the move's when that fails, 400 for the issue it is
   * to be ranked around, 403 or 500 when its rank is refused or cannot be written, and 200 exactly when it
   * succeeds; it has one error, and none with 200.
   */
  lemma EntryExactly(item: Item, anchor: string)
    ensures var e := EntryFor(item, anchor);
            && (item.issue.None? ==> e.status == 404 && e.issueId == 0 && e.issueKey == item.ref && |e.errors| == 1)
            && (item.issue.Some? ==>
                  var around := item.issue.value.id == anchor && anchor != "";
                  && e.issueId == item.issue.value.jiraId && e.issueKey == item.issue.value.key
                  && (item.moveStatus != 0 ==> e.status == item.moveStatus && e.errors == [item.moveMessage])
                  && (item.moveStatus == 0 && around ==> e.status == 400 && |e.errors| == 1)
                  && (item.moveStatus == 0 && !around && anchor != "" ==>
                        && (item.rank.Forbidden? ==> e.status == 403 && e.errors == [item.rank.message])
                        && (item.rank.Broken? ==> e.status == 500 && |e.errors| == 1))
                  && (item.moveStatus != 200 ==> (e.status == 200 <==> Succeeds(item, anchor)))
                  && (Succeeds(item, anchor) ==> e.errors == []))
  {
  }

  /** Store identifiers are never empty. */
  predicate Identified(items: seq<Item>) {
    forall i :: 0 <= i < |items| && items[i].issue.Some? ==> items[i].issue.value.id != ""
  }

  function LastOf(reference: string, ids: seq<string>): string {
    if ids == [] then reference else ids[|ids| - 1]
  }

  function FirstOf(ids: seq<string>, reference: string): string {
    if ids == [] then reference else ids[0]
  }

  /** The issues that succeed, in order, when each is anchored on the last one that did. */
  function Forward(items: seq<Item>, reference: string): (ids: seq<string>)
    requires Identified(items)
    ensures forall x :: x in ids ==> x != ""
    ensures reference != "" ==> Chain([reference] + ids)
  {
    if items == [] then []
    else
      var n := |items| - 1;
      var before := Forward(items[..n], reference);
      if Succeeds(items[n], LastOf(reference, before)) then
        assert [reference] + (before + [items[n].issue.value.id]) == ([reference] + before) + [items[n].issue.value.id];
        before + [items[n].issue.value.id]
      else before
  }

  /** The issues that succeed, in order, when they are processed last first. */
  function Backward(items: seq<Item>, reference: string): (ids: seq<string>)
    requires Identified(items)
    ensures forall x :: x in ids ==> x != ""
    ensures reference != "" ==> Chain(ids + [reference])
  {
    if items == [] then []
    else
      var after := Backward(items[1..], reference);
      if Succeeds(items[0], FirstOf(after, reference)) then
        assert ([items[0].issue.value.id] + after) + [reference] == [items[0].issue.value.id] + (after + [reference]);
        [items[0].issue.value.id] + after
      else after
  }

  /** What each issue was anchored on when its turn came. */
  function AnchorOf(items: seq<Item>, reference: string, before: bool, k: nat): string
    requires k < |items| && Identified(items)
  {
    if reference == "" then ""
    else if before then FirstOf(Backward(items[k + 1..], reference), reference)
    else AnchorAfter(items[..k], reference)
  }

  lemma ForwardSnoc(items: seq<Item>, i: nat, reference: string)
    requires Identified(items) && i < |items|
    ensures Identified(items[..i]) && Identified(items[..i + 1])
    ensures Forward(items[..i + 1], reference) ==
            if Succeeds(items[i], LastOf(reference, Forward(items[..i], reference)))
            then Forward(items[..i], reference) + [items[i].issue.value.id]
            else Forward(items[..i], reference)
  {
    hide Succeeds, Chain;
    assert items[..i + 1][..i] == items[..i];
  }

  lemma BackwardCons(items: seq<Item>, i: nat, reference: string)
    requires Identified(items) && i < |items|
    ensures Identified(items[i..]) && Identified(items[i + 1..])
    ensures Backward(items[i..], reference) ==
            if Succeeds(items[i], FirstOf(Backward(items[i + 1..], reference), reference))
            then [items[i].issue.value.id] + Backward(items[i + 1..], reference)
            else Backward(items[i + 1..], reference)
  {
    hide Succeeds, Chain;
    assert items[i..][1..] == items[i + 1..];
  }

  lemma RankedAfterSnoc(order: seq<string>, reference: string, xs: seq<string>, x: string)
    requires reference in order && Chain([reference] + xs) && Chain([reference] + (xs + [x])) && x != LastOf(reference, xs)
    ensures LastOf(reference, xs) in RankedAfter(order, reference, xs)
    ensures RankedAfter(order, reference, xs + [x]) == MoveAfter(RankedAfter(order, reference, xs), x, LastOf(reference, xs))
  {
    hide MoveAfter, Chain;
    assert (xs + [x])[..|xs|] == xs;
    assert ([reference] + (xs + [x]))[|xs|] == LastOf(reference, xs);
    assert ([reference] + xs)[|xs|] == LastOf(reference, xs);
  }

  lemma RankedBeforeCons(order: seq<string>, reference: string, x: string, xs: seq<string>)
    requires reference in order && Chain(xs + [reference]) && Chain(([x] + xs) + [reference]) && x != FirstOf(xs, reference)
    ensures FirstOf(xs, reference) in RankedBefore(order, reference, xs)
    ensures RankedBefore(order, reference, [x] + xs) == MoveBefore(RankedBefore(order, reference, xs), x, FirstOf(xs, reference))
  {
    hide MoveBefore, Chain;
    assert ([x] + xs)[1..] == xs;
    assert (([x] + xs) + [reference])[1] == FirstOf(xs, reference);
    assert (xs + [reference])[0] == FirstOf(xs, reference);
  }

  /** The order after the first issues of a request; without a reference nothing is ranked. */
  function OrderAfter(order: seq<string>, items: seq<Item>, reference: string): seq<string>
    requires Identified(items) && (reference != "" ==> reference in order)
  {
    if reference == "" then order else RankedAfter(order, reference, Forward(items, reference))
  }

  function AnchorAfter(items: seq<Item>, reference: string): string
    requires Identified(items)
  {
    if reference == "" then "" else LastOf(reference, Forward(items, reference))
  }

  lemma AfterNone(order: seq<string>, reference: string)
    requires reference != "" ==> reference in order
    ensures OrderAfter(order, [], reference) == order && AnchorAfter([], reference) == reference
  {
    hide MoveAfter;
  }

  lemma AfterOneMore(order: seq<string>, items: seq<Item>, i: nat, reference: string)
    requires Identified(items) && i < |items| && (reference != "" ==> reference in order)
    ensures Identified(items[..i]) && Identified(items[..i + 1])
    ensures var anchor := AnchorAfter(items[..i], reference);
            && (anchor == "" <==> reference == "")
            && if anchor != "" && Succeeds(items[i], anchor) then
                 && AnchorAfter(items[..i + 1], reference) == items[i].issue.value.id
                 && anchor in OrderAfter(order, items[..i], reference)
                 && OrderAfter(order, items[..i + 1], reference) ==
                    MoveAfter(OrderAfter(order, items[..i], reference), items[i].issue.value.id, anchor)
               else
                 && AnchorAfter(items[..i + 1], reference) == anchor
                 && OrderAfter(order, items[..i + 1], reference) == OrderAfter(order, items[..i], reference)
  {
    hide MoveAfter, Succeeds, Chain, Forward, RankedAfter;
    ForwardSnoc(items, i, reference);
    var ids := Forward(items[..i], reference);
    assert ids == [] || ids[|ids| - 1] in ids;
    if reference != "" && Succeeds(items[i], AnchorAfter(items[..i], reference)) {
      RankedAfterSnoc(order, reference, Forward(items[..i], reference), items[i].issue.value.id);
    }
  }

  lemma BeforeNone(order: seq<string>, reference: string)
    requires reference in order
    ensures Backward([], reference) == [] && FirstOf([], reference) == reference && RankedBefore(order, reference, []) == order
  {
  }

  lemma BeforeOneMore(order: seq<string>, items: seq<Item>, i: nat, reference: string)
    requires Identified(items) && i < |items| && reference != "" && reference in order
    ensures Identified(items[i..]) && Identified(items[i + 1..])
    ensures var later, now := Backward(items[i + 1..], reference), Backward(items[i..], reference);
            var anchor := FirstOf(later, reference);
            && anchor != ""
            && if Succeeds(items[i], anchor) then
                 && FirstOf(now, reference) == items[i].issue.value.id
                 && anchor in RankedBefore(order, reference, later)
                 && RankedBefore(order, reference, now) ==
                    MoveBefore(RankedBefore(order, reference, later), items[i].issue.value.id, anchor)
               else now == later
  {
    hide MoveBefore, Succeeds, Chain, Backward, RankedBefore;
    BackwardCons(items, i, reference);
    var ids := Backward(items[i + 1..], reference);
    assert ids == [] || ids[0] in ids;
    if Succeeds(items[i], FirstOf(ids, reference)) {
      RankedBeforeCons(order, reference, items[i].issue.value.id, ids);
    }
  }

  // ---- processing a request ----

  class Moves {
    var order: seq<string>
    var beforeId: string
    var afterId: string
    var failed: bool
    const entries: array<Entry>

    function Anchor(): string
      reads this
    {
      if beforeId != "" then beforeId else afterId
    }

    /** At most one side is anchored, and what it is anchored on is in the order. */
    predicate Valid()
      reads this
    {
      && (beforeId == "" || afterId == "")
      && (Anchor() != "" ==> Anchor() in order)
    }

    constructor (order: seq<string>, beforeId: string, afterId: string, size: nat)
      ensures this.order == order && this.beforeId == beforeId && this.afterId == afterId && !failed
      ensures fresh(entries) && entries.Length == size
    {
      this.order, this.beforeId, this.afterId, failed := order, beforeId, afterId, false;
      entries := new Entry[size](_ => Entry(0, "", 0, []));
    }

    /** One issue of the request: moved, then ranked around the anchor, which it becomes. */
    method Process(index: nat, item: Item)
      requires Valid() && index < entries.Length && (item.issue.Some? ==> item.issue.value.id != "")
      modifies this, entries
      ensures Valid()
      ensures entries[..] == old(entries[..])[index := EntryFor(item, old(Anchor()))]
      ensures failed == (old(failed) || !Succeeds(item, old(Anchor())))
      ensures (beforeId == "") == old(beforeId == "") && (afterId == "") == old(afterId == "")
      ensures old(Anchor()) != "" && Succeeds(item, old(Anchor())) ==>
              && Anchor() == item.issue.value.id
              && order == if old(beforeId) != "" then MoveBefore(old(order), Anchor(), old(Anchor()))
                          else MoveAfter(old(order), Anchor(), old(Anchor()))
      ensures old(Anchor()) == "" || !Succeeds(item, old(Anchor())) ==> order == old(order) && Anchor() == old(Anchor())
    {
      hide IndexOf, Without;
      if item.issue.None? {
        entries[index] := Entry(0, item.ref, 404, ["Issue does not exist or you do not have permission to see it."]);
        failed := true;
        return;
      }
      var issue := item.issue.value;
      var entry := Entry(issue.jiraId, issue.key, 200, []);
      if item.moveStatus != 0 {
        entries[index] := entry.(status := item.moveStatus, errors := [item.moveMessage]);
        failed := true;
        return;
      }
      if beforeId != "" || afterId != "" {
        if issue.id == beforeId || issue.id == afterId {
          entries[index] := entry.(status := 400, errors := ["An issue cannot be ranked relative to itself."]);
          failed := true;
          return;
        }
        if item.rank.Forbidden? {
          entries[index] := entry.(status := 403, errors := [item.rank.message]);
          failed := true;
          return;
        }
        if item.rank.Broken? {
          entries[index] := entry.(status := 500, errors := ["The issue could not be ranked."]);
          failed := true;
          return;
        }
        if beforeId != "" {
          order := MoveBefore(order, issue.id, beforeId);
          beforeId := issue.id;
        } else {
          order := MoveAfter(order, issue.id, afterId);
          afterId := issue.id;
        }
      }
      entries[index] := entry;
    }
  
    /** First to last, each issue ranked after the one before it. */
    method Forwards(items: seq<Item>, reference: string)
      requires Valid() && beforeId == "" && afterId == reference && !failed
      requires |items| == entries.Length && Identified(items)
      modifies this, entries
      ensures order == OrderAfter(old(order), items, reference)
      ensures forall k :: 0 <= k < |items| ==> entries[k] == EntryFor(items[k], AnchorOf(items, reference, false, k))
      ensures failed == exists k :: 0 <= k < |items| && !Succeeds(items[k], AnchorOf(items, reference, false, k))
    {
      hide MoveAfter, MoveBefore, EntryFor, Succeeds, OrderAfter, AnchorAfter;
      ghost var before := order;
      assert items[..0] == [];
      AfterNone(before, reference);
      for i := 0 to |items|
        invariant Valid() && beforeId == ""
        invariant Identified(items[..i])
        invariant afterId == AnchorAfter(items[..i], reference)
        invariant order == OrderAfter(before, items[..i], reference)
        invariant forall k :: 0 <= k < i ==> entries[k] == EntryFor(items[k], AnchorOf(items, reference, false, k))
        invariant failed == exists k :: 0 <= k < i && !Succeeds(items[k], AnchorOf(items, reference, false, k))
      {
        AfterOneMore(before, items, i, reference);
        Process(i, items[i]);
      }
      assert items[..|items|] == items;
    }

    /** Last to first, each issue ranked before the one after it. */
    method Backwards(items: seq<Item>, reference: string)
      requires Valid() && beforeId == reference != "" && !failed
      requires |items| == entries.Length && Identified(items)
      modifies this, entries
      ensures order == RankedBefore(old(order), reference, Backward(items, reference))
      ensures forall k :: 0 <= k < |items| ==> entries[k] == EntryFor(items[k], AnchorOf(items, reference, true, k))
      ensures failed == exists k :: 0 <= k < |items| && !Succeeds(items[k], AnchorOf(items, reference, true, k))
    {
      hide MoveAfter, MoveBefore, EntryFor, Succeeds, Chain, Backward, RankedBefore, FirstOf;
      ghost var start := order;
      assert items[|items|..] == [];
      BeforeNone(start, reference);
      var i := |items|;
      while i > 0
        invariant 0 <= i <= |items|
        invariant Valid() && beforeId != ""
        invariant Identified(items[i..])
        invariant beforeId == FirstOf(Backward(items[i..], reference), reference)
        invariant order == RankedBefore(start, reference, Backward(items[i..], reference))
        invariant forall k :: i <= k < |items| ==> entries[k] == EntryFor(items[k], AnchorOf(items, reference, true, k))
        invariant failed == exists k :: i <= k < |items| && !Succeeds(items[k], AnchorOf(items, reference, true, k))
      {
        i := i - 1;
        BeforeOneMore(start, items, i, reference);
        Process(i, items[i]);
      }
      assert items[0..] == items;
    }
  }

  /** The block the request leaves in the reference's place. */
  function Block(items: seq<Item>, reference: string, before: bool): seq<string>
    requires Identified(items)
  {
    if before then KeepFirst(Backward(items, reference) + [reference]) else KeepLast([reference] + Forward(items, reference))
  }

  lemma BlockStaysDistinct(order: seq<string>, items: seq<Item>, reference: string, before: bool)
    requires Identified(items) && reference in order && Distinct(order)
    ensures Distinct(Placed(order, reference, Block(items, reference, before)))
  {
    hide Placed, Forward, Backward, KeepFirst, KeepLast, Distinct;
    NoRepeats(if before then Backward(items, reference) + [reference] else [reference] + Forward(items, reference));
    PlacedStaysDistinct(order, reference, Block(items, reference, before));
  }

  /** The items are the request's issues, each with what the repository answers for it. */
  predicate Answered(req: RankRequest, items: seq<Item>) {
    |items| == |req.issues| && forall i :: 0 <= i < |items| ==> items[i].ref == req.issues[i]
  }

  /**
   * Issues are moved and ranked around the reference: in its place stands the block of the reference
   * and the issues that succeeded, each where it was put last, and every other issue keeps its place
   * among the rest. Every issue gets its entry, and the answer has no content when none failed.
   */
  method ApplyIssueMoves(order: seq<string>, req: RankRequest, reference: Option<Found>, items: seq<Item>)
      returns (ordered: seq<string>, answer: Answer)
    requires (req.before == "" || req.after == "") && Answered(req, items)
    requires Distinct(order) && Identified(items)
    requires reference.Some? ==> reference.value.id != "" && reference.value.id in order
    ensures req.before + req.after != "" && reference.None? ==> ordered == order && answer == NotFound(req.before + req.after)
    ensures req.before + req.after == "" ==> ordered == order
    ensures Distinct(ordered)
    ensures req.before + req.after != "" && reference.Some? ==>
              ordered == Placed(order, reference.value.id, Block(items, reference.value.id, req.before != ""))
    ensures req.before + req.after == "" || reference.Some? ==>
              var anchor := if req.before + req.after == "" then "" else reference.value.id;
              var succeeded := forall k :: 0 <= k < |items| ==> Succeeds(items[k], AnchorOf(items, anchor, req.before != "", k));
              && (answer == NoContent <==> succeeded)
              && (!succeeded ==>
                  && answer.MultiStatus? && |answer.entries| == |req.issues|
                  && forall k :: 0 <= k < |items| ==> answer.entries[k] == EntryFor(items[k], AnchorOf(items, anchor, req.before != "", k)))
  {
    hide Placed, KeepLast, KeepFirst, EntryFor, Succeeds, Forward, Backward, AnchorOf, Distinct, Identified;
    var ref := req.before + req.after;
    if ref != "" && reference.None? { return order, NotFound(ref); }
    var id := if ref == "" then "" else reference.value.id;
    var moves := new Moves(order, if req.before != "" then id else "", if req.before != "" then "" else id, |items|);
    if moves.beforeId != "" {
      moves.Backwards(items, id);
      RankedBeforePlaces(order, id, Backward(items, id));
    } else {
      moves.Forwards(items, id);
      if id != "" { RankedAfterPlaces(order, id, Forward(items, id)); }
    }
    if id != "" { BlockStaysDistinct(order, items, id, req.before != ""); }
    ordered := moves.order;
    answer := if moves.failed then MultiStatus(moves.entries[..]) else NoContent;
  }

  // ---- a request of distinct issues ----

  /** An issue that succeeds whatever it is anchored on. */
  predicate Movable(item: Item) {
    item.issue.Some? && item.moveStatus == 0 && item.rank.Ranked?
  }

  function Movables(items: seq<Item>): seq<string> {
    if items == [] then []
    else (if Movable(items[0]) then [items[0].issue.value.id] else []) + Movables(items[1..])
  }

  /** No issue is asked for twice, and the reference is not among them. */
  predicate Apart(items: seq<Item>, reference: string) {
    && (forall i :: 0 <= i < |items| && items[i].issue.Some? ==> items[i].issue.value.id != reference)
    && (forall i, j :: 0 <= i < j < |items| && items[i].issue.Some? && items[j].issue.Some? ==>
          items[i].issue.value.id != items[j].issue.value.id)
  }

  lemma {:induction false} MovablesAreItems(items: seq<Item>, x: string) returns (k: nat)
    requires x in Movables(items)
    ensures k < |items| && items[k].issue.Some? && items[k].issue.value.id == x
  {
    if Movable(items[0]) && items[0].issue.value.id == x {
      k := 0;
    } else {
      k := MovablesAreItems(items[1..], x);
      k := k + 1;
    }
  }

  lemma {:induction false} MovablesSnoc(items: seq<Item>, item: Item)
    ensures Movables(items + [item]) == Movables(items) + (if Movable(item) then [item.issue.value.id] else [])
  {
    if items == [] {
      assert items + [item] == [item];
      assert Movables([item][1..]) == [];
    } else {
      MovablesSnoc(items[1..], item);
      assert (items + [item])[1..] == items[1..] + [item];
    }
  }

  /** In turn, every issue that can be moved is; none meets itself as the anchor. */
  lemma {:induction false} ForwardMovesAll(items: seq<Item>, reference: string)
    requires Identified(items) && Apart(items, reference) && reference != ""
    ensures Forward(items, reference) == Movables(items)
  {
    if items != [] {
      var n := |items| - 1;
      var before := items[..n];
      ForwardMovesAll(before, reference);
      MovablesSnoc(before, items[n]);
      assert items == before + [items[n]];
      var anchor := LastOf(reference, Movables(before));
      if anchor in Movables(before) { var k := MovablesAreItems(before, anchor); }
      assert Succeeds(items[n], anchor) <==> Movable(items[n]);
    }
  }

  lemma {:induction false} BackwardMovesAll(items: seq<Item>, reference: string)
    requires Identified(items) && Apart(items, reference) && reference != ""
    ensures Backward(items, reference) == Movables(items)
  {
    if items != [] {
      var after := items[1..];
      BackwardMovesAll(after, reference);
      var anchor := FirstOf(Movables(after), reference);
      if anchor in Movables(after) { var k := MovablesAreItems(after, anchor); }
      assert Succeeds(items[0], anchor) <==> Movable(items[0]);
    }
  }

  lemma {:induction false} MovablesDistinct(items: seq<Item>, reference: string)
    requires Apart(items, reference)
    ensures Distinct(Movables(items)) && reference !in Movables(items)
  {
    if items != [] {
      var rest := Movables(items[1..]);
      MovablesDistinct(items[1..], reference);
      if Movable(items[0]) && items[0].issue.value.id in rest {
        var k := MovablesAreItems(items[1..], items[0].issue.value.id);
      }
    }
  }

  /**
   * For a request of distinct issues not containing the reference, the issues that can be moved end
   * up as one contiguous block, in request order, directly before or after the reference.
   */
  lemma RequestOrderBlock(items: seq<Item>, reference: string, before: bool)
    requires Identified(items) && Apart(items, reference) && reference != ""
    ensures Block(items, reference, before) == if before then Movables(items) + [reference] else [reference] + Movables(items)
  {
    hide KeepFirst, KeepLast, Forward, Backward, Movables, Apart;
    MovablesDistinct(items, reference);
    DistinctJoin(Movables(items), [reference]);
    DistinctJoin([reference], Movables(items));
    if before {
      BackwardMovesAll(items, reference);
      KeepFirstDistinct(Movables(items) + [reference]);
    } else {
      ForwardMovesAll(items, reference);
      KeepLastDistinct([reference] + Movables(items));
    }
  }

  /** And each of them fails or succeeds on its own account, whatever the others do. */
  lemma EachOnItsOwn(items: seq<Item>, reference: string, before: bool, k: nat)
    requires Identified(items) && Apart(items, reference) && reference != "" && k < |items|
    ensures Succeeds(items[k], AnchorOf(items, reference, before, k)) <==> Movable(items[k])
  {
    hide Forward, Backward, Movables;
    var anchor := AnchorOf(items, reference, before, k);
    if before {
      BackwardMovesAll(items[k + 1..], reference);
      if anchor in Movables(items[k + 1..]) { var j := MovablesAreItems(items[k + 1..], anchor); }
    } else {
      ForwardMovesAll(items[..k], reference);
      if anchor in Movables(items[..k]) { var j := MovablesAreItems(items[..k], anchor); }
    }
  }
}
