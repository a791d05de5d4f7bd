/** The queue of commands and what its history says of it. */
module Outbox {
  import opened Text
  import opened Worker

  function EntryOf(c: Command): Entry {
    Entry(c.id, c.request)
  }

  function Entries(q: seq<Command>): (es: seq<Entry>)
    ensures |es| == |q| && forall i :: 0 <= i < |q| ==> es[i] == EntryOf(q[i])
  {
    seq(|q|, i requires 0 <= i < |q| => EntryOf(q[i]))
  }

  predicate Increasing(es: seq<Entry>, below: nat) {
    && (forall i, j :: 0 <= i < j < |es| ==> es[i].id < es[j].id)
    && (forall i :: 0 <= i < |es| ==> es[i].id < below)
  }

  /** The sends with the repeats of a command struck out. */
  function Collapse(es: seq<Entry>): seq<Entry> {
    if es == [] then []
    else if |es| > 1 && es[|es| - 2] == es[|es| - 1] then Collapse(es[..|es| - 1])
    else Collapse(es[..|es| - 1]) + [es[|es| - 1]]
  }

  /**
   * Accepted commands followed by the queue are the commands enqueued, in order; the sends, repeats
   * struck out, are the accepted commands, or those and the head of the queue; and no command but
   * the head has been refused.
   */
  ghost predicate Queued(q: seq<Command>, nextId: nat, h: History) {
    && Increasing(h.enqueued, nextId)
    && h.accepted + Entries(q) == h.enqueued
    && (|| Collapse(h.sent) == h.accepted
        || (q != [] && Collapse(h.sent) == h.accepted + [EntryOf(q[0])]))
    && (forall i :: 0 < i < |q| ==> q[i].refused == 0)
  }

  /** The head of the queue has been sent. */
  ghost predicate HeadSent(q: seq<Command>, h: History) {
    q != [] && Collapse(h.sent) == h.accepted + [EntryOf(q[0])]
  }

  lemma CollapseSnoc(es: seq<Entry>, e: Entry)
    ensures Collapse(es + [e]) == if es != [] && es[|es| - 1] == e then Collapse(es) else Collapse(es) + [e]
  {
    assert (es + [e])[..|es|] == es;
  }

  lemma {:induction false} CollapseLast(es: seq<Entry>)
    ensures es == [] <==> Collapse(es) == []
    ensures es != [] ==> Collapse(es)[|Collapse(es)| - 1] == es[|es| - 1]
  {
    if |es| > 1 { CollapseLast(es[..|es| - 1]); }
  }

  lemma Enqueueing(q: seq<Command>, nextId: nat, h: History, request: Request, touched: set<string>)
    requires Queued(q, nextId, h)
    ensures Queued(q + [Command(nextId, request, 0)], nextId + 1,
                   h.(enqueued := h.enqueued + [Entry(nextId, request)], touched := touched))
  {
    hide Collapse;
    assert Entries(q + [Command(nextId, request, 0)]) == Entries(q) + [Entry(nextId, request)];
  }

  lemma Retrying(q: seq<Command>, nextId: nat, h: History)
    requires q != [] && Queued(q, nextId, h)
    ensures Queued([q[0].(refused := 0)] + q[1..], nextId, h)
  {
    hide Collapse, Increasing;
    assert Entries([q[0].(refused := 0)] + q[1..]) == Entries(q);
  }

  lemma Sending(q: seq<Command>, nextId: nat, h: History)
    requires q != [] && Queued(q, nextId, h)
    ensures var h' := h.(sent := h.sent + [EntryOf(q[0])]);
            Queued(q, nextId, h') && HeadSent(q, h')
  {
    hide Collapse;
    CollapseSnoc(h.sent, EntryOf(q[0]));
    CollapseLast(h.sent);
    if Collapse(h.sent) == h.accepted && h.sent != [] {
      var n := |h.accepted|;
      assert h.enqueued[n - 1] == h.accepted[n - 1] && h.enqueued[n] == Entries(q)[0];
    }
  }

  lemma {:induction false} NoneOf(q: seq<Command>, id: nat, status: int)
    requires forall i :: 0 <= i < |q| ==> q[i].id != id
    ensures WithoutCommand(q, id) == q && EntriesOf(q, id) == [] && Refused(q, id, status) == q
  {
    if q != [] { NoneOf(q[1..], id, status); }
  }

  /** Ids are never reused, so what is done to a command by its id is done to the head alone. */
  lemma HeadById(q: seq<Command>, nextId: nat, h: History, status: int)
    requires q != [] && Queued(q, nextId, h)
    ensures WithoutCommand(q, q[0].id) == q[1..]
    ensures EntriesOf(q, q[0].id) == [EntryOf(q[0])]
    ensures Refused(q, q[0].id, status) == [q[0].(refused := status)] + q[1..]
  {
    hide Collapse;
    var rest := q[1..];
    forall i | 0 <= i < |rest| ensures rest[i].id != q[0].id {
      var n := |h.accepted|;
      assert h.enqueued[n] == Entries(q)[0] && h.enqueued[n + i + 1] == Entries(q)[i + 1];
    }
    NoneOf(rest, q[0].id, status);
  }

  lemma Accepting(q: seq<Command>, nextId: nat, h: History)
    requires Queued(q, nextId, h) && HeadSent(q, h)
    ensures Queued(q[1..], nextId, h.(accepted := h.accepted + [EntryOf(q[0])]))
  {
    hide Collapse, Increasing;
    var first, rest := [EntryOf(q[0])], Entries(q[1..]);
    assert Entries(q) == first + rest;
    Assoc(h.accepted, first, rest);
  }

  lemma Refusing(q: seq<Command>, nextId: nat, h: History, status: int)
    requires q != [] && Queued(q, nextId, h)
    ensures Queued([q[0].(refused := status)] + q[1..], nextId, h)
  {
    hide Collapse, Increasing;
    assert Entries([q[0].(refused := status)] + q[1..]) == Entries(q);
  }
}
