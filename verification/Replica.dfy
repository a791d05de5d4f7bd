/**
 * The worker as it runs: fields that its handlers and passes change in place. Each method is a
 * stretch of code between two waits, and does what the worker's machine does.
 */
module Replica {
  import opened Adf
  import opened Actions
  import opened Bootstrap
  import opened Worker
  import opened Store

  class Replica {
    const rows: Rows
    var checkpoint: nat
    var head: nat
    var outbox: seq<Command>
    var nextId: nat
    var view: string
    var online: bool
    var maintenance: bool
    var maintenancePending: bool
    var passes: seq<Pass>
    ghost var history: History

    ghost function Database(): Worker.Database
      reads this, rows
    {
      Worker.Database.Database(rows.Contents(), checkpoint, head, outbox, nextId)
    }

    ghost function Guard(): Worker.Guard
      reads this
    {
      Worker.Guard.Guard(view, online, maintenance, maintenancePending, passes)
    }

    ghost function State(): Worker.State
      reads this, rows
    {
      Worker.State.State(Database(), Guard(), history)
    }

    constructor ()
      ensures fresh(rows) && State() == START
    {
      rows := new Rows();
      checkpoint, head, outbox, nextId := 0, 0, [], 1;
      view, online, maintenance, maintenancePending, passes := "", true, false, false, [];
      history := START.history;
    }

    // ---- maintenance ----

    method MaintenancePass(drainAll: bool)
      modifies this`maintenance, this`maintenancePending, this`passes, this`history
      ensures State() == Begin(old(State()), drainAll)
    {
      maintenancePending := false;
      if drainAll { history := history.(fullPasses := history.fullPasses + 1); }
      if !online {
        maintenance := false;
      } else if checkpoint == 0 && rows.issues == map[] {
        passes := passes + [BootstrapWait(drainAll)];
      } else {
        passes := passes + [SyncWait(drainAll, checkpoint)];
      }
    }

    method PassEnds()
      modifies this`maintenance, this`maintenancePending, this`passes, this`history
      ensures State() == Finish(old(State()))
    {
      hide Begin;
      if maintenancePending { MaintenancePass(true); } else { maintenance := false; }
    }

    method MaintenanceCycle(drainAll: bool)
      modifies this`maintenance, this`maintenancePending, this`passes, this`history
      ensures State() == Step(old(State()), Maintain(drainAll))
    {
      hide Begin;
      if maintenance {
        maintenancePending := true;
      } else {
        maintenance := true;
        MaintenancePass(drainAll);
      }
    }

    // ---- sync ----

    /**
     * Apply a page's actions while they are in order and none fails: all of them, or not all, and
     * then the caller rolls back. The issues to draw again are gathered on the way.
     */
    method ApplyPage(actions: seq<Action>, since: int, to: int) returns (ok: bool, changed: set<string>)
      modifies rows
      ensures ok == InOrder(actions, since, to)
      ensures ok ==> rows.Contents() == Replay(old(rows.Contents()), actions)
      ensures ok ==> forall id :: id in changed <==> id in Reported(old(rows.Contents()), actions)
    {
      hide Effect, Reports;
      ok, changed := true, {};
      var last := since;
      var i := 0;
      assert actions[0..] == actions;
      while i < |actions|
        invariant 0 <= i <= |actions|
        invariant InOrder(actions, since, to) == InOrder(actions[i..], last, to)
        invariant rows.Contents() == Replay(old(rows.Contents()), actions[..i])
        invariant forall id :: id in changed <==> id in Reported(old(rows.Contents()), actions[..i])
      {
        var a := actions[i];
        if a.number <= last || a.number > to { return false, changed; }
        assert actions[i..][0] == a && actions[i..][1..] == actions[i + 1..];
        assert actions[..i + 1][..i] == actions[..i];
        var ids, applied := rows.Apply(a);
        if !applied { return false, changed; }
        changed := changed + set id | id in ids;
        last := a.number;
        i := i + 1;
      }
      assert actions[..i] == actions;
    }
  
    /** Everything private goes, the outbox with it; only the numbering of commands goes on. */
    method PurgePrivateReplica()
      modifies rows, this`checkpoint, this`head, this`outbox, this`history
      ensures State() == Purge(old(State()))
    {
      rows.Restore(EMPTY);
      outbox := [];
      checkpoint, head := 0, 0;
      history := History([], {}, [], [], [], history.fullPasses);
    }

    /** The rest of a sync, once its request is answered: the page is applied as a whole or not at all. */
    method Sync(since: nat, r: Reply) returns (disposition: SyncDisposition)
      modifies rows, this`checkpoint, this`head, this`outbox, this`history
      ensures Outcome(State(), disposition) == Synced(old(State()), since, r)
    {
      hide InOrder, Replay, TouchedAfter, Reported;
      if r.Failed? { return SyncRetry; }
      if r.status == 304 { return SyncAccepted; }
      if DispositionForSyncStatus(r.status) == SyncRevoked {
        PurgePrivateReplica();
        return SyncRevoked;
      }
      if r.status != 200 || !r.body.PageBody? { return SyncRetry; }
      var page := r.body.page;
      if page.from != since || page.to < since || page.to > page.head { return SyncRetry; }
      var before := rows.Contents();
      var ok, changed := ApplyPage(page.actions, since, page.to);
      if !ok {
        rows.Restore(before);
        return SyncRetry;
      }
      checkpoint, head := page.to, page.head;
      history := history.(replayed := history.replayed + page.actions, touched := TouchedAfter(history.touched, page.actions));
      disposition := SyncAccepted;
    }

    // ---- bootstrap ----

    /** Apply a snapshot's upserts of one kind; an upsert of a decoded row never fails. */
    method ApplyUpserts(log: seq<Action>)
      requires forall a :: a in log ==> !Fails(a.change)
      modifies rows
      ensures rows.Contents() == Replay(old(rows.Contents()), log)
    {
      hide Effect, Reports, Fails;
      for i := 0 to |log|
        invariant rows.Contents() == Replay(old(rows.Contents()), log[..i])
      {
        assert log[..i + 1][..i] == log[..i];
        var ids, ok := rows.Apply(log[i]);
      }
      assert log[..|log|] == log;
    }

    /** The rest of a bootstrap: the snapshot is installed in one transaction, or nothing happens. */
    method BootstrapIfEmpty(r: Reply)
      modifies rows, this`checkpoint, this`head, this`history
      ensures State() == Bootstrapped(old(State()), r)
    {
      hide Replay, TouchedAfter, Upserts;
      if r.Failed? || r.status != 200 || !r.body.SnapshotBody? { return; }
      var s := r.body.snapshot;
      ghost var t := rows.Contents();
      var i, c := Upserts(s.issues, IssueUpsert), Upserts(s.comments, CommentUpsert);
      var x, w := Upserts(s.attachments, AttachmentUpsert), Upserts(s.worklogs, WorklogUpsert);
      ApplyUpserts(i);
      ApplyUpserts(c);
      ApplyUpserts(x);
      ApplyUpserts(w);
      ReplayConcat(t, i + c + x, w);
      ReplayConcat(t, i + c, x);
      ReplayConcat(t, i, c);
      checkpoint, head := s.head, s.head;
      history := history.(replayed := history.replayed + SnapshotActions(s), touched := TouchedAfter(history.touched, SnapshotActions(s)));
    }

    // ---- the outbox ----

    /** Send the head of the outbox, if it stands unrefused, and wait; otherwise the draining is over. */
    method DrainOutbox(drainAll: bool, drained: bool)
      modifies this`maintenance, this`maintenancePending, this`passes, this`history
      ensures State() == NextDrain(old(State()), drainAll, drained)
    {
      hide Finish;
      if outbox == [] || outbox[0].refused != 0 || !outbox[0].request.sendable {
        DrainingEnds(drained);
        return;
      }
      history := history.(sent := history.sent + [Entry(outbox[0].id, outbox[0].request)]);
      passes := passes + [DrainWait(drainAll, outbox[0].id, |outbox|, drained)];
    }

    method DrainingEnds(drained: bool)
      modifies this`maintenance, this`maintenancePending, this`passes, this`history
      ensures State() == AfterDrain(old(State()), drained)
    {
      hide Finish;
      if drained { passes := passes + [FinalSyncWait(checkpoint)]; } else { PassEnds(); }
    }

    /** The rest of a send, once it is answered. */
    method CommandAnswered(p: Pass, r: Reply)
      requires p.DrainWait?
      modifies this`outbox, this`maintenance, this`maintenancePending, this`passes, this`history
      ensures State() == Drained(old(State()), p, r)
    {
      hide NextDrain, AfterDrain, WithoutCommand, EntriesOf, Refused;
      if r.Failed? {
        DrainingEnds(p.drained);
        return;
      }
      match DispositionForStatus(r.status)
      case OutboxAccepted =>
        history := history.(accepted := history.accepted + EntriesOf(outbox, p.id));
        outbox := WithoutCommand(outbox, p.id);
        var remaining := p.size - 1;
        if !p.drainAll || remaining == 0 { DrainingEnds(true); } else { DrainOutbox(true, true); }
      case OutboxRejected =>
        outbox := Refused(outbox, p.id, r.status);
        DrainingEnds(p.drained);
      case OutboxRetry =>
        DrainingEnds(p.drained);
    }

    /** An answer arrives, and the pass that waits for it goes on. */
    method Answered(k: nat, r: Reply)
      requires k < |passes|
      modifies rows, this`checkpoint, this`head, this`outbox, this`maintenance, this`maintenancePending, this`passes, this`history
      ensures State() == Step(old(State()), Replied(k, r))
    {
      hide Bootstrapped, Synced, NextDrain, AfterDrain, Drained, Finish, Begin, Enqueued, Retried, SeededView;
      var p := passes[k];
      passes := passes[..k] + passes[k + 1..];
      match p
      case BootstrapWait(drainAll) =>
        BootstrapIfEmpty(r);
        passes := passes + [SyncWait(drainAll, checkpoint)];
      case SyncWait(drainAll, since) =>
        var disposition := Sync(since, r);
        if disposition != SyncAccepted { PassEnds(); } else { DrainOutbox(drainAll, false); }
      case DrainWait(_, _, _, _) =>
        CommandAnswered(p, r);
      case FinalSyncWait(since) =>
        var disposition := Sync(since, r);
        PassEnds();
    }

    // ---- messages ----

    /** Show a queued command's result at once, before the server has seen it. */
    method ApplyOptimistic(edit: Edit) returns (ok: bool)
      requires view != ""
      modifies rows
      ensures ok == !Collides(old(rows.Contents()), view, edit)
      ensures ok ==> rows.Contents() == Optimistic(old(rows.Contents()), view, edit)
    {
      ok := true;
      match edit
      case AddComment(id, content) =>
        if id in rows.comments { return false; }
        rows.comments := rows.comments[id := Comment(id, view, content, true)];
      case SetStatus(to) =>
        if view in rows.issues {
          var status := Status.Status(to, StatusName(to), StatusCategory(to));
          rows.issues := rows.issues[view := rows.issues[view].(status := status)];
        }
      case EditIssue(summary, description) =>
        if view in rows.issues {
          if summary != "" { rows.issues := rows.issues[view := rows.issues[view].(summary := summary)]; }
          if description.Some? && StoredText(rows.issues[view].description) != description.value {
            var document := Document(PlainDocument(description.value));
            rows.issues := rows.issues[view := rows.issues[view].(description := document)];
          }
        }
      case NoEdit =>
    }

    /** Queue a command and show its result, in one transaction: both are saved, or neither. */
    method EnqueueMessage(request: Request, edit: Edit) returns (saved: bool)
      modifies rows, this`outbox, this`nextId, this`history
      ensures State() == Step(old(State()), Enqueue(request, edit))
      ensures saved == !Collides(old(rows.Contents()), view, edit)
    {
      assert view == "" ==> Optimistic(rows.Contents(), view, edit) == rows.Contents();
      hide Optimistic, Touches, Resume, Begin, Retried, SeededView;
      var before, queue, id := rows.Contents(), outbox, nextId;
      outbox, nextId := outbox + [Command(nextId, request, 0)], nextId + 1;
      saved := true;
      if view != "" { saved := ApplyOptimistic(edit); }
      if !saved {
        rows.Restore(before);
        outbox, nextId := queue, id;
        return;
      }
      history := history.(enqueued := history.enqueued + [Entry(id, request)],
                          touched := history.touched + Touches(before, view, edit));
    }

    method RetryRefused()
      modifies this`outbox
      ensures State() == Step(old(State()), RetryOutbox)
    {
      if outbox != [] { outbox := outbox[0 := outbox[0].(refused := 0)]; }
    }

    /** Store an issue shown by the server, unless the replica has it. */
    method SeedView(issue: Issue)
      modifies rows`issues, this`history
      ensures State() == Step(old(State()), Event.SeedView(issue))
    {
      if issue.id == "" || issue.id in rows.issues { return; }
      rows.issues := rows.issues[issue.id := issue.(status := Status.Status("st_todo", "To Do", "new"))];
      history := history.(touched := history.touched + {issue.id});
    }

    method ShowView(id: string)
      modifies this`view
      ensures State() == Step(old(State()), Event.View(id))
    {
      view := id;
    }

    method NetworkState(isOnline: bool)
      modifies this`online
      ensures State() == Step(old(State()), Network(isOnline))
    {
      online := isOnline;
    }
  }
}
