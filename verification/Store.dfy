/** The replica's tables, changed in place as its actions are applied. */
module Store {
  import opened Adf
  import opened Actions

  class Rows {
    var issues: map<string, Issue>
    var comments: map<string, Comment>
    var attachments: map<string, Attachment>
    var worklogs: map<string, Worklog>
    var links: map<string, Link>
    var boards: map<string, string>
    var sprints: map<string, string>
    var sprintIssues: map<(string, string), string>
    var watchers: map<(string, string), ()>
    var notifications: map<string, string>

    function Contents(): Tables
      reads this
    {
      Tables(issues, comments, attachments, worklogs, links, boards, sprints, sprintIssues, watchers, notifications)
    }

    constructor ()
      ensures Contents() == EMPTY
    {
      issues, comments, attachments, worklogs, links := map[], map[], map[], map[], map[];
      boards, sprints, sprintIssues, watchers, notifications := map[], map[], map[], map[], map[];
    }

    /** Take the tables back to what they were when a transaction began. */
    method Restore(t: Tables)
      modifies this
      ensures Contents() == t
    {
      issues, comments, attachments, worklogs, links := t.issues, t.comments, t.attachments, t.worklogs, t.links;
      boards, sprints, sprintIssues := t.boards, t.sprints, t.sprintIssues;
      watchers, notifications := t.watchers, t.notifications;
    }

    method DropRows(id: string)
      modifies `issues, `comments, `attachments, `worklogs
      ensures issues == old(issues) - {id}
      ensures comments == map k | k in old(comments) && old(comments)[k].issueId != id :: old(comments)[k]
      ensures attachments == map k | k in old(attachments) && old(attachments)[k].issueId != id :: old(attachments)[k]
      ensures worklogs == map k | k in old(worklogs) && old(worklogs)[k].issueId != id :: old(worklogs)[k]
    {
      issues := issues - {id};
      comments := map k | k in comments && comments[k].issueId != id :: comments[k];
      attachments := map k | k in attachments && attachments[k].issueId != id :: attachments[k];
      worklogs := map k | k in worklogs && worklogs[k].issueId != id :: worklogs[k];
    }

    method DropEdges(id: string)
      modifies `sprintIssues, `watchers, `links
      ensures sprintIssues == map k | k in old(sprintIssues) && k.1 != id :: old(sprintIssues)[k]
      ensures watchers == map k | k in old(watchers) && k.0 != id :: old(watchers)[k]
      ensures links == map k | k in old(links) && old(links)[k].inwardId != id && old(links)[k].outwardId != id :: old(links)[k]
    {
      sprintIssues := map k | k in sprintIssues && k.1 != id :: sprintIssues[k];
      watchers := map k | k in watchers && k.0 != id :: watchers[k];
      links := map k | k in links && links[k].inwardId != id && links[k].outwardId != id :: links[k];
    }

    /** Drop an issue and all that belongs to it. */
    method DropIssue(id: string)
      modifies this
      ensures Contents() == WithoutIssue(old(Contents()), id)
    {
      DropRows(id);
      DropEdges(id);
    }

    method ApplyIssue(id: string, op: Op<Issue, ()>) returns (ids: seq<string>)
      modifies this
      ensures Contents() == Actions.ApplyIssue(old(Contents()), id, op)
      ensures ids == match op { case Upsert(i) => if i.id == "" then [] else [i.id] case Delete(_) => [id] case OtherOp => [] }
    {
      hide WithoutIssue;
      ids := [];
      match op
      case Delete(_) =>
        DropIssue(id);
        ids := [id];
      case Upsert(i) =>
        if i.id == "" { return; }
        issues := issues[i.id := i];
        ids := [i.id];
      case OtherOp =>
    }

    method ApplyComment(op: Op<Comment, Child>) returns (ids: seq<string>, ok: bool)
      modifies `comments
      ensures ok == !Incomplete(op)
      ensures comments == if ok then Actions.ApplyComment(old(comments), op) else old(comments)
      ensures ids == if ok then ChildReports(op, CommentId, CommentOwner) else []
    {
      ids, ok := [], true;
      match op
      case Upsert(c) =>
        if c.id == "" { return; }
        comments := comments[c.id := c.(local := false)];
        ids := [c.issueId];
      case Delete(r) =>
        if r.id == "" || r.issueId == "" { return [], false; }
        comments := comments - {r.id};
        ids := [r.issueId];
      case OtherOp =>
    }

    method ApplyAttachment(op: Op<Attachment, Child>) returns (ids: seq<string>, ok: bool)
      modifies `attachments
      ensures ok == !Incomplete(op)
      ensures attachments == if ok then Actions.ApplyAttachment(old(attachments), op) else old(attachments)
      ensures ids == if ok then ChildReports(op, AttachmentId, AttachmentOwner) else []
    {
      ids, ok := [], true;
      match op
      case Upsert(x) =>
        if x.id == "" { return; }
        attachments := attachments[x.id := x];
        ids := [x.issueId];
      case Delete(r) =>
        if r.id == "" || r.issueId == "" { return [], false; }
        attachments := attachments - {r.id};
        ids := [r.issueId];
      case OtherOp =>
    }

    method ApplyWorklog(op: Op<Worklog, Child>) returns (ids: seq<string>, ok: bool)
      modifies `worklogs
      ensures ok == !Incomplete(op)
      ensures worklogs == if ok then Actions.ApplyWorklog(old(worklogs), op) else old(worklogs)
      ensures ids == if ok then WorklogReport(old(worklogs), op) else []
    {
      ids, ok := [], true;
      match op
      case Upsert(w) =>
        if w.id == "" { return; }
        var previous := if w.id in worklogs then worklogs[w.id].issueId else "";
        var started := if w.started == "" then w.created else w.started;
        worklogs := worklogs[w.id := w.(started := started)];
        ids := if previous != "" && previous != w.issueId then [previous, w.issueId] else [w.issueId];
      case Delete(r) =>
        if r.id == "" || r.issueId == "" { return [], false; }
        worklogs := worklogs - {r.id};
        ids := [r.issueId];
      case OtherOp =>
    }

    method ApplyLink(id: string, op: Op<Link, (string, string)>) returns (ids: seq<string>)
      modifies `links
      ensures links == Actions.ApplyLink(old(links), id, op)
      ensures ids == match op { case Upsert(l) => [l.inwardId, l.outwardId] case Delete(e) => [e.0, e.1] case OtherOp => [] }
    {
      ids := [];
      match op
      case Upsert(l) =>
        links := links[l.id := l];
        ids := [l.inwardId, l.outwardId];
      case Delete(ends) =>
        links := links - {id};
        ids := [ends.0, ends.1];
      case OtherOp =>
    }

    method ApplyBoard(id: string, op: Op<Named, ()>)
      modifies `boards
      ensures boards == ApplyNamed(old(boards), id, op)
    {
      if !op.Upsert? { boards := boards - {id}; return; }
      boards := boards[op.row.id := op.row.content];
    }

    method ApplySprint(id: string, op: Op<Named, ()>)
      modifies `sprints
      ensures sprints == ApplyNamed(old(sprints), id, op)
    {
      if !op.Upsert? { sprints := sprints - {id}; return; }
      sprints := sprints[op.row.id := op.row.content];
    }

    method ApplyNotification(id: string, op: Op<Named, ()>)
      modifies `notifications
      ensures notifications == ApplyNamed(old(notifications), id, op)
    {
      if !op.Upsert? { notifications := notifications - {id}; return; }
      notifications := notifications[op.row.id := op.row.content];
    }

    method ApplySprintIssue(op: Op<Ranked, (string, string)>)
      modifies `sprintIssues
      ensures sprintIssues == ApplyRanked(old(sprintIssues), op)
    {
      match op
      case Upsert(r) => sprintIssues := sprintIssues[(r.sprint, r.issue) := r.rank];
      case Delete(k) => sprintIssues := sprintIssues - {k};
      case OtherOp =>
    }

    method ApplyWatcher(op: Op<(string, string), (string, string)>)
      modifies `watchers
      ensures watchers == Actions.ApplyWatcher(old(watchers), op)
    {
      match op
      case Upsert(k) => watchers := watchers[k := ()];
      case Delete(k) => watchers := watchers - {k};
      case OtherOp =>
    }

    method ApplyTombstone(id: string) returns (ids: seq<string>)
      modifies this
      ensures Contents() == if id == "" then old(Contents()) else WithoutIssue(old(Contents()), id)
      ensures ids == if id == "" then [] else [id]
    {
      hide WithoutIssue;
      if id == "" { return []; }
      DropIssue(id);
      ids := [id];
    }

    /** The entities a view of an issue shows nothing of. */
    method ApplyElsewhere(a: Action) returns (ids: seq<string>)
      requires OffCore(a.change)
      modifies this
      ensures Contents() == Elsewhere(old(Contents()), a)
      ensures ids == if a.change.Undecodable? then [] else Reports(old(Contents()), a)
    {
      hide ApplyNamed, ApplyRanked, Actions.ApplyWatcher, Actions.ApplyLink;
      ids := [];
      if a.change.OnLink? { ids := ApplyLink(a.entityId, a.change.link); }
      else if a.change.OnBoard? { ApplyBoard(a.entityId, a.change.board); }
      else if a.change.OnSprint? { ApplySprint(a.entityId, a.change.sprint); }
      else if a.change.OnSprintIssue? { ApplySprintIssue(a.change.sprintIssue); }
      else if a.change.OnWatcher? { ApplyWatcher(a.change.watcher); }
      else if a.change.OnNotification? { ApplyNotification(a.entityId, a.change.notification); }
    }

    /** One action on the tables: the issues whose view may have changed, or a failure that changes nothing. */
    method Apply(a: Action) returns (ids: seq<string>, ok: bool)
      modifies this
      ensures ok == !Fails(a.change)
      ensures Contents() == Effect(old(Contents()), a)
      ensures ids == Reports(old(Contents()), a)
    {
      hide WithoutIssue, Actions.ApplyIssue, Actions.ApplyComment, Actions.ApplyAttachment, Actions.ApplyWorklog, Elsewhere,
           Incomplete, ChildReports, WorklogReport;
      ids, ok := [], true;
      if a.change.Undecodable? { ok := false; }
      else if a.change.OnIssue? { ids := ApplyIssue(a.entityId, a.change.issue); }
      else if a.change.OnComment? { ids, ok := ApplyComment(a.change.comment); }
      else if a.change.OnAttachment? { ids, ok := ApplyAttachment(a.change.attachment); }
      else if a.change.OnWorklog? { ids, ok := ApplyWorklog(a.change.worklog); }
      else if a.change.OnTombstone? { ids := ApplyTombstone(a.change.gone); }
      else { ids := ApplyElsewhere(a); }
    }
  }
}
