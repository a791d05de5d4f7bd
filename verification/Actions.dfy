/** The server's ordered actions and what one of them does to the replica's tables. */
module Actions {
  import opened Adf

  datatype Status = Status(id: string, name: string, category: string)

  /** An issue row: the columns a local edit can touch, and the rest of them. */
  datatype Issue = Issue(id: string, summary: string, description: DocColumn, status: Status, rest: string)

  datatype Comment = Comment(id: string, issueId: string, content: string, local: bool)

  datatype Attachment = Attachment(id: string, issueId: string, content: string)

  datatype Worklog = Worklog(id: string, issueId: string, created: string, started: string, content: string)

  datatype Link = Link(id: string, inwardId: string, outwardId: string, content: string)

  /** An operation with its decoded payload: the row to store, or what names the row to delete. */
  datatype Op<Row, Ref> = Upsert(row: Row) | Delete(ref: Ref) | OtherOp

  /** A child row named by its own id and its issue's. */
  datatype Child = Child(id: string, issueId: string)

  datatype Named = Named(id: string, content: string)

  datatype Ranked = Ranked(sprint: string, issue: string, rank: string)

  datatype Change =
    | OnIssue(issue: Op<Issue, ()>)
    | OnComment(comment: Op<Comment, Child>)
    | OnAttachment(attachment: Op<Attachment, Child>)
    | OnWorklog(worklog: Op<Worklog, Child>)
    | OnLink(link: Op<Link, (string, string)>)
    | OnBoard(board: Op<Named, ()>)
    | OnSprint(sprint: Op<Named, ()>)
    | OnSprintIssue(sprintIssue: Op<Ranked, (string, string)>)
    | OnWatcher(watcher: Op<(string, string), (string, string)>)
    | OnNotification(notification: Op<Named, ()>)
    | OnTombstone(gone: string)
    | Undecodable  // a payload that does not decode
    | Unmodelled   // any other entity: acknowledged and skipped

  datatype Action = Action(number: nat, entityId: string, change: Change)

  datatype Tables = Tables(
    issues: map<string, Issue>,
    comments: map<string, Comment>,
    attachments: map<string, Attachment>,
    worklogs: map<string, Worklog>,
    links: map<string, Link>,
    boards: map<string, string>,
    sprints: map<string, string>,
    sprintIssues: map<(string, string), string>,
    watchers: map<(string, string), ()>,
    notifications: map<string, string>)

  const EMPTY := Tables(map[], map[], map[], map[], map[], map[], map[], map[], map[], map[])

  /** The four tables a snapshot brings. */
  datatype Core = Core(
    issues: map<string, Issue>,
    comments: map<string, Comment>,
    attachments: map<string, Attachment>,
    worklogs: map<string, Worklog>)

  function CoreOf(t: Tables): Core {
    Core(t.issues, t.comments, t.attachments, t.worklogs)
  }

  predicate Incomplete<Row>(op: Op<Row, Child>) {
    op.Delete? && (op.ref.id == "" || op.ref.issueId == "")
  }

  /** The actions that end a page with an error. */
  predicate Fails(c: Change) {
    match c
    case Undecodable => true
    case OnComment(op) => Incomplete(op)
    case OnAttachment(op) => Incomplete(op)
    case OnWorklog(op) => Incomplete(op)
    case _ => false
  }

  function WithoutIssue(t: Tables, id: string): Tables {
    t.(issues := t.issues - {id},
       comments := map k | k in t.comments && t.comments[k].issueId != id :: t.comments[k],
       attachments := map k | k in t.attachments && t.attachments[k].issueId != id :: t.attachments[k],
       worklogs := map k | k in t.worklogs && t.worklogs[k].issueId != id :: t.worklogs[k],
       sprintIssues := map k | k in t.sprintIssues && k.1 != id :: t.sprintIssues[k],
       watchers := map k | k in t.watchers && k.0 != id :: t.watchers[k],
       links := map k | k in t.links && t.links[k].inwardId != id && t.links[k].outwardId != id :: t.links[k])
  }

  function ApplyIssue(t: Tables, id: string, op: Op<Issue, ()>): (u: Tables)
    ensures !op.Delete? ==> u == t.(issues := u.issues)
  {
    match op
    case Upsert(i) => if i.id == "" then t else t.(issues := t.issues[i.id := i])
    case Delete(_) => WithoutIssue(t, id)
    case OtherOp => t
  }

  function ApplyComment(m: map<string, Comment>, op: Op<Comment, Child>): map<string, Comment> {
    match op
    case Upsert(c) => if c.id == "" then m else m[c.id := c.(local := false)]
    case Delete(r) => m - {r.id}
    case OtherOp => m
  }

  function ApplyAttachment(m: map<string, Attachment>, op: Op<Attachment, Child>): map<string, Attachment> {
    match op
    case Upsert(x) => if x.id == "" then m else m[x.id := x]
    case Delete(r) => m - {r.id}
    case OtherOp => m
  }

  /** A worklog is stored with the time it was started, its creation when none is given. */
  function Stored(w: Worklog): Worklog {
    if w.started == "" then w.(started := w.created) else w
  }

  function ApplyWorklog(m: map<string, Worklog>, op: Op<Worklog, Child>): map<string, Worklog> {
    match op
    case Upsert(w) => if w.id == "" then m else m[w.id := Stored(w)]
    case Delete(r) => m - {r.id}
    case OtherOp => m
  }

  function ApplyLink(m: map<string, Link>, id: string, op: Op<Link, (string, string)>): map<string, Link> {
    match op
    case Upsert(l) => m[l.id := l]
    case Delete(_) => m - {id}
    case OtherOp => m
  }

  /** Boards, sprints and notifications: anything but an upsert deletes the entity named. */
  function ApplyNamed(m: map<string, string>, id: string, op: Op<Named, ()>): map<string, string> {
    match op
    case Upsert(n) => m[n.id := n.content]
    case _ => m - {id}
  }

  function ApplyRanked(m: map<(string, string), string>, op: Op<Ranked, (string, string)>): map<(string, string), string> {
    match op
    case Upsert(r) => m[(r.sprint, r.issue) := r.rank]
    case Delete(k) => m - {k}
    case OtherOp => m
  }

  function ApplyWatcher(m: map<(string, string), ()>, op: Op<(string, string), (string, string)>): map<(string, string), ()> {
    match op
    case Upsert(k) => m[k := ()]
    case Delete(k) => m - {k}
    case OtherOp => m
  }

  /** The issue an action takes out of the replica, with everything that belongs to it. */
  function Removes(a: Action): Option<string> {
    match a.change
    case OnIssue(Delete(_)) => Some(a.entityId)
    case OnTombstone(id) => if id == "" then None else Some(id)
    case _ => None
  }

  /**
   * The tables after an action that does not fail; a failing one changes nothing. An action that
   * removes no issue changes the table of its own entity and no other.
   */
  function Effect(t: Tables, a: Action): (u: Tables)
    ensures Removes(a).None? && !a.change.OnIssue? ==> u.issues == t.issues
    ensures Removes(a).None? && !a.change.OnComment? ==> u.comments == t.comments
    ensures Removes(a).None? && !a.change.OnAttachment? ==> u.attachments == t.attachments
    ensures Removes(a).None? && !a.change.OnWorklog? ==> u.worklogs == t.worklogs
    ensures Removes(a).None? && !a.change.OnLink? ==> u.links == t.links
    ensures Removes(a).None? && !a.change.OnSprintIssue? ==> u.sprintIssues == t.sprintIssues
    ensures Removes(a).None? && !a.change.OnWatcher? ==> u.watchers == t.watchers
    ensures !a.change.OnBoard? ==> u.boards == t.boards
    ensures !a.change.OnSprint? ==> u.sprints == t.sprints
    ensures !a.change.OnNotification? ==> u.notifications == t.notifications
  {
    if Fails(a.change) then t
    else
      match a.change
      case OnIssue(op) => ApplyIssue(t, a.entityId, op)
      case OnComment(op) => t.(comments := ApplyComment(t.comments, op))
      case OnAttachment(op) => t.(attachments := ApplyAttachment(t.attachments, op))
      case OnWorklog(op) => t.(worklogs := ApplyWorklog(t.worklogs, op))
      case OnTombstone(id) => if id == "" then t else WithoutIssue(t, id)
      case _ => Elsewhere(t, a)
  }

  function LinksAfter(m: map<string, Link>, a: Action): map<string, Link> {
    if a.change.OnLink? then ApplyLink(m, a.entityId, a.change.link) else m
  }

  function BoardsAfter(m: map<string, string>, a: Action): map<string, string> {
    if a.change.OnBoard? then ApplyNamed(m, a.entityId, a.change.board) else m
  }

  function SprintsAfter(m: map<string, string>, a: Action): map<string, string> {
    if a.change.OnSprint? then ApplyNamed(m, a.entityId, a.change.sprint) else m
  }

  function SprintIssuesAfter(m: map<(string, string), string>, a: Action): map<(string, string), string> {
    if a.change.OnSprintIssue? then ApplyRanked(m, a.change.sprintIssue) else m
  }

  function WatchersAfter(m: map<(string, string), ()>, a: Action): map<(string, string), ()> {
    if a.change.OnWatcher? then ApplyWatcher(m, a.change.watcher) else m
  }

  function NotificationsAfter(m: map<string, string>, a: Action): map<string, string> {
    if a.change.OnNotification? then ApplyNamed(m, a.entityId, a.change.notification) else m
  }

  /** Links, boards, sprints, watchers and notifications; other entities are skipped. */
  function Elsewhere(t: Tables, a: Action): Tables {
    t.(links := LinksAfter(t.links, a),
       boards := BoardsAfter(t.boards, a),
       sprints := SprintsAfter(t.sprints, a),
       sprintIssues := SprintIssuesAfter(t.sprintIssues, a),
       watchers := WatchersAfter(t.watchers, a),
       notifications := NotificationsAfter(t.notifications, a))
  }

  function ChildReports<Row>(op: Op<Row, Child>, id: Row -> string, issue: Row -> string): seq<string> {
    match op
    case Upsert(r) => if id(r) == "" then [] else [issue(r)]
    case Delete(r) => [r.issueId]
    case OtherOp => []
  }

  function WorklogReport(m: map<string, Worklog>, op: Op<Worklog, Child>): seq<string> {
    match op
    case Upsert(w) =>
      if w.id == "" then []
      else
        var previous := if w.id in m then m[w.id].issueId else "";
        if previous != "" && previous != w.issueId then [previous, w.issueId] else [w.issueId]
    case Delete(r) => [r.issueId]
    case OtherOp => []
  }

  function CommentId(c: Comment): string { c.id }

  function CommentOwner(c: Comment): string { c.issueId }

  function AttachmentId(x: Attachment): string { x.id }

  function AttachmentOwner(x: Attachment): string { x.issueId }

  function WorklogOwner(w: Worklog): string { w.issueId }

  /** The issues an action reports as changed, so that a view of one of them is drawn again. */
  function Reports(t: Tables, a: Action): seq<string> {
    if Fails(a.change) then []
    else
      match a.change
      case OnIssue(Upsert(i)) => if i.id == "" then [] else [i.id]
      case OnIssue(Delete(_)) => [a.entityId]
      case OnComment(op) => ChildReports(op, CommentId, CommentOwner)
      case OnAttachment(op) => ChildReports(op, AttachmentId, AttachmentOwner)
      case OnWorklog(op) => WorklogReport(t.worklogs, op)
      case OnLink(Upsert(l)) => [l.inwardId, l.outwardId]
      case OnLink(Delete(ends)) => [ends.0, ends.1]
      case OnTombstone(id) => if id == "" then [] else [id]
      case _ => []
  }

  /** The tables after a log of actions, in order. */
  function Replay(t: Tables, log: seq<Action>): Tables {
    if log == [] then t else Effect(Replay(t, log[..|log| - 1]), log[|log| - 1])
  }

  lemma ReplaySnoc(t: Tables, log: seq<Action>, a: Action)
    ensures Replay(t, log + [a]) == Effect(Replay(t, log), a)
  {
    hide Effect;
    assert (log + [a])[..|log|] == log;
  }

  /** How a log is cut into pages does not matter. */
  lemma {:induction false} ReplayConcat(t: Tables, first: seq<Action>, second: seq<Action>)
    ensures Replay(t, first + second) == Replay(Replay(t, first), second)
  {
    hide Effect;
    if second == [] {
      assert first + second == first;
    } else {
      var n := |second| - 1;
      ReplayConcat(t, first, second[..n]);
      assert first + second == (first + second[..n]) + [second[n]];
      ReplaySnoc(t, first + second[..n], second[n]);
    }
  }

  // ---- what the reports promise ----

  /** All that a view of one issue shows: its row, comments, attachments and worklogs. */
  datatype View = View(
    issue: Option<Issue>,
    comments: map<string, Comment>,
    attachments: map<string, Attachment>,
    worklogs: map<string, Worklog>)

  /** The rows of a table that belong to one issue. */
  function Owned<R>(m: map<string, R>, owner: R -> string, id: string): map<string, R> {
    map k | k in m && owner(m[k]) == id :: m[k]
  }

  function ViewOf(t: Tables, id: string): View {
    View(if id in t.issues then Some(t.issues[id]) else None,
         Owned(t.comments, CommentOwner, id),
         Owned(t.attachments, AttachmentOwner, id),
         Owned(t.worklogs, WorklogOwner, id))
  }

  ghost predicate ReportsAll(t: Tables, a: Action) {
    forall id :: ViewOf(t, id) != ViewOf(Effect(t, a), id) ==> id in Reports(t, a)
  }

  /** An upsert leaves a row with its issue; a delete names the issue of the row it deletes. */
  predicate StaysPut<Row>(m: map<string, Row>, op: Op<Row, Child>, id: Row -> string, issue: Row -> string) {
    match op
    case Upsert(r) => id(r) == "" || id(r) !in m || issue(m[id(r)]) == issue(r)
    case Delete(r) => r.id !in m || issue(m[r.id]) == r.issueId
    case OtherOp => true
  }

  predicate WorklogKnown(m: map<string, Worklog>, op: Op<Worklog, Child>) {
    match op
    case Upsert(w) => w.id == "" || w.id !in m || m[w.id].issueId != "" || w.issueId == ""
    case Delete(r) => r.id !in m || m[r.id].issueId == r.issueId
    case OtherOp => true
  }

  /**
   * Comments and attachments stay with their issue, deletes name the issue of the row they
   * delete, and no worklog leaves an issue without a name.
   */
  predicate Truthful(t: Tables, a: Action) {
    Fails(a.change) ||
    match a.change
    case OnComment(op) => StaysPut(t.comments, op, CommentId, CommentOwner)
    case OnAttachment(op) => StaysPut(t.attachments, op, AttachmentId, AttachmentOwner)
    case OnWorklog(op) => WorklogKnown(t.worklogs, op)
    case _ => true
  }

  lemma PutElsewhere<R>(m: map<string, R>, owner: R -> string, k: string, r: R, id: string)
    requires owner(r) != id && (k in m ==> owner(m[k]) != id)
    ensures Owned(m[k := r], owner, id) == Owned(m, owner, id)
  {
  }

  lemma DropElsewhere<R>(m: map<string, R>, owner: R -> string, k: string, id: string)
    requires k in m ==> owner(m[k]) != id
    ensures Owned(m - {k}, owner, id) == Owned(m, owner, id)
  {
  }

  /** A row that is in a view before an action and not after it. */
  lemma Leaves<R>(m: map<string, R>, m': map<string, R>, owner: R -> string, k: string)
    requires k in m && (k in m' ==> owner(m'[k]) != owner(m[k]))
    ensures Owned(m, owner, owner(m[k])) != Owned(m', owner, owner(m[k]))
  {
    assert k in Owned(m, owner, owner(m[k]));
    assert k !in Owned(m', owner, owner(m[k]));
  }

  lemma RemovalReports(t: Tables, gone: string, id: string)
    requires id != gone
    ensures ViewOf(WithoutIssue(t, gone), id) == ViewOf(t, id)
  {
    var u := WithoutIssue(t, gone);
    OwnedWithout(t.comments, u.comments, CommentOwner, gone, id);
    OwnedWithout(t.attachments, u.attachments, AttachmentOwner, gone, id);
    OwnedWithout(t.worklogs, u.worklogs, WorklogOwner, gone, id);
    hide Owned;
  }

  lemma OwnedWithout<R>(m: map<string, R>, m': map<string, R>, owner: R -> string, gone: string, id: string)
    requires id != gone
    requires m' == map k | k in m && owner(m[k]) != gone :: m[k]
    ensures Owned(m', owner, id) == Owned(m, owner, id)
  {
  }

  lemma CommentReports(m: map<string, Comment>, op: Op<Comment, Child>, id: string)
    requires StaysPut(m, op, CommentId, CommentOwner) && id !in ChildReports(op, CommentId, CommentOwner)
    ensures Owned(ApplyComment(m, op), CommentOwner, id) == Owned(m, CommentOwner, id)
  {
    hide Owned;
    match op
    case Upsert(c) => if c.id != "" { PutElsewhere(m, CommentOwner, c.id, c.(local := false), id); }
    case Delete(r) => DropElsewhere(m, CommentOwner, r.id, id);
    case OtherOp =>
  }

  lemma AttachmentReports(m: map<string, Attachment>, op: Op<Attachment, Child>, id: string)
    requires StaysPut(m, op, AttachmentId, AttachmentOwner) && id !in ChildReports(op, AttachmentId, AttachmentOwner)
    ensures Owned(ApplyAttachment(m, op), AttachmentOwner, id) == Owned(m, AttachmentOwner, id)
  {
    hide Owned;
    match op
    case Upsert(x) => if x.id != "" { PutElsewhere(m, AttachmentOwner, x.id, x, id); }
    case Delete(r) => DropElsewhere(m, AttachmentOwner, r.id, id);
    case OtherOp =>
  }

  lemma WorklogReports(m: map<string, Worklog>, op: Op<Worklog, Child>, id: string)
    requires WorklogKnown(m, op) && id !in WorklogReport(m, op)
    ensures Owned(ApplyWorklog(m, op), WorklogOwner, id) == Owned(m, WorklogOwner, id)
  {
    hide Owned;
    match op
    case Upsert(w) => if w.id != "" { PutElsewhere(m, WorklogOwner, w.id, Stored(w), id); }
    case Delete(r) => DropElsewhere(m, WorklogOwner, r.id, id);
    case OtherOp =>
  }

  lemma IssueReports(t: Tables, a: Action, id: string)
    requires a.change.OnIssue? && id !in Reports(t, a)
    ensures ViewOf(Effect(t, a), id) == ViewOf(t, id)
  {
    hide WithoutIssue, Owned;
    var op := a.change.issue;
    if op.Delete? {
      RemovalReports(t, a.entityId, id);
    }
  }

  /** Actions on other entities leave issues, comments, attachments and worklogs alone. */
  predicate OffCore(c: Change) {
    match c
    case OnIssue(_) => false
    case OnTombstone(_) => false
    case OnComment(_) => false
    case OnAttachment(_) => false
    case OnWorklog(_) => false
    case _ => true
  }

  lemma OffCoreKeeps(t: Tables, a: Action)
    requires OffCore(a.change)
    ensures CoreOf(Effect(t, a)) == CoreOf(t)
  {
    hide Effect;
  }

  lemma SameView(t: Tables, u: Tables, id: string)
    requires CoreOf(t) == CoreOf(u)
    ensures ViewOf(t, id) == ViewOf(u, id)
  {
  }

  lemma RowReports(t: Tables, a: Action, id: string)
    requires a.change.OnComment? || a.change.OnAttachment? || a.change.OnWorklog? || a.change.OnTombstone?
    requires Truthful(t, a) && id !in Reports(t, a)
    ensures ViewOf(Effect(t, a), id) == ViewOf(t, id)
  {
    hide WithoutIssue, Owned, ApplyComment, ApplyAttachment, ApplyWorklog, ChildReports, WorklogReport, StaysPut, WorklogKnown;
    if !Fails(a.change) {
      match a.change
      case OnComment(op) => CommentReports(t.comments, op, id);
      case OnAttachment(op) => AttachmentReports(t.attachments, op, id);
      case OnWorklog(op) => WorklogReports(t.worklogs, op, id);
      case OnTombstone(gone) => if gone != "" { RemovalReports(t, gone, id); }
    }
  }

  lemma TruthfulReports(t: Tables, a: Action, id: string)
    requires Truthful(t, a) && id !in Reports(t, a)
    ensures ViewOf(Effect(t, a), id) == ViewOf(t, id)
  {
    hide Effect, ViewOf, Truthful, Reports;
    if OffCore(a.change) {
      OffCoreKeeps(t, a);
      SameView(Effect(t, a), t, id);
    } else if a.change.OnIssue? {
      IssueReports(t, a, id);
    } else {
      RowReports(t, a, id);
    }
  }

  lemma CommentMisses(m: map<string, Comment>, op: Op<Comment, Child>) returns (id: string)
    requires !StaysPut(m, op, CommentId, CommentOwner)
    ensures Owned(m, CommentOwner, id) != Owned(ApplyComment(m, op), CommentOwner, id)
    ensures id !in ChildReports(op, CommentId, CommentOwner)
  {
    hide Owned;
    var k := if op.Upsert? then op.row.id else op.ref.id;
    id := m[k].issueId;
    Leaves(m, ApplyComment(m, op), CommentOwner, k);
  }

  lemma AttachmentMisses(m: map<string, Attachment>, op: Op<Attachment, Child>) returns (id: string)
    requires !StaysPut(m, op, AttachmentId, AttachmentOwner)
    ensures Owned(m, AttachmentOwner, id) != Owned(ApplyAttachment(m, op), AttachmentOwner, id)
    ensures id !in ChildReports(op, AttachmentId, AttachmentOwner)
  {
    hide Owned;
    var k := if op.Upsert? then op.row.id else op.ref.id;
    id := m[k].issueId;
    Leaves(m, ApplyAttachment(m, op), AttachmentOwner, k);
  }

  lemma WorklogMisses(m: map<string, Worklog>, op: Op<Worklog, Child>) returns (id: string)
    requires !WorklogKnown(m, op)
    ensures Owned(m, WorklogOwner, id) != Owned(ApplyWorklog(m, op), WorklogOwner, id)
    ensures id !in WorklogReport(m, op)
  {
    hide Owned;
    var k := if op.Upsert? then op.row.id else op.ref.id;
    id := m[k].issueId;
    Leaves(m, ApplyWorklog(m, op), WorklogOwner, k);
  }

  lemma UntruthfulComment(t: Tables, a: Action) returns (id: string)
    requires a.change.OnComment? && !Truthful(t, a)
    ensures ViewOf(t, id).comments != ViewOf(Effect(t, a), id).comments && id !in Reports(t, a)
  {
    hide Owned, ApplyComment, ChildReports, StaysPut;
    id := CommentMisses(t.comments, a.change.comment);
  }

  lemma UntruthfulAttachment(t: Tables, a: Action) returns (id: string)
    requires a.change.OnAttachment? && !Truthful(t, a)
    ensures ViewOf(t, id).attachments != ViewOf(Effect(t, a), id).attachments && id !in Reports(t, a)
  {
    hide Owned, ApplyAttachment, ChildReports, StaysPut;
    id := AttachmentMisses(t.attachments, a.change.attachment);
  }

  lemma UntruthfulWorklog(t: Tables, a: Action) returns (id: string)
    requires a.change.OnWorklog? && !Truthful(t, a)
    ensures ViewOf(t, id).worklogs != ViewOf(Effect(t, a), id).worklogs && id !in Reports(t, a)
  {
    hide Owned, ApplyWorklog, WorklogReport, WorklogKnown;
    id := WorklogMisses(t.worklogs, a.change.worklog);
  }

  /** The row whose issue is not reported when an action is not truthful. */
  lemma UntruthfulMisses(t: Tables, a: Action) returns (id: string)
    requires !Truthful(t, a)
    ensures ViewOf(t, id) != ViewOf(Effect(t, a), id) && id !in Reports(t, a)
  {
    hide Effect, ViewOf, Reports;
    if a.change.OnComment? { id := UntruthfulComment(t, a); }
    else if a.change.OnAttachment? { id := UntruthfulAttachment(t, a); }
    else { id := UntruthfulWorklog(t, a); }
  }

  /** Every changed view is reported exactly when the action is truthful about its row's issue. */
  lemma ReportsExactly(t: Tables, a: Action)
    ensures ReportsAll(t, a) <==> Truthful(t, a)
  {
    hide ViewOf, Effect, Reports, Truthful;
    if Truthful(t, a) {
      forall id | id !in Reports(t, a) ensures ViewOf(t, id) == ViewOf(Effect(t, a), id) {
        TruthfulReports(t, a, id);
      }
    } else {
      var id := UntruthfulMisses(t, a);
    }
  }

  /** The issues a page of actions reports. */
  function Reported(t: Tables, log: seq<Action>): seq<string> {
    if log == [] then []
    else Reported(t, log[..|log| - 1]) + Reports(Replay(t, log[..|log| - 1]), log[|log| - 1])
  }

  ghost predicate TruthfulPage(t: Tables, log: seq<Action>) {
    forall i :: 0 <= i < |log| ==> Truthful(Replay(t, log[..i]), log[i])
  }

  /** A view that a page does not report is the same after it. */
  lemma {:induction false} PageReports(t: Tables, log: seq<Action>, id: string)
    requires TruthfulPage(t, log) && id !in Reported(t, log)
    ensures ViewOf(Replay(t, log), id) == ViewOf(t, id)
  {
    hide ViewOf, Effect, Reports, Truthful;
    if log != [] {
      var n := |log| - 1;
      forall i | 0 <= i < n ensures Truthful(Replay(t, log[..n][..i]), log[..n][i]) {
        assert log[..n][..i] == log[..i];
      }
      PageReports(t, log[..n], id);
      TruthfulReports(Replay(t, log[..n]), log[n], id);
    }
  }
}
