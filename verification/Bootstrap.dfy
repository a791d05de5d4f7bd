/** A server snapshot stands for the part of the log it was taken after. */
module Bootstrap {
  import opened Adf
  import opened Actions
  import opened ReplaySpec

  datatype Snapshot = Snapshot(
    head: nat,
    issues: seq<Issue>,
    comments: seq<Comment>,
    attachments: seq<Attachment>,
    worklogs: seq<Worklog>)

  /** A snapshot's rows are applied as upserts that carry neither a number nor an entity. */
  function Upserts<R>(rows: seq<R>, change: R -> Change): (log: seq<Action>)
    ensures |log| == |rows| && forall i :: 0 <= i < |rows| ==> log[i] == Action(0, "", change(rows[i]))
  {
    seq(|rows|, i requires 0 <= i < |rows| => Action(0, "", change(rows[i])))
  }

  function IssueUpsert(i: Issue): Change { OnIssue(Upsert(i)) }

  function CommentUpsert(c: Comment): Change { OnComment(Upsert(c)) }

  function AttachmentUpsert(x: Attachment): Change { OnAttachment(Upsert(x)) }

  function WorklogUpsert(w: Worklog): Change { OnWorklog(Upsert(w)) }

  function SnapshotActions(s: Snapshot): seq<Action> {
    Upserts(s.issues, IssueUpsert) + Upserts(s.comments, CommentUpsert)
    + Upserts(s.attachments, AttachmentUpsert) + Upserts(s.worklogs, WorklogUpsert)
  }

  function IssueKey(i: Issue): string { i.id }

  function WorklogKey(w: Worklog): string { w.id }

  function AsIssue(i: Issue): Issue { i }

  function AsComment(c: Comment): Comment { c.(local := false) }

  function AsAttachment(x: Attachment): Attachment { x }

  /** The rows are those of the table, each listed at least once and as the server keeps it. */
  ghost predicate Lists<R(!new)>(rows: seq<R>, key: R -> string, stored: R -> R, m: map<string, R>) {
    && (forall r :: r in rows ==> key(r) in m && m[key(r)] == stored(r))
    && (forall k :: k in m ==> exists r :: r in rows && key(r) == k)
  }

  ghost predicate SnapshotOf(s: Snapshot, t: Tables) {
    && Lists(s.issues, IssueKey, AsIssue, t.issues)
    && Lists(s.comments, CommentId, AsComment, t.comments)
    && Lists(s.attachments, AttachmentId, AsAttachment, t.attachments)
    && Lists(s.worklogs, WorklogKey, Stored, t.worklogs)
  }

  /** A table after rows are upserted into it, those without a key skipped. */
  function PutAll<R>(m: map<string, R>, rows: seq<R>, key: R -> string, stored: R -> R): map<string, R> {
    if rows == [] then m
    else
      var r := rows[|rows| - 1];
      var before := PutAll(m, rows[..|rows| - 1], key, stored);
      if key(r) == "" then before else before[key(r) := stored(r)]
  }

  lemma {:induction false} PutAllHolds<R>(rows: seq<R>, key: R -> string, stored: R -> R, m: map<string, R>)
    requires "" !in m
    requires forall r :: r in rows ==> key(r) in m && m[key(r)] == stored(r)
    ensures var p := PutAll(map[], rows, key, stored);
            && (forall k :: k in p ==> k in m && p[k] == m[k])
            && (forall r :: r in rows ==> key(r) in p)
  {
    if rows != [] {
      var n := |rows| - 1;
      PutAllHolds(rows[..n], key, stored, m);
      assert rows == rows[..n] + [rows[n]];
    }
  }

  /** Upserting a listing of a table into an empty one gives the table. */
  lemma PutAllLists<R(!new)>(rows: seq<R>, key: R -> string, stored: R -> R, m: map<string, R>)
    requires "" !in m && Lists(rows, key, stored, m)
    ensures PutAll(map[], rows, key, stored) == m
  {
    hide PutAll;
    PutAllHolds(rows, key, stored, m);
  }

  lemma IssueUpserted(t: Tables, i: Issue)
    ensures CoreOf(Effect(t, Action(0, "", IssueUpsert(i)))) ==
            CoreOf(t).(issues := if i.id == "" then t.issues else t.issues[i.id := i])
  {
  }

  lemma CommentUpserted(t: Tables, c: Comment)
    ensures CoreOf(Effect(t, Action(0, "", CommentUpsert(c)))) ==
            CoreOf(t).(comments := if c.id == "" then t.comments else t.comments[c.id := AsComment(c)])
  {
  }

  lemma AttachmentUpserted(t: Tables, x: Attachment)
    ensures CoreOf(Effect(t, Action(0, "", AttachmentUpsert(x)))) ==
            CoreOf(t).(attachments := if x.id == "" then t.attachments else t.attachments[x.id := x])
  {
  }

  lemma WorklogUpserted(t: Tables, w: Worklog)
    ensures CoreOf(Effect(t, Action(0, "", WorklogUpsert(w)))) ==
            CoreOf(t).(worklogs := if w.id == "" then t.worklogs else t.worklogs[w.id := Stored(w)])
  {
    hide Stored;
  }

  lemma UpsertsSnoc<R>(rows: seq<R>, change: R -> Change)
    requires rows != []
    ensures Upserts(rows, change)[..|rows| - 1] == Upserts(rows[..|rows| - 1], change)
  {
  }

  lemma {:induction false} IssuesUpserted(t: Tables, rows: seq<Issue>)
    ensures CoreOf(Replay(t, Upserts(rows, IssueUpsert))) == CoreOf(t).(issues := PutAll(t.issues, rows, IssueKey, AsIssue))
  {
    hide Effect;
    if rows != [] {
      var n := |rows| - 1;
      UpsertsSnoc(rows, IssueUpsert);
      IssuesUpserted(t, rows[..n]);
      IssueUpserted(Replay(t, Upserts(rows[..n], IssueUpsert)), rows[n]);
    }
  }

  lemma {:induction false} CommentsUpserted(t: Tables, rows: seq<Comment>)
    ensures CoreOf(Replay(t, Upserts(rows, CommentUpsert))) ==
            CoreOf(t).(comments := PutAll(t.comments, rows, CommentId, AsComment))
  {
    hide Effect;
    if rows != [] {
      var n := |rows| - 1;
      UpsertsSnoc(rows, CommentUpsert);
      CommentsUpserted(t, rows[..n]);
      CommentUpserted(Replay(t, Upserts(rows[..n], CommentUpsert)), rows[n]);
    }
  }

  lemma {:induction false} AttachmentsUpserted(t: Tables, rows: seq<Attachment>)
    ensures CoreOf(Replay(t, Upserts(rows, AttachmentUpsert))) ==
            CoreOf(t).(attachments := PutAll(t.attachments, rows, AttachmentId, AsAttachment))
  {
    hide Effect;
    if rows != [] {
      var n := |rows| - 1;
      UpsertsSnoc(rows, AttachmentUpsert);
      AttachmentsUpserted(t, rows[..n]);
      AttachmentUpserted(Replay(t, Upserts(rows[..n], AttachmentUpsert)), rows[n]);
    }
  }

  lemma {:induction false} WorklogsUpserted(t: Tables, rows: seq<Worklog>)
    ensures CoreOf(Replay(t, Upserts(rows, WorklogUpsert))) ==
            CoreOf(t).(worklogs := PutAll(t.worklogs, rows, WorklogKey, Stored))
  {
    hide Effect;
    if rows != [] {
      var n := |rows| - 1;
      UpsertsSnoc(rows, WorklogUpsert);
      WorklogsUpserted(t, rows[..n]);
      WorklogUpserted(Replay(t, Upserts(rows[..n], WorklogUpsert)), rows[n]);
    }
  }

  /** Issues, comments, attachments and worklogs never depend on the other tables. */
  lemma EffectOfCore(t: Tables, u: Tables, a: Action)
    requires CoreOf(t) == CoreOf(u)
    ensures CoreOf(Effect(t, a)) == CoreOf(Effect(u, a))
  {
    hide Effect, KeyedStep;
    IssueStep(t, a);
    IssueStep(u, a);
    CommentStep(t, a);
    CommentStep(u, a);
    AttachmentStep(t, a);
    AttachmentStep(u, a);
    WorklogStep(t, a);
    WorklogStep(u, a);
  }

  lemma {:induction false} ReplayOfCore(t: Tables, u: Tables, log: seq<Action>)
    requires CoreOf(t) == CoreOf(u)
    ensures CoreOf(Replay(t, log)) == CoreOf(Replay(u, log))
  {
    hide Effect, CoreOf;
    if log != [] {
      var n := |log| - 1;
      ReplayOfCore(t, u, log[..n]);
      EffectOfCore(Replay(t, log[..n]), Replay(u, log[..n]), log[n]);
    }
  }

  /** No replayed row is kept under the empty id. */
  lemma NoEmptyKeys(log: seq<Action>)
    ensures var t := Replay(EMPTY, log);
            "" !in t.issues && "" !in t.comments && "" !in t.attachments && "" !in t.worklogs
  {
    hide Replay, Stands;
    ReplayHolds(log);
    var t := Replay(EMPTY, log);
    if "" in t.issues { PutsNoEmpty(PutIssue, ErasesIssue, log, t.issues[""]); }
    if "" in t.comments { PutsNoEmpty(PutComment, ErasesComment, log, t.comments[""]); }
    if "" in t.attachments { PutsNoEmpty(PutAttachment, ErasesAttachment, log, t.attachments[""]); }
    if "" in t.worklogs { PutsNoEmpty(PutWorklog, ErasesWorklog, log, t.worklogs[""]); }
  }

  lemma PutsNoEmpty<R>(put: Action -> Option<(string, R)>, erases: (Action, string, R) -> bool, log: seq<Action>, r: R)
    requires forall a :: put(a).Some? ==> put(a).value.0 != ""
    ensures !Lasts(put, erases, log, "", r)
  {
  }

  /** The tables a snapshot leaves are those it was taken from, whatever the other tables held. */
  lemma SnapshotInstalls(s: Snapshot, t: Tables, log: seq<Action>)
    requires CoreOf(t) == CoreOf(EMPTY) && SnapshotOf(s, Replay(EMPTY, log))
    ensures CoreOf(Replay(t, SnapshotActions(s))) == CoreOf(Replay(EMPTY, log))
  {
    hide Replay, Lists, PutAll, Upserts;
    var i, c, x, w := Upserts(s.issues, IssueUpsert), Upserts(s.comments, CommentUpsert),
                      Upserts(s.attachments, AttachmentUpsert), Upserts(s.worklogs, WorklogUpsert);
    ReplayConcat(t, i + c + x, w);
    ReplayConcat(t, i + c, x);
    ReplayConcat(t, i, c);
    IssuesUpserted(t, s.issues);
    CommentsUpserted(Replay(t, i), s.comments);
    AttachmentsUpserted(Replay(t, i + c), s.attachments);
    WorklogsUpserted(Replay(t, i + c + x), s.worklogs);
    NoEmptyKeys(log);
    var u := Replay(EMPTY, log);
    PutAllLists(s.issues, IssueKey, AsIssue, u.issues);
    PutAllLists(s.comments, CommentId, AsComment, u.comments);
    PutAllLists(s.attachments, AttachmentId, AsAttachment, u.attachments);
    PutAllLists(s.worklogs, WorklogKey, Stored, u.worklogs);
  }

  /** Installing a snapshot and replaying what followed it equals replaying the whole log. */
  lemma BootstrapThenTail(s: Snapshot, log: seq<Action>, n: nat)
    requires n <= |log| && SnapshotOf(s, Replay(EMPTY, log[..n]))
    ensures CoreOf(Replay(Replay(EMPTY, SnapshotActions(s)), log[n..])) == CoreOf(Replay(EMPTY, log))
  {
    hide Replay, CoreOf, SnapshotActions, SnapshotOf;
    SnapshotInstalls(s, EMPTY, log[..n]);
    ReplayOfCore(Replay(EMPTY, SnapshotActions(s)), Replay(EMPTY, log[..n]), log[n..]);
    ReplayConcat(EMPTY, log[..n], log[n..]);
    assert log[..n] + log[n..] == log;
  }
}
