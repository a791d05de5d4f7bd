/** What a replayed log leaves in the tables, told without replaying it. */
module ReplaySpec {
  import opened Adf
  import opened Actions

  // ---- one table as keys that are put and erased ----

  function KeyedStep<K(==), R>(put: Action -> Option<(K, R)>, erases: (Action, K, R) -> bool, m: map<K, R>, a: Action): map<K, R> {
    var kept := map k | k in m && !erases(a, k, m[k]) :: m[k];
    match put(a)
    case None => kept
    case Some(kr) => kept[kr.0 := kr.1]
  }

  function KeyedFold<K(==), R>(put: Action -> Option<(K, R)>, erases: (Action, K, R) -> bool, log: seq<Action>): map<K, R> {
    if log == [] then map[]
    else KeyedStep(put, erases, KeyedFold(put, erases, log[..|log| - 1]), log[|log| - 1])
  }

  /** The action at `i` puts this row, and no later one puts the key again or erases the row. */
  ghost predicate Stands<K, R>(put: Action -> Option<(K, R)>, erases: (Action, K, R) -> bool, log: seq<Action>, i: int, k: K, r: R) {
    && 0 <= i < |log|
    && put(log[i]) == Some((k, r))
    && forall j :: i < j < |log| ==> !erases(log[j], k, r) && (put(log[j]).None? || put(log[j]).value.0 != k)
  }

  /** Some action puts this row, and it stands to the end of the log. */
  ghost predicate Lasts<K, R>(put: Action -> Option<(K, R)>, erases: (Action, K, R) -> bool, log: seq<Action>, k: K, r: R) {
    exists i :: Stands(put, erases, log, i, k, r)
  }

  predicate Holds<K, R(==)>(m: map<K, R>, k: K, r: R) {
    k in m && m[k] == r
  }

  /** A row that stands in a longer log stands in the shorter one, unless the last action put it. */
  lemma StandsSnoc<K, R>(put: Action -> Option<(K, R)>, erases: (Action, K, R) -> bool, log: seq<Action>, a: Action, i: int, k: K, r: R)
    ensures Stands(put, erases, log + [a], i, k, r) <==>
            if i == |log| then put(a) == Some((k, r))
            else Stands(put, erases, log, i, k, r) && !erases(a, k, r) && (put(a).None? || put(a).value.0 != k)
  {
    var all := log + [a];
    assert all[|log|] == a;
    assert forall j :: 0 <= j < |log| ==> all[j] == log[j];
  }

  /** A table holds exactly the rows that stand. */
  lemma {:induction false} KeyedHolds<K, R>(put: Action -> Option<(K, R)>, erases: (Action, K, R) -> bool, log: seq<Action>, k: K, r: R)
    ensures Holds(KeyedFold(put, erases, log), k, r) <==> Lasts(put, erases, log, k, r)
  {
    if log != [] {
      var n := |log| - 1;
      var before, a := log[..n], log[n];
      assert log == before + [a];
      KeyedHolds(put, erases, before, k, r);
      var m := KeyedFold(put, erases, before);
      if Holds(KeyedFold(put, erases, log), k, r) {
        if put(a).Some? && put(a).value.0 == k {
          StandsSnoc(put, erases, before, a, n, k, r);
        } else {
          var i :| Stands(put, erases, before, i, k, r);
          StandsSnoc(put, erases, before, a, i, k, r);
        }
      }
      if i :| Stands(put, erases, log, i, k, r) {
        StandsSnoc(put, erases, before, a, i, k, r);
      }
    }
  }

  // ---- the replica's tables as keys that are put and erased ----

  function PutIssue(a: Action): Option<(string, Issue)> {
    match a.change
    case OnIssue(Upsert(i)) => if i.id == "" then None else Some((i.id, i))
    case _ => None
  }

  predicate ErasesIssue(a: Action, k: string, r: Issue) {
    Removes(a) == Some(k)
  }

  function PutComment(a: Action): Option<(string, Comment)> {
    match a.change
    case OnComment(Upsert(c)) => if c.id == "" then None else Some((c.id, c.(local := false)))
    case _ => None
  }

  predicate ErasesComment(a: Action, k: string, r: Comment) {
    || Removes(a) == Some(r.issueId)
    || (!Fails(a.change) && a.change.OnComment? && a.change.comment.Delete? && a.change.comment.ref.id == k)
  }

  function PutAttachment(a: Action): Option<(string, Attachment)> {
    match a.change
    case OnAttachment(Upsert(x)) => if x.id == "" then None else Some((x.id, x))
    case _ => None
  }

  predicate ErasesAttachment(a: Action, k: string, r: Attachment) {
    || Removes(a) == Some(r.issueId)
    || (!Fails(a.change) && a.change.OnAttachment? && a.change.attachment.Delete? && a.change.attachment.ref.id == k)
  }

  function PutWorklog(a: Action): Option<(string, Worklog)> {
    match a.change
    case OnWorklog(Upsert(w)) => if w.id == "" then None else Some((w.id, Stored(w)))
    case _ => None
  }

  predicate ErasesWorklog(a: Action, k: string, r: Worklog) {
    || Removes(a) == Some(r.issueId)
    || (!Fails(a.change) && a.change.OnWorklog? && a.change.worklog.Delete? && a.change.worklog.ref.id == k)
  }

  function PutLink(a: Action): Option<(string, Link)> {
    match a.change
    case OnLink(Upsert(l)) => Some((l.id, l))
    case _ => None
  }

  predicate ErasesLink(a: Action, k: string, r: Link) {
    || Removes(a) == Some(r.inwardId) || Removes(a) == Some(r.outwardId)
    || (a.change.OnLink? && a.change.link.Delete? && a.entityId == k)
  }

  function PutBoard(a: Action): Option<(string, string)> {
    match a.change
    case OnBoard(Upsert(n)) => Some((n.id, n.content))
    case _ => None
  }

  predicate ErasesBoard(a: Action, k: string, r: string) {
    a.change.OnBoard? && !a.change.board.Upsert? && a.entityId == k
  }

  function PutSprint(a: Action): Option<(string, string)> {
    match a.change
    case OnSprint(Upsert(n)) => Some((n.id, n.content))
    case _ => None
  }

  predicate ErasesSprint(a: Action, k: string, r: string) {
    a.change.OnSprint? && !a.change.sprint.Upsert? && a.entityId == k
  }

  function PutNotification(a: Action): Option<(string, string)> {
    match a.change
    case OnNotification(Upsert(n)) => Some((n.id, n.content))
    case _ => None
  }

  predicate ErasesNotification(a: Action, k: string, r: string) {
    a.change.OnNotification? && !a.change.notification.Upsert? && a.entityId == k
  }

  function PutSprintIssue(a: Action): Option<((string, string), string)> {
    match a.change
    case OnSprintIssue(Upsert(r)) => Some(((r.sprint, r.issue), r.rank))
    case _ => None
  }

  predicate ErasesSprintIssue(a: Action, k: (string, string), r: string) {
    || Removes(a) == Some(k.1)
    || (a.change.OnSprintIssue? && a.change.sprintIssue.Delete? && a.change.sprintIssue.ref == k)
  }

  function PutWatcher(a: Action): Option<((string, string), ())> {
    match a.change
    case OnWatcher(Upsert(k)) => Some((k, ()))
    case _ => None
  }

  predicate ErasesWatcher(a: Action, k: (string, string), r: ()) {
    || Removes(a) == Some(k.0)
    || (a.change.OnWatcher? && a.change.watcher.Delete? && a.change.watcher.ref == k)
  }

  lemma KeyedIs<K, R>(put: Action -> Option<(K, R)>, erases: (Action, K, R) -> bool, m: map<K, R>, a: Action, m': map<K, R>)
    requires put(a) == None
    requires forall k :: k in m' <==> k in m && !erases(a, k, m[k])
    requires forall k :: k in m' ==> m'[k] == m[k]
    ensures KeyedStep(put, erases, m, a) == m'
  {
  }

  lemma KeyedPuts<K, R>(put: Action -> Option<(K, R)>, erases: (Action, K, R) -> bool, m: map<K, R>, a: Action)
    requires put(a).Some? && forall k :: k in m ==> !erases(a, k, m[k])
    ensures KeyedStep(put, erases, m, a) == m[put(a).value.0 := put(a).value.1]
  {
  }

  lemma RemovalEffect(t: Tables, a: Action)
    requires Removes(a).Some?
    ensures Effect(t, a) == WithoutIssue(t, Removes(a).value)
    ensures PutIssue(a) == None && PutComment(a) == None && PutAttachment(a) == None && PutWorklog(a) == None && PutLink(a) == None
  {
    hide WithoutIssue;
  }

  lemma IssueStep(t: Tables, a: Action)
    ensures Effect(t, a).issues == KeyedStep(PutIssue, ErasesIssue, t.issues, a)
  {
    if Removes(a).Some? {
      RemovalEffect(t, a);
      hide Effect;
      KeyedIs(PutIssue, ErasesIssue, t.issues, a, t.issues - {Removes(a).value});
    } else if PutIssue(a).Some? {
      KeyedPuts(PutIssue, ErasesIssue, t.issues, a);
    } else {
      KeyedIs(PutIssue, ErasesIssue, t.issues, a, t.issues);
    }
  }

  lemma OwnComment(t: Tables, a: Action)
    requires a.change.OnComment?
    ensures Effect(t, a).comments == if Fails(a.change) then t.comments else ApplyComment(t.comments, a.change.comment)
  {
    hide ApplyComment, Elsewhere;
  }

  lemma CommentStep(t: Tables, a: Action)
    ensures Effect(t, a).comments == KeyedStep(PutComment, ErasesComment, t.comments, a)
  {
    hide Effect;
    if Removes(a).Some? {
      RemovalEffect(t, a);
      KeyedIs(PutComment, ErasesComment, t.comments, a, WithoutIssue(t, Removes(a).value).comments);
    } else if a.change.OnComment? {
      OwnComment(t, a);
      if PutComment(a).Some? {
        KeyedPuts(PutComment, ErasesComment, t.comments, a);
      } else {
        KeyedIs(PutComment, ErasesComment, t.comments, a, Effect(t, a).comments);
      }
    } else {
      KeyedIs(PutComment, ErasesComment, t.comments, a, t.comments);
    }
  }

  lemma OwnAttachment(t: Tables, a: Action)
    requires a.change.OnAttachment?
    ensures Effect(t, a).attachments == if Fails(a.change) then t.attachments else ApplyAttachment(t.attachments, a.change.attachment)
  {
    hide ApplyAttachment, Elsewhere;
  }

  lemma AttachmentStep(t: Tables, a: Action)
    ensures Effect(t, a).attachments == KeyedStep(PutAttachment, ErasesAttachment, t.attachments, a)
  {
    hide Effect;
    if Removes(a).Some? {
      RemovalEffect(t, a);
      KeyedIs(PutAttachment, ErasesAttachment, t.attachments, a, WithoutIssue(t, Removes(a).value).attachments);
    } else if a.change.OnAttachment? {
      OwnAttachment(t, a);
      if PutAttachment(a).Some? {
        KeyedPuts(PutAttachment, ErasesAttachment, t.attachments, a);
      } else {
        KeyedIs(PutAttachment, ErasesAttachment, t.attachments, a, Effect(t, a).attachments);
      }
    } else {
      KeyedIs(PutAttachment, ErasesAttachment, t.attachments, a, t.attachments);
    }
  }

  lemma OwnWorklog(t: Tables, a: Action)
    requires a.change.OnWorklog?
    ensures Effect(t, a).worklogs == if Fails(a.change) then t.worklogs else ApplyWorklog(t.worklogs, a.change.worklog)
  {
    hide ApplyWorklog, Elsewhere;
  }

  lemma WorklogStep(t: Tables, a: Action)
    ensures Effect(t, a).worklogs == KeyedStep(PutWorklog, ErasesWorklog, t.worklogs, a)
  {
    hide Effect;
    if Removes(a).Some? {
      RemovalEffect(t, a);
      KeyedIs(PutWorklog, ErasesWorklog, t.worklogs, a, WithoutIssue(t, Removes(a).value).worklogs);
    } else if a.change.OnWorklog? {
      OwnWorklog(t, a);
      if PutWorklog(a).Some? {
        KeyedPuts(PutWorklog, ErasesWorklog, t.worklogs, a);
      } else {
        KeyedIs(PutWorklog, ErasesWorklog, t.worklogs, a, Effect(t, a).worklogs);
      }
    } else {
      KeyedIs(PutWorklog, ErasesWorklog, t.worklogs, a, t.worklogs);
    }
  }

  lemma OwnLink(t: Tables, a: Action)
    requires a.change.OnLink?
    ensures Effect(t, a).links == ApplyLink(t.links, a.entityId, a.change.link)
  {
    hide ApplyLink;
  }

  lemma LinkStep(t: Tables, a: Action)
    ensures Effect(t, a).links == KeyedStep(PutLink, ErasesLink, t.links, a)
  {
    hide Effect;
    if Removes(a).Some? {
      RemovalEffect(t, a);
      KeyedIs(PutLink, ErasesLink, t.links, a, WithoutIssue(t, Removes(a).value).links);
    } else if a.change.OnLink? {
      OwnLink(t, a);
      if PutLink(a).Some? {
        KeyedPuts(PutLink, ErasesLink, t.links, a);
      } else {
        KeyedIs(PutLink, ErasesLink, t.links, a, Effect(t, a).links);
      }
    } else {
      KeyedIs(PutLink, ErasesLink, t.links, a, t.links);
    }
  }

  lemma OwnBoard(t: Tables, a: Action)
    requires a.change.OnBoard?
    ensures Effect(t, a).boards == ApplyNamed(t.boards, a.entityId, a.change.board)
  {
    hide ApplyNamed;
  }

  lemma OwnSprint(t: Tables, a: Action)
    requires a.change.OnSprint?
    ensures Effect(t, a).sprints == ApplyNamed(t.sprints, a.entityId, a.change.sprint)
  {
    hide ApplyNamed;
  }

  lemma OwnNotification(t: Tables, a: Action)
    requires a.change.OnNotification?
    ensures Effect(t, a).notifications == ApplyNamed(t.notifications, a.entityId, a.change.notification)
  {
    hide ApplyNamed;
  }

  lemma OwnSprintIssue(t: Tables, a: Action)
    requires a.change.OnSprintIssue?
    ensures Effect(t, a).sprintIssues == ApplyRanked(t.sprintIssues, a.change.sprintIssue)
  {
    hide ApplyRanked;
  }

  lemma OwnWatcher(t: Tables, a: Action)
    requires a.change.OnWatcher?
    ensures Effect(t, a).watchers == ApplyWatcher(t.watchers, a.change.watcher)
  {
    hide ApplyWatcher;
  }

  lemma BoardStep(t: Tables, a: Action)
    ensures Effect(t, a).boards == KeyedStep(PutBoard, ErasesBoard, t.boards, a)
  {
    if a.change.OnBoard? { OwnBoard(t, a); }
    hide Effect;
    if PutBoard(a).Some? {
      KeyedPuts(PutBoard, ErasesBoard, t.boards, a);
    } else {
      KeyedIs(PutBoard, ErasesBoard, t.boards, a, Effect(t, a).boards);
    }
  }

  lemma SprintStep(t: Tables, a: Action)
    ensures Effect(t, a).sprints == KeyedStep(PutSprint, ErasesSprint, t.sprints, a)
  {
    if a.change.OnSprint? { OwnSprint(t, a); }
    hide Effect;
    if PutSprint(a).Some? {
      KeyedPuts(PutSprint, ErasesSprint, t.sprints, a);
    } else {
      KeyedIs(PutSprint, ErasesSprint, t.sprints, a, Effect(t, a).sprints);
    }
  }

  lemma NotificationStep(t: Tables, a: Action)
    ensures Effect(t, a).notifications == KeyedStep(PutNotification, ErasesNotification, t.notifications, a)
  {
    if a.change.OnNotification? { OwnNotification(t, a); }
    hide Effect;
    if PutNotification(a).Some? {
      KeyedPuts(PutNotification, ErasesNotification, t.notifications, a);
    } else {
      KeyedIs(PutNotification, ErasesNotification, t.notifications, a, Effect(t, a).notifications);
    }
  }

  lemma SprintIssueStep(t: Tables, a: Action)
    ensures Effect(t, a).sprintIssues == KeyedStep(PutSprintIssue, ErasesSprintIssue, t.sprintIssues, a)
  {
    hide Effect;
    if Removes(a).Some? {
      RemovalEffect(t, a);
      KeyedIs(PutSprintIssue, ErasesSprintIssue, t.sprintIssues, a, WithoutIssue(t, Removes(a).value).sprintIssues);
    } else {
      if a.change.OnSprintIssue? { OwnSprintIssue(t, a); }
      if PutSprintIssue(a).Some? {
        KeyedPuts(PutSprintIssue, ErasesSprintIssue, t.sprintIssues, a);
      } else {
        KeyedIs(PutSprintIssue, ErasesSprintIssue, t.sprintIssues, a, Effect(t, a).sprintIssues);
      }
    }
  }

  lemma WatcherStep(t: Tables, a: Action)
    ensures Effect(t, a).watchers == KeyedStep(PutWatcher, ErasesWatcher, t.watchers, a)
  {
    hide Effect;
    if Removes(a).Some? {
      RemovalEffect(t, a);
      KeyedIs(PutWatcher, ErasesWatcher, t.watchers, a, WithoutIssue(t, Removes(a).value).watchers);
    } else {
      if a.change.OnWatcher? { OwnWatcher(t, a); }
      if PutWatcher(a).Some? {
        KeyedPuts(PutWatcher, ErasesWatcher, t.watchers, a);
      } else {
        KeyedIs(PutWatcher, ErasesWatcher, t.watchers, a, Effect(t, a).watchers);
      }
    }
  }

  lemma {:induction false} SidesAreKeyed(log: seq<Action>)
    ensures var t := Replay(EMPTY, log);
            && t.boards == KeyedFold(PutBoard, ErasesBoard, log)
            && t.sprints == KeyedFold(PutSprint, ErasesSprint, log)
            && t.sprintIssues == KeyedFold(PutSprintIssue, ErasesSprintIssue, log)
            && t.watchers == KeyedFold(PutWatcher, ErasesWatcher, log)
            && t.notifications == KeyedFold(PutNotification, ErasesNotification, log)
  {
    hide Effect, KeyedStep;
    if log != [] {
      var n := |log| - 1;
      var t := Replay(EMPTY, log[..n]);
      SidesAreKeyed(log[..n]);
      BoardStep(t, log[n]);
      SprintStep(t, log[n]);
      SprintIssueStep(t, log[n]);
      WatcherStep(t, log[n]);
      NotificationStep(t, log[n]);
    }
  }

  lemma {:induction false} ReplayIsKeyed(log: seq<Action>)
    ensures var t := Replay(EMPTY, log);
            && t.issues == KeyedFold(PutIssue, ErasesIssue, log)
            && t.comments == KeyedFold(PutComment, ErasesComment, log)
            && t.attachments == KeyedFold(PutAttachment, ErasesAttachment, log)
            && t.worklogs == KeyedFold(PutWorklog, ErasesWorklog, log)
            && t.links == KeyedFold(PutLink, ErasesLink, log)
  {
    hide Effect, KeyedStep;
    if log != [] {
      var n := |log| - 1;
      var t := Replay(EMPTY, log[..n]);
      ReplayIsKeyed(log[..n]);
      IssueStep(t, log[n]);
      CommentStep(t, log[n]);
      AttachmentStep(t, log[n]);
      WorklogStep(t, log[n]);
      LinkStep(t, log[n]);
    }
  }

  lemma CoreHolds(log: seq<Action>)
    ensures var t := Replay(EMPTY, log);
            && (forall k, r :: Holds(t.issues, k, r) <==> Lasts(PutIssue, ErasesIssue, log, k, r))
            && (forall k, r :: Holds(t.comments, k, r) <==> Lasts(PutComment, ErasesComment, log, k, r))
            && (forall k, r :: Holds(t.attachments, k, r) <==> Lasts(PutAttachment, ErasesAttachment, log, k, r))
            && (forall k, r :: Holds(t.worklogs, k, r) <==> Lasts(PutWorklog, ErasesWorklog, log, k, r))
            && (forall k, r :: Holds(t.links, k, r) <==> Lasts(PutLink, ErasesLink, log, k, r))
  {
    hide Replay, KeyedFold, Holds, Lasts;
    ReplayIsKeyed(log);
    forall k, r ensures Holds(KeyedFold(PutIssue, ErasesIssue, log), k, r) <==> Lasts(PutIssue, ErasesIssue, log, k, r) {
      KeyedHolds(PutIssue, ErasesIssue, log, k, r);
    }
    forall k, r ensures Holds(KeyedFold(PutComment, ErasesComment, log), k, r) <==> Lasts(PutComment, ErasesComment, log, k, r) {
      KeyedHolds(PutComment, ErasesComment, log, k, r);
    }
    forall k, r ensures Holds(KeyedFold(PutAttachment, ErasesAttachment, log), k, r) <==> Lasts(PutAttachment, ErasesAttachment, log, k, r) {
      KeyedHolds(PutAttachment, ErasesAttachment, log, k, r);
    }
    forall k, r ensures Holds(KeyedFold(PutWorklog, ErasesWorklog, log), k, r) <==> Lasts(PutWorklog, ErasesWorklog, log, k, r) {
      KeyedHolds(PutWorklog, ErasesWorklog, log, k, r);
    }
    forall k, r ensures Holds(KeyedFold(PutLink, ErasesLink, log), k, r) <==> Lasts(PutLink, ErasesLink, log, k, r) {
      KeyedHolds(PutLink, ErasesLink, log, k, r);
    }
  }

  lemma SidesHold(log: seq<Action>)
    ensures var t := Replay(EMPTY, log);
            && (forall k, r :: Holds(t.boards, k, r) <==> Lasts(PutBoard, ErasesBoard, log, k, r))
            && (forall k, r :: Holds(t.sprints, k, r) <==> Lasts(PutSprint, ErasesSprint, log, k, r))
            && (forall k, r :: Holds(t.sprintIssues, k, r) <==> Lasts(PutSprintIssue, ErasesSprintIssue, log, k, r))
            && (forall k, r :: Holds(t.watchers, k, r) <==> Lasts(PutWatcher, ErasesWatcher, log, k, r))
            && (forall k, r :: Holds(t.notifications, k, r) <==> Lasts(PutNotification, ErasesNotification, log, k, r))
  {
    hide Replay, KeyedFold, Holds, Lasts;
    SidesAreKeyed(log);
    forall k, r ensures Holds(KeyedFold(PutBoard, ErasesBoard, log), k, r) <==> Lasts(PutBoard, ErasesBoard, log, k, r) {
      KeyedHolds(PutBoard, ErasesBoard, log, k, r);
    }
    forall k, r ensures Holds(KeyedFold(PutSprint, ErasesSprint, log), k, r) <==> Lasts(PutSprint, ErasesSprint, log, k, r) {
      KeyedHolds(PutSprint, ErasesSprint, log, k, r);
    }
    forall k, r ensures Holds(KeyedFold(PutSprintIssue, ErasesSprintIssue, log), k, r) <==> Lasts(PutSprintIssue, ErasesSprintIssue, log, k, r) {
      KeyedHolds(PutSprintIssue, ErasesSprintIssue, log, k, r);
    }
    forall k, r ensures Holds(KeyedFold(PutWatcher, ErasesWatcher, log), k, r) <==> Lasts(PutWatcher, ErasesWatcher, log, k, r) {
      KeyedHolds(PutWatcher, ErasesWatcher, log, k, r);
    }
    forall k, r ensures Holds(KeyedFold(PutNotification, ErasesNotification, log), k, r) <==> Lasts(PutNotification, ErasesNotification, log, k, r) {
      KeyedHolds(PutNotification, ErasesNotification, log, k, r);
    }
  }

  /**
   * Present exactly when the last upsert stands: a row of any of the ten tables is in the replayed
   * tables, with that content, exactly when some action put it and no later action put it again,
   * deleted it, or removed an issue it belongs to.
   */
  lemma ReplayHolds(log: seq<Action>)
    ensures var t := Replay(EMPTY, log);
            && (forall k, r :: Holds(t.issues, k, r) <==> Lasts(PutIssue, ErasesIssue, log, k, r))
            && (forall k, r :: Holds(t.comments, k, r) <==> Lasts(PutComment, ErasesComment, log, k, r))
            && (forall k, r :: Holds(t.attachments, k, r) <==> Lasts(PutAttachment, ErasesAttachment, log, k, r))
            && (forall k, r :: Holds(t.worklogs, k, r) <==> Lasts(PutWorklog, ErasesWorklog, log, k, r))
            && (forall k, r :: Holds(t.links, k, r) <==> Lasts(PutLink, ErasesLink, log, k, r))
            && (forall k, r :: Holds(t.boards, k, r) <==> Lasts(PutBoard, ErasesBoard, log, k, r))
            && (forall k, r :: Holds(t.sprints, k, r) <==> Lasts(PutSprint, ErasesSprint, log, k, r))
            && (forall k, r :: Holds(t.sprintIssues, k, r) <==> Lasts(PutSprintIssue, ErasesSprintIssue, log, k, r))
            && (forall k, r :: Holds(t.watchers, k, r) <==> Lasts(PutWatcher, ErasesWatcher, log, k, r))
            && (forall k, r :: Holds(t.notifications, k, r) <==> Lasts(PutNotification, ErasesNotification, log, k, r))
  {
    hide Replay, Holds, Lasts;
    CoreHolds(log);
    SidesHold(log);
  }

  // ---- a removed issue leaves no trace ----

  /** No issue, comment, attachment or worklog row is the issue or belongs to it. */
  predicate NoRow(t: Tables, id: string) {
    && id !in t.issues
    && (forall k :: k in t.comments ==> t.comments[k].issueId != id)
    && (forall k :: k in t.attachments ==> t.attachments[k].issueId != id)
    && (forall k :: k in t.worklogs ==> t.worklogs[k].issueId != id)
  }

  /** No link, sprint or watcher row names the issue. */
  predicate NoEdge(t: Tables, id: string) {
    && (forall k :: k in t.links ==> t.links[k].inwardId != id && t.links[k].outwardId != id)
    && (forall k :: k in t.sprintIssues ==> k.1 != id)
    && (forall k :: k in t.watchers ==> k.0 != id)
  }

  predicate NoTrace(t: Tables, id: string) {
    NoRow(t, id) && NoEdge(t, id)
  }

  /** Whether an action stores a row that refers to the issue. */
  predicate Names(c: Change, id: string) {
    match c
    case OnIssue(Upsert(i)) => i.id == id
    case OnComment(Upsert(x)) => x.issueId == id
    case OnAttachment(Upsert(x)) => x.issueId == id
    case OnWorklog(Upsert(x)) => x.issueId == id
    case OnLink(Upsert(l)) => l.inwardId == id || l.outwardId == id
    case OnSprintIssue(Upsert(r)) => r.issue == id
    case OnWatcher(Upsert(k)) => k.0 == id
    case _ => false
  }

  lemma WithoutLeavesNoTrace(t: Tables, id: string)
    ensures NoTrace(WithoutIssue(t, id), id)
  {
  }

  lemma RemovalLeavesNoTrace(t: Tables, a: Action)
    requires Removes(a).Some?
    ensures NoTrace(Effect(t, a), Removes(a).value)
  {
    hide Effect, NoTrace, WithoutIssue;
    RemovalEffect(t, a);
    WithoutLeavesNoTrace(t, Removes(a).value);
  }

  lemma OthersRemoved(t: Tables, other: string, id: string)
    requires NoTrace(t, id)
    ensures NoTrace(WithoutIssue(t, other), id)
  {
  }

  lemma RowsOf(t: Tables, a: Action)
    requires Removes(a).None?
    ensures a.change.OnSprintIssue? ==> Effect(t, a).sprintIssues == ApplyRanked(t.sprintIssues, a.change.sprintIssue)
    ensures a.change.OnWatcher? ==> Effect(t, a).watchers == ApplyWatcher(t.watchers, a.change.watcher)
  {
    hide ApplyRanked, ApplyWatcher;
  }

  lemma OwnIssue(t: Tables, a: Action)
    requires a.change.OnIssue? && Removes(a).None?
    ensures forall k :: k in Effect(t, a).issues ==> k in t.issues || (a.change.issue.Upsert? && k == a.change.issue.row.id)
  {
  }

  lemma NoRowKept(t: Tables, a: Action, id: string)
    requires Removes(a).None? && NoRow(t, id) && !Names(a.change, id)
    ensures NoRow(Effect(t, a), id)
  {
    IssueKept(t, a, id);
    CommentsKept(t, a, id);
    AttachmentsKept(t, a, id);
    WorklogsKept(t, a, id);
    hide Effect, Names;
  }

  lemma IssueKept(t: Tables, a: Action, id: string)
    requires Removes(a).None? && NoRow(t, id) && !Names(a.change, id)
    ensures id !in Effect(t, a).issues
  {
    hide Effect;
    if a.change.OnIssue? { OwnIssue(t, a); }
  }

  lemma CommentsKept(t: Tables, a: Action, id: string)
    requires Removes(a).None? && NoRow(t, id) && !Names(a.change, id)
    ensures forall k :: k in Effect(t, a).comments ==> Effect(t, a).comments[k].issueId != id
  {
    hide Effect;
    if a.change.OnComment? { OwnComment(t, a); }
  }

  lemma AttachmentsKept(t: Tables, a: Action, id: string)
    requires Removes(a).None? && NoRow(t, id) && !Names(a.change, id)
    ensures forall k :: k in Effect(t, a).attachments ==> Effect(t, a).attachments[k].issueId != id
  {
    hide Effect;
    if a.change.OnAttachment? { OwnAttachment(t, a); }
  }

  lemma WorklogsKept(t: Tables, a: Action, id: string)
    requires Removes(a).None? && NoRow(t, id) && !Names(a.change, id)
    ensures forall k :: k in Effect(t, a).worklogs ==> Effect(t, a).worklogs[k].issueId != id
  {
    hide Effect;
    if a.change.OnWorklog? { OwnWorklog(t, a); }
  }

  lemma NoEdgeKept(t: Tables, a: Action, id: string)
    requires Removes(a).None? && NoEdge(t, id) && !Names(a.change, id)
    ensures NoEdge(Effect(t, a), id)
  {
    LinksKept(t, a, id);
    PairsKept(t, a, id);
    hide Effect, Names;
  }

  lemma LinksKept(t: Tables, a: Action, id: string)
    requires Removes(a).None? && NoEdge(t, id) && !Names(a.change, id)
    ensures forall k :: k in Effect(t, a).links ==> Effect(t, a).links[k].inwardId != id && Effect(t, a).links[k].outwardId != id
  {
    hide Effect;
    if a.change.OnLink? { OwnLink(t, a); }
  }

  lemma PairsKept(t: Tables, a: Action, id: string)
    requires Removes(a).None? && NoEdge(t, id) && !Names(a.change, id)
    ensures forall k :: k in Effect(t, a).sprintIssues ==> k.1 != id
    ensures forall k :: k in Effect(t, a).watchers ==> k.0 != id
  {
    hide Effect;
    RowsOf(t, a);
  }

  lemma NoTraceKept(t: Tables, a: Action, id: string)
    requires NoTrace(t, id) && !Names(a.change, id)
    ensures NoTrace(Effect(t, a), id)
  {
    hide Effect, NoRow, NoEdge, Names;
    if Removes(a).Some? {
      RemovalEffect(t, a);
      OthersRemoved(t, Removes(a).value, id);
    } else {
      NoRowKept(t, a, id);
      NoEdgeKept(t, a, id);
    }
  }

  /** Once removed, and never named again, an issue leaves no trace in the replica. */
  lemma {:induction false} GoneStaysGone(t: Tables, log: seq<Action>, i: nat)
    requires i < |log| && Removes(log[i]).Some?
    requires forall j :: i < j < |log| ==> !Names(log[j].change, Removes(log[i]).value)
    ensures NoTrace(Replay(t, log), Removes(log[i]).value)
  {
    hide Effect, NoTrace, Names;
    var n := |log| - 1;
    if i == n {
      RemovalLeavesNoTrace(Replay(t, log[..n]), log[n]);
    } else {
      GoneStaysGone(t, log[..n], i);
      NoTraceKept(Replay(t, log[..n]), log[n], Removes(log[i]).value);
    }
  }
}
