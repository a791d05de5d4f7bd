/** What the messages of a page do to the database: a command queued, and what it shows at once. */
module LocalEdits {
  import opened Adf
  import opened Actions
  import opened Worker

  /** Nothing but the queue has changed, which has one command more, under an id not used before. */
  predicate Queues(s: State, t: State, request: Request) {
    && t.db.outbox == s.db.outbox + [Command(s.db.nextId, request, 0)]
    && t.db.nextId == s.db.nextId + 1
    && t.db.checkpoint == s.db.checkpoint && t.db.head == s.db.head && t.guard == s.guard
  }

  /** The id of a new comment is taken. */
  predicate Taken(s: State, edit: Edit) {
    s.guard.view != "" && edit.AddComment? && edit.id in s.db.tables.comments
  }

  /**
   * A command is queued as it was given, not refused, behind those before it, together with what it
   * shows at once; or nothing is stored, when the id of its comment is taken.
   */
  lemma CommandIsQueued(s: State, request: Request, edit: Edit)
    ensures var t := Step(s, Enqueue(request, edit));
            if Taken(s, edit) then t == s else Queues(s, t, request)
  {
    hide Optimistic, Touches;
  }

  /** The rows of every table but the issues and the comments are as they were. */
  predicate OthersKept(a: Tables, b: Tables) {
    && a.attachments == b.attachments && a.worklogs == b.worklogs && a.links == b.links && a.boards == b.boards
    && a.sprints == b.sprints && a.sprintIssues == b.sprintIssues && a.watchers == b.watchers && a.notifications == b.notifications
  }

  lemma ShownAtOnce(s: State, request: Request, edit: Edit)
    requires !Taken(s, edit)
    ensures Step(s, Enqueue(request, edit)).db.tables == Optimistic(s.db.tables, s.guard.view, edit)
  {
    hide Optimistic, Touches;
  }

  /** A comment is shown under the issue in view, as the user's own, and every other row stays. */
  lemma CommentIsShown(s: State, request: Request, id: string, content: string)
    requires s.guard.view != "" && id !in s.db.tables.comments
    ensures var a, b := s.db.tables, Step(s, Enqueue(request, AddComment(id, content))).db.tables;
            && id in b.comments && b.comments[id].issueId == s.guard.view
            && b.comments[id].content == content && b.comments[id].local && b.comments[id].id == id
            && b.comments.Keys == a.comments.Keys + {id} && (forall k :: k in a.comments ==> b.comments[k] == a.comments[k])
            && b.issues == a.issues && OthersKept(a, b)
  {
    ShownAtOnce(s, request, AddComment(id, content));
    hide Step;
  }

  /** Of the issues only the one in view may change, and of that not what the edit does not name. */
  predicate OnlyInView(a: Tables, b: Tables, view: string) {
    && (view == "" ==> b == a) && b.comments == a.comments && OthersKept(a, b) && b.issues.Keys == a.issues.Keys
    && (forall k :: k in a.issues && k != view ==> b.issues[k] == a.issues[k])
    && (view in a.issues ==> b.issues[view].id == a.issues[view].id && b.issues[view].rest == a.issues[view].rest)
  }

  /** What is shown of an edit of the issue in view. */
  lemma OnlyThatRow(a: Tables, view: string, edit: Edit)
    requires edit.SetStatus? || edit.EditIssue?
    ensures var b := Optimistic(a, view, edit);
            && b == a.(issues := b.issues)
            && b.issues == if view == "" || view !in a.issues then a.issues else a.issues[view := EditedIssue(a.issues[view], edit)]
    ensures OthersKept(a, Optimistic(a, view, edit))
  {
    hide EditedIssue;
  }

  lemma RowInView(a: Tables, view: string, edit: Edit)
    requires edit.SetStatus? || edit.EditIssue?
    requires view in a.issues ==> var i, j := a.issues[view], EditedIssue(a.issues[view], edit); j.id == i.id && j.rest == i.rest
    ensures OnlyInView(a, Optimistic(a, view, edit), view)
  {
    OnlyThatRow(a, view, edit);
    hide EditedIssue, Optimistic, OthersKept;
  }

  /** The status, under its name and category. */
  predicate InStatus(status: Status, to: string) {
    && status.id == to
    && (to == "st_todo" ==> status.name == "To Do" && status.category == "new")
    && (to == "st_inprogress" ==> status.name == "In Progress" && status.category == "indeterminate")
    && (to == "st_done" ==> status.name == "Done" && status.category == "done")
    && (to !in {"st_todo", "st_inprogress", "st_done"} ==> status.name == to && status.category == "new")
  }

  lemma StatusIsSet(i: Issue, to: string)
    ensures var j := EditedIssue(i, SetStatus(to));
            InStatus(j.status, to) && j.summary == i.summary && j.description == i.description && j.id == i.id && j.rest == i.rest
  {
  }

  /** A transition shows the issue in view in its new status. */
  lemma StatusIsShown(s: State, request: Request, to: string)
    ensures var view := s.guard.view;
            var a, b := s.db.tables, Step(s, Enqueue(request, SetStatus(to))).db.tables;
            && OnlyInView(a, b, view)
            && (view in a.issues ==> b.issues[view].summary == a.issues[view].summary && b.issues[view].description == a.issues[view].description)
            && (view != "" && view in a.issues ==> InStatus(b.issues[view].status, to))
  {
    ShownAtOnce(s, request, SetStatus(to));
    hide Step, EditedIssue, InStatus, OthersKept;
    var a, view := s.db.tables, s.guard.view;
    if view in a.issues { StatusIsSet(a.issues[view], to); }
    RowInView(a, view, SetStatus(to));
    OnlyThatRow(a, view, SetStatus(to));
    hide Optimistic;
  }

  /** The new summary, unless it is empty; the new description, unless it is the one shown; and nothing else. */
  predicate Edits(i: Issue, j: Issue, summary: string, description: Option<string>) {
    && j.id == i.id && j.rest == i.rest && j.status == i.status
    && j.summary == (if summary == "" then i.summary else summary)
    && (description.None? ==> j.description == i.description)
    && (description.Some? ==>
          if StoredText(i.description) == description.value then j.description == i.description
          else StoredText(j.description) == TrimNewlines(description.value))
  }

  lemma IssueIsEdited(i: Issue, summary: string, description: Option<string>)
    ensures Edits(i, EditedIssue(i, EditIssue(summary, description)), summary, description)
  {
    hide StoredText, TrimNewlines, PlainDocument, PlainText;
    if description.Some? { PlainIsStored(description.value); }
  }

  /** An edit shows the issue in view edited. */
  lemma EditIsShown(s: State, request: Request, summary: string, description: Option<string>)
    ensures var view := s.guard.view;
            var a, b := s.db.tables, Step(s, Enqueue(request, EditIssue(summary, description))).db.tables;
            && OnlyInView(a, b, view)
            && (view != "" && view in a.issues ==> Edits(a.issues[view], b.issues[view], summary, description))
  {
    var a, view, edit := s.db.tables, s.guard.view, EditIssue(summary, description);
    ShownAtOnce(s, request, edit);
    hide Step, EditedIssue, Edits, OthersKept, OnlyInView;
    if view in a.issues {
      IssueIsEdited(a.issues[view], summary, description);
      EditsKeepId(a.issues[view], summary, description);
    }
    RowInView(a, view, edit);
    OnlyThatRow(a, view, edit);
    hide Optimistic;
  }

  lemma EditsKeepId(i: Issue, summary: string, description: Option<string>)
    ensures var j := EditedIssue(i, EditIssue(summary, description)); j.id == i.id && j.rest == i.rest
  {
    hide StoredText, PlainDocument;
  }

  lemma PlainIsStored(text: string)
    ensures StoredText(Document(PlainDocument(text))) == TrimNewlines(text)
  {
    hide PlainText, PlainDocument, TrimNewlines;
    PlainDocumentText(text);
  }

  /** A retry clears the refusal of the queue's first command, and changes nothing else. */
  lemma RetryClears(s: State)
    ensures var q, t := s.db.outbox, Step(s, RetryOutbox);
            && t.db.tables == s.db.tables && t.guard == s.guard && t.history == s.history
            && t.db.checkpoint == s.db.checkpoint && t.db.head == s.db.head && t.db.nextId == s.db.nextId
            && |t.db.outbox| == |q| && (forall i :: 0 < i < |q| ==> t.db.outbox[i] == q[i])
            && (q != [] ==> t.db.outbox[0].refused == 0 && t.db.outbox[0].id == q[0].id && t.db.outbox[0].request == q[0].request)
  {
  }

  /** Only the issue that is seen may be new among the rows, and those there were stay. */
  predicate OnlySeen(a: Tables, b: Tables, id: string) {
    && b.comments == a.comments && OthersKept(a, b)
    && (forall k :: k in a.issues ==> k in b.issues && b.issues[k] == a.issues[k])
    && (forall k :: k in b.issues ==> k in a.issues || k == id)
    && (id == "" ==> b == a)
  }

  lemma SeedRows(a: Tables, issue: Issue)
    ensures var b := Seeded(a, issue);
            && (forall k :: k in a.issues ==> k in b.issues && b.issues[k] == a.issues[k])
            && (forall k :: k in b.issues ==> k in a.issues || k == issue.id)
    ensures issue.id != "" ==> issue.id in Seeded(a, issue).issues
    ensures issue.id != "" && issue.id !in a.issues ==>
              Seeded(a, issue).issues[issue.id] == issue.(status := Status.Status("st_todo", "To Do", "new"))
  {
    var b := Seeded(a, issue);
    if issue.id != "" && issue.id !in a.issues {
      assert b.issues == a.issues[issue.id := issue.(status := Status.Status("st_todo", "To Do", "new"))];
    }
    hide Seeded;
  }

  lemma SeedTable(a: Tables, issue: Issue)
    ensures OnlySeen(a, Seeded(a, issue), issue.id)
  {
    SeedRows(a, issue);
    SeedOthers(a, issue);
    hide OthersKept, Seeded;
    if issue.id == "" { NothingSeeded(a, issue); }
  }

  lemma NothingSeeded(a: Tables, issue: Issue)
    requires issue.id == ""
    ensures Seeded(a, issue) == a
  {
  }

  lemma SeedOthers(a: Tables, issue: Issue)
    ensures var b := Seeded(a, issue); b.comments == a.comments && OthersKept(a, b)
  {
  }

  /** An issue that is shown before the replica has it is stored as to be done; one that it has stays as it is. */
  lemma SeedIsStored(s: State, issue: Issue)
    ensures var a, b := s.db.tables, Step(s, SeedView(issue)).db.tables;
            && OnlySeen(a, b, issue.id)
            && (issue.id != "" ==> issue.id in b.issues)
            && (issue.id != "" && issue.id !in a.issues ==>
                  var i := b.issues[issue.id];
                  && i.id == issue.id && i.summary == issue.summary && i.description == issue.description && i.rest == issue.rest
                  && i.status.id == "st_todo" && i.status.name == "To Do" && i.status.category == "new")
  {
    SeedTable(s.db.tables, issue);
    SeedRows(s.db.tables, issue);
    hide Seeded, OnlySeen;
    assert Step(s, SeedView(issue)).db.tables == Seeded(s.db.tables, issue);
    hide Step;
  }
}
