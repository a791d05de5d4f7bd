/**
 * The replica worker as a machine whose steps are the stretches of code between network waits: a
 * message handler, or the continuation of a maintenance pass when its request is answered.
 */
module Worker {
  import opened Adf
  import opened Actions
  import opened Bootstrap

  // ---- what a response means ----

  datatype OutboxDisposition = OutboxRetry | OutboxAccepted | OutboxRejected

  function DispositionForStatus(status: int): OutboxDisposition {
    if 200 <= status < 300 then OutboxAccepted
    else if status == 408 || status == 425 || status == 429 || status >= 500 then OutboxRetry
    else if 400 <= status < 500 then OutboxRejected
    else OutboxRetry
  }

  datatype SyncDisposition = SyncRetry | SyncAccepted | SyncRevoked

  function DispositionForSyncStatus(status: int): SyncDisposition {
    if status == 200 || status == 304 then SyncAccepted
    else if status == 401 || status == 403 then SyncRevoked
    else SyncRetry
  }

  /** A page of the action log, as the server describes it. */
  datatype Page = Page(from: int, to: int, head: int, actions: seq<Action>)

  datatype Body = NoBody | PageBody(page: Page) | SnapshotBody(snapshot: Snapshot)

  datatype Reply = Failed | Response(status: int, body: Body)

  // ---- the worker's state ----

  /** What a command sends, and whether a request can be built from it at all. */
  datatype Request = Request(text: string, sendable: bool)

  /** A queued command; its refused status is 0 until the server rejects it. */
  datatype Command = Command(id: nat, request: Request, refused: int)

  datatype Database = Database(tables: Tables, checkpoint: nat, head: nat, outbox: seq<Command>, nextId: nat)

  /** The request a maintenance pass waits for, with the local variables it will go on with. */
  datatype Pass =
    | BootstrapWait(drainAll: bool)
    | SyncWait(drainAll: bool, since: nat)
    | DrainWait(drainAll: bool, id: nat, size: nat, drained: bool)
    | FinalSyncWait(since: nat)

  datatype Guard = Guard(view: string, online: bool, busy: bool, pending: bool, passes: seq<Pass>)

  datatype Entry = Entry(id: nat, request: Request)

  /**
   * What has happened since the last purge: the actions replayed, the issues changed locally since
   * their last action, the commands queued, sent and accepted; and, purges or not, how many passes
   * have begun with the order to drain the whole outbox.
   */
  datatype History = History(
    replayed: seq<Action>,
    touched: set<string>,
    enqueued: seq<Entry>,
    accepted: seq<Entry>,
    sent: seq<Entry>,
    fullPasses: nat)

  datatype State = State(db: Database, guard: Guard, history: History)

  const START := State(Database(EMPTY, 0, 0, [], 1),
                       Guard("", true, false, false, []),
                       History([], {}, [], [], [], 0))

  // ---- local edits ----

  datatype Edit =
    | NoEdit
    | AddComment(id: string, content: string)
    | SetStatus(to: string)
    | EditIssue(summary: string, description: Option<string>)

  function StatusName(id: string): string {
    if id == "st_todo" then "To Do"
    else if id == "st_inprogress" then "In Progress"
    else if id == "st_done" then "Done"
    else id
  }

  function StatusCategory(id: string): string {
    if id == "st_todo" then "new"
    else if id == "st_inprogress" then "indeterminate"
    else if id == "st_done" then "done"
    else "new"
  }

  function EditedIssue(i: Issue, edit: Edit): Issue {
    match edit
    case SetStatus(to) => i.(status := Status.Status(to, StatusName(to), StatusCategory(to)))
    case EditIssue(summary, description) =>
      var j := if summary != "" then i.(summary := summary) else i;
      if description.Some? && StoredText(i.description) != description.value
      then j.(description := Document(PlainDocument(description.value))) else j
    case _ => i
  }

  /**
   * A form that submits a description as it was shown keeps the stored one, with all its structure;
   * any other text is stored plainly, and then shown but for line ends at its end.
   */
  lemma DescriptionEdited(i: Issue, summary: string, text: string)
    ensures var j := EditedIssue(i, EditIssue(summary, Some(text)));
            && (text == StoredText(i.description) ==> j.description == i.description)
            && (text != StoredText(i.description) ==> StoredText(j.description) == TrimNewlines(text))
            && EditedIssue(j, EditIssue(summary, Some(text))) == j
  {
    hide TrimNewlines, PlainText;
    PlainDocumentText(text);
  }

  /** A comment cannot be added under an id already taken: the whole command is then rolled back. */
  predicate Collides(t: Tables, view: string, edit: Edit) {
    view != "" && edit.AddComment? && edit.id in t.comments
  }

  function Optimistic(t: Tables, view: string, edit: Edit): Tables {
    if view == "" || edit.NoEdit? then t
    else if edit.AddComment? then t.(comments := t.comments[edit.id := Comment(edit.id, view, edit.content, true)])
    else if view in t.issues then t.(issues := t.issues[view := EditedIssue(t.issues[view], edit)])
    else t
  }

  /** The issues a local edit changes. */
  function Touches(t: Tables, view: string, edit: Edit): set<string> {
    if view != "" && (edit.SetStatus? || edit.EditIssue?) && view in t.issues then {view} else {}
  }

  function Seeded(t: Tables, issue: Issue): Tables {
    if issue.id == "" || issue.id in t.issues then t
    else t.(issues := t.issues[issue.id := issue.(status := Status.Status("st_todo", "To Do", "new"))])
  }

  // ---- replaying pages ----

  /** The issues whose rows an action makes authoritative again. */
  function Settles(a: Action): set<string> {
    if a.change.OnIssue? && a.change.issue.Upsert? then
      if a.change.issue.row.id == "" then {} else {a.change.issue.row.id}
    else if Removes(a).Some? then {Removes(a).value}
    else {}
  }

  function TouchedAfter(touched: set<string>, log: seq<Action>): set<string> {
    if log == [] then touched else TouchedAfter(touched, log[..|log| - 1]) - Settles(log[|log| - 1])
  }

  /** Each action is numbered above the last, from `since` up to `to`, and none fails. */
  predicate InOrder(log: seq<Action>, since: int, to: int) {
    log == [] ||
    (&& since < log[0].number <= to
     && !Fails(log[0].change)
     && InOrder(log[1..], log[0].number, to))
  }

  predicate Acceptable(page: Page, since: int): (acceptable: bool)
    ensures acceptable ==> since <= page.to <= page.head
  {
    page.from == since && since <= page.to <= page.head && InOrder(page.actions, since, page.to)
  }

  /** Replay actions and move the checkpoint, in one transaction. */
  function Advance(s: State, log: seq<Action>, checkpoint: nat, head: nat): State {
    s.(db := s.db.(tables := Replay(s.db.tables, log), checkpoint := checkpoint, head := head),
       history := s.history.(replayed := s.history.replayed + log,
                             touched := TouchedAfter(s.history.touched, log)))
  }

  function Purge(s: State): State {
    s.(db := s.db.(tables := EMPTY, checkpoint := 0, head := 0, outbox := []),
       history := History([], {}, [], [], [], s.history.fullPasses))
  }

  datatype Outcome = Outcome(state: State, disposition: SyncDisposition)

  function Synced(s: State, since: nat, r: Reply): Outcome {
    if r.Failed? then Outcome(s, SyncRetry)
    else if r.status == 304 then Outcome(s, SyncAccepted)
    else if DispositionForSyncStatus(r.status).SyncRevoked? then Outcome(Purge(s), SyncRevoked)
    else if r.status != 200 || !r.body.PageBody? || !Acceptable(r.body.page, since) then Outcome(s, SyncRetry)
    else Outcome(Advance(s, r.body.page.actions, r.body.page.to, r.body.page.head), SyncAccepted)
  }

  function Bootstrapped(s: State, r: Reply): State {
    if r.Response? && r.status == 200 && r.body.SnapshotBody? then
      Advance(s, SnapshotActions(r.body.snapshot), r.body.snapshot.head, r.body.snapshot.head)
    else s
  }

  // ---- maintenance passes ----

  /** Wait for an answer: the worker's event loop runs on. */
  function Await(s: State, pass: Pass): State {
    s.(guard := s.guard.(passes := s.guard.passes + [pass]))
  }

  /** A pass begins, and ends at once when the network is known to be off. */
  function Begin(s: State, drainAll: bool): (t: State)
    ensures t.db == s.db && t.history == s.history.(fullPasses := t.history.fullPasses)
  {
    var s := s.(guard := s.guard.(pending := false),
                history := if drainAll then s.history.(fullPasses := s.history.fullPasses + 1) else s.history);
    if !s.guard.online then s.(guard := s.guard.(busy := false))
    else if s.db.checkpoint == 0 && s.db.tables.issues == map[] then Await(s, BootstrapWait(drainAll))
    else Await(s, SyncWait(drainAll, s.db.checkpoint))
  }

  /** A pass ends; one that was asked for meanwhile follows it, and drains the whole outbox. */
  function Finish(s: State): (t: State)
    ensures t.db == s.db && t.history == s.history.(fullPasses := t.history.fullPasses)
  {
    if s.guard.pending then Begin(s, true) else s.(guard := s.guard.(busy := false))
  }

  /** After draining, what was accepted is fetched back. */
  function AfterDrain(s: State, drained: bool): (t: State)
    ensures t.db == s.db && t.history == s.history.(fullPasses := t.history.fullPasses)
  {
    if drained then Await(s, FinalSyncWait(s.db.checkpoint)) else Finish(s)
  }

  /** Whether the head of the outbox can be sent. */
  predicate Ready(outbox: seq<Command>) {
    outbox != [] && outbox[0].refused == 0 && outbox[0].request.sendable
  }

  function NextDrain(s: State, drainAll: bool, drained: bool): (t: State)
    ensures t.db == s.db.(outbox := t.db.outbox)
    ensures t.history == s.history.(sent := t.history.sent, accepted := t.history.accepted, fullPasses := t.history.fullPasses)
  {
    if !Ready(s.db.outbox) then AfterDrain(s, drained)
    else
      var head := s.db.outbox[0];
      Await(s.(history := s.history.(sent := s.history.sent + [Entry(head.id, head.request)])),
            DrainWait(drainAll, head.id, |s.db.outbox|, drained))
  }

  function WithoutCommand(outbox: seq<Command>, id: nat): seq<Command> {
    if outbox == [] then []
    else if outbox[0].id == id then WithoutCommand(outbox[1..], id)
    else [outbox[0]] + WithoutCommand(outbox[1..], id)
  }

  function Refused(outbox: seq<Command>, id: nat, status: int): seq<Command> {
    if outbox == [] then []
    else [if outbox[0].id == id then outbox[0].(refused := status) else outbox[0]] + Refused(outbox[1..], id, status)
  }

  function EntriesOf(outbox: seq<Command>, id: nat): seq<Entry> {
    if outbox == [] then []
    else (if outbox[0].id == id then [Entry(id, outbox[0].request)] else []) + EntriesOf(outbox[1..], id)
  }

  function Drained(s: State, p: Pass, r: Reply): (t: State)
    requires p.DrainWait?
    ensures t.db == s.db.(outbox := t.db.outbox)
    ensures t.history == s.history.(sent := t.history.sent, accepted := t.history.accepted, fullPasses := t.history.fullPasses)
  {
    if r.Failed? then AfterDrain(s, p.drained)
    else
      match DispositionForStatus(r.status)
      case OutboxAccepted =>
        var t := s.(db := s.db.(outbox := WithoutCommand(s.db.outbox, p.id)),
                    history := s.history.(accepted := s.history.accepted + EntriesOf(s.db.outbox, p.id)));
        if p.drainAll && p.size != 1 then NextDrain(t, true, true) else AfterDrain(t, true)
      case OutboxRejected =>
        AfterDrain(s.(db := s.db.(outbox := Refused(s.db.outbox, p.id, r.status))), p.drained)
      case OutboxRetry => AfterDrain(s, p.drained)
  }

  /** A pass, taken out of those waiting, goes on with the answer to its request. */
  function Resume(s: State, p: Pass, r: Reply): State {
    match p
    case BootstrapWait(drainAll) =>
      var t := Bootstrapped(s, r);
      Await(t, SyncWait(drainAll, t.db.checkpoint))
    case SyncWait(drainAll, since) =>
      var o := Synced(s, since, r);
      if o.disposition.SyncAccepted? then NextDrain(o.state, drainAll, false) else Finish(o.state)
    case DrainWait(_, _, _, _) => Drained(s, p, r)
    case FinalSyncWait(since) => Finish(Synced(s, since, r).state)
  }

  // ---- events ----

  datatype Event =
    | Maintain(drainAll: bool)
    | Replied(k: nat, reply: Reply)
    | Enqueue(request: Request, edit: Edit)
    | RetryOutbox
    | SeedView(issue: Issue)
    | View(id: string)
    | Network(online: bool)

  function Enqueued(s: State, request: Request, edit: Edit): (t: State)
    ensures t.guard == s.guard && t.history.fullPasses == s.history.fullPasses
  {
    if Collides(s.db.tables, s.guard.view, edit) then s
    else
      s.(db := s.db.(tables := Optimistic(s.db.tables, s.guard.view, edit),
                     outbox := s.db.outbox + [Command(s.db.nextId, request, 0)],
                     nextId := s.db.nextId + 1),
         history := s.history.(enqueued := s.history.enqueued + [Entry(s.db.nextId, request)],
                               touched := s.history.touched + Touches(s.db.tables, s.guard.view, edit)))
  }

  function Retried(s: State): State {
    if s.db.outbox == [] then s
    else s.(db := s.db.(outbox := [s.db.outbox[0].(refused := 0)] + s.db.outbox[1..]))
  }

  function SeededView(s: State, issue: Issue): State {
    s.(db := s.db.(tables := Seeded(s.db.tables, issue)),
       history := s.history.(touched :=
         if issue.id == "" || issue.id in s.db.tables.issues then s.history.touched else s.history.touched + {issue.id}))
  }

  function Step(s: State, e: Event): State {
    match e
    case Maintain(drainAll) =>
      if s.guard.busy then s.(guard := s.guard.(pending := true))
      else Begin(s.(guard := s.guard.(busy := true)), drainAll)
    case Replied(k, r) =>
      if k >= |s.guard.passes| then s
      else Resume(s.(guard := s.guard.(passes := s.guard.passes[..k] + s.guard.passes[k + 1..])), s.guard.passes[k], r)
    case Enqueue(request, edit) => Enqueued(s, request, edit)
    case RetryOutbox => Retried(s)
    case SeedView(issue) => SeededView(s, issue)
    case View(id) => s.(guard := s.guard.(view := id))
    case Network(online) => s.(guard := s.guard.(online := online))
  }

  function Run(s: State, events: seq<Event>): State {
    if events == [] then s else Step(Run(s, events[..|events| - 1]), events[|events| - 1])
  }
}
