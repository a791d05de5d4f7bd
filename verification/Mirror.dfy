/** The replica holds what the actions it replayed say, but for the user's own edits. */
module Mirror {
  import opened Adf
  import opened Actions
  import opened ReplaySpec
  import opened Bootstrap
  import opened Worker
  import opened Protocol
  import opened Progress

  /** Issue rows agree, but for those changed locally since their last action. */
  predicate IssuesAgree(m: map<string, Issue>, touched: set<string>, u: map<string, Issue>) {
    && (forall k :: k in m && k !in touched ==> k in u && m[k] == u[k])
    && (forall k :: k in u && k !in touched ==> k in m)
  }

  /** The comments that are not the user's own, not yet answered by the server. */
  function Shared(m: map<string, Comment>): map<string, Comment> {
    map k | k in m && !m[k].local :: m[k]
  }

  datatype Sides = Sides(
    boards: map<string, string>,
    sprints: map<string, string>,
    sprintIssues: map<(string, string), string>,
    watchers: map<(string, string), ()>,
    notifications: map<string, string>)

  function SidesOf(t: Tables): Sides {
    Sides(t.boards, t.sprints, t.sprintIssues, t.watchers, t.notifications)
  }

  /** The tables agree with others, but for local edits. */
  predicate Agree(t: Tables, touched: set<string>, u: Tables) {
    && IssuesAgree(t.issues, touched, u.issues)
    && Shared(t.comments) == u.comments
    && t.attachments == u.attachments && t.worklogs == u.worklogs && t.links == u.links
    && SidesOf(t) == SidesOf(u)
  }

  ghost predicate Mirrors(s: State) {
    Agree(s.db.tables, s.history.touched, Replay(EMPTY, s.history.replayed))
  }

  // ---- replaying keeps the agreement ----

  lemma IssuesStep(m: map<string, Issue>, touched: set<string>, u: map<string, Issue>, a: Action)
    requires IssuesAgree(m, touched, u)
    ensures IssuesAgree(KeyedStep(PutIssue, ErasesIssue, m, a), touched - Settles(a), KeyedStep(PutIssue, ErasesIssue, u, a))
  {
    var m', u' := KeyedStep(PutIssue, ErasesIssue, m, a), KeyedStep(PutIssue, ErasesIssue, u, a);
    forall k | k !in Settles(a) ensures k in m' <==> k in m ensures k in u' <==> k in u
      ensures k in m ==> m'[k] == m[k] ensures k in u ==> u'[k] == u[k]
    {
    }
  }

  lemma SharedStep(m: map<string, Comment>, a: Action)
    ensures Shared(KeyedStep(PutComment, ErasesComment, m, a)) == KeyedStep(PutComment, ErasesComment, Shared(m), a)
  {
  }

  lemma SidesKept(t: Tables, a: Action)
    requires Removes(a).None? && !OffCore(a.change)
    ensures SidesOf(Effect(t, a)) == SidesOf(t)
  {
    hide Effect;
  }

  lemma SidesElsewhere(t: Tables, u: Tables, a: Action)
    requires SidesOf(t) == SidesOf(u)
    ensures SidesOf(Elsewhere(t, a)) == SidesOf(Elsewhere(u, a))
  {
    hide LinksAfter, BoardsAfter, SprintsAfter, SprintIssuesAfter, WatchersAfter, NotificationsAfter;
  }

  lemma EffectElsewhere(t: Tables, a: Action)
    requires OffCore(a.change)
    ensures Effect(t, a) == if Fails(a.change) then t else Elsewhere(t, a)
  {
    hide Elsewhere;
  }

  lemma SidesStep(t: Tables, u: Tables, a: Action)
    requires SidesOf(t) == SidesOf(u)
    ensures SidesOf(Effect(t, a)) == SidesOf(Effect(u, a))
  {
    hide Effect, Elsewhere;
    if Removes(a).Some? {
      RemovalEffect(t, a);
      RemovalEffect(u, a);
    } else if OffCore(a.change) {
      EffectElsewhere(t, a);
      EffectElsewhere(u, a);
      SidesElsewhere(t, u, a);
    } else {
      SidesKept(t, a);
      SidesKept(u, a);
    }
  }

  lemma EffectAgrees(t: Tables, touched: set<string>, u: Tables, a: Action)
    requires Agree(t, touched, u)
    ensures Agree(Effect(t, a), touched - Settles(a), Effect(u, a))
  {
    hide Effect, KeyedStep, IssuesAgree, Shared, SidesOf, Settles;
    IssueStep(t, a);
    IssueStep(u, a);
    IssuesStep(t.issues, touched, u.issues, a);
    CommentStep(t, a);
    CommentStep(u, a);
    SharedStep(t.comments, a);
    AttachmentStep(t, a);
    AttachmentStep(u, a);
    WorklogStep(t, a);
    WorklogStep(u, a);
    LinkStep(t, a);
    LinkStep(u, a);
    SidesStep(t, u, a);
  }

  lemma {:induction false} ReplayAgrees(t: Tables, touched: set<string>, u: Tables, log: seq<Action>)
    requires Agree(t, touched, u)
    ensures Agree(Replay(t, log), TouchedAfter(touched, log), Replay(u, log))
  {
    hide Effect, Agree, Settles;
    if log != [] {
      var n := |log| - 1;
      ReplayAgrees(t, touched, u, log[..n]);
      EffectAgrees(Replay(t, log[..n]), TouchedAfter(touched, log[..n]), Replay(u, log[..n]), log[n]);
    }
  }

  // ---- local edits keep the agreement ----

  lemma EditAgrees(t: Tables, touched: set<string>, u: Tables, view: string, edit: Edit)
    requires Agree(t, touched, u) && !Collides(t, view, edit)
    ensures Agree(Optimistic(t, view, edit), touched + Touches(t, view, edit), u)
  {
    hide EditedIssue, IssuesAgree, Shared, SidesOf;
    if view != "" && edit.AddComment? {
      OwnCommentShared(t.comments, edit.id, Comment(edit.id, view, edit.content, true));
      SidesUntouched(t, Optimistic(t, view, edit));
      assert Touches(t, view, edit) == {} && touched + {} == touched;
    } else if Touches(t, view, edit) != {} {
      EditedIssueAgrees(t.issues, touched, u.issues, view, EditedIssue(t.issues[view], edit));
      SidesUntouched(t, Optimistic(t, view, edit));
    } else {
      assert touched + {} == touched;
    }
  }

  lemma SidesUntouched(t: Tables, s: Tables)
    requires t.boards == s.boards && t.sprints == s.sprints && t.sprintIssues == s.sprintIssues
    requires t.watchers == s.watchers && t.notifications == s.notifications
    ensures SidesOf(t) == SidesOf(s)
  {
  }

  lemma OwnCommentShared(m: map<string, Comment>, id: string, c: Comment)
    requires id !in m && c.local
    ensures Shared(m[id := c]) == Shared(m)
  {
  }

  lemma EditedIssueAgrees(m: map<string, Issue>, touched: set<string>, u: map<string, Issue>, id: string, i: Issue)
    requires IssuesAgree(m, touched, u)
    ensures IssuesAgree(m[id := i], touched + {id}, u)
  {
  }

  lemma SeedAgrees(t: Tables, touched: set<string>, u: Tables, issue: Issue)
    requires Agree(t, touched, u)
    ensures Agree(Seeded(t, issue),
                  if issue.id == "" || issue.id in t.issues then touched else touched + {issue.id}, u)
  {
    hide Shared;
  }

  // ---- every step of the worker keeps it ----

  lemma AdvanceMirrors(s: State, log: seq<Action>, checkpoint: nat, head: nat)
    requires Mirrors(s)
    ensures Mirrors(Advance(s, log, checkpoint, head))
  {
    hide Replay, Agree, TouchedAfter;
    ReplayAgrees(s.db.tables, s.history.touched, Replay(EMPTY, s.history.replayed), log);
    ReplayConcat(EMPTY, s.history.replayed, log);
  }

  lemma SyncedMirrors(s: State, since: nat, r: Reply)
    requires Mirrors(s)
    ensures Mirrors(Synced(s, since, r).state)
  {
    hide Acceptable, Advance;
    if r.Response? && r.body.PageBody? && Acceptable(r.body.page, since) {
      AdvanceMirrors(s, r.body.page.actions, r.body.page.to, r.body.page.head);
    }
    assert Mirrors(Purge(s));
  }

  lemma ResumeMirrors(s: State, p: Pass, r: Reply)
    requires Mirrors(s)
    ensures Mirrors(Resume(s, p, r))
  {
    hide Synced, NextDrain, Finish, Drained, Advance, Agree, Replay, SnapshotActions;
    if p.BootstrapWait? {
      if Bootstrapped(s, r) != s {
        var n := r.body.snapshot.head;
        AdvanceMirrors(s, SnapshotActions(r.body.snapshot), n, n);
      }
    } else if !p.DrainWait? {
      SyncedMirrors(s, p.since, r);
    }
  }

  lemma StepMirrors(s: State, e: Event)
    requires Mirrors(s)
    ensures Mirrors(Step(s, e))
  {
    hide Begin, Resume, Agree, Replay, Optimistic, Seeded, Touches, Collides;
    if e.Replied? && e.k < |s.guard.passes| {
      var t := s.(guard := s.guard.(passes := s.guard.passes[..e.k] + s.guard.passes[e.k + 1..]));
      ResumeMirrors(t, s.guard.passes[e.k], e.reply);
    } else if e.Enqueue? && !Collides(s.db.tables, s.guard.view, e.edit) {
      EditAgrees(s.db.tables, s.history.touched, Replay(EMPTY, s.history.replayed), s.guard.view, e.edit);
    } else if e.SeedView? {
      SeedAgrees(s.db.tables, s.history.touched, Replay(EMPTY, s.history.replayed), e.issue);
    }
  }

  /**
   * In every run of page syncs, roll-backs, bootstraps, edits, drains and seeded views, with any
   * server, the replica holds what the actions replayed since the last purge say: each issue row
   * with no local change since its last action, each comment that is not the user's own, and all of
   * every other table.
   */
  lemma {:induction false} RunMirrors(events: seq<Event>)
    ensures Mirrors(Run(START, events))
  {
    if events != [] {
      hide Step, Mirrors;
      RunMirrors(events[..|events| - 1]);
      StepMirrors(Run(START, events[..|events| - 1]), events[|events| - 1]);
    }
  }

  // ---- with a server that keeps to one log ----

  /** The log's actions are numbered upwards from above `last`. */
  predicate Ordered(log: seq<Action>, last: int) {
    log == [] || (last < log[0].number && Ordered(log[1..], log[0].number))
  }

  /** The actions numbered above `lo`, up to `hi`. */
  function Between(log: seq<Action>, lo: int, hi: int): seq<Action> {
    if log == [] then []
    else (if lo < log[0].number <= hi then [log[0]] else []) + Between(log[1..], lo, hi)
  }

  lemma {:induction false} BetweenNone(log: seq<Action>, last: int, lo: int, hi: int)
    requires Ordered(log, last) && hi <= last
    ensures Between(log, lo, hi) == []
  {
    if log != [] { BetweenNone(log[1..], log[0].number, lo, hi); }
  }

  /** Pages that follow one another join up. */
  lemma {:induction false} BetweenJoins(log: seq<Action>, last: int, lo: int, mid: int, hi: int)
    requires Ordered(log, last) && lo <= mid <= hi
    ensures Between(log, lo, mid) + Between(log, mid, hi) == Between(log, lo, hi)
  {
    if log != [] {
      var n := log[0].number;
      if mid < n {
        BetweenNone(log[1..], n, lo, mid);
      }
      BetweenJoins(log[1..], n, lo, mid, hi);
    }
  }

  /** The tables that the log's actions up to a number make. */
  function Authority(log: seq<Action>, upTo: int): Tables {
    Replay(EMPTY, Between(log, 0, upTo))
  }

  /** An answer keeps to the log: its page is the log's, or its snapshot is of the log's tables. */
  ghost predicate Serves(log: seq<Action>, r: Reply) {
    r.Response? ==>
      && (r.body.PageBody? ==> r.body.page.actions == Between(log, r.body.page.from, r.body.page.to))
      && (r.body.SnapshotBody? ==> SnapshotOf(r.body.snapshot, Authority(log, r.body.snapshot.head)))
  }

  ghost predicate Served(log: seq<Action>, events: seq<Event>) {
    forall e :: e in events && e.Replied? ==> Serves(log, e.reply)
  }

  /** What was replayed leaves the rows that the log up to the checkpoint makes. */
  ghost predicate Faithful(log: seq<Action>, s: State) {
    CoreOf(Replay(EMPTY, s.history.replayed)) == CoreOf(Authority(log, s.db.checkpoint))
  }

  lemma PageFaithful(log: seq<Action>, s: State, page: Page)
    requires Ordered(log, 0) && Faithful(log, s)
    requires page.from == s.db.checkpoint && page.from <= page.to && page.actions == Between(log, page.from, page.to)
    ensures CoreOf(Replay(EMPTY, s.history.replayed + page.actions)) == CoreOf(Authority(log, page.to))
  {
    hide Replay, CoreOf, Between;
    var past := Between(log, 0, s.db.checkpoint);
    BetweenJoins(log, 0, 0, page.from, page.to);
    ReplayConcat(EMPTY, s.history.replayed, page.actions);
    ReplayConcat(EMPTY, past, page.actions);
    ReplayOfCore(Replay(EMPTY, s.history.replayed), Replay(EMPTY, past), page.actions);
  }

  lemma SyncedFaithful(log: seq<Action>, s: State, since: nat, r: Reply)
    requires Ordered(log, 0) && Faithful(log, s) && Serves(log, r) && since == s.db.checkpoint
    ensures Faithful(log, Synced(s, since, r).state)
  {
    hide Replay, CoreOf, InOrder, TouchedAfter, SnapshotOf, Between;
    if r.Response? && r.body.PageBody? && Acceptable(r.body.page, since) {
      PageFaithful(log, s, r.body.page);
    }
    assert Faithful(log, Purge(s)) by { BetweenNone(log, 0, 0, 0); }
  }

  lemma SnapshotFaithful(log: seq<Action>, s: State, snapshot: Snapshot)
    requires Ordered(log, 0) && Faithful(log, s) && s.db.checkpoint == 0
    requires SnapshotOf(snapshot, Authority(log, snapshot.head))
    ensures Faithful(log, Advance(s, SnapshotActions(snapshot), snapshot.head, snapshot.head))
  {
    assert Replay(EMPTY, []) == EMPTY;
    hide Replay, CoreOf, SnapshotOf, SnapshotActions, TouchedAfter;
    BetweenNone(log, 0, 0, 0);
    SnapshotInstalls(snapshot, Replay(EMPTY, s.history.replayed), Between(log, 0, snapshot.head));
    ReplayConcat(EMPTY, s.history.replayed, SnapshotActions(snapshot));
  }

  lemma ResumeFaithful(log: seq<Action>, s: State, p: Pass, r: Reply)
    requires Ordered(log, 0) && Faithful(log, s) && Serves(log, r) && Waiting(s, p)
    ensures Faithful(log, Resume(s, p, r))
  {
    hide Synced, NextDrain, Finish, Drained, Advance, Replay, CoreOf, SnapshotActions, SnapshotOf, Between;
    if p.BootstrapWait? {
      if Bootstrapped(s, r) != s { SnapshotFaithful(log, s, r.body.snapshot); }
    } else if !p.DrainWait? {
      SyncedFaithful(log, s, p.since, r);
    }
  }

  lemma StepFaithful(log: seq<Action>, s: State, e: Event)
    requires Ordered(log, 0) && Faithful(log, s) && Invariant(s) && (e.Replied? ==> Serves(log, e.reply))
    ensures Faithful(log, Step(s, e))
  {
    hide Begin, Resume, Replay, CoreOf, Authority, Sound, Waiting;
    if e.Replied? && e.k < |s.guard.passes| {
      Resumes(s, e.k, e.reply);
      ResumeFaithful(log, s.(guard := s.guard.(passes := [])), s.guard.passes[0], e.reply);
    }
  }

  lemma {:induction false} RunFaithful(log: seq<Action>, events: seq<Event>)
    requires Ordered(log, 0) && Served(log, events)
    ensures Faithful(log, Run(START, events))
  {
    if events == [] {
      BetweenNone(log, 0, 0, 0);
    } else {
      hide Step, Faithful, Serves, Invariant;
      var before := events[..|events| - 1];
      RunFaithful(log, before);
      RunKeeps(before);
      StepFaithful(log, Run(START, before), events[|events| - 1]);
    }
  }

  /**
   * With a server that answers from one log, in every run, the replica holds what the log up to its
   * checkpoint says: each issue row with no local change since its last action, each comment that is
   * not the user's own, and every attachment and worklog. How the log was cut into pages, which of
   * them were rolled back, and whether a snapshot stood in for the first of them, does not matter.
   */
  lemma ReplicaIsTheLog(log: seq<Action>, events: seq<Event>)
    requires Ordered(log, 0) && Served(log, events)
    ensures var s := Run(START, events);
            var authority := Authority(log, s.db.checkpoint);
            && IssuesAgree(s.db.tables.issues, s.history.touched, authority.issues)
            && Shared(s.db.tables.comments) == authority.comments
            && s.db.tables.attachments == authority.attachments
            && s.db.tables.worklogs == authority.worklogs
  {
    hide Run, Replay, IssuesAgree, Shared, SidesOf, Served;
    RunMirrors(events);
    RunFaithful(log, events);
  }

  // ---- without a snapshot, every table is the log's ----

  /** What was replayed is the log up to the checkpoint. */
  predicate Exact(log: seq<Action>, s: State) {
    s.history.replayed == Between(log, 0, s.db.checkpoint)
  }

  lemma SyncedExact(log: seq<Action>, s: State, since: nat, r: Reply)
    requires Ordered(log, 0) && Exact(log, s) && Serves(log, r) && since == s.db.checkpoint
    ensures Exact(log, Synced(s, since, r).state)
  {
    hide Replay, InOrder, TouchedAfter, SnapshotOf, Between, Authority;
    if r.Response? && r.body.PageBody? && Acceptable(r.body.page, since) {
      BetweenJoins(log, 0, 0, since, r.body.page.to);
    }
    assert Exact(log, Purge(s)) by { BetweenNone(log, 0, 0, 0); }
  }

  lemma StepExact(log: seq<Action>, s: State, e: Event)
    requires Ordered(log, 0) && Exact(log, s) && Invariant(s)
    requires e.Replied? ==> Serves(log, e.reply) && (e.reply.Response? ==> !e.reply.body.SnapshotBody?)
    ensures Exact(log, Step(s, e))
  {
    hide Begin, Sound, Synced, NextDrain, Finish, Drained, Advance, Replay, Serves, Between;
    if e.Replied? && e.k < |s.guard.passes| {
      Resumes(s, e.k, e.reply);
      hide Step;
      var t, p := s.(guard := s.guard.(passes := [])), s.guard.passes[0];
      if p.SyncWait? || p.FinalSyncWait? { SyncedExact(log, t, p.since, e.reply); }
    }
  }

  lemma {:induction false} RunExact(log: seq<Action>, events: seq<Event>)
    requires Ordered(log, 0) && Served(log, events)
    requires forall e :: e in events && e.Replied? && e.reply.Response? ==> !e.reply.body.SnapshotBody?
    ensures Exact(log, Run(START, events))
  {
    if events == [] {
      BetweenNone(log, 0, 0, 0);
    } else {
      hide Step, Exact, Serves, Invariant;
      var before := events[..|events| - 1];
      RunExact(log, before);
      RunKeeps(before);
      StepExact(log, Run(START, before), events[|events| - 1]);
    }
  }

  /**
   * A replica that was never given a snapshot holds all that the log up to its checkpoint says, links,
   * boards, sprints, watchers and notifications with the rest, but for the user's own edits.
   */
  lemma EveryTableIsTheLog(log: seq<Action>, events: seq<Event>)
    requires Ordered(log, 0) && Served(log, events)
    requires forall e :: e in events && e.Replied? && e.reply.Response? ==> !e.reply.body.SnapshotBody?
    ensures var s := Run(START, events);
            Agree(s.db.tables, s.history.touched, Authority(log, s.db.checkpoint))
  {
    hide Run, Replay, Agree, Served;
    RunMirrors(events);
    RunExact(log, events);
  }
}
