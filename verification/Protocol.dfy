/** What every step of the worker keeps, whatever the server answers and whatever the user does. */
module Protocol {
  import opened Actions
  import opened Worker
  import opened Outbox

  /** What holds while a pass waits for an answer. */
  ghost predicate Waiting(s: State, p: Pass) {
    match p
    case BootstrapWait(_) => s.db.checkpoint == 0
    case SyncWait(_, since) => since == s.db.checkpoint
    case DrainWait(_, id, _, _) =>
      HeadSent(s.db.outbox, s.history) && s.db.outbox[0].id == id && s.db.outbox[0].refused == 0
    case FinalSyncWait(since) => since == s.db.checkpoint
  }

  /** A pass is running: it is no longer waiting, and not yet waiting again. */
  predicate Running(s: State) {
    s.guard.busy && s.guard.passes == []
  }

  /** Exactly one pass waits while the guard is held, and none otherwise. */
  ghost predicate Flight(s: State) {
    if s.guard.busy then |s.guard.passes| == 1 && Waiting(s, s.guard.passes[0])
    else s.guard.passes == [] && !s.guard.pending
  }

  ghost predicate Sound(s: State) {
    Queued(s.db.outbox, s.db.nextId, s.history) && s.db.checkpoint <= s.db.head
  }

  ghost predicate Invariant(s: State) {
    Sound(s) && Flight(s)
  }

  lemma BeginKeeps(s: State, drainAll: bool)
    requires Running(s) && Sound(s)
    ensures Invariant(Begin(s, drainAll))
  {
    hide Increasing, Collapse, Entries;
  }

  lemma SoundWhateverGuard(s: State, guard: Guard)
    requires Sound(s)
    ensures Sound(s.(guard := guard))
    ensures forall p :: Waiting(s, p) ==> Waiting(s.(guard := guard), p)
  {
    hide Increasing, Collapse, Entries;
  }

  lemma FinishKeeps(s: State)
    requires Running(s) && Sound(s)
    ensures Invariant(Finish(s))
  {
    hide Begin, Sound;
    if s.guard.pending { BeginKeeps(s, true); }
    else { SoundWhateverGuard(s, s.guard.(busy := false)); }
  }

  lemma AfterDrainKeeps(s: State, drained: bool)
    requires Running(s) && Sound(s)
    ensures Invariant(AfterDrain(s, drained))
  {
    hide Finish, Queued;
    if !drained { FinishKeeps(s); }
  }

  lemma NextDrainKeeps(s: State, drainAll: bool, drained: bool)
    requires Running(s) && Sound(s)
    ensures Invariant(NextDrain(s, drainAll, drained))
  {
    hide AfterDrain, Queued, HeadSent;
    if Ready(s.db.outbox) {
      Sending(s.db.outbox, s.db.nextId, s.history);
    } else {
      AfterDrainKeeps(s, drained);
    }
  }

  lemma DrainedKeeps(s: State, p: Pass, r: Reply)
    requires p.DrainWait? && Running(s) && Sound(s) && Waiting(s, p)
    ensures Invariant(Drained(s, p, r))
  {
    hide AfterDrain, NextDrain, Queued, Invariant, WithoutCommand, EntriesOf, Refused, Collapse;
    var q := s.db.outbox;
    if r.Failed? || DispositionForStatus(r.status).OutboxRetry? {
      AfterDrainKeeps(s, p.drained);
    } else {
      HeadById(q, s.db.nextId, s.history, r.status);
      if DispositionForStatus(r.status).OutboxAccepted? {
        Accepting(q, s.db.nextId, s.history);
        var t := s.(db := s.db.(outbox := q[1..]), history := s.history.(accepted := s.history.accepted + [EntryOf(q[0])]));
        if p.drainAll && p.size != 1 { NextDrainKeeps(t, true, true); } else { AfterDrainKeeps(t, true); }
      } else {
        Refusing(q, s.db.nextId, s.history, r.status);
        AfterDrainKeeps(s.(db := s.db.(outbox := [q[0].(refused := r.status)] + q[1..])), p.drained);
      }
    }
  }

  lemma AdvanceKeeps(s: State, log: seq<Action>, checkpoint: nat, head: nat)
    requires Sound(s) && checkpoint <= head
    ensures Sound(Advance(s, log, checkpoint, head)) && Advance(s, log, checkpoint, head).guard == s.guard
  {
    hide Collapse, Increasing, Entries, Replay;
  }

  lemma PurgeKeeps(s: State)
    ensures Sound(Purge(s))
  {
  }

  lemma SyncedKeeps(s: State, since: nat, r: Reply)
    requires Running(s) && Sound(s)
    ensures Running(Synced(s, since, r).state) && Sound(Synced(s, since, r).state)
  {
    hide Sound, Acceptable;
    if r.Response? && r.body.PageBody? && Acceptable(r.body.page, since) {
      AdvanceKeeps(s, r.body.page.actions, r.body.page.to, r.body.page.head);
    }
    PurgeKeeps(s);
  }

  lemma ResumeKeeps(s: State, p: Pass, r: Reply)
    requires Running(s) && Sound(s) && Waiting(s, p)
    ensures Invariant(Resume(s, p, r))
  {
    hide Synced, NextDrain, Finish, Drained, Queued, Advance;
    if p.BootstrapWait? {
      if Bootstrapped(s, r) != s {
        var n := r.body.snapshot.head;
        AdvanceKeeps(s, Bootstrap.SnapshotActions(r.body.snapshot), n, n);
      }
    } else if p.DrainWait? {
      DrainedKeeps(s, p, r);
    } else {
      SyncedKeeps(s, p.since, r);
      var o := Synced(s, p.since, r);
      FinishKeeps(o.state);
      if p.SyncWait? { NextDrainKeeps(o.state, p.drainAll, false); }
    }
  }

  // ---- steps and runs ----

  lemma EnqueuedKeeps(s: State, request: Request, edit: Edit)
    requires Invariant(s)
    ensures Invariant(Enqueued(s, request, edit))
  {
    hide Queued, Collapse, Optimistic;
    var t := Enqueued(s, request, edit);
    if t != s {
      Enqueueing(s.db.outbox, s.db.nextId, s.history, request, t.history.touched);
    }
  }

  lemma RetriedKeeps(s: State)
    requires Invariant(s)
    ensures Invariant(Retried(s))
  {
    hide Queued, Collapse;
    if s.db.outbox != [] { Retrying(s.db.outbox, s.db.nextId, s.history); }
  }

  lemma SeededKeeps(s: State, issue: Issue)
    requires Invariant(s)
    ensures Invariant(SeededView(s, issue))
  {
    hide Collapse, Increasing, Entries, Seeded;
  }

  lemma StepKeeps(s: State, e: Event)
    requires Invariant(s)
    ensures Invariant(Step(s, e))
  {
    hide Sound, Waiting, Begin, Resume, Enqueued, Retried, SeededView;
    if e.Enqueue? { EnqueuedKeeps(s, e.request, e.edit); }
    else if e.RetryOutbox? { RetriedKeeps(s); }
    else if e.SeedView? { SeededKeeps(s, e.issue); }
    else if e.Maintain? { MaintainKeeps(s, e.drainAll); }
    else if e.Replied? { RepliedKeeps(s, e.k, e.reply); }
    else { SoundWhateverGuard(s, Step(s, e).guard); }
  }

  lemma MaintainKeeps(s: State, drainAll: bool)
    requires Invariant(s)
    ensures Invariant(Step(s, Maintain(drainAll)))
  {
    hide Begin, Collapse, Increasing, Entries;
    if !s.guard.busy { BeginKeeps(s.(guard := s.guard.(busy := true)), drainAll); }
  }

  /** The state in which a pass goes on: it is the one that was waiting, and none is left. */
  lemma Resumes(s: State, k: nat, r: Reply)
    requires Invariant(s) && k < |s.guard.passes|
    ensures var t := s.(guard := s.guard.(passes := []));
            && Running(t) && Sound(t) && Waiting(t, s.guard.passes[0])
            && Step(s, Replied(k, r)) == Resume(t, s.guard.passes[0], r)
  {
    hide Resume, Collapse, Increasing, Entries;
    assert s.guard.passes[..k] + s.guard.passes[k + 1..] == [];
  }

  lemma RepliedKeeps(s: State, k: nat, r: Reply)
    requires Invariant(s)
    ensures Invariant(Step(s, Replied(k, r)))
  {
    hide Resume, Sound, Waiting;
    if k < |s.guard.passes| {
      Resumes(s, k, r);
      ResumeKeeps(s.(guard := s.guard.(passes := [])), s.guard.passes[0], r);
    }
  }

  /**
   * In every run, whatever the server answers: one maintenance pass at most waits for the network,
   * and so one command at most is in flight; accepted commands and the queue make up the commands
   * enqueued, in order; only the head may be refused; and the checkpoint is at most the head.
   */
  lemma {:induction false} RunKeeps(events: seq<Event>)
    ensures Invariant(Run(START, events))
  {
    if events != [] {
      hide Step, Invariant;
      RunKeeps(events[..|events| - 1]);
      StepKeeps(Run(START, events[..|events| - 1]), events[|events| - 1]);
    }
  }
}
