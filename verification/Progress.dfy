/** What runs of the worker do: what stays frozen, what never falls, what ends and what follows. */
module Progress {
  import opened Actions
  import opened Worker
  import opened Outbox
  import opened Protocol

  /** The event is an answer that takes away the right to keep a replica. */
  predicate Revokes(s: State, e: Event) {
    && e.Replied? && e.k < |s.guard.passes|
    && (s.guard.passes[e.k].SyncWait? || s.guard.passes[e.k].FinalSyncWait?)
    && e.reply.Response? && (e.reply.status == 401 || e.reply.status == 403)
  }

  /** No event of the run revokes the replica. */
  ghost predicate Entitled(s: State, events: seq<Event>) {
    forall i :: 0 <= i < |events| ==> !Revokes(Run(s, events[..i]), events[i])
  }

  lemma {:induction false} RunFrom(s: State, events: seq<Event>)
    requires Invariant(s)
    ensures Invariant(Run(s, events))
  {
    hide Step, Invariant;
    if events != [] {
      RunFrom(s, events[..|events| - 1]);
      StepKeeps(Run(s, events[..|events| - 1]), events[|events| - 1]);
    }
  }

  lemma EntitledBefore(s: State, events: seq<Event>)
    requires events != [] && Entitled(s, events)
    ensures Entitled(s, events[..|events| - 1])
    ensures !Revokes(Run(s, events[..|events| - 1]), events[|events| - 1])
  {
    hide Run, Revokes;
    var before := events[..|events| - 1];
    forall i | 0 <= i < |before| ensures !Revokes(Run(s, before[..i]), before[i]) {
      assert before[..i] == events[..i];
    }
  }

  // ---- the guarantees of every run ----

  lemma CollapsePrefix(h: History, q: seq<Command>, nextId: nat)
    requires Queued(q, nextId, h)
    ensures Collapse(h.sent) <= h.enqueued
  {
    hide Collapse, Increasing;
  }

  /**
   * In every run, whatever the server answers: at most one pass waits for the network, so at most
   * one command is in flight, and a pass waits exactly while the guard is held; accepted commands
   * and the queue make up the commands enqueued, in order; the sends, repeats struck out, are a
   * prefix of that order; no command but the head is refused, nor is one in flight while it is; and
   * the checkpoint is at most the server's head.
   */
  lemma RunsAreSafe(events: seq<Event>)
    ensures var s := Run(START, events);
            && |s.guard.passes| == (if s.guard.busy then 1 else 0)
            && s.history.accepted + Entries(s.db.outbox) == s.history.enqueued
            && Collapse(s.history.sent) <= s.history.enqueued
            && s.history.accepted <= Collapse(s.history.sent)
            && (forall i :: 0 < i < |s.db.outbox| ==> s.db.outbox[i].refused == 0)
            && (s.db.outbox != [] && s.db.outbox[0].refused != 0 ==> forall p :: p in s.guard.passes ==> !p.DrainWait?)
            && s.db.checkpoint <= s.db.head
  {
    hide Run, Collapse, Increasing;
    RunKeeps(events);
    var s := Run(START, events);
    CollapsePrefix(s.history, s.db.outbox, s.db.nextId);
  }

  // ---- nothing is sent while the head is refused ----

  predicate HeadRefused(s: State) {
    s.db.outbox != [] && s.db.outbox[0].refused != 0
  }

  /** The sends are the same, and the queue has at most grown at its end. */
  predicate Frozen(s: State, t: State) {
    t.history.sent == s.history.sent && s.db.outbox <= t.db.outbox
  }

  lemma SyncedFrozen(s: State, since: nat, r: Reply)
    requires r.Response? ==> r.status != 401 && r.status != 403
    ensures var t := Synced(s, since, r).state;
            t.db.outbox == s.db.outbox && t.history.sent == s.history.sent
            && t.guard == s.guard && t.history.fullPasses == s.history.fullPasses
  {
    hide Acceptable, Replay, TouchedAfter;
  }

  lemma RepliedFrozen(s: State, k: nat, r: Reply)
    requires Invariant(s) && HeadRefused(s) && !Revokes(s, Replied(k, r))
    ensures Frozen(s, Step(s, Replied(k, r)))
  {
    hide Synced, Sound, Finish, AfterDrain, Drained, Replay;
    if k < |s.guard.passes| {
      Resumes(s, k, r);
      hide Step;
      var p := s.guard.passes[0];
      if p.SyncWait? || p.FinalSyncWait? {
        SyncedFrozen(s.(guard := s.guard.(passes := [])), p.since, r);
      }
    }
  }

  lemma StepFrozen(s: State, e: Event)
    requires Invariant(s) && HeadRefused(s) && !e.RetryOutbox? && !Revokes(s, e)
    ensures Frozen(s, Step(s, e))
  {
    hide Begin, Invariant, Resume, Revokes;
    if e.Replied? { RepliedFrozen(s, e.k, e.reply); }
  }

  /** While the head stands refused, nothing is sent, and the queue keeps every command it has. */
  lemma {:induction false} NothingSentWhileRefused(s: State, events: seq<Event>)
    requires Invariant(s) && HeadRefused(s) && Entitled(s, events) && RetryOutbox !in events
    ensures Frozen(s, Run(s, events))
  {
    hide Step, Invariant, Entitled, Revokes;
    if events != [] {
      var before := events[..|events| - 1];
      EntitledBefore(s, events);
      NothingSentWhileRefused(s, before);
      RunFrom(s, before);
      StepFrozen(Run(s, before), events[|events| - 1]);
    }
  }

  // ---- the checkpoint never falls ----

  lemma SyncedClimbs(s: State, since: nat, r: Reply)
    requires since == s.db.checkpoint && (r.Response? ==> r.status != 401 && r.status != 403)
    ensures s.db.checkpoint <= Synced(s, since, r).state.db.checkpoint
  {
    hide InOrder, Replay, TouchedAfter;
  }

  lemma RepliedClimbs(s: State, k: nat, r: Reply)
    requires Invariant(s) && !Revokes(s, Replied(k, r))
    ensures s.db.checkpoint <= Step(s, Replied(k, r)).db.checkpoint
  {
    hide Synced, Sound, Finish, AfterDrain, Replay, WithoutCommand, Refused, EntriesOf;
    if k < |s.guard.passes| {
      Resumes(s, k, r);
      hide Step;
      var p := s.guard.passes[0];
      if p.SyncWait? || p.FinalSyncWait? {
        SyncedClimbs(s.(guard := s.guard.(passes := [])), p.since, r);
      }
    }
  }

  lemma StepClimbs(s: State, e: Event)
    requires Invariant(s) && !Revokes(s, e)
    ensures s.db.checkpoint <= Step(s, e).db.checkpoint
  {
    hide Begin, Invariant, Resume, Revokes;
    if e.Replied? { RepliedClimbs(s, e.k, e.reply); }
  }

  /** Until the replica is revoked, its checkpoint never falls. */
  lemma {:induction false} CheckpointNeverFalls(s: State, events: seq<Event>)
    requires Invariant(s) && Entitled(s, events)
    ensures s.db.checkpoint <= Run(s, events).db.checkpoint
  {
    hide Step, Invariant, Entitled, Revokes;
    if events != [] {
      var before := events[..|events| - 1];
      EntitledBefore(s, events);
      CheckpointNeverFalls(s, before);
      RunFrom(s, before);
      StepClimbs(Run(s, before), events[|events| - 1]);
    }
  }

  // ---- a revoked replica is empty ----

  /** Revocation leaves no row, no command and no checkpoint behind, and no draining under way. */
  lemma RevocationEmpties(s: State, k: nat, r: Reply)
    requires Invariant(s) && Revokes(s, Replied(k, r))
    ensures var t := Step(s, Replied(k, r));
            && t.db == Database(EMPTY, 0, 0, [], s.db.nextId)
            && forall p :: p in t.guard.passes ==> !p.DrainWait? && !p.FinalSyncWait?
  {
    Resumes(s, k, r);
    hide Step, Queued, HeadSent, Acceptable, Advance;
  }

  // ---- maintenance ends ----

  function PassRank(p: Pass, queue: nat): nat {
    match p
    case BootstrapWait(_) => queue + 3
    case SyncWait(_, _) => queue + 2
    case DrainWait(_, _, _, _) => queue + 1
    case FinalSyncWait(_) => 1
  }

  /** How many answers the worker can still wait for before it is idle. */
  function Rank(s: State): nat {
    (if s.guard.pending then |s.db.outbox| + 3 else 0)
    + (if s.guard.passes == [] then 0 else PassRank(s.guard.passes[0], |s.db.outbox|))
  }

  lemma BeginRank(s: State, drainAll: bool)
    requires Running(s)
    ensures Rank(Begin(s, drainAll)) <= |s.db.outbox| + 3
  {
  }

  lemma FinishRank(s: State)
    requires Running(s)
    ensures Rank(Finish(s)) <= Rank(s)
  {
    hide Begin;
    if s.guard.pending { BeginRank(s, true); }
  }

  lemma AfterDrainRank(s: State, drained: bool)
    requires Running(s)
    ensures Rank(AfterDrain(s, drained)) <= Rank(s) + (if drained then 1 else 0)
  {
    hide Finish;
    if !drained { FinishRank(s); }
  }

  lemma NextDrainRank(s: State, drainAll: bool, drained: bool)
    requires Running(s)
    ensures Rank(NextDrain(s, drainAll, drained)) <= Rank(s) + |s.db.outbox| + 1
  {
    hide AfterDrain;
    AfterDrainRank(s, drained);
  }

  lemma DrainedRank(s: State, p: Pass, r: Reply)
    requires p.DrainWait? && Running(s) && Sound(s) && Waiting(s, p)
    ensures Rank(Drained(s, p, r)) <= Rank(s) + |s.db.outbox|
  {
    hide AfterDrain, NextDrain, Queued, WithoutCommand, EntriesOf, Refused, Collapse;
    var q := s.db.outbox;
    HeadById(q, s.db.nextId, s.history, if r.Failed? then 0 else r.status);
    AfterDrainRank(s, p.drained);
    if r.Response? {
      var t := s.(db := s.db.(outbox := q[1..]), history := s.history.(accepted := s.history.accepted + [EntryOf(q[0])]));
      NextDrainRank(t, true, true);
      AfterDrainRank(t, true);
      AfterDrainRank(s.(db := s.db.(outbox := [q[0].(refused := r.status)] + q[1..])), p.drained);
    }
  }

  lemma SyncedRank(s: State, since: nat, r: Reply)
    ensures var t := Synced(s, since, r).state;
            t.guard == s.guard && |t.db.outbox| <= |s.db.outbox|
  {
    hide Acceptable, Replay, TouchedAfter;
  }

  lemma ResumeRank(s: State, p: Pass, r: Reply)
    requires Running(s) && Sound(s) && Waiting(s, p)
    ensures Rank(Resume(s, p, r)) < Rank(s) + PassRank(p, |s.db.outbox|)
  {
    hide Synced, NextDrain, Finish, Drained, Sound, Waiting, Replay, TouchedAfter, Bootstrap.SnapshotActions;
    if p.DrainWait? {
      DrainedRank(s, p, r);
    } else if !p.BootstrapWait? {
      SyncedRank(s, p.since, r);
      var t := Synced(s, p.since, r).state;
      FinishRank(t);
      if p.SyncWait? { NextDrainRank(t, p.drainAll, false); }
    }
  }

  lemma ReplyLowersRank(s: State, k: nat, r: Reply)
    requires Invariant(s) && k < |s.guard.passes|
    ensures Rank(Step(s, Replied(k, r))) < Rank(s)
  {
    hide Resume, Sound, Waiting, Step;
    Resumes(s, k, r);
    ResumeRank(s.(guard := s.guard.(passes := [])), s.guard.passes[0], r);
  }

  lemma OtherStepsKeepRank(s: State, e: Event)
    requires !e.Maintain? && !e.Enqueue? && (e.Replied? ==> e.k >= |s.guard.passes|)
    ensures Rank(Step(s, e)) == Rank(s)
  {
    hide Resume, Begin, Enqueued, Seeded;
  }

  /** How many requests of a run have been answered. */
  ghost function Answers(s: State, events: seq<Event>): nat {
    if events == [] then 0
    else
      var before, e := events[..|events| - 1], events[|events| - 1];
      Answers(s, before) + (if e.Replied? && e.k < |Run(s, before).guard.passes| then 1 else 0)
  }

  /**
   * Maintenance ends: unless more is asked of the worker or queued, it makes no more requests than
   * its rank, three more than the queue is long, and as many again when a pass is pending.
   */
  lemma {:induction false} MaintenanceEnds(s: State, events: seq<Event>)
    requires Invariant(s)
    requires forall e :: e in events ==> !e.Maintain? && !e.Enqueue?
    ensures Answers(s, events) + Rank(Run(s, events)) <= Rank(s)
    ensures Rank(s) <= 2 * (|s.db.outbox| + 3)
  {
    hide Step, Invariant;
    if events != [] {
      var before, e := events[..|events| - 1], events[|events| - 1];
      MaintenanceEnds(s, before);
      RunFrom(s, before);
      var t := Run(s, before);
      if e.Replied? && e.k < |t.guard.passes| {
        ReplyLowersRank(t, e.k, e.reply);
      } else {
        OtherStepsKeepRank(t, e);
      }
    }
  }

  // ---- a request during a pass is followed by a full pass ----

  /** A pass that drains the whole outbox is pending, or `n` of them have begun. */
  predicate Owes(s: State, n: nat) {
    s.history.fullPasses + (if s.guard.pending then 1 else 0) >= n
  }

  lemma FinishOwes(s: State, n: nat)
    requires Owes(s, n)
    ensures Owes(Finish(s), n)
  {
  }

  lemma NextDrainOwes(s: State, drainAll: bool, drained: bool, n: nat)
    requires Owes(s, n)
    ensures Owes(NextDrain(s, drainAll, drained), n) && Owes(AfterDrain(s, drained), n)
  {
    hide Finish;
    FinishOwes(s, n);
  }

  lemma SyncedOwes(s: State, since: nat, r: Reply)
    ensures Synced(s, since, r).state.history.fullPasses == s.history.fullPasses
  {
    hide Acceptable, Replay, TouchedAfter;
  }

  lemma DrainedOwes(s: State, p: Pass, r: Reply, n: nat)
    requires p.DrainWait? && Owes(s, n)
    ensures Owes(Drained(s, p, r), n)
  {
    hide AfterDrain, NextDrain, WithoutCommand, EntriesOf, Refused;
    NextDrainOwes(s, true, p.drained, n);
    if r.Response? {
      var t := s.(db := s.db.(outbox := WithoutCommand(s.db.outbox, p.id)),
                  history := s.history.(accepted := s.history.accepted + EntriesOf(s.db.outbox, p.id)));
      NextDrainOwes(t, true, true, n);
      NextDrainOwes(s.(db := s.db.(outbox := Refused(s.db.outbox, p.id, r.status))), true, p.drained, n);
    }
  }

  lemma ResumeOwes(s: State, p: Pass, r: Reply, n: nat)
    requires Owes(s, n)
    ensures Owes(Resume(s, p, r), n)
  {
    hide Synced, NextDrain, Finish, Drained, Replay, TouchedAfter, Bootstrap.SnapshotActions;
    if p.DrainWait? {
      DrainedOwes(s, p, r, n);
    } else if !p.BootstrapWait? {
      SyncedRank(s, p.since, r);
      SyncedOwes(s, p.since, r);
      var t := Synced(s, p.since, r).state;
      FinishOwes(t, n);
      if p.SyncWait? { NextDrainOwes(t, p.drainAll, false, n); }
    }
  }

  lemma StepOwes(s: State, e: Event, n: nat)
    requires Invariant(s) && Owes(s, n)
    ensures Owes(Step(s, e), n)
  {
    hide Resume, Enqueued, Sound, Waiting, Seeded;
    if e.Replied? && e.k < |s.guard.passes| {
      var t := s.(guard := s.guard.(passes := s.guard.passes[..e.k] + s.guard.passes[e.k + 1..]));
      ResumeOwes(t, s.guard.passes[e.k], e.reply, n);
    }
  }

  lemma {:induction false} RunOwes(s: State, events: seq<Event>, n: nat)
    requires Invariant(s) && Owes(s, n)
    ensures Owes(Run(s, events), n)
  {
    hide Step, Invariant, Owes;
    if events != [] {
      var before := events[..|events| - 1];
      RunOwes(s, before, n);
      RunFrom(s, before);
      StepOwes(Run(s, before), events[|events| - 1], n);
    }
  }

  /**
   * Maintenance asked for while a pass is under way starts no second pass beside it; but by the time
   * the worker is idle, a pass that drains the whole outbox has begun after the request.
   */
  lemma RequestIsServed(s: State, drainAll: bool, events: seq<Event>)
    requires Invariant(s) && s.guard.busy
    ensures var asked := Step(s, Maintain(drainAll));
            && asked.guard.passes == s.guard.passes
            && (!Run(asked, events).guard.busy ==> Run(asked, events).history.fullPasses > s.history.fullPasses)
  {
    hide Run, Sound, Waiting;
    var asked := Step(s, Maintain(drainAll));
    StepKeeps(s, Maintain(drainAll));
    RunFrom(asked, events);
    RunOwes(asked, events, s.history.fullPasses + 1);
  }
}
