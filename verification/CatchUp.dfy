/** A replica whose syncs are answered with the pages of one log catches up with it. */
module CatchUp {
  import opened Actions
  import opened ReplaySpec
  import opened Worker
  import opened Protocol
  import opened Progress
  import opened Passes
  import opened Mirror

  /** The event answers a sync. */
  predicate AnswersSync(s: State, e: Event) {
    e.Replied? && e.k < |s.guard.passes| && (s.guard.passes[e.k].SyncWait? || s.guard.passes[e.k].FinalSyncWait?)
  }

  predicate AnswersBootstrap(s: State, e: Event) {
    e.Replied? && e.k < |s.guard.passes| && s.guard.passes[e.k].BootstrapWait?
  }

  /**
   * What a server whose log ends at `head` answers: while the replica is behind, a page that takes it
   * further; when it is not, nothing beyond the head, and no snapshot beyond it either.
   */
  ghost predicate Feeds(s: State, e: Event, head: nat) {
    && (AnswersSync(s, e) ==>
          && !Revokes(s, e)
          && (s.db.checkpoint < head ==> Brings(e.reply, s.db.checkpoint) && s.db.checkpoint < e.reply.body.page.to)
          && (Brings(e.reply, s.db.checkpoint) ==> e.reply.body.page.to <= head))
    && (AnswersBootstrap(s, e) && e.reply.Response? && e.reply.body.SnapshotBody? ==> e.reply.body.snapshot.head <= head)
  }

  ghost predicate Fed(s: State, events: seq<Event>, head: nat) {
    forall i :: 0 <= i < |events| ==> Feeds(Run(s, events[..i]), events[i], head)
  }

  /** How many syncs of a run have been answered. */
  ghost function Syncs(s: State, events: seq<Event>): nat {
    if events == [] then 0
    else
      var before, e := events[..|events| - 1], events[|events| - 1];
      Syncs(s, before) + (if AnswersSync(Run(s, before), e) then 1 else 0)
  }

  lemma FedBefore(s: State, events: seq<Event>, head: nat)
    requires events != [] && Fed(s, events, head)
    ensures Fed(s, events[..|events| - 1], head)
    ensures Feeds(Run(s, events[..|events| - 1]), events[|events| - 1], head)
  {
    hide Run, Feeds;
    var before := events[..|events| - 1];
    forall i | 0 <= i < |before| ensures Feeds(Run(s, before[..i]), before[i], head) {
      assert before[..i] == events[..i];
    }
  }

  lemma BootstrapClimbs(s: State, e: Event, head: nat)
    requires Invariant(s) && AnswersBootstrap(s, e) && Feeds(s, e, head)
    ensures s.db.checkpoint == 0 && Step(s, e).db.checkpoint <= head
  {
    Resumes(s, e.k, e.reply);
    hide Step, Sound, Replay, TouchedAfter, Bootstrap.SnapshotActions;
  }

  lemma OthersStay(s: State, e: Event)
    requires Invariant(s) && !AnswersSync(s, e) && !AnswersBootstrap(s, e)
    ensures Step(s, e).db.checkpoint == s.db.checkpoint
  {
    hide Begin, Sound, Drained;
    if e.Replied? && e.k < |s.guard.passes| {
      Resumes(s, e.k, e.reply);
      hide Step;
    }
  }

  /** An answered sync takes a replica that is behind further, and none beyond the head. */
  lemma SyncClimbs(s: State, e: Event, head: nat)
    requires Invariant(s) && s.db.checkpoint <= head && AnswersSync(s, e) && Feeds(s, e, head)
    ensures var t := Step(s, e); t.db.checkpoint <= head && (s.db.checkpoint < head ==> s.db.checkpoint < t.db.checkpoint)
    ensures Step(s, e).db.checkpoint >= s.db.checkpoint
  {
    hide Step, Sound;
    assert e.k == 0;
    if Brings(e.reply, s.db.checkpoint) {
      PageIsApplied(s, e.reply);
    } else {
      OtherAnswerKeeps(s, e.reply);
    }
  }

  lemma StepCatchesUp(s: State, e: Event, head: nat, n: nat)
    requires Invariant(s) && s.db.checkpoint <= head && Feeds(s, e, head)
    requires s.db.checkpoint == head || n <= s.db.checkpoint
    ensures var t := Step(s, e);
            t.db.checkpoint <= head
            && (t.db.checkpoint == head || (if AnswersSync(s, e) then n + 1 else n) <= t.db.checkpoint)
  {
    hide Step, Invariant, Feeds;
    if AnswersSync(s, e) {
      SyncClimbs(s, e, head);
    } else if AnswersBootstrap(s, e) {
      BootstrapClimbs(s, e, head);
    } else {
      OthersStay(s, e);
    }
  }

  /** Each answered sync takes a replica that is behind at least one number further. */
  lemma {:induction false} CatchesUp(s: State, events: seq<Event>, head: nat)
    requires Invariant(s) && s.db.checkpoint <= head && Fed(s, events, head)
    ensures var t := Run(s, events);
            && t.db.checkpoint <= head
            && (t.db.checkpoint == head || s.db.checkpoint + Syncs(s, events) <= t.db.checkpoint)
  {
    hide Step, Invariant, Fed, Feeds;
    if events != [] {
      var before, e := events[..|events| - 1], events[|events| - 1];
      FedBefore(s, events, head);
      CatchesUp(s, before, head);
      RunFrom(s, before);
      StepCatchesUp(Run(s, before), e, head, s.db.checkpoint + Syncs(s, before));
    }
  }

  lemma {:induction false} WholeLog(log: seq<Action>, head: nat)
    requires forall i :: 0 <= i < |log| ==> 0 < log[i].number <= head
    ensures Between(log, 0, head) == log
  {
    if log != [] {
      WholeLog(log[1..], head);
      assert log == [log[0]] + log[1..];
    }
  }

  /**
   * With a server that keeps to one log, a replica that has had as many syncs answered as the log's
   * last number stands at the log's head, and holds what the whole log says: every table, unless a
   * snapshot stood in for the log's beginning, and the tables a snapshot carries in any case.
   */
  lemma ReplicaCatchesUp(log: seq<Action>, events: seq<Event>, head: nat)
    requires Ordered(log, 0) && (forall i :: 0 <= i < |log| ==> 0 < log[i].number <= head)
    requires Served(log, events) && Fed(START, events, head) && Syncs(START, events) >= head
    ensures var s := Run(START, events);
            var whole := Replay(EMPTY, log);
            && s.db.checkpoint == head
            && IssuesAgree(s.db.tables.issues, s.history.touched, whole.issues)
            && Shared(s.db.tables.comments) == whole.comments
            && s.db.tables.attachments == whole.attachments
            && s.db.tables.worklogs == whole.worklogs
            && ((forall e :: e in events && e.Replied? && e.reply.Response? ==> !e.reply.body.SnapshotBody?) ==>
                  Agree(s.db.tables, s.history.touched, whole))
  {
    RunKeeps([]);
    hide Replay, IssuesAgree, Shared, Agree, Served, Fed;
    CatchesUp(START, events, head);
    WholeLog(log, head);
    hide Run;
    ReplicaIsTheLog(log, events);
    if forall e :: e in events && e.Replied? && e.reply.Response? ==> !e.reply.body.SnapshotBody? {
      EveryTableIsTheLog(log, events);
    }
  }
}
