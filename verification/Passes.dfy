/** What a pass does when it is answered well: pages are applied, and the queue is sent in order. */
module Passes {
  import opened Adf
  import opened Actions
  import opened ReplaySpec
  import opened Bootstrap
  import opened Worker
  import opened Outbox
  import opened Protocol
  import opened Progress

  // ---- a page ----

  /** The numbers rise within the page's range and no action fails. */
  ghost predicate Rises(log: seq<Action>, since: int, to: int) {
    && (forall i, j :: 0 <= i < j < |log| ==> log[i].number < log[j].number)
    && (forall i :: 0 <= i < |log| ==> since < log[i].number <= to && !Fails(log[i].change))
  }

  /** A page that goes on from the checkpoint. */
  ghost predicate Good(page: Page, checkpoint: nat) {
    page.from == checkpoint && checkpoint <= page.to <= page.head && Rises(page.actions, checkpoint, page.to)
  }

  ghost predicate Brings(r: Reply, checkpoint: nat) {
    r.Response? && r.status == 200 && r.body.PageBody? && Good(r.body.page, checkpoint)
  }

  lemma {:induction false} RisesInOrder(log: seq<Action>, since: int, to: int)
    ensures Rises(log, since, to) <==> InOrder(log, since, to)
  {
    if log != [] {
      var rest := log[1..];
      RisesInOrder(rest, log[0].number, to);
      assert log == [log[0]] + rest;
      if Rises(log, since, to) {
        assert forall i :: 0 <= i < |rest| ==> rest[i] == log[i + 1];
      }
      if InOrder(log, since, to) {
        assert forall i :: 0 < i < |log| ==> log[i] == rest[i - 1];
      }
    }
  }

  predicate WaitsForSync(s: State) {
    s.guard.passes != [] && (s.guard.passes[0].SyncWait? || s.guard.passes[0].FinalSyncWait?)
  }

  lemma DrainKeepsTables(s: State, drainAll: bool, drained: bool)
    ensures NextDrain(s, drainAll, drained).db == s.db && Finish(s).db == s.db
  {
  }

  /** A good page is applied whole, and the checkpoint and the head are the page's. */
  lemma PageIsApplied(s: State, r: Reply)
    requires Invariant(s) && WaitsForSync(s) && Brings(r, s.db.checkpoint)
    ensures var t := Step(s, Replied(0, r));
            && t.db.checkpoint == r.body.page.to && t.db.head == r.body.page.head
            && t.db.tables == Replay(s.db.tables, r.body.page.actions)
            && t.db.outbox == s.db.outbox
  {
    Resumes(s, 0, r);
    hide Step, NextDrain, Finish, Replay, TouchedAfter, InOrder, Rises, Sound;
    RisesInOrder(r.body.page.actions, s.db.checkpoint, r.body.page.to);
    var t := Synced(s.(guard := s.guard.(passes := [])), s.db.checkpoint, r).state;
    DrainKeepsTables(t, s.guard.passes[0].SyncWait? && s.guard.passes[0].drainAll, false);
  }

  /** Any other answer to a sync, unless it revokes the replica, changes nothing that is stored. */
  lemma OtherAnswerKeeps(s: State, r: Reply)
    requires Invariant(s) && WaitsForSync(s) && !Brings(r, s.db.checkpoint) && !Revokes(s, Replied(0, r))
    ensures Step(s, Replied(0, r)).db == s.db
  {
    Resumes(s, 0, r);
    hide Step, NextDrain, Finish, Replay, TouchedAfter, InOrder, Rises, Sound;
    if r.Response? && r.body.PageBody? {
      RisesInOrder(r.body.page.actions, s.db.checkpoint, r.body.page.to);
    }
    var t := Synced(s.(guard := s.guard.(passes := [])), s.db.checkpoint, r).state;
    DrainKeepsTables(t, s.guard.passes[0].SyncWait? && s.guard.passes[0].drainAll, false);
  }

  /** After an answer to its first sync that neither brings a page nor says there is none, a pass sends nothing and is over. */
  lemma FailedSyncEnds(s: State, drainAll: bool, r: Reply)
    requires Invariant(s) && s.guard.passes == [SyncWait(drainAll, s.db.checkpoint)]
    requires !Brings(r, s.db.checkpoint) && !(r.Response? && r.status == 304)
    ensures var t := Step(s, Replied(0, r));
            && (!Revokes(s, Replied(0, r)) ==> t.db == s.db && t.history.sent == s.history.sent && t.history.accepted == s.history.accepted)
            && (forall p :: p in t.guard.passes ==> !p.DrainWait? && !p.FinalSyncWait?)
            && (!s.guard.pending ==> !t.guard.busy && t.guard.passes == [])
  {
    Resumes(s, 0, r);
    hide Step, Replay, TouchedAfter, InOrder, Rises, Sound;
    if r.Response? && r.body.PageBody? {
      RisesInOrder(r.body.page.actions, s.db.checkpoint, r.body.page.to);
    }
  }

  // ---- a pass begins ----

  /** With the network known to be off nothing is asked for, and the worker is idle. */
  lemma OfflineAsksNothing(s: State, drainAll: bool)
    requires Invariant(s) && !s.guard.busy && !s.guard.online
    ensures var t := Step(s, Maintain(drainAll)); t.db == s.db && !t.guard.busy && t.guard.passes == []
  {
    hide Sound;
  }

  /** Asked for while nothing is under way and the network is on, a pass asks for a page, or first for a snapshot. */
  lemma PassAsks(s: State, drainAll: bool)
    requires Invariant(s) && !s.guard.busy && s.guard.online
    ensures var t := Step(s, Maintain(drainAll));
            && t.db == s.db && t.guard.busy
            && t.guard.passes == if s.db.checkpoint == 0 && s.db.tables.issues == map[] then [BootstrapWait(drainAll)]
                                 else [SyncWait(drainAll, s.db.checkpoint)]
  {
    hide Sound;
  }

  /** Whatever is answered to that, the page is asked for next. */
  lemma SnapshotThenPage(s: State, drainAll: bool, r: Reply)
    requires Invariant(s) && s.guard.passes == [BootstrapWait(drainAll)]
    ensures var t := Step(s, Replied(0, r)); t.guard.passes == [SyncWait(drainAll, t.db.checkpoint)] && t.db.outbox == s.db.outbox
  {
    Resumes(s, 0, r);
    hide Step, Sound, Advance;
  }

  /**
   * A snapshot of the tables that a log makes leaves, in a replica without any rows, those tables and the
   * snapshot's number; any other answer leaves what is stored.
   */
  lemma SnapshotIsApplied(s: State, drainAll: bool, snapshot: Snapshot, log: seq<Action>)
    requires Invariant(s) && s.guard.passes == [BootstrapWait(drainAll)]
    requires CoreOf(s.db.tables) == CoreOf(EMPTY) && SnapshotOf(snapshot, Replay(EMPTY, log))
    ensures var t := Step(s, Replied(0, Response(200, SnapshotBody(snapshot))));
            && CoreOf(t.db.tables) == CoreOf(Replay(EMPTY, log))
            && t.db.checkpoint == snapshot.head && t.db.head == snapshot.head && t.db.outbox == s.db.outbox
  {
    Resumes(s, 0, Response(200, SnapshotBody(snapshot)));
    hide Step, Sound, Replay, SnapshotOf, SnapshotActions, TouchedAfter, CoreOf;
    SnapshotInstalls(snapshot, s.db.tables, log);
  }

  lemma OtherSnapshotKeeps(s: State, drainAll: bool, r: Reply)
    requires Invariant(s) && s.guard.passes == [BootstrapWait(drainAll)]
    requires r.Response? ==> r.status != 200 || !r.body.SnapshotBody?
    ensures Step(s, Replied(0, r)).db == s.db
  {
    Resumes(s, 0, r);
    hide Step, Sound;
  }

  // ---- draining ----

  /** A command that can be sent: not refused, and a request can be made of it. */
  predicate Goes(c: Command) {
    c.refused == 0 && c.request.sendable
  }

  /** How many commands stand before the first that is refused or cannot be sent. */
  function Going(q: seq<Command>): (n: nat)
    ensures n <= |q| && (forall i :: 0 <= i < n ==> Goes(q[i])) && (n < |q| ==> !Goes(q[n]))
  {
    if q == [] || !Goes(q[0]) then 0 else 1 + Going(q[1..])
  }

  predicate Accepts(r: Reply) {
    r.Response? && 200 <= r.status < 300
  }

  /** An answer after which the pass goes on to send. */
  ghost predicate Continues(r: Reply, checkpoint: nat) {
    Brings(r, checkpoint) || (r.Response? && r.status == 304)
  }

  function Replies(replies: seq<Reply>): (events: seq<Event>)
    ensures |events| == |replies| && forall i :: 0 <= i < |replies| ==> events[i] == Replied(0, replies[i])
  {
    seq(|replies|, i requires 0 <= i < |replies| => Replied(0, replies[i]))
  }

  /** What is left to be done when no command is to be sent: the last sync if any was, or nothing. */
  predicate Ended(s: State, t: State, drained: bool) {
    if drained then t == s.(guard := s.guard.(passes := [FinalSyncWait(s.db.checkpoint)]))
    else if s.guard.pending then
      t.db == s.db && t.history.sent == s.history.sent && t.history.accepted == s.history.accepted
    else t == s.(guard := s.guard.(busy := false))
  }

  /** The next command is sent, or the pass ends. */
  predicate SendsOrEnds(s: State, t: State, drainAll: bool, drained: bool) {
    if Going(s.db.outbox) > 0 then
      var head := s.db.outbox[0];
      t == s.(guard := s.guard.(passes := [DrainWait(drainAll, head.id, |s.db.outbox|, drained)]),
              history := s.history.(sent := s.history.sent + [EntryOf(head)]))
    else Ended(s, t, drained)
  }

  lemma NextSends(s: State, drainAll: bool, drained: bool)
    requires Running(s)
    ensures SendsOrEnds(s, NextDrain(s, drainAll, drained), drainAll, drained)
    ensures Ended(s, AfterDrain(s, drained), drained)
  {
    hide Begin;
  }

  /** When the sync is answered, the head is sent if it can be. */
  lemma SyncThenSends(s: State, drainAll: bool, r: Reply)
    requires Invariant(s) && s.guard.passes == [SyncWait(drainAll, s.db.checkpoint)] && Continues(r, s.db.checkpoint)
    ensures var t := Step(s, Replied(0, r));
            exists u: State :: SendsOrEnds(u, t, drainAll, false) && u.db.outbox == s.db.outbox
              && u.guard == s.guard.(passes := []) && u.history.sent == s.history.sent && u.history.accepted == s.history.accepted
  {
    Resumes(s, 0, r);
    hide Step, NextDrain, Replay, TouchedAfter, InOrder, Rises, Sound, SendsOrEnds;
    if r.body.PageBody? { RisesInOrder(r.body.page.actions, s.db.checkpoint, r.body.page.to); }
    var u := Synced(s.(guard := s.guard.(passes := [])), s.db.checkpoint, r).state;
    NextSends(u, drainAll, false);
  }

  /** When the head is accepted, it leaves the queue; the next is sent if all are to be. */
  lemma AcceptedThenSends(s: State, drainAll: bool, id: nat, drained: bool, r: Reply)
    requires Invariant(s) && s.guard.passes == [DrainWait(drainAll, id, |s.db.outbox|, drained)] && Accepts(r)
    ensures var t := Step(s, Replied(0, r));
            var u := s.(guard := s.guard.(passes := []),
                        db := s.db.(outbox := s.db.outbox[1..]),
                        history := s.history.(accepted := s.history.accepted + [EntryOf(s.db.outbox[0])]));
            if drainAll && |s.db.outbox| != 1 then SendsOrEnds(u, t, true, true) else Ended(u, t, true)
  {
    Resumes(s, 0, r);
    hide Step, NextDrain, AfterDrain, WithoutCommand, EntriesOf, Refused, Queued, SendsOrEnds, Ended, Collapse;
    HeadById(s.db.outbox, s.db.nextId, s.history, r.status);
    var u := s.(guard := s.guard.(passes := []),
                db := s.db.(outbox := s.db.outbox[1..]),
                history := s.history.(accepted := s.history.accepted + [EntryOf(s.db.outbox[0])]));
    NextSends(u, true, true);
  }

  // ---- whole passes ----

  lemma {:induction false} RunJoins(s: State, a: seq<Event>, b: seq<Event>)
    ensures Run(s, a + b) == Run(Run(s, a), b)
  {
    hide Step;
    if b == [] {
      assert a + b == a;
    } else {
      var n := |b| - 1;
      RunJoins(s, a, b[..n]);
      assert (a + b)[..|a + b| - 1] == a + b[..n];
    }
  }

  lemma RunOne(s: State, e: Event)
    ensures Run(s, [e]) == Step(s, e)
  {
    hide Step;
    assert [e][..0] == [];
  }

  lemma {:induction false} GoingOn(q: seq<Command>, k: nat)
    requires k <= Going(q)
    ensures Going(q[k..]) == Going(q) - k
  {
    if k > 0 {
      GoingOn(q[1..], k - 1);
      assert q[1..][k - 1..] == q[k..];
    } else {
      assert q[0..] == q;
    }
  }

  /** Midway: so many commands are accepted, and the next is on its way. */
  predicate Midway(s: State, t: State, k: nat) {
    && k < |s.db.outbox|
    && t.db == s.db.(outbox := s.db.outbox[k..])
    && t.guard == s.guard.(passes := t.guard.passes)
    && |t.guard.passes| == 1 && t.guard.passes[0].DrainWait? && t.guard.passes[0].drainAll
    && t.guard.passes[0].id == s.db.outbox[k].id && t.guard.passes[0].size == |s.db.outbox| - k
    && t.history.sent == s.history.sent + Entries(s.db.outbox[..k + 1])
    && t.history.accepted == s.history.accepted + Entries(s.db.outbox[..k])
  }

  /** All that can be sent has been, and what it made is fetched. */
  predicate Sent(s: State, t: State, n: nat) {
    && n <= |s.db.outbox|
    && t.db == s.db.(outbox := s.db.outbox[n..])
    && t.guard == s.guard.(passes := [FinalSyncWait(s.db.checkpoint)])
    && t.history.sent == s.history.sent + Entries(s.db.outbox[..n])
    && t.history.accepted == s.history.accepted + Entries(s.db.outbox[..n])
  }

  lemma EntriesSnoc(q: seq<Command>, k: nat)
    requires k < |q|
    ensures Entries(q[..k + 1]) == Entries(q[..k]) + [EntryOf(q[k])]
  {
  }

  lemma OneMoreSent(s: State, t: State, k: nat, r: Reply)
    requires Midway(s, t, k) && Invariant(t) && k < Going(s.db.outbox) && Accepts(r)
    ensures var u := Step(t, Replied(0, r));
            if k + 1 < Going(s.db.outbox) then Midway(s, u, k + 1) else Sent(s, u, k + 1)
  {
    hide Step, Invariant, Going, Entries;
    var q := s.db.outbox;
    AcceptedThenSends(t, true, q[k].id, t.guard.passes[0].drained, r);
    GoingOn(q, k + 1);
    EntriesSnoc(q, k);
    assert q[k..][1..] == q[k + 1..] && q[k..][0] == q[k];
    if k + 1 < |q| {
      EntriesSnoc(q, k + 1);
      assert q[k + 1..][0] == q[k + 1];
    } else {
      assert q[k + 1..] == [];
      NoneGoes();
    }
  }

  lemma NoneGoes()
    ensures Going([]) == 0
  {
  }

  /** As often as commands can go, one after the other is sent and accepted. */
  lemma {:induction false} SendsInOrder(s: State, t: State, oks: seq<Reply>, k: nat)
    requires Midway(s, t, 0) && Invariant(t) && (forall r :: r in oks ==> Accepts(r))
    requires k <= |oks| == Going(s.db.outbox) && 0 < |oks|
    ensures var u := Run(t, Replies(oks[..k]));
            Invariant(u) && if k < |oks| then Midway(s, u, k) else Sent(s, u, k)
    decreases k
  {
    hide Step, Invariant, Going, Entries, Midway, Sent, Accepts;
    if k == 0 {
      assert Replies(oks[..0]) == [];
    } else {
      SendsInOrder(s, t, oks, k - 1);
      var u := Run(t, Replies(oks[..k - 1]));
      var events := Replies(oks[..k]);
      assert events[..|events| - 1] == Replies(oks[..k - 1]) && events[|events| - 1] == Replied(0, oks[k - 1]);
      assert oks[k - 1] in oks;
      OneMoreSent(s, u, k - 1, oks[k - 1]);
      StepKeeps(u, Replied(0, oks[k - 1]));
    }
  }

  /** The queue's first commands have left it, sent and accepted in their order. */
  predicate Delivered(s: State, t: State, n: nat) {
    && n <= |s.db.outbox|
    && t.db.outbox == s.db.outbox[n..]
    && t.history.sent == s.history.sent + Entries(s.db.outbox[..n])
    && t.history.accepted == s.history.accepted + Entries(s.db.outbox[..n])
  }

  lemma MidwayBegins(u: State, t: State)
    requires SendsOrEnds(u, t, true, false) && Going(u.db.outbox) > 0
    ensures Midway(u, t, 0)
  {
    hide Going;
    var q := u.db.outbox;
    assert q[0..] == q && q[..0] == [] && q[..1] == [q[0]];
    assert Entries(q[..1]) == [EntryOf(q[0])];
    assert u.history.accepted + Entries([]) == u.history.accepted;
  }

  lemma NoEvents(s: State)
    ensures Run(s, Replies([])) == s
  {
  }

  lemma NoneDelivered(s: State, t: State)
    requires t.db.outbox == s.db.outbox && t.history.sent == s.history.sent && t.history.accepted == s.history.accepted
    ensures Delivered(s, t, 0)
  {
    var q := s.db.outbox;
    assert q[..0] == [] && q[0..] == q && Entries([]) == [];
    assert s.history.accepted + [] == s.history.accepted && s.history.sent + [] == s.history.sent;
  }

  /** Once the first send is due, all that can go are delivered, and then one sync is left if any was. */
  lemma SendsAll(u: State, t: State, oks: seq<Reply>)
    requires SendsOrEnds(u, t, true, false) && Invariant(t)
    requires |oks| == Going(u.db.outbox) && forall r :: r in oks ==> Accepts(r)
    ensures var v := Run(t, Replies(oks));
            && Invariant(v) && Delivered(u, v, |oks|)
            && (oks != [] ==> v.guard == u.guard.(passes := [FinalSyncWait(v.db.checkpoint)]))
            && (oks == [] && !u.guard.pending ==> v.guard == u.guard.(busy := false))
  {
    hide Step, Run, Invariant, Going, Entries;
    if oks == [] {
      NoEvents(t);
      NoneDelivered(u, t);
    } else {
      MidwayBegins(u, t);
      SendsInOrder(u, t, oks, |oks|);
      assert oks[..|oks|] == oks;
    }
  }

  lemma DeliveredFrom(s: State, u: State, t: State, n: nat)
    requires u.db.outbox == s.db.outbox && u.history.sent == s.history.sent && u.history.accepted == s.history.accepted
    requires Delivered(u, t, n)
    ensures Delivered(s, t, n)
  {
  }

  /** A pass that drains the whole queue, up to its last sync. */
  lemma FullPassSends(s: State, sync: Reply, oks: seq<Reply>)
    requires Invariant(s) && s.guard.passes == [SyncWait(true, s.db.checkpoint)]
    requires Continues(sync, s.db.checkpoint)
    requires |oks| == Going(s.db.outbox) && forall r :: r in oks ==> Accepts(r)
    ensures var t := Run(s, [Replied(0, sync)] + Replies(oks));
            && Invariant(t) && Delivered(s, t, |oks|)
            && (oks != [] ==> t.guard == s.guard.(passes := [FinalSyncWait(t.db.checkpoint)]))
            && (oks == [] && !s.guard.pending ==> t.guard == s.guard.(busy := false, passes := []))
  {
    var t := Step(s, Replied(0, sync));
    RunJoins(s, [Replied(0, sync)], Replies(oks));
    RunOne(s, Replied(0, sync));
    SyncThenSends(s, true, sync);
    StepKeeps(s, Replied(0, sync));
    assert s.guard.busy;
    hide Step, Run, Invariant, Going, Continues, Delivered, SendsOrEnds;
    var u: State :| SendsOrEnds(u, t, true, false) && u.db.outbox == s.db.outbox
      && u.guard == s.guard.(passes := []) && u.history.sent == s.history.sent && u.history.accepted == s.history.accepted;
    SendsAll(u, t, oks);
    DeliveredFrom(s, u, Run(t, Replies(oks)), |oks|);
  }

  /** The last sync ends the pass, whatever is answered. */
  lemma LastSyncEnds(s: State, r: Reply)
    requires Invariant(s) && s.guard.passes == [FinalSyncWait(s.db.checkpoint)]
    ensures var t := Step(s, Replied(0, r));
            && (!s.guard.pending ==> t.guard == s.guard.(busy := false, passes := []))
            && (!Revokes(s, Replied(0, r)) ==>
                  t.db.outbox == s.db.outbox && t.history.sent == s.history.sent && t.history.accepted == s.history.accepted)
  {
    Resumes(s, 0, r);
    hide Step, Replay, TouchedAfter, InOrder, Sound;
  }

  /**
   * A pass that drains the whole queue and is answered well sends every command that stands before the
   * first that is refused or cannot be sent, each once and in order; those alone leave the queue. When
   * every command can be sent, the queue is then empty. The worker is idle, unless more was asked for.
   */
  lemma FullPassDrains(s: State, sync: Reply, oks: seq<Reply>, last: Reply)
    requires Invariant(s) && s.guard.passes == [SyncWait(true, s.db.checkpoint)]
    requires Continues(sync, s.db.checkpoint)
    requires |oks| == Going(s.db.outbox) && forall r :: r in oks ==> Accepts(r)
    requires last.Response? ==> last.status != 401 && last.status != 403
    ensures var t := Run(s, [Replied(0, sync)] + Replies(oks) + if oks == [] then [] else [Replied(0, last)]);
            && Delivered(s, t, |oks|)
            && (!s.guard.pending ==> !t.guard.busy && t.guard.passes == [])
            && ((forall c :: c in s.db.outbox ==> Goes(c)) ==> t.db.outbox == [] && |oks| == |s.db.outbox|)
  {
    hide Step, Run, Invariant, Going, Goes, Continues, Entries, Accepts;
    var events := [Replied(0, sync)] + Replies(oks);
    var t := Run(s, events);
    RunJoins(s, events, [Replied(0, last)]);
    RunOne(t, Replied(0, last));
    if forall c :: c in s.db.outbox ==> Goes(c) { AllGo(s.db.outbox); }
    FullPassSends(s, sync, oks);
    if oks == [] {
      assert events + [] == events;
    } else {
      LastSyncEnds(t, last);
    }
  }

  lemma AllGo(q: seq<Command>)
    requires forall c :: c in q ==> Goes(c)
    ensures Going(q) == |q|
  {
    if Going(q) < |q| { assert q[Going(q)] in q; }
  }

  /** A pass that does not drain the whole queue sends the head alone, if it can be sent. */
  lemma ShortPassSends(s: State, sync: Reply, ok: Reply)
    requires Invariant(s) && s.guard.passes == [SyncWait(false, s.db.checkpoint)]
    requires Continues(sync, s.db.checkpoint) && Accepts(ok)
    ensures var t := Run(s, [Replied(0, sync), Replied(0, ok)]);
            if s.db.outbox != [] && Goes(s.db.outbox[0]) then
              Delivered(s, t, 1) && t.guard.passes == [FinalSyncWait(t.db.checkpoint)]
            else !s.guard.pending ==> Delivered(s, t, 0) && !t.guard.busy && t.guard.passes == []
  {
    var t := Step(s, Replied(0, sync));
    assert [Replied(0, sync)] + [Replied(0, ok)] == [Replied(0, sync), Replied(0, ok)];
    RunJoins(s, [Replied(0, sync)], [Replied(0, ok)]);
    RunOne(s, Replied(0, sync));
    RunOne(t, Replied(0, ok));
    SyncThenSends(s, false, sync);
    StepKeeps(s, Replied(0, sync));
    hide Run, Invariant, Continues, Delivered;
    var u: State :| SendsOrEnds(u, t, false, false) && u.db.outbox == s.db.outbox
      && u.guard == s.guard.(passes := []) && u.history.sent == s.history.sent && u.history.accepted == s.history.accepted;
    if Going(s.db.outbox) > 0 {
      HeadDelivered(s, u, t, ok);
    } else {
      if !s.guard.pending {
        assert Step(t, Replied(0, ok)) == t;
        NoneDelivered(s, t);
      }
    }
  }

  lemma HeadDelivered(s: State, u: State, t: State, ok: Reply)
    requires SendsOrEnds(u, t, false, false) && Going(u.db.outbox) > 0 && Invariant(t) && Accepts(ok)
    requires u.db.outbox == s.db.outbox && u.history.sent == s.history.sent && u.history.accepted == s.history.accepted
    ensures var v := Step(t, Replied(0, ok)); Delivered(s, v, 1) && v.guard.passes == [FinalSyncWait(v.db.checkpoint)]
  {
    hide Step, Going, Invariant;
    AcceptedThenSends(t, false, u.db.outbox[0].id, false, ok);
    assert u.db.outbox[..1] == [u.db.outbox[0]];
  }

  /**
   * A send that is not accepted takes no command out of the queue and is the pass's last: the head is
   * marked with the status that refuses it, or kept to be sent again.
   */
  lemma SendEndsPass(s: State, drainAll: bool, id: nat, size: nat, drained: bool, r: Reply)
    requires Invariant(s) && s.guard.passes == [DrainWait(drainAll, id, size, drained)] && !Accepts(r)
    ensures var t := Step(s, Replied(0, r));
            && t.history.sent == s.history.sent && t.history.accepted == s.history.accepted
            && t.db.outbox == (if r.Response? && 400 <= r.status < 500 && r.status != 408 && r.status != 425 && r.status != 429
                               then [s.db.outbox[0].(refused := r.status)] + s.db.outbox[1..] else s.db.outbox)
            && (drained ==> t.guard.passes == [FinalSyncWait(s.db.checkpoint)])
            && (!drained && !s.guard.pending ==> !t.guard.busy && t.guard.passes == [])
  {
    Resumes(s, 0, r);
    hide Step, NextDrain, WithoutCommand, EntriesOf, Refused, Queued, Collapse;
    HeadById(s.db.outbox, s.db.nextId, s.history, if r.Response? then r.status else 0);
  }
}
